/** The value types shared by every part of the match model.

    The source keeps these as validated strings; each becomes a datatype here, so a value
    outside the canonical enumeration cannot be written down. */
module Domain {

  /** A space identifier: the empty identifier, the four spaces the planner knows by name, and
      every other name of the board specification, numbered. */
  datatype SpaceID = NoSpace | Bang | BackMo | BackMoDo | BackMoGae | Space(number: nat)

  datatype Team = TeamA | TeamB

  datatype PieceState = Waiting | OnBoard | HomeCheckpoint | Finished

  datatype YutResult = Do | Gae | Geol | Yut | Mo | Backdo | Buk

  datatype Route = Normal | Shortcut

  datatype ShortcutPolicy = Selectable | Forced

  datatype MovementOrder = Fifo | Free

  datatype CaptureExtraThrow = Always | DoToGeolPlusSpecial | Never

  /** A piece state and, when the piece stands on the board, its logical space. */
  datatype Position = Position(state: PieceState, space: SpaceID)

  datatype Option<+T> = None | Some(value: T)

  /** A successful value or the error the source would have returned. */
  datatype Outcome<+T, +E> = Ok(value: T) | Err(error: E)

  /** The room settings that the rules engine reads. */
  datatype Settings = Settings(
    pieceCount: nat,
    stackingEnabled: bool,
    captureExtraThrow: CaptureExtraThrow,
    yutMoExtraThrow: bool,
    shortcutPolicy: ShortcutPolicy,
    backdoEnabled: bool,
    bukModeEnabled: bool,
    randomBukDestination: bool,
    movementOrder: MovementOrder)

  /** A room or match identifier; zero stands for the empty one, which no operation accepts. */
  type RoomID = nat

  type MatchID = nat

  const MAX_UINT64: nat := 0xffff_ffff_ffff_ffff

  predicate Distinct(ids: seq<nat>) {
    forall i, j :: 0 <= i < j < |ids| ==> ids[i] != ids[j]
  }

  function Opponent(team: Team): Team {
    match team
    case TeamA => TeamB
    case TeamB => TeamA
  }

  /** The forward distance of an ordinary throw; Backdo and Buk have none. */
  function OrdinarySpaces(result: YutResult): Option<nat> {
    match result
    case Do => Some(1)
    case Gae => Some(2)
    case Geol => Some(3)
    case Yut => Some(4)
    case Mo => Some(5)
    case Backdo => None
    case Buk => None
  }
}
