/** The server's check of a reconnect bundle: one snapshot and the events that follow it. */
module ReconnectSync {
  import opened Domain
  import opened SequenceText

  const MAX_EVENTS: nat := 128

  /** A decoded envelope; text that does not decode is None. */
  datatype EventScope = EventScope(sequence: Sequence, room: RoomID, matchID: Option<MatchID>)

  datatype SnapshotScope = SnapshotScope(room: RoomID, matchID: MatchID, sequence: Sequence)

  datatype Command = Command(isReconnect: bool, room: RoomID, matchID: Option<MatchID>, lastSequence: Option<Sequence>)

  datatype Bundle = Bundle(snapshot: Option<SnapshotScope>, events: seq<Option<EventScope>>)

  datatype SyncError =
    | TooManyEvents | InvalidCommand | InvalidSnapshot | WrongRoom | WrongMatch | RollsBack
    | SequenceOverflow | InvalidEvent | NotContiguous

  predicate EventFollows(snapshot: SnapshotScope, k: nat, event: Option<EventScope>) {
    && event.Some? && event.value.sequence as nat == snapshot.sequence + k + 1
    && event.value.room == snapshot.room
    && (event.value.matchID.Some? ==> event.value.matchID.value == snapshot.matchID)
  }

  /** What an accepted bundle looks like. */
  predicate BundleOk(command: Command, bundle: Bundle) {
    && |bundle.events| <= MAX_EVENTS
    && command.isReconnect && command.matchID.Some? && command.lastSequence.Some?
    && bundle.snapshot.Some? && bundle.snapshot.value.sequence != 0
    && bundle.snapshot.value.room == command.room && bundle.snapshot.value.matchID == command.matchID.value
    && command.lastSequence.value <= bundle.snapshot.value.sequence
    && forall k :: 0 <= k < |bundle.events| ==> EventFollows(bundle.snapshot.value, k, bundle.events[k])
  }

  /** What is wrong with the command and the snapshot, the first that applies. */
  function HeadProblem(command: Command, bundle: Bundle): Option<SyncError> {
    if |bundle.events| > MAX_EVENTS then Some(TooManyEvents)
    else if !command.isReconnect || command.matchID.None? || command.lastSequence.None? then Some(InvalidCommand)
    else if bundle.snapshot.None? || bundle.snapshot.value.sequence == 0 then Some(InvalidSnapshot)
    else if bundle.snapshot.value.room != command.room then Some(WrongRoom)
    else if bundle.snapshot.value.matchID != command.matchID.value then Some(WrongMatch)
    else if bundle.snapshot.value.sequence < command.lastSequence.value then Some(RollsBack)
    else None
  }

  /** What is wrong with event k behind the snapshot. */
  function EventProblem(snapshot: SnapshotScope, k: nat, event: Option<EventScope>): Option<SyncError> {
    if snapshot.sequence + k >= MAX_UINT64 then Some(SequenceOverflow)
    else if event.None? then Some(InvalidEvent)
    else if event.value.sequence as nat != snapshot.sequence + k + 1 then Some(NotContiguous)
    else if event.value.room != snapshot.room then Some(WrongRoom)
    else if event.value.matchID.Some? && event.value.matchID.value != snapshot.matchID then Some(WrongMatch)
    else None
  }

  /** Event k is the first one that does not follow, and the problem is what is wrong with it. */
  ghost predicate FirstWrong(bundle: Bundle, k: nat, problem: Option<SyncError>) {
    && bundle.snapshot.Some? && k < |bundle.events|
    && problem == EventProblem(bundle.snapshot.value, k, bundle.events[k])
    && forall j :: 0 <= j < k ==> EventFollows(bundle.snapshot.value, j, bundle.events[j])
  }

  /** The error names the first thing that is wrong. */
  method ValidateReconnect(command: Command, bundle: Bundle) returns (r: Option<SyncError>)
    ensures r == None <==> BundleOk(command, bundle)
    ensures HeadProblem(command, bundle).Some? ==> r == HeadProblem(command, bundle)
    ensures HeadProblem(command, bundle).None? && r.Some? ==> exists k :: FirstWrong(bundle, k, r)
  {
    if |bundle.events| > MAX_EVENTS {
      return Some(TooManyEvents);
    }
    if !command.isReconnect || command.matchID.None? || command.lastSequence.None? {
      return Some(InvalidCommand);
    }
    if bundle.snapshot.None? || bundle.snapshot.value.sequence == 0 {
      return Some(InvalidSnapshot);
    }
    var snapshot := bundle.snapshot.value;
    if snapshot.room != command.room {
      return Some(WrongRoom);
    }
    if snapshot.matchID != command.matchID.value {
      return Some(WrongMatch);
    }
    if snapshot.sequence < command.lastSequence.value {
      return Some(RollsBack);
    }
    var expected := snapshot.sequence;
    for k := 0 to |bundle.events|
      invariant expected as nat == snapshot.sequence + k
      invariant forall j :: 0 <= j < k ==> EventFollows(snapshot, j, bundle.events[j])
    {
      if expected == MAX_UINT64 {
        assert !EventFollows(snapshot, k, bundle.events[k]);
        assert FirstWrong(bundle, k, Some(SequenceOverflow));
        return Some(SequenceOverflow);
      }
      expected := expected + 1;
      var event := bundle.events[k];
      if event.None? {
        assert !EventFollows(snapshot, k, bundle.events[k]);
        assert FirstWrong(bundle, k, Some(InvalidEvent));
        return Some(InvalidEvent);
      }
      if event.value.sequence != expected {
        assert !EventFollows(snapshot, k, bundle.events[k]);
        assert FirstWrong(bundle, k, Some(NotContiguous));
        return Some(NotContiguous);
      }
      if event.value.room != snapshot.room {
        assert !EventFollows(snapshot, k, bundle.events[k]);
        assert FirstWrong(bundle, k, Some(WrongRoom));
        return Some(WrongRoom);
      }
      if event.value.matchID.Some? && event.value.matchID.value != snapshot.matchID {
        assert !EventFollows(snapshot, k, bundle.events[k]);
        assert FirstWrong(bundle, k, Some(WrongMatch));
        return Some(WrongMatch);
      }
    }
    return None;
  }
}
