/** Why a turn throws again: every throw is granted exactly once, for the reason it records. */
module TurnThrows {
  import opened Domain
  import opened TurnQueue
  import opened TurnMachine

  function IsExtraResult(r: YutResult): bool {
    r == Yut || r == Mo
  }

  /** The throws a call grants, told from the call alone and the cap: the opening throw, one for a Yut or
      Mo when the room allows it, and one for a rewarded capture that does not end the match. */
  function Grants(t: Turn, a: Action): nat {
    if Perform(t, a).Err? then 0
    else
      match a
      case CallStart => 1
      case CallRecordThrow(token) =>
        if t.yutMoExtra && IsExtraResult(token.result) && !t.capped && |t.queue.tokens| + 1 < MAX_TOKENS then 1 else 0
      case CallCompleteMove(_, move) => if move.captureExtraThrow && !move.matchEnded && !t.capped then 1 else 0
      case CallCompleteBuk(_, buk) => if buk.captureExtraThrow && !buk.matchEnded && !t.capped then 1 else 0
      case _ => 0
  }

  function AllGrants(t: Turn, actions: seq<Action>): nat
    decreases |actions|
  {
    if actions == [] then 0 else Grants(t, actions[0]) + AllGrants(After(t, actions[0]), actions[1..])
  }

  function Awaited(t: Turn): nat {
    if t.Throwing() then 1 else 0
  }

  lemma StepGrants(t: Turn, a: Action)
    requires t.Inv()
    ensures Awaited(t) + Grants(t, a) == |Generated(t, a)| + Awaited(After(t, a))
  {
    hide Available, Queue.Consume, Turn.Movable;
  }

  lemma {:induction false} GrantsBalance(t: Turn, actions: seq<Action>)
    requires t.Inv()
    ensures Awaited(t) + AllGrants(t, actions) == |AllGenerated(t, actions)| + Awaited(Run(t, actions))
    decreases |actions|
  {
    hide Grants, Generated, After, Turn.Inv, Awaited;
    if actions != [] {
      StepGrants(t, actions[0]);
      StepInv(t, actions[0]);
      GrantsBalance(After(t, actions[0]), actions[1..]);
    }
  }

  /** In every history of a turn, each granted throw was made or is still awaited, and no other was made. */
  lemma ThrowsAreGranted(player: PlayerID, order: MovementOrder, yutMoExtra: bool, actions: seq<Action>)
    requires player != 0
    ensures var t := NewTurn(player, order, yutMoExtra);
      |AllGenerated(t, actions)| + Awaited(Run(t, actions)) == AllGrants(t, actions)
  {
    hide Grants, Generated;
    GrantsBalance(NewTurn(player, order, yutMoExtra), actions);
  }

  /** The reason for the next throw after one more call. */
  function NextReason(t: Turn, a: Action, reason: Option<Origin>): Option<Origin> {
    if Perform(t, a).Err? then reason
    else
      match a
      case CallStart => Some(InitialThrow)
      case CallRecordThrow(token) =>
        if token.result == Yut then Some(YutExtra) else if token.result == Mo then Some(MoExtra) else None
      case CallCompleteMove(_, move) => if move.captureExtraThrow then Some(CaptureExtra) else None
      case CallCompleteBuk(_, buk) => if buk.captureExtraThrow then Some(CaptureExtra) else None
      case _ => reason
  }

  /** The reason told from the accepted calls alone. */
  function Reason(t: Turn, actions: seq<Action>, reason: Option<Origin>): Option<Origin>
    decreases |actions|
  {
    if actions == [] then reason else Reason(After(t, actions[0]), actions[1..], NextReason(t, actions[0], reason))
  }

  lemma {:induction false} OriginFollows(t: Turn, actions: seq<Action>, reason: Option<Origin>)
    requires t.Throwing() ==> t.expectedOrigin == reason
    ensures Run(t, actions).Throwing() ==> Run(t, actions).expectedOrigin == Reason(t, actions, reason)
    decreases |actions|
  {
    hide Available, Queue.Consume, Queue.Append, Turn.Movable;
    if actions != [] {
      OriginFollows(After(t, actions[0]), actions[1..], NextReason(t, actions[0], reason));
    }
  }

  /** Whatever was called before, an accepted throw carries the reason for which it was granted. */
  lemma OriginsAreReasons(player: PlayerID, order: MovementOrder, yutMoExtra: bool, actions: seq<Action>, token: Token)
    ensures var t := NewTurn(player, order, yutMoExtra);
      Run(t, actions).RecordThrow(token).Ok? ==> Some(token.origin) == Reason(t, actions, None)
  {
    OriginFollows(NewTurn(player, order, yutMoExtra), actions, None);
  }
}
