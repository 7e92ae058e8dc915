/** Every event of every step is announced or staged, once and in order, and nothing else is. */
module EventAnnounced {
  import opened Domain
  import opened EventCommit
  import opened EventInvariants
  import opened EventTheorems

  function Pending(room: Room): seq<Row> {
    if room.runtime.Some? then room.runtime.value.pending else []
  }

  /** All rows that clients were told, and those that are staged for them, in order. */
  function Announced(room: Room): seq<Row> {
    RowsOf(room.log) + Pending(room)
  }

  /** The number that the next row of the room gets. */
  function NextNumber(room: Room): nat {
    room.boundary + |Pending(room)| + 1
  }

  /** The events that an action brings along. */
  function EventsIn(a: Action): seq<Event> {
    match a
    case DoBegin(events, _) => events
    case DoFlush(events, _, _, _) => events
    case DoPresence(_, _, events, _, _, _) => events
    case _ => []
  }

  predicate StoreIsUp(a: Action) {
    match a
    case DoBegin(_, up) => up
    case DoFlush(_, _, _, up) => up
    case DoPresence(_, _, _, _, _, up) => up
    case _ => true
  }

  /** The match that an action finds or begins. */
  function LiveMatch(room: Room, a: Action): Option<MatchID> {
    if a.DoBegin? then Some(room.nextMatch)
    else if room.runtime.Some? then Some(room.runtime.value.matchID)
    else None
  }

  predicate Paused(room: Room) {
    room.runtime.Some? && room.runtime.value.storagePaused
  }

  /** An action's events are lost only when no match is there to wait for the store, or to be told about. */
  predicate Heard(room: Room, a: Action) {
    if a.DoPresence? then room.runtime.Some?
    else LiveMatch(room, a).Some? || StoreIsUp(a)
  }

  predicate FinishesIn(a: Action) {
    (a.DoFlush? || a.DoPresence?) && a.finish
  }

  /** A refused batch of a live match starts a pause, which is announced behind it unless the match is finishing. */
  predicate Pauses(room: Room, a: Action) {
    EventsIn(a) != [] && Heard(room, a) && !StoreIsUp(a) && !Paused(room) && !FinishesIn(a)
  }

  /** What an action adds to everything announced or staged so far, told from the room and the action. */
  function AddedEvents(room: Room, a: Action): seq<Event> {
    match a
    case DoRetry(expected, up, _) =>
      if !Paused(room) || room.runtime.value.retryAttempt != expected then []
      else if up then (if room.runtime.value.finishAfterSave then [] else [GameResumed(room.runtime.value.matchID)])
      else if GivesUp(room, a) then [GameEnded(room.runtime.value.matchID, RetryExhausted), RoomPostMatch]
      else []
    case DoExpire(_) =>
      if GivesUp(room, a) then [GameEnded(room.runtime.value.matchID, AllDisconnected), RoomClosed] else []
    case _ =>
      (if Heard(room, a) then EventsIn(a) else [])
      + (if Pauses(room, a) then [GamePaused(LiveMatch(room, a).value)] else [])
  }

  ghost predicate AnnouncesExactly(room: Room, a: Action, after: Room) {
    Announced(after) == Announced(room) + Numbered(AddedEvents(room, a), NextNumber(room))
  }

  lemma NumberedConcat(x: seq<Event>, y: seq<Event>, first: nat)
    ensures Numbered(x + y, first) == Numbered(x, first) + Numbered(y, first + |x|)
  {
  }

  lemma NothingAdded(room: Room, a: Action, after: Room)
    requires after.log == room.log && Pending(after) == Pending(room) && AddedEvents(room, a) == []
    ensures AnnouncesExactly(room, a, after)
  {
    assert Announced(room) + [] == Announced(room);
  }

  /** The rows are staged behind what is staged already. */
  lemma Staged(room: Room, a: Action, after: Room)
    requires after.log == room.log
    requires Pending(after) == Pending(room) + Numbered(AddedEvents(room, a), NextNumber(room))
    ensures AnnouncesExactly(room, a, after)
  {
    assert RowsOf(room.log) + (Pending(room) + Numbered(AddedEvents(room, a), NextNumber(room))) ==
      Announced(room) + Numbered(AddedEvents(room, a), NextNumber(room));
  }

  /** The staged rows are delivered, more rows with them, and perhaps others are staged. */
  lemma DeliveredOrStaged(room: Room, a: Action, after: Room, more: seq<Row>, stored: bool)
    requires after.log == room.log + Delivered(Pending(room) + more, stored)
    requires more + Pending(after) == Numbered(AddedEvents(room, a), NextNumber(room))
    ensures AnnouncesExactly(room, a, after)
  {
    hide Delivered, Numbered;
    Deliver(room.log, Pending(room) + more, stored);
    assert RowsOf(room.log) + (Pending(room) + more) + Pending(after) ==
      RowsOf(room.log) + Pending(room) + (more + Pending(after));
  }

  lemma NothingPending(room: Room)
    requires Inv(room) && !Paused(room)
    ensures Pending(room) == []
  {
    hide Core;
  }

  /** A refused flush of a live match stages its rows, and the pause marker behind them. */
  lemma RefusedFlush(room: Room, events: seq<Event>, result: bool, finish: bool)
    requires Inv(room) && Allowed(room, DoFlush(events, result, finish, false)) && events != [] && room.runtime.Some?
    ensures var after := Flush(room, events, result, finish, false);
      var marker := if finish then [] else [GamePaused(room.runtime.value.matchID)];
      after.log == room.log && Pending(after) == Numbered(events + marker, room.boundary + 1)
  {
    hide Core, RuntimeOk, EndingOk;
    FlushFailsOnlyWhenDown(room, events, result, finish, false);
    var marker := if finish then [] else [GamePaused(room.runtime.value.matchID)];
    NumberedConcat(events, marker, room.boundary + 1);
    assert Numbered(events, room.boundary + 1) + [] == Numbered(events, room.boundary + 1);
  }

  lemma FlushAnnounces(room: Room, events: seq<Event>, result: bool, finish: bool, up: bool)
    requires Inv(room) && Allowed(room, DoFlush(events, result, finish, up))
    ensures AnnouncesExactly(room, DoFlush(events, result, finish, up), Flush(room, events, result, finish, up))
  {
    hide Core, RuntimeOk, EndingOk, Ends, RowsOf, Numbered, Delivered, Announced, AnnouncesExactly;
    var a, after := DoFlush(events, result, finish, up), Flush(room, events, result, finish, up);
    NothingPending(room);
    if events == [] {
      NothingAdded(room, a, after);
    } else {
      FlushFailsOnlyWhenDown(room, events, result, finish, up);
      var rows := Numbered(events, room.boundary + 1);
      assert [] + rows == rows && rows + [] == rows && events + [] == events;
      if up {
        FlushClears(room, events, result, finish);
        DeliveredOrStaged(room, a, after, rows, true);
      } else if room.runtime.Some? {
        RefusedFlush(room, events, result, finish);
        assert [] + Pending(after) == Pending(after);
        Staged(room, a, after);
      } else {
        NothingAdded(room, a, after);
      }
    }
  }

  lemma FlushClears(room: Room, events: seq<Event>, result: bool, finish: bool)
    requires Inv(room) && Allowed(room, DoFlush(events, result, finish, true)) && events != []
    ensures Pending(Flush(room, events, result, finish, true)) == []
  {
    hide Core, RuntimeOk, EndingOk;
    FlushFailsOnlyWhenDown(room, events, result, finish, true);
    NothingPending(room);
  }

  lemma RetryAnnounces(room: Room, expected: nat, up: bool, upAgain: bool)
    requires Inv(room)
    ensures AnnouncesExactly(room, DoRetry(expected, up, upAgain), FireStorageRetry(room, expected, up, upAgain))
  {
    hide Core, Ends, RowsOf, Delivered, FireStorageRetry, Announced, AnnouncesExactly;
    var a, after := DoRetry(expected, up, upAgain), FireStorageRetry(room, expected, up, upAgain);
    if room.runtime.Some? && room.runtime.value.storagePaused && room.runtime.value.retryAttempt == expected {
      var rt := room.runtime.value;
      var resumed := [Row(NextNumber(room), GameResumed(rt.matchID))];
      assert rt.pending + [] == rt.pending && resumed + [] == resumed && [] + resumed == resumed;
      if up {
        HealthyRetryRecovers(room, upAgain);
        RetryClears(room, upAgain);
        DeliveredConcat(room.log, rt.pending, resumed);
        if !rt.finishAfterSave && upAgain {
          DeliveredOrStaged(room, a, after, resumed, true);
        } else {
          DeliveredOrStaged(room, a, after, [], true);
        }
      } else {
        FailingRetry(room, upAgain);
        if after.runtime.Some? {
          NothingAdded(room, a, after);
        } else {
          var next := NextNumber(room);
          DeliveredOrStaged(room, a, after,
            [Row(next, GameEnded(rt.matchID, RetryExhausted)), Row(next + 1, RoomPostMatch)], upAgain);
        }
      }
    } else {
      RetryIgnored(room, expected, up, upAgain);
      NothingAdded(room, a, after);
    }
  }

  lemma RetryClears(room: Room, upAgain: bool)
    requires Inv(room) && Paused(room)
    ensures var rt := room.runtime.value;
      Pending(FireStorageRetry(room, rt.retryAttempt, true, upAgain)) ==
        if rt.finishAfterSave || upAgain then [] else [Row(NextNumber(room), GameResumed(rt.matchID))]
  {
    hide Core, Delivered;
    var rt := room.runtime.value;
    HealthyRetryRecovers(room, upAgain);
    RetryKeepsInv(room, rt.retryAttempt, true, upAgain);
    if !rt.finishAfterSave && upAgain {
      NothingPending(FireStorageRetry(room, rt.retryAttempt, true, upAgain));
    }
  }

  lemma ExpiryAnnounces(room: Room, up: bool)
    requires Inv(room)
    ensures AnnouncesExactly(room, DoExpire(up), PresenceExpiry(room, up))
  {
    hide Core, Ends, RowsOf, Delivered, PresenceExpiry, Announced, AnnouncesExactly;
    var a, after := DoExpire(up), PresenceExpiry(room, up);
    ExpiryDelivers(room, up);
    if room.runtime.Some? && room.runtime.value.allDisconnected {
      var rt := room.runtime.value;
      var next := NextNumber(room);
      var rows := Terminal(rt.pending, next, rt.matchID, AllDisconnected, RoomClosed);
      var stored :| after.log == room.log + Delivered(rows, stored);
      ExpiryClears(room, up);
      DeliveredOrStaged(room, a, after,
        [Row(next, GameEnded(rt.matchID, AllDisconnected)), Row(next + 1, RoomClosed)], stored);
    } else {
      NothingAdded(room, a, after);
    }
  }

  lemma ExpiryClears(room: Room, up: bool)
    requires Inv(room) && room.runtime.Some? && room.runtime.value.allDisconnected
    ensures Pending(PresenceExpiry(room, up)) == []
  {
    hide Core, RuntimeOk, Append, Terminal;
  }

  lemma PresenceAnnounces(room: Room, connected: bool, allAway: bool, events: seq<Event>, result: bool, finish: bool,
      up: bool)
    requires Inv(room) && Allowed(room, DoPresence(connected, allAway, events, result, finish, up))
    ensures AnnouncesExactly(room, DoPresence(connected, allAway, events, result, finish, up),
      Presence(room, connected, allAway, events, result, finish, up))
  {
    hide Core, RowsOf, Flush, Numbered, Allowed, RuntimeOk, AnnouncesExactly;
    var a := DoPresence(connected, allAway, events, result, finish, up);
    var after := Presence(room, connected, allAway, events, result, finish, up);
    PresenceFlushes(room, connected, allAway, events, result, finish, up);
    if room.runtime.None? {
      NothingAdded(room, a, after);
    } else if room.runtime.value.storagePaused {
      assert events + [] == events;
      DeferredRows(room, connected, allAway, events, result, finish, up);
      Staged(room, a, after);
    } else {
      var away := Away(room, connected, allAway);
      FlushAnnounces(away, events, result, finish, up);
      AwayAnnounces(room, away, a, DoFlush(events, result, finish, up), after);
    }
  }

  /** During a pause the events of a change of presence are staged behind the pending rows. */
  lemma DeferredRows(room: Room, connected: bool, allAway: bool, events: seq<Event>, result: bool, finish: bool,
      up: bool)
    requires Inv(room) && Paused(room)
    ensures Pending(Presence(room, connected, allAway, events, result, finish, up)) ==
      Pending(room) + Numbered(events, NextNumber(room))
  {
    hide Core, RuntimeOk, Numbered;
  }

  /** Two rooms that announce the same, and two actions that add the same. */
  lemma AwayAnnounces(room: Room, other: Room, a: Action, b: Action, after: Room)
    requires Announced(other) == Announced(room) && NextNumber(other) == NextNumber(room)
    requires AddedEvents(other, b) == AddedEvents(room, a) && AnnouncesExactly(other, b, after)
    ensures AnnouncesExactly(room, a, after)
  {
  }

  lemma BeginAnnounces(room: Room, events: seq<Event>, up: bool)
    requires Inv(room) && Allowed(room, DoBegin(events, up))
    ensures AnnouncesExactly(room, DoBegin(events, up), BeginMatch(room, events, up))
  {
    hide Inv, Flush, NoEnd, RowsOf, AnnouncesExactly;
    BegunInv(room, events, up);
    FlushAnnounces(Begun(room), events, false, false, up);
    AwayAnnounces(room, Begun(room), DoBegin(events, up), DoFlush(events, false, false, up),
      BeginMatch(room, events, up));
  }

  /** Every allowed step adds exactly its own events to what is announced or staged, numbered on, behind
      everything before them, and the markers of the pause, resumption or end it causes. */
  lemma StepAnnounces(room: Room, a: Action)
    requires Inv(room) && Allowed(room, a)
    ensures AnnouncesExactly(room, a, Perform(room, a))
  {
    hide Inv, AnnouncesExactly, BeginMatch, Flush, FireStorageRetry, Presence, PresenceExpiry, EndingOk, NoEnd;
    match a {
      case DoBegin(events, up) => BeginAnnounces(room, events, up);
      case DoFlush(events, result, finish, up) => FlushAnnounces(room, events, result, finish, up);
      case DoRetry(expected, up, upAgain) => RetryAnnounces(room, expected, up, upAgain);
      case DoPresence(connected, allAway, events, result, finish, up) =>
        PresenceAnnounces(room, connected, allAway, events, result, finish, up);
      case DoExpire(up) => ExpiryAnnounces(room, up);
    }
  }

  /** The rows that the steps of a run add, one step after another. */
  ghost function AddedRows(room: Room, actions: seq<Action>): seq<Row>
    decreases |actions|
  {
    if actions == [] then []
    else Numbered(AddedEvents(room, actions[0]), NextNumber(room)) + AddedRows(Perform(room, actions[0]), actions[1..])
  }

  lemma {:induction false} RunAnnouncesFrom(room: Room, actions: seq<Action>)
    requires Inv(room) && AllowedRun(room, actions)
    ensures Announced(Run(room, actions)) == Announced(room) + AddedRows(room, actions)
    decreases |actions|
  {
    hide Inv, Perform, Allowed, Announced, AddedEvents, Numbered;
    if actions == [] {
      assert Announced(room) + [] == Announced(room);
    } else {
      var next := Perform(room, actions[0]);
      StepKeepsInv(room, actions[0]);
      StepAnnounces(room, actions[0]);
      RunAnnouncesFrom(next, actions[1..]);
      var first := Numbered(AddedEvents(room, actions[0]), NextNumber(room));
      assert Announced(room) + first + AddedRows(next, actions[1..]) ==
        Announced(room) + (first + AddedRows(next, actions[1..]));
    }
  }

  /** In every run what was announced or is staged is exactly what the steps added: every event of a step
      that a live match hears is there once, in the order of the steps, and nothing is lost or invented. */
  lemma RunAnnounces(actions: seq<Action>)
    requires AllowedRun(NEW_ROOM, actions)
    ensures Announced(Run(NEW_ROOM, actions)) == AddedRows(NEW_ROOM, actions)
  {
    hide Inv, Run, AddedRows, AllowedRun;
    NewRoomInv();
    RunAnnouncesFrom(NEW_ROOM, actions);
    assert RowsOf([]) == [];
    assert [] + AddedRows(NEW_ROOM, actions) == AddedRows(NEW_ROOM, actions);
  }

  /** What was announced or staged is never dropped or reordered afterwards. */
  lemma RunLosesNothing(room: Room, actions: seq<Action>)
    requires Inv(room) && AllowedRun(room, actions)
    ensures exists rest :: Announced(Run(room, actions)) == Announced(room) + rest
  {
    hide Inv, Run, AddedRows, AllowedRun;
    RunAnnouncesFrom(room, actions);
  }
}
