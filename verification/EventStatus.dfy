/** What every step does to the room's status: its match, its pause, its statistics, its closing. */
module EventStatus {
  import opened Domain
  import opened EventCommit
  import opened EventInvariants
  import opened EventTheorems
  import opened EventAnnounced

  /** A batch for a live match meets a store that is down. */
  predicate Refused(room: Room, a: Action) {
    EventsIn(a) != [] && Heard(room, a) && !StoreIsUp(a) && !Paused(room)
  }

  /** The armed retry fires. */
  predicate Retries(room: Room, a: Action) {
    a.DoRetry? && Paused(room) && room.runtime.value.retryAttempt == a.expected
  }

  predicate CarriesResult(room: Room, a: Action) {
    if a.DoRetry? then room.runtime.Some? && room.runtime.value.pendingResult
    else (a.DoFlush? || a.DoPresence?) && a.result
  }

  predicate Reconnects(a: Action) {
    a.DoPresence? && a.connected
  }

  predicate Empties(a: Action) {
    a.DoPresence? && !a.connected && a.allAway
  }

  /** The room after a step, told from the room and the action. */
  ghost predicate StatusFollows(room: Room, a: Action, after: Room) {
    var ends := Finishes(room, a) || GivesUp(room, a);
    && (after.closed <==> room.closed || (a.DoExpire? && GivesUp(room, a)))
    && (after.poisoned <==> room.poisoned || (a.DoFlush? && EventsIn(a) != [] && !Heard(room, a)))
    && after.nextMatch == room.nextMatch + (if a.DoBegin? then 1 else 0)
    && after.results ==
      room.results + (if Finishes(room, a) && CarriesResult(room, a) then [LiveMatch(room, a).value] else [])
    && (after.runtime.Some? <==> LiveMatch(room, a).Some? && !ends)
    && (after.runtime.Some? ==> MatchFollows(room, a, after.runtime.value))
  }

  /** A match that goes on. */
  ghost predicate MatchFollows(room: Room, a: Action, rt: Runtime) {
    && LiveMatch(room, a) == Some(rt.matchID)
    && (rt.storagePaused <==> Refused(room, a) || (Paused(room) && !(Retries(room, a) && a.up && a.upAgain)))
    && (rt.finishAfterSave <==>
      (Refused(room, a) && FinishesIn(a)) || (Paused(room) && room.runtime.value.finishAfterSave))
    && (rt.pendingResult <==>
      (Refused(room, a) && CarriesResult(room, a)) || (Paused(room) && room.runtime.value.pendingResult))
    && (rt.allDisconnected <==>
      Empties(a) || (!Reconnects(a) && !a.DoBegin? && room.runtime.value.allDisconnected))
    && (rt.storagePaused ==> rt.retryAttempt == NextAttempt(room, a))
  }

  /** How many retries have failed since the last one that succeeded or was started afresh. */
  function NextAttempt(room: Room, a: Action): nat {
    if !Paused(room) then 0
    else if Retries(room, a) then (if a.up then 0 else a.expected + 1)
    else if Reconnects(a) && room.runtime.value.retryTimer == None then 0
    else room.runtime.value.retryAttempt
  }

  lemma FlushStatus(room: Room, events: seq<Event>, result: bool, finish: bool, up: bool)
    requires Inv(room) && Allowed(room, DoFlush(events, result, finish, up))
    ensures StatusFollows(room, DoFlush(events, result, finish, up), Flush(room, events, result, finish, up))
  {
    hide Mirrors, Ends, RowsOf, NoticesReach, StoredRows, Ledger, OnlyNoticesUnstored;
    if events == [] {
      EmptyEndsNothing(room, events, result, finish);
    } else {
      ContiguousAppend(room.store, StoredRows(room.log), Numbered(events, room.boundary + 1), up);
      ResultFinishes(room, events, result, finish);
    }
  }

  lemma ResultFinishes(room: Room, events: seq<Event>, result: bool, finish: bool)
    requires EndingOk(room, events, result, finish)
    ensures (result ==> finish) && (finish ==> room.runtime.Some? && events != [])
  {
  }

  lemma RetryStatus(room: Room, expected: nat, up: bool, upAgain: bool)
    requires Inv(room)
    ensures StatusFollows(room, DoRetry(expected, up, upAgain), FireStorageRetry(room, expected, up, upAgain))
  {
    hide Mirrors, Ends, RowsOf, NoticesReach, StoredRows, Ledger, OnlyNoticesUnstored, DuplicateKey, WithRows,
      Delivered;
    if Retries(room, DoRetry(expected, up, upAgain)) {
      var rt := room.runtime.value;
      ContiguousAppend(room.store, StoredRows(room.log), rt.pending, up);
      if up {
        RecoveredCore(room, rt);
        var results := if rt.pendingResult then [rt.matchID] else [];
        var saved := Commit(room, WithRows(room.store, rt.pending), rt.pending, results);
        ContiguousAppend(saved.store, StoredRows(saved.log), [Row(saved.boundary + 1, GameResumed(rt.matchID))],
          upAgain);
      }
    }
  }

  lemma DeferredStatus(room: Room, connected: bool, allAway: bool, events: seq<Event>, result: bool, finish: bool,
      up: bool)
    requires Inv(room) && Paused(room) && Allowed(room, DoPresence(connected, allAway, events, result, finish, up))
    ensures StatusFollows(room, DoPresence(connected, allAway, events, result, finish, up),
      Presence(room, connected, allAway, events, result, finish, up))
  {
    hide Core, Numbered, Flush, EndingOk;
  }

  lemma PresenceStatus(room: Room, connected: bool, allAway: bool, events: seq<Event>, result: bool, finish: bool,
      up: bool)
    requires Inv(room) && Allowed(room, DoPresence(connected, allAway, events, result, finish, up))
    ensures StatusFollows(room, DoPresence(connected, allAway, events, result, finish, up),
      Presence(room, connected, allAway, events, result, finish, up))
  {
    hide Inv, Allowed, Numbered, Flush;
    PresenceFlushes(room, connected, allAway, events, result, finish, up);
    if room.runtime.None? {
    } else if Paused(room) {
      DeferredStatus(room, connected, allAway, events, result, finish, up);
    } else {
      hide Presence;
      FlushStatus(Away(room, connected, allAway), events, result, finish, up);
    }
  }

  lemma BeginStatus(room: Room, events: seq<Event>, up: bool)
    requires Inv(room) && Allowed(room, DoBegin(events, up))
    ensures StatusFollows(room, DoBegin(events, up), BeginMatch(room, events, up))
  {
    hide Inv, Flush, NoEnd;
    BegunInv(room, events, up);
    FlushStatus(Begun(room), events, false, false, up);
  }

  lemma ExpiryStatus(room: Room, up: bool)
    requires Inv(room)
    ensures StatusFollows(room, DoExpire(up), PresenceExpiry(room, up))
  {
    hide Core, Append, Terminal, Delivered;
  }

  /** What an allowed step does to the room's status. */
  lemma StepStatus(room: Room, a: Action)
    requires Inv(room) && Allowed(room, a)
    ensures StatusFollows(room, a, Perform(room, a))
  {
    hide Inv, StatusFollows, BeginMatch, Flush, FireStorageRetry, Presence, PresenceExpiry, EndingOk, NoEnd;
    match a {
      case DoBegin(events, up) => BeginStatus(room, events, up);
      case DoFlush(events, result, finish, up) => FlushStatus(room, events, result, finish, up);
      case DoRetry(expected, up, upAgain) => RetryStatus(room, expected, up, upAgain);
      case DoPresence(connected, allAway, events, result, finish, up) =>
        PresenceStatus(room, connected, allAway, events, result, finish, up);
      case DoExpire(up) => ExpiryStatus(room, up);
    }
  }

  // ----- When a match is abandoned -----

  /** A match that is over never comes back. */
  lemma {:induction false} OverStaysOver(room: Room, actions: seq<Action>, m: MatchID)
    requires Inv(room) && AllowedRun(room, actions)
    requires m < room.nextMatch && !(room.runtime.Some? && room.runtime.value.matchID == m)
    ensures !(Run(room, actions).runtime.Some? && Run(room, actions).runtime.value.matchID == m)
    decreases |actions|
  {
    hide Inv, Perform, Allowed;
    if actions != [] {
      StepKeepsInv(room, actions[0]);
      StepStatus(room, actions[0]);
      OverStaysOver(Perform(room, actions[0]), actions[1..], m);
    }
  }

  predicate NoneReconnects(actions: seq<Action>, from: nat) {
    forall j :: from <= j < |actions| ==> !Reconnects(actions[j])
  }

  /** Everyone left during the actions, or had left before, and nobody came back since. */
  predicate LeftEmpty(before: bool, actions: seq<Action>) {
    (before && NoneReconnects(actions, 0))
    || exists k :: 0 <= k < |actions| && Empties(actions[k]) && NoneReconnects(actions, k + 1)
  }

  lemma LeftEmptyFirst(before: bool, actions: seq<Action>)
    requires actions != []
    ensures LeftEmpty(before, actions) <==>
      LeftEmpty(Empties(actions[0]) || (!Reconnects(actions[0]) && before), actions[1..])
  {
    var rest := actions[1..];
    assert forall j :: 0 <= j < |rest| ==> rest[j] == actions[j + 1];
    forall k: nat | k <= |rest|
      ensures NoneReconnects(rest, k) <==> NoneReconnects(actions, k + 1)
    {
      if NoneReconnects(rest, k) {
        forall j | k + 1 <= j < |actions|
          ensures !Reconnects(actions[j])
        {
          assert !Reconnects(rest[j - 1]);
        }
      }
    }
    if k :| 0 <= k < |rest| && Empties(rest[k]) && NoneReconnects(rest, k + 1) {
      assert Empties(actions[k + 1]) && NoneReconnects(actions, k + 1 + 1);
    }
    if k :| 0 <= k < |actions| && Empties(actions[k]) && NoneReconnects(actions, k + 1) {
      assert NoneReconnects(rest, k);
      assert k > 0 ==> Empties(rest[k - 1]) && NoneReconnects(rest, k - 1 + 1);
    }
  }

  /** A match is taken for abandoned exactly when everyone left it and nobody has come back since, whatever
      else happened to it. */
  lemma {:induction false} AbandonedExactly(room: Room, actions: seq<Action>)
    requires Inv(room) && AllowedRun(room, actions) && room.runtime.Some?
    requires Run(room, actions).runtime.Some?
    requires Run(room, actions).runtime.value.matchID == room.runtime.value.matchID
    ensures Run(room, actions).runtime.value.allDisconnected <==> LeftEmpty(room.runtime.value.allDisconnected, actions)
    decreases |actions|
  {
    hide Inv, Perform, Allowed, LeftEmpty;
    if actions == [] {
      NobodyActed(room.runtime.value.allDisconnected);
    } else {
      var next := Perform(room, actions[0]);
      LiveBelow(room);
      StepKeepsInv(room, actions[0]);
      StepStatus(room, actions[0]);
      BeginsNothing(room, actions[0]);
      if !(next.runtime.Some? && next.runtime.value.matchID == room.runtime.value.matchID) {
        OverStaysOver(next, actions[1..], room.runtime.value.matchID);
      }
      AbandonedExactly(next, actions[1..]);
      LeftEmptyFirst(room.runtime.value.allDisconnected, actions);
    }
  }

  lemma NobodyActed(before: bool)
    ensures LeftEmpty(before, []) <==> before
  {
  }

  lemma LiveBelow(room: Room)
    requires Inv(room) && room.runtime.Some?
    ensures room.runtime.value.matchID < room.nextMatch
  {
    hide Core;
  }

  lemma BeginsNothing(room: Room, a: Action)
    requires Allowed(room, a) && room.runtime.Some?
    ensures !a.DoBegin?
  {
  }
}
