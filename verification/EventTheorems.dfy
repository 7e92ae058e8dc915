/** What clients and operators can rely on, in every run of the commit protocol. */
module EventTheorems {
  import opened Domain
  import opened EventCommit
  import opened EventInvariants

  /** In every run from a new room: the store holds exactly the sequences 1..n, everything delivered
      after being stored is the store's contents in sequence order, everything else delivered belongs to
      the notice of a failed termination, pending rows continue at n + 1, and no statistics are applied
      twice or without the one stored end of their match. */
  lemma EveryRun(actions: seq<Action>)
    requires AllowedRun(NEW_ROOM, actions)
    ensures var room := Run(NEW_ROOM, actions);
      var stored := StoredRows(room.log);
      && (forall n :: n in room.store <==> 1 <= n <= |stored|)
      && (forall i :: 0 <= i < |stored| ==> stored[i] == Row(i + 1, room.store[i + 1]))
      && OnlyNoticesUnstored(room.log)
      && (!room.closed ==> room.boundary == |stored|)
      && (room.runtime.Some? ==> Contiguous(room.runtime.value.pending, |stored| + 1))
      && Distinct(room.results)
      && (forall m :: m in room.results ==> Ends(stored, m) == 1 && Ends(RowsOf(room.log), m) == 1)
      && (forall m :: Ends(RowsOf(room.log), m) <= 2)
  {
    hide Ends, StoredRows, RowsOf, Run, AllowedRun;
    NewRoomInv();
    RunKeepsInv(NEW_ROOM, actions);
  }

  /** A paused match is never forgotten: a retry is armed, or everyone is away and the watchdog holds it. */
  lemma PausedMatchMovesOn(actions: seq<Action>)
    requires AllowedRun(NEW_ROOM, actions)
    ensures var room := Run(NEW_ROOM, actions);
      room.runtime.Some? && room.runtime.value.storagePaused ==>
        var rt := room.runtime.value;
        && !room.closed && !room.poisoned && rt.pending != []
        && (if rt.retryTimer == None then rt.allDisconnected
            else rt.retryTimer == Some(rt.retryAttempt) && rt.retryAttempt < |RETRY_DELAYS|)
  {
    hide Core, Ends, RowsOf, Run, AllowedRun;
    NewRoomInv();
    RunKeepsInv(NEW_ROOM, actions);
  }

  // ----- A healthy store -----

  /** No step ever offers the store a taken key: a flush fails exactly when the store is down. */
  lemma FlushFailsOnlyWhenDown(room: Room, events: seq<Event>, result: bool, finish: bool, up: bool)
    requires Inv(room) && Allowed(room, DoFlush(events, result, finish, up)) && events != []
    ensures var after := Flush(room, events, result, finish, up);
      if up then
        && after.log == room.log + Delivered(Numbered(events, room.boundary + 1), true)
        && after.boundary == room.boundary + |events| && !after.poisoned
        && after.results == room.results + (if result then [room.runtime.value.matchID] else [])
        && after.runtime == (if finish then None else room.runtime)
      else
        && after.log == room.log && after.store == room.store && after.boundary == room.boundary
          && after.results == room.results
        && (if room.runtime.Some? then after.runtime.Some? && after.runtime.value.storagePaused else after.poisoned)
  {
    hide Mirrors, Ends, RowsOf, NoticesReach, StoredRows, Ledger;
    ContiguousAppend(room.store, StoredRows(room.log), Numbered(events, room.boundary + 1), up);
  }

  /** A retry against a healthy store delivers the whole pending batch, then the match ends or resumes;
      the resume marker alone can send it back into the pause. */
  lemma HealthyRetryRecovers(room: Room, upAgain: bool)
    requires Inv(room) && room.runtime.Some? && room.runtime.value.storagePaused
    ensures var rt := room.runtime.value;
      var after := FireStorageRetry(room, rt.retryAttempt, true, upAgain);
      var resumed := [Row(room.boundary + |rt.pending| + 1, GameResumed(rt.matchID))];
      && after.results == room.results + (if rt.pendingResult then [rt.matchID] else [])
      && (rt.finishAfterSave ==> after.runtime == None && after.log == room.log + Delivered(rt.pending, true))
      && (!rt.finishAfterSave && upAgain ==>
        && after.runtime.Some? && !after.runtime.value.storagePaused
        && after.log == room.log + Delivered(rt.pending, true) + Delivered(resumed, true))
      && (!rt.finishAfterSave && !upAgain ==>
        && after.runtime.Some? && after.runtime.value.pending == resumed && after.runtime.value.retryTimer == Some(0)
        && after.log == room.log + Delivered(rt.pending, true))
  {
    hide Mirrors, Ends, RowsOf, StoredRows, DuplicateKey, WithRows, Delivered;
    var rt := room.runtime.value;
    ContiguousAppend(room.store, StoredRows(room.log), rt.pending, true);
    RecoveredCore(room, rt);
    var results := if rt.pendingResult then [rt.matchID] else [];
    var saved := Commit(room, WithRows(room.store, rt.pending), rt.pending, results);
    ContiguousAppend(saved.store, StoredRows(saved.log), [Row(saved.boundary + 1, GameResumed(rt.matchID))], upAgain);
  }

  /** With the store down, a retry arms the next delay until the schedule is exhausted; then the match is
      invalidated, unless everyone is away. */
  lemma FailingRetry(room: Room, upAgain: bool)
    requires Inv(room) && room.runtime.Some? && room.runtime.value.storagePaused
    ensures var rt := room.runtime.value;
      var after := FireStorageRetry(room, rt.retryAttempt, false, upAgain);
      var rows := Terminal(rt.pending, room.boundary + |rt.pending| + 1, rt.matchID, RetryExhausted, RoomPostMatch);
      && after.results == room.results && after.closed == room.closed && after.poisoned == room.poisoned
      && after.boundary == room.boundary + (if after.runtime == None && upAgain then |rows| else 0)
      && (after.runtime == None <==> rt.retryAttempt + 1 >= |RETRY_DELAYS| && !rt.allDisconnected)
      && (after.runtime == None ==> after.log == room.log + Delivered(rows, upAgain))
      && (after.runtime.Some? ==>
        && after.log == room.log && after.runtime.value.pending == rt.pending
        && after.runtime.value.retryTimer ==
          if rt.retryAttempt + 1 < |RETRY_DELAYS| then Some(rt.retryAttempt + 1) else None)
  {
    hide Mirrors, Ends, RowsOf, StoredRows, DuplicateKey, WithRows, Delivered, NoticesReach, Ledger;
    var rt := room.runtime.value;
    var rows := Terminal(rt.pending, room.boundary + |rt.pending| + 1, rt.matchID, RetryExhausted, RoomPostMatch);
    ContiguousAppend(room.store, StoredRows(room.log), rows, upAgain);
  }

  // ----- What presence and expiry deliver -----

  /** The room with its players' presence taken into account. */
  function Away(room: Room, connected: bool, allAway: bool): Room
    requires room.runtime.Some?
  {
    var rt := room.runtime.value;
    room.(runtime := Some(rt.(allDisconnected := !connected && (rt.allDisconnected || allAway))))
  }

  /** Outside a pause a change of presence is a flush; during a pause it delivers nothing. */
  lemma PresenceFlushes(room: Room, connected: bool, allAway: bool, events: seq<Event>, result: bool, finish: bool,
      up: bool)
    requires Inv(room) && Allowed(room, DoPresence(connected, allAway, events, result, finish, up))
    ensures var after := Presence(room, connected, allAway, events, result, finish, up);
      if room.runtime.Some? && !room.runtime.value.storagePaused then
        var away := Away(room, connected, allAway);
        Inv(away) && Allowed(away, DoFlush(events, result, finish, up))
          && after == Flush(away, events, result, finish, up)
      else after.log == room.log
  {
    hide Core, Flush, Numbered, Contiguous, Ends;
    if room.runtime.Some? && !room.runtime.value.storagePaused {
      AwayKeepsInv(room, Away(room, connected, allAway).runtime.value);
    }
  }

  lemma ExpiryDelivers(room: Room, up: bool)
    requires Inv(room)
    ensures var after := PresenceExpiry(room, up);
      if room.runtime.Some? && room.runtime.value.allDisconnected then
        var rt := room.runtime.value;
        var rows := Terminal(rt.pending, room.boundary + |rt.pending| + 1, rt.matchID, AllDisconnected, RoomClosed);
        exists stored :: after.log == room.log + Delivered(rows, stored)
      else after == room
  {
    hide Core, RuntimeOk, Delivered, Terminal, Append;
    if room.runtime.Some? && room.runtime.value.allDisconnected {
      var rt := room.runtime.value;
      var rows := Terminal(rt.pending, room.boundary + |rt.pending| + 1, rt.matchID, AllDisconnected, RoomClosed);
      assert PresenceExpiry(room, up).log == room.log + Delivered(rows, Append(room.store, rows, up).Some?);
    }
  }

  // ----- Sequence numbers the clients see -----

  /** Two deliveries carry the same room sequence. */
  ghost predicate Reused(log: seq<Sent>) {
    exists i, j :: 0 <= i < j < |log| && log[i].row.sequence == log[j].row.sequence
  }

  lemma {:induction false} StoredIsListed(log: seq<Sent>, i: nat)
    requires i < |log| && log[i].stored
    ensures log[i].row in StoredRows(log)
  {
    var rest := StoredRows(log[1..]);
    if i > 0 {
      StoredIsListed(log[1..], i - 1);
    }
    assert StoredRows(log) == (if log[0].stored then [log[0].row] else []) + rest;
  }

  /** Every step delivers a batch that starts right after the stored sequences, or nothing. */
  ghost predicate Extends(log: seq<Sent>, after: seq<Sent>, last: nat) {
    exists marks: seq<Sent> :: after == log + marks && Contiguous(RowsOf(marks), last + 1)
  }

  lemma DeliveredExtends(log: seq<Sent>, rows: seq<Row>, stored: bool, last: nat)
    requires Contiguous(rows, last + 1)
    ensures Extends(log, log + Delivered(rows, stored), last)
  {
    var marks := Delivered(rows, stored);
    assert RowsOf(marks) == rows;
  }

  lemma SameExtends(log: seq<Sent>, last: nat)
    ensures Extends(log, log, last)
  {
    assert log == log + [] && RowsOf([]) == [];
  }

  /** A step makes two deliveries share a sequence exactly when it delivers something while an earlier
      failed termination's notice still reaches above the stored sequences. */
  lemma ReuseExactly(log: seq<Sent>, after: seq<Sent>, last: nat)
    requires last == |StoredRows(log)| && Contiguous(StoredRows(log), 1) && NoticesReach(log, last)
    requires Extends(log, after, last)
    ensures Reused(after) <==> Reused(log) || (after != log && exists q :: q > last && Noticed(log, q))
  {
    hide StoredRows, NoticesReach;
    var marks: seq<Sent> :| after == log + marks && Contiguous(RowsOf(marks), last + 1);
    var rows := RowsOf(marks);
    assert forall k :: 0 <= k < |marks| ==> rows[k] == marks[k].row && after[|log| + k] == marks[k];
    if Reused(log) {
      var i, j :| 0 <= i < j < |log| && log[i].row.sequence == log[j].row.sequence;
      assert after[i] == log[i] && after[j] == log[j];
    } else if Reused(after) {
      var i, j :| 0 <= i < j < |after| && after[i].row.sequence == after[j].row.sequence;
      assert j >= |log| && after[j].row == rows[j - |log|];
      assert i < |log|;
      if log[i].stored {
        StoredIsListed(log, i);
      } else {
        assert Noticed(log, log[i].row.sequence);
      }
    } else if after != log && exists q :: q > last && Noticed(log, q) {
      NoticeMeetsNext(log, after, last);
    }
  }

  lemma NoticeMeetsNext(log: seq<Sent>, after: seq<Sent>, last: nat)
    requires NoticesReach(log, last) && Extends(log, after, last) && after != log
    requires exists q :: q > last && Noticed(log, q)
    ensures Reused(after)
  {
    var marks: seq<Sent> :| after == log + marks && Contiguous(RowsOf(marks), last + 1);
    var rows := RowsOf(marks);
    var q :| q > last && Noticed(log, q);
    assert last < last + 1 <= q && Noticed(log, last + 1);
    var i :| 0 <= i < |log| && !log[i].stored && log[i].row.sequence == last + 1;
    assert log + [] == log;
    assert marks != [];
    assert after[|log|] == marks[0] && rows[0] == marks[0].row && after[i] == log[i];
  }

  lemma FlushExtends(room: Room, events: seq<Event>, result: bool, finish: bool, up: bool)
    ensures Extends(room.log, Flush(room, events, result, finish, up).log, room.boundary)
  {
    hide Extends, Append, RowsOf, Delivered;
    SameExtends(room.log, room.boundary);
    DeliveredExtends(room.log, Numbered(events, room.boundary + 1), true, room.boundary);
  }

  lemma TerminalExtends(room: Room, rt: Runtime, reason: EndReason, status: Event, stored: bool)
    requires Contiguous(rt.pending, room.boundary + 1)
    ensures var rows := Terminal(rt.pending, room.boundary + |rt.pending| + 1, rt.matchID, reason, status);
      Extends(room.log, room.log + Delivered(rows, stored), room.boundary)
  {
    var rows := Terminal(rt.pending, room.boundary + |rt.pending| + 1, rt.matchID, reason, status);
    DeliveredExtends(room.log, rows, stored, room.boundary);
  }

  lemma RetryExtends(room: Room, expected: nat, up: bool, upAgain: bool)
    requires Inv(room)
    ensures Extends(room.log, FireStorageRetry(room, expected, up, upAgain).log, room.boundary)
  {
    hide Extends, Core, RowsOf, Ends, Delivered, Append, Terminal;
    SameExtends(room.log, room.boundary);
    if room.runtime.Some? && room.runtime.value.storagePaused {
      var rt := room.runtime.value;
      TerminalExtends(room, rt, RetryExhausted, RoomPostMatch, true);
      TerminalExtends(room, rt, RetryExhausted, RoomPostMatch, false);
      DeliveredExtends(room.log, rt.pending, true, room.boundary);
      var resumed := [Row(room.boundary + |rt.pending| + 1, GameResumed(rt.matchID))];
      DeliveredExtends(room.log, rt.pending + resumed, true, room.boundary);
      DeliveredConcat(room.log, rt.pending, resumed);
    }
  }

  lemma DeliveredConcat(log: seq<Sent>, a: seq<Row>, b: seq<Row>)
    ensures log + Delivered(a + b, true) == log + Delivered(a, true) + Delivered(b, true)
  {
    assert Delivered(a + b, true) == Delivered(a, true) + Delivered(b, true);
  }

  lemma ExpiryExtends(room: Room, up: bool)
    requires Inv(room)
    ensures Extends(room.log, PresenceExpiry(room, up).log, room.boundary)
  {
    hide Extends, Core, RowsOf, Ends, Delivered, Terminal, PresenceExpiry;
    SameExtends(room.log, room.boundary);
    ExpiryDelivers(room, up);
    if room.runtime.Some? {
      TerminalExtends(room, room.runtime.value, AllDisconnected, RoomClosed, true);
      TerminalExtends(room, room.runtime.value, AllDisconnected, RoomClosed, false);
    }
  }

  lemma StepExtends(room: Room, a: Action)
    requires Inv(room) && Allowed(room, a)
    ensures Extends(room.log, Perform(room, a).log, room.boundary)
  {
    hide Extends, Flush, FireStorageRetry, Presence, PresenceExpiry, Inv, Allowed;
    match a {
      case DoBegin(events, up) =>
        FlushExtends(Begun(room), events, false, false, up);
      case DoFlush(events, result, finish, up) => FlushExtends(room, events, result, finish, up);
      case DoRetry(expected, up, upAgain) => RetryExtends(room, expected, up, upAgain);
      case DoPresence(connected, allAway, events, result, finish, up) =>
        SameExtends(room.log, room.boundary);
        PresenceFlushes(room, connected, allAway, events, result, finish, up);
        if room.runtime.Some? {
          FlushExtends(Away(room, connected, allAway), events, result, finish, up);
        }
      case DoExpire(up) => ExpiryExtends(room, up);
    }
  }

  /** The action will deliver something: events to a store that is up, a pending batch that is stored at
      last, or the notice of a termination. */
  predicate Delivers(room: Room, a: Action) {
    match a
    case DoBegin(events, up) => events != [] && up
    case DoFlush(events, _, _, up) => events != [] && up
    case DoRetry(expected, up, _) =>
      && room.runtime.Some? && room.runtime.value.storagePaused && room.runtime.value.retryAttempt == expected
      && (up || GivesUp(room, a))
    case DoPresence(_, _, events, _, _, up) =>
      room.runtime.Some? && !room.runtime.value.storagePaused && events != [] && up
    case DoExpire(_) => GivesUp(room, a)
  }

  lemma FlushDelivers(room: Room, events: seq<Event>, result: bool, finish: bool, up: bool)
    requires Inv(room) && Allowed(room, DoFlush(events, result, finish, up))
    ensures Flush(room, events, result, finish, up).log != room.log <==> events != [] && up
  {
    hide Core, RuntimeOk, Delivered, Numbered, EndingOk;
    if events != [] {
      FlushFailsOnlyWhenDown(room, events, result, finish, up);
      DeliveredLength(room.log, Numbered(events, room.boundary + 1), true);
    }
  }

  lemma RetryDelivers(room: Room, expected: nat, up: bool, upAgain: bool)
    requires Inv(room)
    ensures FireStorageRetry(room, expected, up, upAgain).log != room.log <==>
      Delivers(room, DoRetry(expected, up, upAgain))
  {
    hide Core, Ends, RowsOf, Delivered, Terminal, FireStorageRetry;
    if room.runtime.Some? && room.runtime.value.storagePaused && room.runtime.value.retryAttempt == expected {
      var rt := room.runtime.value;
      if up {
        HealthyRetryRecovers(room, upAgain);
        assert |Delivered(rt.pending, true)| > 0;
      } else {
        FailingRetry(room, upAgain);
        TerminalLength(rt.pending, room.boundary + |rt.pending| + 1, rt.matchID);
        DeliveredLength(room.log,
          Terminal(rt.pending, room.boundary + |rt.pending| + 1, rt.matchID, RetryExhausted, RoomPostMatch),
          upAgain);
      }
    } else {
      RetryIgnored(room, expected, up, upAgain);
    }
  }

  lemma ExpiryDeliversExactly(room: Room, up: bool)
    requires Inv(room)
    ensures PresenceExpiry(room, up).log != room.log <==> Delivers(room, DoExpire(up))
  {
    hide Core, RuntimeOk, Delivered, PresenceExpiry;
    ExpiryDelivers(room, up);
    if room.runtime.Some? && room.runtime.value.allDisconnected {
      var rt := room.runtime.value;
      var rows := Terminal(rt.pending, room.boundary + |rt.pending| + 1, rt.matchID, AllDisconnected, RoomClosed);
      var stored :| PresenceExpiry(room, up).log == room.log + Delivered(rows, stored);
      DeliveredLength(room.log, rows, stored);
    }
  }

  /** An action delivers something exactly when its guard says so. */
  lemma DeliversExactly(room: Room, a: Action)
    requires Inv(room) && Allowed(room, a)
    ensures Perform(room, a).log != room.log <==> Delivers(room, a)
  {
    hide Inv, Flush, FireStorageRetry, Presence, PresenceExpiry, EndingOk, NoEnd, GivesUp;
    match a {
      case DoBegin(events, up) =>
        BegunInv(room, events, up);
        FlushDelivers(Begun(room), events, false, false, up);
      case DoFlush(events, result, finish, up) => FlushDelivers(room, events, result, finish, up);
      case DoRetry(expected, up, upAgain) => RetryDelivers(room, expected, up, upAgain);
      case DoPresence(connected, allAway, events, result, finish, up) =>
        PresenceFlushes(room, connected, allAway, events, result, finish, up);
        if room.runtime.Some? && !room.runtime.value.storagePaused {
          FlushDelivers(Away(room, connected, allAway), events, result, finish, up);
        }
      case DoExpire(up) => ExpiryDeliversExactly(room, up);
    }
  }

  /** In every reachable room, a step makes the clients see a sequence number twice exactly when it
      delivers something while a failed termination's notice still reaches above the boundary. */
  lemma ReuseOnlyAfterFailedNotice(actions: seq<Action>, a: Action)
    requires AllowedRun(NEW_ROOM, actions) && Allowed(Run(NEW_ROOM, actions), a)
    requires !Run(NEW_ROOM, actions).closed
    ensures var room := Run(NEW_ROOM, actions);
      Reused(Perform(room, a).log) <==>
        Reused(room.log) || (Delivers(room, a) && exists q :: q > room.boundary && Noticed(room.log, q))
  {
    hide Run, AllowedRun, Allowed, Perform, RuntimeOk, Ledger, Extends, Reused, Noticed, NoticesReach, StoredRows,
      Delivers, OnlyNoticesUnstored;
    var room := Run(NEW_ROOM, actions);
    NewRoomInv();
    RunKeepsInv(NEW_ROOM, actions);
    StepExtends(room, a);
    DeliversExactly(room, a);
    ReuseExactly(room.log, Perform(room, a).log, room.boundary);
  }

  /** A closed room delivers nothing more. */
  lemma ClosedIsSilent(room: Room, a: Action)
    requires Inv(room) && room.closed && Allowed(room, a)
    ensures Perform(room, a) == room
  {
    hide Core;
  }

  // ----- Ends of a match -----

  /** How often giving up on a match ends it. */
  lemma TerminalEnds(room: Room, reason: EndReason, status: Event)
    requires Inv(room) && room.runtime.Some? && GivenUp(GameEnded(room.runtime.value.matchID, reason), status)
    ensures var rt := room.runtime.value;
      var rows := Terminal(rt.pending, room.boundary + |rt.pending| + 1, rt.matchID, reason, status);
      forall m :: Ends(rows, m) == if m != rt.matchID then 0 else if rt.finishAfterSave then 2 else 1
  {
    hide Core;
    var rt := room.runtime.value;
    TerminalRows(room, rt, room.boundary + |rt.pending| + 1, reason, status);
  }

  /** The action gives up on the match: the last retry fails with players present, or the grace period of
      an abandoned match ends. */
  predicate GivesUp(room: Room, a: Action) {
    && room.runtime.Some?
    && var rt := room.runtime.value;
      match a
      case DoRetry(expected, up, _) =>
        rt.storagePaused && rt.retryAttempt == expected && !up && expected + 1 >= |RETRY_DELAYS| && !rt.allDisconnected
      case DoExpire(_) => rt.allDisconnected
      case _ => false
  }

  /** The action delivers the end of the match as its players reached it. */
  predicate Finishes(room: Room, a: Action) {
    && room.runtime.Some?
    && var rt := room.runtime.value;
      match a
      case DoFlush(_, _, finish, up) => finish && up
      case DoRetry(expected, up, _) => rt.storagePaused && rt.retryAttempt == expected && up && rt.finishAfterSave
      case DoPresence(_, _, _, _, finish, up) => !rt.storagePaused && finish && up
      case _ => false
  }

  /** The ends one action delivers. */
  function NewEnds(room: Room, a: Action, m: MatchID): nat {
    if room.runtime.None? || m != room.runtime.value.matchID then 0
    else if GivesUp(room, a) then (if room.runtime.value.finishAfterSave then 2 else 1)
    else if Finishes(room, a) then 1
    else 0
  }

  ghost predicate EndsGrow(room: Room, a: Action, after: Room) {
    forall m :: Ends(RowsOf(after.log), m) == Ends(RowsOf(room.log), m) + NewEnds(room, a, m)
  }

  lemma EmptyEndsNothing(room: Room, events: seq<Event>, result: bool, finish: bool)
    requires EndingOk(room, events, result, finish) && events == []
    ensures !finish
  {
  }

  lemma FlushEnds(room: Room, events: seq<Event>, result: bool, finish: bool, up: bool)
    requires Inv(room) && Allowed(room, DoFlush(events, result, finish, up))
    ensures EndsGrow(room, DoFlush(events, result, finish, up), Flush(room, events, result, finish, up))
  {
    hide Core, RuntimeOk, Ends, RowsOf, Delivered, Numbered, EndingOk;
    var rows := Numbered(events, room.boundary + 1);
    NumberedEnds(room, events, room.boundary + 1, result, finish);
    if events != [] {
      FlushFailsOnlyWhenDown(room, events, result, finish, up);
      Deliver(room.log, rows, true);
    } else {
      EmptyEndsNothing(room, events, result, finish);
    }
  }

  lemma RetryEnds(room: Room, expected: nat, up: bool, upAgain: bool)
    requires Inv(room)
    ensures EndsGrow(room, DoRetry(expected, up, upAgain), FireStorageRetry(room, expected, up, upAgain))
  {
    hide Core, Ends, RowsOf, Delivered, Terminal, FireStorageRetry;
    if room.runtime.Some? && room.runtime.value.storagePaused && room.runtime.value.retryAttempt == expected {
      var rt := room.runtime.value;
      if up {
        HealthyRetryRecovers(room, upAgain);
        var resumed := [Row(room.boundary + |rt.pending| + 1, GameResumed(rt.matchID))];
        Deliver(room.log, rt.pending, true);
        Deliver(room.log + Delivered(rt.pending, true), resumed, true);
        forall m
          ensures Ends(resumed, m) == 0
        {
          NoEndNoEnds(resumed, m);
        }
      } else {
        FailingRetry(room, upAgain);
        TerminalEnds(room, RetryExhausted, RoomPostMatch);
        Deliver(room.log,
          Terminal(rt.pending, room.boundary + |rt.pending| + 1, rt.matchID, RetryExhausted, RoomPostMatch), upAgain);
      }
    } else {
      RetryIgnored(room, expected, up, upAgain);
    }
  }

  /** An overtaken retry timer changes nothing, and neither does one outside a pause. */
  lemma RetryIgnored(room: Room, expected: nat, up: bool, upAgain: bool)
    requires room.runtime.None? || !room.runtime.value.storagePaused || room.runtime.value.retryAttempt != expected
    ensures FireStorageRetry(room, expected, up, upAgain) == room
  {
  }

  lemma ExpiryEnds(room: Room, up: bool)
    requires Inv(room)
    ensures EndsGrow(room, DoExpire(up), PresenceExpiry(room, up))
  {
    hide Core, Ends, RowsOf, Delivered, Terminal, PresenceExpiry;
    ExpiryDelivers(room, up);
    if room.runtime.Some? && room.runtime.value.allDisconnected {
      var rt := room.runtime.value;
      TerminalEnds(room, AllDisconnected, RoomClosed);
      var rows := Terminal(rt.pending, room.boundary + |rt.pending| + 1, rt.matchID, AllDisconnected, RoomClosed);
      var stored :| PresenceExpiry(room, up).log == room.log + Delivered(rows, stored);
      Deliver(room.log, rows, stored);
    }
  }

  lemma BeginEnds(room: Room, events: seq<Event>, up: bool)
    requires Inv(room) && Allowed(room, DoBegin(events, up))
    ensures EndsGrow(room, DoBegin(events, up), BeginMatch(room, events, up))
  {
    hide Inv, Ends, RowsOf, Flush, EndingOk;
    BegunInv(room, events, up);
    FlushEnds(Begun(room), events, false, false, up);
  }

  lemma PresenceEnds(room: Room, connected: bool, allAway: bool, events: seq<Event>, result: bool, finish: bool,
      up: bool)
    requires Inv(room) && Allowed(room, DoPresence(connected, allAway, events, result, finish, up))
    ensures EndsGrow(room, DoPresence(connected, allAway, events, result, finish, up),
      Presence(room, connected, allAway, events, result, finish, up))
  {
    hide Inv, Allowed, Ends, RowsOf, Flush, Presence;
    PresenceFlushes(room, connected, allAway, events, result, finish, up);
    if room.runtime.Some? && !room.runtime.value.storagePaused {
      FlushEnds(Away(room, connected, allAway), events, result, finish, up);
    }
  }

  lemma StepEnds(room: Room, a: Action)
    requires Inv(room) && Allowed(room, a)
    ensures EndsGrow(room, a, Perform(room, a))
  {
    hide Inv, EndsGrow, BeginMatch, Flush, FireStorageRetry, Presence, PresenceExpiry;
    match a {
      case DoBegin(events, up) => BeginEnds(room, events, up);
      case DoFlush(events, result, finish, up) => FlushEnds(room, events, result, finish, up);
      case DoRetry(expected, up, upAgain) => RetryEnds(room, expected, up, upAgain);
      case DoPresence(connected, allAway, events, result, finish, up) =>
        PresenceEnds(room, connected, allAway, events, result, finish, up);
      case DoExpire(up) => ExpiryEnds(room, up);
    }
  }

  /** In every reachable room, a step makes a match end twice exactly when it gives up on a match whose own
      final batch is still pending. */
  lemma TerminationEnds(actions: seq<Action>, a: Action, m: MatchID)
    requires AllowedRun(NEW_ROOM, actions) && Allowed(Run(NEW_ROOM, actions), a)
    ensures var room := Run(NEW_ROOM, actions);
      Ends(RowsOf(Perform(room, a).log), m) == 2 <==>
        Ends(RowsOf(room.log), m) == 2
        || (GivesUp(room, a) && m == room.runtime.value.matchID && room.runtime.value.finishAfterSave)
  {
    hide Run, AllowedRun, Allowed, Perform, Ends, RowsOf, StoredRows, Mirrors, NoticesReach, OnlyNoticesUnstored;
    var room := Run(NEW_ROOM, actions);
    NewRoomInv();
    RunKeepsInv(NEW_ROOM, actions);
    StepEnds(room, a);
  }

  // ----- An outage that outlasts the retry schedule -----

  /** A flush and all three retries meet a store that is down; `last` answers the invalidation's append. */
  function Outage(events: seq<Event>, result: bool, finish: bool, last: bool): seq<Action> {
    [DoFlush(events, result, finish, false), DoRetry(0, false, false), DoRetry(1, false, false),
      DoRetry(2, false, last)]
  }

  lemma RunFour(room: Room, a: Action, b: Action, c: Action, d: Action)
    ensures Run(room, [a, b, c, d]) == Perform(Perform(Perform(Perform(room, a), b), c), d)
  {
    hide Perform;
    var room1, room2, room3 := Perform(room, a), Perform(Perform(room, a), b), Perform(Perform(Perform(room, a), b), c);
    assert [a, b, c, d][1..] == [b, c, d] && [b, c, d][1..] == [c, d] && [c, d][1..] == [d] && [d][1..] == [];
    assert Run(room, [a, b, c, d]) == Run(room1, [b, c, d]) == Run(room2, [c, d]) == Run(room3, [d]);
  }

  lemma OutageInvalidates(room: Room, events: seq<Event>, result: bool, finish: bool, last: bool)
    requires Inv(room) && room.runtime.Some? && !room.runtime.value.allDisconnected && events != []
    requires Allowed(room, DoFlush(events, result, finish, false))
    ensures var after := Run(room, Outage(events, result, finish, last));
      var rt := EnterStoragePause(room.runtime.value, Numbered(events, room.boundary + 1), result, finish);
      var rows := Terminal(rt.pending, room.boundary + |rt.pending| + 1, rt.matchID, RetryExhausted, RoomPostMatch);
      && Inv(after) && after.runtime == None && after.results == room.results && !after.closed && !after.poisoned
      && after.boundary == room.boundary + (if last then |rows| else 0)
      && after.log == room.log + Delivered(rows, last)
      && Inv(room.(runtime := Some(rt))) && rt.finishAfterSave == finish
  {
    hide Core, RuntimeOk, Append, Delivered, Terminal, Contiguous, EndingOk, Ends, Numbered, Run;
    var paused := Flush(room, events, result, finish, false);
    RunFour(room, DoFlush(events, result, finish, false), DoRetry(0, false, false), DoRetry(1, false, false),
      DoRetry(2, false, last));
    FlushFailsOnlyWhenDown(room, events, result, finish, false);
    FlushStep(room, events, result, finish, false);
    PauseShape(room, events, result, finish);
    RetryDown(paused, 0, false);
    var first := FireStorageRetry(paused, 0, false, false);
    RetryDown(first, 1, false);
    var second := FireStorageRetry(first, 1, false, false);
    FailingRetry(second, last);
    RetryKeepsInv(second, 2, false, last);
  }

  lemma PauseShape(room: Room, events: seq<Event>, result: bool, finish: bool)
    requires Inv(room) && room.runtime.Some? && events != [] && Allowed(room, DoFlush(events, result, finish, false))
    ensures Flush(room, events, result, finish, false) ==
      room.(runtime := Some(EnterStoragePause(room.runtime.value, Numbered(events, room.boundary + 1), result, finish)))
  {
    hide Inv, Numbered;
  }

  /** A retry that is not the last one only moves to the next delay. */
  lemma RetryDown(room: Room, attempt: nat, upAgain: bool)
    requires Inv(room) && room.runtime.Some? && room.runtime.value.storagePaused
    requires room.runtime.value.retryAttempt == attempt < 2
    ensures FireStorageRetry(room, attempt, false, upAgain) ==
      room.(runtime := Some(room.runtime.value.(retryAttempt := attempt + 1, retryTimer := Some(attempt + 1))))
    ensures Inv(FireStorageRetry(room, attempt, false, upAgain))
  {
    hide Core, RuntimeOk;
    RetryKeepsInv(room, attempt, false, upAgain);
  }

  /** A finished match whose final batch meets a long outage is ended twice: by its own result and by the
      invalidation, in one stored batch, and its statistics are lost. */
  lemma FinishedMatchCanEndTwice(room: Room, result: bool)
    requires Inv(room) && room.runtime.Some? && !room.runtime.value.storagePaused && !room.runtime.value.allDisconnected
    ensures var m := room.runtime.value.matchID;
      var finale := [GameEnded(m, AllFinished), RoomPostMatch];
      var after := Run(room, Outage(finale, result, true, true));
      && Allowed(room, DoFlush(finale, result, true, false))
      && Ends(RowsOf(after.log), m) == 2 && m !in after.results
  {
    hide Core, Run, Append, Delivered, Terminal, Numbered;
    var m := room.runtime.value.matchID;
    var finale := [GameEnded(m, AllFinished), RoomPostMatch];
    assert finale[0] == GameEnded(m, AllFinished) && NoEnd(finale[..0]) && NoEnd(finale[0 + 1..]);
    OutageInvalidates(room, finale, result, true, true);
    var rt := EnterStoragePause(room.runtime.value, Numbered(finale, room.boundary + 1), result, true);
    var paused := room.(runtime := Some(rt));
    TerminalEnds(paused, RetryExhausted, RoomPostMatch);
    Deliver(room.log,
      Terminal(rt.pending, room.boundary + |rt.pending| + 1, rt.matchID, RetryExhausted, RoomPostMatch), true);
  }

  /** When the invalidation cannot be stored either, the next event of the room repeats a number that
      the clients have already seen. */
  lemma LostInvalidationReuses(room: Room, events: seq<Event>, next: seq<Event>)
    requires Inv(room) && room.runtime.Some? && !room.runtime.value.allDisconnected && events != [] && next != []
    requires Allowed(room, DoFlush(events, false, false, false)) && NoEnd(next)
    ensures var lost := Run(room, Outage(events, false, false, false));
      Allowed(lost, DoFlush(next, false, false, true)) && Reused(Flush(lost, next, false, false, true).log)
  {
    hide Run, Append, Terminal, Numbered, Ledger, RuntimeOk, Contiguous, Ends, RowsOf, StoredRows, Reused,
      NoticesReach, Noticed, OnlyNoticesUnstored, Flush, Extends, Delivered;
    OutageInvalidates(room, events, false, false, false);
    var lost := Run(room, Outage(events, false, false, false));
    var rt := EnterStoragePause(room.runtime.value, Numbered(events, room.boundary + 1), false, false);
    var rows := Terminal(rt.pending, room.boundary + |rt.pending| + 1, rt.matchID, RetryExhausted, RoomPostMatch);
    TerminalLength(rt.pending, room.boundary + |rt.pending| + 1, rt.matchID);
    LastIsNoticed(room.log, rows);
    FlushFailsOnlyWhenDown(lost, next, false, false, true);
    FlushExtends(lost, next, false, false, true);
    DeliveredLength(lost.log, Numbered(next, lost.boundary + 1), true);
    assert Noticed(lost.log, lost.boundary + |rt.pending| + 2);
    ReuseExactly(lost.log, Flush(lost, next, false, false, true).log, lost.boundary);
  }

  lemma TerminalLength(pending: seq<Row>, next: nat, m: MatchID)
    ensures var rows := Terminal(pending, next, m, RetryExhausted, RoomPostMatch);
      rows != [] && rows[|rows| - 1].sequence == next + 1
  {
  }

  lemma LastIsNoticed(log: seq<Sent>, rows: seq<Row>)
    requires rows != []
    ensures Noticed(log + Delivered(rows, false), rows[|rows| - 1].sequence)
  {
    var after := log + Delivered(rows, false);
    assert after[|log| + |rows| - 1] == Sent(rows[|rows| - 1], false);
  }

  lemma DeliveredLength(log: seq<Sent>, rows: seq<Row>, stored: bool)
    requires rows != []
    ensures log + Delivered(rows, stored) != log
  {
    assert |log + Delivered(rows, stored)| > |log|;
  }
}
