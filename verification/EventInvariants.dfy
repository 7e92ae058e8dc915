/** Every step of the commit protocol keeps its invariant. */
module EventInvariants {
  import opened Domain
  import opened EventCommit

  // ----- Logs -----

  lemma {:induction false} StoredConcat(a: seq<Sent>, b: seq<Sent>)
    ensures StoredRows(a + b) == StoredRows(a) + StoredRows(b)
  {
    if a == [] {
      assert a + b == b;
    } else {
      assert (a + b)[1..] == a[1..] + b && (a + b)[0] == a[0];
      StoredConcat(a[1..], b);
      var head := if a[0].stored then [a[0].row] else [];
      assert head + StoredRows(a[1..]) + StoredRows(b) == head + (StoredRows(a[1..]) + StoredRows(b));
    }
  }

  lemma {:induction false} EndsConcat(a: seq<Row>, b: seq<Row>, m: MatchID)
    ensures Ends(a + b, m) == Ends(a, m) + Ends(b, m)
  {
    if a == [] {
      assert a + b == b;
    } else {
      assert (a + b)[1..] == a[1..] + b;
      EndsConcat(a[1..], b, m);
    }
  }

  lemma {:induction false} StoredOfDelivered(rows: seq<Row>, stored: bool)
    ensures StoredRows(Delivered(rows, stored)) == if stored then rows else []
    decreases |rows|
  {
    if rows != [] {
      assert Delivered(rows, stored)[1..] == Delivered(rows[1..], stored);
      StoredOfDelivered(rows[1..], stored);
    }
  }

  lemma Deliver(log: seq<Sent>, rows: seq<Row>, stored: bool)
    ensures StoredRows(log + Delivered(rows, stored)) == StoredRows(log) + (if stored then rows else [])
    ensures RowsOf(log + Delivered(rows, stored)) == RowsOf(log) + rows
    ensures forall m :: Ends(RowsOf(log + Delivered(rows, stored)), m) == Ends(RowsOf(log), m) + Ends(rows, m)
    ensures stored ==> forall m :: Ends(StoredRows(log) + rows, m) == Ends(StoredRows(log), m) + Ends(rows, m)
  {
    StoredConcat(log, Delivered(rows, stored));
    StoredOfDelivered(rows, stored);
    assert StoredRows(log) + [] == StoredRows(log);
    forall m
      ensures Ends(RowsOf(log) + rows, m) == Ends(RowsOf(log), m) + Ends(rows, m)
      ensures Ends(StoredRows(log) + rows, m) == Ends(StoredRows(log), m) + Ends(rows, m)
    {
      EndsConcat(RowsOf(log), rows, m);
      EndsConcat(StoredRows(log), rows, m);
    }
    assert RowsOf(log + Delivered(rows, stored)) == RowsOf(log) + rows;
  }

  lemma {:induction false} NoEndNoEnds(rows: seq<Row>, m: MatchID)
    requires forall i :: 0 <= i < |rows| ==> !(rows[i].event.GameEnded? && rows[i].event.ended == m)
    ensures Ends(rows, m) == 0
  {
    if rows != [] {
      NoEndNoEnds(rows[1..], m);
    }
  }

  // ----- The store's side -----

  lemma {:induction false} WithRowsMirrors(store: map<nat, Event>, had: seq<Row>, rows: seq<Row>)
    requires Mirrors(store, had) && Contiguous(rows, |had| + 1)
    ensures Mirrors(WithRows(store, rows), had + rows)
    decreases |rows|
  {
    if rows == [] {
      assert had + rows == had;
    } else {
      var had' := had + [rows[0]];
      assert Mirrors(store[rows[0].sequence := rows[0].event], had');
      forall i | 0 <= i < |rows[1..]|
        ensures rows[1..][i].sequence == |had'| + 1 + i
      {
        assert rows[1..][i] == rows[i + 1];
      }
      WithRowsMirrors(store[rows[0].sequence := rows[0].event], had', rows[1..]);
      assert had' + rows[1..] == had + rows;
    }
  }

  /** A batch that continues the stored sequences never meets a taken key: it fails only when the store
      is down. */
  lemma ContiguousAppend(store: map<nat, Event>, had: seq<Row>, rows: seq<Row>, up: bool)
    requires Mirrors(store, had) && Contiguous(rows, |had| + 1)
    ensures Append(store, rows, up) == if up then Some(WithRows(store, rows)) else None
    ensures Mirrors(WithRows(store, rows), had + rows)
  {
    WithRowsMirrors(store, had, rows);
  }

  // ----- Every step keeps the invariant -----

  /** What a batch may add to the ledger. */
  ghost predicate Entered(room: Room, rows: seq<Row>, results: seq<MatchID>) {
    && (forall m :: Ends(RowsOf(room.log), m) + Ends(rows, m) <= 2)
    && (forall m :: m in room.results || m >= room.nextMatch ==> Ends(rows, m) == 0)
    && |results| <= 1
    && forall m :: m in results ==>
      && m !in room.results && m < room.nextMatch
      && Ends(rows, m) == 1 && Ends(RowsOf(room.log), m) == 0 && Ends(StoredRows(room.log), m) == 0
  }

  lemma CoreFrame(a: Room, b: Room)
    requires Core(a) && b == a.(runtime := b.runtime, poisoned := b.poisoned)
    ensures Core(b)
  {
    hide Mirrors, Ends, StoredRows, RowsOf;
  }

  lemma LedgerGrows(room: Room, rows: seq<Row>, results: seq<MatchID>, after: Room)
    requires Ledger(room) && Entered(room, rows, results)
    requires after.results == room.results + results && after.nextMatch == room.nextMatch
    requires forall m :: Ends(RowsOf(after.log), m) == Ends(RowsOf(room.log), m) + Ends(rows, m)
    requires forall m :: m in room.results || m in results ==>
      Ends(StoredRows(after.log), m) == Ends(StoredRows(room.log), m) + Ends(rows, m)
    ensures Ledger(after)
  {
    hide Ends, StoredRows, RowsOf;
    assert forall m :: m in after.results <==> m in room.results || m in results;
    assert Distinct(after.results) by {
      forall i, j | 0 <= i < j < |after.results|
        ensures after.results[i] != after.results[j]
      {
        if i < |room.results| <= j {
          assert after.results[i] in room.results && after.results[j] in results;
        }
      }
    }
  }

  lemma CommitCore(room: Room, rows: seq<Row>, results: seq<MatchID>)
    requires Core(room) && !room.closed && Contiguous(rows, room.boundary + 1) && Entered(room, rows, results)
    ensures var after := Commit(room, WithRows(room.store, rows), rows, results);
      && Core(after) && StoredRows(after.log) == StoredRows(room.log) + rows
      && (forall m :: Ends(RowsOf(after.log), m) == Ends(RowsOf(room.log), m) + Ends(rows, m))
  {
    hide Mirrors, Ends, StoredRows, RowsOf;
    Deliver(room.log, rows, true);
    ContiguousAppend(room.store, StoredRows(room.log), rows, true);
    NoticesStay(room.log, rows, |StoredRows(room.log)|);
    StoredKeepsNotices(room.log, rows);
    LedgerGrows(room, rows, results, Commit(room, WithRows(room.store, rows), rows, results));
  }

  lemma NoticesStay(log: seq<Sent>, rows: seq<Row>, last: nat)
    requires NoticesReach(log, last)
    ensures NoticesReach(log + Delivered(rows, true), last + |rows|)
  {
    var after := log + Delivered(rows, true);
    forall n
      ensures Noticed(after, n) <==> Noticed(log, n)
    {
      if Noticed(log, n) {
        var i :| 0 <= i < |log| && !log[i].stored && log[i].row.sequence == n;
        assert after[i] == log[i];
      }
    }
  }

  /** The rows end in giving up a match. */
  predicate EndsInGivingUp(rows: seq<Row>) {
    |rows| >= 2 && GivenUp(rows[|rows| - 2].event, rows[|rows| - 1].event)
  }

  lemma NoticePrefix(log: seq<Sent>, more: seq<Sent>, a: nat, b: nat)
    requires Notice(log, a, b)
    ensures Notice(log + more, a, b)
  {
    assert forall i :: 0 <= i < |log| ==> (log + more)[i] == log[i];
  }

  lemma StoredKeepsNotices(log: seq<Sent>, rows: seq<Row>)
    requires OnlyNoticesUnstored(log)
    ensures OnlyNoticesUnstored(log + Delivered(rows, true))
  {
    var after := log + Delivered(rows, true);
    forall i | 0 <= i < |after| && !after[i].stored
      ensures exists a: nat, b: nat :: a <= i < b && Notice(after, a, b)
    {
      assert i < |log| && !log[i].stored;
      var a: nat, b: nat :| a <= i < b && Notice(log, a, b);
      NoticePrefix(log, Delivered(rows, true), a, b);
    }
  }

  lemma NewNotice(log: seq<Sent>, rows: seq<Row>, first: nat)
    requires EndsInGivingUp(rows) && Contiguous(rows, first)
    ensures Notice(log + Delivered(rows, false), |log|, |log| + |rows|)
  {
    var after := log + Delivered(rows, false);
    forall i | |log| <= i < |log| + |rows|
      ensures after[i] == Sent(rows[i - |log|], false)
    {
      assert after[i] == Delivered(rows, false)[i - |log|];
    }
  }

  lemma GivingUpIsANotice(log: seq<Sent>, rows: seq<Row>, first: nat)
    requires OnlyNoticesUnstored(log) && EndsInGivingUp(rows) && Contiguous(rows, first)
    ensures OnlyNoticesUnstored(log + Delivered(rows, false))
  {
    var after := log + Delivered(rows, false);
    NewNotice(log, rows, first);
    forall i | 0 <= i < |after| && !after[i].stored
      ensures exists a: nat, b: nat :: a <= i < b && Notice(after, a, b)
    {
      if i < |log| {
        assert !log[i].stored;
        var a: nat, b: nat :| a <= i < b && Notice(log, a, b);
        NoticePrefix(log, Delivered(rows, false), a, b);
      }
    }
  }

  lemma NotifyCore(room: Room, rows: seq<Row>)
    requires Core(room) && !room.closed && Contiguous(rows, room.boundary + 1) && Entered(room, rows, [])
    requires EndsInGivingUp(rows)
    ensures Core(Notify(room, rows))
    ensures StoredRows(Notify(room, rows).log) == StoredRows(room.log)
    ensures forall m :: Ends(RowsOf(Notify(room, rows).log), m) == Ends(RowsOf(room.log), m) + Ends(rows, m)
  {
    hide Mirrors, Ends, StoredRows, RowsOf;
    Deliver(room.log, rows, false);
    assert StoredRows(room.log) + [] == StoredRows(room.log);
    NoticesGrow(room.log, rows, room.boundary);
    GivingUpIsANotice(room.log, rows, room.boundary + 1);
    assert forall m :: Ends(RowsOf(Notify(room, rows).log), m) == Ends(RowsOf(room.log), m) + Ends(rows, m);
  }

  lemma NoticesGrow(log: seq<Sent>, rows: seq<Row>, last: nat)
    requires NoticesReach(log, last) && Contiguous(rows, last + 1)
    ensures NoticesReach(log + Delivered(rows, false), last)
  {
    var after := log + Delivered(rows, false);
    forall i | 0 <= i < |log|
      ensures after[i] == log[i]
    {
    }
    forall q: nat, n: nat | Noticed(after, q) && last < n <= q
      ensures Noticed(after, n)
    {
      var i :| 0 <= i < |after| && !after[i].stored && after[i].row.sequence == q;
      if i < |log| {
        assert Noticed(log, q) && Noticed(log, n);
        var j :| 0 <= j < |log| && !log[j].stored && log[j].row.sequence == n;
        assert after[j] == log[j];
      } else {
        assert after[i].row == rows[i - |log|];
        assert after[|log| + (n - last - 1)].row == rows[n - last - 1];
      }
    }
  }

  lemma NumberedEnds(room: Room, events: seq<Event>, first: nat, result: bool, finish: bool)
    requires EndingOk(room, events, result, finish)
    ensures (result ==> finish) && (finish ==> room.runtime.Some?)
    ensures forall m :: Ends(Numbered(events, first), m) == (if finish && m == room.runtime.value.matchID then 1 else 0)
    ensures Contiguous(Numbered(events, first), first)
  {
    var rows := Numbered(events, first);
    forall m
      ensures Ends(rows, m) == if finish && m == room.runtime.value.matchID then 1 else 0
    {
      if finish {
        var k :| 0 <= k < |events| && events[k] == GameEnded(room.runtime.value.matchID, AllFinished)
          && NoEnd(events[..k]) && NoEnd(events[k + 1..]);
        OneEnd(rows, k, m);
      } else {
        NoEndNoEnds(rows, m);
      }
    }
  }

  lemma OneEnd(rows: seq<Row>, k: nat, m: MatchID)
    requires k < |rows| && rows[k].event.GameEnded?
    requires forall i :: 0 <= i < |rows| && i != k ==> !rows[i].event.GameEnded?
    ensures Ends(rows, m) == if rows[k].event.ended == m then 1 else 0
  {
    assert rows == rows[..k] + ([rows[k]] + rows[k + 1..]);
    EndsConcat(rows[..k], [rows[k]] + rows[k + 1..], m);
    EndsConcat([rows[k]], rows[k + 1..], m);
    NoEndNoEnds(rows[..k], m);
    NoEndNoEnds(rows[k + 1..], m);
  }

  /** A live match has no end in the log yet. */
  lemma LiveMatchOpen(room: Room)
    requires Inv(room) && room.runtime.Some?
    ensures Ends(StoredRows(room.log), room.runtime.value.matchID) == 0
  {
    StoredEndsBelow(room.log, room.runtime.value.matchID);
  }

  lemma {:induction false} StoredEndsBelow(log: seq<Sent>, m: MatchID)
    ensures Ends(StoredRows(log), m) <= Ends(RowsOf(log), m)
  {
    if log != [] {
      StoredEndsBelow(log[1..], m);
      assert RowsOf(log)[1..] == RowsOf(log[1..]);
      EndsConcat(if log[0].stored then [log[0].row] else [], StoredRows(log[1..]), m);
    }
  }

  lemma FlushKeepsInv(room: Room, events: seq<Event>, result: bool, finish: bool, up: bool)
    requires Inv(room) && !room.closed && !room.poisoned && (room.runtime.Some? ==> !room.runtime.value.storagePaused)
    requires EndingOk(room, events, result, finish)
    ensures Inv(Flush(room, events, result, finish, up))
  {
    hide Mirrors, Ends, StoredRows, RowsOf, EndingOk, Commit, Ledger, NoticesReach, DuplicateKey, WithRows;
    if events != [] {
      var rows := Numbered(events, room.boundary + 1);
      NumberedEnds(room, events, room.boundary + 1, result, finish);
      ContiguousAppend(room.store, StoredRows(room.log), rows, up);
      if up {
        FlushCommits(room, rows, result, finish);
      } else if room.runtime.Some? {
        PausedOk(room, room.runtime.value, rows, result, finish);
      } else {
        CoreFrame(room, room.(poisoned := true));
      }
    }
  }

  lemma FlushCommits(room: Room, rows: seq<Row>, result: bool, finish: bool)
    requires Inv(room) && !room.closed && !room.poisoned && (room.runtime.Some? ==> !room.runtime.value.storagePaused)
    requires Contiguous(rows, room.boundary + 1) && (result ==> finish) && (finish ==> room.runtime.Some?)
    requires forall m :: Ends(rows, m) == if finish && m == room.runtime.value.matchID then 1 else 0
    ensures var results := if result && room.runtime.Some? then [room.runtime.value.matchID] else [];
      Inv(Commit(room, WithRows(room.store, rows), rows, results).(runtime := if finish then None else room.runtime))
  {
    hide Mirrors, Ends, StoredRows, RowsOf, NoticesReach, OnlyNoticesUnstored, DuplicateKey, WithRows;
    if room.runtime.Some? {
      LiveMatchOpen(room);
    }
    var results := if result && room.runtime.Some? then [room.runtime.value.matchID] else [];
    CommitCore(room, rows, results);
  }

  lemma PausedOk(room: Room, rt: Runtime, rows: seq<Row>, result: bool, finish: bool)
    requires Inv(room) && room.runtime == Some(rt) && !rt.storagePaused && rows != [] && (result ==> finish)
    requires Contiguous(rows, room.boundary + 1)
    requires forall m :: Ends(rows, m) == if finish && m == rt.matchID then 1 else 0
    ensures Inv(room.(runtime := Some(EnterStoragePause(rt, rows, result, finish))))
  {
    hide Core, StoredRows, RowsOf;
    CoreFrame(room, room.(runtime := Some(EnterStoragePause(rt, rows, result, finish))));
    if !finish {
      var marker := Row(rows[|rows| - 1].sequence + 1, GamePaused(rt.matchID));
      forall m
        ensures Ends(rows + [marker], m) == Ends(rows, m)
      {
        EndsConcat(rows, [marker], m);
      }
    }
  }

  /** A match that has just been attached. */
  function Begun(room: Room): Room {
    var rt := Runtime(room.nextMatch, false, 0, None, [], false, false, false);
    room.(runtime := Some(rt), nextMatch := room.nextMatch + 1)
  }

  lemma BegunInv(room: Room, events: seq<Event>, up: bool)
    requires Inv(room) && Allowed(room, DoBegin(events, up))
    ensures Inv(Begun(room)) && Allowed(Begun(room), DoFlush(events, false, false, up))
  {
    hide Mirrors, StoredRows, RowsOf, NoticesReach, OnlyNoticesUnstored;
    assert forall m :: Ends([], m) == 0;
  }

  lemma BeginKeepsInv(room: Room, events: seq<Event>, up: bool)
    requires Inv(room) && Allowed(room, DoBegin(events, up))
    ensures Inv(BeginMatch(room, events, up))
  {
    hide Inv, Flush;
    BegunInv(room, events, up);
    FlushStep(Begun(room), events, false, false, up);
  }

  lemma TerminalRows(room: Room, rt: Runtime, next: nat, reason: EndReason, status: Event)
    requires Inv(room) && room.runtime == Some(rt) && next == room.boundary + |rt.pending| + 1
    requires GivenUp(GameEnded(rt.matchID, reason), status)
    ensures var rows := Terminal(rt.pending, next, rt.matchID, reason, status);
      && Contiguous(rows, room.boundary + 1) && Entered(room, rows, []) && EndsInGivingUp(rows)
      && (forall m :: Ends(rows, m) == Ends(rt.pending, m) + if m == rt.matchID then 1 else 0)
  {
    hide Mirrors, StoredRows, RowsOf, NoticesReach, OnlyNoticesUnstored;
    forall m
      ensures Ends(Terminal(rt.pending, next, rt.matchID, reason, status), m) ==
        Ends(rt.pending, m) + if m == rt.matchID then 1 else 0
    {
      var tail := [Row(next, GameEnded(rt.matchID, reason)), Row(next + 1, status)];
      EndsConcat(rt.pending, tail, m);
      OneEnd(tail, 0, m);
    }
  }

  lemma TerminateKeepsCore(room: Room, rt: Runtime, next: nat, reason: EndReason, status: Event, up: bool)
    requires Inv(room) && room.runtime == Some(rt) && next == room.boundary + |rt.pending| + 1
    requires GivenUp(GameEnded(rt.matchID, reason), status)
    ensures var rows := Terminal(rt.pending, next, rt.matchID, reason, status);
      var done := match Append(room.store, rows, up)
        case Some(store) => Commit(room, store, rows, [])
        case None => Notify(room, rows);
      Core(done) && Core(done.(runtime := None)) && Core(done.(runtime := None, closed := true, boundary := 0))
  {
    hide Mirrors, Ends, StoredRows, RowsOf, NoticesReach, OnlyNoticesUnstored, DuplicateKey, WithRows, Terminal;
    var rows := Terminal(rt.pending, next, rt.matchID, reason, status);
    TerminalRows(room, rt, next, reason, status);
    ContiguousAppend(room.store, StoredRows(room.log), rows, up);
    CommitCore(room, rows, []);
    NotifyCore(room, rows);
  }

  lemma ResumeKeepsInv(room: Room, rt: Runtime, finish: bool, up: bool)
    requires Core(room) && !room.closed && !room.poisoned
    requires !finish ==>
      && rt.storagePaused && rt.pending == [] && !rt.pendingResult && !rt.finishAfterSave
      && rt.matchID < room.nextMatch && rt.matchID !in room.results && Ends(RowsOf(room.log), rt.matchID) == 0
    ensures Inv(Resume(room, rt, finish, up))
  {
    hide Mirrors, StoredRows, RowsOf, NoticesReach, OnlyNoticesUnstored, DuplicateKey, WithRows, Ends;
    if !finish {
      var rows := [Row(room.boundary + 1, GameResumed(rt.matchID))];
      forall m
        ensures Ends(rows, m) == 0 && Ends([], m) == 0
      {
        NoEndNoEnds(rows, m);
        NoEndNoEnds([], m);
      }
      ContiguousAppend(room.store, StoredRows(room.log), rows, up);
      CommitCore(room, rows, []);
    }
  }

  lemma RecoveredCore(room: Room, rt: Runtime)
    requires Inv(room) && room.runtime == Some(rt)
    ensures var results := if rt.pendingResult then [rt.matchID] else [];
      var after := Commit(room, WithRows(room.store, rt.pending), rt.pending, results);
      && Core(after) && !after.closed && !after.poisoned
      && (!rt.finishAfterSave ==>
        rt.matchID < after.nextMatch && rt.matchID !in after.results && Ends(RowsOf(after.log), rt.matchID) == 0)
  {
    hide Mirrors, Ends, StoredRows, RowsOf, NoticesReach, OnlyNoticesUnstored, WithRows;
    LiveMatchOpen(room);
    CommitCore(room, rt.pending, if rt.pendingResult then [rt.matchID] else []);
  }

  lemma RetryKeepsInv(room: Room, expected: nat, up: bool, upAgain: bool)
    requires Inv(room)
    ensures Inv(FireStorageRetry(room, expected, up, upAgain))
  {
    hide Mirrors, Ends, StoredRows, RowsOf, NoticesReach, OnlyNoticesUnstored, DuplicateKey, WithRows, Commit, Resume,
      Terminal, Ledger;
    if room.runtime.Some? && room.runtime.value.storagePaused && room.runtime.value.retryAttempt == expected {
      var rt := room.runtime.value;
      CoreFrame(room, room.(runtime := Some(rt.(retryAttempt := expected + 1, retryTimer := Some(expected + 1)))));
      CoreFrame(room, room.(runtime := Some(rt.(retryAttempt := expected + 1, retryTimer := None))));
      ContiguousAppend(room.store, StoredRows(room.log), rt.pending, up);
      if up {
        RecoveredCore(room, rt);
        var results := if rt.pendingResult then [rt.matchID] else [];
        ResumeKeepsInv(Commit(room, WithRows(room.store, rt.pending), rt.pending, results),
          rt.(pending := [], pendingResult := false, finishAfterSave := false), rt.finishAfterSave, upAgain);
      } else if expected + 1 >= |RETRY_DELAYS| && !rt.allDisconnected {
        TerminateKeepsCore(room, rt, room.boundary + |rt.pending| + 1, RetryExhausted, RoomPostMatch, upAgain);
      }
    }
  }

  lemma PresenceKeepsInv(room: Room, connected: bool, allAway: bool, events: seq<Event>, result: bool, finish: bool,
      up: bool)
    requires Inv(room) && Allowed(room, DoPresence(connected, allAway, events, result, finish, up))
    ensures Inv(Presence(room, connected, allAway, events, result, finish, up))
  {
    hide Core, Mirrors, StoredRows, RowsOf, NoticesReach, OnlyNoticesUnstored, Flush, Numbered, Contiguous, Ends;
    if room.runtime.Some? {
      var rt := room.runtime.value.(allDisconnected := !connected && (room.runtime.value.allDisconnected || allAway));
      if rt.storagePaused {
        DeferredOk(room, rt, events, result);
        PresenceFrame(room, connected, allAway, events, result, finish, up);
      } else {
        AwayKeepsInv(room, rt);
        FlushKeepsInv(room.(runtime := Some(rt)), events, result, finish, up);
      }
    }
  }

  /** Deferred events continue the pending batch. */
  lemma DeferredOk(room: Room, rt: Runtime, events: seq<Event>, result: bool)
    requires room.runtime.Some? && RuntimeOk(room, room.runtime.value) && EndingOk(room, events, result, false)
    requires rt == room.runtime.value.(allDisconnected := rt.allDisconnected) && rt.storagePaused
    ensures var pending := rt.pending + Numbered(events, room.boundary + |rt.pending| + 1);
      && pending != [] && Contiguous(pending, room.boundary + 1)
      && forall m :: Ends(pending, m) == Ends(rt.pending, m)
  {
    hide Ends, RowsOf;
    var first := room.boundary + |rt.pending| + 1;
    NumberedEnds(room, events, first, result, false);
    forall m
      ensures Ends(rt.pending + Numbered(events, first), m) == Ends(rt.pending, m)
    {
      EndsConcat(rt.pending, Numbered(events, first), m);
    }
  }

  lemma PresenceFrame(room: Room, connected: bool, allAway: bool, events: seq<Event>, result: bool, finish: bool,
      up: bool)
    requires Core(room) && room.runtime.Some? && room.runtime.value.storagePaused
    ensures Core(Presence(room, connected, allAway, events, result, finish, up))
  {
    hide Core, Numbered;
    CoreFrame(room, Presence(room, connected, allAway, events, result, finish, up));
  }

  lemma AwayKeepsInv(room: Room, rt: Runtime)
    requires Inv(room) && room.runtime.Some? && !rt.storagePaused
      && rt == room.runtime.value.(allDisconnected := rt.allDisconnected)
    ensures Inv(room.(runtime := Some(rt)))
  {
  }

  /** Every step that its caller may take keeps the invariant. */
  lemma StepKeepsInv(room: Room, a: Action)
    requires Inv(room) && Allowed(room, a)
    ensures Inv(Perform(room, a))
  {
    hide Inv, Allowed, Flush, BeginMatch, FireStorageRetry, Presence;
    match a {
      case DoBegin(events, up) => BeginKeepsInv(room, events, up);
      case DoFlush(events, result, finish, up) => FlushStep(room, events, result, finish, up);
      case DoRetry(expected, up, upAgain) => RetryKeepsInv(room, expected, up, upAgain);
      case DoPresence(connected, allAway, events, result, finish, up) =>
        PresenceKeepsInv(room, connected, allAway, events, result, finish, up);
      case DoExpire(up) => ExpiryKeepsInv(room, up);
    }
  }

  lemma FlushStep(room: Room, events: seq<Event>, result: bool, finish: bool, up: bool)
    requires Inv(room) && Allowed(room, DoFlush(events, result, finish, up))
    ensures Inv(Flush(room, events, result, finish, up))
  {
    hide Inv, Flush, EndingOk;
    FlushKeepsInv(room, events, result, finish, up);
  }

  lemma ExpiryKeepsInv(room: Room, up: bool)
    requires Inv(room)
    ensures Inv(PresenceExpiry(room, up))
  {
    hide Core, Append, Commit, Terminal, RuntimeOk;
    if room.runtime.Some? && room.runtime.value.allDisconnected {
      var rt := room.runtime.value;
      TerminateKeepsCore(room, rt, room.boundary + |rt.pending| + 1, AllDisconnected, RoomClosed, up);
    }
  }

  ghost predicate AllowedRun(room: Room, actions: seq<Action>)
    decreases |actions|
  {
    actions == [] || (Allowed(room, actions[0]) && AllowedRun(Perform(room, actions[0]), actions[1..]))
  }

  function Run(room: Room, actions: seq<Action>): Room
    decreases |actions|
  {
    if actions == [] then room else Run(Perform(room, actions[0]), actions[1..])
  }

  lemma NewRoomInv()
    ensures Inv(NEW_ROOM)
  {
    assert StoredRows([]) == [] && RowsOf([]) == [];
    assert forall m :: Ends([], m) == 0;
  }

  lemma {:induction false} RunKeepsInv(room: Room, actions: seq<Action>)
    requires Inv(room) && AllowedRun(room, actions)
    ensures Inv(Run(room, actions))
    decreases |actions|
  {
    hide Inv, Perform, Allowed;
    if actions != [] {
      StepKeepsInv(room, actions[0]);
      RunKeepsInv(Perform(room, actions[0]), actions[1..]);
    }
  }
}
