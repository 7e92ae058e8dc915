/** What a spectator's join does while the room waits for its store: the one flush that is not refused then. */
module EventJoins {
  import opened Domain
  import opened EventCommit
  import opened EventInvariants
  import opened EventAnnounced

  // ----- A spectator joins while the room waits for its store -----

  /** The join's own flush; unlike every command it is not refused during a storage pause. */
  function Join(room: Room, events: seq<Event>, up: bool): Room {
    Flush(room, events, false, false, up)
  }

  lemma TakenKey(store: map<nat, Event>, had: seq<Row>, rows: seq<Row>)
    requires Mirrors(store, had) && rows != [] && 1 <= rows[0].sequence <= |had|
    ensures DuplicateKey(store, rows)
  {
    assert rows[0].sequence in store;
  }

  /** During a pause the pending batch can still be stored exactly while nothing else was. */
  lemma PendingStorableExactly(room: Room, events: seq<Event>, up: bool)
    requires Inv(room) && room.runtime.Some? && room.runtime.value.storagePaused
    ensures Append(Join(room, events, up).store, room.runtime.value.pending, true).Some? <==> events == [] || !up
  {
    hide Ends, RowsOf, NoticesReach, OnlyNoticesUnstored, Ledger, StoredRows, DuplicateKey, WithRows, Mirrors;
    var rt := room.runtime.value;
    var had := StoredRows(room.log);
    ContiguousAppend(room.store, had, rt.pending, true);
    if events != [] {
      var rows := Numbered(events, room.boundary + 1);
      ContiguousAppend(room.store, had, rows, up);
      if up {
        TakenKey(WithRows(room.store, rows), had + rows, rt.pending);
      }
    }
  }

  /** A join that is stored delivers its event under the number that the pending batch starts with, and no
      append of that batch will ever be accepted again: not by a retry, and not with the match's end. */
  lemma StoredJoinBlocks(room: Room, events: seq<Event>, up: bool, more: seq<Row>)
    requires Inv(room) && room.runtime.Some? && room.runtime.value.storagePaused && events != []
    ensures var joined := Join(room, events, true);
      && joined == Commit(room, joined.store, Numbered(events, room.boundary + 1), [])
      && Append(joined.store, room.runtime.value.pending, up) == None
      && Append(joined.store, room.runtime.value.pending + more, up) == None
  {
    hide Ends, RowsOf, NoticesReach, OnlyNoticesUnstored, Ledger, StoredRows, DuplicateKey, WithRows, Mirrors;
    var rt := room.runtime.value;
    var had := StoredRows(room.log);
    var rows := Numbered(events, room.boundary + 1);
    ContiguousAppend(room.store, had, rows, true);
    assert (rt.pending + more)[0] == rt.pending[0];
    TakenKey(WithRows(room.store, rows), had + rows, rt.pending);
    TakenKey(WithRows(room.store, rows), had + rows, rt.pending + more);
    assert room.results + [] == room.results;
  }

  /** So even with the store healthy from then on, the three retries fail and the match is invalidated; its
      rows and its end reach the clients unstored, and a pending result is lost. */
  lemma StoredJoinEndsMatch(room: Room, events: seq<Event>)
    requires Inv(room) && room.runtime.Some? && room.runtime.value.storagePaused && events != []
    requires room.runtime.value.retryAttempt == 0 && !room.runtime.value.allDisconnected
    ensures room.runtime.value.pending != []
    ensures var rt := room.runtime.value;
      var joined := Join(room, events, true);
      var after := Run(joined, [DoRetry(0, true, true), DoRetry(1, true, true), DoRetry(2, true, true)]);
      var next := rt.pending[|rt.pending| - 1].sequence + 1;
      && after.runtime == None && after.results == room.results && after.store == joined.store
      && after.log == joined.log +
        Delivered(Terminal(rt.pending, next, rt.matchID, RetryExhausted, RoomPostMatch), false)
  {
    hide Core, RuntimeOk, Append, Delivered, Run, Terminal, Flush, Commit;
    PausedHolds(room);
    var rt := room.runtime.value;
    var joined := Join(room, events, true);
    var next := rt.pending[|rt.pending| - 1].sequence + 1;
    JoinedIsBlocked(room, events);
    var first := joined.(runtime := Some(rt.(retryAttempt := 1, retryTimer := Some(1))));
    var second := joined.(runtime := Some(rt.(retryAttempt := 2, retryTimer := Some(2))));
    BlockedRetry(joined, 0);
    BlockedRetry(first, 1);
    LastBlockedRetry(second);
    RunThree(joined, DoRetry(0, true, true), DoRetry(1, true, true), DoRetry(2, true, true));
  }

  lemma PausedHolds(room: Room)
    requires Inv(room) && room.runtime.Some? && room.runtime.value.storagePaused
    ensures room.runtime.value.pending != []
  {
    hide Core;
  }

  /** The room cannot store its pending batch, and neither the batch with its match's end. */
  predicate Blocked(room: Room) {
    && room.runtime.Some? && room.runtime.value.storagePaused && !room.closed && !room.poisoned
    && room.runtime.value.pending != [] && !room.runtime.value.allDisconnected
    && var rt := room.runtime.value;
      var next := rt.pending[|rt.pending| - 1].sequence + 1;
      && Append(room.store, rt.pending, true) == None
      && Append(room.store, Terminal(rt.pending, next, rt.matchID, RetryExhausted, RoomPostMatch), true) == None
  }

  lemma JoinedIsBlocked(room: Room, events: seq<Event>)
    requires Inv(room) && room.runtime.Some? && room.runtime.value.storagePaused && events != []
    requires !room.runtime.value.allDisconnected
    ensures var joined := Join(room, events, true);
      Blocked(joined) && joined.runtime == room.runtime && joined.results == room.results
  {
    hide Core, RuntimeOk, Append, Delivered, Flush;
    PausedHolds(room);
    var rt := room.runtime.value;
    var next := rt.pending[|rt.pending| - 1].sequence + 1;
    StoredJoinBlocks(room, events, true,
      [Row(next, GameEnded(rt.matchID, RetryExhausted)), Row(next + 1, RoomPostMatch)]);
    assert room.results + [] == room.results;
  }

  lemma BlockedRetry(room: Room, attempt: nat)
    requires Blocked(room) && room.runtime.value.retryAttempt == attempt < 2
    ensures FireStorageRetry(room, attempt, true, true) ==
      room.(runtime := Some(room.runtime.value.(retryAttempt := attempt + 1, retryTimer := Some(attempt + 1))))
    ensures Blocked(FireStorageRetry(room, attempt, true, true))
  {
    hide Append, Terminal;
  }

  lemma LastBlockedRetry(room: Room)
    requires Blocked(room) && room.runtime.value.retryAttempt == 2
    ensures var rt := room.runtime.value;
      var next := rt.pending[|rt.pending| - 1].sequence + 1;
      FireStorageRetry(room, 2, true, true) ==
        Notify(room, Terminal(rt.pending, next, rt.matchID, RetryExhausted, RoomPostMatch)).(runtime := None)
  {
    hide Append, Terminal, Notify;
  }

  lemma RunThree(room: Room, a: Action, b: Action, c: Action)
    ensures Run(room, [a, b, c]) == Perform(Perform(Perform(room, a), b), c)
  {
    hide Perform;
    var room1, room2 := Perform(room, a), Perform(Perform(room, a), b);
    assert [a, b, c][1..] == [b, c] && [b, c][1..] == [c] && [c][1..] == [];
    assert Run(room, [a, b, c]) == Run(room1, [b, c]) == Run(room2, [c]);
  }

  /** A join that is not stored replaces the pending batch by its own rows: staged rows are dropped, and a
      finished match whose end was staged is no longer to be finished. The next healthy retry resumes it. */
  lemma FailedJoinDropsPending(room: Room, events: seq<Event>)
    requires Inv(room) && room.runtime.Some? && room.runtime.value.storagePaused && events != []
    ensures var rt := room.runtime.value;
      var rows := Numbered(events, room.boundary + 1);
      var joined := Join(room, events, false);
      var after := FireStorageRetry(joined, 0, true, true);
      var resumed := Row(room.boundary + |events| + 2, GameResumed(rt.matchID));
      && joined.log == room.log
      && Pending(joined) == rows + [Row(room.boundary + |events| + 1, GamePaused(rt.matchID))]
      && after.log == room.log + Delivered(Pending(joined), true) + Delivered([resumed], true)
      && after.runtime.Some? && !after.runtime.value.storagePaused && after.results == room.results
  {
    hide Ends, RowsOf, NoticesReach, OnlyNoticesUnstored, Ledger, StoredRows, DuplicateKey, WithRows, Mirrors,
      Delivered;
    var rt := room.runtime.value;
    var had := StoredRows(room.log);
    var rows := Numbered(events, room.boundary + 1);
    var joined := Join(room, events, false);
    var pending := Pending(joined);
    ContiguousAppend(room.store, had, pending, true);
    var resumed := [Row(room.boundary + |pending| + 1, GameResumed(rt.matchID))];
    ContiguousAppend(WithRows(room.store, pending), had + pending, resumed, true);
    assert room.results + [] == room.results;
  }
}
