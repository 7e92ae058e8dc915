/** The registry objects that run the commit protocol in place, proved against EventCommit. */
module EventRegistry {
  import opened Domain
  import opened EventCommit

  datatype SequenceError = InvalidSequence | SequenceExhausted

  /** The last committed event sequence of every live room. */
  class RoomEventSequences {
    var values: map<RoomID, nat>

    function Last(room: RoomID): nat
      reads this
    {
      if room in values then values[room] else 0
    }

    constructor ()
      ensures values == map[]
    {
      values := map[];
    }

    /** Issues the next number of a room, and of no other room. */
    method CommitNext(room: RoomID) returns (r: Outcome<nat, SequenceError>)
      modifies this
      ensures r.Ok? <==> room != 0 && old(Last(room)) != MAX_UINT64
      ensures r.Ok? ==> r.value == old(Last(room)) + 1 && values == old(values)[room := r.value]
      ensures r.Err? ==> values == old(values) && r.error == (if room == 0 then InvalidSequence else SequenceExhausted)
    {
      if room == 0 {
        return Err(InvalidSequence);
      }
      var current := if room in values then values[room] else 0;
      if current == MAX_UINT64 {
        return Err(SequenceExhausted);
      }
      values := values[room := current + 1];
      return Ok(current + 1);
    }

    method Boundary(room: RoomID) returns (r: Outcome<nat, SequenceError>)
      ensures r == if room == 0 then Err(InvalidSequence) else Ok(Last(room))
    {
      if room == 0 {
        return Err(InvalidSequence);
      }
      return Ok(if room in values then values[room] else 0);
    }

    /** A restored boundary never moves a room backwards. */
    method RestoreBoundary(room: RoomID, boundary: nat) returns (r: Option<SequenceError>)
      modifies this
      ensures r == None <==> room != 0 && old(Last(room)) <= boundary
      ensures values == if r == None then old(values)[room := boundary] else old(values)
    {
      if room == 0 || (room in values && values[room] > boundary) {
        return Some(InvalidSequence);
      }
      values := values[room := boundary];
      return None;
    }

    method ForgetClosedRoom(room: RoomID)
      modifies this
      ensures values == if room == 0 then old(values) else old(values) - {room}
    {
      if room != 0 {
        values := values - {room};
      }
    }
  }

  /** The durable store of one room: whole batches, each key once. */
  class EventStore {
    var events: map<nat, Event>
    var results: seq<MatchID>

    constructor ()
      ensures events == map[] && results == []
    {
      events, results := map[], [];
    }

    /** Appends a batch, with a match result if one is given, in one transaction. */
    method AppendRows(rows: seq<Row>, result: Option<MatchID>, up: bool) returns (ok: bool)
      modifies this
      ensures match Append(old(events), rows, up)
        case None => !ok && events == old(events) && results == old(results)
        case Some(after) =>
          && ok && events == after
          && results == old(results) + (if result.Some? then [result.value] else [])
    {
      if !up || DuplicateKey(events, rows) {
        return false;
      }
      ghost var before := events;
      for k := 0 to |rows|
        invariant WithRows(events, rows[k..]) == WithRows(before, rows) && results == old(results)
      {
        assert rows[k..][0] == rows[k] && rows[k..][1..] == rows[k + 1..];
        events := events[rows[k].sequence := rows[k].event];
      }
      assert rows[|rows|..] == [];
      if result.Some? {
        results := results + [result.value];
      }
      return true;
    }
  }

  lemma DeliveredSnoc(rows: seq<Row>, k: nat, stored: bool)
    requires k < |rows|
    ensures Delivered(rows[..k + 1], stored) == Delivered(rows[..k], stored) + [Sent(rows[k], stored)]
  {
  }

  class RegisteredRoom {
    const roomID: RoomID
    const sequences: RoomEventSequences
    const store: EventStore
    var log: seq<Sent>
    var poisoned: bool
    var closed: bool
    var nextMatch: MatchID
    var runtime: Option<Runtime>

    function State(): Room
      reads this, sequences, store
    {
      Room(store.events, store.results, sequences.Last(roomID), log, runtime, poisoned, closed, nextMatch)
    }

    /** The rows a storage pause still holds. */
    function Held(): nat
      reads this
    {
      if runtime.Some? then |runtime.value.pending| else 0
    }

    /** The room can still number this many events. */
    predicate NumbersLeft(n: nat)
      reads this, sequences
    {
      roomID != 0 && sequences.Last(roomID) + n <= MAX_UINT64
    }

    constructor (roomID: RoomID)
      requires roomID != 0
      ensures State() == NEW_ROOM && fresh(sequences) && fresh(store) && this.roomID == roomID
    {
      this.roomID := roomID;
      sequences := new RoomEventSequences();
      store := new EventStore();
      log, poisoned, closed, nextMatch, runtime := [], false, false, 0, None;
    }

    /** Fans a batch out to the subscribers, in order. */
    method Publish(rows: seq<Row>, stored: bool)
      modifies this`log
      ensures log == old(log) + Delivered(rows, stored)
    {
      for k := 0 to |rows|
        invariant log == old(log) + Delivered(rows[..k], stored)
      {
        DeliveredSnoc(rows, k, stored);
        log := log + [Sent(rows[k], stored)];
      }
      assert rows[..|rows|] == rows;
    }

    /** Consumes one sequence for every stored row, then delivers the rows. */
    method CommitAndPublish(rows: seq<Row>)
      requires NumbersLeft(|rows|)
      modifies this`log, sequences
      ensures sequences.Last(roomID) == old(sequences.Last(roomID)) + |rows| && log == old(log) + Delivered(rows, true)
      ensures roomID != 0
    {
      for k := 0 to |rows|
        invariant sequences.Last(roomID) == old(sequences.Last(roomID)) + k && log == old(log)
      {
        var next := sequences.CommitNext(roomID);
      }
      Publish(rows, true);
    }

    method EnterPause(rt: Runtime, rows: seq<Row>, result: bool, finish: bool)
      requires rows != []
      modifies this`runtime
      ensures runtime == Some(EnterStoragePause(rt, rows, result, finish))
    {
      var pending := rows;
      if !finish {
        pending := pending + [Row(rows[|rows| - 1].sequence + 1, GamePaused(rt.matchID))];
      }
      runtime := Some(rt.(storagePaused := true, retryAttempt := 0, retryTimer := Some(0),
        pending := pending, pendingResult := result, finishAfterSave := finish));
    }

    /** Numbers the staged events from the boundary on. */
    method BuildRows(staged: seq<Event>) returns (rows: seq<Row>)
      requires roomID != 0
      ensures rows == Numbered(staged, sequences.Last(roomID) + 1)
    {
      var boundary := sequences.Boundary(roomID);
      rows := [];
      for index := 0 to |staged|
        invariant rows == Numbered(staged[..index], boundary.value + 1)
      {
        assert Numbered(staged[..index + 1], boundary.value + 1) ==
          Numbered(staged[..index], boundary.value + 1) + [Row(boundary.value + 1 + index, staged[index])];
        rows := rows + [Row(boundary.value + 1 + index, staged[index])];
      }
      assert staged[..|staged|] == staged;
    }

    /** Builds the staged events, persists them, and commits and delivers them; or pauses the match, or
        fences a room that has no match. */
    method FlushTx(staged: seq<Event>, result: bool, finish: bool, up: bool) returns (ok: bool)
      requires NumbersLeft(|staged|)
      modifies this, sequences, store
      ensures State() == Flush(old(State()), staged, result, finish, up)
    {
      hide Append, EnterStoragePause, Numbered, Delivered;
      if |staged| == 0 {
        return true;
      }
      var rows := BuildRows(staged);
      ok := store.AppendRows(rows, if result && runtime.Some? then Some(runtime.value.matchID) else None, up);
      if !ok {
        if runtime.Some? {
          EnterPause(runtime.value, rows, result, finish);
        } else {
          poisoned := true;
        }
        return;
      }
      CommitAndPublish(rows);
      if finish {
        runtime := None;
      }
    }

    method Begin(staged: seq<Event>, up: bool) returns (ok: bool)
      requires NumbersLeft(|staged|)
      modifies this, sequences, store
      ensures State() == BeginMatch(old(State()), staged, up)
    {
      hide Flush;
      runtime := Some(Runtime(nextMatch, false, 0, None, [], false, false, false));
      nextMatch := nextMatch + 1;
      ok := FlushTx(staged, false, false, up);
    }

    /** Persists a terminal batch as best it can and tells the clients either way. */
    method Terminate(rows: seq<Row>, up: bool)
      requires NumbersLeft(|rows|)
      modifies this`log, sequences, store
      ensures State() == match Append(old(State()).store, rows, up)
        case Some(after) => Commit(old(State()), after, rows, [])
        case None => Notify(old(State()), rows)
    {
      hide Append;
      var ok := store.AppendRows(rows, None, up);
      if ok {
        CommitAndPublish(rows);
      } else {
        Publish(rows, false);
      }
    }

    method Invalidate(rt: Runtime, up: bool)
      requires rt.pending != [] && NumbersLeft(|rt.pending| + 2)
      modifies this, sequences, store
      ensures State() == InvalidateMatch(old(State()), rt, up)
    {
      hide Append;
      var last := rt.pending[|rt.pending| - 1].sequence;
      var rows := rt.pending + [Row(last + 1, GameEnded(rt.matchID, RetryExhausted)), Row(last + 2, RoomPostMatch)];
      assert rows == Terminal(rt.pending, last + 1, rt.matchID, RetryExhausted, RoomPostMatch);
      Terminate(rows, up);
      runtime := None;
    }

    /** After recovery: the separate resume marker, which may itself fail and become the pending batch. */
    method AppendResumeMarker(rt: Runtime, up: bool)
      requires NumbersLeft(1)
      modifies this, sequences, store
      ensures State() == Resume(old(State()), rt, false, up)
    {
      hide Append;
      var resumed := [Row(sequences.Last(roomID) + 1, GameResumed(rt.matchID))];
      var ok := store.AppendRows(resumed, None, up);
      if !ok {
        runtime := Some(rt.(pending := resumed, retryAttempt := 0, retryTimer := Some(0)));
        return;
      }
      CommitAndPublish(resumed);
      runtime := Some(rt.(storagePaused := false, retryAttempt := 0, retryTimer := None));
    }

    method FireRetry(expected: nat, up: bool, upAgain: bool)
      requires runtime.Some? && runtime.value.storagePaused ==> runtime.value.pending != []
      requires NumbersLeft(Held() + 2)
      modifies this, sequences, store
      ensures State() == FireStorageRetry(old(State()), expected, up, upAgain)
    {
      hide Append, InvalidateMatch, Resume, Delivered;
      if closed || poisoned || runtime.None? {
        return;
      }
      var rt := runtime.value;
      if !rt.storagePaused || rt.retryAttempt != expected {
        return;
      }
      var ok := store.AppendRows(rt.pending, if rt.pendingResult then Some(rt.matchID) else None, up);
      if !ok {
        var next := rt.retryAttempt + 1;
        if next < |RETRY_DELAYS| {
          runtime := Some(rt.(retryAttempt := next, retryTimer := Some(next)));
        } else if rt.allDisconnected {
          runtime := Some(rt.(retryAttempt := next, retryTimer := None));
        } else {
          Invalidate(rt, upAgain);
        }
        return;
      }
      CommitAndPublish(rt.pending);
      var saved := rt.(pending := [], pendingResult := false, finishAfterSave := false);
      ResumeFrame(State(), saved, rt.finishAfterSave, upAgain);
      if rt.finishAfterSave {
        runtime := None;
      } else {
        AppendResumeMarker(saved, upAgain);
      }
    }

    lemma ResumeFrame(room: Room, rt: Runtime, finish: bool, up: bool)
      ensures finish ==> Resume(room, rt, finish, up) == room.(runtime := None)
    {
    }

    /** Numbers the staged presence events behind the pending batch. */
    method AppendDeferred(pending: seq<Row>, staged: seq<Event>) returns (rows: seq<Row>)
      requires roomID != 0
      ensures rows == pending + Numbered(staged, sequences.Last(roomID) + |pending| + 1)
    {
      var boundary := sequences.Boundary(roomID);
      rows := pending;
      for k := 0 to |staged|
        invariant rows == pending + Numbered(staged[..k], boundary.value + |pending| + 1)
      {
        var first := boundary.value + |pending| + 1;
        assert Numbered(staged[..k + 1], first) == Numbered(staged[..k], first) + [Row(first + k, staged[k])];
        rows := rows + [Row(boundary.value + |rows| + 1, staged[k])];
      }
      assert staged[..|staged|] == staged;
    }

    method ApplyPresence(connected: bool, allAway: bool, staged: seq<Event>, result: bool, finish: bool, up: bool)
      requires NumbersLeft(|staged|)
      modifies this, sequences, store
      ensures State() == Presence(old(State()), connected, allAway, staged, result, finish, up)
    {
      hide Flush, Numbered;
      if closed || poisoned || runtime.None? {
        return;
      }
      var rt := runtime.value;
      if connected {
        rt := rt.(allDisconnected := false);
      } else if allAway {
        rt := rt.(allDisconnected := true);
      }
      if rt.storagePaused {
        var pending := AppendDeferred(rt.pending, staged);
        rt := rt.(pending := pending);
        if connected && rt.retryTimer.None? {
          rt := rt.(retryAttempt := 0, retryTimer := Some(0));
        }
        runtime := Some(rt);
        return;
      }
      runtime := Some(rt);
      var ok := FlushTx(staged, result, finish, up);
    }

    method FirePresenceExpiry(up: bool)
      requires NumbersLeft(Held() + 2)
      modifies this, sequences, store
      ensures State() == PresenceExpiry(old(State()), up)
    {
      hide Append, Terminal;
      if closed || poisoned || runtime.None? || !runtime.value.allDisconnected {
        return;
      }
      var rt := runtime.value;
      var next := sequences.Last(roomID) + |rt.pending| + 1;
      var rows := Terminal(rt.pending, next, rt.matchID, AllDisconnected, RoomClosed);
      TerminalSize(rt.pending, sequences.Last(roomID) + |rt.pending| + 1, rt.matchID);
      Terminate(rows, up);
      runtime := None;
      closed := true;
      sequences.ForgetClosedRoom(roomID);
    }

    lemma TerminalSize(pending: seq<Row>, next: nat, m: MatchID)
      ensures |Terminal(pending, next, m, AllDisconnected, RoomClosed)| == |pending| + 2
    {
    }
  }
}
