/** How a room's events reach the store and its subscribers: validate, persist, consume sequences,
    broadcast; and what a failing store turns that into. */
module EventCommit {
  import opened Domain

  datatype EndReason = AllFinished | RetryExhausted | AllDisconnected

  datatype Event =
    | GameEnded(ended: MatchID, reason: EndReason)
    | GamePaused(paused: MatchID)
    | GameResumed(resumed: MatchID)
    | RoomPostMatch
    | RoomClosed
    | Ordinary(tag: nat)

  /** A message with its room sequence; the stored row carries the same bytes. */
  datatype Row = Row(sequence: nat, event: Event)

  /** A delivered message, and whether its row had been stored before the delivery. */
  datatype Sent = Sent(row: Row, stored: bool)

  const RETRY_DELAYS: seq<nat> := [1, 2, 5]

  datatype Runtime = Runtime(
    matchID: MatchID,
    storagePaused: bool, retryAttempt: nat, retryTimer: Option<nat>,
    pending: seq<Row>, pendingResult: bool, finishAfterSave: bool,
    allDisconnected: bool)

  datatype Room = Room(
    store: map<nat, Event>, results: seq<MatchID>,
    boundary: nat, log: seq<Sent>,
    runtime: Option<Runtime>, poisoned: bool, closed: bool, nextMatch: MatchID)

  const NEW_ROOM := Room(map[], [], 0, [], None, false, false, 0)

  // ----- The store -----

  function Numbered(events: seq<Event>, first: nat): (rows: seq<Row>)
    ensures |rows| == |events|
  {
    seq(|events|, i requires 0 <= i < |events| => Row(first + i, events[i]))
  }

  predicate DuplicateKey(store: map<nat, Event>, rows: seq<Row>) {
    (exists i :: 0 <= i < |rows| && rows[i].sequence in store)
    || exists i, j :: 0 <= i < j < |rows| && rows[i].sequence == rows[j].sequence
  }

  function WithRows(store: map<nat, Event>, rows: seq<Row>): map<nat, Event>
    decreases |rows|
  {
    if rows == [] then store else WithRows(store[rows[0].sequence := rows[0].event], rows[1..])
  }

  /** The store appends a whole batch or nothing: nothing when it is down or a key is taken. */
  function Append(store: map<nat, Event>, rows: seq<Row>, up: bool): Option<map<nat, Event>> {
    if !up || DuplicateKey(store, rows) then None else Some(WithRows(store, rows))
  }

  function Delivered(rows: seq<Row>, stored: bool): (sent: seq<Sent>)
    ensures |sent| == |rows|
  {
    seq(|rows|, i requires 0 <= i < |rows| => Sent(rows[i], stored))
  }

  /** What a successful append does: sequences are consumed, then the messages go out. */
  function Commit(room: Room, store: map<nat, Event>, rows: seq<Row>, results: seq<MatchID>): Room {
    room.(store := store, results := room.results + results, boundary := room.boundary + |rows|,
      log := room.log + Delivered(rows, true))
  }

  /** The terminal paths notify clients even when the append failed. */
  function Notify(room: Room, rows: seq<Row>): Room {
    room.(log := room.log + Delivered(rows, false))
  }

  // ----- Steps -----

  function EnterStoragePause(rt: Runtime, rows: seq<Row>, result: bool, finish: bool): Runtime
    requires rows != []
  {
    var marker := Row(rows[|rows| - 1].sequence + 1, GamePaused(rt.matchID));
    rt.(storagePaused := true, retryAttempt := 0, retryTimer := Some(0),
      pending := if finish then rows else rows + [marker], pendingResult := result, finishAfterSave := finish)
  }

  /** Persists one operation's events, then commits and broadcasts them. */
  function Flush(room: Room, events: seq<Event>, result: bool, finish: bool, up: bool): Room {
    if events == [] then room
    else
      var rows := Numbered(events, room.boundary + 1);
      match (Append(room.store, rows, up), room.runtime)
      case (None, Some(rt)) => room.(runtime := Some(EnterStoragePause(rt, rows, result, finish)))
      case (None, None) => room.(poisoned := true)
      case (Some(store), _) =>
        var results := if result && room.runtime.Some? then [room.runtime.value.matchID] else [];
        Commit(room, store, rows, results).(runtime := if finish then None else room.runtime)
  }

  function BeginMatch(room: Room, events: seq<Event>, up: bool): Room {
    var rt := Runtime(room.nextMatch, false, 0, None, [], false, false, false);
    Flush(room.(runtime := Some(rt), nextMatch := room.nextMatch + 1), events, false, false, up)
  }

  function Terminal(rows: seq<Row>, next: nat, m: MatchID, reason: EndReason, status: Event): seq<Row> {
    rows + [Row(next, GameEnded(m, reason)), Row(next + 1, status)]
  }

  function InvalidateMatch(room: Room, rt: Runtime, up: bool): Room
    requires rt.pending != []
  {
    var next := rt.pending[|rt.pending| - 1].sequence + 1;
    var rows := Terminal(rt.pending, next, rt.matchID, RetryExhausted, RoomPostMatch);
    var done := match Append(room.store, rows, up)
      case Some(store) => Commit(room, store, rows, [])
      case None => Notify(room, rows);
    done.(runtime := None)
  }

  /** After the pending batch is stored: the match is over, or a separate resume marker ends the pause. */
  function Resume(room: Room, rt: Runtime, finish: bool, up: bool): Room {
    if finish then room.(runtime := None)
    else
      var rows := [Row(room.boundary + 1, GameResumed(rt.matchID))];
      match Append(room.store, rows, up)
      case None => room.(runtime := Some(rt.(pending := rows, retryAttempt := 0, retryTimer := Some(0))))
      case Some(store) =>
        Commit(room, store, rows, []).(runtime :=
          Some(rt.(storagePaused := false, retryAttempt := 0, retryTimer := None)))
  }

  /** A retry timer fires; one that was overtaken does nothing. `up` answers its first append and
      `upAgain` the second one, if it makes one. A paused match always has a pending batch, so the case
      without one never arises. */
  function FireStorageRetry(room: Room, expected: nat, up: bool, upAgain: bool): Room {
    if room.closed || room.poisoned || room.runtime.None? then room
    else
      var rt := room.runtime.value;
      if !rt.storagePaused || rt.retryAttempt != expected then room
      else
        match Append(room.store, rt.pending, up)
        case Some(store) =>
          var results := if rt.pendingResult then [rt.matchID] else [];
          Resume(Commit(room, store, rt.pending, results),
            rt.(pending := [], pendingResult := false, finishAfterSave := false), rt.finishAfterSave, upAgain)
        case None =>
          var next := rt.retryAttempt + 1;
          if next < |RETRY_DELAYS| then
            room.(runtime := Some(rt.(retryAttempt := next, retryTimer := Some(next))))
          else if rt.allDisconnected then
            room.(runtime := Some(rt.(retryAttempt := next, retryTimer := None)))
          else if rt.pending == [] then room
          else InvalidateMatch(room, rt, upAgain)
  }

  /** A player's first connection opens or last one closes: the events join the pending batch during a
      storage pause, and are flushed otherwise. */
  function Presence(room: Room, connected: bool, allAway: bool, events: seq<Event>, result: bool, finish: bool,
      up: bool): Room {
    if room.closed || room.poisoned || room.runtime.None? then room
    else
      var rt := room.runtime.value.(allDisconnected := !connected && (room.runtime.value.allDisconnected || allAway));
      if rt.storagePaused then
        var deferred := rt.(pending := rt.pending + Numbered(events, room.boundary + |rt.pending| + 1));
        if connected && rt.retryTimer.None? then
          room.(runtime := Some(deferred.(retryAttempt := 0, retryTimer := Some(0))))
        else room.(runtime := Some(deferred))
      else Flush(room.(runtime := Some(rt)), events, result, finish, up)
  }

  /** The grace period of an abandoned match ends: the room closes whatever the store answers. */
  function PresenceExpiry(room: Room, up: bool): Room {
    if room.closed || room.poisoned || room.runtime.None? || !room.runtime.value.allDisconnected then room
    else
      var rt := room.runtime.value;
      var rows := Terminal(rt.pending, room.boundary + |rt.pending| + 1, rt.matchID, AllDisconnected, RoomClosed);
      var done := match Append(room.store, rows, up)
        case Some(store) => Commit(room, store, rows, [])
        case None => Notify(room, rows);
      done.(runtime := None, closed := true, boundary := 0)
  }

  datatype Action =
    | DoBegin(events: seq<Event>, up: bool)
    | DoFlush(events: seq<Event>, result: bool, finish: bool, up: bool)
    | DoRetry(expected: nat, up: bool, upAgain: bool)
    | DoPresence(connected: bool, allAway: bool, events: seq<Event>, result: bool, finish: bool, up: bool)
    | DoExpire(up: bool)

  function Perform(room: Room, a: Action): Room {
    match a
    case DoBegin(events, up) => BeginMatch(room, events, up)
    case DoFlush(events, result, finish, up) => Flush(room, events, result, finish, up)
    case DoRetry(expected, up, upAgain) => FireStorageRetry(room, expected, up, upAgain)
    case DoPresence(connected, allAway, events, result, finish, up) =>
      Presence(room, connected, allAway, events, result, finish, up)
    case DoExpire(up) => PresenceExpiry(room, up)
  }

  /** How often a match's end is among the rows. */
  function Ends(rows: seq<Row>, m: MatchID): nat {
    if rows == [] then 0
    else (if rows[0].event.GameEnded? && rows[0].event.ended == m then 1 else 0) + Ends(rows[1..], m)
  }

  predicate NoEnd(events: seq<Event>) {
    forall e :: e in events ==> !e.GameEnded?
  }

  /** Only the transaction that finishes a match ends it, once, and only such a one carries a result. */
  predicate EndingOk(room: Room, events: seq<Event>, result: bool, finish: bool) {
    if finish then
      room.runtime.Some? &&
      exists k :: 0 <= k < |events| && events[k] == GameEnded(room.runtime.value.matchID, AllFinished)
        && NoEnd(events[..k]) && NoEnd(events[k + 1..])
    else !result && NoEnd(events)
  }

  /** What the callers guarantee: no command on a closed or fenced room or during a storage pause. */
  predicate Allowed(room: Room, a: Action) {
    match a
    case DoBegin(events, _) => !room.closed && !room.poisoned && room.runtime.None? && NoEnd(events)
    case DoFlush(events, result, finish, _) =>
      && !room.closed && !room.poisoned && (room.runtime.Some? ==> !room.runtime.value.storagePaused)
      && EndingOk(room, events, result, finish)
    case DoRetry(_, _, _) => true
    case DoPresence(_, _, events, result, finish, _) =>
      room.runtime.Some? ==>
        && EndingOk(room, events, result, finish)
        && (room.runtime.value.storagePaused ==> !finish)
    case DoExpire(_) => true
  }

  // ----- What every history keeps -----

  /** The delivered rows whose append succeeded, in order of delivery. */
  function StoredRows(log: seq<Sent>): seq<Row> {
    if log == [] then [] else (if log[0].stored then [log[0].row] else []) + StoredRows(log[1..])
  }

  function RowsOf(log: seq<Sent>): (rows: seq<Row>)
    ensures |rows| == |log|
  {
    seq(|log|, i requires 0 <= i < |log| => log[i].row)
  }

  predicate Contiguous(rows: seq<Row>, first: nat) {
    forall i :: 0 <= i < |rows| ==> rows[i].sequence == first + i
  }

  /** The store holds exactly the sequences 1..n, and the rows delivered after being stored are exactly
      the store's contents in sequence order. */
  ghost predicate Mirrors(store: map<nat, Event>, rows: seq<Row>) {
    && Contiguous(rows, 1)
    && (forall n :: n in store <==> 1 <= n <= |rows|)
    && forall i :: 0 <= i < |rows| ==> store[i + 1] == rows[i].event
  }

  /** Some notice has this number. */
  ghost predicate Noticed(log: seq<Sent>, n: nat) {
    exists i :: 0 <= i < |log| && !log[i].stored && log[i].row.sequence == n
  }

  /** Above the stored sequences, notices leave no hole. */
  ghost predicate NoticesReach(log: seq<Sent>, last: nat) {
    forall q, n :: Noticed(log, q) && last < n <= q ==> Noticed(log, n)
  }

  /** The events that giving up on a match appends: its end, and the room's new status. */
  predicate GivenUp(ended: Event, status: Event) {
    && ended.GameEnded?
    && match ended.reason
       case RetryExhausted => status == RoomPostMatch
       case AllDisconnected => status == RoomClosed
       case AllFinished => false
  }

  /** The deliveries from a to b are the notice of one failed termination: consecutive numbers, none of
      them stored, and at last the match is given up. */
  ghost predicate Notice(log: seq<Sent>, a: nat, b: nat) {
    && a + 2 <= b <= |log|
    && (forall i :: a <= i < b ==> !log[i].stored && log[i].row.sequence == log[a].row.sequence + (i - a))
    && GivenUp(log[b - 2].row.event, log[b - 1].row.event)
  }

  /** Only failed terminations announce what was not stored. */
  ghost predicate OnlyNoticesUnstored(log: seq<Sent>) {
    forall i :: 0 <= i < |log| && !log[i].stored ==> exists a: nat, b: nat :: a <= i < b && Notice(log, a, b)
  }

  /** Statistics belong to matches that ended exactly once. */
  ghost predicate Ledger(room: Room) {
    && Distinct(room.results)
    && (forall m :: m in room.results ==>
      m < room.nextMatch && Ends(RowsOf(room.log), m) == 1 && Ends(StoredRows(room.log), m) == 1)
    && (forall m :: m >= room.nextMatch ==> Ends(RowsOf(room.log), m) == 0)
    && forall m :: Ends(RowsOf(room.log), m) <= 2
  }

  ghost predicate Core(room: Room) {
    && Mirrors(room.store, StoredRows(room.log))
    && (!room.closed ==> room.boundary == |StoredRows(room.log)|)
    && NoticesReach(room.log, |StoredRows(room.log)|)
    && OnlyNoticesUnstored(room.log)
    && Ledger(room)
  }

  /** The pending batch continues the stored sequences, and a paused match always has something that
      will move it on: an armed retry, or the watchdog of an abandoned match. */
  ghost predicate RuntimeOk(room: Room, rt: Runtime) {
    && (rt.storagePaused <==> rt.pending != [])
    && Contiguous(rt.pending, room.boundary + 1)
    && rt.matchID < room.nextMatch && rt.matchID !in room.results && Ends(RowsOf(room.log), rt.matchID) == 0
    && (forall m :: Ends(rt.pending, m) == if rt.finishAfterSave && m == rt.matchID then 1 else 0)
    && (rt.pendingResult ==> rt.finishAfterSave) && (rt.finishAfterSave ==> rt.storagePaused)
    && (rt.storagePaused ==>
      (rt.retryTimer == Some(rt.retryAttempt) && rt.retryAttempt < |RETRY_DELAYS|)
      || (rt.retryTimer == None && rt.allDisconnected))
  }

  ghost predicate Inv(room: Room) {
    && Core(room)
    && (room.runtime.Some? ==> !room.closed && !room.poisoned && RuntimeOk(room, room.runtime.value))
  }
}
