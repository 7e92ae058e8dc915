/** Idempotent commands: at most one execution per key in flight, one answer for everybody who asks. */
module Processor {
  import opened Domain

  type CallID = nat

  datatype Key = Key(user: nat, command: nat)

  /** The normalized command; equal bytes mean equal content, and the room is part of it. */
  datatype Fingerprint = Fingerprint(room: RoomID, content: nat)

  datatype Result = Accepted(value: nat) | Rejected(retriable: bool, code: nat) | ExecutionFailed(error: nat)

  /** Accepted commands and final rejections are replayed; anything else may be tried again. */
  predicate ShouldRetain(r: Result) {
    r.Accepted? || (r.Rejected? && !r.retriable)
  }

  /** One execution's record; records are numbered in the order their executions start. */
  datatype Entry = Entry(key: Key, fingerprint: Fingerprint, result: Option<Result>, evict: bool)

  datatype Reply = Answer(result: Result) | Conflict | Canceled

  datatype Call =
    | Executing(entry: nat, fingerprint: Fingerprint)
    | Waiting(entry: nat, fingerprint: Fingerprint)
    | Returned(reply: Reply, via: Option<nat>, fingerprint: Fingerprint)

  datatype State = State(table: map<Key, nat>, records: seq<Entry>, calls: map<CallID, Call>)

  const EMPTY := State(map[], [], map[])

  // ----- The processor's critical sections -----

  datatype Admission = Execute(entry: nat) | Wait(entry: nat) | Refused

  function Admit(table: map<Key, nat>, records: seq<Entry>, key: Key, fp: Fingerprint)
    : (map<Key, nat>, seq<Entry>, Admission)
    requires key in table ==> table[key] < |records|
  {
    if key in table then
      (table, records, if records[table[key]].fingerprint != fp then Refused else Wait(table[key]))
    else (table[key := |records|], records + [Entry(key, fp, None, false)], Execute(|records|))
  }

  function Finish(table: map<Key, nat>, records: seq<Entry>, e: nat, result: Result): (map<Key, nat>, seq<Entry>)
    requires e < |records|
  {
    var key := records[e].key;
    var drop := (!ShouldRetain(result) || records[e].evict) && key in table && table[key] == e;
    (if drop then table - {key} else table, records[e := records[e].(result := Some(result))])
  }

  predicate Listed(table: map<Key, nat>, records: seq<Entry>) {
    forall k :: k in table ==> table[k] < |records| && records[table[k]].key == k
  }

  predicate Leaves(table: map<Key, nat>, records: seq<Entry>, room: RoomID, k: Key)
    requires Listed(table, records) && k in table
  {
    records[table[k]].fingerprint.room == room && records[table[k]].result.Some?
  }

  predicate Marked(table: map<Key, nat>, records: seq<Entry>, room: RoomID, e: nat)
    requires e < |records|
  {
    records[e].key in table && table[records[e].key] == e && records[e].fingerprint.room == room
      && records[e].result.None?
  }

  /** Among the keys in scope, completed records of the room leave the table, and running ones are marked
      to leave it when they finish. */
  function ForgetTable(table: map<Key, nat>, records: seq<Entry>, room: RoomID, scope: set<Key>): map<Key, nat>
    requires Listed(table, records)
  {
    map k | k in table && !(k in scope && Leaves(table, records, room, k)) :: table[k]
  }

  function ForgetRecords(table: map<Key, nat>, records: seq<Entry>, room: RoomID, scope: set<Key>): (after: seq<Entry>)
    ensures |after| == |records|
  {
    seq(|records|, e requires 0 <= e < |records| =>
      if records[e].key in scope && Marked(table, records, room, e) then records[e].(evict := true) else records[e])
  }

  // ----- Interleavings -----

  datatype Action =
    | Arrive(call: CallID, key: Key, fingerprint: Fingerprint)
    | Complete(call: CallID, result: Result)
    | Receive(call: CallID)
    | Cancel(call: CallID)
    | Forget(room: RoomID)

  /** A call starts once, only the executing call completes, and only waiting calls receive or give up. */
  predicate Enabled(s: State, a: Action) {
    match a
    case Arrive(call, _, _) => call !in s.calls
    case Complete(call, _) => call in s.calls && s.calls[call].Executing?
    case Receive(call) =>
      call in s.calls && s.calls[call].Waiting? && s.calls[call].entry < |s.records|
        && s.records[s.calls[call].entry].result.Some?
    case Cancel(call) => call in s.calls && s.calls[call].Waiting?
    case Forget(_) => true
  }

  function Arrived(fp: Fingerprint, admission: Admission): Call {
    match admission
    case Execute(e) => Executing(e, fp)
    case Wait(e) => Call.Waiting(e, fp)
    case Refused => Returned(Conflict, None, fp)
  }

  function Step(s: State, a: Action): State
    requires Inv(s) && Enabled(s, a)
  {
    match a
    case Arrive(call, key, fp) =>
      var (table, records, admission) := Admit(s.table, s.records, key, fp);
      State(table, records, s.calls[call := Arrived(fp, admission)])
    case Complete(call, result) =>
      var running := s.calls[call];
      var (table, records) := Finish(s.table, s.records, running.entry, result);
      State(table, records, s.calls[call := Returned(Answer(result), Some(running.entry), running.fingerprint)])
    case Receive(call) =>
      var waiting := s.calls[call];
      s.(calls := s.calls[call :=
        Returned(Answer(s.records[waiting.entry].result.value), Some(waiting.entry), waiting.fingerprint)])
    case Cancel(call) => s.(calls := s.calls[call := Returned(Canceled, None, s.calls[call].fingerprint)])
    case Forget(room) => s.(table := ForgetTable(s.table, s.records, room, s.table.Keys),
      records := ForgetRecords(s.table, s.records, room, s.table.Keys))
  }

  predicate TableOk(table: map<Key, nat>, records: seq<Entry>) {
    forall k :: k in table ==>
      && table[k] < |records| && records[table[k]].key == k
      && (records[table[k]].result.Some? ==> ShouldRetain(records[table[k]].result.value) && !records[table[k]].evict)
  }

  /** A running record is always in the table, so a duplicate always finds it. */
  predicate RunningListed(table: map<Key, nat>, records: seq<Entry>) {
    forall e :: 0 <= e < |records| && records[e].result.None? ==> records[e].key in table && table[records[e].key] == e
  }

  predicate CallOk(s: State, c: Call) {
    match c
    case Executing(e, fp) => e < |s.records| && s.records[e].fingerprint == fp && s.records[e].result.None?
    case Waiting(e, fp) => e < |s.records| && s.records[e].fingerprint == fp
    case Returned(Answer(result), via, fp) =>
      via.Some? && via.value < |s.records| && s.records[via.value].fingerprint == fp
        && s.records[via.value].result == Some(result)
    case Returned(_, _, _) => true
  }

  ghost predicate CallsOk(s: State) {
    && (forall c :: c in s.calls ==> CallOk(s, s.calls[c]))
    && RunAlone(s) && AllRun(s)
  }

  ghost predicate RunAlone(s: State) {
    forall c, d :: BothRun(s, c, d) ==> c == d
  }

  ghost predicate AllRun(s: State) {
    forall e :: 0 <= e < |s.records| && s.records[e].result.None? ==> Runs(s, e)
  }

  predicate BothRun(s: State, c: CallID, d: CallID) {
    c in s.calls && d in s.calls && s.calls[c].Executing? && s.calls[d].Executing?
      && s.calls[c].entry == s.calls[d].entry
  }

  ghost predicate Runs(s: State, e: nat) {
    exists c :: c in s.calls && s.calls[c].Executing? && s.calls[c].entry == e
  }

  ghost predicate Inv(s: State) {
    TableOk(s.table, s.records) && RunningListed(s.table, s.records) && CallsOk(s)
  }

  /** Changing one call keeps every running record with its one call. */
  lemma OneCallChanges(s: State, after: State, call: CallID, c: Call)
    requires RunAlone(s) && AllRun(s) && after.calls == s.calls[call := c]
    requires |after.records| >= |s.records|
    requires forall e :: 0 <= e < |s.records| && after.records[e].result.None? ==>
      s.records[e].result.None? && !(call in s.calls && s.calls[call].Executing? && s.calls[call].entry == e)
    requires |after.records| <= |s.records| + 1
    requires |after.records| > |s.records| ==> c.Executing? && c.entry == |s.records|
    requires c.Executing? ==> c.entry == |s.records|
    requires forall d :: d in s.calls && s.calls[d].Executing? ==> s.calls[d].entry < |s.records|
    ensures RunAlone(after) && AllRun(after)
  {
    forall x, y | BothRun(after, x, y)
      ensures x == y
    {
      assert x != call && y != call ==> BothRun(s, x, y);
    }
    forall e | 0 <= e < |after.records| && after.records[e].result.None?
      ensures Runs(after, e)
    {
      if e < |s.records| {
        assert Runs(s, e);
        var d :| d in s.calls && s.calls[d].Executing? && s.calls[d].entry == e;
        assert d != call;
        assert after.calls[d] == s.calls[d];
      } else {
        assert after.calls[call] == c;
      }
    }
  }

  lemma RunningEntries(s: State)
    requires CallsOk(s)
    ensures forall d :: d in s.calls && s.calls[d].Executing? ==> s.calls[d].entry < |s.records|
  {
    forall d | d in s.calls && s.calls[d].Executing?
      ensures s.calls[d].entry < |s.records|
    {
      assert CallOk(s, s.calls[d]);
    }
  }

  lemma ArriveKeepsInv(s: State, call: CallID, key: Key, fp: Fingerprint)
    requires Inv(s) && Enabled(s, Arrive(call, key, fp))
    ensures Inv(Step(s, Arrive(call, key, fp)))
  {
    hide RunAlone, AllRun;
    var after := Step(s, Arrive(call, key, fp));
    RunningEntries(s);
    OneCallChanges(s, after, call, after.calls[call]);
    forall c | c in after.calls
      ensures CallOk(after, after.calls[c])
    {
      if c != call {
        assert CallOk(s, s.calls[c]);
      }
    }
  }

  lemma CompleteKeepsInv(s: State, call: CallID, result: Result)
    requires Inv(s) && Enabled(s, Complete(call, result))
    ensures Inv(Step(s, Complete(call, result)))
  {
    hide AllRun;
    var after := Step(s, Complete(call, result));
    assert CallOk(s, s.calls[call]);
    RunningEntries(s);
    OneCallChanges(s, after, call, after.calls[call]);
    forall c | c in after.calls
      ensures CallOk(after, after.calls[c])
    {
      if c != call {
        assert CallOk(s, s.calls[c]);
        assert s.calls[c].Executing? && s.calls[c].entry == s.calls[call].entry ==> BothRun(s, c, call);
      }
    }
  }

  /** A call that leaves the wait changes no record. */
  lemma LeaveKeepsInv(s: State, call: CallID, left: Call)
    requires Inv(s) && call in s.calls && s.calls[call].Waiting? && left.Returned? && CallOk(s, left)
    ensures Inv(s.(calls := s.calls[call := left]))
  {
    hide RunAlone, AllRun, TableOk, RunningListed;
    var after := s.(calls := s.calls[call := left]);
    RunningEntries(s);
    OneCallChanges(s, after, call, left);
    forall c | c in after.calls
      ensures CallOk(after, after.calls[c])
    {
      if c != call {
        assert CallOk(s, s.calls[c]);
      }
    }
  }

  lemma ForgetKeepsInv(s: State, room: RoomID)
    requires Inv(s)
    ensures Inv(Step(s, Forget(room)))
  {
    ForgetKeepsLists(s.table, s.records, room);
    ForgetKeepsCalls(s, Step(s, Forget(room)), room);
    hide Listed, TableOk, RunningListed, CallsOk;
  }

  lemma ForgetKeepsCalls(s: State, after: State, room: RoomID)
    requires CallsOk(s) && after.calls == s.calls
      && after.records == ForgetRecords(s.table, s.records, room, s.table.Keys)
    ensures CallsOk(after)
  {
    hide Marked;
    assert RunAlone(after) by {
      forall x, y | BothRun(after, x, y)
        ensures x == y
      {
        assert BothRun(s, x, y);
      }
    }
    forall e | 0 <= e < |after.records| && after.records[e].result.None?
      ensures Runs(after, e)
    {
      assert Runs(s, e);
      var c :| c in s.calls && s.calls[c].Executing? && s.calls[c].entry == e;
    }
    forall c | c in after.calls
      ensures CallOk(after, after.calls[c])
    {
      assert CallOk(s, s.calls[c]);
    }
  }

  lemma StepKeepsInv(s: State, a: Action)
    requires Inv(s) && Enabled(s, a)
    ensures Inv(Step(s, a))
  {
    match a {
      case Arrive(call, key, fp) => ArriveKeepsInv(s, call, key, fp);
      case Complete(call, result) => CompleteKeepsInv(s, call, result);
      case Receive(call) =>
        assert CallOk(s, s.calls[call]);
        LeaveKeepsInv(s, call, Step(s, a).calls[call]);
      case Cancel(call) => LeaveKeepsInv(s, call, Step(s, a).calls[call]);
      case Forget(room) => ForgetKeepsInv(s, room);
    }
  }

  ghost predicate EnabledRun(s: State, actions: seq<Action>)
    requires Inv(s)
    decreases |actions|
  {
    actions == [] ||
    (Enabled(s, actions[0]) && (StepKeepsInv(s, actions[0]); EnabledRun(Step(s, actions[0]), actions[1..])))
  }

  ghost function Run(s: State, actions: seq<Action>): (after: State)
    requires Inv(s) && EnabledRun(s, actions)
    ensures Inv(after)
    decreases |actions|
  {
    if actions == [] then s
    else
      StepKeepsInv(s, actions[0]);
      Run(Step(s, actions[0]), actions[1..])
  }

  predicate SameKeyRunning(s: State, d: nat, e: nat) {
    && d < |s.records| && e < |s.records| && s.records[d].key == s.records[e].key
    && s.records[d].result.None? && s.records[e].result.None?
  }

  predicate SameKeyExecuting(s: State, c: CallID, d: CallID) {
    && c in s.calls && d in s.calls && s.calls[c].Executing? && s.calls[d].Executing?
    && s.calls[c].entry < |s.records| && s.calls[d].entry < |s.records|
    && s.records[s.calls[c].entry].key == s.records[s.calls[d].entry].key
  }

  /** In every interleaving: a key has at most one execution in flight, run by exactly one call; and
      whoever gets an answer gets the result of one execution of the very same command. */
  lemma OneExecutionOneAnswer(actions: seq<Action>)
    requires EnabledRun(EMPTY, actions)
    ensures var s := Run(EMPTY, actions);
      && (forall d, e :: SameKeyRunning(s, d, e) ==> d == e)
      && (forall e :: 0 <= e < |s.records| && s.records[e].result.None? ==> Runs(s, e))
      && (forall c, d :: SameKeyExecuting(s, c, d) ==> c == d)
      && (forall c :: c in s.calls && s.calls[c].Returned? && s.calls[c].reply.Answer? ==>
        && s.calls[c].via.Some? && s.calls[c].via.value < |s.records|
        && s.records[s.calls[c].via.value].fingerprint == s.calls[c].fingerprint
        && s.records[s.calls[c].via.value].result == Some(s.calls[c].reply.result))
  {
    var s := Run(EMPTY, actions);
    forall c | c in s.calls
      ensures CallOk(s, s.calls[c])
    {
    }
    forall c, d | SameKeyExecuting(s, c, d)
      ensures c == d
    {
      assert CallOk(s, s.calls[c]) && CallOk(s, s.calls[d]);
      assert BothRun(s, c, d);
    }
  }

  /** A new call conflicts exactly when its key is listed with other content, waits exactly when it is
      listed with the same content, and executes exactly when it is not listed. */
  lemma ArrivalExactly(s: State, call: CallID, key: Key, fp: Fingerprint)
    requires Inv(s) && call !in s.calls
    ensures var c := Step(s, Arrive(call, key, fp)).calls[call];
      && (c == Returned(Conflict, None, fp) <==> key in s.table && s.records[s.table[key]].fingerprint != fp)
      && (c.Waiting? <==> key in s.table && s.records[s.table[key]].fingerprint == fp)
      && (c.Executing? <==> key !in s.table)
      && |Step(s, Arrive(call, key, fp)).records| == |s.records| + (if c.Executing? then 1 else 0)
  {
  }

  predicate Forgets(a: Action, room: RoomID) {
    a == Forget(room)
  }

  /** Records keep their keys, and none was added for this one. */
  ghost predicate NoNewExecution(before: State, after: State, key: Key) {
    && |before.records| <= |after.records|
    && (forall e :: 0 <= e < |before.records| ==> after.records[e].key == before.records[e].key)
    && forall e :: |before.records| <= e < |after.records| ==> after.records[e].key != key
  }

  lemma RetainedStep(s: State, a: Action, key: Key)
    requires Inv(s) && Enabled(s, a) && key in s.table && s.records[s.table[key]].result.Some?
    requires !Forgets(a, s.records[s.table[key]].fingerprint.room)
    ensures var after := Step(s, a);
      && key in after.table && after.table[key] == s.table[key] && |after.records| >= |s.records|
      && after.records[s.table[key]] == s.records[s.table[key]]
      && NoNewExecution(s, after, key)
  {
    if a.Complete? {
      assert CallOk(s, s.calls[a.call]);
    }
  }

  /** A retained result stays listed, unchanged and without a second execution, until its room is forgotten. */
  lemma {:induction false} RetainedUntilForgotten(s: State, actions: seq<Action>, key: Key)
    requires Inv(s) && EnabledRun(s, actions) && key in s.table && s.records[s.table[key]].result.Some?
    requires forall a :: a in actions ==> !Forgets(a, s.records[s.table[key]].fingerprint.room)
    ensures var after := Run(s, actions);
      && key in after.table && after.table[key] == s.table[key] && |after.records| >= |s.records|
      && after.records[s.table[key]] == s.records[s.table[key]]
      && NoNewExecution(s, after, key)
    decreases |actions|
  {
    hide Inv, Enabled, Step;
    if actions != [] {
      StepKeepsInv(s, actions[0]);
      RetainedStep(s, actions[0], key);
      RetainedUntilForgotten(Step(s, actions[0]), actions[1..], key);
    }
  }

  /** A completed execution leaves its key listed exactly when its result is to be replayed and its room
      was not forgotten meanwhile. */
  lemma CompletionListsExactly(s: State, call: CallID, result: Result)
    requires Inv(s) && Enabled(s, Complete(call, result))
    ensures var e := s.calls[call].entry;
      var key := s.records[e].key;
      && e < |s.records|
        && (key in Step(s, Complete(call, result)).table <==> ShouldRetain(result) && !s.records[e].evict)
  {
    assert CallOk(s, s.calls[call]);
  }

  lemma RunningStep(s: State, a: Action, e: nat)
    requires Inv(s) && Enabled(s, a) && e < |s.records| && s.records[e].result.None?
    ensures var after := Step(s, a);
      && e < |after.records| && after.records[e].key == s.records[e].key
      && after.records[e].fingerprint == s.records[e].fingerprint
      && (after.records[e].evict <==> s.records[e].evict || Forgets(a, s.records[e].fingerprint.room))
  {
  }

  /** An execution is marked to be dropped exactly when its room is forgotten while it runs. */
  lemma {:induction false} MarkedExactly(s: State, actions: seq<Action>, e: nat)
    requires Inv(s) && EnabledRun(s, actions) && e < |s.records| && e < |Run(s, actions).records|
    requires Run(s, actions).records[e].result.None?
    ensures Run(s, actions).records[e].evict <==>
      s.records[e].evict || exists a :: a in actions && Forgets(a, s.records[e].fingerprint.room)
    decreases |actions|
  {
    hide Inv, Enabled, Step;
    if actions != [] {
      StepKeepsInv(s, actions[0]);
      var next := Step(s, actions[0]);
      ResultsStay(s, actions, e);
      RunningStep(s, actions[0], e);
      MarkedExactly(next, actions[1..], e);
      assert actions == [actions[0]] + actions[1..];
    }
  }

  lemma ResultsStep(s: State, a: Action, e: nat)
    requires Inv(s) && Enabled(s, a) && e < |s.records| && s.records[e].result.Some?
    ensures e < |Step(s, a).records| && Step(s, a).records[e].result == s.records[e].result
  {
    if a.Complete? {
      assert CallOk(s, s.calls[a.call]);
    }
  }

  /** A result is never taken back or changed. */
  lemma {:induction false} ResultsStay(s: State, actions: seq<Action>, e: nat)
    requires Inv(s) && EnabledRun(s, actions) && e < |s.records|
    ensures e < |Run(s, actions).records|
    ensures s.records[e].result.Some? ==> Run(s, actions).records[e].result == s.records[e].result
    decreases |actions|
  {
    hide Inv, Enabled, Step;
    if actions != [] {
      StepKeepsInv(s, actions[0]);
      if s.records[e].result.Some? {
        ResultsStep(s, actions[0], e);
      } else {
        RunningStep(s, actions[0], e);
      }
      ResultsStay(Step(s, actions[0]), actions[1..], e);
    }
  }

  /** Everything listed for the room is still running and marked to be dropped when it completes. */
  ghost predicate OnlyDoomed(s: State, room: RoomID)
    requires Inv(s)
  {
    forall k :: k in s.table && s.records[s.table[k]].fingerprint.room == room ==>
      s.records[s.table[k]].result.None? && s.records[s.table[k]].evict
  }

  predicate ArrivesFor(a: Action, room: RoomID) {
    a.Arrive? && a.fingerprint.room == room
  }

  lemma DoomedStep(s: State, a: Action, room: RoomID)
    requires Inv(s) && Enabled(s, a) && !ArrivesFor(a, room) && OnlyDoomed(s, room)
    ensures Inv(Step(s, a)) && OnlyDoomed(Step(s, a), room)
  {
    StepKeepsInv(s, a);
    if a.Complete? {
      assert CallOk(s, s.calls[a.call]);
    }
  }

  lemma {:induction false} DoomedRun(s: State, actions: seq<Action>, room: RoomID)
    requires Inv(s) && EnabledRun(s, actions) && OnlyDoomed(s, room)
    requires forall a :: a in actions ==> !ArrivesFor(a, room)
    ensures OnlyDoomed(Run(s, actions), room)
    decreases |actions|
  {
    hide Inv, Enabled, Step, OnlyDoomed, ArrivesFor;
    if actions != [] {
      assert actions[0] in actions;
      DoomedStep(s, actions[0], room);
      DoomedRun(Step(s, actions[0]), actions[1..], room);
    }
  }

  lemma ForgetDooms(s: State, room: RoomID)
    requires Inv(s)
    ensures Inv(Step(s, Forget(room))) && OnlyDoomed(Step(s, Forget(room)), room)
  {
    StepKeepsInv(s, Forget(room));
  }

  /** After a room is forgotten, and until a command for it arrives again, whatever else happens nothing
      completed is listed for it: what was running then is dropped as it completes, never replayed. */
  lemma ForgottenRoomIsEmpty(s: State, room: RoomID, actions: seq<Action>)
    requires Inv(s) && Inv(Step(s, Forget(room))) && EnabledRun(Step(s, Forget(room)), actions)
    requires forall a :: a in actions ==> !ArrivesFor(a, room)
    ensures OnlyDoomed(Run(Step(s, Forget(room)), actions), room)
  {
    hide Inv, Step, OnlyDoomed, EnabledRun, Run;
    ForgetDooms(s, room);
    DoomedRun(Step(s, Forget(room)), actions, room);
  }

  /** The processor object. Each method is one critical section; what happens between them is any
      interleaving of the steps above. */
  class CommandProcessor {
    var entries: map<Key, nat>
    var records: seq<Entry>

    predicate Valid()
      reads this
    {
      TableOk(entries, records) && RunningListed(entries, records)
    }

    constructor ()
      ensures Valid() && entries == map[] && records == []
    {
      entries, records := map[], [];
    }

    method Begin(key: Key, fp: Fingerprint) returns (admission: Admission)
      requires Valid()
      modifies this
      ensures Valid() && (entries, records, admission) == Admit(old(entries), old(records), key, fp)
    {
      if key in entries {
        if records[entries[key]].fingerprint != fp {
          return Refused;
        }
        return Wait(entries[key]);
      }
      admission := Execute(|records|);
      entries := entries[key := |records|];
      records := records + [Entry(key, fp, None, false)];
    }

    method Settle(e: nat, result: Result)
      requires Valid() && e < |records| && records[e].result.None?
      modifies this
      ensures Valid() && (entries, records) == Finish(old(entries), old(records), e, result)
    {
      var key := records[e].key;
      var retain := ShouldRetain(result);
      records := records[e := records[e].(result := Some(result))];
      if !retain || records[e].evict {
        if key in entries && entries[key] == e {
          entries := entries - {key};
        }
      }
    }

    method ForgetKey(key: Key, room: RoomID)
      requires key in entries && entries[key] < |records|
      modifies this
      ensures var e := old(entries)[key];
        if old(records)[e].fingerprint.room != room then entries == old(entries) && records == old(records)
        else if old(records)[e].result.Some? then entries == old(entries) - {key} && records == old(records)
        else entries == old(entries) && records == old(records)[e := old(records)[e].(evict := true)]
    {
      var e := entries[key];
      if records[e].fingerprint.room == room {
        if records[e].result.Some? {
          entries := entries - {key};
        } else {
          records := records[e := records[e].(evict := true)];
        }
      }
    }

    /** Visits every listed key in no particular order. */
    method ForgetClosedRoom(room: RoomID)
      requires Valid()
      modifies this
      ensures Valid()
      ensures entries == ForgetTable(old(entries), old(records), room, old(entries).Keys)
      ensures records == ForgetRecords(old(entries), old(records), room, old(entries).Keys)
    {
      hide Listed, TableOk, RunningListed, ForgetTable, ForgetRecords;
      ghost var table, before := entries, records;
      var todo := entries.Keys;
      TableIsListed(table, before);
      NothingForgotten(table, before, room);
      assert table.Keys - todo == {};
      while todo != {}
        invariant todo <= table.Keys && Listed(table, before)
        invariant entries == ForgetTable(table, before, room, table.Keys - todo)
        invariant records == ForgetRecords(table, before, room, table.Keys - todo)
        decreases |todo|
      {
        var key :| key in todo;
        ForgetOne(table, before, room, table.Keys - todo, key);
        assert table.Keys - (todo - {key}) == table.Keys - todo + {key};
        todo := todo - {key};
        ForgetKey(key, room);
      }
      assert table.Keys - {} == table.Keys;
      ForgetKeepsLists(table, before, room);
    }
  }

  lemma TableIsListed(table: map<Key, nat>, records: seq<Entry>)
    requires TableOk(table, records)
    ensures Listed(table, records)
  {
  }

  lemma NothingForgotten(table: map<Key, nat>, records: seq<Entry>, room: RoomID)
    requires Listed(table, records)
    ensures ForgetTable(table, records, room, {}) == table && ForgetRecords(table, records, room, {}) == records
  {
  }

  /** Extending the scope by one key changes at most that key's record. */
  lemma ForgetOne(table: map<Key, nat>, records: seq<Entry>, room: RoomID, done: set<Key>, key: Key)
    requires Listed(table, records) && key in table && key !in done
    ensures var t, r := ForgetTable(table, records, room, done), ForgetRecords(table, records, room, done);
      var t', r' := ForgetTable(table, records, room, done + {key}), ForgetRecords(table, records, room, done + {key});
      var e := table[key];
      && key in t && t[key] == e && r[e] == records[e]
      && (if records[e].fingerprint.room != room then t' == t && r' == r
          else if records[e].result.Some? then t' == t - {key} && r' == r
          else t' == t && r' == r[e := r[e].(evict := true)])
  {
  }

  lemma ForgetKeepsLists(table: map<Key, nat>, records: seq<Entry>, room: RoomID)
    requires TableOk(table, records) && RunningListed(table, records)
    ensures Listed(table, records)
    ensures var t, r := ForgetTable(table, records, room, table.Keys), ForgetRecords(table, records, room, table.Keys);
      TableOk(t, r) && RunningListed(t, r)
  {
    var t, r := ForgetTable(table, records, room, table.Keys), ForgetRecords(table, records, room, table.Keys);
    forall e | 0 <= e < |r|
      ensures r[e].key == records[e].key && r[e].result == records[e].result
    {
    }
    forall k | k in t
      ensures r[t[k]].result.Some? ==> r[t[k]] == records[t[k]]
    {
    }
  }
}
