/** The room's single executor: an unbuffered mailbox, a two-part stop, and callbacks that may panic.
    Every atomic action of submitters, closers and the actor goroutine is one step. */
module RoomActor {
  type RequestID = nat

  datatype Response = Answered(outcome: nat) | Panicked | ActorClosed | Canceled

  /** A submitter: past the closed check, handed over to the actor, or returned. */
  datatype Submitter = Offering | Sent | Returned(response: Response)

  datatype Pc =
    | Selecting
    | Admitted(id: RequestID)
    | Executing(id: RequestID)
    | Panicking(id: RequestID)
    | Responding(id: RequestID, response: Response, last: bool)
    | Cleaning
    | Done

  datatype Stopper = ByActor | ByCloser(closer: nat)

  /** The once-only stop: the closed flag is stored first, the stopping channel is closed after it. */
  datatype Once = NotStopped | Stopping(who: Stopper) | Stopped

  datatype Event = Start(id: RequestID) | Finish(id: RequestID) | Cleanup

  datatype State = State(
    once: Once, pc: Pc, submitters: map<RequestID, Submitter>, responses: map<RequestID, Response>,
    log: seq<Event>, callbackPanicked: bool, cleanupPanicked: bool)
  {
    predicate Closed() {
      once != NotStopped
    }

    predicate StoppingClosed() {
      once == Stopped
    }
  }

  const INITIAL := State(NotStopped, Selecting, map[], map[], [], false, false)

  datatype Action =
    | Submit(id: RequestID)
    | HandOver(id: RequestID)
    | SeeStopping(id: RequestID)
    | CancelWait(id: RequestID)
    | TakeResponse(id: RequestID)
    | StoreClosed(who: Stopper)
    | CloseStopping
    | ActorSeesStopping
    | ActorChecks
    | CallbackReturns(outcome: nat)
    | CallbackPanics
    | ActorStopped
    | ActorResponds
    | CleanupReturns(panicked: bool)

  predicate IsAt(s: State, id: RequestID, at: Submitter) {
    id in s.submitters && s.submitters[id] == at
  }

  predicate Enabled(s: State, a: Action) {
    match a
    case Submit(id) => id !in s.submitters
    case HandOver(id) => IsAt(s, id, Offering) && s.pc == Selecting
    case SeeStopping(id) => IsAt(s, id, Offering) && s.StoppingClosed()
    case CancelWait(id) => IsAt(s, id, Offering)
    case TakeResponse(id) => IsAt(s, id, Sent) && id in s.responses
    case StoreClosed(who) => s.once == NotStopped && (who == ByActor ==> s.pc.Panicking?)
    case CloseStopping => s.once.Stopping?
    case ActorSeesStopping => s.pc == Selecting && s.StoppingClosed()
    case ActorChecks => s.pc.Admitted?
    case CallbackReturns(_) => s.pc.Executing?
    case CallbackPanics => s.pc.Executing?
    case ActorStopped => s.pc.Panicking? && s.once == Stopped
    case ActorResponds => s.pc.Responding?
    case CleanupReturns(_) => s.pc == Cleaning
  }

  function Step(s: State, a: Action): State
    requires Enabled(s, a)
  {
    match a
    case Submit(id) => s.(submitters := s.submitters[id := if s.Closed() then Returned(ActorClosed) else Offering])
    case HandOver(id) => s.(submitters := s.submitters[id := Sent], pc := Admitted(id))
    case SeeStopping(id) => s.(submitters := s.submitters[id := Returned(ActorClosed)])
    case CancelWait(id) => s.(submitters := s.submitters[id := Returned(Canceled)])
    case TakeResponse(id) => s.(submitters := s.submitters[id := Returned(s.responses[id])])
    case StoreClosed(who) => s.(once := Stopping(who))
    case CloseStopping => s.(once := Stopped)
    case ActorSeesStopping => s.(pc := Cleaning)
    case ActorChecks =>
      if s.Closed() then s.(responses := s.responses[s.pc.id := ActorClosed], pc := Cleaning)
      else s.(pc := Executing(s.pc.id), log := s.log + [Start(s.pc.id)])
    case CallbackReturns(outcome) =>
      s.(pc := Responding(s.pc.id, Answered(outcome), false), log := s.log + [Finish(s.pc.id)])
    case CallbackPanics => s.(pc := Panicking(s.pc.id), log := s.log + [Finish(s.pc.id)], callbackPanicked := true)
    case ActorStopped => s.(pc := Responding(s.pc.id, Panicked, true))
    case ActorResponds =>
      s.(responses := s.responses[s.pc.id := s.pc.response], pc := if s.pc.last then Cleaning else Selecting)
    case CleanupReturns(panicked) => s.(pc := Done, log := s.log + [Cleanup], cleanupPanicked := panicked)
  }

  // ----- What every interleaving keeps -----

  /** Executions one after another, each finished before the next starts. */
  predicate Serial(log: seq<Event>) {
    log == [] || (|log| >= 2 && log[0].Start? && log[1] == Finish(log[0].id) && Serial(log[2..]))
  }

  predicate LogOk(log: seq<Event>, pc: Pc) {
    match pc
    case Executing(id) => log != [] && log[|log| - 1] == Start(id) && Serial(log[..|log| - 1])
    case Done => log != [] && log[|log| - 1] == Cleanup && Serial(log[..|log| - 1])
    case _ => Serial(log)
  }

  /** The request the actor holds and has not answered yet. */
  predicate Holds(pc: Pc, id: RequestID) {
    (pc.Admitted? || pc.Executing? || pc.Panicking? || pc.Responding?) && pc.id == id
  }

  predicate Started(log: seq<Event>, id: RequestID) {
    Start(id) in log
  }

  predicate NeverRan(response: Response) {
    response == ActorClosed || response == Canceled
  }

  /** One submitter's view: an admitted request is answered or in the actor's hands, never both. */
  predicate SubmitterOk(s: State, id: RequestID) {
    && (id !in s.submitters || s.submitters[id] == Offering ==>
      id !in s.responses && !Holds(s.pc, id) && !Started(s.log, id))
    && (IsAt(s, id, Sent) ==> (id in s.responses <==> !Holds(s.pc, id)))
    && (id in s.submitters && s.submitters[id].Returned? ==>
      && !Holds(s.pc, id)
      && (if id in s.responses then s.submitters[id].response == s.responses[id]
          else !Started(s.log, id) && NeverRan(s.submitters[id].response)))
    && (id in s.responses ==> (Started(s.log, id) <==> s.responses[id].Answered? || s.responses[id].Panicked?))
    && (Holds(s.pc, id) ==> (Started(s.log, id) <==> !s.pc.Admitted?))
  }

  /** Nothing may start any more: the actor is closed, or a callback has panicked and it is about to be. */
  predicate Stilled(s: State) {
    s.Closed() || s.pc.Panicking?
  }

  ghost predicate Inv(s: State) {
    && LogOk(s.log, s.pc)
    && (forall id :: SubmitterOk(s, id))
    && (forall i, j :: 0 <= i < j < |s.log| && s.log[i].Start? ==> s.log[i] != s.log[j])
    && (s.pc.Responding? ==>
      !s.pc.response.ActorClosed? && !s.pc.response.Canceled? && (s.pc.last <==> s.pc.response.Panicked?))
    && (s.pc == Cleaning || s.pc == Done || (s.pc.Responding? && s.pc.last) ==> s.Closed())
    && (s.once == Stopping(ByActor) ==> s.pc.Panicking?)
    && (s.callbackPanicked ==> Stilled(s))
  }

  lemma {:induction false} SerialConcat(a: seq<Event>, b: seq<Event>)
    requires Serial(a) && Serial(b)
    ensures Serial(a + b)
  {
    if a == [] {
      assert a + b == b;
    } else {
      assert (a + b)[2..] == a[2..] + b;
      SerialConcat(a[2..], b);
    }
  }

  lemma LogFinish(log: seq<Event>, id: RequestID)
    requires LogOk(log, Executing(id))
    ensures Serial(log + [Finish(id)])
  {
    var pair := [Start(id), Finish(id)];
    assert pair[2..] == [];
    SerialConcat(log[..|log| - 1], pair);
    assert log + [Finish(id)] == log[..|log| - 1] + pair;
  }

  lemma LogGrows(s: State, a: Action)
    requires LogOk(s.log, s.pc) && Enabled(s, a)
    ensures LogOk(Step(s, a).log, Step(s, a).pc)
  {
    var after := Step(s, a);
    if a.CallbackReturns? || a.CallbackPanics? {
      LogFinish(s.log, s.pc.id);
    } else if after.log != s.log {
      assert after.log[..|after.log| - 1] == s.log;
    }
  }

  lemma StartedOnce(s: State, a: Action)
    requires Inv(s) && Enabled(s, a)
    ensures var log := Step(s, a).log; forall i, j :: 0 <= i < j < |log| && log[i].Start? ==> log[i] != log[j]
  {
    hide LogOk;
    if a.ActorChecks? {
      assert SubmitterOk(s, s.pc.id);
    }
  }

  lemma SubmittersKept(s: State, a: Action, id: RequestID)
    requires Inv(s) && Enabled(s, a)
    ensures SubmitterOk(Step(s, a), id)
  {
    hide LogOk;
    assert SubmitterOk(s, id);
    var after := Step(s, a);
    assert Started(after.log, id) <==> Started(s.log, id) || (after.log != s.log && after.log[|s.log|] == Start(id));
    if a.TakeResponse? {
      assert SubmitterOk(s, a.id);
    }
  }

  lemma StepKeepsInv(s: State, a: Action)
    requires Inv(s) && Enabled(s, a)
    ensures Inv(Step(s, a))
  {
    hide LogOk, SubmitterOk;
    LogGrows(s, a);
    StartedOnce(s, a);
    forall id
      ensures SubmitterOk(Step(s, a), id)
    {
      SubmittersKept(s, a, id);
    }
  }

  ghost predicate EnabledRun(s: State, actions: seq<Action>)
    decreases |actions|
  {
    actions == [] || (Enabled(s, actions[0]) && EnabledRun(Step(s, actions[0]), actions[1..]))
  }

  ghost function Run(s: State, actions: seq<Action>): State
    requires EnabledRun(s, actions)
    decreases |actions|
  {
    if actions == [] then s else Run(Step(s, actions[0]), actions[1..])
  }

  lemma {:induction false} RunKeepsInv(s: State, actions: seq<Action>)
    requires Inv(s) && EnabledRun(s, actions)
    ensures Inv(Run(s, actions))
    decreases |actions|
  {
    hide Inv, Enabled, Step;
    if actions != [] {
      StepKeepsInv(s, actions[0]);
      RunKeepsInv(Step(s, actions[0]), actions[1..]);
    }
  }

  /** In every interleaving of submitters, closers and panicking callbacks: executions do not overlap and
      no request executes twice; cleanup happens once, last, and only after the actor was closed; and
      when the actor is done, every request it admitted has its one response. */
  lemma OneAtATime(actions: seq<Action>)
    requires EnabledRun(INITIAL, actions)
    ensures var s := Run(INITIAL, actions);
      && (forall i, j :: 0 <= i < j < |s.log| && s.log[i].Start? ==> s.log[i] != s.log[j])
      && (s.pc == Done ==>
        && s.Closed() && s.log != [] && s.log[|s.log| - 1] == Cleanup && Serial(s.log[..|s.log| - 1])
        && forall id :: IsAt(s, id, Sent) ==> id in s.responses)
      && (s.pc.Executing? ==> s.log != [] && s.log[|s.log| - 1] == Start(s.pc.id) && Serial(s.log[..|s.log| - 1]))
      && (s.pc != Done && !s.pc.Executing? ==> Serial(s.log))
  {
    hide SubmitterOk;
    InitialInv();
    RunKeepsInv(INITIAL, actions);
    var s := Run(INITIAL, actions);
    forall id | IsAt(s, id, Sent) && s.pc == Done
      ensures id in s.responses
    {
      DoneHoldsNothing(s, id);
    }
  }

  lemma InitialInv()
    ensures Inv(INITIAL)
  {
  }

  lemma DoneHoldsNothing(s: State, id: RequestID)
    requires Inv(s) && IsAt(s, id, Sent) && s.pc == Done
    ensures id in s.responses
  {
    hide LogOk;
    assert SubmitterOk(s, id);
  }

  /** What a submitter gets back tells whether its request was executed: an outcome or a contained panic
      means exactly once, a closed or canceled answer means never. */
  lemma AnswersTellExecution(actions: seq<Action>, id: RequestID)
    requires EnabledRun(INITIAL, actions)
    ensures var s := Run(INITIAL, actions);
      id in s.submitters && s.submitters[id].Returned? ==>
        (Started(s.log, id) <==> s.submitters[id].response.Answered? || s.submitters[id].response.Panicked?)
  {
    hide LogOk;
    InitialInv();
    RunKeepsInv(INITIAL, actions);
    assert SubmitterOk(Run(INITIAL, actions), id);
  }

  /** A response is never overwritten, and the submitter returns exactly it. */
  lemma ResponsesStay(s: State, a: Action, id: RequestID)
    requires Inv(s) && Enabled(s, a) && id in s.responses
    ensures id in Step(s, a).responses && Step(s, a).responses[id] == s.responses[id]
    ensures IsAt(s, id, Sent) && !IsAt(Step(s, a), id, Sent) ==> IsAt(Step(s, a), id, Returned(s.responses[id]))
  {
    hide LogOk;
    assert SubmitterOk(s, id);
    if s.pc.Admitted? || s.pc.Responding? {
      assert SubmitterOk(s, s.pc.id);
    }
  }

  /** Once the closed flag is stored, nothing starts any more, whatever happens. */
  lemma {:induction false} ClosedStartsNothing(s: State, actions: seq<Action>, id: RequestID)
    requires s.Closed() && EnabledRun(s, actions)
    ensures Run(s, actions).Closed() && (Started(Run(s, actions).log, id) <==> Started(s.log, id))
    decreases |actions|
  {
    hide Enabled, Step;
    if actions != [] {
      ClosedStepStartsNothing(s, actions[0], id);
      ClosedStartsNothing(Step(s, actions[0]), actions[1..], id);
    }
  }

  lemma ClosedStepStartsNothing(s: State, a: Action, id: RequestID)
    requires Enabled(s, a) && s.Closed()
    ensures Step(s, a).Closed() && (Started(Step(s, a).log, id) <==> Started(s.log, id))
  {
    var after := Step(s, a);
    assert after.log == s.log
      || (|after.log| == |s.log| + 1 && after.log[..|s.log|] == s.log && !after.log[|s.log|].Start?);
  }

  lemma StillStep(s: State, a: Action, id: RequestID)
    requires Enabled(s, a) && Stilled(s)
    ensures Stilled(Step(s, a)) && (Started(Step(s, a).log, id) <==> Started(s.log, id))
  {
    var after := Step(s, a);
    assert after.log == s.log
      || (|after.log| == |s.log| + 1 && after.log[..|s.log|] == s.log && !after.log[|s.log|].Start?);
  }

  lemma {:induction false} StaysStill(s: State, actions: seq<Action>, id: RequestID)
    requires Stilled(s) && EnabledRun(s, actions)
    ensures Started(Run(s, actions).log, id) <==> Started(s.log, id)
    decreases |actions|
  {
    hide Enabled, Step, Stilled;
    if actions != [] {
      StillStep(s, actions[0], id);
      StaysStill(Step(s, actions[0]), actions[1..], id);
    }
  }

  /** After a callback has panicked, nothing starts any more in any interleaving: the actor closes itself. */
  lemma PanicClosesActor(before: seq<Action>, actions: seq<Action>, id: RequestID)
    requires EnabledRun(INITIAL, before) && Run(INITIAL, before).callbackPanicked
    requires EnabledRun(Run(INITIAL, before), actions)
    ensures Started(Run(Run(INITIAL, before), actions).log, id) <==> Started(Run(INITIAL, before).log, id)
    ensures Run(INITIAL, before).Closed() || Run(INITIAL, before).pc.Panicking?
  {
    hide LogOk, SubmitterOk;
    InitialInv();
    RunKeepsInv(INITIAL, before);
    StaysStill(Run(INITIAL, before), actions, id);
  }

  lemma LateStep(s: State, a: Action, id: RequestID)
    requires Enabled(s, a) && s.Closed()
    requires id in s.submitters ==> IsAt(s, id, Returned(ActorClosed))
    ensures id in Step(s, a).submitters ==> IsAt(Step(s, a), id, Returned(ActorClosed))
  {
  }

  /** Whoever submits to a closed actor is told so at once, and is never admitted. */
  lemma {:induction false} LateSubmitsRefused(s: State, actions: seq<Action>, id: RequestID)
    requires s.Closed() && EnabledRun(s, actions)
    requires id in s.submitters ==> IsAt(s, id, Returned(ActorClosed))
    ensures id in Run(s, actions).submitters ==> IsAt(Run(s, actions), id, Returned(ActorClosed))
    decreases |actions|
  {
    hide Enabled, Step, State.Closed;
    if actions != [] {
      ClosedStepStartsNothing(s, actions[0], id);
      LateStep(s, actions[0], id);
      LateSubmitsRefused(Step(s, actions[0]), actions[1..], id);
    }
  }

  /** The outcome is on its way, or has arrived. */
  predicate Bears(s: State, id: RequestID, outcome: nat) {
    (id in s.responses && s.responses[id] == Answered(outcome))
    || (s.pc.Responding? && s.pc.id == id && s.pc.response == Answered(outcome))
  }

  lemma BearStep(s: State, a: Action, id: RequestID, outcome: nat)
    requires Enabled(s, a) && Bears(Step(s, a), id, outcome)
    ensures Bears(s, id, outcome) || (a == CallbackReturns(outcome) && s.pc == Executing(id))
  {
  }

  /** The callback of the request returned this outcome at step k. */
  ghost predicate ReturnedAt(s: State, actions: seq<Action>, k: nat, id: RequestID, outcome: nat) {
    && k < |actions| && actions[k] == CallbackReturns(outcome)
    && EnabledRun(s, actions[..k]) && Run(s, actions[..k]).pc == Executing(id)
  }

  lemma {:induction false} OutcomesAreReturned(s: State, actions: seq<Action>, id: RequestID, outcome: nat)
    requires EnabledRun(s, actions) && Bears(Run(s, actions), id, outcome)
    ensures Bears(s, id, outcome) || exists k: nat :: ReturnedAt(s, actions, k, id, outcome)
    decreases |actions|
  {
    hide Enabled, Step, Bears;
    if actions != [] {
      var next := Step(s, actions[0]);
      OutcomesAreReturned(next, actions[1..], id, outcome);
      if Bears(next, id, outcome) {
        BearStep(s, actions[0], id, outcome);
        assert actions[..0] == [];
        assert Bears(s, id, outcome) || ReturnedAt(s, actions, 0, id, outcome);
      } else {
        var k: nat :| ReturnedAt(next, actions[1..], k, id, outcome);
        assert actions[..k + 1][1..] == actions[1..][..k];
        assert ReturnedAt(s, actions, k + 1, id, outcome);
      }
    }
  }

  /** The outcome a request is answered with is the one its own callback returned. */
  lemma AnswerIsOutcome(actions: seq<Action>, id: RequestID, outcome: nat)
    requires EnabledRun(INITIAL, actions)
    requires IsAt(Run(INITIAL, actions), id, Returned(Answered(outcome)))
    ensures exists k: nat :: ReturnedAt(INITIAL, actions, k, id, outcome)
  {
    hide LogOk;
    InitialInv();
    RunKeepsInv(INITIAL, actions);
    assert SubmitterOk(Run(INITIAL, actions), id);
    OutcomesAreReturned(INITIAL, actions, id, outcome);
  }

  /** A closed answer is given only by a closed actor, and nobody is answered as canceled by it. */
  ghost predicate AnswersOk(s: State) {
    forall id :: AnswerOk(s, id)
  }

  predicate AnswerOk(s: State, id: RequestID) {
    && (id in s.responses ==> s.responses[id] != Canceled && (s.responses[id] == ActorClosed ==> s.Closed()))
    && (IsAt(s, id, Returned(ActorClosed)) ==> s.Closed())
  }

  lemma AnswerStep(s: State, a: Action, id: RequestID)
    requires Inv(s) && AnswersOk(s) && Enabled(s, a)
    ensures AnswerOk(Step(s, a), id)
    ensures IsAt(Step(s, a), id, Returned(Canceled)) ==> IsAt(s, id, Returned(Canceled)) || a == CancelWait(id)
  {
    hide LogOk, SubmitterOk;
    assert AnswerOk(s, id);
  }

  lemma {:induction false} AnswersFrom(s: State, actions: seq<Action>, id: RequestID)
    requires Inv(s) && AnswersOk(s) && EnabledRun(s, actions)
    ensures AnswersOk(Run(s, actions))
    ensures IsAt(Run(s, actions), id, Returned(Canceled)) ==>
      IsAt(s, id, Returned(Canceled)) || CancelWait(id) in actions
    decreases |actions|
  {
    hide Inv, Enabled, Step, AnswerOk;
    if actions != [] {
      StepKeepsInv(s, actions[0]);
      forall i
        ensures AnswerOk(Step(s, actions[0]), i)
      {
        AnswerStep(s, actions[0], i);
      }
      AnswerStep(s, actions[0], id);
      AnswersFrom(Step(s, actions[0]), actions[1..], id);
    }
  }

  /** A submitter is told that the actor is closed only when it is, and that it canceled only when it did. */
  lemma AnswersTellWhy(actions: seq<Action>, id: RequestID)
    requires EnabledRun(INITIAL, actions)
    ensures IsAt(Run(INITIAL, actions), id, Returned(ActorClosed)) ==> Run(INITIAL, actions).Closed()
    ensures IsAt(Run(INITIAL, actions), id, Returned(Canceled)) ==> CancelWait(id) in actions
  {
    hide Inv;
    InitialInv();
    assert forall i :: AnswerOk(INITIAL, i);
    AnswersFrom(INITIAL, actions, id);
    assert AnswerOk(Run(INITIAL, actions), id);
  }

  // ----- Progress -----

  /** A step of the actor, or of whoever is stopping it. Callers decide on all others: when to submit,
      hand over, stop waiting, take a response or close. */
  predicate Moves(a: Action) {
    !a.Submit? && !a.HandOver? && !a.SeeStopping? && !a.CancelWait? && !a.TakeResponse?
      && (a.StoreClosed? ==> a.who == ByActor)
  }

  function MovesIn(actions: seq<Action>): nat {
    if actions == [] then 0 else (if Moves(actions[0]) then 1 else 0) + MovesIn(actions[1..])
  }

  function StopRank(once: Once): nat {
    match once case NotStopped => 2 case Stopping(_) => 1 case Stopped => 0
  }

  /** How many steps of the actor and its stopper an admitted request may still have to wait for. */
  function AnswerRank(s: State, id: RequestID): (r: nat)
    ensures r <= 6
  {
    if id in s.responses then 0
    else
      StopRank(s.once) +
      match s.pc
      case Admitted(_) => 4
      case Executing(_) => 3
      case Panicking(_) => 2
      case _ => 1
  }

  /** While a request waits for its answer, every step of the actor or its stopper brings the answer
      nearer, and no other step puts it off. */
  lemma AdmittedMovesOn(s: State, a: Action, id: RequestID)
    requires Inv(s) && IsAt(s, id, Sent) && id !in s.responses && Enabled(s, a)
    ensures IsAt(Step(s, a), id, Sent)
    ensures AnswerRank(Step(s, a), id) <= AnswerRank(s, id) - (if Moves(a) then 1 else 0)
  {
    hide LogOk;
    assert SubmitterOk(s, id);
  }

  /** Until an admitted request is answered, the actor or its stopper always has a step to take. */
  lemma AdmittedHasAStep(s: State, id: RequestID)
    requires Inv(s) && IsAt(s, id, Sent) && id !in s.responses
    ensures exists a :: Moves(a) && Enabled(s, a)
  {
    hide LogOk;
    assert SubmitterOk(s, id);
    var a := match s.pc
      case Admitted(_) => ActorChecks
      case Executing(_) => CallbackReturns(0)
      case Panicking(_) =>
        if s.once == Stopped then ActorStopped else if s.once == NotStopped then StoreClosed(ByActor) else CloseStopping
      case _ => ActorResponds;
    assert Moves(a) && Enabled(s, a);
  }

  lemma {:induction false} AnswerComesNearer(s: State, actions: seq<Action>, id: RequestID)
    requires Inv(s) && EnabledRun(s, actions) && (id in s.responses || IsAt(s, id, Sent))
    ensures id in Run(s, actions).responses ||
      (IsAt(Run(s, actions), id, Sent) && MovesIn(actions) + AnswerRank(Run(s, actions), id) <= AnswerRank(s, id))
    decreases |actions|
  {
    hide Inv, Enabled, Step, AnswerRank, Moves;
    if actions != [] {
      StepKeepsInv(s, actions[0]);
      if id in s.responses {
        ResponsesStay(s, actions[0], id);
        RankIsPositive(Step(s, actions[0]), id);
        RankIsPositive(Run(s, actions), id);
      } else {
        AdmittedMovesOn(s, actions[0], id);
      }
      AnswerComesNearer(Step(s, actions[0]), actions[1..], id);
    }
  }

  lemma RankIsPositive(s: State, id: RequestID)
    ensures AnswerRank(s, id) == 0 <==> id in s.responses
  {
  }

  /** Every admitted request is answered, whether the actor is closed meanwhile or never: in every
      interleaving its response is there after at most six steps of the actor and its stopper, and until
      then one of them has a step to take. */
  lemma AdmittedIsAnswered(before: seq<Action>, actions: seq<Action>, id: RequestID)
    requires EnabledRun(INITIAL, before) && IsAt(Run(INITIAL, before), id, Sent)
    requires EnabledRun(Run(INITIAL, before), actions)
    ensures var after := Run(Run(INITIAL, before), actions);
      id in after.responses || (MovesIn(actions) < 6 && exists a :: Moves(a) && Enabled(after, a))
  {
    hide Inv, Run, EnabledRun, AnswerRank, Enabled;
    InitialInv();
    RunKeepsInv(INITIAL, before);
    var s := Run(INITIAL, before);
    RunKeepsInv(s, actions);
    AnswerComesNearer(s, actions, id);
    RankIsPositive(Run(s, actions), id);
    if id !in Run(s, actions).responses {
      AdmittedHasAStep(Run(s, actions), id);
    }
  }

  /** How many steps a closed actor and its stopper may still take. */
  function CloseRank(s: State): (r: nat) {
    StopRank(s.once) +
    match s.pc
    case Executing(_) => 5
    case Responding(_, _, last) => if last then 2 else 4
    case Selecting => 3
    case Panicking(_) => 3
    case Admitted(_) => 2
    case Cleaning => 1
    case Done => 0
  }

  /** In a closed actor every step of the actor or its stopper brings it nearer to its end, and no other
      step puts that off. */
  lemma ClosedActorMovesOn(s: State, a: Action)
    requires Inv(s) && s.Closed() && Enabled(s, a)
    ensures Step(s, a).Closed() && CloseRank(Step(s, a)) <= CloseRank(s) - (if Moves(a) then 1 else 0)
  {
    hide LogOk, SubmitterOk;
  }

  lemma ClosedRankBounds(s: State)
    requires s.Closed()
    ensures CloseRank(s) <= 6
    ensures s.once == Stopped && s.pc == Done <==> CloseRank(s) == 0
  {
  }

  /** Until a closed actor is done, it or its stopper always has a step to take. */
  lemma ClosedHasAStep(s: State)
    requires Inv(s) && s.Closed() && s.pc != Done
    ensures exists a :: Moves(a) && Enabled(s, a)
  {
    hide LogOk, SubmitterOk;
    var a := match s.pc
      case Selecting => if s.once == Stopped then ActorSeesStopping else CloseStopping
      case Admitted(_) => ActorChecks
      case Executing(_) => CallbackReturns(0)
      case Panicking(_) => if s.once == Stopped then ActorStopped else CloseStopping
      case Responding(_, _, _) => ActorResponds
      case _ => CleanupReturns(false);
    assert Moves(a) && Enabled(s, a);
  }

  lemma {:induction false} EndComesNearer(s: State, actions: seq<Action>)
    requires Inv(s) && s.Closed() && EnabledRun(s, actions)
    ensures MovesIn(actions) + CloseRank(Run(s, actions)) <= CloseRank(s)
    decreases |actions|
  {
    hide Inv, Enabled, Step, CloseRank, Moves;
    if actions != [] {
      StepKeepsInv(s, actions[0]);
      ClosedActorMovesOn(s, actions[0]);
      EndComesNearer(Step(s, actions[0]), actions[1..]);
    }
  }

  /** A closed actor finishes: in every interleaving it has cleaned up and stopped after at most six steps
      of the actor and its stopper, and until then one of them has a step to take. */
  lemma ClosedActorFinishes(before: seq<Action>, actions: seq<Action>)
    requires EnabledRun(INITIAL, before) && Run(INITIAL, before).Closed()
    requires EnabledRun(Run(INITIAL, before), actions)
    ensures var after := Run(Run(INITIAL, before), actions);
      after.pc == Done || (MovesIn(actions) < 6 && exists a :: Moves(a) && Enabled(after, a))
  {
    hide Inv, Run, EnabledRun, Enabled, CloseRank;
    InitialInv();
    RunKeepsInv(INITIAL, before);
    var s := Run(INITIAL, before);
    RunKeepsInv(s, actions);
    EndComesNearer(s, actions);
    ClosedStartsNothing(s, actions, 0);
    ClosedRankBounds(s);
    ClosedRankBounds(Run(s, actions));
    if Run(s, actions).pc != Done {
      ClosedHasAStep(Run(s, actions));
    }
  }
}
