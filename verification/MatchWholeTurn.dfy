/** Whole turns: every run of accepted steps is bounded, never loses a token, and can always go on. */
module MatchWholeTurn {
  import opened Domain
  import opened TurnQueue
  import opened TurnMachine
  import opened MatchRules
  import opened MatchInvariants
  import opened MatchBuk
  import opened MatchRuns
  import opened MatchFlow
  import opened MatchOffers
  import opened MatchTurns

  // ----- One accepted step -----

  function ThrowsOf(s: Step): nat {
    if s.ThrowStep? then 1 else 0
  }

  /** A step is only accepted in its own phase. */
  lemma AcceptedPhase(rules: Rules, f: Flow, s: Step)
    requires f.turn.Inv() && Next(rules, f, s).Ok?
    ensures match s
      case ThrowStep(_) => f.turn.phase == Phase.WaitThrow
      case QueueStep => f.turn.phase == Phase.ResolveQueue
      case BukStep(_) => f.turn.phase == Phase.ResolveBuk
      case DiscardStep => f.turn.phase == Phase.WaitMoveSelection
      case SelectStep(_, _) => f.turn.phase == Phase.WaitMoveSelection
      case RouteStep(_, _, _) => f.turn.phase == Phase.WaitRouteSelection
  {
    hide Available, MatchRules.ResolveBuk, MoveCandidates, ApplySelectedMove, Queue.Inv, Queue.Append;
    InputFollowsPhase(f.turn);
  }

  /** Every accepted step keeps the invariant of the machine and the game together, spends a throw from
      the throw budget if it is one, and brings the end of the turn nearer. */
  lemma StepProgress(rules: Rules, f: Flow, s: Step)
    requires FlowInv(rules, f) && Allowed(rules, s) && Next(rules, f, s).Ok?
    ensures Progress(rules, f, Next(rules, f, s).value, ThrowsOf(s))
  {
    hide FlowInv, Progress, PerformThrow, ResolveQueueStep, ResolveBukHead, EnterMoveSelection, SelectMove,
      SelectRoute, Stuck, Choosable, HasActive;
    FlowTurnInv(rules, f);
    AcceptedPhase(rules, f, s);
    match s {
      case ThrowStep(result) => ThrowProgress(rules, f, result);
      case QueueStep => QueueProgress(rules, f);
      case BukStep(ticket) => BukProgress(rules, f, ticket);
      case DiscardStep => DiscardExactly(rules, f);
      case SelectStep(token, piece) => SelectProgress(rules, f, token, piece);
      case RouteStep(token, piece, route) => RouteProgress(rules, f, token, piece, route);
    }
  }

  lemma FlowTurnInv(rules: Rules, f: Flow)
    requires FlowInv(rules, f)
    ensures f.turn.Inv() && |f.turn.queue.tokens| <= MAX_TOKENS
  {
    hide GameInv, PendingOk, Linked, Turn.SelectionExposed;
  }

  /** The errors a reachable turn can report: a wrong choice by the caller, waiting for input, a random
      ticket out of range, or the failed discard. */
  lemma ErrorsAreExpected(rules: Rules, f: Flow, s: Step)
    requires FlowInv(rules, f) && Allowed(rules, s) && Next(rules, f, s).Err?
    requires match s
      case ThrowStep(_) => f.turn.phase == Phase.WaitThrow
      case QueueStep => f.turn.phase == Phase.ResolveQueue
      case BukStep(_) => f.turn.phase == Phase.ResolveBuk
      case DiscardStep => f.turn.phase == Phase.WaitMoveSelection
      case SelectStep(_, _) => f.turn.phase == Phase.WaitMoveSelection
      case RouteStep(_, _, _) => f.turn.phase == Phase.WaitRouteSelection
    ensures match Next(rules, f, s).error
      case InvalidTurnAction => s.SelectStep? || s.RouteStep?
      case AwaitingInput => s.DiscardStep?
      case NothingToDiscard => s.DiscardStep?
      case GameFailed(error) => s.BukStep? && error == RandomOutOfRange
      case TurnFailed(_) => false
      case NotTurnPlayer => false
  {
    hide FlowInv, Progress, PerformThrow, ResolveQueueStep, ResolveBukHead, EnterMoveSelection, SelectMove,
      SelectRoute, Stuck, Choosable, HasActive;
    match s {
      case ThrowStep(result) => ThrowProgress(rules, f, result);
      case QueueStep => QueueProgress(rules, f);
      case BukStep(ticket) => BukProgress(rules, f, ticket);
      case DiscardStep =>
        DiscardExactly(rules, f);
        FlowTurnInv(rules, f);
        ExposureNonempty(rules, f);
      case SelectStep(token, piece) => SelectProgress(rules, f, token, piece);
      case RouteStep(token, piece, route) => RouteProgress(rules, f, token, piece, route);
    }
  }

  // ----- Runs -----

  /** Every step of the run is allowed and accepted. */
  ghost predicate Accepted(rules: Rules, f: Flow, steps: seq<Step>)
    decreases |steps|
  {
    steps == [] ||
    (Allowed(rules, steps[0]) && Next(rules, f, steps[0]).Ok?
      && Accepted(rules, Next(rules, f, steps[0]).value, steps[1..]))
  }

  ghost function RunSteps(rules: Rules, f: Flow, steps: seq<Step>): Flow
    requires Accepted(rules, f, steps)
    decreases |steps|
  {
    if steps == [] then f else RunSteps(rules, Next(rules, f, steps[0]).value, steps[1..])
  }

  function Throws(steps: seq<Step>): nat {
    if steps == [] then 0 else ThrowsOf(steps[0]) + Throws(steps[1..])
  }

  lemma {:induction false} RunProgress(rules: Rules, f: Flow, steps: seq<Step>)
    requires FlowInv(rules, f) && Accepted(rules, f, steps) && |f.turn.queue.tokens| <= MAX_TOKENS
    ensures FlowInv(rules, RunSteps(rules, f, steps)) && RunSteps(rules, f, steps).team == f.team
    ensures |steps| <= Measure(f) && Throws(steps) <= ThrowBudget(f)
    decreases |steps|
  {
    hide FlowInv, Next, Measure, ThrowBudget;
    if steps != [] {
      var g := Next(rules, f, steps[0]).value;
      StepProgress(rules, f, steps[0]);
      RunProgress(rules, g, steps[1..]);
    }
  }

  lemma NewFlowInv(rules: Rules, game: GameState, team: Team, player: PlayerID, tokenSeq: nat)
    requires GameInv(rules, game) && game.winner == None && player != 0
    ensures var f := NewFlow(rules, game, team, player, tokenSeq);
      FlowInv(rules, f) && f.turn.phase == Phase.WaitThrow && f.turn.queue == EMPTY_QUEUE && f.game == game
        && f.team == team
  {
    hide GameInv;
  }

  function TeamSizeBelow(pieces: seq<Piece>, team: Team, n: nat): nat
    requires n <= |pieces|
  {
    if n == 0 then 0 else TeamSizeBelow(pieces, team, n - 1) + (if pieces[n - 1].team == team then 1 else 0)
  }

  function TeamSize(pieces: seq<Piece>, team: Team): nat {
    TeamSizeBelow(pieces, team, |pieces|)
  }

  lemma {:induction false} ActiveWithinTeam(pieces: seq<Piece>, team: Team, n: nat)
    requires n <= |pieces|
    ensures ActiveBelow(pieces, team, n) <= TeamSizeBelow(pieces, team, n)
  {
    if n > 0 {
      ActiveWithinTeam(pieces, team, n - 1);
    }
  }

  /** Whatever is thrown and chosen, a turn makes at most 32 throws for its opening chain and for each
      opponent piece on the board, and a bounded number of steps in all. */
  lemma TurnIsBounded(rules: Rules, game: GameState, team: Team, player: PlayerID, tokenSeq: nat, steps: seq<Step>)
    requires GameInv(rules, game) && game.winner == None && player != 0
    requires Accepted(rules, NewFlow(rules, game, team, player, tokenSeq), steps)
    ensures var opponents := ActiveCount(game.pieces, Opponent(team));
      && opponents <= TeamSize(game.pieces, Opponent(team))
      && Throws(steps) <= MAX_TOKENS * (1 + opponents)
      && |steps| <= 165 * (1 + opponents)
  {
    hide GameInv, FlowInv, Accepted, Turn.Inv;
    var f := NewFlow(rules, game, team, player, tokenSeq);
    NewFlowInv(rules, game, team, player, tokenSeq);
    RunProgress(rules, f, steps);
    ActiveWithinTeam(game.pieces, Opponent(team), |game.pieces|);
  }

  // ----- Every token of the turn is accounted for -----

  ghost function OutcomeOfSelected(rules: Rules, f: Flow, token: TokenID, piece: PieceID, route: Option<Route>)
    : MoveResult
  {
    match TokenResult(f.turn.queue.tokens, token)
    case None => MoveResult(false, false)
    case Some(result) =>
      match if result == Backdo then ApplyBackdo(rules, f.game, f.team, piece)
            else ApplyOrdinary(rules, f.game, f.team, piece, result, route)
      case Err(_) => MoveResult(false, false)
      case Ok((_, outcome)) => MoveResult(outcome.captureExtraThrow, outcome.matchEnded)
  }

  /** The calls a step makes on the turn machine. */
  ghost function Calls(rules: Rules, f: Flow, s: Step): seq<Action> {
    match s
    case ThrowStep(result) =>
      [CallBeginThrow,
       CallRecordThrow(Token(f.tokenSeq + 1, result,
         if f.turn.expectedOrigin.Some? then f.turn.expectedOrigin.value else InitialThrow, f.turn.player))]
    case QueueStep => [CallResolveQueue]
    case BukStep(ticket) =>
      (match MatchRules.ResolveBuk(rules, f.game, f.team, ticket)
       case Ok((_, outcome)) => [CallCompleteBuk(f.turn.selected, BukTurnResult(outcome))]
       case Err(_) => [])
    case DiscardStep =>
      (match MoveCandidates(rules, f)
       case Ok(offer) => if |offer.unusable| == 1 then [CallDiscard(offer.unusable[0])] else []
       case Err(_) => [])
    case SelectStep(token, piece) =>
      (match f.turn.SelectMove(token, true)
       case Ok(t) =>
         if Next(rules, f, s).Ok? && Next(rules, f, s).value.turn == t then [CallSelectMove(token, true)]
         else [CallSelectMove(token, false), CallMoveApplied(token),
           CallCompleteMove(token, OutcomeOfSelected(rules, f, token, piece, None))]
       case Err(_) => [])
    case RouteStep(token, piece, route) =>
      [CallRouteSelected(token), CallMoveApplied(token),
        CallCompleteMove(token, OutcomeOfSelected(rules, f, token, piece, Some(route)))]
  }

  lemma RunOne(t: Turn, a: Action)
    ensures TurnMachine.Run(t, [a]) == TurnMachine.After(t, a)
  {
    assert [a][1..] == [];
  }

  lemma RunCons(t: Turn, a: Action, rest: seq<Action>)
    ensures TurnMachine.Run(t, [a] + rest) == TurnMachine.Run(TurnMachine.After(t, a), rest)
  {
    assert ([a] + rest)[1..] == rest;
  }

  lemma RunThree(t: Turn, a: Action, b: Action, c: Action)
    ensures TurnMachine.Run(t, [a, b, c]) == TurnMachine.After(TurnMachine.After(TurnMachine.After(t, a), b), c)
  {
    RunCons(t, a, [b, c]);
    assert [a] + [b, c] == [a, b, c];
    RunCons(TurnMachine.After(t, a), b, [c]);
    assert [b] + [c] == [b, c];
    RunOne(TurnMachine.After(TurnMachine.After(t, a), b), c);
  }

  lemma SelectedCalls(rules: Rules, f: Flow, h: Flow, token: TokenID, piece: PieceID, route: Option<Route>, g: Flow)
    requires h.game == f.game && h.team == f.team && h.turn.queue == f.turn.queue
    requires ApplySelectedMove(rules, h, token, piece, route) == Ok(g)
    ensures g.turn == TurnMachine.After(
      TurnMachine.After(h.turn, CallMoveApplied(token)),
      CallCompleteMove(token, OutcomeOfSelected(rules, f, token, piece, route)))
  {
    hide ApplyBackdo, ApplyOrdinary, IndexOf, Queue.Consume;
  }

  /** An accepted step changes the machine exactly by its calls. */
  lemma StepCalls(rules: Rules, f: Flow, s: Step)
    requires Next(rules, f, s).Ok?
    ensures TurnMachine.Run(f.turn, Calls(rules, f, s)) == Next(rules, f, s).value.turn
  {
    hide ApplySelectedMove, MoveCandidates, MatchRules.ResolveBuk, OutcomeOfSelected, Queue.Append, Queue.Consume,
      Available, FindCandidate, BukTurnResult;
    var g := Next(rules, f, s).value;
    match s {
      case ThrowStep(result) =>
        var calls := Calls(rules, f, s);
        RunCons(f.turn, calls[0], [calls[1]]);
        assert [calls[0]] + [calls[1]] == calls;
        RunOne(TurnMachine.After(f.turn, calls[0]), calls[1]);
      case QueueStep => RunOne(f.turn, CallResolveQueue);
      case BukStep(ticket) => RunOne(f.turn, Calls(rules, f, s)[0]);
      case DiscardStep => RunOne(f.turn, Calls(rules, f, s)[0]);
      case SelectStep(token, piece) => SelectCalls(rules, f, token, piece, g);
      case RouteStep(token, piece, route) =>
        var calls := Calls(rules, f, s);
        RunThree(f.turn, calls[0], calls[1], calls[2]);
        SelectedCalls(rules, f, f.(turn := f.turn.RouteSelected(token).value), token, piece, Some(route), g);
    }
  }

  lemma SelectCalls(rules: Rules, f: Flow, token: TokenID, piece: PieceID, g: Flow)
    requires SelectMove(rules, f, token, piece) == Ok(g)
    ensures TurnMachine.Run(f.turn, Calls(rules, f, SelectStep(token, piece))) == g.turn
  {
    hide ApplySelectedMove, MoveCandidates, OutcomeOfSelected, Available, FindCandidate, Turn.Movable;
    var s := SelectStep(token, piece);
    var calls := Calls(rules, f, s);
    if calls == [CallSelectMove(token, true)] {
      RunOne(f.turn, calls[0]);
    } else {
      RunThree(f.turn, calls[0], calls[1], calls[2]);
      SelectedCalls(rules, f, f.(turn := f.turn.SelectMove(token, false).value), token, piece, None, g);
    }
  }

  ghost function AllCalls(rules: Rules, f: Flow, steps: seq<Step>): seq<Action>
    requires Accepted(rules, f, steps)
    decreases |steps|
  {
    if steps == [] then [] else Calls(rules, f, steps[0]) + AllCalls(rules, Next(rules, f, steps[0]).value, steps[1..])
  }

  lemma {:induction false} RunConcat(t: Turn, a: seq<Action>, b: seq<Action>)
    ensures TurnMachine.Run(t, a + b) == TurnMachine.Run(TurnMachine.Run(t, a), b)
    decreases |a|
  {
    hide TurnMachine.After;
    if a == [] {
      assert a + b == b;
    } else {
      assert (a + b)[1..] == a[1..] + b;
      RunConcat(TurnMachine.After(t, a[0]), a[1..], b);
    }
  }

  lemma {:induction false} RunCalls(rules: Rules, f: Flow, steps: seq<Step>)
    requires Accepted(rules, f, steps)
    ensures TurnMachine.Run(f.turn, AllCalls(rules, f, steps)) == RunSteps(rules, f, steps).turn
    decreases |steps|
  {
    hide Next, Calls;
    if steps != [] {
      var g := Next(rules, f, steps[0]).value;
      StepCalls(rules, f, steps[0]);
      RunCalls(rules, g, steps[1..]);
      RunConcat(f.turn, Calls(rules, f, steps[0]), AllCalls(rules, g, steps[1..]));
    }
  }

  /** A turn that reaches its end did so with an empty queue, and every token it generated was used
      exactly once: by a move, a Buk or a discard. */
  lemma TurnUsesEveryToken(rules: Rules, game: GameState, team: Team, player: PlayerID, tokenSeq: nat, steps: seq<Step>)
    requires GameInv(rules, game) && game.winner == None && player != 0
    requires Accepted(rules, NewFlow(rules, game, team, player, tokenSeq), steps)
    ensures var f := NewFlow(rules, game, team, player, tokenSeq);
      var t := NewTurn(player, rules.settings.movementOrder, rules.settings.yutMoExtraThrow);
      var calls := [CallStart] + AllCalls(rules, f, steps);
      && TurnMachine.Run(t, calls) == RunSteps(rules, f, steps).turn
      && Distinct(AllGenerated(t, calls)) && Distinct(AllUsed(t, calls))
      && (RunSteps(rules, f, steps).turn.phase == Phase.TurnEnd ==>
        && RunSteps(rules, f, steps).turn.queue.tokens == []
        && Elements(AllGenerated(t, calls)) == Elements(AllUsed(t, calls)))
  {
    hide GameInv, Accepted, AllCalls, Distinct, Elements, AllGenerated, AllUsed, RunSteps;
    var f := NewFlow(rules, game, team, player, tokenSeq);
    var t := NewTurn(player, rules.settings.movementOrder, rules.settings.yutMoExtraThrow);
    var calls := [CallStart] + AllCalls(rules, f, steps);
    NewFlowInv(rules, game, team, player, tokenSeq);
    RunProgress(rules, f, steps);
    RunCalls(rules, f, steps);
    RunCons(t, CallStart, AllCalls(rules, f, steps));
    TokensAreConserved(player, rules.settings.movementOrder, rules.settings.yutMoExtraThrow, calls);
    EndedTurnIsEmpty(rules, RunSteps(rules, f, steps));
    NothingLeft(Elements(AllGenerated(t, calls)), Elements(AllUsed(t, calls)));
  }

  lemma NothingLeft(generated: set<TokenID>, used: set<TokenID>)
    ensures used <= generated && generated - used == {} ==> generated == used
  {
    if used <= generated && generated - used == {} {
      forall id | id in generated
        ensures id in used
      {
        assert id !in generated - used;
      }
    }
  }

  lemma EndedTurnIsEmpty(rules: Rules, f: Flow)
    requires FlowInv(rules, f)
    ensures f.turn.phase == Phase.TurnEnd ==> f.turn.queue.tokens == [] && f.turn.queue.IDs() == {}
  {
    hide GameInv, PendingOk, Turn.Inv;
  }

  // ----- A turn can always go on -----

  /** The one dead end: two or more exposed results, all of them Backdos that no piece can use. */
  ghost predicate DeadEnd(f: Flow) {
    f.turn.phase == Phase.WaitMoveSelection && Stuck(f) && |Exposed(f)| >= 2
  }

  /** An unfinished turn has an accepted next step, except in the dead end; and there it has none. */
  lemma TurnGoesOn(rules: Rules, f: Flow)
    requires FlowInv(rules, f) && f.turn.phase != Phase.TurnEnd && f.turn.phase != Phase.MatchEnd
    ensures (exists s :: Allowed(rules, s) && Next(rules, f, s).Ok?) <==> !DeadEnd(f)
  {
    hide FlowInv, PerformThrow, ResolveQueueStep, ResolveBukHead, EnterMoveSelection, SelectMove, SelectRoute,
      Progress, Exposed, HasActive, Usable;
    RestsInPhase(rules, f);
    match f.turn.phase {
      case WaitThrow =>
        ThrowProgress(rules, f, Do);
        assert Next(rules, f, ThrowStep(Do)).Ok?;
      case ResolveQueue =>
        QueueProgress(rules, f);
        assert Next(rules, f, QueueStep).Ok?;
      case ResolveBuk =>
        BukProgress(rules, f, 0);
        BukTicketExists(rules, f);
        assert Next(rules, f, BukStep(0)).Ok?;
      case WaitRouteSelection =>
        RouteProgress(rules, f, f.turn.selected, f.pendingPiece, Normal);
        assert Next(rules, f, RouteStep(f.turn.selected, f.pendingPiece, Normal)).Ok?;
      case WaitMoveSelection =>
        SelectionGoesOn(rules, f);
      case _ =>
    }
  }

  lemma RestsInPhase(rules: Rules, f: Flow)
    requires FlowInv(rules, f)
    ensures Resting(f.turn.phase) && f.turn.Inv()
  {
    hide GameInv, PendingOk, Linked, Turn.Inv;
  }

  lemma BukTicketExists(rules: Rules, f: Flow)
    requires FlowInv(rules, f) && f.turn.phase == Phase.ResolveBuk
    ensures HasActive(f.game.pieces, f.team) || 0 < |WaitingIndices(f.game.pieces, f.team)|
  {
    hide GameInv, HasActive, PendingOk, Turn.SelectionExposed;
    if !HasActive(f.game.pieces, f.team) {
      WaitingPieceExists(rules, f.game, f.team);
    }
  }

  lemma SelectionGoesOn(rules: Rules, f: Flow)
    requires FlowInv(rules, f) && f.turn.phase == Phase.WaitMoveSelection
    ensures (exists s :: Allowed(rules, s) && Next(rules, f, s).Ok?) <==> !DeadEnd(f)
  {
    hide FlowInv, PerformThrow, ResolveQueueStep, ResolveBukHead, EnterMoveSelection, SelectMove, SelectRoute,
      Progress, Exposed, Usable;
    RestsInPhase(rules, f);
    DiscardExactly(rules, f);
    ExposureNonempty(rules, f);
    if !Stuck(f) {
      var token, piece := ChoosableExists(rules, f);
      SelectProgress(rules, f, token, piece);
      assert Next(rules, f, SelectStep(token, piece)).Ok?;
    } else if |Exposed(f)| == 1 {
      assert Next(rules, f, DiscardStep).Ok?;
    }
    if s :| Allowed(rules, s) && Next(rules, f, s).Ok? {
      AcceptedPhase(rules, f, s);
      if s.SelectStep? {
        SelectProgress(rules, f, s.token, s.piece);
        ChoosableNotStuck(f, s.token, s.piece);
      }
    }
  }

  lemma ExposureNonempty(rules: Rules, f: Flow)
    requires f.turn.Inv() && f.turn.phase == Phase.WaitMoveSelection
    ensures |Exposed(f)| > 0
  {
    ExposedOrdinary(f);
  }

  lemma ChoosableNotStuck(f: Flow, token: TokenID, piece: PieceID)
    requires Choosable(f, token, piece)
    ensures !Stuck(f)
  {
    hide Exposed;
    var k: nat, i: nat :| ChoosablePair(f, token, piece, k, i);
  }

  lemma ChoosableExists(rules: Rules, f: Flow) returns (token: TokenID, piece: PieceID)
    requires FlowInv(rules, f) && f.turn.phase == Phase.WaitMoveSelection && !Stuck(f)
    ensures Choosable(f, token, piece)
  {
    hide GameInv, Exposed, Turn.Inv, Linked, PendingOk;
    ExposureNonempty(rules, f);
    var k: nat, i: nat;
    if j :| 0 <= j < |Exposed(f)| && Exposed(f)[j].result != Backdo {
      k := j;
      i := UnfinishedPieceExists(rules, f.game, f.team);
    } else {
      k := 0;
      i :| Usable(f.game.pieces, f.team, i, Backdo);
    }
    token, piece := Exposed(f)[k].id, f.game.pieces[i].id;
    assert ChoosablePair(f, token, piece, k, i);
  }

  // ----- What it takes to meet the dead end -----

  function Backdos(tokens: seq<Token>): nat {
    if tokens == [] then 0 else (if tokens[0].result == Backdo then 1 else 0) + Backdos(tokens[1..])
  }

  function BackdoThrows(steps: seq<Step>): nat {
    if steps == [] then 0 else (if steps[0] == ThrowStep(Backdo) then 1 else 0) + BackdoThrows(steps[1..])
  }

  function BackdosRecorded(calls: seq<Action>): nat {
    if calls == [] then 0
    else (if calls[0].CallRecordThrow? && calls[0].token.result == Backdo then 1 else 0) + BackdosRecorded(calls[1..])
  }

  lemma {:induction false} BackdosConcat(a: seq<Token>, b: seq<Token>)
    ensures Backdos(a + b) == Backdos(a) + Backdos(b)
  {
    if a == [] {
      assert a + b == b;
    } else {
      assert (a + b)[1..] == a[1..] + b;
      BackdosConcat(a[1..], b);
    }
  }

  lemma BackdosWithout(tokens: seq<Token>, k: nat)
    requires k < |tokens|
    ensures Backdos(Without(tokens, k)) <= Backdos(tokens)
  {
    BackdosConcat(tokens[..k], tokens[k + 1..]);
    BackdosConcat(tokens[..k], tokens[k..]);
    assert tokens[..k] + tokens[k..] == tokens && tokens[k..][1..] == tokens[k + 1..];
  }

  lemma CallBackdos(t: Turn, a: Action)
    ensures Backdos(TurnMachine.After(t, a).queue.tokens) <= Backdos(t.queue.tokens) + BackdosRecorded([a])
  {
    hide Backdos, Available, Turn.Movable, Without;
    assert [a][1..] == [];
    if a.CallRecordThrow? {
      BackdosConcat(t.queue.tokens, [a.token]);
      OneBackdo(a.token);
    } else if (a.CallCompleteMove? || a.CallDiscard? || a.CallCompleteBuk?)
      && IndexOf(t.queue.tokens, a.id) < |t.queue.tokens| {
      BackdosWithout(t.queue.tokens, IndexOf(t.queue.tokens, a.id));
    }
  }

  lemma OneBackdo(token: Token)
    ensures Backdos([token]) == if token.result == Backdo then 1 else 0
  {
    assert [token][1..] == [];
  }

  lemma {:induction false} CallsBackdos(t: Turn, calls: seq<Action>)
    ensures Backdos(TurnMachine.Run(t, calls).queue.tokens) <= Backdos(t.queue.tokens) + BackdosRecorded(calls)
    decreases |calls|
  {
    hide Backdos, TurnMachine.After;
    if calls != [] {
      CallBackdos(t, calls[0]);
      assert [calls[0]][1..] == [];
      CallsBackdos(TurnMachine.After(t, calls[0]), calls[1..]);
    }
  }

  lemma {:induction false} NoneRecorded(calls: seq<Action>)
    requires forall a :: a in calls ==> !a.CallRecordThrow?
    ensures BackdosRecorded(calls) == 0
  {
    if calls != [] {
      NoneRecorded(calls[1..]);
    }
  }

  /** A step records a Backdo exactly when it throws one. */
  lemma StepRecords(rules: Rules, f: Flow, s: Step)
    ensures BackdosRecorded(Calls(rules, f, s)) == if s == ThrowStep(Backdo) then 1 else 0
  {
    hide MatchRules.ResolveBuk, MoveCandidates, OutcomeOfSelected, BukTurnResult, Next;
    if s.ThrowStep? {
      var calls := Calls(rules, f, s);
      assert calls[0] == CallBeginThrow && calls[1..] == [calls[1]] && [calls[1]][1..] == [];
      assert BackdosRecorded([calls[1]]) == if s.result == Backdo then 1 else 0;
    } else {
      NoneRecorded(Calls(rules, f, s));
    }
  }

  lemma {:induction false} RunBackdos(rules: Rules, f: Flow, steps: seq<Step>)
    requires Accepted(rules, f, steps)
    ensures Backdos(RunSteps(rules, f, steps).turn.queue.tokens) <= Backdos(f.turn.queue.tokens) + BackdoThrows(steps)
    decreases |steps|
  {
    hide Next, Calls, Backdos;
    if steps != [] {
      StepCalls(rules, f, steps[0]);
      StepRecords(rules, f, steps[0]);
      CallsBackdos(f.turn, Calls(rules, f, steps[0]));
      RunBackdos(rules, Next(rules, f, steps[0]).value, steps[1..]);
    }
  }

  lemma DeadEndHoldsBackdos(f: Flow)
    requires DeadEnd(f)
    ensures Backdos(f.turn.queue.tokens) >= 2
  {
    var tokens := f.turn.queue.tokens;
    assert Exposed(f) == tokens;
    assert tokens[0].result == Backdo && tokens[1].result == Backdo;
    assert tokens[1..][0] == tokens[1];
  }

  /** A turn in which at most one Backdo is thrown never meets the dead end. */
  lemma DeadEndTakesTwoBackdos(rules: Rules, game: GameState, team: Team, player: PlayerID, tokenSeq: nat,
      steps: seq<Step>)
    requires GameInv(rules, game) && game.winner == None && player != 0
    requires Accepted(rules, NewFlow(rules, game, team, player, tokenSeq), steps)
    ensures DeadEnd(RunSteps(rules, NewFlow(rules, game, team, player, tokenSeq), steps)) ==> BackdoThrows(steps) >= 2
  {
    hide GameInv, Accepted, FlowInv, DeadEnd, RunSteps;
    var f := NewFlow(rules, game, team, player, tokenSeq);
    NewFlowInv(rules, game, team, player, tokenSeq);
    RunBackdos(rules, f, steps);
    if DeadEnd(RunSteps(rules, f, steps)) {
      DeadEndHoldsBackdos(RunSteps(rules, f, steps));
    }
  }
}
