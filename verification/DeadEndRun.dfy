/** A turn on the checked-in board that ends in the dead end: two Backdos are left and no piece can use one. */
module DeadEndRun {
  import opened Domain
  import opened BoardGraph
  import opened BoardForward
  import opened BoardValidate
  import opened CanonicalBoard
  import opened TurnQueue
  import opened TurnMachine
  import opened MatchRules
  import opened MatchInvariants
  import opened MatchOffers
  import opened MatchFlow
  import opened MatchTurns
  import opened MatchWholeTurn

  const RULES := Rules(BOARD, Settings(2, false, Always, true, Forced, true, false, false, Free))

  /** Four pieces; only the first of each team ever moves here. */
  function Pieces(a: Piece, b: Piece): seq<Piece> {
    [a, Piece(2, TeamA, Waiting, NoSpace, NoSpace), b, Piece(4, TeamB, Waiting, NoSpace, NoSpace)]
  }

  function Game(a: Piece, b: Piece): GameState {
    GameState(Pieces(a, b), None, Space(11))
  }

  const A_FAR := Piece(1, TeamA, OnBoard, Space(20), Space(5))
  const A_NEAR := Piece(1, TeamA, OnBoard, Space(28), Space(27))
  const A_DONE := Piece(1, TeamA, Finished, NoSpace, NoSpace)
  const B_NEAR := Piece(3, TeamB, OnBoard, Space(28), Space(27))
  const B_HOME := Piece(3, TeamB, Waiting, NoSpace, NoSpace)

  const YUT := Token(1, Yut, InitialThrow, 7)
  const MO := Token(2, Mo, YutExtra, 7)
  const BACKDO := Token(3, Backdo, MoExtra, 7)
  const BACKDO_AGAIN := Token(4, Backdo, CaptureExtra, 7)

  /** The identifiers of the first n throws. */
  function Drawn(n: nat): (ids: set<TokenID>)
    ensures forall id :: id in ids <==> 1 <= id <= n
  {
    if n == 0 then {} else Drawn(n - 1) + {n}
  }

  function At(phase: Phase, input: RequiredInput, origin: Option<Origin>, tokens: seq<Token>, drawn: nat,
      game: GameState): Flow {
    Flow(Turn(7, Free, true, phase, input, origin, 0, Queue(tokens, Drawn(drawn)), false), game, TeamA, 0, drawn)
  }

  function Throwing(origin: Origin, tokens: seq<Token>, drawn: nat, game: GameState): Flow {
    At(Phase.WaitThrow, InputThrow, Some(origin), tokens, drawn, game)
  }

  function Resolving(tokens: seq<Token>, drawn: nat, game: GameState): Flow {
    At(Phase.ResolveQueue, InputNone, None, tokens, drawn, game)
  }

  function Selecting(tokens: seq<Token>, drawn: nat, game: GameState): Flow {
    At(Phase.WaitMoveSelection, InputSelectMove, None, tokens, drawn, game)
  }

  const START := Game(A_FAR, B_NEAR)
  const CAPTURED := Game(A_NEAR, B_HOME)
  const FINISHED := Game(A_DONE, B_HOME)

  lemma StartIsValid()
    ensures GameInv(RULES, START) && START.winner == None
  {
    hide BOARD, ValidGraph;
    BoardIsValid();
    Known(Space(20));
    Known(Space(28));
    Known(Space(27));
    Known(Space(5));
    HomeOfBoard();
    assert START.pieces[0].team == TeamA && START.pieces[2].team == TeamB;
    assert START.pieces[0].state != Finished && START.pieces[2].state != Finished;
  }

  lemma HomeOfBoard()
    ensures BOARD.home == Space(0) && BOARD.start == Space(0)
  {
    hide NODES, EDGES;
  }

  // ----- Throws and the queue -----

  lemma ThrowYields(origin: Origin, tokens: seq<Token>, drawn: nat, game: GameState, result: YutResult)
    requires drawn < 32 && |tokens| < 31 && result != Buk
    ensures var f := Throwing(origin, tokens, drawn, game);
      var more := tokens + [Token(drawn + 1, result, origin, 7)];
      Next(RULES, f, ThrowStep(result)) == Ok(
        if result == Yut then Throwing(YutExtra, more, drawn + 1, game)
        else if result == Mo then Throwing(MoExtra, more, drawn + 1, game)
        else Resolving(more, drawn + 1, game))
  {
    hide Available, BOARD;
    assert Drawn(drawn) + {drawn + 1} == Drawn(drawn + 1);
  }

  lemma QueueYields(tokens: seq<Token>, drawn: nat, game: GameState)
    requires tokens != [] && forall t :: t in tokens ==> t.result != Buk
    ensures Available(tokens, Free) == tokens
    ensures Next(RULES, Resolving(tokens, drawn, game), QueueStep) == Ok(Selecting(tokens, drawn, game))
  {
    hide BOARD;
    assert FirstBuk(tokens) == |tokens|;
  }

  // ----- Moves -----

  /** Under forced shortcuts a plan goes home along the forced steps. */
  lemma ForcedNext(h: Heading, k: nat, step: nat)
    requires k < 29 && h.forceShortcuts && (step == 0 ==> h.first == NoSpace)
    ensures NextSpace(BOARD, h, step, SpaceAt(k)) == Ok(SpaceAt(Towards(Forced, k)))
  {
    hide NODES, EDGES, BOARD, Graph.Adjacent;
    AdjacentAt(k);
    if IsChoice(k) {
      ChoiceAt(k);
    } else {
      NoChoiceAt(k);
    }
  }

  lemma OnePlan(origin: SpaceID, spaces: nat, h: Heading, plan: ForwardPlan)
    requires origin in BOARD.Spaces() && origin != BOARD.home && spaces > 0 && origin !in BOARD.routeChoices
    requires h == Heading(Normal, NoSpace, true, false) && !IsBackMoShortcutSpace(origin)
    requires Travel(BOARD, h, spaces, origin, NoSpace, []) == Ok(plan)
    ensures ForwardPlans(BOARD, Position(OnBoard, origin), spaces, Forced) == Ok([plan])
  {
    hide BOARD, Travel;
    assert Headings(BOARD, origin, Forced) == Ok([h]);
    assert [h][1..] == [] && [plan] + [] == [plan];
    assert Plans(BOARD, [], origin, spaces) == Ok([]);
    assert Plans(BOARD, [h], origin, spaces) == Ok([plan]);
  }

  lemma FarPlan()
    ensures ForwardPlans(BOARD, A_FAR.At(), 4, Forced) ==
      Ok([ForwardPlan(Normal, Position(OnBoard, Space(28)), Space(27), [Space(21), Bang, Space(27), Space(28)])])
  {
    hide NODES, EDGES, BOARD, NextSpace;
    var h := Heading(Normal, NoSpace, true, false);
    HomeOfBoard();
    Known(Space(20));
    NoChoiceAt(20);
    ForcedNext(h, 20, 0);
    ForcedNext(h, 21, 1);
    ForcedNext(h, 24, 2);
    ForcedNext(h, 27, 3);
    var walk := [Space(21), Bang, Space(27), Space(28)];
    assert [] + [Space(21)] == walk[..1] && walk[..1] + [Bang] == walk[..2] && walk[..2] + [Space(27)] == walk[..3]
      && walk[..3] + [Space(28)] == walk;
    assert Travel(BOARD, h, 4, Space(28), Space(27), walk).Ok?;
    assert Travel(BOARD, h, 4, Space(27), Bang, walk[..3]) == Travel(BOARD, h, 4, Space(28), Space(27), walk);
    assert Travel(BOARD, h, 4, Bang, Space(21), walk[..2]) == Travel(BOARD, h, 4, Space(27), Bang, walk[..3]);
    assert Travel(BOARD, h, 4, Space(21), Space(20), walk[..1]) == Travel(BOARD, h, 4, Bang, Space(21), walk[..2]);
    assert Travel(BOARD, h, 4, Space(20), NoSpace, []) == Travel(BOARD, h, 4, Space(21), Space(20), walk[..1]);
    OnePlan(Space(20), 4, h, ForwardPlan(Normal, Position(OnBoard, Space(28)), Space(27), walk));
  }

  lemma NearPlan()
    ensures ForwardPlans(BOARD, A_NEAR.At(), 5, Forced) ==
      Ok([ForwardPlan(Normal, Position(Finished, NoSpace), NoSpace, [Space(0)])])
  {
    hide NODES, EDGES, BOARD, NextSpace;
    var h := Heading(Normal, NoSpace, true, false);
    HomeOfBoard();
    Known(Space(28));
    NoChoiceAt(28);
    ForcedNext(h, 28, 0);
    assert [] + [Space(0)] == [Space(0)];
    assert Travel(BOARD, h, 5, Space(0), Space(28), [Space(0)]).Ok?;
    assert Travel(BOARD, h, 5, Space(28), NoSpace, []) == Travel(BOARD, h, 5, Space(0), Space(28), [Space(0)]);
    OnePlan(Space(28), 5, h, ForwardPlan(Normal, Position(Finished, NoSpace), NoSpace, [Space(0)]));
  }

  lemma OpenGame(f: Flow)
    requires FlowInv(RULES, f) && f.turn.phase == Phase.WaitMoveSelection
    ensures GameInv(RULES, f.game) && f.game.winner == None && f.turn.Inv() && Exposed(f) == f.turn.queue.tokens
      && Exposed(f) != []
  {
    hide GameInv, PendingOk;
    ExposedOrdinary(f);
  }

  /** Identifiers name one exposed result and one piece. */
  lemma UniquePair(f: Flow, head: Token, id: PieceID, k: nat, i: nat)
    requires GameInv(RULES, f.game) && f.turn.Inv() && Exposed(f) == f.turn.queue.tokens && Exposed(f) != []
    requires |f.game.pieces| > 0 && f.game.pieces[0].id == id && Exposed(f)[0] == head
      && ChoosablePair(f, head.id, id, k, i)
    ensures k == 0 && i == 0
  {
    hide PiecesOk, Apart, SharedHistory, WinnerOk, RulesOk, Available;
  }

  /** A move with one plan is applied at once. */
  lemma SinglePlanSelects(f: Flow, head: Token, spaces: nat, plan: ForwardPlan)
    requires FlowInv(RULES, f) && f.turn.phase == Phase.WaitMoveSelection && |f.game.pieces| > 0
    requires Exposed(f) != [] && Exposed(f)[0] == head && OrdinarySpaces(head.result) == Some(spaces)
    requires f.game.pieces[0].team == f.team && f.game.pieces[0].state != Finished
    requires ForwardPlans(BOARD, f.game.pieces[0].At(), spaces, Forced) == Ok([plan])
    ensures var id := f.game.pieces[0].id;
      var t := f.turn.At(Phase.ApplyMove, InputNone, None, head.id);
      && f.turn.SelectMove(head.id, false) == Ok(t)
      && SelectMove(RULES, f, head.id, id) == ApplySelectedMove(RULES, f.(turn := t), head.id, id, None)
      && OrdinaryPlans(RULES, f.game, f.team, id, head.result) == Ok(MovePlans(0, [plan], [0]))
      && TokenResult(f.turn.queue.tokens, head.id) == Some(head.result)
  {
    hide GameInv, ForwardPlans, ApplySelectedMove, MoveCandidates, OfferExact, Turn.Inv, FlowInv, Available,
      PlansAccepted, BOARD, Turn.Movable, TokenResult, Exposed, RoutesFor, PieceRoutes, OrdinaryPlans,
      Turn.SelectMove;
    var id := f.game.pieces[0].id;
    OpenGame(f);
    InputFollowsPhase(f.turn);
    CandidatesExact(RULES, f);
    SinglePlan(f.game, 0, head.result, spaces, plan);
    assert ChoosablePair(f, head.id, id, 0, 0);
    var offer := MoveCandidates(RULES, f).value;
    FoundCandidate(RULES, f, offer, head.id, id);
    var c := FindCandidate(offer.candidates, head.id, id);
    var k: nat, i: nat :| ChoosablePair(f, head.id, id, k, i)
      && offer.candidates[c].routes == RoutesFor(RULES, f.game, f.team, i, Exposed(f)[k].result);
    UniquePair(f, head, id, k, i);
    HeadIsMovable(f);
    SelectedAtOnce(f.turn, head.id);
  }

  lemma HeadIsMovable(f: Flow)
    requires f.turn.Inv() && f.turn.phase == Phase.WaitMoveSelection && Exposed(f) != []
    ensures f.turn.Movable(Exposed(f)[0].id)
      && TokenResult(f.turn.queue.tokens, Exposed(f)[0].id) == Some(Exposed(f)[0].result)
  {
    hide Turn.Inv, Turn.Movable, TokenResult, Available;
    ExposedIsMovable(f.turn, Exposed(f), 0);
  }

  lemma SelectedAtOnce(t: Turn, id: TokenID)
    requires t.phase == Phase.WaitMoveSelection && t.Movable(id)
    ensures t.SelectMove(id, false) == Ok(t.At(Phase.ApplyMove, InputNone, None, id))
  {
  }

  lemma SinglePlan(game: GameState, i: nat, result: YutResult, spaces: nat, plan: ForwardPlan)
    requires GameInv(RULES, game) && game.winner == None && i < |game.pieces|
    requires game.pieces[i].state != Finished && OrdinarySpaces(result) == Some(spaces)
    requires ForwardPlans(BOARD, game.pieces[i].At(), spaces, Forced) == Ok([plan])
    ensures OrdinaryPlans(RULES, game, game.pieces[i].team, game.pieces[i].id, result) == Ok(MovePlans(i, [plan], [i]))
    ensures RoutesFor(RULES, game, game.pieces[i].team, i, result) == [plan.route]
  {
    hide GameInv, ForwardPlans, PlanAccepted, BOARD, ResolutionOk;
    OwnedByIndex(RULES, game, i);
    OrdinaryAlwaysPlans(RULES, game, game.pieces[i].team, game.pieces[i].id, result);
    assert [plan][1..] == [];
  }

  // ----- The two moves -----

  const CAPTURING :=
    ForwardPlan(Normal, Position(OnBoard, Space(28)), Space(27), [Space(21), Bang, Space(27), Space(28)])
  const FINISHING := ForwardPlan(Normal, Position(Finished, NoSpace), NoSpace, [Space(0)])

  /** Without stacking a relocation is told piece by piece. */
  lemma RelocatesTo(before: seq<Piece>, after: seq<Piece>, i: nat, plan: Resolution)
    requires |before| == |after| && i < |before| && plan.moving == [i]
    requires forall j :: 0 <= j < |before| ==>
      after[j] == if j == i then Relocated(before[i], plan)
                  else if before[j].team != before[i].team && AtDestination(before[j], plan) then SentHome(before[j])
                  else before[j]
    ensures Relocate(RULES, before, before[i].team, plan) == after
  {
    hide BOARD, Relocate, Relocated, SentHome, AtDestination;
    forall j: nat | j < |before|
      ensures Relocate(RULES, before, before[i].team, plan)[j] == after[j]
    {
      RelocateEffect(RULES, before, before[i].team, plan, j);
    }
  }

  lemma UnfinishedSecond(a: Piece, b: Piece)
    ensures !AllFinished(Pieces(a, b), TeamA)
  {
    assert Pieces(a, b)[1].team == TeamA && Pieces(a, b)[1].state != Finished;
  }

  lemma MeetsThird(a: Piece, plan: Resolution)
    requires plan.state == OnBoard && plan.space == Space(28)
    ensures Captured(Pieces(a, B_NEAR), TeamA, plan) != []
  {
    hide BOARD;
    assert Pieces(a, B_NEAR)[2].Stands(TeamB, OnBoard, Space(28));
    assert 2 in IndicesAt(Pieces(a, B_NEAR), TeamB, OnBoard, Space(28));
  }

  lemma CaptureMove()
    ensures var (game, outcome) := ApplyResolution(RULES, START, TeamA, 0, Yut, ForwardResolution(CAPTURING, [0]));
      game == CAPTURED && outcome.captureExtraThrow && !outcome.matchEnded
  {
    hide BOARD, Relocate, IDsOf, IndicesAt, Allies, Captured, AllFinished;
    RelocatesTo(START.pieces, CAPTURED.pieces, 0, ForwardResolution(CAPTURING, [0]));
    UnfinishedSecond(A_NEAR, B_HOME);
    MeetsThird(A_FAR, ForwardResolution(CAPTURING, [0]));
  }

  lemma FinishMove()
    ensures var (game, outcome) := ApplyResolution(RULES, CAPTURED, TeamA, 0, Mo, ForwardResolution(FINISHING, [0]));
      game == FINISHED && !outcome.captureExtraThrow && !outcome.matchEnded
  {
    hide BOARD, Relocate, IDsOf, IndicesAt, Allies, AllFinished;
    RelocatesTo(CAPTURED.pieces, FINISHED.pieces, 0, ForwardResolution(FINISHING, [0]));
    UnfinishedSecond(A_DONE, B_HOME);
  }

  /** Completing the move of the head result consumes it and grants a throw for a capture. */
  lemma HeadCompletes(tokens: seq<Token>, drawn: nat, game: GameState, captures: bool)
    requires tokens != [] && forall t :: t in tokens ==> t.result != Buk
    ensures var f := Selecting(tokens, drawn, game);
      var h := f.(turn := f.turn.At(Phase.ApplyMove, InputNone, None, tokens[0].id));
      CompleteMove(h, tokens[0].id, MoveResult(captures, false)) ==
        Ok(if captures then Throwing(CaptureExtra, tokens[1..], drawn, game) else Resolving(tokens[1..], drawn, game))
  {
    hide BOARD;
    QueueYields(tokens, drawn, game);
    assert [] + tokens[1..] == tokens[1..];
    assert tokens[..0] == [];
  }

  lemma CaptureSelects()
    requires FlowInv(RULES, Selecting([YUT, MO, BACKDO], 3, START))
    ensures Next(RULES, Selecting([YUT, MO, BACKDO], 3, START), SelectStep(1, 1)) ==
      Ok(Throwing(CaptureExtra, [MO, BACKDO], 3, CAPTURED))
  {
    hide BOARD, FlowInv, ForwardPlans, ApplyResolution, CompleteMove, OrdinaryPlans, SelectMove,
      MatchInvariants.GameInv, TokenResult;
    var tokens := [YUT, MO, BACKDO];
    var f := Selecting(tokens, 3, START);
    FarPlan();
    QueueYields(tokens, 3, START);
    SinglePlanSelects(f, YUT, 4, CAPTURING);
    CaptureMove();
    HeadCompletes(tokens, 3, CAPTURED, true);
    assert tokens[1..] == [MO, BACKDO];
  }

  lemma FinishSelects()
    requires FlowInv(RULES, Selecting([MO, BACKDO, BACKDO_AGAIN], 4, CAPTURED))
    ensures Next(RULES, Selecting([MO, BACKDO, BACKDO_AGAIN], 4, CAPTURED), SelectStep(2, 1)) ==
      Ok(Resolving([BACKDO, BACKDO_AGAIN], 4, FINISHED))
  {
    hide BOARD, FlowInv, ForwardPlans, ApplyResolution, CompleteMove, OrdinaryPlans, SelectMove,
      MatchInvariants.GameInv, TokenResult;
    var tokens := [MO, BACKDO, BACKDO_AGAIN];
    var f := Selecting(tokens, 4, CAPTURED);
    NearPlan();
    QueueYields(tokens, 4, CAPTURED);
    SinglePlanSelects(f, MO, 5, FINISHING);
    FinishMove();
    HeadCompletes(tokens, 4, FINISHED, false);
    assert tokens[1..] == [BACKDO, BACKDO_AGAIN];
  }

  // ----- The run -----

  const STEPS: seq<Step> :=
    [ThrowStep(Yut), ThrowStep(Mo), ThrowStep(Backdo), QueueStep, SelectStep(1, 1), ThrowStep(Backdo), QueueStep,
      SelectStep(2, 1), QueueStep]

  /** The flow before step k. */
  function FlowAt(k: nat): Flow {
    if k == 0 then Throwing(InitialThrow, [], 0, START)
    else if k == 1 then Throwing(YutExtra, [YUT], 1, START)
    else if k == 2 then Throwing(MoExtra, [YUT, MO], 2, START)
    else if k == 3 then Resolving([YUT, MO, BACKDO], 3, START)
    else if k == 4 then Selecting([YUT, MO, BACKDO], 3, START)
    else if k == 5 then Throwing(CaptureExtra, [MO, BACKDO], 3, CAPTURED)
    else if k == 6 then Resolving([MO, BACKDO, BACKDO_AGAIN], 4, CAPTURED)
    else if k == 7 then Selecting([MO, BACKDO, BACKDO_AGAIN], 4, CAPTURED)
    else if k == 8 then Resolving([BACKDO, BACKDO_AGAIN], 4, FINISHED)
    else Selecting([BACKDO, BACKDO_AGAIN], 4, FINISHED)
  }

  lemma NextAt(k: nat)
    requires k < 9 && FlowInv(RULES, FlowAt(k))
    ensures Next(RULES, FlowAt(k), STEPS[k]) == Ok(FlowAt(k + 1))
  {
    hide BOARD, START, CAPTURED, FINISHED, FlowInv, Next, At;
    assert [] + [YUT] == [YUT] && [YUT] + [MO] == [YUT, MO] && [YUT, MO] + [BACKDO] == [YUT, MO, BACKDO]
      && [MO, BACKDO] + [BACKDO_AGAIN] == [MO, BACKDO, BACKDO_AGAIN];
    match k {
      case 0 => ThrowYields(InitialThrow, [], 0, START, Yut);
      case 1 => ThrowYields(YutExtra, [YUT], 1, START, Mo);
      case 2 => ThrowYields(MoExtra, [YUT, MO], 2, START, Backdo);
      case 3 => QueueYields([YUT, MO, BACKDO], 3, START);
      case 4 => CaptureSelects();
      case 5 => ThrowYields(CaptureExtra, [MO, BACKDO], 3, CAPTURED, Backdo);
      case 6 => QueueYields([MO, BACKDO, BACKDO_AGAIN], 4, CAPTURED);
      case 7 => FinishSelects();
      case _ => QueueYields([BACKDO, BACKDO_AGAIN], 4, FINISHED);
    }
  }

  lemma StepAt(k: nat)
    requires k < 9 && FlowInv(RULES, FlowAt(k))
    ensures Allowed(RULES, STEPS[k]) && Next(RULES, FlowAt(k), STEPS[k]) == Ok(FlowAt(k + 1))
      && FlowInv(RULES, FlowAt(k + 1))
  {
    hide BOARD, FlowInv, Next, Progress, FlowAt;
    NextAt(k);
    StepProgress(RULES, FlowAt(k), STEPS[k]);
    ProgressKeepsInv(FlowAt(k), FlowAt(k + 1), ThrowsOf(STEPS[k]));
  }

  lemma ProgressKeepsInv(f: Flow, g: Flow, throws: nat)
    requires Progress(RULES, f, g, throws)
    ensures FlowInv(RULES, g)
  {
  }

  lemma {:induction false} RunFrom(k: nat)
    requires k <= 9 && FlowInv(RULES, FlowAt(k))
    ensures Accepted(RULES, FlowAt(k), STEPS[k..]) && RunSteps(RULES, FlowAt(k), STEPS[k..]) == FlowAt(9)
      && FlowInv(RULES, FlowAt(9))
    decreases 9 - k
  {
    hide BOARD, FlowInv, Next, FlowAt;
    if k < 9 {
      StepAt(k);
      RunFrom(k + 1);
      assert STEPS[k..][0] == STEPS[k] && STEPS[k..][1..] == STEPS[k + 1..];
    } else {
      assert STEPS[9..] == [];
    }
  }

  /** The dead end is reachable: from a valid game on the checked-in board, four throws, a capture and a
      finish leave two Backdos that no piece can use, and no step is accepted any more. */
  lemma DeadEndIsReachable()
    ensures GameInv(RULES, START) && START.winner == None
    ensures var f := NewFlow(RULES, START, TeamA, 7, 0);
      && Accepted(RULES, f, STEPS)
      && DeadEnd(RunSteps(RULES, f, STEPS))
      && forall s :: Allowed(RULES, s) ==> Next(RULES, RunSteps(RULES, f, STEPS), s).Err?
  {
    hide BOARD, FlowInv, Next, Accepted, RunSteps, GameInv;
    StartIsValid();
    NewFlowInv(RULES, START, TeamA, 7, 0);
    FirstFlow();
    RunFrom(0);
    assert STEPS[0..] == STEPS;
    EndIsDead();
    TurnGoesOn(RULES, FlowAt(9));
  }

  lemma FirstFlow()
    ensures NewFlow(RULES, START, TeamA, 7, 0) == FlowAt(0)
  {
    hide BOARD;
    assert Drawn(0) == {};
  }

  lemma EndIsDead()
    ensures DeadEnd(FlowAt(9)) && FlowAt(9).turn.phase == Phase.WaitMoveSelection
  {
    hide BOARD;
    QueueYields([BACKDO, BACKDO_AGAIN], 4, FINISHED);
  }
}
