/** Laws of the machine and the game run together: no internal error but one, an end to every turn,
    and every generated result accounted for. */
module MatchTurns {
  import opened Domain
  import opened BoardForward
  import opened TurnQueue
  import opened TurnMachine
  import opened MatchRules
  import opened MatchInvariants
  import opened MatchBuk
  import opened MatchRuns
  import opened MatchFlow
  import opened MatchOffers

  /** The phases in which the runtime rests between steps. */
  predicate Resting(phase: Phase) {
    && phase != Phase.TurnStart && phase != Phase.ThrowingChain
    && phase != Phase.ApplyMove && phase != Phase.ResolveStackCaptureFinish
  }

  /** The machine follows the room's settings, its identifiers come from the runtime's counter, and it
      holds a Buk only in Buk mode. */
  ghost predicate Linked(rules: Rules, t: Turn, tokenSeq: nat) {
    && t.order == rules.settings.movementOrder && t.yutMoExtra == rules.settings.yutMoExtraThrow
    && (forall id :: id in t.queue.seen ==> id <= tokenSeq)
    && (forall x :: x in t.queue.tokens && x.result == Buk ==> rules.settings.bukModeEnabled)
    && (t.phase == Phase.TurnEnd ==> t.queue.tokens == [])
  }

  /** A pending route choice is for a piece that really has two routes. */
  ghost predicate PendingOk(rules: Rules, f: Flow) {
    f.turn.phase == Phase.WaitRouteSelection ==>
      var result := TokenResult(f.turn.queue.tokens, f.turn.selected);
      result.Some? && result.value != Backdo
      && var plans := OrdinaryPlans(rules, f.game, f.team, f.pendingPiece, result.value);
         plans.Ok? && |plans.value.plans| == 2
  }

  ghost predicate FlowInv(rules: Rules, f: Flow) {
    && GameInv(rules, f.game)
    && f.turn.Inv() && Linked(rules, f.turn, f.tokenSeq) && Resting(f.turn.phase)
    && (f.game.winner.Some? <==> f.turn.phase == Phase.MatchEnd)
    && PendingOk(rules, f)
  }

  // ----- What bounds a turn -----

  function Presence(f: Flow): nat {
    ActiveCount(f.game.pieces, Opponent(f.team))
  }

  function Rank(phase: Phase): nat {
    match phase
    case ResolveQueue => 3
    case WaitMoveSelection => 2
    case ResolveBuk => 2
    case WaitRouteSelection => 1
    case _ => 0
  }

  /** The steps a turn can still make before the next capture. */
  function Work(t: Turn): nat
    requires |t.queue.tokens| <= MAX_TOKENS
  {
    if t.phase == Phase.WaitThrow then 132 + (MAX_TOKENS - |t.queue.tokens|)
    else 4 * |t.queue.tokens| + Rank(t.phase)
  }

  function Measure(f: Flow): nat
    requires |f.turn.queue.tokens| <= MAX_TOKENS
  {
    165 * Presence(f) + Work(f.turn)
  }

  /** The throws a turn can still make. */
  function ThrowBudget(f: Flow): nat
    requires |f.turn.queue.tokens| <= MAX_TOKENS
  {
    MAX_TOKENS * Presence(f) + (if f.turn.phase == Phase.WaitThrow then MAX_TOKENS - |f.turn.queue.tokens| else 0)
  }

  /** What an accepted step achieves: the invariant holds again and both budgets fall. */
  ghost predicate Progress(rules: Rules, f: Flow, g: Flow, throws: nat) {
    && FlowInv(rules, g) && g.team == f.team
    && |f.turn.queue.tokens| <= MAX_TOKENS && |g.turn.queue.tokens| <= MAX_TOKENS
    && Measure(g) < Measure(f) && ThrowBudget(g) + throws <= ThrowBudget(f)
  }

  // ----- Throws -----

  lemma RecordSucceeds(t: Turn, token: Token)
    requires t.Inv() && t.phase == Phase.ThrowingChain && token.Valid()
    requires Some(token.origin) == t.expectedOrigin && token.player == t.player && token.id !in t.queue.seen
    ensures t.RecordThrow(token).Ok?
    ensures var t' := t.RecordThrow(token).value;
      && t'.Inv() && t'.queue.tokens == t.queue.tokens + [token] && t'.queue.seen == t.queue.seen + {token.id}
      && (t'.phase == Phase.WaitThrow || t'.phase == Phase.ResolveQueue)
      && t'.order == t.order && t'.yutMoExtra == t.yutMoExtra && t'.player == t.player
  {
    RecordKeepsInv(t, token);
  }

  /** Every throw the sampler can draw is recorded. */
  lemma ThrowProgress(rules: Rules, f: Flow, result: YutResult)
    requires FlowInv(rules, f) && f.turn.phase == Phase.WaitThrow && Throwable(rules.settings, result)
    ensures PerformThrow(rules, f, result).Ok?
    ensures Progress(rules, f, PerformThrow(rules, f, result).value, 1)
  {
    hide GameInv, Available, ActiveCount;
    PerformKeepsInv(f.turn, CallBeginThrow);
    var begun := f.turn.BeginThrow().value;
    var token := Token(f.tokenSeq + 1, result, f.turn.expectedOrigin.value, f.turn.player);
    RecordSucceeds(begun, token);
  }

  // ----- Queue resolution -----

  /** The queue opens what its head asks for, or ends the turn when it is empty. */
  lemma QueueOpens(t: Turn)
    requires t.Inv() && t.phase == Phase.ResolveQueue
    ensures t.ResolveQueue().Ok?
    ensures var t' := t.ResolveQueue().value;
      && t'.Inv() && t'.queue == t.queue && t'.order == t.order && t'.yutMoExtra == t.yutMoExtra
      && (t'.phase == Phase.TurnEnd || t'.phase == Phase.ResolveBuk || t'.phase == Phase.WaitMoveSelection)
      && (t'.phase == Phase.TurnEnd ==> t.queue.tokens == [])
  {
    hide Turn.Inv;
    PerformKeepsInv(t, CallResolveQueue);
  }

  lemma QueueProgress(rules: Rules, f: Flow)
    requires FlowInv(rules, f) && f.turn.phase == Phase.ResolveQueue
    ensures ResolveQueueStep(f).Ok?
    ensures Progress(rules, f, ResolveQueueStep(f).value, 0)
  {
    hide GameInv, ActiveCount, Available, Turn.ResolveQueue;
    QueueOpens(f.turn);
  }

  // ----- Completing a resolution -----

  /** A turn after one token was consumed and resolved. */
  ghost predicate Consumed(t: Turn, t': Turn) {
    && t'.Inv() && |t'.queue.tokens| == |t.queue.tokens| - 1
    && t'.queue.seen == t.queue.seen && (forall x :: x in t'.queue.tokens ==> x in t.queue.tokens)
    && t'.order == t.order && t'.yutMoExtra == t.yutMoExtra && t'.player == t.player
  }

  lemma MoveCompletes(t: Turn, move: MoveResult)
    requires t.Inv() && t.phase == Phase.ApplyMove && move.Valid()
    ensures t.MoveApplied(t.selected).Ok?
    ensures t.MoveApplied(t.selected).value.CompleteMove(t.selected, move).Ok?
    ensures var t' := t.MoveApplied(t.selected).value.CompleteMove(t.selected, move).value;
      && Consumed(t, t')
      && (t'.phase == Phase.MatchEnd || t'.phase == Phase.WaitThrow || t'.phase == Phase.ResolveQueue)
      && (t'.phase == Phase.MatchEnd <==> move.matchEnded) && (t'.phase == Phase.WaitThrow ==> move.captureExtraThrow)
  {
    var applied := t.MoveApplied(t.selected).value;
    PerformKeepsInv(t, CallMoveApplied(t.selected));
    ConsumeLeavesNoBuk(applied, t.selected);
    ConsumeKeeps(t.queue, t.selected, t.order);
    PerformKeepsInv(applied, CallCompleteMove(t.selected, move));
  }

  lemma BukCompletes(t: Turn, buk: BukResult)
    requires t.Inv() && t.phase == Phase.ResolveBuk && buk.Valid() && !buk.noCandidate && !buk.matchEnded
    ensures t.CompleteBuk(t.selected, buk).Ok?
    ensures var t' := t.CompleteBuk(t.selected, buk).value;
      && Consumed(t, t')
      && (t'.phase == Phase.WaitThrow || t'.phase == Phase.ResolveQueue)
      && (t'.phase == Phase.WaitThrow ==> buk.captureExtraThrow)
  {
    ConsumeLeavesNoBuk(t, t.selected);
    ConsumeKeeps(t.queue, t.selected, t.order);
    PerformKeepsInv(t, CallCompleteBuk(t.selected, buk));
  }

  /** A consumed token pays for what follows it, and a capture pays for a new throw. */
  lemma ResolutionProgress(rules: Rules, f: Flow, g: Flow)
    requires f.turn.Inv() && Linked(rules, f.turn, f.tokenSeq) && Rank(f.turn.phase) > 0
    requires GameInv(rules, g.game) && Consumed(f.turn, g.turn) && g.team == f.team && g.tokenSeq == f.tokenSeq
    requires g.turn.phase == Phase.MatchEnd || g.turn.phase == Phase.WaitThrow || g.turn.phase == Phase.ResolveQueue
    requires g.game.winner.Some? <==> g.turn.phase == Phase.MatchEnd
    requires Presence(g) <= Presence(f) && (g.turn.phase == Phase.WaitThrow ==> Presence(g) < Presence(f))
    ensures Progress(rules, f, g, 0)
  {
    hide GameInv, Presence, Available;
  }

  /** Applying a selected move that the game accepts completes it on the machine too. */
  lemma ApplyProgress(rules: Rules, f: Flow, h: Flow, decision: Decision, result: YutResult, piece: PieceID,
      route: Option<Route>)
    requires FlowInv(rules, f) && (f.turn.phase == Phase.WaitMoveSelection || f.turn.phase == Phase.WaitRouteSelection)
    requires h.turn.Inv() && h.turn.phase == Phase.ApplyMove
      && h.turn == f.turn.At(Phase.ApplyMove, InputNone, None, h.turn.selected)
    requires h.game == f.game && h.team == f.team && h.tokenSeq == f.tokenSeq
    requires TokenResult(f.turn.queue.tokens, h.turn.selected) == Some(result)
    requires (if result == Backdo then DecideBackdo(rules, f.game, f.team, piece)
              else DecideOrdinary(rules, f.game, f.team, piece, result, route)) == Ok(decision)
    ensures ApplySelectedMove(rules, h, h.turn.selected, piece, route).Ok?
    ensures Progress(rules, f, ApplySelectedMove(rules, h, h.turn.selected, piece, route).value, 0)
  {
    hide GameInv, Available, ResolutionOk, DecideOrdinary, DecideBackdo, ApplyResolution, IndexOf, PendingOk;
    DecisionIsResolution(rules, f.game, f.team, decision, result, piece, route);
    ResolutionKeepsInv(rules, f.game, f.team, decision.selected, result, decision.plan);
    ResolutionCaptures(rules, f.game, f.team, decision.selected, result, decision.plan);
    var (game, outcome) := ApplyResolution(rules, f.game, f.team, decision.selected, result, decision.plan);
    var move := MoveResult(outcome.captureExtraThrow, outcome.matchEnded);
    MoveCompletes(h.turn, move);
    var t := h.turn.MoveApplied(h.turn.selected).value.CompleteMove(h.turn.selected, move).value;
    ResolutionProgress(rules, f, f.(turn := t, game := game, pendingPiece := h.pendingPiece));
  }

  lemma DecisionIsResolution(rules: Rules, game: GameState, team: Team, decision: Decision, result: YutResult,
      piece: PieceID, route: Option<Route>)
    requires GameInv(rules, game)
    requires (if result == Backdo then DecideBackdo(rules, game, team, piece)
              else DecideOrdinary(rules, game, team, piece, result, route)) == Ok(decision)
    ensures game.winner == None && decision.selected < |game.pieces|
    ensures ResolutionOk(rules.graph, game.pieces, team, decision.plan)
  {
    hide GameInv, ResolutionOk, OrdinaryPlans, Reversal;
    if result == Backdo {
      BackdoExact(rules, game, team, piece);
    } else {
      OrdinaryIsResolution(rules, game, team, piece, result, route);
    }
  }

  // ----- Buk resolution -----

  /** A Buk at the head is always resolved: pieces are found, the outcome is consistent, the turn goes on. */
  lemma BukProgress(rules: Rules, f: Flow, ticket: nat)
    requires FlowInv(rules, f) && f.turn.phase == Phase.ResolveBuk
    ensures ResolveBukHead(rules, f, ticket).Ok? <==>
      HasActive(f.game.pieces, f.team) || ticket < |WaitingIndices(f.game.pieces, f.team)|
    ensures ResolveBukHead(rules, f, ticket).Err? ==>
      ResolveBukHead(rules, f, ticket) == Err(GameFailed(RandomOutOfRange))
    ensures ResolveBukHead(rules, f, ticket).Ok? ==> Progress(rules, f, ResolveBukHead(rules, f, ticket).value, 0)
  {
    hide GameInv, Available, HasActive, BukLands, ActiveCount, PendingOk, MatchRules.ResolveBuk, Consumed;
    BukModeIsOn(rules, f);
    BukExact(rules, f.game, f.team, ticket);
    if MatchRules.ResolveBuk(rules, f.game, f.team, ticket).Ok? {
      BukCaptures(rules, f.game, f.team, ticket);
      var (game, outcome) := MatchRules.ResolveBuk(rules, f.game, f.team, ticket).value;
      NoEnding(outcome);
      BukCompletes(f.turn, BukTurnResult(outcome));
      var t := f.turn.CompleteBuk(f.turn.selected, BukTurnResult(outcome)).value;
      ResolutionProgress(rules, f, f.(turn := t, game := game));
    }
  }

  lemma NoEnding(outcome: BukOutcome)
    requires !outcome.noCandidate && forall m :: m in outcome.moves ==> !m.matchEnded
    ensures BukTurnResult(outcome).Valid() && !BukTurnResult(outcome).noCandidate && !BukTurnResult(outcome).matchEnded
    ensures BukTurnResult(outcome).captureExtraThrow ==> exists m :: m in outcome.moves && m.captureExtraThrow
  {
  }

  lemma BukModeIsOn(rules: Rules, f: Flow)
    requires FlowInv(rules, f) && f.turn.phase == Phase.ResolveBuk
    ensures rules.settings.bukModeEnabled && f.game.winner == None
  {
    hide GameInv, PendingOk;
    var x :| x in Available(f.turn.queue.tokens, f.turn.order) && x.id == f.turn.selected &&
      (x.result == Buk <==> f.turn.phase == Phase.ResolveBuk);
    AvailableIsConsumable(f.turn.queue, x, f.turn.order);
  }

  lemma BukCaptures(rules: Rules, game: GameState, team: Team, ticket: nat)
    requires GameInv(rules, game) && game.winner == None && rules.settings.bukModeEnabled
    requires MatchRules.ResolveBuk(rules, game, team, ticket).Ok?
    ensures var (after, outcome) := MatchRules.ResolveBuk(rules, game, team, ticket).value;
      && ActiveCount(after.pieces, Opponent(team)) <= ActiveCount(game.pieces, Opponent(team))
      && ((exists m :: m in outcome.moves && m.captureExtraThrow) ==>
        ActiveCount(after.pieces, Opponent(team)) < ActiveCount(game.pieces, Opponent(team)))
  {
    hide GameInv, BukGroups, ApplyGroups, GroupsStand, ActiveCount, SelectedIDs, BukTakes, HasActive;
    BukGroupsTake(rules, game, team, ticket);
    BukGroupsValid(rules, game, team, ticket);
    GroupsCapture(rules, game, team, BukGroups(rules, game, team, ticket).value);
  }

  // ----- Move selection -----

  /** The pair names an exposed result and a piece that can use it. */
  ghost predicate Choosable(f: Flow, token: TokenID, piece: PieceID) {
    exists k: nat, i: nat :: ChoosablePair(f, token, piece, k, i)
  }

  ghost predicate ChoosablePair(f: Flow, token: TokenID, piece: PieceID, k: nat, i: nat) {
    && k < |Exposed(f)| && i < |f.game.pieces| && Exposed(f)[k].id == token
    && Usable(f.game.pieces, f.team, i, Exposed(f)[k].result) && f.game.pieces[i].id == piece
  }

  /** The first matching candidate stands for one exposed result and one piece that can use it. */
  lemma FoundCandidate(rules: Rules, f: Flow, offer: Offer, token: TokenID, piece: PieceID)
    requires OfferExact(rules, f.game, f.team, Exposed(f), offer, |Exposed(f)|)
    ensures var c := FindCandidate(offer.candidates, token, piece);
      && (c < |offer.candidates| <==> Choosable(f, token, piece))
      && (c < |offer.candidates| ==> exists k: nat, i: nat ::
           ChoosablePair(f, token, piece, k, i)
           && offer.candidates[c].routes == RoutesFor(rules, f.game, f.team, i, Exposed(f)[k].result))
  {
    hide RoutesFor, Exposed;
    var c := FindCandidate(offer.candidates, token, piece);
    if c < |offer.candidates| {
      assert offer.candidates[c] in offer.candidates;
      var k: nat, i: nat :| k < |Exposed(f)| && IsOffer(rules, f.game, f.team, Exposed(f)[k], i, offer.candidates[c]);
      assert ChoosablePair(f, token, piece, k, i);
    }
    if Choosable(f, token, piece) {
      var k: nat, i: nat :| ChoosablePair(f, token, piece, k, i);
      var x := Candidate(token, piece, RoutesFor(rules, f.game, f.team, i, Exposed(f)[k].result));
      assert x in offer.candidates;
      var j :| 0 <= j < |offer.candidates| && offer.candidates[j] == x;
    }
  }

  lemma ExposedIsMovable(t: Turn, tokens: seq<Token>, k: nat)
    requires t.Inv() && t.phase == Phase.WaitMoveSelection && tokens == Available(t.queue.tokens, t.order)
      && k < |tokens|
    ensures t.Movable(tokens[k].id) && TokenResult(t.queue.tokens, tokens[k].id) == Some(tokens[k].result)
    ensures tokens[k].result != Buk && tokens[k].id != 0
  {
    AvailableIsConsumable(t.queue, tokens[k], t.order);
    var j :| 0 <= j < |t.queue.tokens| && t.queue.tokens[j] == tokens[k];
    assert IndexOf(t.queue.tokens, tokens[k].id) == j;
  }

  /** A usable pair decides: a Backdo or a single plan at once, two plans with either route. */
  lemma UsablePairDecides(rules: Rules, game: GameState, team: Team, i: nat, result: YutResult)
    requires GameInv(rules, game) && game.winner == None && Usable(game.pieces, team, i, result) && result != Buk
    ensures var routes := RoutesFor(rules, game, team, i, result);
      var id := game.pieces[i].id;
      && (result == Backdo ==> routes == [] && DecideBackdo(rules, game, team, id).Ok?)
      && (result != Backdo && |routes| != 2 ==> DecideOrdinary(rules, game, team, id, result, None).Ok?)
      && (|routes| == 2 ==>
        && result != Backdo && OrdinaryPlans(rules, game, team, id, result).Ok?
        && |OrdinaryPlans(rules, game, team, id, result).value.plans| == 2)
  {
    hide GameInv, PlanAccepted, Reversal, ForwardPlans;
    PieceRoutesExact(rules, game, team, i, result);
    OwnedByIndex(rules, game, i);
  }

  /** Two plans accept either route. */
  lemma TwoPlansDecide(rules: Rules, game: GameState, team: Team, id: PieceID, result: YutResult, route: Route)
    requires OrdinaryPlans(rules, game, team, id, result).Ok?
    requires |OrdinaryPlans(rules, game, team, id, result).value.plans| == 2
    ensures DecideOrdinary(rules, game, team, id, result, Some(route)).Ok?
  {
    hide ForwardPlans, PlanAccepted, OwnedIndex;
  }

  lemma SelectedTurn(t: Turn, id: TokenID, routeRequired: bool)
    requires t.Inv() && t.phase == Phase.WaitMoveSelection && t.Movable(id)
    ensures t.SelectMove(id, routeRequired).Ok? && t.SelectMove(id, routeRequired).value.Inv()
  {
    PerformKeepsInv(t, CallSelectMove(id, routeRequired));
  }

  /** A pair with two routes waits for the route; the choice stays possible. */
  lemma RouteAwaited(rules: Rules, f: Flow, token: TokenID, piece: PieceID, result: YutResult)
    requires FlowInv(rules, f) && f.turn.phase == Phase.WaitMoveSelection && f.turn.Movable(token)
    requires TokenResult(f.turn.queue.tokens, token) == Some(result) && result != Backdo
    requires OrdinaryPlans(rules, f.game, f.team, piece, result).Ok?
    requires |OrdinaryPlans(rules, f.game, f.team, piece, result).value.plans| == 2
    ensures f.turn.SelectMove(token, true).Ok?
    ensures Progress(rules, f, f.(turn := f.turn.SelectMove(token, true).value, pendingPiece := piece), 0)
  {
    hide GameInv, Available, Turn.Movable, OrdinaryPlans, ActiveCount, IndexOf;
    SelectedTurn(f.turn, token, true);
  }

  lemma ChosenPairProgress(rules: Rules, f: Flow, token: TokenID, piece: PieceID, k: nat, i: nat)
    requires FlowInv(rules, f) && f.turn.phase == Phase.WaitMoveSelection && ChoosablePair(f, token, piece, k, i)
    ensures var routes := RoutesFor(rules, f.game, f.team, i, Exposed(f)[k].result);
      var t := f.turn.SelectMove(token, |routes| == 2);
      && t.Ok?
      && (|routes| == 2 ==> Progress(rules, f, f.(turn := t.value, pendingPiece := piece), 0))
      && (|routes| != 2 ==>
        var done := ApplySelectedMove(rules, f.(turn := t.value), token, piece, None);
        done.Ok? && Progress(rules, f, done.value, 0))
  {
    hide GameInv, Available, RoutesFor, ActiveCount, Turn.Movable, DecideOrdinary, DecideBackdo, ApplySelectedMove,
      OrdinaryPlans, Usable, Turn.Inv, Linked, Progress, PendingOk, TokenResult;
    ExposedIsMovable(f.turn, Exposed(f), k);
    var result := Exposed(f)[k].result;
    UsablePairDecides(rules, f.game, f.team, i, result);
    var routes := RoutesFor(rules, f.game, f.team, i, result);
    SelectedTurn(f.turn, token, |routes| == 2);
    if |routes| == 2 {
      RouteAwaited(rules, f, token, piece, result);
    } else {
      var h := f.(turn := f.turn.SelectMove(token, false).value);
      var decision :=
        if result == Backdo then DecideBackdo(rules, f.game, f.team, piece).value
        else DecideOrdinary(rules, f.game, f.team, piece, result, None).value;
      ApplyProgress(rules, f, h, decision, result, piece, None);
    }
  }

  /** Selecting a pair succeeds exactly for the offered pairs, whatever they are, and makes progress. */
  lemma SelectProgress(rules: Rules, f: Flow, token: TokenID, piece: PieceID)
    requires FlowInv(rules, f) && f.turn.phase == Phase.WaitMoveSelection
    ensures SelectMove(rules, f, token, piece).Ok? <==> Choosable(f, token, piece)
    ensures SelectMove(rules, f, token, piece).Err? ==> SelectMove(rules, f, token, piece) == Err(InvalidTurnAction)
    ensures SelectMove(rules, f, token, piece).Ok? ==> Progress(rules, f, SelectMove(rules, f, token, piece).value, 0)
  {
    hide GameInv, Exposed, Usable, Turn.Inv, Progress, Linked, PendingOk, MoveCandidates, RoutesFor,
      ApplySelectedMove, OfferExact, Choosable, Turn.SelectMove;
    InputFollowsPhase(f.turn);
    CandidatesExact(rules, f);
    var offer := MoveCandidates(rules, f).value;
    FoundCandidate(rules, f, offer, token, piece);
    var c := FindCandidate(offer.candidates, token, piece);
    if c < |offer.candidates| {
      var k: nat, i: nat :| ChoosablePair(f, token, piece, k, i)
        && offer.candidates[c].routes == RoutesFor(rules, f.game, f.team, i, Exposed(f)[k].result);
      ChosenPairProgress(rules, f, token, piece, k, i);
    }
  }

  lemma InputFollowsPhase(t: Turn)
    requires t.Inv()
    ensures t.input == InputSelectMove <==> t.phase == Phase.WaitMoveSelection
    ensures t.input == InputSelectRoute <==> t.phase == Phase.WaitRouteSelection
  {
  }

  /** A pending route choice accepts either route for the selected result and piece, and nothing else. */
  lemma RouteProgress(rules: Rules, f: Flow, token: TokenID, piece: PieceID, route: Route)
    requires FlowInv(rules, f) && f.turn.phase == Phase.WaitRouteSelection
    ensures SelectRoute(rules, f, token, piece, route).Ok? <==> token == f.turn.selected && piece == f.pendingPiece
    ensures SelectRoute(rules, f, token, piece, route).Err? ==>
      SelectRoute(rules, f, token, piece, route) == Err(InvalidTurnAction)
    ensures SelectRoute(rules, f, token, piece, route).Ok? ==>
      Progress(rules, f, SelectRoute(rules, f, token, piece, route).value, 0)
  {
    hide GameInv, Available, ActiveCount, DecideOrdinary, DecideBackdo, ApplySelectedMove, OrdinaryPlans, Queue.Inv,
      IndexOf;
    InputFollowsPhase(f.turn);
    if token == f.turn.selected && piece == f.pendingPiece {
      var result := TokenResult(f.turn.queue.tokens, token).value;
      TwoPlansDecide(rules, f.game, f.team, piece, result, route);
      PerformKeepsInv(f.turn, CallRouteSelected(token));
      var h := f.(turn := f.turn.RouteSelected(token).value);
      ApplyProgress(rules, f, h, DecideOrdinary(rules, f.game, f.team, piece, result, Some(route)).value,
        result, piece, Some(route));
    }
  }

  // ----- Discarding -----

  /** No exposed result can be used by any piece of the team. */
  ghost predicate Stuck(f: Flow) {
    && (forall k :: 0 <= k < |Exposed(f)| ==> Exposed(f)[k].result == Backdo)
    && forall i: nat :: !Usable(f.game.pieces, f.team, i, Backdo)
  }

  lemma DiscardedTurn(t: Turn, id: TokenID)
    requires t.Inv() && t.phase == Phase.WaitMoveSelection && t.Movable(id)
    ensures t.DiscardUnusableResult(id).Ok?
    ensures Consumed(t, t.DiscardUnusableResult(id).value)
      && t.DiscardUnusableResult(id).value.phase == Phase.ResolveQueue
  {
    MovableIsConsumable(t, id);
    ConsumeKeeps(t.queue, id, t.order);
    PerformKeepsInv(t, CallDiscard(id));
  }

  /** Entering move selection waits for a choice unless every exposed result is an unusable Backdo;
      it then discards a single exposed result, and with two or more it fails. */
  lemma DiscardExactly(rules: Rules, f: Flow)
    requires FlowInv(rules, f) && f.turn.phase == Phase.WaitMoveSelection
    ensures EnterMoveSelection(rules, f) == Err(AwaitingInput) <==> !Stuck(f)
    ensures EnterMoveSelection(rules, f) == Err(NothingToDiscard) <==> Stuck(f) && |Exposed(f)| >= 2
    ensures EnterMoveSelection(rules, f).Ok? <==> Stuck(f) && |Exposed(f)| == 1
    ensures EnterMoveSelection(rules, f).Ok? ==> Progress(rules, f, EnterMoveSelection(rules, f).value, 0)
  {
    hide GameInv, Exposed, Turn.Inv, Progress, Linked, PendingOk, MoveCandidates, OfferExact, Usable,
      Turn.DiscardUnusableResult, Consumed;
    CandidatesExact(rules, f);
    var offer := MoveCandidates(rules, f).value;
    var u := UnfinishedPieceExists(rules, f.game, f.team);
    NoCandidatesExactly(rules, f.game, f.team, Exposed(f), offer, u);
    if offer.candidates == [] && |Exposed(f)| == 1 {
      ExposedMovable(f, 0);
      DiscardedTurn(f.turn, Exposed(f)[0].id);
      var g := f.(turn := f.turn.DiscardUnusableResult(Exposed(f)[0].id).value);
      ResolutionProgress(rules, f, g);
    }
  }

  lemma ExposedMovable(f: Flow, k: nat)
    requires f.turn.Inv() && f.turn.phase == Phase.WaitMoveSelection && k < |Exposed(f)|
    ensures f.turn.Movable(Exposed(f)[k].id)
  {
    hide Turn.Inv, Turn.Movable, Available;
    ExposedIsMovable(f.turn, Exposed(f), k);
  }

  /** First-in first-out order exposes one result at a time, so there the discard never fails. */
  lemma FifoNeverFails(rules: Rules, f: Flow)
    requires FlowInv(rules, f) && f.turn.phase == Phase.WaitMoveSelection && rules.settings.movementOrder == Fifo
    ensures EnterMoveSelection(rules, f) != Err(NothingToDiscard)
  {
    hide GameInv, Stuck, EnterMoveSelection, PendingOk;
    DiscardExactly(rules, f);
    ExposedOrdinary(f);
  }
}
