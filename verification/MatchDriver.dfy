/** The match runtime of one turn: the machine and the game objects driven in place, proved against MatchFlow. */
module MatchDriver {
  import opened Domain
  import opened BoardForward
  import opened TurnQueue
  import opened TurnMachine
  import opened MatchRules
  import opened MatchEngine
  import opened MatchInvariants
  import opened MatchFlow
  import opened MatchTurns
  import opened MatchWholeTurn

  /** An error at one piece stays the answer of the whole scan. */
  lemma {:induction false} TokenErrorStays(rules: Rules, game: GameState, team: Team, token: Token, n: nat, m: nat)
    requires n <= m <= |game.pieces| && TokenCandidates(rules, game, team, token, n).Err?
    ensures TokenCandidates(rules, game, team, token, m) == TokenCandidates(rules, game, team, token, n)
  {
    hide PieceRoutes;
    if n < m {
      TokenErrorStays(rules, game, team, token, n, m - 1);
    }
  }

  /** An error at one token stays the answer of the whole offer, and a Buk token closes the offer. */
  lemma {:induction false} OfferStays(rules: Rules, game: GameState, team: Team, tokens: seq<Token>, n: nat, m: nat)
    requires n <= m <= |tokens|
    requires OfferOf(rules, game, team, tokens, n).Err? || exists i :: 0 <= i < n && tokens[i].result == Buk
    ensures OfferOf(rules, game, team, tokens, m) == OfferOf(rules, game, team, tokens, n)
  {
    hide TokenCandidates;
    if n < m {
      OfferStays(rules, game, team, tokens, n, m - 1);
    }
  }

  lemma OfferStopsAtBuk(rules: Rules, game: GameState, team: Team, tokens: seq<Token>, n: nat)
    requires n < |tokens| && tokens[n].result == Buk && OfferOf(rules, game, team, tokens, n).Ok?
    requires forall i :: 0 <= i < n ==> tokens[i].result != Buk
    ensures OfferOf(rules, game, team, tokens, |tokens|) == OfferOf(rules, game, team, tokens, n + 1)
  {
    hide TokenCandidates;
    OfferStays(rules, game, team, tokens, n + 1, |tokens|);
  }

  lemma RoutesOfSnoc(plans: seq<ForwardPlan>, plan: ForwardPlan)
    ensures RoutesOf(plans + [plan]) == RoutesOf(plans) + [plan.route]
  {
    if plans != [] {
      assert (plans + [plan])[1..] == plans[1..] + [plan];
      RoutesOfSnoc(plans[1..], plan);
    }
  }

  /** A rejected choice changes nothing; an accepted step reaches the specified state. */
  ghost predicate Took(rules: Rules, before: Flow, s: Step, r: Option<FlowError>, after: Flow) {
    match Next(rules, before, s)
    case Ok(f) => r == None && after == f
    case Err(error) => r == Some(error) && (error == InvalidTurnAction ==> after == before)
  }

  /** A token the machine accepted for a move is in its queue, so the move finds its result. */
  lemma SelectedIsQueued(t: Turn, id: TokenID)
    requires t.Inv() && (t.SelectMove(id, false).Ok? || t.RouteSelected(id).Ok?)
    ensures TokenResult(t.queue.tokens, id).Some?
  {
    if t.SelectMove(id, false).Ok? {
      MovableIsConsumable(t, id);
    } else {
      var x :| x in Available(t.queue.tokens, t.order) && x.id == t.selected;
      AvailableIsConsumable(t.queue, x, t.order);
    }
  }

  lemma QueuedIsNotRejected(rules: Rules, f: Flow, token: TokenID, piece: PieceID, route: Option<Route>)
    requires TokenResult(f.turn.queue.tokens, token).Some?
    ensures ApplySelectedMove(rules, f, token, piece, route) != Err(InvalidTurnAction)
  {
    hide ApplyBackdo, ApplyOrdinary, TokenResult;
  }

  /** The step the runtime takes without input in a phase, if there is one. */
  function AutomaticStep(phase: Phase, ticket: nat): Option<Step> {
    match phase
    case ResolveQueue => Some(QueueStep)
    case ResolveBuk => Some(BukStep(ticket))
    case WaitMoveSelection => Some(DiscardStep)
    case _ => None
  }

  predicate IsAutomatic(s: Step) {
    s.QueueStep? || s.BukStep? || s.DiscardStep?
  }

  /** Where advancing a turn stops: input is needed or the turn is over, the random draw for a Buk was out
      of range, or the turn is in its dead end. */
  ghost predicate Rested(rules: Rules, f: Flow, r: Option<FlowError>) {
    match r
    case None => AutomaticStep(f.turn.phase, 0) == None || EnterMoveSelection(rules, f) == Err(AwaitingInput)
    case Some(error) =>
      (error == NothingToDiscard && DeadEnd(f))
        || (error == GameFailed(RandomOutOfRange) && f.turn.phase == Phase.ResolveBuk)
  }

  /** A throw is accepted exactly when the machine waits for one. */
  lemma ThrowChosen(rules: Rules, f: Flow, result: YutResult)
    requires FlowInv(rules, f) && Throwable(rules.settings, result)
    ensures f.turn.input == InputThrow ==>
      Next(rules, f, ThrowStep(result)).Ok? && FlowInv(rules, Next(rules, f, ThrowStep(result)).value)
    ensures f.turn.input != InputThrow ==> Next(rules, f, ThrowStep(result)) == Err(InvalidTurnAction)
  {
    hide GameInv, PendingOk, Linked, Turn.RecordThrow, Turn.SelectionExposed;
    if f.turn.phase == Phase.WaitThrow {
      ThrowProgress(rules, f, result);
    }
  }

  lemma PairChosen(rules: Rules, f: Flow, token: TokenID, piece: PieceID)
    requires FlowInv(rules, f)
    ensures match Next(rules, f, SelectStep(token, piece))
      case Ok(g) => FlowInv(rules, g)
      case Err(error) => error == InvalidTurnAction
  {
    hide FlowInv, MoveCandidates, ApplySelectedMove, Choosable, FindCandidate, Turn.Inv;
    FlowTurnInv(rules, f);
    InputFollowsPhase(f.turn);
    if f.turn.phase == Phase.WaitMoveSelection {
      SelectProgress(rules, f, token, piece);
    }
  }

  lemma RouteChosen(rules: Rules, f: Flow, token: TokenID, piece: PieceID, route: Route)
    requires FlowInv(rules, f)
    ensures match Next(rules, f, RouteStep(token, piece, route))
      case Ok(g) => FlowInv(rules, g)
      case Err(error) => error == InvalidTurnAction
  {
    hide FlowInv, ApplySelectedMove, Turn.Inv;
    FlowTurnInv(rules, f);
    InputFollowsPhase(f.turn);
    if f.turn.phase == Phase.WaitRouteSelection {
      RouteProgress(rules, f, token, piece, route);
    }
  }

  /** One accepted choice followed by every automatic step that it makes possible. */
  ghost predicate Played(rules: Rules, before: Flow, choice: Step, r: Option<FlowError>, steps: seq<Step>,
      after: Flow) {
    && FlowInv(rules, after)
    && Accepted(rules, before, steps) && RunSteps(rules, before, steps) == after
    && (if Next(rules, before, choice).Ok?
        then steps != [] && steps[0] == choice && (forall s :: s in steps[1..] ==> IsAutomatic(s))
          && Rested(rules, after, r)
        else steps == [] && r == Some(Next(rules, before, choice).error))
  }

  lemma {:induction false} AcceptedConcat(rules: Rules, f: Flow, a: seq<Step>, b: seq<Step>)
    requires Accepted(rules, f, a) && Accepted(rules, RunSteps(rules, f, a), b)
    ensures Accepted(rules, f, a + b) && RunSteps(rules, f, a + b) == RunSteps(rules, RunSteps(rules, f, a), b)
    decreases |a|
  {
    hide Next, Allowed;
    if a == [] {
      assert a + b == b;
    } else {
      assert (a + b)[0] == a[0] && (a + b)[1..] == a[1..] + b;
      AcceptedConcat(rules, Next(rules, f, a[0]).value, a[1..], b);
    }
  }

  lemma AcceptedOne(rules: Rules, f: Flow, s: Step)
    requires Allowed(rules, s) && Next(rules, f, s).Ok?
    ensures Accepted(rules, f, [s]) && RunSteps(rules, f, [s]) == Next(rules, f, s).value
  {
    hide Next;
    assert [s][1..] == [];
  }

  lemma ChoicePlayed(rules: Rules, f: Flow, choice: Step, more: seq<Step>, r: Option<FlowError>, after: Flow)
    requires Allowed(rules, choice) && Next(rules, f, choice).Ok?
    requires Accepted(rules, Next(rules, f, choice).value, more)
      && RunSteps(rules, Next(rules, f, choice).value, more) == after
    requires forall s :: s in more ==> IsAutomatic(s)
    requires FlowInv(rules, after) && Rested(rules, after, r)
    ensures Played(rules, f, choice, r, [choice] + more, after)
  {
    hide Next, FlowInv, Rested;
    AcceptedOne(rules, f, choice);
    AcceptedConcat(rules, f, [choice], more);
    assert ([choice] + more)[1..] == more;
  }

  lemma RefusedPlayed(rules: Rules, f: Flow, choice: Step, error: FlowError)
    requires FlowInv(rules, f) && Next(rules, f, choice) == Err(error)
    ensures Played(rules, f, choice, Some(error), [], f)
  {
    hide Next, FlowInv;
  }

  class Runtime {
    const rules: Rules
    const team: Team
    const machine: Machine
    const game: Game
    var pendingPiece: PieceID
    var tokenSeq: nat

    function State(): Flow
      reads this, machine, machine.queue, game
    {
      Flow(machine.State(), game.State(), team, pendingPiece, tokenSeq)
    }

    ghost predicate Valid()
      reads game`pieces
    {
      game.Valid() && game.rules == rules
    }

    constructor (rules: Rules, team: Team, player: PlayerID, game: Game, tokenSeq: nat)
      requires game.Valid() && game.rules == rules
      ensures Valid() && fresh(machine) && fresh(machine.queue) && this.game == game && this.rules == rules
      ensures State() == NewFlow(rules, game.State(), team, player, tokenSeq)
    {
      this.rules, this.team, this.game := rules, team, game;
      pendingPiece, this.tokenSeq := 0, tokenSeq;
      var m := new Machine(player, rules.settings.movementOrder, rules.settings.yutMoExtraThrow);
      machine := m;
      new;
      var r := machine.Start();
    }

    method AvailableTokens() returns (tokens: seq<Token>)
      ensures tokens == MatchFlow.Exposed(State())
    {
      tokens := machine.queue.Exposed(machine.movementOrder);
    }

    method RoutesOfPlans(plans: seq<ForwardPlan>) returns (routes: seq<Route>)
      ensures routes == RoutesOf(plans)
    {
      routes := [];
      for k := 0 to |plans|
        invariant routes == RoutesOf(plans[..k])
      {
        assert plans[..k + 1] == plans[..k] + [plans[k]];
        RoutesOfSnoc(plans[..k], plans[k]);
        routes := routes + [plans[k].route];
      }
      assert plans[..|plans|] == plans;
    }

    method RoutesForPiece(piece: Piece, result: YutResult) returns (r: Outcome<Option<seq<Route>>, GameError>)
      requires Valid()
      ensures r == PieceRoutes(rules, game.State(), team, piece, result)
    {
      hide DecideBackdo, OrdinaryPlans, RoutesOf;
      if piece.team != team || piece.state == Finished {
        return Ok(None);
      }
      if result == Backdo {
        var decision := DecideBackdo(rules, game.State(), team, piece.id);
        if decision.Err? {
          return if IsUnavailable(decision.error) then Ok(None) else Err(decision.error);
        }
        return Ok(Some([]));
      }
      var move := game.OrdinaryMovePlans(team, piece.id, result);
      if move.Err? {
        return if IsUnavailable(move.error) then Ok(None) else Err(move.error);
      }
      if move.value.plans == [] {
        return Ok(None);
      }
      var routes := RoutesOfPlans(move.value.plans);
      return Ok(Some(routes));
    }

    method CandidatesFor(token: Token) returns (r: Outcome<seq<Candidate>, GameError>)
      requires Valid()
      ensures r == TokenCandidates(rules, game.State(), team, token, |game.pieces|)
    {
      hide PieceRoutes;
      var candidates: seq<Candidate> := [];
      for i := 0 to |game.pieces|
        invariant TokenCandidates(rules, game.State(), team, token, i) == Ok(candidates)
      {
        var routes := RoutesForPiece(game.pieces[i], token.result);
        if routes.Err? {
          TokenErrorStays(rules, game.State(), team, token, i + 1, |game.pieces|);
          return Err(routes.error);
        }
        if routes.value.Some? {
          candidates := candidates + [Candidate(token.id, game.pieces[i].id, routes.value.value)];
        }
      }
      r := Ok(candidates);
    }

    /** Every legal pair of an exposed result and a piece, and the results no piece can use. */
    method Offered() returns (r: Outcome<Offer, GameError>)
      requires Valid()
      ensures r == MoveCandidates(rules, State())
    {
      hide TokenCandidates;
      var tokens := AvailableTokens();
      var candidates: seq<Candidate>, unusable: seq<TokenID> := [], [];
      for k := 0 to |tokens|
        invariant OfferOf(rules, game.State(), team, tokens, k) == Ok(Offer(candidates, unusable))
        invariant forall i :: 0 <= i < k ==> tokens[i].result != Buk
      {
        if tokens[k].result == Buk {
          OfferStopsAtBuk(rules, game.State(), team, tokens, k);
          break;
        }
        var more := CandidatesFor(tokens[k]);
        if more.Err? {
          OfferStays(rules, game.State(), team, tokens, k + 1, |tokens|);
          return Err(more.error);
        }
        candidates := candidates + more.value;
        if more.value == [] {
          unusable := unusable + [tokens[k].id];
        }
      }
      r := Ok(Offer(candidates, unusable));
    }

    method PerformThrow(result: YutResult) returns (r: Option<FlowError>)
      modifies this, machine, machine.queue
      ensures Took(rules, old(State()), ThrowStep(result), r, State())
    {
      hide Turn.RecordThrow;
      var begun, origin := machine.BeginThrow();
      if begun.Some? {
        return Some(InvalidTurnAction);
      }
      if origin.None? {
        return Some(TurnFailed(InvalidToken));
      }
      tokenSeq := tokenSeq + 1;
      var recorded := machine.RecordThrow(Token(tokenSeq, result, origin.value, machine.player));
      if recorded.Some? {
        return Some(TurnFailed(recorded.value));
      }
      return None;
    }

    method StepQueue() returns (r: Option<FlowError>)
      modifies machine
      ensures Took(rules, old(State()), QueueStep, r, State())
      ensures r.Some? ==> r.value.TurnFailed?
    {
      hide Turn.ResolveQueue;
      var resolved := machine.ResolveQueue();
      r := if resolved.Some? then Some(TurnFailed(resolved.value)) else None;
    }

    method AnyOf(moves: seq<MoveOutcome>) returns (captureExtra: bool, ended: bool)
      ensures captureExtra == exists k :: 0 <= k < |moves| && moves[k].captureExtraThrow
      ensures ended == exists k :: 0 <= k < |moves| && moves[k].matchEnded
    {
      captureExtra, ended := false, false;
      for k := 0 to |moves|
        invariant captureExtra == exists j :: 0 <= j < k && moves[j].captureExtraThrow
        invariant ended == exists j :: 0 <= j < k && moves[j].matchEnded
      {
        captureExtra := captureExtra || moves[k].captureExtraThrow;
        ended := ended || moves[k].matchEnded;
      }
    }

    method ResolveBukHead(ticket: nat) returns (r: Option<FlowError>)
      requires Valid()
      modifies machine, machine.queue, game
      ensures Valid() && Took(rules, old(State()), BukStep(ticket), r, State())
      ensures r.Some? && !r.value.TurnFailed? ==> State() == old(State())
    {
      hide MatchRules.ResolveBuk, Turn.CompleteBuk, Game.Valid;
      if machine.phase != Phase.ResolveBuk {
        return Some(InvalidTurnAction);
      }
      var moved := game.ResolveBukMove(team, ticket);
      if moved.Err? {
        return Some(GameFailed(moved.error));
      }
      var captureExtra, ended := AnyOf(moved.value.moves);
      var completed := machine.CompleteBuk(machine.selectedID, BukResult(moved.value.noCandidate, captureExtra, ended));
      r := if completed.Some? then Some(TurnFailed(completed.value)) else None;
    }

    method EnterSelection() returns (r: Option<FlowError>)
      requires Valid()
      modifies machine, machine.queue
      ensures Took(rules, old(State()), DiscardStep, r, State())
      ensures r.Some? && !r.value.TurnFailed? ==> State() == old(State())
    {
      hide MoveCandidates, Turn.DiscardUnusableResult, Game.Valid;
      if machine.phase != Phase.WaitMoveSelection {
        return Some(InvalidTurnAction);
      }
      var offer := Offered();
      if offer.Err? {
        return Some(GameFailed(offer.error));
      }
      if |offer.value.candidates| > 0 {
        return Some(AwaitingInput);
      }
      if |offer.value.unusable| != 1 {
        return Some(NothingToDiscard);
      }
      var discarded := machine.DiscardUnusableResult(offer.value.unusable[0]);
      r := if discarded.Some? then Some(TurnFailed(discarded.value)) else None;
    }

    method ResultOfToken(token: TokenID) returns (r: Option<YutResult>)
      ensures r == TokenResult(machine.queue.tokens, token)
    {
      var tokens := machine.queue.tokens;
      for i := 0 to |tokens|
        invariant IndexOf(tokens, token) >= i
      {
        if tokens[i].id == token {
          return Some(tokens[i].result);
        }
      }
      return None;
    }

    /** Applies the selected move to the game, then completes it on the machine. */
    method ApplySelected(token: TokenID, piece: PieceID, route: Option<Route>) returns (r: Option<FlowError>)
      requires Valid()
      modifies machine, machine.queue, game
      ensures Valid()
      ensures match ApplySelectedMove(rules, old(State()), token, piece, route)
        case Ok(f) => r == None && State() == f
        case Err(error) => r == Some(error) && (error == InvalidTurnAction ==> State() == old(State()))
    {
      hide ApplyBackdo, ApplyOrdinary, Turn.MoveApplied, Turn.CompleteMove, TokenResult, Game.Valid;
      var result := ResultOfToken(token);
      if result.None? {
        return Some(InvalidTurnAction);
      }
      var moved: Outcome<MoveOutcome, GameError>;
      if result.value == Backdo {
        moved := game.ApplyBackdoMove(team, piece);
      } else {
        moved := game.ApplyOrdinaryMove(team, piece, result.value, route);
      }
      if moved.Err? {
        return Some(GameFailed(moved.error));
      }
      var applied := machine.MoveApplied(token);
      if applied.Some? {
        return Some(TurnFailed(applied.value));
      }
      var completed := machine.CompleteMove(token, MoveResult(moved.value.captureExtraThrow, moved.value.matchEnded));
      r := if completed.Some? then Some(TurnFailed(completed.value)) else None;
    }

    method Find(candidates: seq<Candidate>, token: TokenID, piece: PieceID) returns (k: nat)
      ensures k == FindCandidate(candidates, token, piece)
    {
      k := 0;
      while k < |candidates| && !(candidates[k].token == token && candidates[k].piece == piece)
        invariant k <= |candidates|
        invariant forall j :: 0 <= j < k ==> !(candidates[j].token == token && candidates[j].piece == piece)
      {
        k := k + 1;
      }
    }

    /** The atomic choice of a result and a piece, checked against freshly computed candidates. */
    method SelectMovePair(token: TokenID, piece: PieceID) returns (r: Option<FlowError>)
      requires Valid() && machine.State().Inv()
      modifies this, machine, machine.queue, game
      ensures Valid() && Took(rules, old(State()), SelectStep(token, piece), r, State())
    {
      hide MoveCandidates, FindCandidate, ApplySelectedMove, Turn.Movable, Turn.Inv, TokenResult, Game.Valid;
      if machine.requiredInput != InputSelectMove {
        return Some(InvalidTurnAction);
      }
      var offer := Offered();
      if offer.Err? {
        return Some(GameFailed(offer.error));
      }
      var k := Find(offer.value.candidates, token, piece);
      if k == |offer.value.candidates| {
        return Some(InvalidTurnAction);
      }
      var routeRequired := |offer.value.candidates[k].routes| == 2;
      var selected := machine.SelectMove(token, routeRequired);
      if selected.Some? {
        return Some(InvalidTurnAction);
      }
      if routeRequired {
        pendingPiece := piece;
        return None;
      }
      SelectedIsQueued(old(machine.State()), token);
      QueuedIsNotRejected(rules, State(), token, piece, None);
      r := ApplySelected(token, piece, None);
    }

    method SelectPendingRoute(token: TokenID, piece: PieceID, route: Route) returns (r: Option<FlowError>)
      requires Valid() && machine.State().Inv()
      modifies machine, machine.queue, game
      ensures Valid() && Took(rules, old(State()), RouteStep(token, piece, route), r, State())
    {
      hide ApplySelectedMove, Turn.Inv, TokenResult, Game.Valid;
      if machine.requiredInput != InputSelectRoute || machine.selectedID != token || pendingPiece != piece {
        return Some(InvalidTurnAction);
      }
      var selected := machine.RouteSelected(token);
      if selected.Some? {
        return Some(InvalidTurnAction);
      }
      SelectedIsQueued(old(machine.State()), token);
      QueuedIsNotRejected(rules, State(), token, piece, Some(route));
      r := ApplySelected(token, piece, Some(route));
    }

    /** One automatic step. */
    method StepResolution(ticket: nat) returns (r: Option<FlowError>)
      requires Valid() && AutomaticStep(machine.phase, ticket).Some?
      modifies machine, machine.queue, game
      ensures Valid() && Took(rules, old(State()), AutomaticStep(old(machine.phase), ticket).value, r, State())
      ensures r.Some? && !r.value.TurnFailed? ==> State() == old(State())
    {
      hide Next, Game.Valid;
      if machine.phase == Phase.ResolveQueue {
        r := StepQueue();
      } else if machine.phase == Phase.ResolveBuk {
        r := ResolveBukHead(ticket);
      } else {
        r := EnterSelection();
      }
    }

    /** Takes automatic steps until a decision is needed or the turn is over. */
    method AdvanceTurn(ticket: nat) returns (r: Option<FlowError>, ghost steps: seq<Step>)
      requires Valid() && FlowInv(rules, State())
      modifies machine, machine.queue, game
      ensures Valid() && FlowInv(rules, State())
      ensures Accepted(rules, old(State()), steps) && RunSteps(rules, old(State()), steps) == State()
      ensures (forall s :: s in steps ==> IsAutomatic(s)) && Rested(rules, State(), r)
    {
      hide Next, FlowInv, Game.Valid, Took, DeadEnd, EnterMoveSelection, Measure;
      steps := [];
      r := None;
      FlowTurnInv(rules, State());
      while AutomaticStep(machine.phase, ticket).Some?
        invariant Valid() && FlowInv(rules, State()) && |machine.queue.tokens| <= MAX_TOKENS && r == None
        invariant Accepted(rules, old(State()), steps) && RunSteps(rules, old(State()), steps) == State()
        invariant forall s :: s in steps ==> IsAutomatic(s)
        decreases Measure(State())
      {
        ghost var before := State();
        ghost var s := AutomaticStep(machine.phase, ticket).value;
        r := StepResolution(ticket);
        StepOutcome(rules, before, s, r, State());
        if r.Some? {
          if r == Some(AwaitingInput) {
            r := None;
          }
          return;
        }
        AcceptedOne(rules, before, s);
        AcceptedConcat(rules, old(State()), steps, [s]);
        steps := steps + [s];
      }
    }

    /** The player throws: the result is queued and the turn advances as far as it can. */
    method ThrowYut(user: PlayerID, result: YutResult, ticket: nat)
      returns (r: Option<FlowError>, ghost steps: seq<Step>)
      requires Valid() && FlowInv(rules, State()) && Throwable(rules.settings, result)
      modifies this, machine, machine.queue, game
      ensures Valid()
      ensures user != machine.player ==> r == Some(NotTurnPlayer) && State() == old(State())
      ensures user == machine.player ==> Played(rules, old(State()), ThrowStep(result), r, steps, State())
    {
      hide FlowInv, Game.Valid, Next, Rested, Progress, RunSteps, Accepted, Turn.Inv;
      steps := [];
      if machine.player != user {
        return Some(NotTurnPlayer), [];
      }
      ghost var before := State();
      FlowTurnInv(rules, before);
      ThrowChosen(rules, before, result);
      if machine.requiredInput != InputThrow {
        RefusedPlayed(rules, before, ThrowStep(result), InvalidTurnAction);
        return Some(InvalidTurnAction), [];
      }
      r := PerformThrow(result);
      r, steps := AdvanceTurn(ticket);
      ChoicePlayed(rules, before, ThrowStep(result), steps, r, State());
      steps := [ThrowStep(result)] + steps;
    }

    method SelectMove(user: PlayerID, token: TokenID, piece: PieceID, ticket: nat)
      returns (r: Option<FlowError>, ghost steps: seq<Step>)
      requires Valid() && FlowInv(rules, State())
      modifies this, machine, machine.queue, game
      ensures Valid()
      ensures user != machine.player ==> r == Some(NotTurnPlayer) && State() == old(State())
      ensures user == machine.player ==> Played(rules, old(State()), SelectStep(token, piece), r, steps, State())
    {
      hide FlowInv, Game.Valid, Next, Rested, Progress, RunSteps, Accepted, Turn.Inv;
      steps := [];
      if machine.player != user {
        return Some(NotTurnPlayer), [];
      }
      ghost var before := State();
      FlowTurnInv(rules, before);
      PairChosen(rules, before, token, piece);
      r := SelectMovePair(token, piece);
      if r.Some? {
        RefusedPlayed(rules, before, SelectStep(token, piece), r.value);
        return;
      }
      r, steps := AdvanceTurn(ticket);
      ChoicePlayed(rules, before, SelectStep(token, piece), steps, r, State());
      steps := [SelectStep(token, piece)] + steps;
    }

    method SelectRoute(user: PlayerID, token: TokenID, piece: PieceID, route: Route, ticket: nat)
      returns (r: Option<FlowError>, ghost steps: seq<Step>)
      requires Valid() && FlowInv(rules, State())
      modifies this, machine, machine.queue, game
      ensures Valid()
      ensures user != machine.player ==> r == Some(NotTurnPlayer) && State() == old(State())
      ensures user == machine.player ==> Played(rules, old(State()), RouteStep(token, piece, route), r, steps, State())
    {
      hide FlowInv, Game.Valid, Next, Rested, Progress, RunSteps, Accepted, Turn.Inv;
      steps := [];
      if machine.player != user {
        return Some(NotTurnPlayer), [];
      }
      ghost var before := State();
      FlowTurnInv(rules, before);
      RouteChosen(rules, before, token, piece, route);
      r := SelectPendingRoute(token, piece, route);
      if r.Some? {
        RefusedPlayed(rules, before, RouteStep(token, piece, route), r.value);
        return;
      }
      r, steps := AdvanceTurn(ticket);
      ChoicePlayed(rules, before, RouteStep(token, piece, route), steps, r, State());
      steps := [RouteStep(token, piece, route)] + steps;
    }
  }

  lemma StepOutcome(rules: Rules, before: Flow, s: Step, r: Option<FlowError>, after: Flow)
    requires FlowInv(rules, before) && Some(s) == AutomaticStep(before.turn.phase, if s.BukStep? then s.ticket else 0)
    requires Took(rules, before, s, r, after) && (r.Some? && !r.value.TurnFailed? ==> after == before)
    ensures Allowed(rules, s)
    ensures r == None ==> Next(rules, before, s) == Ok(after) && Progress(rules, before, after, 0)
    ensures r.Some? ==>
      after == before && (if r == Some(AwaitingInput) then Rested(rules, after, None) else Rested(rules, after, r))
  {
    hide FlowInv, PerformThrow, ResolveQueueStep, ResolveBukHead, EnterMoveSelection, SelectMove, SelectRoute,
      Progress, Stuck;
    if r == None {
      StepProgress(rules, before, s);
    } else {
      ErrorsAreExpected(rules, before, s);
      if before.turn.phase == Phase.WaitMoveSelection {
        DiscardExactly(rules, before);
      }
    }
  }
}
