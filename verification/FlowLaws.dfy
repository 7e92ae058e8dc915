/** What every accepted step of a turn does to the game and to its queue of results. */
module FlowLaws {
  import opened Domain
  import opened BoardForward
  import opened TurnQueue
  import opened TurnMachine
  import opened TurnLaws
  import opened MatchRules
  import opened MatchInvariants
  import opened MatchOffers
  import opened MatchBuk
  import opened MatchLaws
  import opened BukLaws
  import opened MatchFlow
  import opened MatchTurns
  import opened MatchWholeTurn

  /** The result x is used: it leaves the queue, and the others keep their order. */
  ghost predicate Spends(f: Flow, g: Flow, x: Token) {
    exists k :: 0 <= k < |f.turn.queue.tokens| && f.turn.queue.tokens[k] == x &&
      g.turn.queue.tokens == f.turn.queue.tokens[..k] + f.turn.queue.tokens[k + 1..]
  }

  /** After a move the match is over, or the throw it earned is awaited, or the queue goes on. */
  ghost predicate GoesOn(f: Flow, g: Flow, earns: bool, ends: bool) {
    if ends then g.turn.phase == Phase.MatchEnd
    else if earns && !f.turn.capped then g.turn.phase == Phase.WaitThrow && g.turn.expectedOrigin == Some(CaptureExtra)
    else g.turn.phase == Phase.ResolveQueue
  }

  /** The move that a result makes with a piece. */
  function MoveOf(rules: Rules, f: Flow, x: Token, piece: PieceID, route: Option<Route>)
    : Outcome<(GameState, MoveOutcome), GameError>
  {
    if x.result == Backdo then ApplyBackdo(rules, f.game, f.team, piece)
    else ApplyOrdinary(rules, f.game, f.team, piece, x.result, route)
  }

  /** The result makes its move with the piece, and is used up. */
  ghost predicate Plays(rules: Rules, f: Flow, g: Flow, x: Token, piece: PieceID, route: Option<Route>) {
    && MoveOf(rules, f, x, piece, route).Ok?
    && var (game, o) := MoveOf(rules, f, x, piece, route).value;
      g.game == game && Spends(f, g, x) && GoesOn(f, g, o.captureExtraThrow, o.matchEnded)
  }

  /** The player must still choose the route. */
  ghost predicate MustChoose(rules: Rules, f: Flow, x: Token, piece: PieceID) {
    x.result != Backdo &&
    exists i :: 0 <= i < |f.game.pieces| && f.game.pieces[i].id == piece && RouteAsked(rules, f.game.pieces[i])
  }

  lemma ConsumeSpends(f: Flow, g: Flow, id: TokenID) returns (x: Token)
    requires f.turn.queue.Consume(id, f.turn.order).Ok?
    requires g.turn.queue == f.turn.queue.Consume(id, f.turn.order).value
    ensures x.id == id && Spends(f, g, x) && TokenResult(f.turn.queue.tokens, id) == Some(x.result)
  {
    hide Available;
    var k := IndexOf(f.turn.queue.tokens, id);
    x := f.turn.queue.tokens[k];
  }

  /** The selected move goes to the game first; then the machine uses the same result and goes on by the
      outcome the game reported. */
  lemma SelectedPlays(rules: Rules, f: Flow, h: Flow, token: TokenID, piece: PieceID, route: Option<Route>, g: Flow)
    returns (x: Token)
    requires h.game == f.game && h.team == f.team && h.turn.queue == f.turn.queue && h.turn.capped == f.turn.capped
    requires h.turn.order == f.turn.order && ApplySelectedMove(rules, h, token, piece, route) == Ok(g)
    ensures x.id == token && Plays(rules, f, g, x, piece, route)
  {
    hide ApplyBackdo, ApplyOrdinary, Queue.Consume, TokenResult, Spends;
    x := ConsumeSpends(f, g, token);
  }

  /** What an accepted step does: a throw queues its result under the next identifier; a move goes to the
      game, by the route that was chosen, and uses its result; a discard uses a Backdo that nobody can use. */
  ghost predicate StepDoes(rules: Rules, f: Flow, s: Step, g: Flow) {
    && g.team == f.team && g.tokenSeq == f.tokenSeq + (if s.ThrowStep? then 1 else 0)
    && match s
       case ThrowStep(result) =>
         && g.game == f.game && f.turn.expectedOrigin.Some?
         && g.turn.queue.tokens ==
           f.turn.queue.tokens + [Token(f.tokenSeq + 1, result, f.turn.expectedOrigin.value, f.turn.player)]
       case QueueStep => g.game == f.game && g.turn.queue == f.turn.queue
       case BukStep(ticket) =>
         && MatchRules.ResolveBuk(rules, f.game, f.team, ticket).Ok?
         && g.game == MatchRules.ResolveBuk(rules, f.game, f.team, ticket).value.0
         && GoesOn(f, g, Earns(MatchRules.ResolveBuk(rules, f.game, f.team, ticket).value.1.moves), false)
         && exists x: Token :: x.result == Buk && Spends(f, g, x)
       case DiscardStep =>
         && g.game == f.game && (exists x: Token :: x.result == Backdo && Spends(f, g, x))
         && forall i: nat :: !Usable(f.game.pieces, f.team, i, Backdo)
       case SelectStep(token, piece) =>
         exists x: Token :: x.id == token && MayBeUsed(f.turn, x) &&
           if MustChoose(rules, f, x, piece) then
             && g.game == f.game && g.turn.queue == f.turn.queue && g.turn.phase == Phase.WaitRouteSelection
             && g.turn.selected == token && g.pendingPiece == piece
           else Plays(rules, f, g, x, piece, None)
       case RouteStep(token, piece, route) =>
         && token == f.turn.selected && piece == f.pendingPiece
         && exists x: Token :: x.id == token && Plays(rules, f, g, x, piece, Some(route))
  }

  lemma RoutesTell(rules: Rules, game: GameState, team: Team, i: nat, result: YutResult)
    requires GameInv(rules, game) && game.winner == None && result != Buk && Usable(game.pieces, team, i, result)
    ensures |RoutesFor(rules, game, team, i, result)| == 2 <==> result != Backdo && RouteAsked(rules, game.pieces[i])
  {
    hide GameInv, ForwardPlans, PlansAccepted, DecideBackdo, IsPlan;
    PieceRoutesExact(rules, game, team, i, result);
    if result != Backdo {
      OwnedByIndex(rules, game, i);
      OrdinaryAlwaysPlans(rules, game, team, game.pieces[i].id, result);
      PlansOfPiece(rules, game, i, OrdinarySpaces(result).value);
    }
  }

  lemma SelectDoes(rules: Rules, f: Flow, token: TokenID, piece: PieceID)
    requires FlowInv(rules, f) && f.turn.phase == Phase.WaitMoveSelection && SelectMove(rules, f, token, piece).Ok?
    ensures StepDoes(rules, f, SelectStep(token, piece), SelectMove(rules, f, token, piece).value)
  {
    hide GameInv, Exposed, Usable, Turn.Inv, PendingOk, MoveCandidates, RoutesFor, ApplySelectedMove, OfferExact,
      Turn.Movable, Available, Plays, MustChoose;
    OpenSelection(rules, f);
    CandidatesExact(rules, f);
    var offer := MoveCandidates(rules, f).value;
    FoundCandidate(rules, f, offer, token, piece);
    var c := FindCandidate(offer.candidates, token, piece);
    var k: nat, i: nat :| ChoosablePair(f, token, piece, k, i)
      && offer.candidates[c].routes == RoutesFor(rules, f.game, f.team, i, Exposed(f)[k].result);
    var x := Exposed(f)[k];
    ExposedUsable(rules, f, k);
    RoutesTell(rules, f.game, f.team, i, x.result);
    ChoiceTold(rules, f, x, piece, i);
    var g := SelectMove(rules, f, token, piece).value;
    if !MustChoose(rules, f, x, piece) {
      var h := f.(turn := f.turn.SelectMove(token, false).value);
      var y := SelectedPlays(rules, f, h, token, piece, None, g);
      PlaysSpends(rules, f, g, y, piece, None);
      SameToken(f, x, y, g);
      KeepsCount(rules, h, token, piece, None, g);
    }
    assert x.id == token && MayBeUsed(f.turn, x);
  }

  lemma OpenSelection(rules: Rules, f: Flow)
    requires FlowInv(rules, f) && f.turn.phase == Phase.WaitMoveSelection
    ensures GameInv(rules, f.game) && f.game.winner == None && f.turn.Inv()
  {
    hide GameInv, PendingOk, Turn.Inv, Linked;
  }

  lemma ExposedUsable(rules: Rules, f: Flow, k: nat)
    requires FlowInv(rules, f) && f.turn.phase == Phase.WaitMoveSelection && k < |Exposed(f)|
    ensures MayBeUsed(f.turn, Exposed(f)[k]) && Exposed(f)[k].result != Buk
    ensures Exposed(f)[k] in f.turn.queue.tokens
  {
    hide GameInv, PendingOk, Turn.Inv, Linked, Available, MayBeUsed;
    var x := Exposed(f)[k];
    assert x in Available(f.turn.queue.tokens, f.turn.order);
    ExposedExactly(f.turn, x);
    ExposedIsMovable(f.turn, Exposed(f), k);
    UsedIsQueued(f.turn, x);
  }

  lemma UsedIsQueued(t: Turn, x: Token)
    requires MayBeUsed(t, x)
    ensures x in t.queue.tokens
  {
  }

  lemma ChoiceTold(rules: Rules, f: Flow, x: Token, piece: PieceID, i: nat)
    requires GameInv(rules, f.game) && i < |f.game.pieces| && f.game.pieces[i].id == piece
    ensures MustChoose(rules, f, x, piece) <==> x.result != Backdo && RouteAsked(rules, f.game.pieces[i])
  {
    hide GameInv, RouteAsked;
    OnlyOne(rules, f.game, i);
  }

  /** One identifier, one token. */
  lemma SameToken(f: Flow, x: Token, y: Token, g: Flow)
    requires f.turn.Inv() && x in f.turn.queue.tokens && y.id == x.id && Spends(f, g, y)
    ensures x == y
  {
    hide Turn.SelectionExposed, Turn.PhaseInv;
    assert f.turn.queue.Inv();
    var a :| 0 <= a < |f.turn.queue.tokens| && f.turn.queue.tokens[a] == x;
    var b :| 0 <= b < |f.turn.queue.tokens| && f.turn.queue.tokens[b] == y;
  }

  lemma PlaysSpends(rules: Rules, f: Flow, g: Flow, y: Token, piece: PieceID, route: Option<Route>)
    requires Plays(rules, f, g, y, piece, route)
    ensures Spends(f, g, y)
  {
  }

  lemma ThrowDoes(rules: Rules, f: Flow, result: YutResult)
    requires PerformThrow(rules, f, result).Ok?
    ensures StepDoes(rules, f, ThrowStep(result), PerformThrow(rules, f, result).value)
  {
  }

  lemma QueueDoes(rules: Rules, f: Flow)
    requires ResolveQueueStep(f).Ok?
    ensures StepDoes(rules, f, QueueStep, ResolveQueueStep(f).value)
  {
    hide Available;
  }

  lemma BukDoes(rules: Rules, f: Flow, ticket: nat)
    requires FlowInv(rules, f) && ResolveBukHead(rules, f, ticket).Ok?
    ensures StepDoes(rules, f, BukStep(ticket), ResolveBukHead(rules, f, ticket).value)
  {
    hide MatchRules.ResolveBuk, Queue.Consume, Available, Turn.Inv, GameInv, PendingOk, Linked, Spends, BukTakes,
      BukLands;
    BukOpen(rules, f.game, f.team, ticket);
    BukExact(rules, f.game, f.team, ticket);
    var g := ResolveBukHead(rules, f, ticket).value;
    var x := ConsumeSpends(f, g, f.turn.selected);
    BukSelected(f, g, x);
  }

  lemma BukSelected(f: Flow, g: Flow, x: Token)
    requires f.turn.Inv() && f.turn.phase == Phase.ResolveBuk && x.id == f.turn.selected && Spends(f, g, x)
    ensures x.result == Buk
  {
    var y :| y in Available(f.turn.queue.tokens, f.turn.order) && y.id == f.turn.selected && y.result == Buk;
    ExposedExactly(f.turn, y);
    SameToken(f, y, x, g);
  }

  lemma DiscardDoes(rules: Rules, f: Flow)
    requires FlowInv(rules, f) && f.turn.phase == Phase.WaitMoveSelection && EnterMoveSelection(rules, f).Ok?
    ensures StepDoes(rules, f, DiscardStep, EnterMoveSelection(rules, f).value)
  {
    hide GameInv, PendingOk, Turn.Inv, Linked, MoveCandidates, Usable, Turn.Movable, Exposed, OfferExact,
      Queue.Consume, Spends;
    OpenSelection(rules, f);
    DiscardExactly(rules, f);
    CandidatesExact(rules, f);
    var u := UnfinishedPieceExists(rules, f.game, f.team);
    NoCandidatesExactly(rules, f.game, f.team, Exposed(f), MoveCandidates(rules, f).value, u);
    var g := EnterMoveSelection(rules, f).value;
    var id := MoveCandidates(rules, f).value.unusable[0];
    var x := ConsumeSpends(f, g, id);
    assert Exposed(f)[0].id == id;
    ExposedUsable(rules, f, 0);
    SameToken(f, Exposed(f)[0], x, g);
  }

  /** Every accepted step does exactly that. */
  lemma StepDoesExactly(rules: Rules, f: Flow, s: Step)
    requires FlowInv(rules, f) && Next(rules, f, s).Ok?
    ensures StepDoes(rules, f, s, Next(rules, f, s).value)
  {
    hide FlowInv, PerformThrow, ResolveQueueStep, ResolveBukHead, EnterMoveSelection, SelectMove, SelectRoute, StepDoes;
    FlowTurnInv(rules, f);
    AcceptedPhase(rules, f, s);
    match s {
      case ThrowStep(result) => ThrowDoes(rules, f, result);
      case QueueStep => QueueDoes(rules, f);
      case BukStep(ticket) => BukDoes(rules, f, ticket);
      case DiscardStep => DiscardDoes(rules, f);
      case SelectStep(token, piece) => SelectDoes(rules, f, token, piece);
      case RouteStep(token, piece, route) => RouteDoes(rules, f, token, piece, route);
    }
  }

  lemma RouteDoes(rules: Rules, f: Flow, token: TokenID, piece: PieceID, route: Route)
    requires SelectRoute(rules, f, token, piece, route).Ok?
    ensures StepDoes(rules, f, RouteStep(token, piece, route), SelectRoute(rules, f, token, piece, route).value)
  {
    hide ApplySelectedMove, Plays;
    var g := SelectRoute(rules, f, token, piece, route).value;
    var x := SelectedPlays(rules, f, f.(turn := f.turn.RouteSelected(token).value), token, piece, Some(route), g);
    KeepsCount(rules, f.(turn := f.turn.RouteSelected(token).value), token, piece, Some(route), g);
  }

  lemma KeepsCount(rules: Rules, h: Flow, token: TokenID, piece: PieceID, route: Option<Route>, g: Flow)
    requires ApplySelectedMove(rules, h, token, piece, route) == Ok(g)
    ensures g.team == h.team && g.tokenSeq == h.tokenSeq
  {
    hide ApplyBackdo, ApplyOrdinary, Queue.Consume, TokenResult;
  }
}
