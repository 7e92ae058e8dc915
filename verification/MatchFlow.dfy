/** The turn machine and the game driven together, one decision or automatic step at a time. */
module MatchFlow {
  import opened Domain
  import opened BoardGraph
  import opened BoardForward
  import opened TurnQueue
  import opened TurnMachine
  import opened MatchRules

  datatype FlowError =
    | TurnFailed(turn: TurnError) | GameFailed(game: GameError)
    | InvalidTurnAction
    | AwaitingInput
    | NothingToDiscard
    | NotTurnPlayer

  /** The part of the match runtime that one turn reads and writes. */
  datatype Flow = Flow(turn: Turn, game: GameState, team: Team, pendingPiece: PieceID, tokenSeq: nat)

  /** The results the sampler can draw under the room's modes. */
  predicate Throwable(settings: Settings, result: YutResult) {
    (result == Backdo ==> settings.backdoEnabled) && (result == Buk ==> settings.bukModeEnabled)
  }

  // ----- Candidates -----

  datatype Candidate = Candidate(token: TokenID, piece: PieceID, routes: seq<Route>)

  /** Errors that only mean a piece cannot use a result. */
  predicate IsUnavailable(error: GameError) {
    error == Planning(ForwardMovementUnavailable) || error == Planning(BackdoMovementUnavailable)
    || error == Planning(BackdoHistoryUnavailable)
  }

  function RoutesOf(plans: seq<ForwardPlan>): (r: seq<Route>)
    ensures |r| == |plans|
  {
    if plans == [] then [] else [plans[0].route] + RoutesOf(plans[1..])
  }

  /** The routes a piece may take with a result: none at all, or a list that is empty for a Backdo. */
  function PieceRoutes(rules: Rules, game: GameState, team: Team, piece: Piece, result: YutResult)
    : Outcome<Option<seq<Route>>, GameError>
  {
    if piece.team != team || piece.state == Finished then Ok(None)
    else if result == Backdo then
      match DecideBackdo(rules, game, team, piece.id)
      case Ok(_) => Ok(Some([]))
      case Err(error) => if IsUnavailable(error) then Ok(None) else Err(error)
    else
      match OrdinaryPlans(rules, game, team, piece.id, result)
      case Ok(move) => if move.plans == [] then Ok(None) else Ok(Some(RoutesOf(move.plans)))
      case Err(error) => if IsUnavailable(error) then Ok(None) else Err(error)
  }

  /** The candidates of one token among the first n pieces, in slice order. */
  function TokenCandidates(rules: Rules, game: GameState, team: Team, token: Token, n: nat)
    : Outcome<seq<Candidate>, GameError>
    requires n <= |game.pieces|
  {
    if n == 0 then Ok([])
    else
      match TokenCandidates(rules, game, team, token, n - 1)
      case Err(error) => Err(error)
      case Ok(rest) =>
        match PieceRoutes(rules, game, team, game.pieces[n - 1], token.result)
        case Err(error) => Err(error)
        case Ok(None) => Ok(rest)
        case Ok(Some(routes)) => Ok(rest + [Candidate(token.id, game.pieces[n - 1].id, routes)])
  }

  datatype Offer = Offer(candidates: seq<Candidate>, unusable: seq<TokenID>)

  /** The offer of the first n exposed tokens; a Buk token stops the list. */
  function OfferOf(rules: Rules, game: GameState, team: Team, tokens: seq<Token>, n: nat): Outcome<Offer, GameError>
    requires n <= |tokens|
  {
    if n == 0 then Ok(Offer([], []))
    else
      match OfferOf(rules, game, team, tokens, n - 1)
      case Err(error) => Err(error)
      case Ok(offer) =>
        if exists i :: 0 <= i < n && tokens[i].result == Buk then Ok(offer)
        else
          match TokenCandidates(rules, game, team, tokens[n - 1], |game.pieces|)
          case Err(error) => Err(error)
          case Ok(candidates) =>
            Ok(Offer(offer.candidates + candidates,
              if candidates == [] then offer.unusable + [tokens[n - 1].id] else offer.unusable))
  }

  function Exposed(f: Flow): seq<Token> {
    Available(f.turn.queue.tokens, f.turn.order)
  }

  /** Every legal exposed result and piece pair, and the exposed results no piece can use. */
  function MoveCandidates(rules: Rules, f: Flow): Outcome<Offer, GameError> {
    OfferOf(rules, f.game, f.team, Exposed(f), |Exposed(f)|)
  }

  /** The position of a candidate in a list, or the length of the list. */
  function FindCandidate(candidates: seq<Candidate>, token: TokenID, piece: PieceID): (k: nat)
    ensures k <= |candidates|
    ensures k < |candidates| ==> candidates[k].token == token && candidates[k].piece == piece
    ensures forall j :: 0 <= j < k ==> !(candidates[j].token == token && candidates[j].piece == piece)
  {
    if candidates == [] || (candidates[0].token == token && candidates[0].piece == piece) then 0
    else 1 + FindCandidate(candidates[1..], token, piece)
  }

  // ----- Steps -----

  function NewFlow(rules: Rules, game: GameState, team: Team, player: PlayerID, tokenSeq: nat): Flow {
    var t := NewTurn(player, rules.settings.movementOrder, rules.settings.yutMoExtraThrow);
    Flow(match t.Start() case Ok(started) => started case Err(_) => t, game, team, 0, tokenSeq)
  }

  function PerformThrow(rules: Rules, f: Flow, result: YutResult): Outcome<Flow, FlowError> {
    match f.turn.BeginThrow()
    case Err(_) => Err(InvalidTurnAction)
    case Ok(begun) =>
      match f.turn.expectedOrigin
      case None => Err(TurnFailed(InvalidToken))
      case Some(origin) =>
        match begun.RecordThrow(Token(f.tokenSeq + 1, result, origin, f.turn.player))
        case Err(error) => Err(TurnFailed(error))
        case Ok(recorded) => Ok(f.(turn := recorded, tokenSeq := f.tokenSeq + 1))
  }

  function ResolveQueueStep(f: Flow): Outcome<Flow, FlowError> {
    match f.turn.ResolveQueue()
    case Err(error) => Err(TurnFailed(error))
    case Ok(t) => Ok(f.(turn := t))
  }

  /** The combined decision of all groups that one Buk moved. */
  function BukTurnResult(outcome: BukOutcome): BukResult {
    BukResult(outcome.noCandidate,
      exists k :: 0 <= k < |outcome.moves| && outcome.moves[k].captureExtraThrow,
      exists k :: 0 <= k < |outcome.moves| && outcome.moves[k].matchEnded)
  }

  ghost function ResolveBukHead(rules: Rules, f: Flow, ticket: nat): Outcome<Flow, FlowError> {
    if f.turn.phase != Phase.ResolveBuk then Err(InvalidTurnAction)
    else
      match MatchRules.ResolveBuk(rules, f.game, f.team, ticket)
      case Err(error) => Err(GameFailed(error))
      case Ok((game, outcome)) =>
        match f.turn.CompleteBuk(f.turn.selected, BukTurnResult(outcome))
        case Err(error) => Err(TurnFailed(error))
        case Ok(t) => Ok(f.(turn := t, game := game))
  }

  /** Entering move selection: wait for a choice, or discard the one exposed result nobody can use. */
  function EnterMoveSelection(rules: Rules, f: Flow): Outcome<Flow, FlowError> {
    if f.turn.phase != Phase.WaitMoveSelection then Err(InvalidTurnAction)
    else
      match MoveCandidates(rules, f)
      case Err(error) => Err(GameFailed(error))
      case Ok(offer) =>
        if |offer.candidates| > 0 then Err(AwaitingInput)
        else if |offer.unusable| != 1 then Err(NothingToDiscard)
        else
          match f.turn.DiscardUnusableResult(offer.unusable[0])
          case Err(error) => Err(TurnFailed(error))
          case Ok(t) => Ok(f.(turn := t))
  }

  function TokenResult(tokens: seq<Token>, id: TokenID): Option<YutResult> {
    var i := IndexOf(tokens, id);
    if i < |tokens| then Some(tokens[i].result) else None
  }

  /** Applies the selected move to the game and completes it on the machine. */
  function ApplySelectedMove(rules: Rules, f: Flow, token: TokenID, piece: PieceID, route: Option<Route>)
    : Outcome<Flow, FlowError>
  {
    match TokenResult(f.turn.queue.tokens, token)
    case None => Err(InvalidTurnAction)
    case Some(result) =>
      var applied := if result == Backdo then ApplyBackdo(rules, f.game, f.team, piece)
                     else ApplyOrdinary(rules, f.game, f.team, piece, result, route);
      match applied
      case Err(error) => Err(GameFailed(error))
      case Ok((game, outcome)) =>
        CompleteMove(f.(game := game), token, MoveResult(outcome.captureExtraThrow, outcome.matchEnded))
  }

  function CompleteMove(f: Flow, token: TokenID, result: MoveResult): Outcome<Flow, FlowError> {
    match f.turn.MoveApplied(token)
    case Err(error) => Err(TurnFailed(error))
    case Ok(applied) =>
      match applied.CompleteMove(token, result)
      case Err(error) => Err(TurnFailed(error))
      case Ok(t) => Ok(f.(turn := t))
  }

  /** The atomic selection of a result and a piece. */
  function SelectMove(rules: Rules, f: Flow, token: TokenID, piece: PieceID): Outcome<Flow, FlowError> {
    if f.turn.input != InputSelectMove then Err(InvalidTurnAction)
    else
      match MoveCandidates(rules, f)
      case Err(error) => Err(GameFailed(error))
      case Ok(offer) =>
        var k := FindCandidate(offer.candidates, token, piece);
        if k == |offer.candidates| then Err(InvalidTurnAction)
        else
          var routeRequired := |offer.candidates[k].routes| == 2;
          match f.turn.SelectMove(token, routeRequired)
          case Err(error) => Err(InvalidTurnAction)
          case Ok(t) =>
            if routeRequired then Ok(f.(turn := t, pendingPiece := piece))
            else ApplySelectedMove(rules, f.(turn := t), token, piece, None)
  }

  function SelectRoute(rules: Rules, f: Flow, token: TokenID, piece: PieceID, route: Route): Outcome<Flow, FlowError> {
    if f.turn.input != InputSelectRoute || f.turn.selected != token || f.pendingPiece != piece then
      Err(InvalidTurnAction)
    else
      match f.turn.RouteSelected(token)
      case Err(error) => Err(InvalidTurnAction)
      case Ok(t) => ApplySelectedMove(rules, f.(turn := t), token, piece, Some(route))
  }

  datatype Step =
    | ThrowStep(result: YutResult)
    | QueueStep
    | BukStep(ticket: nat)
    | DiscardStep
    | SelectStep(token: TokenID, piece: PieceID)
    | RouteStep(token: TokenID, piece: PieceID, route: Route)

  ghost function Next(rules: Rules, f: Flow, s: Step): Outcome<Flow, FlowError> {
    match s
    case ThrowStep(result) => PerformThrow(rules, f, result)
    case QueueStep => ResolveQueueStep(f)
    case BukStep(ticket) => ResolveBukHead(rules, f, ticket)
    case DiscardStep => EnterMoveSelection(rules, f)
    case SelectStep(token, piece) => SelectMove(rules, f, token, piece)
    case RouteStep(token, piece, route) => SelectRoute(rules, f, token, piece, route)
  }

  /** A step is allowed when the sampler can draw its result. */
  predicate Allowed(rules: Rules, s: Step) {
    s.ThrowStep? ==> Throwable(rules.settings, s.result)
  }
}
