/** What one accepted move does and reports, told from the places of the pieces before it. */
module MatchLaws {
  import opened Domain
  import opened BoardGraph
  import opened BoardValidate
  import opened BoardForward
  import opened BoardTheorems
  import opened BoardRoutes
  import opened MatchRules
  import opened MatchInvariants
  import opened MatchOffers

  // ----- Places -----

  /** The pieces that go where piece i goes: itself, and with stacking whoever shares its place on the board. */
  predicate MovesWith(rules: Rules, pieces: seq<Piece>, i: nat, j: nat)
    requires i < |pieces| && j < |pieces|
  {
    j == i || (rules.settings.stackingEnabled && pieces[i].Active()
      && pieces[j].Stands(pieces[i].team, pieces[i].state, pieces[i].space))
  }

  predicate Meets(p: Piece, destination: Position) {
    destination.state != Finished && p.At() == destination
  }

  function Placed(p: Piece, destination: Position, previous: SpaceID): Piece {
    p.(state := destination.state, space := destination.space, previous := previous)
  }

  function Movers(rules: Rules, pieces: seq<Piece>, i: nat): set<nat>
    requires i < |pieces|
  {
    set j: nat | j < |pieces| && MovesWith(rules, pieces, i, j)
  }

  /** Where piece j is after the movers of a team went to the destination. */
  function Fate(rules: Rules, pieces: seq<Piece>, team: Team, movers: set<nat>, destination: Position,
    previous: SpaceID, j: nat): Piece
    requires j < |pieces|
  {
    var p := pieces[j];
    if p.team != team then (if Meets(p, destination) then Placed(p, Position(Waiting, NoSpace), NoSpace) else p)
    else if j in movers || (rules.settings.stackingEnabled && Meets(p, destination)) then
      Placed(p, destination, previous)
    else p
  }

  ghost predicate Lands(rules: Rules, pieces: seq<Piece>, team: Team, movers: set<nat>, destination: Position,
    previous: SpaceID, after: seq<Piece>)
  {
    && |after| == |pieces|
    && forall j :: 0 <= j < |pieces| ==> after[j] == Fate(rules, pieces, team, movers, destination, previous, j)
  }

  // ----- Reports -----

  predicate Ascending(indices: seq<nat>) {
    forall a, b :: 0 <= a < b < |indices| ==> indices[a] < indices[b]
  }

  /** The identifiers of exactly these pieces, in the order of the pieces. */
  ghost predicate Lists(ids: seq<PieceID>, pieces: seq<Piece>, who: set<nat>) {
    exists indices: seq<nat> :: ListedBy(ids, pieces, who, indices)
  }

  ghost predicate ListedBy(ids: seq<PieceID>, pieces: seq<Piece>, who: set<nat>, indices: seq<nat>) {
    && Ascending(indices) && |ids| == |indices|
    && (forall j :: j in indices <==> j in who)
    && forall k :: 0 <= k < |ids| ==> indices[k] < |pieces| && ids[k] == pieces[indices[k]].id
  }

  function Met(pieces: seq<Piece>, team: Team, destination: Position): set<nat> {
    set j: nat | j < |pieces| && pieces[j].team == team && Meets(pieces[j], destination)
  }

  predicate Rewards(policy: CaptureExtraThrow, result: YutResult) {
    policy == Always
    || (policy == DoToGeolPlusSpecial
      && (result == Do || result == Gae || result == Geol || result == Backdo || result == Buk))
  }

  ghost predicate HasTwo(who: set<nat>) {
    exists a, b :: a in who && b in who && a != b
  }

  /** The stack that is reported. */
  ghost predicate StackListed(rules: Rules, stacked: seq<PieceID>, after: seq<Piece>, team: Team,
      destination: Position) {
    var stack := Met(after, team, destination);
    if rules.settings.stackingEnabled && HasTwo(stack) then Lists(stacked, after, stack) else stacked == []
  }

  /** What is reported about a move: who moved, from where to where, who was captured, which stack stands
      on the destination now, whether the match is over, and whether the capture earns a throw. */
  ghost predicate Reports(rules: Rules, before: GameState, i: nat, movers: set<nat>, destination: Position,
    previous: SpaceID, result: YutResult, after: GameState, o: MoveOutcome)
    requires i < |before.pieces|
  {
    var team := before.pieces[i].team;
    && o.from == before.pieces[i].space && o.to == destination.space && o.actualPrevious == previous
    && Lists(o.moved, before.pieces, movers)
    && Lists(o.captured, before.pieces, Met(before.pieces, Opponent(team), destination))
    && StackListed(rules, o.stacked, after.pieces, team, destination)
    && (o.matchEnded <==> forall j :: 0 <= j < |after.pieces| && after.pieces[j].team == team ==>
      after.pieces[j].state == Finished)
    && o.winner == after.winner == (if o.matchEnded then Some(team) else None)
    && (o.captureExtraThrow <==>
      Met(before.pieces, Opponent(team), destination) != {} && !o.matchEnded
      && Rewards(rules.settings.captureExtraThrow, result))
  }

  // ----- The engine's selections -----

  lemma {:induction false} IndicesAscend(pieces: seq<Piece>, team: Team, state: PieceState, space: SpaceID, n: nat)
    requires n <= |pieces|
    ensures Ascending(IndicesBelow(pieces, team, state, space, n))
  {
    if n > 0 {
      IndicesAscend(pieces, team, state, space, n - 1);
      var rest := IndicesBelow(pieces, team, state, space, n - 1);
      assert forall k :: 0 <= k < |rest| ==> rest[k] in rest;
    }
  }

  lemma {:induction false} IDsByIndex(pieces: seq<Piece>, indices: seq<nat>)
    requires IndicesValid(pieces, indices)
    ensures |IDsOf(pieces, indices)| == |indices|
    ensures forall k :: 0 <= k < |indices| ==> IDsOf(pieces, indices)[k] == pieces[indices[k]].id
  {
    if indices != [] {
      IDsByIndex(pieces, indices[1..]);
    }
  }

  lemma IDsList(pieces: seq<Piece>, indices: seq<nat>, who: set<nat>)
    requires IndicesValid(pieces, indices) && Ascending(indices) && forall j :: j in indices <==> j in who
    ensures Lists(IDsOf(pieces, indices), pieces, who)
  {
    IDsByIndex(pieces, indices);
    assert ListedBy(IDsOf(pieces, indices), pieces, who, indices);
  }

  /** The engine's moving group is the piece's companions, in order. */
  lemma GroupMoves(rules: Rules, pieces: seq<Piece>, i: nat)
    requires i < |pieces| && pieces[i].state != Finished
    ensures Ascending(MovingIndices(rules, pieces, i))
    ensures forall j :: j in MovingIndices(rules, pieces, i) <==> j in Movers(rules, pieces, i)
  {
    var p := pieces[i];
    IndicesAscend(pieces, p.team, p.state, p.space, |pieces|);
  }

  lemma StandingListed(pieces: seq<Piece>, team: Team, destination: Position)
    requires destination.state != Finished
    ensures Lists(IDsOf(pieces, IndicesAt(pieces, team, destination.state, destination.space)), pieces,
      Met(pieces, team, destination))
  {
    hide IDsOf, Lists;
    IndicesAscend(pieces, team, destination.state, destination.space, |pieces|);
    IDsList(pieces, IndicesAt(pieces, team, destination.state, destination.space), Met(pieces, team, destination));
  }

  lemma NobodyListed(pieces: seq<Piece>)
    ensures Lists([], pieces, {}) && IDsOf(pieces, []) == []
  {
    IDsList(pieces, [], {});
  }

  /** The engine's resolution of a piece and the movers. */
  ghost predicate ResolvesFor(pieces: seq<Piece>, team: Team, i: nat, movers: set<nat>, plan: Resolution) {
    && i < |pieces| && i in movers && IndicesValid(pieces, plan.moving) && Ascending(plan.moving)
    && (forall j :: j in plan.moving <==> j in movers)
    && (forall j :: j in movers ==> j < |pieces| && pieces[j].team == team && pieces[j].state != Finished)
    && plan.state != Waiting && (plan.state == Finished ==> plan.space == NoSpace && plan.previous == NoSpace)
  }

  lemma ResolutionLands(rules: Rules, pieces: seq<Piece>, team: Team, i: nat, movers: set<nat>, plan: Resolution)
    requires ResolvesFor(pieces, team, i, movers, plan)
    ensures Lands(rules, pieces, team, movers, Position(plan.state, plan.space), plan.previous,
      Relocate(rules, pieces, team, plan))
  {
    hide Relocate;
    forall j: nat | j < |pieces|
      ensures Relocate(rules, pieces, team, plan)[j] ==
        Fate(rules, pieces, team, movers, Position(plan.state, plan.space), plan.previous, j)
    {
      RelocateEffect(rules, pieces, team, plan, j);
    }
  }

  /** The stack on the destination is the moved group and the allies it joined. */
  lemma StackIsGroup(rules: Rules, pieces: seq<Piece>, team: Team, i: nat, movers: set<nat>, plan: Resolution, j: nat)
    requires ResolvesFor(pieces, team, i, movers, plan) && rules.settings.stackingEnabled
    requires plan.state != Finished && j < |pieces|
    ensures j in Met(Relocate(rules, pieces, team, plan), team, Position(plan.state, plan.space)) <==>
      j in plan.moving || j in Allies(rules, pieces, team, plan)
  {
    hide Relocate;
    RelocateEffect(rules, pieces, team, plan, j);
  }

  lemma StackHasTwo(rules: Rules, pieces: seq<Piece>, team: Team, i: nat, movers: set<nat>, plan: Resolution)
    requires ResolvesFor(pieces, team, i, movers, plan) && rules.settings.stackingEnabled && plan.state != Finished
    ensures HasTwo(Met(Relocate(rules, pieces, team, plan), team, Position(plan.state, plan.space))) <==>
      |plan.moving| + |Allies(rules, pieces, team, plan)| > 1
  {
    var allies := Allies(rules, pieces, team, plan);
    var stack := Met(Relocate(rules, pieces, team, plan), team, Position(plan.state, plan.space));
    hide Relocate, Met, Allies;
    forall j: nat | j < |pieces|
      ensures j in stack <==> j in plan.moving || j in allies
    {
      StackIsGroup(rules, pieces, team, i, movers, plan, j);
    }
    MetBelow(Relocate(rules, pieces, team, plan), team, Position(plan.state, plan.space));
    AlliesApart(rules, pieces, team, plan);
    assert i in plan.moving;
    assert plan.moving[0] in plan.moving;
    if |plan.moving| > 1 {
      assert plan.moving[1] in plan.moving && plan.moving[0] != plan.moving[1];
    } else if allies != [] {
      assert allies[0] in allies && plan.moving[0] != allies[0];
    } else {
      assert forall j :: j in stack ==> j == plan.moving[0];
    }
  }

  lemma MetBelow(pieces: seq<Piece>, team: Team, destination: Position)
    ensures forall j :: j in Met(pieces, team, destination) ==> j < |pieces|
  {
  }

  lemma AlliesApart(rules: Rules, pieces: seq<Piece>, team: Team, plan: Resolution)
    ensures forall j :: j in Allies(rules, pieces, team, plan) ==> j !in plan.moving && j < |pieces|
  {
  }

  lemma CapturedListed(pieces: seq<Piece>, team: Team, plan: Resolution)
    ensures var met := Met(pieces, Opponent(team), Position(plan.state, plan.space));
      && Lists(IDsOf(pieces, Captured(pieces, team, plan)), pieces, met)
      && (met != {} <==> Captured(pieces, team, plan) != [])
  {
    hide Lists, IDsOf;
    var destination := Position(plan.state, plan.space);
    var captured := Captured(pieces, team, plan);
    if plan.state == Finished {
      NobodyListed(pieces);
      assert Met(pieces, Opponent(team), destination) == {};
    } else {
      StandingListed(pieces, Opponent(team), destination);
      assert captured != [] ==> captured[0] in captured && captured[0] in Met(pieces, Opponent(team), destination);
      assert forall j :: j in Met(pieces, Opponent(team), destination) ==> j in captured;
    }
  }

  lemma StackReported(rules: Rules, game: GameState, team: Team, i: nat, movers: set<nat>, result: YutResult,
      plan: Resolution)
    requires ResolvesFor(game.pieces, team, i, movers, plan)
    ensures var (after, o) := ApplyResolution(rules, game, team, i, result, plan);
      StackListed(rules, o.stacked, after.pieces, team, Position(plan.state, plan.space))
  {
    hide Relocate, Lists, IDsOf, Allies, IndicesAt, Captured, AllFinished;
    var destination := Position(plan.state, plan.space);
    var after := ApplyResolution(rules, game, team, i, result, plan).0;
    if plan.state == Finished {
      assert Met(after.pieces, team, destination) == {};
    } else if rules.settings.stackingEnabled {
      StandingListed(after.pieces, team, destination);
      hide Met, HasTwo, ResolvesFor;
      StackHasTwo(rules, game.pieces, team, i, movers, plan);
    }
  }

  lemma ResolutionReports(rules: Rules, game: GameState, team: Team, i: nat, movers: set<nat>, result: YutResult,
      plan: Resolution)
    requires ResolvesFor(game.pieces, team, i, movers, plan) && game.winner == None
    ensures var (after, o) := ApplyResolution(rules, game, team, i, result, plan);
      && Reports(rules, game, i, movers, Position(plan.state, plan.space), plan.previous, result, after, o)
      && o.route == plan.route && o.kind == plan.kind
  {
    hide Relocate, Lists, IDsOf, Met, Allies, IndicesAt, Captured, HasTwo, Ascending;
    CapturedListed(game.pieces, team, plan);
    IDsList(game.pieces, plan.moving, movers);
    StackReported(rules, game, team, i, movers, result, plan);
  }

  /** A decision about one piece resolves for it and its companions. */
  lemma GroupResolves(rules: Rules, pieces: seq<Piece>, i: nat, plan: Resolution)
    requires i < |pieces| && pieces[i].state != Finished && plan.moving == MovingIndices(rules, pieces, i)
    requires plan.state != Waiting && (plan.state == Finished ==> plan.space == NoSpace && plan.previous == NoSpace)
    ensures ResolvesFor(pieces, pieces[i].team, i, Movers(rules, pieces, i), plan)
  {
    hide MovingIndices, Ascending;
    GroupMoves(rules, pieces, i);
    MoversAlike(rules, pieces, i);
  }

  lemma MoversAlike(rules: Rules, pieces: seq<Piece>, i: nat)
    requires i < |pieces|
    ensures i in Movers(rules, pieces, i)
    ensures forall j :: j in Movers(rules, pieces, i) ==>
      j < |pieces| && pieces[j].team == pieces[i].team && pieces[j].state == pieces[i].state
  {
  }

  // ----- Ordinary moves -----

  /** The space a piece sets out from. */
  function SetsOut(g: Graph, p: Piece): SpaceID {
    if p.state == Waiting then g.start else p.space
  }

  /** The player is asked for a route exactly where a selectable choice opens the move. */
  predicate RouteAsked(rules: Rules, p: Piece) {
    && rules.settings.shortcutPolicy == Selectable && p.state != HomeCheckpoint
    && SetsOut(rules.graph, p) in rules.graph.routeChoices
  }

  /** The route a move is on: the one asked for, the forced shortcut, or the normal one. */
  function RouteOf(rules: Rules, p: Piece, route: Option<Route>): Route {
    if route.Some? then route.value
    else if p.state != HomeCheckpoint && SetsOut(rules.graph, p) in rules.graph.routeChoices then Shortcut
    else Normal
  }

  /** The plan of a move: the walk of its length that takes the branches of its route and stops at home. */
  ghost predicate IsPlan(rules: Rules, p: Piece, spaces: nat, route: Option<Route>, plan: ForwardPlan) {
    && plan.route == RouteOf(rules, p, route)
    && if p.state == HomeCheckpoint
      then plan.destination == Position(Finished, NoSpace) && plan.actualPrevious == NoSpace
       else
         && PlanShape(rules.graph, rules.settings.shortcutPolicy, SetsOut(rules.graph, p), spaces, plan)
         && TakesBranches(rules.graph, rules.settings.shortcutPolicy, SetsOut(rules.graph, p), plan.route,
           plan.traversed)
  }

  ghost predicate CanMove(rules: Rules, game: GameState, team: Team, id: PieceID, result: YutResult,
      route: Option<Route>) {
    && game.winner == None && OrdinarySpaces(result).Some?
    && exists i :: 0 <= i < |game.pieces| && Movable(rules, game.pieces[i], team, id, route)
  }

  predicate Movable(rules: Rules, p: Piece, team: Team, id: PieceID, route: Option<Route>) {
    p.id == id && p.team == team && p.state != Finished && (route.Some? <==> RouteAsked(rules, p))
  }

  /** The decision of an ordinary move: accepted exactly for an unfinished piece of the team with a route
      exactly where one is asked for, and then for the plan of that route. */
  lemma OrdinaryDecision(rules: Rules, game: GameState, team: Team, id: PieceID, result: YutResult,
      route: Option<Route>)
    requires GameInv(rules, game)
    ensures var r := DecideOrdinary(rules, game, team, id, result, route);
      && (r.Ok? <==> CanMove(rules, game, team, id, result, route))
      && (r.Ok? ==>
        var i := r.value.selected;
        && game.pieces[i].id == id && game.pieces[i].team == team
          && ResolvesFor(game.pieces, team, i, Movers(rules, game.pieces, i), r.value.plan)
        && exists plan :: DecidesOn(rules, game, i, result, route, plan, r.value.plan))
  {
    hide GameInv, OrdinaryPlans, SelectPlan, MovingIndices;
    if DecideOrdinary(rules, game, team, id, result, route).Ok? {
      OpenAndOwned(rules, game, team, id, result);
      DecisionFor(rules, game, OwnedIndex(game.pieces, team, id).value, result, route);
    }
    if CanMove(rules, game, team, id, result, route) {
      var i :| 0 <= i < |game.pieces| && Movable(rules, game.pieces[i], team, id, route);
      DecisionFor(rules, game, i, result, route);
    }
  }

  /** The relocation is that of the plan. */
  ghost predicate DecidesOn(rules: Rules, game: GameState, i: nat, result: YutResult, route: Option<Route>,
    plan: ForwardPlan, move: Resolution)
    requires i < |game.pieces| && OrdinarySpaces(result).Some?
  {
    && IsPlan(rules, game.pieces[i], OrdinarySpaces(result).value, route, plan)
    && Position(move.state, move.space) == plan.destination && move.previous == plan.actualPrevious
    && move.route == Some(plan.route) && move.kind == (if plan.destination.state == Finished then Finish else Forward)
  }

  lemma OpenAndOwned(rules: Rules, game: GameState, team: Team, id: PieceID, result: YutResult)
    requires GameInv(rules, game) && OrdinaryPlans(rules, game, team, id, result).Ok?
    ensures game.winner == None && OwnedIndex(game.pieces, team, id).Ok? && OrdinarySpaces(result).Some?
    ensures game.pieces[OwnedIndex(game.pieces, team, id).value].state != Finished
  {
    hide GameInv, ForwardPlans, PlansAccepted, MovingIndices;
    FinishedNeverPlans(rules, game, team, id, result);
  }

  lemma DecisionFor(rules: Rules, game: GameState, i: nat, result: YutResult, route: Option<Route>)
    requires GameInv(rules, game) && game.winner == None && i < |game.pieces| && game.pieces[i].state != Finished
    requires OrdinarySpaces(result).Some?
    ensures var r := DecideOrdinary(rules, game, game.pieces[i].team, game.pieces[i].id, result, route);
      && OwnedIndex(game.pieces, game.pieces[i].team, game.pieces[i].id) == Ok(i)
      && (r.Ok? <==> (route.Some? <==> RouteAsked(rules, game.pieces[i])))
      && (r.Ok? ==>
        && r.value.selected == i
        && ResolvesFor(game.pieces, game.pieces[i].team, i, Movers(rules, game.pieces, i), r.value.plan)
        && exists plan :: DecidesOn(rules, game, i, result, route, plan, r.value.plan))
  {
    hide GameInv, ForwardPlans, MovingIndices, ResolutionOk, PlanAccepted, PlanShape, TakesBranches;
    var p := game.pieces[i];
    var spaces := OrdinarySpaces(result).value;
    OwnedByIndex(rules, game, i);
    OrdinaryAlwaysPlans(rules, game, p.team, p.id, result);
    PlansOfPiece(rules, game, i, spaces);
    var plans := ForwardPlans(rules.graph, p.At(), spaces, rules.settings.shortcutPolicy).value;
    assert OrdinaryPlans(rules, game, p.team, p.id, result).value.plans == plans;
    if route.Some? <==> RouteAsked(rules, p) {
      var k := if route == Some(Shortcut) then 1 else 0;
      GroupResolves(rules, game.pieces, i,
        DecideOrdinary(rules, game, p.team, p.id, result, route).value.plan);
      assert DecidesOn(rules, game, i, result, route, plans[k],
        DecideOrdinary(rules, game, p.team, p.id, result, route).value.plan);
    }
  }

  /** The plans of a piece, one for every route it may be asked for. */
  lemma PlansOfPiece(rules: Rules, game: GameState, i: nat, spaces: nat)
    requires GameInv(rules, game) && i < |game.pieces| && game.pieces[i].state != Finished && spaces > 0
    ensures var r := ForwardPlans(rules.graph, game.pieces[i].At(), spaces, rules.settings.shortcutPolicy);
      && r.Ok?
      && (if RouteAsked(rules, game.pieces[i])
          then |r.value| == 2 && IsPlan(rules, game.pieces[i], spaces, Some(Normal), r.value[0])
            && IsPlan(rules, game.pieces[i], spaces, Some(Shortcut), r.value[1])
          else |r.value| == 1 && IsPlan(rules, game.pieces[i], spaces, None, r.value[0]))
      && forall k :: 0 <= k < |r.value| ==>
        && r.value[k].destination.state != Waiting
        && (r.value[k].destination.state == Finished ==>
          r.value[k].destination.space == NoSpace && r.value[k].actualPrevious == NoSpace)
  {
    hide ValidGraph, Apart, SharedHistory, Roster, WinnerOk, Graph.Spaces, ForwardPlans, TakesBranches;
    var p := game.pieces[i];
    assert PieceOk(rules.graph, p);
    ForwardPlansTotal(rules.graph, p.At(), spaces, rules.settings.shortcutPolicy);
    if p.state != HomeCheckpoint {
      PlansTakeTheirRoutes(rules.graph, p.At(), spaces, rules.settings.shortcutPolicy);
    }
  }

  /** An ordinary move, from the places of the pieces alone: it is accepted exactly when it may be; its piece
      and companions go where the plan of the route leads, opponents met there go back to waiting, allies met
      there join under stacking, and nobody else moves. */
  lemma OrdinaryExact(rules: Rules, game: GameState, team: Team, id: PieceID, result: YutResult, route: Option<Route>)
    requires GameInv(rules, game)
    ensures var r := ApplyOrdinary(rules, game, team, id, result, route);
      && (r.Ok? <==> CanMove(rules, game, team, id, result, route))
      && (r.Ok? ==>
        var (after, o) := r.value;
        exists i: nat, plan ::
          && i < |game.pieces| && game.pieces[i].id == id && game.pieces[i].team == team
          && IsPlan(rules, game.pieces[i], OrdinarySpaces(result).value, route, plan)
          && Lands(rules, game.pieces, team, Movers(rules, game.pieces, i), plan.destination, plan.actualPrevious,
            after.pieces)
          && Reports(rules, game, i, Movers(rules, game.pieces, i), plan.destination, plan.actualPrevious, result,
            after, o)
          && o.route == Some(plan.route) && o.kind == if plan.destination.state == Finished then Finish else Forward)
  {
    hide GameInv, DecideOrdinary, IsPlan, Lands, Reports, ApplyResolution, CanMove;
    OrdinaryDecision(rules, game, team, id, result, route);
    if DecideOrdinary(rules, game, team, id, result, route).Ok? {
      var decision := DecideOrdinary(rules, game, team, id, result, route).value;
      OpenToMove(rules, game, team, id, result, route);
      var plan :| DecidesOn(rules, game, decision.selected, result, route, plan, decision.plan);
      var movers := Movers(rules, game.pieces, decision.selected);
      ResolutionLands(rules, game.pieces, team, decision.selected, movers, decision.plan);
      ResolutionReports(rules, game, team, decision.selected, movers, result, decision.plan);
      AppliesRelocation(rules, game, team, decision.selected, result, decision.plan);
    }
  }

  lemma OpenToMove(rules: Rules, game: GameState, team: Team, id: PieceID, result: YutResult, route: Option<Route>)
    requires CanMove(rules, game, team, id, result, route)
    ensures game.winner == None && OrdinarySpaces(result).Some?
  {
  }

  lemma AppliesRelocation(rules: Rules, game: GameState, team: Team, i: nat, result: YutResult, plan: Resolution)
    requires i < |game.pieces| && IndicesValid(game.pieces, plan.moving)
    ensures ApplyResolution(rules, game, team, i, result, plan).0.pieces == Relocate(rules, game.pieces, team, plan)
    ensures ApplyResolution(rules, game, team, i, result, plan).0.bukDestination == game.bukDestination
  {
    hide Relocate, IDsOf, IndicesAt, Allies, Captured;
  }

  // ----- Backdo -----

  function StepBack(g: Graph, previous: SpaceID): Position {
    Position(if previous == g.home then HomeCheckpoint else OnBoard, previous)
  }

  ghost predicate CanStepBack(game: GameState, team: Team, id: PieceID) {
    && game.winner == None
    && exists i :: 0 <= i < |game.pieces| && HasHistory(game.pieces[i], team, id)
  }

  predicate HasHistory(p: Piece, team: Team, id: PieceID) {
    p.id == id && p.team == team && p.Active() && p.previous != NoSpace
  }

  lemma BackdoDecision(rules: Rules, game: GameState, i: nat)
    requires GameInv(rules, game) && game.winner == None && i < |game.pieces|
    ensures var p := game.pieces[i];
      var r := DecideBackdo(rules, game, p.team, p.id);
      && OwnedIndex(game.pieces, p.team, p.id) == Ok(i)
      && (r.Ok? <==> p.Active() && p.previous != NoSpace)
      && (r.Ok? ==>
        && r.value.selected == i
        && ResolvesFor(game.pieces, game.pieces[i].team, i, Movers(rules, game.pieces, i), r.value.plan)
        && Position(r.value.plan.state, r.value.plan.space) == StepBack(rules.graph, p.previous)
        && r.value.plan.previous == p.space && r.value.plan.route == None && r.value.plan.kind == BackdoMove)
  {
    hide Apart, SharedHistory, Roster, WinnerOk, Graph.Spaces, ValidGraph, MovingIndices;
    OwnedByIndex(rules, game, i);
    BackdoExact(rules, game, game.pieces[i].team, game.pieces[i].id);
    if DecideBackdo(rules, game, game.pieces[i].team, game.pieces[i].id).Ok? {
      GroupResolves(rules, game.pieces, i,
        DecideBackdo(rules, game, game.pieces[i].team, game.pieces[i].id).value.plan);
    }
  }

  /** A Backdo, from the places of the pieces alone: it is accepted exactly for a piece on the board with
      recorded history, which goes back there with its companions and records the space it left. */
  lemma BackdoMovesExactly(rules: Rules, game: GameState, team: Team, id: PieceID)
    requires GameInv(rules, game)
    ensures var r := ApplyBackdo(rules, game, team, id);
      && (r.Ok? <==> CanStepBack(game, team, id))
      && (r.Ok? ==>
        var (after, o) := r.value;
        exists i: nat ::
          && i < |game.pieces| && game.pieces[i].id == id && game.pieces[i].team == team
          && Lands(rules, game.pieces, team, Movers(rules, game.pieces, i),
            StepBack(rules.graph, game.pieces[i].previous), game.pieces[i].space, after.pieces)
          && Reports(rules, game, i, Movers(rules, game.pieces, i),
            StepBack(rules.graph, game.pieces[i].previous), game.pieces[i].space, Backdo, after, o)
          && o.route == None && o.kind == BackdoMove)
  {
    hide GameInv, DecideBackdo, Lands, Reports, ApplyResolution;
    if CanStepBack(game, team, id) {
      var i :| 0 <= i < |game.pieces| && HasHistory(game.pieces[i], team, id);
      BackdoDecision(rules, game, i);
    }
    if DecideBackdo(rules, game, team, id).Ok? {
      BackdoOpen(rules, game, team, id);
      var i := OwnedIndex(game.pieces, team, id).value;
      BackdoDecision(rules, game, i);
      var plan := DecideBackdo(rules, game, team, id).value.plan;
      var movers := Movers(rules, game.pieces, i);
      ResolutionLands(rules, game.pieces, team, i, movers, plan);
      ResolutionReports(rules, game, team, i, movers, Backdo, plan);
      AppliesRelocation(rules, game, team, i, Backdo, plan);
    }
  }

  lemma BackdoOpen(rules: Rules, game: GameState, team: Team, id: PieceID)
    requires DecideBackdo(rules, game, team, id).Ok?
    ensures game.winner == None && OwnedIndex(game.pieces, team, id).Ok?
  {
  }

  // ----- Why a move is refused -----

  ghost predicate Known(game: GameState, id: PieceID) {
    exists i :: 0 <= i < |game.pieces| && game.pieces[i].id == id
  }

  ghost predicate Owned(game: GameState, team: Team, id: PieceID) {
    exists i :: 0 <= i < |game.pieces| && game.pieces[i].id == id && game.pieces[i].team == team
  }

  lemma OwnerTold(rules: Rules, game: GameState, team: Team, id: PieceID)
    requires GameInv(rules, game)
    ensures OwnedIndex(game.pieces, team, id).Ok? <==> Owned(game, team, id)
    ensures OwnedIndex(game.pieces, team, id) == Err(UnknownPiece) <==> !Known(game, id)
    ensures OwnedIndex(game.pieces, team, id) == Err(PieceNotOwned) <==> Known(game, id) && !Owned(game, team, id)
  {
    hide PiecesOk, Apart, SharedHistory, WinnerOk, RulesOk;
    var k := PieceIndex(game.pieces, id);
    if i :| 0 <= i < |game.pieces| && game.pieces[i].id == id {
      OwnedByIndex(rules, game, i);
      assert k == i;
    }
  }

  /** The reason an ordinary move is refused, the first that applies. */
  ghost function OrdinaryRefusal(game: GameState, team: Team, id: PieceID, result: YutResult,
      route: Option<Route>): GameError {
    if game.winner.Some? then MatchEnded
    else if !Known(game, id) then UnknownPiece
    else if !Owned(game, team, id) then PieceNotOwned
    else if OrdinarySpaces(result).None? then NotOrdinaryResult
    else if exists i :: 0 <= i < |game.pieces| && game.pieces[i].id == id && game.pieces[i].state == Finished then
      Planning(ForwardMovementUnavailable)
    else if route.Some? then RouteNotAllowed
    else RouteRequired
  }

  lemma OrdinaryRefused(rules: Rules, game: GameState, team: Team, id: PieceID, result: YutResult, route: Option<Route>)
    requires GameInv(rules, game) && ApplyOrdinary(rules, game, team, id, result, route).Err?
    ensures ApplyOrdinary(rules, game, team, id, result, route).error == OrdinaryRefusal(game, team, id, result, route)
  {
    hide GameInv, ForwardPlans, MovingIndices, PlansAccepted;
    OwnerTold(rules, game, team, id);
    if game.winner == None && OwnedIndex(game.pieces, team, id).Ok? && OrdinarySpaces(result).Some? {
      var i := OwnedIndex(game.pieces, team, id).value;
      OnlyOne(rules, game, i);
      if game.pieces[i].state == Finished {
        FinishedRefused(rules, game, i, OrdinarySpaces(result).value);
      } else {
        OrdinaryAlwaysPlans(rules, game, team, id, result);
      }
    }
  }

  lemma OnlyOne(rules: Rules, game: GameState, i: nat)
    requires GameInv(rules, game) && i < |game.pieces|
    ensures forall j :: 0 <= j < |game.pieces| && game.pieces[j].id == game.pieces[i].id ==> j == i
  {
    hide PiecesOk, Apart, SharedHistory, WinnerOk, RulesOk;
  }

  lemma FinishedRefused(rules: Rules, game: GameState, i: nat, spaces: nat)
    requires GameInv(rules, game) && i < |game.pieces| && game.pieces[i].state == Finished && spaces > 0
    ensures ForwardPlans(rules.graph, game.pieces[i].At(), spaces, rules.settings.shortcutPolicy) ==
      Err(ForwardMovementUnavailable)
  {
    hide RulesOk, Apart, SharedHistory, Roster, WinnerOk;
    assert PieceOk(rules.graph, game.pieces[i]);
  }

  /** The reason a Backdo is refused. */
  lemma BackdoRefused(rules: Rules, game: GameState, team: Team, id: PieceID)
    requires GameInv(rules, game) && ApplyBackdo(rules, game, team, id).Err?
    ensures ApplyBackdo(rules, game, team, id).error ==
      if game.winner.Some? then MatchEnded
      else if !Known(game, id) then UnknownPiece
      else if !Owned(game, team, id) then PieceNotOwned
      else if exists i :: 0 <= i < |game.pieces| && game.pieces[i].id == id && game.pieces[i].Active() then
        Planning(BackdoHistoryUnavailable)
      else Planning(BackdoMovementUnavailable)
  {
    hide GameInv, DecideBackdo;
    OwnerTold(rules, game, team, id);
    BackdoEnded(rules, game, team, id);
    if game.winner == None && OwnedIndex(game.pieces, team, id).Ok? {
      var i := OwnedIndex(game.pieces, team, id).value;
      OnlyOne(rules, game, i);
      BackdoExact(rules, game, team, id);
      HistoryRefused(rules, game, i);
    }
  }

  lemma BackdoEnded(rules: Rules, game: GameState, team: Team, id: PieceID)
    ensures game.winner.Some? ==> DecideBackdo(rules, game, team, id) == Err(MatchEnded)
    ensures game.winner == None && OwnedIndex(game.pieces, team, id).Err? ==>
      DecideBackdo(rules, game, team, id) == Err(OwnedIndex(game.pieces, team, id).error)
  {
  }

  lemma HistoryRefused(rules: Rules, game: GameState, i: nat)
    requires GameInv(rules, game) && game.winner == None && i < |game.pieces|
    requires OwnedIndex(game.pieces, game.pieces[i].team, game.pieces[i].id) == Ok(i)
    ensures var r := DecideBackdo(rules, game, game.pieces[i].team, game.pieces[i].id);
      var reason := if game.pieces[i].Active() then BackdoHistoryUnavailable else BackdoMovementUnavailable;
      r.Err? ==> r.error == Planning(reason)
  {
    hide Apart, SharedHistory, Roster, WinnerOk, ValidGraph;
    assert PieceOk(rules.graph, game.pieces[i]);
    BackdoExact(rules, game, game.pieces[i].team, game.pieces[i].id);
  }

  // ----- Who is touched -----

  /** Off the destination only the piece and its companions change; in particular a waiting piece that enters
      leaves every other waiting piece where it is. */
  lemma OnlyCompanionsMove(rules: Rules, pieces: seq<Piece>, i: nat, destination: Position, previous: SpaceID,
      after: seq<Piece>, j: nat)
    requires i < |pieces| && j < |pieces| && i != j
    requires Lands(rules, pieces, pieces[i].team, Movers(rules, pieces, i), destination, previous, after)
    requires pieces[j].team == pieces[i].team && !Meets(pieces[j], destination)
    ensures after[j] != pieces[j] ==>
      rules.settings.stackingEnabled && pieces[i].Active() && pieces[j].At() == pieces[i].At()
    ensures rules.settings.stackingEnabled && pieces[i].Active() && pieces[j].At() == pieces[i].At() ==>
      after[j].At() == after[i].At() == destination
    ensures pieces[i].state == Waiting ==> after[j] == pieces[j]
  {
  }
}
