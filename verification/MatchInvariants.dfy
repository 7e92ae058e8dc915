/** What every move keeps, and what it leaves alone. */
module MatchInvariants {
  import opened Domain
  import opened BoardGraph
  import opened BoardValidate
  import opened BoardForward
  import opened BoardTheorems
  import opened MatchRules

  /** Position fields match the piece state, and recorded history is another known space. */
  ghost predicate PieceOk(g: Graph, p: Piece) {
    && (p.state == Finished || ValidPosition(g, p.At()))
    && (p.state == Finished ==> p.space == NoSpace)
    && (!p.Active() ==> p.previous == NoSpace)
    && (p.Active() ==> p.previous == NoSpace || (p.previous in g.Spaces() && p.previous != p.space))
  }

  ghost predicate PiecesOk(g: Graph, pieces: seq<Piece>) {
    forall i :: 0 <= i < |pieces| ==> PieceOk(g, pieces[i])
  }

  /** No space holds pieces of both teams. */
  ghost predicate Apart(pieces: seq<Piece>) {
    forall i, j :: 0 <= i < |pieces| && 0 <= j < |pieces| && pieces[i].team != pieces[j].team
      && pieces[i].space != NoSpace
      ==> pieces[i].space != pieces[j].space
  }

  predicate Together(p: Piece, q: Piece) {
    p.team == q.team && p.space == q.space && p.space != NoSpace
  }

  /** Allies that share a space share their history. */
  ghost predicate SharedHistory(pieces: seq<Piece>) {
    forall i, j :: 0 <= i < |pieces| && 0 <= j < |pieces| && Together(pieces[i], pieces[j])
      ==> pieces[i].previous == pieces[j].previous
  }

  ghost predicate Roster(pieces: seq<Piece>) {
    && (forall i, j :: 0 <= i < j < |pieces| ==> pieces[i].id != pieces[j].id)
    && (exists i :: 0 <= i < |pieces| && pieces[i].team == TeamA)
    && (exists i :: 0 <= i < |pieces| && pieces[i].team == TeamB)
  }

  /** The winner is a team exactly when all of its pieces are finished. */
  ghost predicate WinnerOk(game: GameState) {
    forall t :: game.winner == Some(t) <==> AllFinished(game.pieces, t)
  }

  /** The board is validated, and a Buk, if enabled, has a destination away from home. */
  ghost predicate RulesOk(rules: Rules, destination: SpaceID) {
    && ValidGraph(rules.graph)
    && (rules.settings.bukModeEnabled ==> destination in rules.graph.Spaces() && destination != rules.graph.home)
  }

  ghost predicate GameInv(rules: Rules, game: GameState) {
    && RulesOk(rules, game.bukDestination)
    && Roster(game.pieces)
    && PiecesOk(rules.graph, game.pieces)
    && Apart(game.pieces)
    && (rules.settings.stackingEnabled ==> SharedHistory(game.pieces))
    && WinnerOk(game)
  }

  lemma InvPieces(rules: Rules, game: GameState)
    requires GameInv(rules, game)
    ensures PiecesOk(rules.graph, game.pieces)
  {
    hide ValidGraph, Roster, PiecesOk, Apart, WinnerOk, SharedHistory;
  }

  /** A relocation of unfinished pieces of one team to a proper destination. */
  ghost predicate ResolutionOk(g: Graph, pieces: seq<Piece>, team: Team, plan: Resolution) {
    && IndicesValid(pieces, plan.moving) && plan.moving != []
    && (forall i :: i in plan.moving ==> pieces[i].team == team && pieces[i].state != Finished)
    && plan.state != Waiting
    && (plan.state != Finished ==>
      && ValidPosition(g, Position(plan.state, plan.space)) && plan.space != NoSpace
      && (plan.previous == NoSpace || (plan.previous in g.Spaces() && plan.previous != plan.space)))
  }

  /** The piece stands on the destination of a relocation that stays on the board. */
  predicate AtDestination(p: Piece, plan: Resolution) {
    plan.state != Finished && p.state == plan.state && p.space == plan.space
  }

  predicate Relocates(rules: Rules, pieces: seq<Piece>, team: Team, plan: Resolution, i: nat)
    requires i < |pieces|
  {
    i in plan.moving || (rules.settings.stackingEnabled && pieces[i].team == team && AtDestination(pieces[i], plan))
  }

  /** What one relocation does to each piece: the moved and joined allies go to the destination,
      opponents met there go back to waiting, and every other piece is untouched. */
  lemma RelocateEffect(rules: Rules, pieces: seq<Piece>, team: Team, plan: Resolution, i: nat)
    requires i < |pieces|
    ensures Relocate(rules, pieces, team, plan)[i] ==
      if Relocates(rules, pieces, team, plan, i) then Relocated(pieces[i], plan)
      else if pieces[i].team != team && AtDestination(pieces[i], plan) then SentHome(pieces[i])
      else pieces[i]
  {
    assert (i in plan.moving + Allies(rules, pieces, team, plan)) <==>
      i in plan.moving || i in Allies(rules, pieces, team, plan);
  }

  lemma NoSpaceUnknown(g: Graph)
    requires ValidGraph(g)
    ensures NoSpace !in g.Spaces()
  {
    hide EdgesOk, ChoicesOk, ReachabilityOk, OuterRingOk, BukOk, EndpointsOk;
  }

  /** On a board position the state is determined by the space. */
  lemma StateFollowsSpace(g: Graph, p: Piece, plan: Resolution)
    requires PieceOk(g, p) && ValidPosition(g, Position(plan.state, plan.space)) && plan.state != Waiting
    requires plan.space != NoSpace && p.space == plan.space
    ensures p.state == plan.state
  {
    hide Graph.Spaces;
  }

  /** A relocation keeps every piece well placed, the teams apart, and allies' histories shared. */
  lemma RelocateKeeps(rules: Rules, pieces: seq<Piece>, team: Team, plan: Resolution)
    requires PiecesOk(rules.graph, pieces) && Apart(pieces) && Roster(pieces)
    requires rules.settings.stackingEnabled ==> SharedHistory(pieces)
    requires ResolutionOk(rules.graph, pieces, team, plan)
    ensures var after := Relocate(rules, pieces, team, plan);
      && PiecesOk(rules.graph, after) && Apart(after) && Roster(after)
      && (rules.settings.stackingEnabled ==> SharedHistory(after))
  {
    var after := Relocate(rules, pieces, team, plan);
    forall i | 0 <= i < |pieces|
      ensures PieceOk(rules.graph, after[i]) && after[i].id == pieces[i].id && after[i].team == pieces[i].team
    {
      RelocateEffect(rules, pieces, team, plan, i);
    }
    forall i, j | 0 <= i < |pieces| && 0 <= j < |pieces| && after[i].team != after[j].team && after[i].space != NoSpace
      ensures after[i].space != after[j].space
    {
      RelocateSeparates(rules, pieces, team, plan, i, j);
    }
    if rules.settings.stackingEnabled {
      forall i, j | 0 <= i < |pieces| && 0 <= j < |pieces| && Together(after[i], after[j])
        ensures after[i].previous == after[j].previous
      {
        RelocateShares(rules, pieces, team, plan, i, j);
      }
    }
  }

  lemma RelocateSeparates(rules: Rules, pieces: seq<Piece>, team: Team, plan: Resolution, i: nat, j: nat)
    requires PiecesOk(rules.graph, pieces) && Apart(pieces) && ResolutionOk(rules.graph, pieces, team, plan)
    requires i < |pieces| && j < |pieces| && pieces[i].team != pieces[j].team
    ensures var after := Relocate(rules, pieces, team, plan);
      after[i].space != NoSpace ==> after[i].space != after[j].space
  {
    RelocateEffect(rules, pieces, team, plan, i);
    RelocateEffect(rules, pieces, team, plan, j);
    hide Graph.Spaces, Relocate;
    var ours, theirs := if pieces[i].team == team then i else j, if pieces[i].team == team then j else i;
    assert theirs !in plan.moving;
    if plan.state != Finished && pieces[theirs].space == plan.space {
      StateFollowsSpace(rules.graph, pieces[theirs], plan);
    }
  }

  lemma RelocateShares(rules: Rules, pieces: seq<Piece>, team: Team, plan: Resolution, i: nat, j: nat)
    requires PiecesOk(rules.graph, pieces) && SharedHistory(pieces) && ResolutionOk(rules.graph, pieces, team, plan)
    requires rules.settings.stackingEnabled
    requires i < |pieces| && j < |pieces|
    ensures var after := Relocate(rules, pieces, team, plan);
      Together(after[i], after[j]) ==> after[i].previous == after[j].previous
  {
    RelocateEffect(rules, pieces, team, plan, i);
    RelocateEffect(rules, pieces, team, plan, j);
    hide Graph.Spaces, Relocate;
    if plan.state != Finished {
      if pieces[i].space == plan.space {
        StateFollowsSpace(rules.graph, pieces[i], plan);
      }
      if pieces[j].space == plan.space {
        StateFollowsSpace(rules.graph, pieces[j], plan);
      }
    }
  }

  /** Finished pieces stay finished, and only a finishing relocation finishes more. */
  lemma RelocateFinished(rules: Rules, pieces: seq<Piece>, team: Team, plan: Resolution, i: nat)
    requires ResolutionOk(rules.graph, pieces, team, plan) && i < |pieces|
    ensures var after := Relocate(rules, pieces, team, plan);
      after[i].state == Finished <==> pieces[i].state == Finished || (i in plan.moving && plan.state == Finished)
  {
    RelocateEffect(rules, pieces, team, plan, i);
  }

  /** The opponent of the moving team has an unfinished piece before and after. */
  lemma OpponentUnfinished(rules: Rules, pieces: seq<Piece>, team: Team, plan: Resolution)
    requires ResolutionOk(rules.graph, pieces, team, plan)
    requires !AllFinished(pieces, Opponent(team))
    ensures !AllFinished(Relocate(rules, pieces, team, plan), Opponent(team))
  {
    var after := Relocate(rules, pieces, team, plan);
    var k :| 0 <= k < |pieces| && pieces[k].team == Opponent(team) && pieces[k].state != Finished;
    RelocateEffect(rules, pieces, team, plan, k);
    RelocateFinished(rules, pieces, team, plan, k);
    assert after[k].team == Opponent(team) && after[k].state != Finished;
  }

  /** One accepted resolution keeps the whole match invariant. */
  lemma ResolutionKeepsInv(rules: Rules, game: GameState, team: Team, selected: nat, result: YutResult,
      plan: Resolution)
    requires GameInv(rules, game) && game.winner == None
    requires selected < |game.pieces| && ResolutionOk(rules.graph, game.pieces, team, plan)
    ensures var (after, outcome) := ApplyResolution(rules, game, team, selected, result, plan);
      && GameInv(rules, after)
      && !(outcome.captureExtraThrow && outcome.matchEnded)
      && (outcome.matchEnded <==> after.winner == Some(team)) && (after.winner.Some? ==> outcome.matchEnded)
  {
    hide Relocate, PiecesOk, RulesOk, Apart, SharedHistory, Roster, AllFinished, IndicesAt, IDsOf, Captured, Allies;
    RelocateKeeps(rules, game.pieces, team, plan);
    OpponentUnfinished(rules, game.pieces, team, plan);
    assert WinnerOk(game) && game.winner != Some(Opponent(team));
    var (after, outcome) := ApplyResolution(rules, game, team, selected, result, plan);
    assert after.pieces == Relocate(rules, game.pieces, team, plan);
    forall t: Team
      ensures after.winner == Some(t) <==> AllFinished(after.pieces, t)
    {
      assert t == team || t == Opponent(team);
    }
  }

  /** A relocation that stays on the board leaves its pieces unfinished, so it cannot win. */
  lemma StayingNeverEnds(rules: Rules, game: GameState, team: Team, selected: nat, result: YutResult, plan: Resolution)
    requires selected < |game.pieces| && IndicesValid(game.pieces, plan.moving) && plan.state != Finished
    requires selected in plan.moving && game.pieces[selected].team == team
    ensures var (after, outcome) := ApplyResolution(rules, game, team, selected, result, plan);
      !outcome.matchEnded && after.winner == game.winner
  {
    RelocateEffect(rules, game.pieces, team, plan, selected);
    hide Relocate, IndicesAt, IDsOf, Captured, Allies;
    assert Relocate(rules, game.pieces, team, plan)[selected].state == plan.state;
  }

  // ----- Ordinary moves -----

  /** A planned traversal names a proper relocation. */
  lemma ShapeIsResolution(g: Graph, policy: ShortcutPolicy, origin: SpaceID, spaces: nat, plan: ForwardPlan)
    requires ValidGraph(g) && origin in g.Spaces() && PlanShape(g, policy, origin, spaces, plan)
    ensures PlanAccepted(plan)
    ensures plan.destination.state != Waiting
    ensures plan.destination.state != Finished ==>
      && ValidPosition(g, plan.destination) && plan.destination.space != NoSpace
      && plan.actualPrevious in g.Spaces() && plan.actualPrevious != plan.destination.space
  {
    hide NodesOk, ChoicesOk, ReachabilityOk, OuterRingOk, BukOk;
    var t := plan.traversed;
    var path := [origin] + t;
    NoSpaceUnknown(g);
    forall k | 0 <= k < |t|
      ensures t[k] in g.Spaces() && path[k] in g.Spaces() && path[k] != t[k]
    {
      assert g.Step(Selectable, path[k], path[k + 1]);
      if k > 0 {
        assert g.Step(Selectable, path[k - 1], path[k - 1 + 1]);
      }
      AdjacentIsKnown(g, path[k], t[k]);
    }
  }

  /** On a validated board every unfinished piece of the moving team can use every ordinary throw:
      the planner's answer always passes the match engine's check, and has two routes exactly at a
      selectable choice. */
  lemma OrdinaryAlwaysPlans(rules: Rules, game: GameState, team: Team, id: PieceID, result: YutResult)
    requires GameInv(rules, game) && game.winner == None
    requires OwnedIndex(game.pieces, team, id).Ok?
    requires game.pieces[OwnedIndex(game.pieces, team, id).value].state != Finished
    requires OrdinarySpaces(result).Some?
    ensures OrdinaryPlans(rules, game, team, id, result).Ok?
    ensures forall plan :: plan in OrdinaryPlans(rules, game, team, id, result).value.plans ==>
      ResolutionOk(rules.graph, game.pieces, team,
        ForwardResolution(plan, OrdinaryPlans(rules, game, team, id, result).value.moving))
  {
    hide ValidGraph, PlanShape, Travel, Headings, Apart, SharedHistory, Roster, WinnerOk, PlanAccepted, Graph.Spaces;
    var selected := OwnedIndex(game.pieces, team, id).value;
    var p := game.pieces[selected];
    assert PieceOk(rules.graph, p);
    var policy := rules.settings.shortcutPolicy;
    var spaces := OrdinarySpaces(result).value;
    ForwardPlansTotal(rules.graph, p.At(), spaces, policy);
    var plans := ForwardPlans(rules.graph, p.At(), spaces, policy).value;
    forall plan | plan in plans
      ensures PlanAccepted(plan)
      ensures ResolutionOk(rules.graph, game.pieces, team,
        ForwardResolution(plan, MovingIndices(rules, game.pieces, selected)))
    {
      if p.state == HomeCheckpoint {
        FinishPlanAccepted(plan);
      } else {
        ShapeIsResolution(rules.graph, policy, ForwardOrigin(rules.graph, p.At()).value, spaces, plan);
      }
    }
  }

  lemma FinishPlanAccepted(plan: ForwardPlan)
    requires plan == ForwardPlan(Normal, Position(Finished, NoSpace), NoSpace, [])
    ensures PlanAccepted(plan)
  {
  }

  /** Every accepted ordinary decision is a proper relocation. */
  lemma OrdinaryIsResolution(rules: Rules, game: GameState, team: Team, id: PieceID, result: YutResult,
      route: Option<Route>)
    requires GameInv(rules, game) && DecideOrdinary(rules, game, team, id, result, route).Ok?
    ensures game.winner == None
    ensures ResolutionOk(rules.graph, game.pieces, team,
      DecideOrdinary(rules, game, team, id, result, route).value.plan)
  {
    hide GameInv, PlanAccepted, ResolutionOk, ForwardPlans, MovingIndices;
    FinishedNeverPlans(rules, game, team, id, result);
    OrdinaryAlwaysPlans(rules, game, team, id, result);
  }

  lemma FinishedNeverPlans(rules: Rules, game: GameState, team: Team, id: PieceID, result: YutResult)
    requires GameInv(rules, game)
    ensures OrdinaryPlans(rules, game, team, id, result).Ok? ==>
      && OwnedIndex(game.pieces, team, id).Ok? && OrdinarySpaces(result).Some?
      && game.pieces[OwnedIndex(game.pieces, team, id).value].state != Finished
  {
    hide ValidGraph, Apart, SharedHistory, Roster, WinnerOk, PlansAccepted, Plans, Headings;
    if OrdinaryPlans(rules, game, team, id, result).Ok? {
      assert PieceOk(rules.graph, game.pieces[OwnedIndex(game.pieces, team, id).value]);
    }
  }

  // ----- Backdo moves -----

  /** A Backdo is available exactly for an owned piece on the board that has a recorded history,
      and it is then a proper relocation. */
  lemma BackdoExact(rules: Rules, game: GameState, team: Team, id: PieceID)
    requires GameInv(rules, game) && game.winner == None
    requires OwnedIndex(game.pieces, team, id).Ok?
    ensures var p := game.pieces[OwnedIndex(game.pieces, team, id).value];
      var r := DecideBackdo(rules, game, team, id);
      && (r.Ok? <==> p.Active() && p.previous != NoSpace)
      && (r.Ok? ==> ResolutionOk(rules.graph, game.pieces, team, r.value.plan))
      && (r.Err? ==> r.error == Planning(BackdoMovementUnavailable) || r.error == Planning(BackdoHistoryUnavailable))
  {
    hide Apart, SharedHistory, Roster, WinnerOk, Graph.Spaces, NodesOk, EdgesOk, ChoicesOk, ReachabilityOk,
      OuterRingOk, BukOk;
    var p := game.pieces[OwnedIndex(game.pieces, team, id).value];
    assert PieceOk(rules.graph, p);
    NoSpaceUnknown(rules.graph);
  }
}
