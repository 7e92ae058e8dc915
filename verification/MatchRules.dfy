/** Piece movement as a function of the match state: moving groups, captures, stacking, victory. */
module MatchRules {
  import opened Domain
  import opened BoardGraph
  import opened BoardSearch
  import opened BoardForward

  type PieceID = nat

  datatype Piece = Piece(id: PieceID, team: Team, state: PieceState, space: SpaceID, previous: SpaceID) {
    function At(): Position {
      Position(state, space)
    }

    predicate Active() {
      state == OnBoard || state == HomeCheckpoint
    }

    predicate Stands(team: Team, state: PieceState, space: SpaceID) {
      this.team == team && this.state == state && this.space == space
    }
  }

  datatype MovementKind = Forward | BackdoMove | BukMove | Finish

  datatype GameError =
    | MatchEnded | UnknownPiece | PieceNotOwned | NotOrdinaryResult
    | Planning(board: BoardError) | InvalidForwardPlan | InvalidBackdoPlan
    | RouteNotAllowed | RouteRequired
    | BukModeDisabled | InvalidBukPlanner | RandomOutOfRange

  /** The immutable context of a match. */
  datatype Rules = Rules(graph: Graph, settings: Settings)

  datatype GameState = GameState(pieces: seq<Piece>, winner: Option<Team>, bukDestination: SpaceID)

  datatype MoveOutcome = MoveOutcome(
    route: Option<Route>, kind: MovementKind,
    from: SpaceID, to: SpaceID, actualPrevious: SpaceID,
    moved: seq<PieceID>, stacked: seq<PieceID>, captured: seq<PieceID>,
    captureExtraThrow: bool, matchEnded: bool, winner: Option<Team>)

  /** One decided relocation of the pieces at `moving`. */
  datatype Resolution = Resolution(
    route: Option<Route>, kind: MovementKind,
    state: PieceState, space: SpaceID, previous: SpaceID, moving: seq<nat>)

  // ----- Selections of pieces, in slice order -----

  predicate IndicesValid(pieces: seq<Piece>, indices: seq<nat>) {
    forall k :: 0 <= k < |indices| ==> indices[k] < |pieces|
  }

  /** The indices below n of the pieces of a team that stand in one place. */
  function IndicesBelow(pieces: seq<Piece>, team: Team, state: PieceState, space: SpaceID, n: nat): (r: seq<nat>)
    requires n <= |pieces|
    ensures IndicesValid(pieces, r)
    ensures forall i :: i in r <==> 0 <= i < n && pieces[i].Stands(team, state, space)
  {
    if n == 0 then []
    else
      var rest := IndicesBelow(pieces, team, state, space, n - 1);
      if pieces[n - 1].Stands(team, state, space) then rest + [n - 1] else rest
  }

  function IndicesAt(pieces: seq<Piece>, team: Team, state: PieceState, space: SpaceID): (r: seq<nat>)
    ensures IndicesValid(pieces, r)
    ensures forall i :: i in r <==> 0 <= i < |pieces| && pieces[i].Stands(team, state, space)
  {
    IndicesBelow(pieces, team, state, space, |pieces|)
  }

  function Excluding(indices: seq<nat>, excluded: seq<nat>): (r: seq<nat>)
    ensures forall k :: 0 <= k < |r| ==> r[k] in indices
    ensures forall i :: i in r <==> i in indices && i !in excluded
  {
    if indices == [] then []
    else
      assert indices == [indices[0]] + indices[1..];
      var rest := Excluding(indices[1..], excluded);
      if indices[0] in excluded then rest else [indices[0]] + rest
  }

  function IDsOf(pieces: seq<Piece>, indices: seq<nat>): seq<PieceID>
    requires IndicesValid(pieces, indices)
  {
    if indices == [] then [] else [pieces[indices[0]].id] + IDsOf(pieces, indices[1..])
  }

  /** The index of a piece, or the number of pieces when the identifier is unknown. */
  function PieceIndex(pieces: seq<Piece>, id: PieceID): (i: nat)
    ensures i <= |pieces|
    ensures i < |pieces| ==> pieces[i].id == id
    ensures forall j :: 0 <= j < i ==> pieces[j].id != id
  {
    if pieces == [] || pieces[0].id == id then 0 else 1 + PieceIndex(pieces[1..], id)
  }

  function OwnedIndex(pieces: seq<Piece>, team: Team, id: PieceID): (r: Outcome<nat, GameError>)
    ensures r.Ok? ==> r.value < |pieces| && pieces[r.value].id == id && pieces[r.value].team == team
  {
    var i := PieceIndex(pieces, id);
    if i == |pieces| then Err(UnknownPiece)
    else if pieces[i].team != team then Err(PieceNotOwned)
    else Ok(i)
  }

  /** Without stacking, or off the board, a piece moves alone; otherwise its whole group moves. */
  function MovingIndices(rules: Rules, pieces: seq<Piece>, selected: nat): (r: seq<nat>)
    requires selected < |pieces|
    ensures IndicesValid(pieces, r) && selected in r
  {
    var p := pieces[selected];
    if !rules.settings.stackingEnabled || p.state == Waiting then [selected]
    else IndicesAt(pieces, p.team, p.state, p.space)
  }

  // ----- Applying a relocation -----

  function Allies(rules: Rules, pieces: seq<Piece>, team: Team, plan: Resolution): (r: seq<nat>)
    ensures IndicesValid(pieces, r)
  {
    if !rules.settings.stackingEnabled || plan.state == Finished then []
    else Excluding(IndicesAt(pieces, team, plan.state, plan.space), plan.moving)
  }

  function Captured(pieces: seq<Piece>, team: Team, plan: Resolution): (r: seq<nat>)
    ensures IndicesValid(pieces, r)
  {
    if plan.state == Finished then [] else IndicesAt(pieces, Opponent(team), plan.state, plan.space)
  }

  function SentHome(p: Piece): Piece {
    p.(state := Waiting, space := NoSpace, previous := NoSpace)
  }

  function Relocated(p: Piece, plan: Resolution): Piece {
    if plan.state == Finished then p.(state := Finished, space := NoSpace, previous := NoSpace)
    else p.(state := plan.state, space := plan.space, previous := plan.previous)
  }

  /** The pieces after a relocation: the moved and joined group at the destination, captured
      opponents waiting again, everything else as it was. */
  function Relocate(rules: Rules, pieces: seq<Piece>, team: Team, plan: Resolution): (r: seq<Piece>)
    ensures |r| == |pieces|
  {
    var group := plan.moving + Allies(rules, pieces, team, plan);
    var captured := Captured(pieces, team, plan);
    seq(|pieces|, i requires 0 <= i < |pieces| =>
      if i in group then Relocated(pieces[i], plan)
      else if i in captured then SentHome(pieces[i])
      else pieces[i])
  }

  predicate AllFinished(pieces: seq<Piece>, team: Team) {
    forall i :: 0 <= i < |pieces| && pieces[i].team == team ==> pieces[i].state == Finished
  }

  function CaptureGrantsExtraThrow(policy: CaptureExtraThrow, result: YutResult): (r: bool)
    ensures policy == DoToGeolPlusSpecial ==>
      (r <==> (OrdinarySpaces(result).Some? ==> OrdinarySpaces(result).value <= 3))
    ensures (policy == Always ==> r) && (policy == Never ==> !r)
  {
    match policy
    case Always => true
    case DoToGeolPlusSpecial => result != Yut && result != Mo
    case Never => false
  }

  function ApplyResolution(rules: Rules, game: GameState, team: Team, selected: nat, result: YutResult,
      plan: Resolution)
    : (r: (GameState, MoveOutcome))
    requires selected < |game.pieces| && IndicesValid(game.pieces, plan.moving)
  {
    var allies := Allies(rules, game.pieces, team, plan);
    var captured := Captured(game.pieces, team, plan);
    var pieces := Relocate(rules, game.pieces, team, plan);
    var ended := AllFinished(pieces, team);
    var winner := if ended then Some(team) else game.winner;
    var stacks := rules.settings.stackingEnabled && plan.state != Finished && |plan.moving| + |allies| > 1;
    (game.(pieces := pieces, winner := winner),
     MoveOutcome(
       plan.route, plan.kind, game.pieces[selected].space, plan.space, plan.previous,
       IDsOf(game.pieces, plan.moving),
       if stacks then IDsOf(pieces, IndicesAt(pieces, team, plan.state, plan.space)) else [],
       IDsOf(game.pieces, captured),
       captured != [] && !ended && CaptureGrantsExtraThrow(rules.settings.captureExtraThrow, result),
       ended, winner))
  }

  // ----- Ordinary moves -----

  predicate PlanAccepted(plan: ForwardPlan) {
    var t := plan.traversed;
    && NoSpace !in t
    && match plan.destination.state
       case OnBoard => DestinationAccepted(plan)
       case HomeCheckpoint => DestinationAccepted(plan)
       case Finished => plan.destination.space == NoSpace && plan.actualPrevious == NoSpace
       case Waiting => false
  }

  predicate DestinationAccepted(plan: ForwardPlan) {
    var t := plan.traversed;
    && plan.destination.space != NoSpace && plan.actualPrevious != NoSpace
    && |t| > 0 && t[|t| - 1] == plan.destination.space
    && (|t| > 1 ==> t[|t| - 2] == plan.actualPrevious)
  }

  /** The match engine's check of what the planner returned. */
  predicate PlansAccepted(plans: seq<ForwardPlan>, policy: ShortcutPolicy) {
    && (|plans| == 1 || |plans| == 2)
    && (|plans| == 1 && policy == Selectable ==> plans[0].route == Normal)
    && (|plans| == 2 ==> policy == Selectable && plans[0].route == Normal && plans[1].route == Shortcut)
    && forall i :: 0 <= i < |plans| ==> PlanAccepted(plans[i])
  }

  datatype MovePlans = MovePlans(selected: nat, plans: seq<ForwardPlan>, moving: seq<nat>)

  function OrdinaryPlans(rules: Rules, game: GameState, team: Team, id: PieceID, result: YutResult)
    : (r: Outcome<MovePlans, GameError>)
    ensures r.Ok? ==>
      && r.value.selected < |game.pieces| && IndicesValid(game.pieces, r.value.moving)
      && PlansAccepted(r.value.plans, rules.settings.shortcutPolicy)
  {
    if game.winner.Some? then Err(MatchEnded)
    else
      match OwnedIndex(game.pieces, team, id)
      case Err(error) => Err(error)
      case Ok(selected) =>
        match OrdinarySpaces(result)
        case None => Err(NotOrdinaryResult)
        case Some(spaces) =>
          match ForwardPlans(rules.graph, game.pieces[selected].At(), spaces, rules.settings.shortcutPolicy)
          case Err(error) => Err(Planning(error))
          case Ok(plans) =>
            if !PlansAccepted(plans, rules.settings.shortcutPolicy) then Err(InvalidForwardPlan)
            else Ok(MovePlans(selected, plans, MovingIndices(rules, game.pieces, selected)))
  }

  /** One plan takes no route; two plans take exactly the route they are named by. */
  function SelectPlan(plans: seq<ForwardPlan>, route: Option<Route>): Outcome<ForwardPlan, GameError>
    requires |plans| == 1 || |plans| == 2
    requires |plans| == 2 ==> plans[0].route == Normal && plans[1].route == Shortcut
  {
    if |plans| == 1 then
      if route.Some? then Err(RouteNotAllowed) else Ok(plans[0])
    else if route.None? then Err(RouteRequired)
    else if plans[0].route == route.value then Ok(plans[0])
    else Ok(plans[1])
  }

  function ForwardResolution(plan: ForwardPlan, moving: seq<nat>): Resolution {
    Resolution(Some(plan.route), if plan.destination.state == Finished then Finish else Forward,
      plan.destination.state, plan.destination.space, plan.actualPrevious, moving)
  }

  /** A piece whose move was decided, and the relocation it makes. */
  datatype Decision = Decision(selected: nat, plan: Resolution)

  function DecideOrdinary(rules: Rules, game: GameState, team: Team, id: PieceID, result: YutResult,
      route: Option<Route>)
    : (r: Outcome<Decision, GameError>)
    ensures r.Ok? ==> r.value.selected < |game.pieces| && IndicesValid(game.pieces, r.value.plan.moving)
  {
    match OrdinaryPlans(rules, game, team, id, result)
    case Err(error) => Err(error)
    case Ok(move) =>
      match SelectPlan(move.plans, route)
      case Err(error) => Err(error)
      case Ok(plan) => Ok(Decision(move.selected, ForwardResolution(plan, move.moving)))
  }

  function ApplyOrdinary(rules: Rules, game: GameState, team: Team, id: PieceID, result: YutResult,
      route: Option<Route>)
    : Outcome<(GameState, MoveOutcome), GameError>
  {
    match DecideOrdinary(rules, game, team, id, result, route)
    case Err(error) => Err(error)
    case Ok(decision) => Ok(ApplyResolution(rules, game, team, decision.selected, result, decision.plan))
  }

  // ----- Backdo moves -----

  function DecideBackdo(rules: Rules, game: GameState, team: Team, id: PieceID): (r: Outcome<Decision, GameError>)
    ensures r.Ok? ==> r.value.selected < |game.pieces| && IndicesValid(game.pieces, r.value.plan.moving)
  {
    if game.winner.Some? then Err(MatchEnded)
    else
      match OwnedIndex(game.pieces, team, id)
      case Err(error) => Err(error)
      case Ok(selected) =>
        var p := game.pieces[selected];
        match Reversal(rules.graph, p.At(), p.previous)
        case Err(error) => Err(Planning(error))
        case Ok(plan) =>
          if !BackdoAccepted(plan, p.space) then Err(InvalidBackdoPlan)
          else
            Ok(Decision(selected, Resolution(None, BackdoMove, plan.destination.state, plan.destination.space,
              plan.actualPrevious, MovingIndices(rules, game.pieces, selected))))
  }

  /** The match engine's check of a reversal. */
  predicate BackdoAccepted(plan: BackdoPlan, source: SpaceID) {
    && (plan.destination.state == OnBoard || plan.destination.state == HomeCheckpoint)
    && plan.destination.space != NoSpace && plan.actualPrevious == source
    && plan.traversed == [plan.destination.space]
  }

  function ApplyBackdo(rules: Rules, game: GameState, team: Team, id: PieceID)
    : Outcome<(GameState, MoveOutcome), GameError>
  {
    match DecideBackdo(rules, game, team, id)
    case Err(error) => Err(error)
    case Ok(decision) => Ok(ApplyResolution(rules, game, team, decision.selected, Backdo, decision.plan))
  }

  // ----- Buk -----

  /** The pieces of a team that share a space, in slice order. */
  datatype Group = Group(state: PieceState, space: SpaceID, indices: seq<nat>)

  datatype BukOutcome = BukOutcome(
    noCandidate: bool, destination: SpaceID, selected: seq<PieceID>, moves: seq<MoveOutcome>)

  function GroupOf(groups: seq<Group>, space: SpaceID): (k: nat)
    ensures k <= |groups|
    ensures k < |groups| ==> groups[k].space == space
    ensures forall j :: 0 <= j < k ==> groups[j].space != space
  {
    if groups == [] || groups[0].space == space then 0 else 1 + GroupOf(groups[1..], space)
  }

  /** Groups are opened in the order their first piece is met. */
  function GroupsBelow(pieces: seq<Piece>, team: Team, n: nat): seq<Group>
    requires n <= |pieces|
  {
    if n == 0 then []
    else
      var groups := GroupsBelow(pieces, team, n - 1);
      var p := pieces[n - 1];
      if p.team != team || !p.Active() then groups
      else
        var k := GroupOf(groups, p.space);
        if k < |groups| then groups[k := groups[k].(indices := groups[k].indices + [n - 1])]
        else groups + [Group(p.state, p.space, [n - 1])]
  }

  function PositionGroups(pieces: seq<Piece>, team: Team): seq<Group> {
    GroupsBelow(pieces, team, |pieces|)
  }

  ghost function GroupDistance(rules: Rules, group: Group): Outcome<int, BoardError> {
    RemainingDistance(rules.graph, Position(group.state, group.space), rules.settings.shortcutPolicy)
  }

  /** The first group whose distance is unavailable or not positive stops the resolution. */
  ghost function DistanceError(rules: Rules, groups: seq<Group>): Option<GameError> {
    if groups == [] then None
    else
      match GroupDistance(rules, groups[0])
      case Err(error) => Some(Planning(error))
      case Ok(distance) => if distance <= 0 then Some(InvalidBukPlanner) else DistanceError(rules, groups[1..])
  }

  /** A group no other group is nearer to the finish than. */
  ghost predicate IsClosest(rules: Rules, groups: seq<Group>, group: Group) {
    && group in groups && GroupDistance(rules, group).Ok?
    && forall other :: other in groups && GroupDistance(rules, other).Ok? ==>
      GroupDistance(rules, group).value <= GroupDistance(rules, other).value
  }

  /** The groups at minimum distance, in the order of the groups. */
  ghost function ClosestOf(rules: Rules, all: seq<Group>, groups: seq<Group>): seq<Group> {
    if groups == [] then []
    else (if IsClosest(rules, all, groups[0]) then [groups[0]] else []) + ClosestOf(rules, all, groups[1..])
  }

  function BukResolution(destination: SpaceID, group: Group): Resolution {
    Resolution(None, BukMove, OnBoard, destination, group.space, group.indices)
  }

  predicate GroupsValid(pieces: seq<Piece>, groups: seq<Group>) {
    forall g :: g in groups ==> g.indices != [] && IndicesValid(pieces, g.indices)
  }

  predicate AlreadyThere(game: GameState, group: Group) {
    group.state == OnBoard && group.space == game.bukDestination
  }

  /** The groups are applied one after another with the indices computed beforehand. */
  function ApplyGroups(rules: Rules, game: GameState, team: Team, groups: seq<Group>)
    : (r: (GameState, seq<MoveOutcome>))
    requires GroupsValid(game.pieces, groups)
    ensures |r.0.pieces| == |game.pieces| && r.0.bukDestination == game.bukDestination
    decreases groups
  {
    if groups == [] then (game, [])
    else if AlreadyThere(game, groups[0]) then ApplyGroups(rules, game, team, groups[1..])
    else
      var (first, move) :=
        ApplyResolution(rules, game, team, groups[0].indices[0], Buk, BukResolution(game.bukDestination, groups[0]));
      assert GroupsValid(first.pieces, groups[1..]);
      var (last, moves) := ApplyGroups(rules, first, team, groups[1..]);
      (last, [move] + moves)
  }

  function SelectedIDs(pieces: seq<Piece>, groups: seq<Group>): seq<PieceID>
    requires GroupsValid(pieces, groups)
  {
    if groups == [] then [] else IDsOf(pieces, groups[0].indices) + SelectedIDs(pieces, groups[1..])
  }

  function WaitingIndices(pieces: seq<Piece>, team: Team): (r: seq<nat>)
    ensures IndicesValid(pieces, r)
    ensures forall i :: i in r <==> 0 <= i < |pieces| && pieces[i].team == team && pieces[i].state == Waiting
  {
    WaitingBelow(pieces, team, |pieces|)
  }

  function WaitingBelow(pieces: seq<Piece>, team: Team, n: nat): (r: seq<nat>)
    requires n <= |pieces|
    ensures IndicesValid(pieces, r)
    ensures forall i :: i in r <==> 0 <= i < n && pieces[i].team == team && pieces[i].state == Waiting
  {
    if n == 0 then []
    else
      var rest := WaitingBelow(pieces, team, n - 1);
      if pieces[n - 1].team == team && pieces[n - 1].state == Waiting then rest + [n - 1] else rest
  }

  /** The groups a Buk acts on: the closest ones, or one waiting piece drawn by a ticket. */
  ghost function BukGroups(rules: Rules, game: GameState, team: Team, ticket: nat): Outcome<seq<Group>, GameError> {
    var groups := PositionGroups(game.pieces, team);
    var waiting := WaitingIndices(game.pieces, team);
    if groups != [] then
      match DistanceError(rules, groups)
      case Some(error) => Err(error)
      case None => Ok(ClosestOf(rules, groups, groups))
    else if waiting == [] then Ok([])
    else if ticket >= |waiting| then Err(RandomOutOfRange)
    else Ok([Group(Waiting, NoSpace, [waiting[ticket]])])
  }

  /** Every group the Buk may act on names existing pieces. */
  lemma {:induction false} GroupsBelowValid(pieces: seq<Piece>, team: Team, n: nat)
    requires n <= |pieces|
    ensures GroupsValid(pieces, GroupsBelow(pieces, team, n))
  {
    if n > 0 {
      GroupsBelowValid(pieces, team, n - 1);
    }
  }

  lemma ClosestAreGroups(rules: Rules, all: seq<Group>, groups: seq<Group>)
    ensures forall g :: g in ClosestOf(rules, all, groups) <==> g in groups && IsClosest(rules, all, g)
  {
    if groups != [] {
      ClosestAreGroups(rules, all, groups[1..]);
      assert groups == [groups[0]] + groups[1..];
    }
  }

  lemma BukGroupsValid(rules: Rules, game: GameState, team: Team, ticket: nat)
    ensures BukGroups(rules, game, team, ticket).Ok? ==>
      GroupsValid(game.pieces, BukGroups(rules, game, team, ticket).value)
  {
    var groups := PositionGroups(game.pieces, team);
    GroupsBelowValid(game.pieces, team, |game.pieces|);
    ClosestAreGroups(rules, groups, groups);
  }

  ghost function ResolveBuk(rules: Rules, game: GameState, team: Team, ticket: nat)
    : Outcome<(GameState, BukOutcome), GameError>
  {
    if game.winner.Some? then Err(MatchEnded)
    else if !rules.settings.bukModeEnabled then Err(BukModeDisabled)
    else
      BukGroupsValid(rules, game, team, ticket);
      match BukGroups(rules, game, team, ticket)
      case Err(error) => Err(error)
      case Ok(groups) =>
        var (after, moves) := ApplyGroups(rules, game, team, groups);
        Ok((after, BukOutcome(groups == [], game.bukDestination, SelectedIDs(game.pieces, groups), moves)))
  }
}
