/** The step-by-step planner of forward moves and the one-space reversal. */
module BoardForward {
  import opened Domain
  import opened BoardGraph

  datatype ForwardPlan = ForwardPlan(
    route: Route, destination: Position, actualPrevious: SpaceID, traversed: seq<SpaceID>)

  datatype BackdoPlan = BackdoPlan(destination: Position, actualPrevious: SpaceID, traversed: seq<SpaceID>)

  /** How a plan leaves its origin: an imposed first space, if any, and the rules on the way. */
  datatype Heading = Heading(route: Route, first: SpaceID, forceShortcuts: bool, keepBackMo: bool)

  predicate IsBackMoShortcutSpace(s: SpaceID) {
    s == BackMo || s == BackMoDo || s == BackMoGae
  }

  function NormalForwardSpace(g: Graph, origin: SpaceID): Outcome<SpaceID, BoardError> {
    if origin in g.routeChoices then Ok(g.routeChoices[origin].normal)
    else if |g.Adjacent(origin)| != 1 then Err(NoForwardSpace)
    else Ok(g.Adjacent(origin)[0])
  }

  /** The space a plan enters from `current` as its step number `step`. */
  function NextSpace(g: Graph, h: Heading, step: nat, current: SpaceID): Outcome<SpaceID, BoardError> {
    if step == 0 && h.first != NoSpace then Ok(h.first)
    else if (h.forceShortcuts || (h.keepBackMo && current == Bang)) && current in g.forcedEdges then
      Ok(g.forcedEdges[current])
    else NormalForwardSpace(g, current)
  }

  /** The rest of a plan that has entered `traversed` and now stands on `current`. */
  function Travel(g: Graph, h: Heading, spaces: nat, current: SpaceID, previous: SpaceID, traversed: seq<SpaceID>)
    : Outcome<ForwardPlan, BoardError>
    requires |traversed| <= spaces
    decreases spaces - |traversed|
  {
    var atHome := traversed != [] && current == g.home;
    if |traversed| == spaces then
      Ok(ForwardPlan(h.route, Position(if atHome then HomeCheckpoint else OnBoard, current), previous, traversed))
    else if atHome then
      Ok(ForwardPlan(h.route, Position(Finished, NoSpace), NoSpace, traversed))
    else
      match NextSpace(g, h, |traversed|, current)
      case Err(error) => Err(error)
      case Ok(next) => Travel(g, h, spaces, next, current, traversed + [next])
  }

  method BuildForwardPlan(g: Graph, h: Heading, origin: SpaceID, spaces: nat)
    returns (r: Outcome<ForwardPlan, BoardError>)
    ensures r == Travel(g, h, spaces, origin, NoSpace, [])
  {
    var current := origin;
    var actualPrevious := NoSpace;
    var traversed: seq<SpaceID> := [];
    var homeCheckpointReached := false;
    for step := 0 to spaces
      invariant |traversed| == step
      invariant homeCheckpointReached <==> traversed != [] && current == g.home
      invariant Travel(g, h, spaces, current, actualPrevious, traversed) == Travel(g, h, spaces, origin, NoSpace, [])
    {
      if homeCheckpointReached {
        return Ok(ForwardPlan(h.route, Position(Finished, NoSpace), NoSpace, traversed));
      }
      var next: SpaceID;
      if step == 0 && h.first != NoSpace {
        next := h.first;
      } else if (h.forceShortcuts || (h.keepBackMo && current == Bang)) && current in g.forcedEdges {
        next := g.forcedEdges[current];
      } else {
        var normal := NormalForwardSpace(g, current);
        if normal.Err? {
          return Err(normal.error);
        }
        next := normal.value;
      }
      actualPrevious := current;
      current := next;
      traversed := traversed + [next];
      homeCheckpointReached := current == g.home;
    }
    var state := if homeCheckpointReached then HomeCheckpoint else OnBoard;
    return Ok(ForwardPlan(h.route, Position(state, current), actualPrevious, traversed));
  }

  /** The space a forward move starts from, or why the position cannot move. */
  function ForwardOrigin(g: Graph, position: Position): Outcome<SpaceID, BoardError> {
    match position.state
    case Waiting => if position.space != NoSpace then Err(InvalidPosition) else Ok(g.start)
    case OnBoard =>
      if position.space !in g.Spaces() then Err(UnknownSpace(position.space))
      else if position.space == g.home then Err(InvalidPosition)
      else Ok(position.space)
    case HomeCheckpoint => if position.space != g.home then Err(InvalidPosition) else Ok(position.space)
    case Finished => if position.space != NoSpace then Err(InvalidPosition) else Err(ForwardMovementUnavailable)
  }

  /** The headings a policy offers from an origin: two at a selectable route choice, else one. */
  function Headings(g: Graph, origin: SpaceID, policy: ShortcutPolicy): Outcome<seq<Heading>, BoardError> {
    if origin in g.routeChoices && policy == Selectable then
      Ok([Heading(Normal, g.routeChoices[origin].normal, false, false),
          Heading(Shortcut, g.routeChoices[origin].shortcut, false, origin == BackMo)])
    else if origin in g.routeChoices then
      if origin in g.forcedEdges then Ok([Heading(Shortcut, g.forcedEdges[origin], true, false)])
      else Err(NoForwardSpace)
    else Ok([Heading(Normal, NoSpace, policy == Forced, IsBackMoShortcutSpace(origin))])
  }

  function Plans(g: Graph, headings: seq<Heading>, origin: SpaceID, spaces: nat)
    : Outcome<seq<ForwardPlan>, BoardError>
  {
    if headings == [] then Ok([])
    else
      match Travel(g, headings[0], spaces, origin, NoSpace, [])
      case Err(error) => Err(error)
      case Ok(plan) =>
        match Plans(g, headings[1..], origin, spaces)
        case Err(error) => Err(error)
        case Ok(plans) => Ok([plan] + plans)
  }

  /** Every legal forward plan of a position. */
  function ForwardPlans(g: Graph, position: Position, spaces: int, policy: ShortcutPolicy)
    : Outcome<seq<ForwardPlan>, BoardError>
  {
    if spaces <= 0 then Err(InvalidForwardSpaces)
    else
      match ForwardOrigin(g, position)
      case Err(error) => Err(error)
      case Ok(origin) =>
        if position.state == HomeCheckpoint then
          Ok([ForwardPlan(Normal, Position(Finished, NoSpace), NoSpace, [])])
        else
          match Headings(g, origin, policy)
          case Err(error) => Err(error)
          case Ok(headings) => Plans(g, headings, origin, spaces)
  }

  /** The one-space reversal along recorded history. */
  function Reversal(g: Graph, position: Position, actualPrevious: SpaceID): Outcome<BackdoPlan, BoardError> {
    match position.state
    case Waiting => Err(BackdoMovementUnavailable)
    case Finished => Err(BackdoMovementUnavailable)
    case OnBoard =>
      if position.space !in g.Spaces() then Err(UnknownSpace(position.space))
      else if position.space == g.home then Err(InvalidPosition)
      else ReversalTo(g, position.space, actualPrevious)
    case HomeCheckpoint =>
      if position.space != g.home then Err(InvalidPosition) else ReversalTo(g, position.space, actualPrevious)
  }

  function ReversalTo(g: Graph, space: SpaceID, actualPrevious: SpaceID): Outcome<BackdoPlan, BoardError> {
    if actualPrevious == NoSpace then Err(BackdoHistoryUnavailable)
    else if actualPrevious !in g.Spaces() then Err(UnknownSpace(actualPrevious))
    else
      var state := if actualPrevious == g.home then HomeCheckpoint else OnBoard;
      Ok(BackdoPlan(Position(state, actualPrevious), space, [actualPrevious]))
  }
}
