/** What validation buys: total planning, and agreement of the planner with the finish distances. */
module BoardTheorems {
  import opened Domain
  import opened BoardGraph
  import opened BoardSearch
  import opened BoardValidate
  import opened BoardForward

  /** A position that an unfinished piece can be in. */
  predicate ValidPosition(g: Graph, position: Position) {
    match position.state
    case Waiting => position.space == NoSpace
    case OnBoard => position.space in g.Spaces() && position.space != g.home
    case HomeCheckpoint => position.space == g.home
    case Finished => false
  }

  // ----- Single facts drawn from validation -----

  lemma ChoiceFacts(g: Graph, s: SpaceID)
    requires ChoicesOk(g) && s in g.routeChoices
    ensures ChoiceOk(g, s) && s in g.forcedEdges && g.forcedEdges[s] == g.routeChoices[s].shortcut
  {
    hide ChoiceOk, Graph.Spaces, Graph.Adjacent;
  }

  lemma NoChoiceFacts(g: Graph, s: SpaceID)
    requires ChoicesOk(g) && s in g.Spaces() && s !in g.routeChoices
    ensures |g.Adjacent(s)| <= 1 && s !in g.forcedEdges
  {
    hide ChoiceOk, Graph.Spaces, Graph.Adjacent;
  }

  lemma AdjacentIsKnown(g: Graph, s: SpaceID, t: SpaceID)
    requires EdgesOk(g) && t in g.Adjacent(s)
    ensures g.Step(Selectable, s, t) && t != s
  {
    assert EdgeOk(g, Edge(s, t));
  }

  lemma HomePath(g: Graph, policy: ShortcutPolicy, s: SpaceID)
    requires ValidGraph(g) && s in g.Spaces()
    ensures g.Reachable(policy, s, g.home)
  {
    hide NodesOk, EdgesOk, ChoicesOk, OuterRingOk, BukOk, Graph.Spaces, Graph.Reachable;
  }

  lemma StartIsHome(g: Graph)
    requires ValidGraph(g)
    ensures g.start == g.home && g.start in g.Spaces()
  {
    hide NodesOk, EdgesOk, ChoicesOk, ReachabilityOk, OuterRingOk, BukOk, Graph.Spaces;
  }

  lemma StartHasSuccessor(g: Graph)
    requires OuterRingOk(g) && g.start !in g.routeChoices
    ensures g.Adjacent(g.start) != []
  {
    hide Outer;
    var ring :| IsRing(g, ring);
    assert OuterNext(g, ring[0]) == [RingAfter(ring, 0)];
    assert g.Adjacent(g.start) == [] ==> OuterNext(g, g.start) == [];
  }

  /** Every space can be left along a normal edge. */
  lemma NormalSpaceExists(g: Graph, s: SpaceID)
    requires ValidGraph(g) && s in g.Spaces()
    ensures NormalForwardSpace(g, s).Ok? && g.Step(Selectable, s, NormalForwardSpace(g, s).value)
  {
    hide NodesOk, EdgesOk, ChoicesOk, ReachabilityOk, OuterRingOk, BukOk;
    if s in g.routeChoices {
      ChoiceFacts(g, s);
    } else {
      NoChoiceFacts(g, s);
      StartIsHome(g);
      if s == g.home {
        StartHasSuccessor(g);
      } else {
        HomePath(g, Selectable, s);
        var n: nat :| g.Reaches(Selectable, s, g.home, n);
        NonemptyWalk(g, Selectable, s, g.home, n);
        var b := ReachesUncons(g, Selectable, s, g.home, n);
        assert b in g.Adjacent(s);
      }
      AdjacentIsKnown(g, s, g.Adjacent(s)[0]);
    }
  }

  lemma NonemptyWalk(g: Graph, policy: ShortcutPolicy, a: SpaceID, b: SpaceID, n: nat)
    requires g.Reaches(policy, a, b, n) && a != b
    ensures n > 0
  {
    var walk :| g.WalkFromTo(policy, walk, a, b) && |walk| == n + 1;
  }

  /** A heading that the planner offers at an origin. */
  ghost predicate Offered(g: Graph, origin: SpaceID, policy: ShortcutPolicy, h: Heading) {
    Headings(g, origin, policy).Ok? && h in Headings(g, origin, policy).value
  }

  /** A planned step always exists, follows a declared edge, and obeys the forced policy. */
  lemma NextSpaceExists(g: Graph, origin: SpaceID, policy: ShortcutPolicy, h: Heading, step: nat, current: SpaceID)
    requires ValidGraph(g) && Offered(g, origin, policy, h)
    requires current in g.Spaces() && (step == 0 ==> current == origin)
    ensures NextSpace(g, h, step, current).Ok?
    ensures g.Step(Selectable, current, NextSpace(g, h, step, current).value)
    ensures g.Step(policy, current, NextSpace(g, h, step, current).value)
  {
    hide NodesOk, EdgesOk, ChoicesOk, ReachabilityOk, OuterRingOk, BukOk;
    if current in g.routeChoices {
      ChoiceFacts(g, current);
    } else {
      NoChoiceFacts(g, current);
    }
    NormalSpaceExists(g, current);
  }

  /** The shape of a plan: a policy-legal traversal that stops at the home checkpoint, ends at the
      destination after all its spaces or finishes early, and records the space entered from. */
  ghost predicate PlanShape(g: Graph, policy: ShortcutPolicy, origin: SpaceID, spaces: nat, plan: ForwardPlan) {
    var t := plan.traversed;
    var path := [origin] + t;
    && g.IsWalk(Selectable, path) && g.IsWalk(policy, path)
    && (forall i :: 0 <= i < |t| - 1 ==> t[i] != g.home)
    && t != []
    && if plan.destination.state == Finished then
         |t| < spaces && t[|t| - 1] == g.home
         && plan.destination.space == NoSpace && plan.actualPrevious == NoSpace
       else
         |t| == spaces && plan.destination.space == t[|t| - 1] && plan.actualPrevious == path[|t| - 1]
         && plan.destination.state == (if t[|t| - 1] == g.home then HomeCheckpoint else OnBoard)
  }

  lemma WalkSnoc(g: Graph, policy: ShortcutPolicy, walk: seq<SpaceID>, next: SpaceID)
    requires g.IsWalk(policy, walk) && g.Step(policy, walk[|walk| - 1], next)
    ensures g.IsWalk(policy, walk + [next])
  {
  }

  lemma {:induction false} TravelShape(g: Graph, origin: SpaceID, policy: ShortcutPolicy, h: Heading, spaces: nat,
      current: SpaceID, previous: SpaceID, t: seq<SpaceID>)
    requires ValidGraph(g) && Offered(g, origin, policy, h) && origin in g.Spaces()
    requires 0 < spaces && |t| <= spaces && current in g.Spaces()
    requires g.IsWalk(Selectable, [origin] + t) && g.IsWalk(policy, [origin] + t)
    requires forall i :: 0 <= i < |t| - 1 ==> t[i] != g.home
    requires if t == [] then current == origin else current == t[|t| - 1] && previous == ([origin] + t)[|t| - 1]
    ensures Travel(g, h, spaces, current, previous, t).Ok?
    ensures PlanShape(g, policy, origin, spaces, Travel(g, h, spaces, current, previous, t).value)
    ensures Travel(g, h, spaces, current, previous, t).value.route == h.route
    decreases spaces - |t|
  {
    hide ValidGraph, Offered, Graph.Step, Graph.Spaces, NextSpace;
    if |t| < spaces && !(t != [] && current == g.home) {
      NextSpaceExists(g, origin, policy, h, |t|, current);
      StepStaysOnBoard(g, policy, current, NextSpace(g, h, |t|, current).value);
      var next := NextSpace(g, h, |t|, current).value;
      WalkSnoc(g, Selectable, [origin] + t, next);
      WalkSnoc(g, policy, [origin] + t, next);
      assert [origin] + (t + [next]) == [origin] + t + [next];
      TravelShape(g, origin, policy, h, spaces, next, current, t + [next]);
    }
  }

  lemma StepStaysOnBoard(g: Graph, policy: ShortcutPolicy, a: SpaceID, b: SpaceID)
    requires g.Step(policy, a, b)
    ensures b in g.Spaces()
  {
  }

  /** On a validated board every unfinished position has plans for every positive distance: two,
      normal then shortcut, exactly where a selectable choice opens the move, and one otherwise. */
  lemma ForwardPlansTotal(g: Graph, position: Position, spaces: int, policy: ShortcutPolicy)
    requires ValidGraph(g) && ValidPosition(g, position) && spaces > 0
    ensures ForwardPlans(g, position, spaces, policy).Ok?
    ensures var plans := ForwardPlans(g, position, spaces, policy).value;
      var origin := ForwardOrigin(g, position).value;
      && ForwardOrigin(g, position).Ok? && origin in g.Spaces()
      && (position.state == HomeCheckpoint ==>
        plans == [ForwardPlan(Normal, Position(Finished, NoSpace), NoSpace, [])])
      && (position.state != HomeCheckpoint ==>
        && (forall plan :: plan in plans ==> PlanShape(g, policy, origin, spaces, plan))
        && (origin in g.routeChoices && policy == Selectable ==>
          |plans| == 2 && plans[0].route == Normal && plans[1].route == Shortcut)
        && (!(origin in g.routeChoices && policy == Selectable) ==>
          |plans| == 1 && (policy == Selectable ==> plans[0].route == Normal)))
  {
    hide NodesOk, EdgesOk, ChoicesOk, ReachabilityOk, OuterRingOk, BukOk;
    if position.state != HomeCheckpoint {
      StartIsHome(g);
      var origin := ForwardOrigin(g, position).value;
      if origin in g.routeChoices {
        ChoiceFacts(g, origin);
      }
      var headings := Headings(g, origin, policy).value;
      forall h | h in headings
        ensures Travel(g, h, spaces, origin, NoSpace, []).Ok?
        ensures PlanShape(g, policy, origin, spaces, Travel(g, h, spaces, origin, NoSpace, []).value)
        ensures Travel(g, h, spaces, origin, NoSpace, []).value.route == h.route
      {
        TravelShape(g, origin, policy, h, spaces, origin, NoSpace, []);
      }
      hide PlanShape, Travel;
      PlansFollowHeadings(g, headings, origin, spaces);
    }
  }

  lemma {:induction false} PlansFollowHeadings(g: Graph, headings: seq<Heading>, origin: SpaceID, spaces: nat)
    requires forall h :: h in headings ==> Travel(g, h, spaces, origin, NoSpace, []).Ok?
    ensures var plans := Plans(g, headings, origin, spaces);
      plans.Ok? && |plans.value| == |headings|
      && forall i :: 0 <= i < |headings| ==>
        plans.value[i] == Travel(g, headings[i], spaces, origin, NoSpace, []).value
  {
    hide Travel;
    if headings != [] {
      PlansFollowHeadings(g, headings[1..], origin, spaces);
    }
  }

  // ----- Agreement with the finish distances -----

  /** A piece on the board always has a positive finish distance. */
  lemma DistanceDefined(g: Graph, position: Position, policy: ShortcutPolicy)
    requires ValidGraph(g) && ValidPosition(g, position) && position.state != Waiting
    ensures RemainingDistance(g, position, policy).Ok? && RemainingDistance(g, position, policy).value >= 1
    ensures position.state == HomeCheckpoint ==> RemainingDistance(g, position, policy).value == 1
    ensures position.state == OnBoard ==>
      g.IsDistance(policy, position.space, g.home, RemainingDistance(g, position, policy).value - 1)
  {
    hide NodesOk, EdgesOk, ChoicesOk, ReachabilityOk, OuterRingOk, BukOk;
    StartIsHome(g);
    if position.state == OnBoard {
      HomePath(g, policy, position.space);
    }
  }

  /** The forced policy leaves one step from every space. */
  lemma ForcedStepIsUnique(g: Graph, a: SpaceID, b: SpaceID, c: SpaceID)
    requires ChoicesOk(g) && a in g.Spaces() && g.Step(Forced, a, b) && g.Step(Forced, a, c)
    ensures b == c
  {
    hide ChoicesOk, Graph.Spaces;
    if a in g.routeChoices {
      ChoiceFacts(g, a);
    } else {
      NoChoiceFacts(g, a);
    }
  }

  /** A forced step away from home brings home exactly one step nearer. */
  lemma ForcedStepNearer(g: Graph, a: SpaceID, b: SpaceID, d: nat)
    requires ValidGraph(g) && a in g.Spaces() && a != g.home
    requires g.Step(Forced, a, b) && g.IsDistance(Forced, a, g.home, d)
    ensures d > 0 && g.IsDistance(Forced, b, g.home, d - 1)
  {
    hide NodesOk, EdgesOk, ChoicesOk, ReachabilityOk, OuterRingOk, BukOk, Graph.Step;
    NonemptyWalk(g, Forced, a, g.home, d);
    var c := ReachesUncons(g, Forced, a, g.home, d);
    ForcedStepIsUnique(g, a, b, c);
    forall m: nat | g.Reaches(Forced, b, g.home, m)
      ensures d - 1 <= m
    {
      ReachesCons(g, Forced, a, b, g.home, m);
    }
  }

  lemma ReachesCons(g: Graph, policy: ShortcutPolicy, a: SpaceID, b: SpaceID, c: SpaceID, n: nat)
    requires g.Step(policy, a, b) && g.Reaches(policy, b, c, n)
    ensures g.Reaches(policy, a, c, n + 1)
  {
    ReachesZero(g, policy, a);
    ReachesSnoc(g, policy, a, a, b, 0);
    ReachesTransitive(g, policy, a, b, c, 1, n);
  }

  /** A forced walk that has not passed home is exactly its length nearer to home. */
  lemma {:induction false} ForcedWalkNearer(g: Graph, walk: seq<SpaceID>, d: nat)
    requires ValidGraph(g) && g.IsWalk(Forced, walk) && walk[0] in g.Spaces()
    requires forall i :: 0 <= i < |walk| - 1 ==> walk[i] != g.home
    requires g.IsDistance(Forced, walk[0], g.home, d)
    ensures |walk| - 1 <= d && g.IsDistance(Forced, walk[|walk| - 1], g.home, d - (|walk| - 1))
    decreases |walk|
  {
    hide ValidGraph, Graph.IsDistance, Graph.Spaces;
    if |walk| > 1 {
      assert g.Step(Forced, walk[0], walk[0 + 1]);
      StepStaysOnBoard(g, Forced, walk[0], walk[1]);
      ForcedStepNearer(g, walk[0], walk[1], d);
      WalkTail(g, Forced, walk);
      ForcedWalkNearer(g, walk[1..], d - 1);
    }
  }

  lemma WalkTail(g: Graph, policy: ShortcutPolicy, walk: seq<SpaceID>)
    requires g.IsWalk(policy, walk) && |walk| > 1
    ensures g.IsWalk(policy, walk[1..])
  {
    forall i | 0 <= i < |walk[1..]| - 1
      ensures g.Step(policy, walk[1..][i], walk[1..][i + 1])
    {
      assert g.Step(policy, walk[i + 1], walk[i + 1 + 1]);
    }
  }

  /** Forced policy: a move finishes exactly when it has at least the remaining distance, and a move
      that does not finish lowers that distance by exactly its spaces. */
  lemma ForcedMoveExact(g: Graph, position: Position, spaces: int)
    requires ValidGraph(g) && ValidPosition(g, position) && position.state != Waiting && spaces > 0
    ensures var plans := ForwardPlans(g, position, spaces, Forced);
      var distance := RemainingDistance(g, position, Forced);
      && plans.Ok? && |plans.value| == 1 && distance.Ok?
      && (plans.value[0].destination.state == Finished <==> distance.value <= spaces)
      && (plans.value[0].destination.state != Finished ==>
        RemainingDistance(g, plans.value[0].destination, Forced) == Ok(distance.value - spaces))
  {
    hide ValidGraph, Travel, Headings;
    ForwardPlansTotal(g, position, spaces, Forced);
    DistanceDefined(g, position, Forced);
    if position.state == OnBoard {
      var plan := ForwardPlans(g, position, spaces, Forced).value[0];
      var path := [position.space] + plan.traversed;
      assert PlanShape(g, Forced, position.space, spaces, plan);
      var d := RemainingDistance(g, position, Forced).value - 1;
      ForcedWalkNearer(g, path, d);
      var last := path[|path| - 1];
      assert last == plan.traversed[|plan.traversed| - 1];
      HomeIsZero(g, Forced);
      if plan.destination.state != Finished {
        WalkEndsOnBoard(g, Forced, path);
        DistanceDefined(g, plan.destination, Forced);
      }
    }
  }

  lemma HomeIsZero(g: Graph, policy: ShortcutPolicy)
    ensures g.IsDistance(policy, g.home, g.home, 0)
  {
    ReachesZero(g, policy, g.home);
  }

  lemma WalkEndsOnBoard(g: Graph, policy: ShortcutPolicy, walk: seq<SpaceID>)
    requires g.IsWalk(policy, walk) && |walk| > 1
    ensures walk[|walk| - 1] in g.Spaces()
  {
    assert g.Step(policy, walk[|walk| - 2], walk[|walk| - 2 + 1]);
  }

  /** Selectable policy: no plan finishes with fewer spaces than the remaining distance,
      and no move lowers that distance by more than its spaces. */
  lemma SelectableMoveBounded(g: Graph, position: Position, spaces: int, plan: ForwardPlan)
    requires ValidGraph(g) && ValidPosition(g, position) && position.state != Waiting && spaces > 0
    requires ForwardPlans(g, position, spaces, Selectable).Ok?
      && plan in ForwardPlans(g, position, spaces, Selectable).value
    ensures var distance := RemainingDistance(g, position, Selectable);
      && distance.Ok?
      && (plan.destination.state == Finished ==> distance.value <= spaces)
      && (plan.destination.state != Finished ==>
        var after := RemainingDistance(g, plan.destination, Selectable);
        after.Ok? && distance.value <= after.value + spaces)
  {
    hide ValidGraph, Travel, Headings;
    ForwardPlansTotal(g, position, spaces, Selectable);
    DistanceDefined(g, position, Selectable);
    if position.state == OnBoard {
      var path := [position.space] + plan.traversed;
      assert PlanShape(g, Selectable, position.space, spaces, plan);
      var last := path[|path| - 1];
      assert g.WalkFromTo(Selectable, path, position.space, last);
      assert g.Reaches(Selectable, position.space, last, |plan.traversed|);
      HomeIsZero(g, Selectable);
      if plan.destination.state != Finished {
        WalkEndsOnBoard(g, Selectable, path);
        DistanceDefined(g, plan.destination, Selectable);
        var e := RemainingDistance(g, plan.destination, Selectable).value - 1;
        ReachesTransitive(g, Selectable, position.space, last, g.home, |plan.traversed|, e);
      }
    }
  }
}
