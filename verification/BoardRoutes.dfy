/** Which branch every step of a plan takes, told from its path alone. */
module BoardRoutes {
  import opened Domain
  import opened BoardGraph
  import opened BoardValidate
  import opened BoardForward
  import opened BoardTheorems

  /** A move that was already inside the Back-Mo shortcut, or takes it, goes on towards Bangsugi at Bang. */
  predicate StaysInside(g: Graph, origin: SpaceID, route: Route) {
    if origin in g.routeChoices then origin == BackMo && route == Shortcut
    else origin == BackMo || origin == BackMoDo || origin == BackMoGae
  }

  /** The branch that step k of a plan takes at a route choice: forced everywhere, or as the route says where
      the move starts, and the normal one anywhere else. */
  function Branch(g: Graph, policy: ShortcutPolicy, origin: SpaceID, route: Route, k: nat, at: SpaceID): SpaceID
    requires at in g.routeChoices
  {
    if policy == Forced || (k == 0 && route == Shortcut) || (k > 0 && at == Bang && StaysInside(g, origin, route))
    then g.routeChoices[at].shortcut
    else g.routeChoices[at].normal
  }

  /** Every step of the path from a route choice takes its branch. */
  predicate TakesBranches(g: Graph, policy: ShortcutPolicy, origin: SpaceID, route: Route, t: seq<SpaceID>) {
    forall k :: 0 <= k < |t| && ([origin] + t)[k] in g.routeChoices ==>
      t[k] == Branch(g, policy, origin, route, k, ([origin] + t)[k])
  }

  lemma NextTakesBranch(g: Graph, origin: SpaceID, policy: ShortcutPolicy, h: Heading, step: nat, current: SpaceID)
    requires ValidGraph(g) && Offered(g, origin, policy, h)
    requires current in g.routeChoices && (step == 0 ==> current == origin)
    ensures NextSpace(g, h, step, current) == Ok(Branch(g, policy, origin, h.route, step, current))
  {
    hide NodesOk, EdgesOk, ReachabilityOk, OuterRingOk, BukOk, ChoicesOk;
    ChoiceFacts(g, current);
    ChoiceHasSpaces(g, current);
    if origin in g.routeChoices {
      ChoiceHasSpaces(g, origin);
      ChoiceFacts(g, origin);
    }
  }

  lemma ChoiceHasSpaces(g: Graph, s: SpaceID)
    requires ValidGraph(g) && s in g.routeChoices
    ensures g.routeChoices[s].normal != NoSpace && g.routeChoices[s].shortcut != NoSpace
  {
    hide ReachabilityOk, OuterRingOk, BukOk, ChoicesOk;
    ChoiceFacts(g, s);
    AdjacentIsKnown(g, s, g.routeChoices[s].normal);
    AdjacentIsKnown(g, s, g.routeChoices[s].shortcut);
  }

  lemma {:induction false} TravelBranches(g: Graph, origin: SpaceID, policy: ShortcutPolicy, h: Heading, spaces: nat,
      current: SpaceID, previous: SpaceID, t: seq<SpaceID>)
    requires ValidGraph(g) && Offered(g, origin, policy, h)
    requires |t| <= spaces && current == ([origin] + t)[|t|] && TakesBranches(g, policy, origin, h.route, t)
    requires Travel(g, h, spaces, current, previous, t).Ok?
    ensures var plan := Travel(g, h, spaces, current, previous, t).value;
      plan.route == h.route && TakesBranches(g, policy, origin, h.route, plan.traversed)
    decreases spaces - |t|
  {
    hide ValidGraph, Offered, NextSpace, Branch;
    if |t| < spaces && !(t != [] && current == g.home) {
      var next := NextSpace(g, h, |t|, current).value;
      if current in g.routeChoices {
        NextTakesBranch(g, origin, policy, h, |t|, current);
      }
      BranchesSnoc(g, policy, origin, h.route, t, next);
      TravelBranches(g, origin, policy, h, spaces, next, current, t + [next]);
    }
  }

  lemma BranchesSnoc(g: Graph, policy: ShortcutPolicy, origin: SpaceID, route: Route, t: seq<SpaceID>, next: SpaceID)
    requires TakesBranches(g, policy, origin, route, t)
    requires var at := ([origin] + t)[|t|];
      at in g.routeChoices ==> next == Branch(g, policy, origin, route, |t|, at)
    ensures TakesBranches(g, policy, origin, route, t + [next])
  {
    hide Branch;
    var path, longer := [origin] + t, [origin] + (t + [next]);
    assert forall k :: 0 <= k <= |t| ==> longer[k] == path[k];
  }

  /** Every plan takes its branches: under the forced policy the forced one everywhere; under the selectable
      policy the one that its route names where the move starts, and the normal one at every later choice,
      except that a move inside the Back-Mo shortcut goes on towards Bangsugi at Bang. At a choice the first
      plan is the normal one and the second the shortcut; a forced plan from a choice is a shortcut. */
  lemma PlansTakeTheirRoutes(g: Graph, position: Position, spaces: int, policy: ShortcutPolicy)
    requires ValidGraph(g) && ValidPosition(g, position) && position.state != HomeCheckpoint && spaces > 0
    ensures ForwardOrigin(g, position).Ok? && ForwardPlans(g, position, spaces, policy).Ok?
    ensures var origin := ForwardOrigin(g, position).value;
      var plans := ForwardPlans(g, position, spaces, policy).value;
      && origin == (if position.state == Waiting then g.start else position.space)
      && (forall i :: 0 <= i < |plans| ==> TakesBranches(g, policy, origin, plans[i].route, plans[i].traversed))
      && (if origin in g.routeChoices && policy == Selectable
          then |plans| == 2 && plans[0].route == Normal && plans[1].route == Shortcut
          else |plans| == 1 && plans[0].route == if origin in g.routeChoices then Shortcut else Normal)
      && forall i :: 0 <= i < |plans| && origin in g.routeChoices ==>
        plans[i].traversed != [] && plans[i].traversed[0] ==
          if plans[i].route == Shortcut then g.routeChoices[origin].shortcut else g.routeChoices[origin].normal
  {
    hide NodesOk, EdgesOk, ChoicesOk, ReachabilityOk, OuterRingOk, BukOk, PlanShape, Travel, TakesBranches;
    ForwardPlansTotal(g, position, spaces, policy);
    StartIsHome(g);
    var origin := ForwardOrigin(g, position).value;
    var plans := ForwardPlans(g, position, spaces, policy).value;
    if origin in g.routeChoices {
      ChoiceFacts(g, origin);
    }
    var headings := Headings(g, origin, policy).value;
    forall i | 0 <= i < |headings|
      ensures Travel(g, headings[i], spaces, origin, NoSpace, []).Ok?
      ensures var plan := Travel(g, headings[i], spaces, origin, NoSpace, []).value;
        plan.route == headings[i].route && TakesBranches(g, policy, origin, headings[i].route, plan.traversed)
    {
      PlanBranches(g, origin, policy, headings[i], spaces);
    }
    PlansFollowHeadings(g, headings, origin, spaces);
    forall i | 0 <= i < |plans| && origin in g.routeChoices
      ensures plans[i].traversed != [] && plans[i].traversed[0] ==
        if plans[i].route == Shortcut then g.routeChoices[origin].shortcut else g.routeChoices[origin].normal
    {
      assert PlanShape(g, policy, origin, spaces, plans[i]);
      FirstBranch(g, policy, origin, spaces, plans[i]);
    }
  }

  lemma PlanBranches(g: Graph, origin: SpaceID, policy: ShortcutPolicy, h: Heading, spaces: nat)
    requires ValidGraph(g) && Offered(g, origin, policy, h) && origin in g.Spaces() && spaces > 0
    ensures Travel(g, h, spaces, origin, NoSpace, []).Ok?
    ensures var plan := Travel(g, h, spaces, origin, NoSpace, []).value;
      plan.route == h.route && TakesBranches(g, policy, origin, h.route, plan.traversed)
  {
    hide ValidGraph, Offered, Travel, Graph.Spaces;
    TravelShape(g, origin, policy, h, spaces, origin, NoSpace, []);
    assert ([origin] + [])[0] == origin;
    TravelBranches(g, origin, policy, h, spaces, origin, NoSpace, []);
  }

  lemma FirstBranch(g: Graph, policy: ShortcutPolicy, origin: SpaceID, spaces: nat, plan: ForwardPlan)
    requires PlanShape(g, policy, origin, spaces, plan) && origin in g.routeChoices
    requires TakesBranches(g, policy, origin, plan.route, plan.traversed)
      && (policy == Forced ==> plan.route == Shortcut)
    ensures plan.traversed != [] && plan.traversed[0] ==
      if plan.route == Shortcut then g.routeChoices[origin].shortcut else g.routeChoices[origin].normal
  {
    assert ([origin] + plan.traversed)[0] == origin;
  }

  lemma StepIsDetermined(g: Graph, policy: ShortcutPolicy, origin: SpaceID, route: Route, s: seq<SpaceID>,
      t: seq<SpaceID>, k: nat)
    requires ChoicesOk(g) && origin in g.Spaces() && k < |s| && k < |t| && ([origin] + s)[k] == ([origin] + t)[k]
    requires g.IsWalk(policy, [origin] + s) && g.IsWalk(policy, [origin] + t)
    requires TakesBranches(g, policy, origin, route, s) && TakesBranches(g, policy, origin, route, t)
    ensures s[k] == t[k]
  {
    hide ChoicesOk, Branch, Graph.Adjacent, Graph.Spaces;
    var a, b := [origin] + s, [origin] + t;
    assert g.Step(policy, a[k], a[k + 1]) && g.Step(policy, b[k], b[k + 1]);
    assert k > 0 ==> g.Step(policy, a[k - 1], a[k - 1 + 1]);
    if a[k] !in g.routeChoices {
      NoChoiceFacts(g, a[k]);
    }
  }

  /** A path that takes its branches is determined by where it starts, its route and its length. */
  lemma {:induction false} PathIsDetermined(g: Graph, policy: ShortcutPolicy, origin: SpaceID, route: Route,
      s: seq<SpaceID>, t: seq<SpaceID>, k: nat)
    requires ChoicesOk(g) && origin in g.Spaces() && k <= |s| && k <= |t|
    requires g.IsWalk(policy, [origin] + s) && g.IsWalk(policy, [origin] + t)
    requires TakesBranches(g, policy, origin, route, s) && TakesBranches(g, policy, origin, route, t)
    ensures s[..k] == t[..k]
    decreases k
  {
    hide ChoicesOk, Graph.IsWalk, TakesBranches;
    if k > 0 {
      PathIsDetermined(g, policy, origin, route, s, t, k - 1);
      assert k > 1 ==> s[..k - 1][k - 2] == t[..k - 1][k - 2];
      StepIsDetermined(g, policy, origin, route, s, t, k - 1);
      assert s[..k] == s[..k - 1] + [s[k - 1]] && t[..k] == t[..k - 1] + [t[k - 1]];
    }
  }
}
