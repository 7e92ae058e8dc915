/** The gate that a board specification must pass, and the checks that decide it. */
module BoardValidate {
  import opened Domain
  import opened BoardGraph
  import opened BoardSearch

  ghost predicate NodesOk(g: Graph) {
    && (forall n :: n in g.nodes ==> n.id != NoSpace)
    && forall i, j :: 0 <= i < j < |g.nodes| ==> g.nodes[i].id != g.nodes[j].id
  }

  ghost predicate EndpointsOk(g: Graph) {
    g.start in g.Spaces() && g.home in g.Spaces() && g.start == g.home
  }

  ghost predicate EdgesOk(g: Graph) {
    && (forall e :: e in g.edges ==> EdgeOk(g, e))
    && forall i, j :: 0 <= i < j < |g.edges| ==> g.edges[i] != g.edges[j]
  }

  predicate EdgeOk(g: Graph, e: Edge) {
    e.from in g.Spaces() && e.to in g.Spaces() && e.from != e.to
  }

  /** A route choice names two distinct edges, and they are the only ones. */
  predicate ChoiceOk(g: Graph, s: SpaceID)
    requires s in g.routeChoices
  {
    var choice := g.routeChoices[s];
    && s in g.Spaces() && choice.normal in g.Spaces() && choice.shortcut in g.Spaces()
    && choice.normal != choice.shortcut
    && choice.normal in g.Adjacent(s) && choice.shortcut in g.Adjacent(s)
    && |g.Adjacent(s)| == 2
  }

  ghost predicate ChoicesOk(g: Graph) {
    && (forall s :: s in g.routeChoices ==> ChoiceOk(g, s))
    && (forall s {:trigger g.Adjacent(s)} :: s in g.Spaces() && |g.Adjacent(s)| > 1 ==> s in g.routeChoices)
    && (forall s :: s in g.forcedEdges ==> s in g.routeChoices && g.forcedEdges[s] == g.routeChoices[s].shortcut)
    && forall s :: s in g.routeChoices ==> s in g.forcedEdges
  }

  ghost predicate ReachesHome(g: Graph, policy: ShortcutPolicy) {
    forall s {:trigger g.Reachable(policy, s, g.home)} :: s in g.Spaces() ==> g.Reachable(policy, s, g.home)
  }

  ghost predicate ReachabilityOk(g: Graph) {
    g.start in g.Spaces() ==>
      && (forall s {:trigger g.Reachable(Selectable, g.start, s)} :: s in g.Spaces() ==>
        g.Reachable(Selectable, g.start, s))
      && (g.home in g.Spaces() ==> ReachesHome(g, Selectable) && ReachesHome(g, Forced))
  }

  predicate IsOuter(n: Node) {
    StartTag in n.tags || OuterTag in n.tags || OuterCornerTag in n.tags
  }

  function Outer(g: Graph): set<SpaceID> {
    set n | n in g.nodes && IsOuter(n) :: n.id
  }

  function Filter(s: seq<SpaceID>, keep: set<SpaceID>): seq<SpaceID> {
    if s == [] then [] else (if s[0] in keep then [s[0]] else []) + Filter(s[1..], keep)
  }

  /** The outer successors of a space when no shortcut is taken. */
  function OuterNext(g: Graph, s: SpaceID): seq<SpaceID> {
    if s in g.routeChoices then Filter([g.routeChoices[s].normal], Outer(g)) else Filter(g.Adjacent(s), Outer(g))
  }

  /** The outer spaces form one cycle through the start, and each has one normal outer successor. */
  ghost predicate IsRing(g: Graph, ring: seq<SpaceID>) {
    && |ring| > 0 && ring[0] == g.start && NoRepeats(ring)
    && (forall s :: s in ring <==> s in Outer(g))
    && forall i :: 0 <= i < |ring| ==> OuterNext(g, ring[i]) == [RingAfter(ring, i)]
  }

  function RingAfter(ring: seq<SpaceID>, i: nat): SpaceID
    requires i < |ring|
  {
    if i == |ring| - 1 then ring[0] else ring[i + 1]
  }

  ghost predicate OuterRingOk(g: Graph) {
    exists ring :: IsRing(g, ring)
  }

  /** The entry the source's node index keeps for an identifier: the first one declared. */
  function FirstNode(nodes: seq<Node>, id: SpaceID): Option<Node> {
    if nodes == [] then None else if nodes[0].id == id then Some(nodes[0]) else FirstNode(nodes[1..], id)
  }

  predicate BukCandidateOk(g: Graph, s: SpaceID) {
    && s in g.Spaces() && s !in g.routeChoices
    && (FirstNode(g.nodes, s).Some? ==> CenterTag !in FirstNode(g.nodes, s).value.tags)
  }

  function TaggedBukCandidates(g: Graph): set<SpaceID> {
    set n | n in g.nodes && BukCandidateTag in n.tags :: n.id
  }

  ghost predicate BukOk(g: Graph) {
    && (forall s :: s in g.bukCandidates ==> BukCandidateOk(g, s))
    && NoRepeats(g.bukCandidates)
    && TaggedBukCandidates(g) == (set s | s in g.bukCandidates)
    && |set s | s in g.bukCandidates| == 10
    && g.fixedBukDestination in g.Spaces() && g.fixedBukDestination in g.bukCandidates
  }

  /** What the canonical board specification demands of its graph. */
  ghost predicate ValidGraph(g: Graph) {
    && NodesOk(g) && EndpointsOk(g) && EdgesOk(g) && ChoicesOk(g) && ReachabilityOk(g)
    && OuterRingOk(g) && BukOk(g) && g.homeCheckpointDistance == 1
  }

  datatype Problem =
    | EmptyNodeID | DuplicateNode(id: SpaceID)
    | UnknownStart | UnknownHome | StartIsNotHome
    | BadEdge(edge: Edge) | DuplicateEdge(edge: Edge)
    | BadChoice(source: SpaceID) | BranchWithoutChoice(source: SpaceID)
    | BadForcedEdge(source: SpaceID) | ChoiceWithoutForcedEdge(source: SpaceID)
    | Unreachable | NoHomePath(source: SpaceID, policy: ShortcutPolicy)
    | StartNotOuter | BrokenRing(at: SpaceID)
    | BadBukCandidate(id: SpaceID) | DuplicateBukCandidate(id: SpaceID)
    | BukTagsDiffer | BukCount | BadFixedBuk
    | BadHomeDistance

  method ValidateNodes(g: Graph) returns (problems: seq<Problem>)
    ensures problems == [] <==> NodesOk(g)
  {
    problems := [];
    var seen: set<SpaceID> := {};
    for i := 0 to |g.nodes|
      invariant seen == set k | 0 <= k < i :: g.nodes[k].id
      invariant problems == [] <==>
        (forall k :: 0 <= k < i ==> g.nodes[k].id != NoSpace) &&
        (forall j, k :: 0 <= j < k < i ==> g.nodes[j].id != g.nodes[k].id)
    {
      var id := g.nodes[i].id;
      if id in seen {
        problems := problems + [DuplicateNode(id)];
      }
      if id == NoSpace {
        problems := problems + [EmptyNodeID];
      }
      seen := seen + {id};
    }
  }

  method ValidateEdges(g: Graph) returns (problems: seq<Problem>)
    ensures problems == [] <==> EdgesOk(g)
  {
    problems := [];
    var seen: set<Edge> := {};
    for i := 0 to |g.edges|
      invariant seen == set k | 0 <= k < i :: g.edges[k]
      invariant problems == [] <==>
        (forall k :: 0 <= k < i ==> EdgeOk(g, g.edges[k])) &&
        (forall j, k :: 0 <= j < k < i ==> g.edges[j] != g.edges[k])
    {
      var e := g.edges[i];
      if !EdgeOk(g, e) {
        problems := problems + [BadEdge(e)];
      }
      if e in seen {
        problems := problems + [DuplicateEdge(e)];
      }
      seen := seen + {e};
    }
  }

  method ValidateRouteChoices(g: Graph) returns (problems: seq<Problem>)
    ensures problems == [] <==> ChoicesOk(g)
  {
    hide ChoiceOk, Graph.Spaces, Graph.Adjacent;
    problems := [];
    var rest := g.routeChoices.Keys;
    while rest != {}
      invariant rest <= g.routeChoices.Keys
      invariant problems == [] <==>
        forall s :: s in g.routeChoices && s !in rest ==> ChoiceOk(g, s) && s in g.forcedEdges
      decreases rest
    {
      var s :| s in rest;
      rest := rest - {s};
      if !ChoiceOk(g, s) {
        problems := problems + [BadChoice(s)];
      }
      if s !in g.forcedEdges {
        problems := problems + [ChoiceWithoutForcedEdge(s)];
      }
    }
    ghost var choices := problems == [];
    rest := g.Spaces();
    while rest != {}
      invariant rest <= g.Spaces()
      invariant problems == [] <==>
        choices && forall s :: s in g.Spaces() && s !in rest && |g.Adjacent(s)| > 1 ==> s in g.routeChoices
      decreases rest
    {
      var s :| s in rest;
      rest := rest - {s};
      if |g.Adjacent(s)| > 1 && s !in g.routeChoices {
        problems := problems + [BranchWithoutChoice(s)];
      }
    }
    ghost var branches := problems == [];
    rest := g.forcedEdges.Keys;
    while rest != {}
      invariant rest <= g.forcedEdges.Keys
      invariant problems == [] <==> branches && forall s :: s in g.forcedEdges && s !in rest ==>
        s in g.routeChoices && g.forcedEdges[s] == g.routeChoices[s].shortcut
      decreases rest
    {
      var s :| s in rest;
      rest := rest - {s};
      if s !in g.routeChoices || g.forcedEdges[s] != g.routeChoices[s].shortcut {
        problems := problems + [BadForcedEdge(s)];
      }
    }
  }

  method ValidateHomePaths(g: Graph, policy: ShortcutPolicy) returns (problems: seq<Problem>)
    requires g.home in g.Spaces()
    ensures problems == [] <==> ReachesHome(g, policy)
  {
    problems := [];
    var rest := g.Spaces();
    while rest != {}
      invariant rest <= g.Spaces()
      invariant problems == [] <==> forall s :: s in g.Spaces() && s !in rest ==> g.Reachable(policy, s, g.home)
      decreases rest
    {
      var s :| s in rest;
      rest := rest - {s};
      var path := ShortestDistance(g, s, g.home, policy);
      if path == Ok(None) {
        problems := problems + [NoHomePath(s, policy)];
      }
    }
  }

  method ValidateReachability(g: Graph) returns (problems: seq<Problem>)
    ensures problems == [] <==> ReachabilityOk(g)
  {
    if g.start !in g.Spaces() {
      return [];
    }
    problems := [];
    var reachable := ReachableFrom(g, g.start, Selectable);
    NoRepeatsCardinality(reachable.value);
    SameSizeSubset((set s | s in reachable.value), g.Spaces());
    if |reachable.value| != |g.Spaces()| {
      problems := [Unreachable];
    }
    if g.home in g.Spaces() {
      var selectable := ValidateHomePaths(g, Selectable);
      var forced := ValidateHomePaths(g, Forced);
      problems := problems + selectable + forced;
    }
  }

  lemma NoRepeatsCardinality(s: seq<SpaceID>)
    requires NoRepeats(s)
    ensures |set x | x in s| == |s|
  {
    if s != [] {
      var last := |s| - 1;
      NoRepeatsCardinality(s[..last]);
      assert (set x | x in s) == (set x | x in s[..last]) + {s[last]};
    }
  }

  lemma SameSizeSubset(a: set<SpaceID>, b: set<SpaceID>)
    requires a <= b
    ensures |a| == |b| <==> a == b
  {
    assert b == a + (b - a);
    assert |b| == |a| + |b - a|;
  }

  lemma FilterKeeps(s: seq<SpaceID>, keep: set<SpaceID>)
    ensures forall x :: x in Filter(s, keep) <==> x in s && x in keep
  {
  }

  /** The spaces walked so far: distinct outer spaces, each the only normal successor of the last. */
  ghost predicate OnTrail(g: Graph, trail: seq<SpaceID>) {
    && |trail| > 0 && trail[0] == g.start && NoRepeats(trail)
    && forall i :: 0 <= i < |trail| - 1 ==> OuterNext(g, trail[i]) == [trail[i + 1]]
  }

  lemma TrailStarts(g: Graph, trail: seq<SpaceID>)
    requires OnTrail(g, trail)
    ensures |trail| > 0 && trail[0] == g.start
  {
  }

  lemma TrailShortens(g: Graph, trail: seq<SpaceID>)
    requires OnTrail(g, trail) && |trail| > 1
    ensures OnTrail(g, trail[..|trail| - 1]) && trail[0] != trail[|trail| - 1]
    ensures OuterNext(g, trail[|trail| - 2]) == [trail[|trail| - 1]]
  {
    hide OuterNext;
    assert OuterNext(g, trail[|trail| - 2]) == [trail[|trail| - 2 + 1]];
  }

  lemma RingStarts(g: Graph, ring: seq<SpaceID>)
    requires IsRing(g, ring)
    ensures |ring| > 0 && ring[0] == g.start && |ring| == |Outer(g)|
  {
    hide OuterNext, Outer;
    NoRepeatsCardinality(ring);
    assert (set s | s in ring) == Outer(g);
  }

  lemma RingStep(g: Graph, ring: seq<SpaceID>, k: nat)
    requires IsRing(g, ring) && k < |ring|
    ensures OuterNext(g, ring[k]) == [RingAfter(ring, k)]
  {
    hide OuterNext, Outer;
  }

  lemma PrefixGrows(trail: seq<SpaceID>, ring: seq<SpaceID>, last: nat)
    requires |trail| == last + 1 <= |ring| && trail[..last] == ring[..last] && trail[last] == ring[last]
    ensures trail == ring[..last + 1]
  {
    assert trail == trail[..last] + [trail[last]];
  }

  /** Successors are forced, so a trail can only be an initial stretch of the ring. */
  lemma {:induction false} TrailFollowsRing(g: Graph, ring: seq<SpaceID>, trail: seq<SpaceID>)
    requires IsRing(g, ring) && OnTrail(g, trail)
    ensures |trail| <= |ring| == |Outer(g)| && trail == ring[..|trail|]
  {
    hide OuterNext, Outer, OnTrail, IsRing;
    TrailStarts(g, trail);
    RingStarts(g, ring);
    var last := |trail| - 1;
    if last > 0 {
      TrailShortens(g, trail);
      TrailFollowsRing(g, ring, trail[..last]);
      assert trail[last - 1] == trail[..last][last - 1] == ring[last - 1];
      RingStep(g, ring, last - 1);
      PrefixGrows(trail, ring, last);
    }
  }

  /** On a board with a ring the trail can only be prolonged by the next ring space,
      and it closes exactly when it has covered all outer spaces. */
  lemma RingContinuesTrail(g: Graph, ring: seq<SpaceID>, trail: seq<SpaceID>)
    requires IsRing(g, ring) && OnTrail(g, trail)
    ensures |OuterNext(g, trail[|trail| - 1])| == 1
    ensures OuterNext(g, trail[|trail| - 1])[0] in trail ==>
      OuterNext(g, trail[|trail| - 1])[0] == g.start && |trail| == |Outer(g)|
    ensures |trail| <= |Outer(g)|
  {
    hide OuterNext, Outer;
    TrailFollowsRing(g, ring, trail);
    var last := |trail| - 1;
    assert trail[last] == ring[last];
    if last < |ring| - 1 {
      assert ring[last + 1] !in trail;
    }
  }

  /** Walking normal successors from the start decides whether the outer spaces form one ring. */
  method ValidateOuterRing(g: Graph) returns (problems: seq<Problem>)
    ensures problems == [] <==> OuterRingOk(g)
  {
    hide OuterNext, Outer;
    var outer := Outer(g);
    if g.start !in outer {
      return [StartNotOuter];
    }
    var visited := {g.start};
    var current := g.start;
    ghost var trail := [g.start];
    for step := 0 to |outer| + 1
      invariant OnTrail(g, trail) && |trail| == step + 1 && trail[step] == current
      invariant visited == (set s | s in trail) && visited <= outer
    {
      forall ring | IsRing(g, ring)
        ensures RingAllows(g, trail)
      {
        RingContinuesTrail(g, ring, trail);
      }
      var next := OuterNext(g, current);
      if |next| != 1 {
        return [BrokenRing(current)];
      }
      OuterNextIsOuter(g, current);
      current := next[0];
      if current == g.start {
        NoRepeatsCardinality(trail);
        if |visited| != |outer| {
          return [BrokenRing(current)];
        }
        SameSizeSubset(visited, outer);
        assert IsRing(g, trail);
        return [];
      }
      if current in visited {
        return [BrokenRing(current)];
      }
      visited := visited + {current};
      trail := trail + [current];
    }
    forall ring | IsRing(g, ring)
      ensures false
    {
      RingContinuesTrail(g, ring, trail);
    }
    return [BrokenRing(g.start)];
  }

  /** What a ring says about the next space of a trail. */
  ghost predicate RingAllows(g: Graph, trail: seq<SpaceID>)
    requires |trail| > 0
  {
    var next := OuterNext(g, trail[|trail| - 1]);
    |next| == 1 && (next[0] in trail ==> next[0] == g.start && |trail| == |Outer(g)|)
  }

  lemma OuterNextIsOuter(g: Graph, s: SpaceID)
    ensures forall x :: x in OuterNext(g, s) ==> x in Outer(g)
  {
    FilterKeeps(if s in g.routeChoices then [g.routeChoices[s].normal] else g.Adjacent(s), Outer(g));
  }

  method ValidateBukCandidates(g: Graph) returns (problems: seq<Problem>)
    ensures problems == [] <==> BukOk(g)
  {
    hide BukCandidateOk, Graph.Spaces, TaggedBukCandidates;
    problems := [];
    var explicit: set<SpaceID> := {};
    for i := 0 to |g.bukCandidates|
      invariant explicit == set k | 0 <= k < i :: g.bukCandidates[k]
      invariant problems == [] <==>
        (forall k :: 0 <= k < i ==> BukCandidateOk(g, g.bukCandidates[k])) &&
        (forall j, k :: 0 <= j < k < i ==> g.bukCandidates[j] != g.bukCandidates[k])
    {
      var id := g.bukCandidates[i];
      if !BukCandidateOk(g, id) {
        problems := problems + [BadBukCandidate(id)];
      }
      if id in explicit {
        problems := problems + [DuplicateBukCandidate(id)];
      }
      explicit := explicit + {id};
    }
    assert explicit == set s | s in g.bukCandidates;
    if TaggedBukCandidates(g) != explicit {
      problems := problems + [BukTagsDiffer];
    }
    if |explicit| != 10 {
      problems := problems + [BukCount];
    }
    if g.fixedBukDestination !in g.Spaces() || g.fixedBukDestination !in explicit {
      problems := problems + [BadFixedBuk];
    }
  }

  /** The gate: it collects no problem exactly for the graphs the specification accepts. */
  method Validate(g: Graph) returns (problems: seq<Problem>)
    ensures problems == [] <==> ValidGraph(g)
  {
    hide NodesOk, EdgesOk, ChoicesOk, ReachabilityOk, OuterRingOk, BukOk, Graph.Spaces;
    var nodes := ValidateNodes(g);
    problems := nodes;
    if g.start !in g.Spaces() {
      problems := problems + [UnknownStart];
    }
    if g.home !in g.Spaces() {
      problems := problems + [UnknownHome];
    }
    if g.start != g.home {
      problems := problems + [StartIsNotHome];
    }
    var edges := ValidateEdges(g);
    var choices := ValidateRouteChoices(g);
    var reachability := ValidateReachability(g);
    var ring := ValidateOuterRing(g);
    var buk := ValidateBukCandidates(g);
    problems := problems + edges + choices + reachability + ring + buk;
    if g.homeCheckpointDistance != 1 {
      problems := problems + [BadHomeDistance];
    }
  }
}
