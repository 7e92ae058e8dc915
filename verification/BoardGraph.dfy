/** The board graph, its policy-legal steps, and the walks those steps make. */
module BoardGraph {
  import opened Domain

  datatype Tag = StartTag | OuterTag | OuterCornerTag | CenterTag | RouteChoiceTag | BukCandidateTag | OtherTag

  datatype Node = Node(id: SpaceID, tags: seq<Tag>)

  datatype Edge = Edge(from: SpaceID, to: SpaceID)

  datatype RouteChoice = RouteChoice(normal: SpaceID, shortcut: SpaceID)

  datatype BoardError =
    | UnknownSpace(space: SpaceID)
    | InvalidPosition
    | FinishDistanceUnavailable
    | NoFinishPath
    | InvalidForwardSpaces
    | ForwardMovementUnavailable
    | NoForwardSpace
    | BackdoMovementUnavailable
    | BackdoHistoryUnavailable

  datatype Graph = Graph(
    start: SpaceID,
    home: SpaceID,
    nodes: seq<Node>,
    edges: seq<Edge>,
    routeChoices: map<SpaceID, RouteChoice>,
    forcedEdges: map<SpaceID, SpaceID>,
    fixedBukDestination: SpaceID,
    bukCandidates: seq<SpaceID>,
    homeCheckpointDistance: int)
  {
    /** The keys of the source's node index. */
    function Spaces(): set<SpaceID> {
      set n | n in nodes :: n.id
    }

    /** The declared successors of a space, in edge order. */
    function Adjacent(s: SpaceID): seq<SpaceID> {
      Targets(edges, s)
    }

    /** The successors a shortcut policy leaves legal. */
    function ForwardFor(s: SpaceID, policy: ShortcutPolicy): seq<SpaceID> {
      if policy == Forced && s in forcedEdges then [forcedEdges[s]] else Adjacent(s)
    }

    /** One policy-legal step that stays on known spaces. */
    predicate Step(policy: ShortcutPolicy, a: SpaceID, b: SpaceID) {
      b in ForwardFor(a, policy) && b in Spaces()
    }

    /** A nonempty walk of policy-legal steps. */
    ghost predicate IsWalk(policy: ShortcutPolicy, walk: seq<SpaceID>) {
      |walk| > 0 && forall i :: 0 <= i < |walk| - 1 ==> Step(policy, walk[i], walk[i + 1])
    }

    ghost predicate WalkFromTo(policy: ShortcutPolicy, walk: seq<SpaceID>, a: SpaceID, b: SpaceID) {
      IsWalk(policy, walk) && walk[0] == a && walk[|walk| - 1] == b
    }

    /** Some walk of exactly n steps leads from a to b. */
    ghost predicate Reaches(policy: ShortcutPolicy, a: SpaceID, b: SpaceID, n: nat) {
      exists walk :: WalkFromTo(policy, walk, a, b) && |walk| == n + 1
    }

    ghost predicate Reachable(policy: ShortcutPolicy, a: SpaceID, b: SpaceID) {
      exists n: nat :: Reaches(policy, a, b, n)
    }

    /** n is the length of a shortest walk from a to b. */
    ghost predicate IsDistance(policy: ShortcutPolicy, a: SpaceID, b: SpaceID, n: nat) {
      Reaches(policy, a, b, n) && forall m: nat :: Reaches(policy, a, b, m) ==> n <= m
    }
  }

  /** The destinations of the edges that leave s, in declaration order. */
  function Targets(edges: seq<Edge>, s: SpaceID): (r: seq<SpaceID>)
    ensures forall t :: t in r <==> Edge(s, t) in edges
  {
    if edges == [] then []
    else
      var rest := Targets(edges[1..], s);
      assert edges == [edges[0]] + edges[1..];
      if edges[0].from == s then [edges[0].to] + rest else rest
  }

  lemma ReachesZero(g: Graph, policy: ShortcutPolicy, a: SpaceID)
    ensures g.Reaches(policy, a, a, 0)
  {
    assert g.WalkFromTo(policy, [a], a, a);
  }

  /** A walk can be prolonged by one legal step. */
  lemma ReachesSnoc(g: Graph, policy: ShortcutPolicy, a: SpaceID, b: SpaceID, c: SpaceID, n: nat)
    requires g.Reaches(policy, a, b, n) && g.Step(policy, b, c)
    ensures g.Reaches(policy, a, c, n + 1)
  {
    var walk :| g.WalkFromTo(policy, walk, a, b) && |walk| == n + 1;
    assert g.WalkFromTo(policy, walk + [c], a, c);
  }

  /** The last step of a nonempty walk can be taken off. */
  lemma ReachesUnsnoc(g: Graph, policy: ShortcutPolicy, a: SpaceID, c: SpaceID, n: nat) returns (b: SpaceID)
    requires n > 0 && g.Reaches(policy, a, c, n)
    ensures g.Reaches(policy, a, b, n - 1) && g.Step(policy, b, c)
  {
    var walk :| g.WalkFromTo(policy, walk, a, c) && |walk| == n + 1;
    b := walk[n - 1];
    assert g.WalkFromTo(policy, walk[..n], a, b);
    assert g.Step(policy, walk[n - 1], walk[n - 1 + 1]);
  }

  /** The first step of a nonempty walk can be taken off. */
  lemma ReachesUncons(g: Graph, policy: ShortcutPolicy, a: SpaceID, c: SpaceID, n: nat) returns (b: SpaceID)
    requires n > 0 && g.Reaches(policy, a, c, n)
    ensures g.Step(policy, a, b) && g.Reaches(policy, b, c, n - 1)
  {
    var walk :| g.WalkFromTo(policy, walk, a, c) && |walk| == n + 1;
    b := walk[1];
    assert g.Step(policy, walk[0], walk[0 + 1]);
    assert g.IsWalk(policy, walk[1..]) by {
      forall i | 0 <= i < n - 1
        ensures g.Step(policy, walk[1..][i], walk[1..][i + 1])
      {
        assert g.Step(policy, walk[i + 1], walk[i + 1 + 1]);
      }
    }
    assert g.WalkFromTo(policy, walk[1..], b, c);
  }

  /** Walks can be joined end to end. */
  lemma ReachesTransitive(g: Graph, policy: ShortcutPolicy, a: SpaceID, b: SpaceID, c: SpaceID, m: nat, n: nat)
    requires g.Reaches(policy, a, b, m) && g.Reaches(policy, b, c, n)
    ensures g.Reaches(policy, a, c, m + n)
    decreases n
  {
    if n == 0 {
      var walk :| g.WalkFromTo(policy, walk, b, c) && |walk| == 1;
    } else {
      var d := ReachesUnsnoc(g, policy, b, c, n);
      ReachesTransitive(g, policy, a, b, d, m, n - 1);
      ReachesSnoc(g, policy, a, d, c, m + n - 1);
    }
  }

  /** A reachable space has a shortest walk. */
  lemma DistanceExists(g: Graph, policy: ShortcutPolicy, a: SpaceID, b: SpaceID, n: nat) returns (d: nat)
    requires g.Reaches(policy, a, b, n)
    ensures d <= n && g.IsDistance(policy, a, b, d)
    decreases n
  {
    if m: nat :| m < n && g.Reaches(policy, a, b, m) {
      d := DistanceExists(g, policy, a, b, m);
    } else {
      d := n;
    }
  }
}
