/** The board of the checked-in specification, and that it passes the validation. */
module CanonicalBoard {
  import opened Domain
  import opened BoardGraph
  import opened BoardSearch
  import opened BoardValidate

  /** The spaces in declaration order: the outer ring 0..19 from home, then the inner ones. */
  function SpaceAt(k: nat): SpaceID {
    if k == 10 then BackMo
    else if k == 22 then BackMoDo
    else if k == 23 then BackMoGae
    else if k == 24 then Bang
    else Space(k)
  }

  function IndexOf(s: SpaceID): nat {
    match s
    case NoSpace => 29
    case Bang => 24
    case BackMo => 10
    case BackMoDo => 22
    case BackMoGae => 23
    case Space(n) => n
  }

  function TagsAt(k: nat): seq<Tag> {
    if k == 0 then [StartTag, OtherTag, OuterCornerTag]
    else if k == 5 || k == 10 || k == 15 then [OuterCornerTag, OtherTag]
    else if 6 <= k <= 14 then [OuterTag, BukCandidateTag]
    else if k < 20 then [OuterTag]
    else if k == 25 || k == 26 then [OtherTag, BukCandidateTag]
    else if k == 24 then [CenterTag, RouteChoiceTag]
    else [OtherTag]
  }

  const NODES: seq<Node> := seq(29, k requires 0 <= k < 29 => Node(SpaceAt(k), TagsAt(k)))

  /** The ring first, then the two ways to the center and the two ways out of it. */
  function EdgeAt(e: nat): Edge {
    if e < 19 then Edge(SpaceAt(e), SpaceAt(e + 1))
    else if e == 19 then Edge(SpaceAt(19), SpaceAt(0))
    else if e == 20 then Edge(SpaceAt(5), SpaceAt(20))
    else if e == 21 then Edge(SpaceAt(20), SpaceAt(21))
    else if e == 22 then Edge(SpaceAt(21), SpaceAt(24))
    else if e == 23 then Edge(SpaceAt(10), SpaceAt(22))
    else if e == 24 then Edge(SpaceAt(22), SpaceAt(23))
    else if e == 25 then Edge(SpaceAt(23), SpaceAt(24))
    else if e == 26 then Edge(SpaceAt(24), SpaceAt(25))
    else if e == 27 then Edge(SpaceAt(25), SpaceAt(26))
    else if e == 28 then Edge(SpaceAt(26), SpaceAt(15))
    else if e == 29 then Edge(SpaceAt(24), SpaceAt(27))
    else if e == 30 then Edge(SpaceAt(27), SpaceAt(28))
    else Edge(SpaceAt(28), SpaceAt(0))
  }

  const EDGES: seq<Edge> := seq(32, e requires 0 <= e < 32 => EdgeAt(e))

  const BOARD := Graph(SpaceAt(0), SpaceAt(0), NODES, EDGES,
    map[Space(5) := RouteChoice(Space(6), Space(20)), BackMo := RouteChoice(Space(11), BackMoDo),
      Bang := RouteChoice(Space(25), Space(27))],
    map[Space(5) := Space(20), BackMo := BackMoDo, Bang := Space(27)],
    Space(11),
    [Space(6), Space(7), Space(8), Space(9), Space(11), Space(12), Space(13), Space(14), Space(25), Space(26)],
    1)

  // ----- Nodes and edges -----

  lemma Known(s: SpaceID)
    ensures s in BOARD.Spaces() <==> IndexOf(s) < 29 && s == SpaceAt(IndexOf(s))
  {
    if IndexOf(s) < 29 && s == SpaceAt(IndexOf(s)) {
      assert NODES[IndexOf(s)].id == s;
    }
    if s in BOARD.Spaces() {
      var n :| n in NODES && n.id == s;
      var k :| 0 <= k < 29 && NODES[k] == n;
    }
  }

  lemma {:induction false} TargetsConcat(a: seq<Edge>, b: seq<Edge>, s: SpaceID)
    ensures Targets(a + b, s) == Targets(a, s) + Targets(b, s)
  {
    if a == [] {
      assert a + b == b;
    } else {
      assert (a + b)[1..] == a[1..] + b;
      TargetsConcat(a[1..], b, s);
    }
  }

  lemma {:induction false} TargetsNone(edges: seq<Edge>, s: SpaceID)
    requires forall e :: 0 <= e < |edges| ==> edges[e].from != s
    ensures Targets(edges, s) == []
  {
    if edges != [] {
      TargetsNone(edges[1..], s);
    }
  }

  lemma TargetsOne(edges: seq<Edge>, s: SpaceID, e: nat)
    requires e < |edges| && edges[e].from == s
    requires forall i :: 0 <= i < |edges| && i != e ==> edges[i].from != s
    ensures Targets(edges, s) == [edges[e].to]
  {
    assert edges == edges[..e] + ([edges[e]] + edges[e + 1..]);
    TargetsConcat(edges[..e], [edges[e]] + edges[e + 1..], s);
    TargetsConcat([edges[e]], edges[e + 1..], s);
    TargetsNone(edges[..e], s);
    TargetsNone(edges[e + 1..], s);
    assert [edges[e]][1..] == [];
  }

  lemma TargetsTwo(edges: seq<Edge>, s: SpaceID, d: nat, e: nat)
    requires d < e < |edges| && edges[d].from == s && edges[e].from == s
    requires forall i :: 0 <= i < |edges| && i != d && i != e ==> edges[i].from != s
    ensures Targets(edges, s) == [edges[d].to, edges[e].to]
  {
    assert edges == edges[..e] + edges[e..];
    TargetsConcat(edges[..e], edges[e..], s);
    TargetsOne(edges[..e], s, d);
    TargetsOne(edges[e..], s, 0);
  }

  /** The edge that leaves a space when no shortcut is taken. */
  function OutEdge(k: nat): nat {
    if k < 20 then k else if k == 20 then 21 else if k == 21 then 22 else if k == 22 then 24 else if k == 23 then 25
    else if k == 24 then 26 else if k == 25 then 27 else if k == 26 then 28 else if k == 27 then 30 else 31
  }

  predicate IsChoice(k: nat) {
    k == 5 || k == 10 || k == 24
  }

  function ShortcutEdge(k: nat): nat {
    if k == 5 then 20 else if k == 10 then 23 else 29
  }

  lemma AdjacentAt(k: nat)
    requires k < 29
    ensures BOARD.Adjacent(SpaceAt(k)) ==
      if IsChoice(k) then [EdgeAt(OutEdge(k)).to, EdgeAt(ShortcutEdge(k)).to] else [EdgeAt(OutEdge(k)).to]
  {
    if IsChoice(k) {
      TargetsTwo(EDGES, SpaceAt(k), OutEdge(k), ShortcutEdge(k));
    } else {
      TargetsOne(EDGES, SpaceAt(k), OutEdge(k));
    }
  }

  lemma BoardNodes()
    ensures NodesOk(BOARD) && EndpointsOk(BOARD)
  {
    Known(SpaceAt(0));
  }

  lemma BoardEdges()
    ensures EdgesOk(BOARD)
  {
    forall i, j | 0 <= i < j < 32
      ensures EDGES[i] != EDGES[j]
    {
    }
    forall e | 0 <= e < 32
      ensures EdgeOk(BOARD, EDGES[e])
    {
      Known(EDGES[e].from);
      Known(EDGES[e].to);
    }
  }

  lemma ChoiceAt(k: nat)
    requires IsChoice(k)
    ensures SpaceAt(k) in BOARD.routeChoices && SpaceAt(k) in BOARD.forcedEdges
    ensures BOARD.routeChoices[SpaceAt(k)] == RouteChoice(EdgeAt(OutEdge(k)).to, EdgeAt(ShortcutEdge(k)).to)
    ensures BOARD.forcedEdges[SpaceAt(k)] == EdgeAt(ShortcutEdge(k)).to
  {
    hide NODES, EDGES;
  }

  lemma NoChoiceAt(k: nat)
    requires !IsChoice(k)
    ensures SpaceAt(k) !in BOARD.routeChoices && SpaceAt(k) !in BOARD.forcedEdges
  {
    hide NODES, EDGES;
  }

  lemma ChoicesAreThree(s: SpaceID)
    ensures s in BOARD.routeChoices || s in BOARD.forcedEdges ==> IsChoice(IndexOf(s)) && s == SpaceAt(IndexOf(s))
  {
    hide NODES, EDGES;
  }

  lemma ChoiceOkAt(k: nat)
    requires IsChoice(k)
    ensures SpaceAt(k) in BOARD.routeChoices && ChoiceOk(BOARD, SpaceAt(k))
  {
    hide NODES, EDGES, BOARD, Graph.Adjacent, Graph.Spaces;
    ChoiceAt(k);
    AdjacentAt(k);
    Known(SpaceAt(k));
    Known(EdgeAt(OutEdge(k)).to);
    Known(EdgeAt(ShortcutEdge(k)).to);
  }

  lemma BoardChoices()
    ensures ChoicesOk(BOARD)
  {
    hide NODES, EDGES, BOARD, Graph.Adjacent, Graph.Spaces, ChoiceOk, EdgeAt, SpaceAt, IndexOf, IsChoice;
    forall s | s in BOARD.routeChoices || s in BOARD.forcedEdges
      ensures s in BOARD.routeChoices && s in BOARD.forcedEdges && ChoiceOk(BOARD, s)
      ensures BOARD.forcedEdges[s] == BOARD.routeChoices[s].shortcut
    {
      ChoicesAreThree(s);
      ChoiceAt(IndexOf(s));
      ChoiceOkAt(IndexOf(s));
    }
    forall s | s in BOARD.Spaces() && |BOARD.Adjacent(s)| > 1
      ensures s in BOARD.routeChoices
    {
      Known(s);
      AdjacentAt(IndexOf(s));
      ChoiceAt(IndexOf(s));
    }
  }

  // ----- Reachability -----

  /** The next space towards home under a policy, and a number that falls on the way. */
  function Towards(policy: ShortcutPolicy, k: nat): nat {
    IndexOf(if policy == Forced && IsChoice(k) then EdgeAt(ShortcutEdge(k)).to else EdgeAt(OutEdge(k)).to)
  }

  function Far(k: nat): nat {
    if k == 0 then 0 else if k < 20 then 2 * (20 - k)
    else if k == 20 || k == 22 then 15 else if k == 21 || k == 23 then 14 else if k == 24 then 13
    else if k == 25 then 12 else if k == 26 then 11 else if k == 27 then 2 else 1
  }

  /** One step of a policy from every space, falling towards home. */
  lemma StepTowards(policy: ShortcutPolicy, k: nat)
    requires k < 29
    ensures Towards(policy, k) < 29 && BOARD.Step(policy, SpaceAt(k), SpaceAt(Towards(policy, k)))
    ensures k != 0 ==> Far(Towards(policy, k)) < Far(k)
  {
    hide NODES, EDGES, BOARD, Graph.Adjacent, Graph.Spaces;
    AdjacentAt(k);
    Known(SpaceAt(Towards(policy, k)));
    if IsChoice(k) {
      ChoiceAt(k);
    } else {
      NoChoiceAt(k);
    }
  }

  lemma {:induction false} HomeFrom(policy: ShortcutPolicy, k: nat)
    requires k < 29
    ensures BOARD.Reachable(policy, SpaceAt(k), SpaceAt(0))
    decreases Far(k)
  {
    hide NODES, EDGES, BOARD, Graph.Step, Graph.Reaches, Towards, Far;
    if k == 0 {
      ReachesZero(BOARD, policy, SpaceAt(0));
    } else {
      StepTowards(policy, k);
      HomeFrom(policy, Towards(policy, k));
      var n: nat :| BOARD.Reaches(policy, SpaceAt(Towards(policy, k)), SpaceAt(0), n);
      ReachesZero(BOARD, policy, SpaceAt(k));
      ReachesSnoc(BOARD, policy, SpaceAt(k), SpaceAt(k), SpaceAt(Towards(policy, k)), 0);
      ReachesTransitive(BOARD, policy, SpaceAt(k), SpaceAt(Towards(policy, k)), SpaceAt(0), 1, n);
    }
  }

  /** The space before k on a way from the start. */
  function Before(k: nat): nat {
    if k == 0 then 0 else if k < 20 then k - 1 else if k == 20 then 5 else if k == 22 then 10 else if k == 24 then 21
    else if k == 27 then 24 else k - 1
  }

  lemma StepFromBefore(k: nat)
    requires 0 < k < 29
    ensures BOARD.Step(Selectable, SpaceAt(Before(k)), SpaceAt(k))
  {
    hide NODES, EDGES, BOARD, Graph.Adjacent, Graph.Spaces;
    AdjacentAt(Before(k));
    Known(SpaceAt(k));
  }

  lemma {:induction false} FromStart(k: nat)
    requires k < 29
    ensures BOARD.Reachable(Selectable, SpaceAt(0), SpaceAt(k))
  {
    hide NODES, EDGES, BOARD, Graph.Step, Graph.Reaches;
    if k == 0 {
      ReachesZero(BOARD, Selectable, SpaceAt(0));
    } else {
      FromStart(Before(k));
      var n: nat :| BOARD.Reaches(Selectable, SpaceAt(0), SpaceAt(Before(k)), n);
      StepFromBefore(k);
      ReachesSnoc(BOARD, Selectable, SpaceAt(0), SpaceAt(Before(k)), SpaceAt(k), n);
    }
  }

  lemma BoardReachability()
    ensures ReachabilityOk(BOARD)
  {
    forall s | s in BOARD.Spaces()
      ensures BOARD.Reachable(Selectable, BOARD.start, s)
      ensures BOARD.Reachable(Selectable, s, BOARD.home) && BOARD.Reachable(Forced, s, BOARD.home)
    {
      Known(s);
      FromStart(IndexOf(s));
      HomeFrom(Selectable, IndexOf(s));
      HomeFrom(Forced, IndexOf(s));
    }
  }

  // ----- The ring and the Buk candidates -----

  lemma OuterTags(k: nat)
    requires k < 29
    ensures IsOuter(Node(SpaceAt(k), TagsAt(k))) <==> k < 20
  {
  }

  lemma OuterIsRing(s: SpaceID)
    ensures s in Outer(BOARD) <==> IndexOf(s) < 20 && s == SpaceAt(IndexOf(s))
  {
    hide EDGES, TagsAt, IsOuter;
    if IndexOf(s) < 20 && s == SpaceAt(IndexOf(s)) {
      OuterTags(IndexOf(s));
      assert NODES[IndexOf(s)] in NODES;
    }
    if s in Outer(BOARD) {
      var n :| n in NODES && IsOuter(n) && n.id == s;
      var k :| 0 <= k < 29 && NODES[k] == n;
      OuterTags(k);
    }
  }

  lemma FilterOne(s: SpaceID, keep: set<SpaceID>)
    requires s in keep
    ensures Filter([s], keep) == [s]
  {
    assert [s][1..] == [];
  }

  function RingIndex(k: nat): nat {
    if k == 19 then 0 else k + 1
  }

  lemma RingStep(k: nat)
    requires k < 20
    ensures OuterNext(BOARD, SpaceAt(k)) == [SpaceAt(RingIndex(k))]
  {
    hide NODES, EDGES, BOARD, Graph.Adjacent, Outer, Filter;
    AdjacentAt(k);
    OuterIsRing(SpaceAt(RingIndex(k)));
    FilterOne(SpaceAt(RingIndex(k)), Outer(BOARD));
    if IsChoice(k) {
      ChoiceAt(k);
    } else {
      NoChoiceAt(k);
    }
  }

  function Ring(): (ring: seq<SpaceID>)
    ensures |ring| == 20 && forall k :: 0 <= k < 20 ==> ring[k] == SpaceAt(k)
  {
    seq(20, k requires 0 <= k < 20 => SpaceAt(k))
  }

  lemma RingSpaces(s: SpaceID)
    ensures s in Ring() <==> s in Outer(BOARD)
  {
    hide BOARD, Outer, Ring;
    OuterIsRing(s);
    if IndexOf(s) < 20 && s == SpaceAt(IndexOf(s)) {
      assert Ring()[IndexOf(s)] == s;
    }
  }

  lemma RingDiffers()
    ensures NoRepeats(Ring()) && Ring()[0] == BOARD.start
  {
    hide NODES, EDGES, Ring;
  }

  lemma BoardRing()
    ensures OuterRingOk(BOARD)
  {
    hide NODES, EDGES, BOARD, OuterNext, Outer, Ring, NoRepeats, SpaceAt;
    var ring := Ring();
    RingDiffers();
    forall s
      ensures s in ring <==> s in Outer(BOARD)
    {
      RingSpaces(s);
    }
    forall k | 0 <= k < 20
      ensures OuterNext(BOARD, ring[k]) == [RingAfter(ring, k)]
    {
      RingStep(k);
    }
    assert IsRing(BOARD, ring);
  }

  predicate IsCandidate(k: nat) {
    6 <= k <= 9 || 11 <= k <= 14 || k == 25 || k == 26
  }

  lemma CandidateList(s: SpaceID)
    ensures s in BOARD.bukCandidates <==> IsCandidate(IndexOf(s)) && s == SpaceAt(IndexOf(s))
  {
    hide NODES, EDGES;
    if IsCandidate(IndexOf(s)) && s == SpaceAt(IndexOf(s)) {
      var k := IndexOf(s);
      var i := if k <= 9 then k - 6 else if k <= 14 then k - 7 else k - 17;
      assert BOARD.bukCandidates[i] == s;
    }
  }

  lemma CandidateTags(k: nat)
    requires k < 29
    ensures BukCandidateTag in TagsAt(k) <==> IsCandidate(k)
    ensures CenterTag in TagsAt(k) <==> k == 24
  {
  }

  lemma Tagged(s: SpaceID)
    ensures s in TaggedBukCandidates(BOARD) <==> IsCandidate(IndexOf(s)) && s == SpaceAt(IndexOf(s))
  {
    hide EDGES, TagsAt;
    var k := IndexOf(s);
    if IsCandidate(k) && s == SpaceAt(k) {
      CandidateTags(k);
      assert NODES[k] in NODES && NODES[k].id == s;
    }
    if s in TaggedBukCandidates(BOARD) {
      var n :| n in NODES && BukCandidateTag in n.tags && n.id == s;
      var i :| 0 <= i < 29 && NODES[i] == n;
      CandidateTags(i);
    }
  }

  lemma {:induction false} FirstNodeTags(nodes: seq<Node>, s: SpaceID)
    ensures FirstNode(nodes, s).Some? ==> FirstNode(nodes, s).value in nodes && FirstNode(nodes, s).value.id == s
  {
    if nodes != [] {
      FirstNodeTags(nodes[1..], s);
    }
  }

  lemma NodeTags(s: SpaceID, n: Node)
    requires n in BOARD.nodes && n.id == s && IsCandidate(IndexOf(s))
    ensures CenterTag !in n.tags
  {
    hide TagsAt, EDGES;
    var i :| 0 <= i < 29 && NODES[i] == n;
    CandidateTags(i);
  }

  lemma CandidateOkAt(s: SpaceID)
    requires IsCandidate(IndexOf(s)) && s == SpaceAt(IndexOf(s))
    ensures BukCandidateOk(BOARD, s)
  {
    hide NODES, EDGES, BOARD, FirstNode;
    Known(s);
    NoChoiceAt(IndexOf(s));
    FirstNodeTags(BOARD.nodes, s);
    if FirstNode(BOARD.nodes, s).Some? {
      NodeTags(s, FirstNode(BOARD.nodes, s).value);
    }
  }

  lemma CandidatesDiffer()
    ensures NoRepeats(BOARD.bukCandidates) && |BOARD.bukCandidates| == 10
    ensures BOARD.fixedBukDestination == SpaceAt(11)
  {
    hide NODES, EDGES;
  }

  lemma BoardBuk()
    ensures BukOk(BOARD)
  {
    hide NODES, EDGES, BOARD, BukCandidateOk, TaggedBukCandidates, NoRepeats, FirstNode;
    forall s
      ensures s in BOARD.bukCandidates <==> IsCandidate(IndexOf(s)) && s == SpaceAt(IndexOf(s))
      ensures s in TaggedBukCandidates(BOARD) <==> s in BOARD.bukCandidates
      ensures s in BOARD.bukCandidates ==> BukCandidateOk(BOARD, s)
    {
      CandidateList(s);
      Tagged(s);
      if s in BOARD.bukCandidates {
        CandidateOkAt(s);
      }
    }
    CandidatesDiffer();
    NoRepeatsCardinality(BOARD.bukCandidates);
    Known(SpaceAt(11));
  }

  /** The checked-in board passes every rule of the validation. */
  lemma BoardIsValid()
    ensures ValidGraph(BOARD)
  {
    hide NodesOk, EndpointsOk, EdgesOk, ChoicesOk, ReachabilityOk, OuterRingOk, BukOk;
    BoardNodes();
    BoardEdges();
    BoardChoices();
    BoardReachability();
    BoardRing();
    BoardBuk();
  }
}
