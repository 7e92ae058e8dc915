/** The two breadth-first searches of the board, proved against the walks of BoardGraph. */
module BoardSearch {
  import opened Domain
  import opened BoardGraph

  datatype Visit = Visit(space: SpaceID, distance: nat)

  /** Every recorded distance is the length of some walk from the origin. */
  ghost predicate Recorded(g: Graph, policy: ShortcutPolicy, origin: SpaceID, dist: map<SpaceID, nat>) {
    && dist.Keys <= g.Spaces()
    && origin in dist && dist[origin] == 0
    && forall v :: v in dist ==> g.Reaches(policy, origin, v, dist[v])
  }

  /** Visited spaces outside `pending` have all their successors visited, one step further at most. */
  ghost predicate Expanded(g: Graph, policy: ShortcutPolicy, dist: map<SpaceID, nat>, pending: set<SpaceID>) {
    forall u, w :: u in dist && u !in pending && g.Step(policy, u, w) ==> w in dist && dist[w] <= dist[u] + 1
  }

  ghost predicate QueueRecorded(dist: map<SpaceID, nat>, queue: seq<Visit>, level: nat) {
    && (forall v :: v in dist ==> dist[v] <= level + 1)
    && (forall i :: 0 <= i < |queue| ==>
      queue[i].space in dist && dist[queue[i].space] == queue[i].distance && level <= queue[i].distance <= level + 1)
    && forall i, j :: 0 <= i < j < |queue| ==> queue[i].distance <= queue[j].distance
  }

  ghost function Queued(queue: seq<Visit>): set<SpaceID> {
    set q | q in queue :: q.space
  }

  /** While only spaces at `level` or beyond are pending, every walk no longer than `level`
      ends on a visited space whose recorded distance it does not beat. */
  lemma {:induction false} ShortWalksAreRecorded(g: Graph, policy: ShortcutPolicy, origin: SpaceID,
      dist: map<SpaceID, nat>, pending: set<SpaceID>, level: nat, x: SpaceID, n: nat)
    requires Recorded(g, policy, origin, dist) && Expanded(g, policy, dist, pending)
    requires forall p :: p in pending && p in dist ==> level <= dist[p]
    requires n <= level && g.Reaches(policy, origin, x, n)
    ensures x in dist && dist[x] <= n
    decreases n
  {
    if n == 0 {
      var walk :| g.WalkFromTo(policy, walk, origin, x) && |walk| == 1;
    } else {
      var y := ReachesUnsnoc(g, policy, origin, x, n);
      ShortWalksAreRecorded(g, policy, origin, dist, pending, level, y, n - 1);
    }
  }

  /** The search state: what is recorded, what is queued, and what is still being expanded. */
  ghost predicate Frontier(g: Graph, policy: ShortcutPolicy, origin: SpaceID,
      dist: map<SpaceID, nat>, queue: seq<Visit>, level: nat, expanding: set<SpaceID>)
  {
    && Recorded(g, policy, origin, dist)
    && QueueRecorded(dist, queue, level)
    && (forall u :: u in expanding ==> u in dist && dist[u] == level)
    && Expanded(g, policy, dist, Queued(queue) + expanding)
  }

  lemma FrontierInit(g: Graph, policy: ShortcutPolicy, origin: SpaceID)
    requires origin in g.Spaces()
    ensures Frontier(g, policy, origin, map[origin := 0], [Visit(origin, 0)], 0, {})
  {
    ReachesZero(g, policy, origin);
    assert [Visit(origin, 0)][0].space in Queued([Visit(origin, 0)]);
  }

  lemma FrontierPop(g: Graph, policy: ShortcutPolicy, origin: SpaceID,
      dist: map<SpaceID, nat>, queue: seq<Visit>, level: nat)
    requires |queue| > 0 && Frontier(g, policy, origin, dist, queue, level, {})
    ensures Frontier(g, policy, origin, dist, queue[1..], queue[0].distance, {queue[0].space})
  {
    assert Queued(queue) <= Queued(queue[1..]) + {queue[0].space};
  }

  lemma RecordedDiscover(g: Graph, policy: ShortcutPolicy, origin: SpaceID,
      dist: map<SpaceID, nat>, u: SpaceID, next: SpaceID)
    requires Recorded(g, policy, origin, dist) && u in dist
    requires g.Step(policy, u, next) && next !in dist
    ensures Recorded(g, policy, origin, dist[next := dist[u] + 1])
  {
    ReachesSnoc(g, policy, origin, u, next, dist[u]);
  }

  lemma QueueDiscover(dist: map<SpaceID, nat>, queue: seq<Visit>, level: nat, next: SpaceID)
    requires QueueRecorded(dist, queue, level) && next !in dist
    ensures QueueRecorded(dist[next := level + 1], queue + [Visit(next, level + 1)], level)
    ensures Queued(queue + [Visit(next, level + 1)]) == Queued(queue) + {next}
  {
    var queue' := queue + [Visit(next, level + 1)];
    assert queue'[|queue|].space == next;
    forall q | q in queue
      ensures q in queue'
    {
      var i :| 0 <= i < |queue| && queue[i] == q;
      assert queue'[i] == q;
    }
  }

  lemma ExpandedDiscover(g: Graph, policy: ShortcutPolicy, dist: map<SpaceID, nat>,
      pending: set<SpaceID>, next: SpaceID, d: nat)
    requires Expanded(g, policy, dist, pending) && next !in dist
    ensures Expanded(g, policy, dist[next := d], pending + {next})
  {
    hide Graph.Step;
  }

  lemma FrontierDiscover(g: Graph, policy: ShortcutPolicy, origin: SpaceID,
      dist: map<SpaceID, nat>, queue: seq<Visit>, level: nat, u: SpaceID, next: SpaceID)
    requires Frontier(g, policy, origin, dist, queue, level, {u})
    requires g.Step(policy, u, next) && next !in dist
    ensures Frontier(g, policy, origin, dist[next := level + 1], queue + [Visit(next, level + 1)], level, {u})
  {
    hide Graph.Step, Recorded, QueueRecorded, Expanded, Queued;
    RecordedDiscover(g, policy, origin, dist, u, next);
    QueueDiscover(dist, queue, level, next);
    ExpandedDiscover(g, policy, dist, Queued(queue) + {u}, next, level + 1);
    assert Queued(queue) + {u} + {next} == Queued(queue) + {next} + {u};
  }

  lemma FrontierFinish(g: Graph, policy: ShortcutPolicy, origin: SpaceID,
      dist: map<SpaceID, nat>, queue: seq<Visit>, level: nat, u: SpaceID)
    requires Frontier(g, policy, origin, dist, queue, level, {u})
    requires forall w :: g.Step(policy, u, w) ==> w in dist
    ensures Frontier(g, policy, origin, dist, queue, level, {})
  {
  }

  /** A space first met while expanding `level` lies exactly one step beyond it. */
  lemma FirstArrival(g: Graph, policy: ShortcutPolicy, origin: SpaceID,
      dist: map<SpaceID, nat>, queue: seq<Visit>, level: nat, u: SpaceID, next: SpaceID)
    requires Frontier(g, policy, origin, dist, queue, level, {u})
    requires g.Step(policy, u, next) && next !in dist
    ensures g.IsDistance(policy, origin, next, level + 1)
  {
    ReachesSnoc(g, policy, origin, u, next, level);
    forall m: nat | g.Reaches(policy, origin, next, m)
      ensures level + 1 <= m
    {
      if m <= level {
        ShortWalksAreRecorded(g, policy, origin, dist, Queued(queue) + {u}, level, next, m);
      }
    }
  }

  lemma ExhaustedMeansUnreachable(g: Graph, policy: ShortcutPolicy, origin: SpaceID,
      dist: map<SpaceID, nat>, level: nat, destination: SpaceID)
    requires Frontier(g, policy, origin, dist, [], level, {}) && destination !in dist
    ensures !g.Reachable(policy, origin, destination)
  {
    forall n: nat | g.Reaches(policy, origin, destination, n)
      ensures false
    {
      ShortWalksAreRecorded(g, policy, origin, dist, {}, n, destination, n);
    }
  }

  /** The breadth-first search that measures finish distances: it reports a distance exactly when
      the destination is reachable, and the reported number is the length of a shortest walk. */
  method ShortestDistance(g: Graph, origin: SpaceID, destination: SpaceID, policy: ShortcutPolicy)
    returns (r: Outcome<Option<nat>, BoardError>)
    ensures r.Ok? <==> origin in g.Spaces() && destination in g.Spaces()
    ensures r.Err? ==> r.error == UnknownSpace(if origin in g.Spaces() then destination else origin)
    ensures r.Ok? && r.value.Some? ==> g.IsDistance(policy, origin, destination, r.value.value)
    ensures r.Ok? && r.value.None? ==> !g.Reachable(policy, origin, destination)
  {
    hide Frontier, Graph.Spaces, Graph.Reachable;
    if origin !in g.Spaces() {
      return Err(UnknownSpace(origin));
    }
    if destination !in g.Spaces() {
      return Err(UnknownSpace(destination));
    }
    ReachesZero(g, policy, origin);
    if origin == destination {
      return Ok(Some(0));
    }
    var visited := {origin};
    var queue := [Visit(origin, 0)];
    ghost var dist: map<SpaceID, nat> := map[origin := 0];
    ghost var level: nat := 0;
    FrontierInit(g, policy, origin);
    while |queue| > 0
      invariant dist.Keys == visited <= g.Spaces() && destination !in visited
      invariant Frontier(g, policy, origin, dist, queue, level, {})
      decreases g.Spaces() - visited, |queue|
    {
      FrontierPop(g, policy, origin, dist, queue, level);
      var current := queue[0];
      ghost var before, rest := visited, queue[1..];
      queue := queue[1..];
      level := current.distance;
      var successors := g.ForwardFor(current.space, policy);
      for k := 0 to |successors|
        invariant dist.Keys == visited && before <= visited <= g.Spaces() && destination !in visited
        invariant Frontier(g, policy, origin, dist, queue, level, {current.space})
        invariant forall i :: 0 <= i < k && successors[i] in g.Spaces() ==> successors[i] in visited
        invariant visited == before ==> queue == rest
      {
        var next := successors[k];
        if next !in g.Spaces() || next in visited {
          continue;
        }
        if next == destination {
          FirstArrival(g, policy, origin, dist, queue, level, current.space, next);
          return Ok(Some(current.distance + 1));
        }
        FrontierDiscover(g, policy, origin, dist, queue, level, current.space, next);
        visited := visited + {next};
        queue := queue + [Visit(next, current.distance + 1)];
        dist := dist[next := level + 1];
      }
      assert forall w :: g.Step(policy, current.space, w) ==> w in visited;
      FrontierFinish(g, policy, origin, dist, queue, level, current.space);
    }
    ExhaustedMeansUnreachable(g, policy, origin, dist, level, destination);
    return Ok(None);
  }

  ghost predicate NoRepeats(s: seq<SpaceID>) {
    forall i, j :: 0 <= i < j < |s| ==> s[i] != s[j]
  }

  /** The set search's state: what was collected, what is queued, what is still being expanded. */
  ghost predicate Flood(g: Graph, policy: ShortcutPolicy, origin: SpaceID, visited: set<SpaceID>,
      queue: seq<SpaceID>, result: seq<SpaceID>, expanding: set<SpaceID>)
  {
    && origin in visited
    && (forall s :: s in result || s in queue <==> s in visited)
    && (forall s :: s in visited ==> g.Reachable(policy, origin, s))
    && NoRepeats(result + queue)
    && forall u, w :: u in result && u !in expanding && g.Step(policy, u, w) ==> w in visited
  }

  lemma FloodInit(g: Graph, policy: ShortcutPolicy, origin: SpaceID)
    ensures Flood(g, policy, origin, {origin}, [origin], [], {})
  {
    ReachesZero(g, policy, origin);
  }

  lemma FloodPop(g: Graph, policy: ShortcutPolicy, origin: SpaceID, visited: set<SpaceID>,
      queue: seq<SpaceID>, result: seq<SpaceID>)
    requires |queue| > 0 && Flood(g, policy, origin, visited, queue, result, {})
    ensures Flood(g, policy, origin, visited, queue[1..], result + [queue[0]], {queue[0]})
    ensures queue[0] in visited
  {
    hide Graph.Step, Graph.Reachable;
    assert (result + [queue[0]]) + queue[1..] == result + queue;
    assert queue == [queue[0]] + queue[1..];
  }

  lemma FloodDiscover(g: Graph, policy: ShortcutPolicy, origin: SpaceID, visited: set<SpaceID>,
      queue: seq<SpaceID>, result: seq<SpaceID>, u: SpaceID, next: SpaceID)
    requires Flood(g, policy, origin, visited, queue, result, {u})
    requires u in visited && g.Step(policy, u, next) && next !in visited
    ensures Flood(g, policy, origin, visited + {next}, queue + [next], result, {u})
  {
    var n: nat :| g.Reaches(policy, origin, u, n);
    ReachesSnoc(g, policy, origin, u, next, n);
    assert g.Reachable(policy, origin, next);
    hide Graph.Step, Graph.Reachable;
    assert result + (queue + [next]) == (result + queue) + [next];
  }

  lemma FloodFinish(g: Graph, policy: ShortcutPolicy, origin: SpaceID, visited: set<SpaceID>,
      queue: seq<SpaceID>, result: seq<SpaceID>, u: SpaceID)
    requires Flood(g, policy, origin, visited, queue, result, {u})
    requires forall w :: g.Step(policy, u, w) ==> w in visited
    ensures Flood(g, policy, origin, visited, queue, result, {})
  {
  }

  lemma FloodDone(g: Graph, policy: ShortcutPolicy, origin: SpaceID, visited: set<SpaceID>, result: seq<SpaceID>)
    requires Flood(g, policy, origin, visited, [], result, {})
    ensures NoRepeats(result)
    ensures forall s :: s in result <==> g.Reachable(policy, origin, s)
    ensures forall s :: s in result <==> s in visited
  {
    assert result + [] == result;
    forall s, n: nat | g.Reaches(policy, origin, s, n)
      ensures s in result
    {
      ClosedSetHoldsWalks(g, policy, origin, visited, s, n);
    }
  }

  /** The set search: it returns every space reachable from the origin, each exactly once. */
  method ReachableFrom(g: Graph, origin: SpaceID, policy: ShortcutPolicy)
    returns (r: Outcome<seq<SpaceID>, BoardError>)
    ensures r.Ok? <==> origin in g.Spaces()
    ensures r.Err? ==> r.error == UnknownSpace(origin)
    ensures r.Ok? ==> forall s :: s in r.value <==> g.Reachable(policy, origin, s)
    ensures r.Ok? ==> NoRepeats(r.value) && forall s :: s in r.value ==> s in g.Spaces()
  {
    hide Flood, Graph.Spaces, Graph.Reachable;
    if origin !in g.Spaces() {
      return Err(UnknownSpace(origin));
    }
    var visited := {origin};
    var queue := [origin];
    var result := [];
    FloodInit(g, policy, origin);
    while |queue| > 0
      invariant visited <= g.Spaces()
      invariant Flood(g, policy, origin, visited, queue, result, {})
      decreases g.Spaces() - visited, |queue|
    {
      FloodPop(g, policy, origin, visited, queue, result);
      var current := queue[0];
      ghost var before, rest := visited, queue[1..];
      queue := queue[1..];
      result := result + [current];
      var successors := g.ForwardFor(current, policy);
      for k := 0 to |successors|
        invariant before <= visited <= g.Spaces() && current in visited
        invariant Flood(g, policy, origin, visited, queue, result, {current})
        invariant forall i :: 0 <= i < k && successors[i] in g.Spaces() ==> successors[i] in visited
        invariant visited == before ==> queue == rest
      {
        var next := successors[k];
        if next in visited || next !in g.Spaces() {
          continue;
        }
        FloodDiscover(g, policy, origin, visited, queue, result, current, next);
        visited := visited + {next};
        queue := queue + [next];
      }
      assert forall w :: g.Step(policy, current, w) ==> w in visited;
      FloodFinish(g, policy, origin, visited, queue, result, current);
    }
    FloodDone(g, policy, origin, visited, result);
    return Ok(result);
  }

  /** A set closed under legal steps holds the end of every walk that starts in it. */
  lemma {:induction false} ClosedSetHoldsWalks(g: Graph, policy: ShortcutPolicy, origin: SpaceID,
      closed: set<SpaceID>, x: SpaceID, n: nat)
    requires origin in closed && g.Reaches(policy, origin, x, n)
    requires forall u, w :: u in closed && g.Step(policy, u, w) ==> w in closed
    ensures x in closed
    decreases n
  {
    if n == 0 {
      var walk :| g.WalkFromTo(policy, walk, origin, x) && |walk| == 1;
    } else {
      var y := ReachesUnsnoc(g, policy, origin, x, n);
      ClosedSetHoldsWalks(g, policy, origin, closed, y, n - 1);
    }
  }

  /** The length of a shortest walk between two connected spaces. */
  ghost function Steps(g: Graph, policy: ShortcutPolicy, a: SpaceID, b: SpaceID): (n: nat)
    requires g.Reachable(policy, a, b)
    ensures g.IsDistance(policy, a, b, n)
  {
    assert exists d: nat :: g.IsDistance(policy, a, b, d) by {
      var n: nat :| g.Reaches(policy, a, b, n);
      var d := DistanceExists(g, policy, a, b, n);
    }
    var d: nat :| g.IsDistance(policy, a, b, d);
    d
  }

  lemma DistanceIsSteps(g: Graph, policy: ShortcutPolicy, a: SpaceID, b: SpaceID, n: nat)
    requires g.IsDistance(policy, a, b, n)
    ensures g.Reachable(policy, a, b) && Steps(g, policy, a, b) == n
  {
  }

  /** The minimum legal number of forward spaces from a position to the finish. */
  ghost function RemainingDistance(g: Graph, position: Position, policy: ShortcutPolicy): Outcome<int, BoardError> {
    match position.state
    case Waiting => Err(FinishDistanceUnavailable)
    case Finished => Err(FinishDistanceUnavailable)
    case HomeCheckpoint =>
      if position.space != g.home then Err(InvalidPosition) else Ok(g.homeCheckpointDistance)
    case OnBoard =>
      if position.space !in g.Spaces() then Err(UnknownSpace(position.space))
      else if position.space == g.home then Err(InvalidPosition)
      else if g.home !in g.Spaces() then Err(UnknownSpace(g.home))
      else if g.Reachable(policy, position.space, g.home) then
        Ok(Steps(g, policy, position.space, g.home) + g.homeCheckpointDistance)
      else Err(NoFinishPath)
  }

  method RemainingForwardDistance(g: Graph, position: Position, policy: ShortcutPolicy)
    returns (r: Outcome<int, BoardError>)
    ensures r == RemainingDistance(g, position, policy)
  {
    match position.state {
      case Waiting => return Err(FinishDistanceUnavailable);
      case Finished => return Err(FinishDistanceUnavailable);
      case HomeCheckpoint =>
        if position.space != g.home {
          return Err(InvalidPosition);
        }
        return Ok(g.homeCheckpointDistance);
      case OnBoard =>
        if position.space !in g.Spaces() {
          return Err(UnknownSpace(position.space));
        }
        if position.space == g.home {
          return Err(InvalidPosition);
        }
    }
    var distance := ShortestDistance(g, position.space, g.home, policy);
    match distance {
      case Err(error) => return Err(error);
      case Ok(None) => return Err(NoFinishPath);
      case Ok(Some(n)) =>
        DistanceIsSteps(g, policy, position.space, g.home, n);
        return Ok(n + g.homeCheckpointDistance);
    }
  }
}
