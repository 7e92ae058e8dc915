/** The CPU's choice for the first queued result: build one candidate per group, rank them, draw among the best. */
module CpuPolicy {
  import opened Domain
  import opened BoardGraph
  import opened BoardSearch
  import opened BoardForward
  import opened TurnQueue
  import opened MatchRules
  import opened MatchEngine
  import CpuGroupKey

  // ----- Ranking -----

  datatype Rank = Rank(
    immediateFinish: bool, captures: bool, stacks: bool, entersShortcut: bool, hasDistance: bool, distance: int)

  function CompareBool(left: bool, right: bool): int {
    if left == right then 0 else if left then 1 else -1
  }

  /** Positive when left is better, zero when neither is. */
  function Compare(left: Rank, right: Rank): int {
    if left.immediateFinish != right.immediateFinish then CompareBool(left.immediateFinish, right.immediateFinish)
    else if left.captures != right.captures then CompareBool(left.captures, right.captures)
    else if left.stacks != right.stacks then CompareBool(left.stacks, right.stacks)
    else if left.entersShortcut != right.entersShortcut then CompareBool(left.entersShortcut, right.entersShortcut)
    else if left.hasDistance != right.hasDistance then CompareBool(left.hasDistance, right.hasDistance)
    else if left.hasDistance && left.distance != right.distance then (if left.distance < right.distance then 1 else -1)
    else 0
  }

  /** The comparison is a total preorder: reflexive, total with opposite signs, and transitive. */
  lemma CompareIsTotalPreorder(a: Rank, b: Rank, c: Rank)
    ensures Compare(a, a) == 0 && Compare(a, b) == -Compare(b, a)
    ensures Compare(a, b) >= 0 && Compare(b, c) >= 0 ==> Compare(a, c) >= 0
    ensures Compare(a, b) > 0 && Compare(b, c) >= 0 ==> Compare(a, c) > 0
    ensures Compare(a, b) >= 0 && Compare(b, c) > 0 ==> Compare(a, c) > 0
    ensures Compare(a, b) == 0 && Compare(b, c) == 0 ==> Compare(a, c) == 0
  {
  }

  datatype CpuCandidate = CpuCandidate(piece: PieceID, moved: seq<PieceID>, route: Option<Route>, rank: Rank)

  /** No candidate of the list is better. */
  predicate IsMaximal(all: seq<CpuCandidate>, c: CpuCandidate) {
    forall k :: 0 <= k < |all| ==> Compare(c.rank, all[k].rank) >= 0
  }

  /** The best candidates of the list, in its order. */
  function Maxima(all: seq<CpuCandidate>, candidates: seq<CpuCandidate>): (r: seq<CpuCandidate>)
    ensures forall c :: c in r <==> c in candidates && IsMaximal(all, c)
  {
    if candidates == [] then []
    else
      assert candidates == [candidates[0]] + candidates[1..];
      (if IsMaximal(all, candidates[0]) then [candidates[0]] else []) + Maxima(all, candidates[1..])
  }

  lemma {:induction false} MaximaConcat(all: seq<CpuCandidate>, a: seq<CpuCandidate>, b: seq<CpuCandidate>)
    ensures Maxima(all, a + b) == Maxima(all, a) + Maxima(all, b)
  {
    hide IsMaximal;
    if a == [] {
      assert a + b == b;
    } else {
      assert (a + b)[1..] == a[1..] + b;
      MaximaConcat(all, a[1..], b);
    }
  }

  lemma {:induction false} MaximaSame(before: seq<CpuCandidate>, after: seq<CpuCandidate>,
      candidates: seq<CpuCandidate>)
    requires forall c :: c in candidates ==> (IsMaximal(before, c) <==> IsMaximal(after, c))
    ensures Maxima(before, candidates) == Maxima(after, candidates)
  {
    hide IsMaximal;
    if candidates != [] {
      assert candidates[0] in candidates;
      MaximaSame(before, after, candidates[1..]);
    }
  }

  lemma {:induction false} MaximaNone(all: seq<CpuCandidate>, candidates: seq<CpuCandidate>)
    requires forall c :: c in candidates ==> !IsMaximal(all, c)
    ensures Maxima(all, candidates) == []
  {
    hide IsMaximal;
    if candidates != [] {
      assert candidates[0] in candidates;
      MaximaNone(all, candidates[1..]);
    }
  }

  /** One more candidate replaces the best ones, joins them, or leaves them. */
  lemma MaximaGrow(seen: seq<CpuCandidate>, c: CpuCandidate, best: seq<CpuCandidate>)
    requires best == Maxima(seen, seen) && best != []
    ensures Maxima(seen + [c], seen + [c]) ==
      if Compare(c.rank, best[0].rank) > 0 then [c]
      else if Compare(c.rank, best[0].rank) == 0 then best + [c]
      else best
  {
    var all := seen + [c];
    var top := best[0];
    assert top in best;
    MaximaConcat(all, seen, [c]);
    assert Maxima(all, [c]) == if IsMaximal(all, c) then [c] else [] by {
      assert [c][1..] == [];
    }
    RankAgainst(seen, top, c);
    if Compare(c.rank, top.rank) > 0 {
      MaximaNone(all, seen);
      assert [] + [c] == [c];
    } else {
      MaximaSame(seen, all, seen);
      assert best + [] == best;
    }
  }

  lemma RankAgainst(seen: seq<CpuCandidate>, top: CpuCandidate, c: CpuCandidate)
    requires IsMaximal(seen, top) && top in seen
    ensures IsMaximal(seen + [c], c) <==> Compare(c.rank, top.rank) >= 0
    ensures Compare(c.rank, top.rank) > 0 ==> forall d :: d in seen ==> !IsMaximal(seen + [c], d)
    ensures Compare(c.rank, top.rank) <= 0 ==> forall d :: d in seen ==>
      (IsMaximal(seen, d) <==> IsMaximal(seen + [c], d))
  {
    hide Compare;
    var all := seen + [c];
    var t :| 0 <= t < |seen| && seen[t] == top;
    assert all[t] == top && all[|seen|] == c;
    CompareIsTotalPreorder(c.rank, c.rank, c.rank);
    forall k | 0 <= k < |seen|
      ensures all[k] == seen[k] && Compare(top.rank, seen[k].rank) >= 0
      ensures Compare(c.rank, top.rank) >= 0 ==> Compare(c.rank, seen[k].rank) >= 0
    {
      CompareIsTotalPreorder(c.rank, top.rank, seen[k].rank);
    }
    forall d | d in seen
      ensures Compare(c.rank, top.rank) > 0 ==> !IsMaximal(all, d)
      ensures Compare(c.rank, top.rank) <= 0 ==> (IsMaximal(seen, d) <==> IsMaximal(all, d))
    {
      MaximalAgainst(seen, top, c, d, t);
    }
  }

  lemma MaximalAgainst(seen: seq<CpuCandidate>, top: CpuCandidate, c: CpuCandidate, d: CpuCandidate, t: nat)
    requires IsMaximal(seen, top) && t < |seen| && seen[t] == top && d in seen
    ensures Compare(c.rank, top.rank) > 0 ==> !IsMaximal(seen + [c], d)
    ensures Compare(c.rank, top.rank) <= 0 ==> (IsMaximal(seen, d) <==> IsMaximal(seen + [c], d))
  {
    hide Compare;
    var all := seen + [c];
    assert all[|seen|] == c && forall k :: 0 <= k < |seen| ==> all[k] == seen[k];
    var i :| 0 <= i < |seen| && seen[i] == d;
    CompareIsTotalPreorder(c.rank, top.rank, d.rank);
    CompareIsTotalPreorder(d.rank, c.rank, c.rank);
    CompareIsTotalPreorder(d.rank, top.rank, c.rank);
    CompareIsTotalPreorder(top.rank, c.rank, c.rank);
  }

  /** The running best list. */
  method BestCandidates(candidates: seq<CpuCandidate>) returns (best: seq<CpuCandidate>)
    requires candidates != []
    ensures best == Maxima(candidates, candidates) && best != []
  {
    hide Maxima, Compare;
    best := [candidates[0]];
    FirstIsBest(candidates[0]);
    assert candidates[..1] == [candidates[0]];
    for k := 1 to |candidates|
      invariant best == Maxima(candidates[..k], candidates[..k]) && best != []
    {
      var c := candidates[k];
      MaximaGrow(candidates[..k], c, best);
      assert candidates[..k + 1] == candidates[..k] + [c];
      var comparison := Compare(c.rank, best[0].rank);
      if comparison > 0 {
        best := [c];
      } else if comparison == 0 {
        best := best + [c];
      }
    }
    assert candidates[..|candidates|] == candidates;
  }

  lemma FirstIsBest(c: CpuCandidate)
    ensures Maxima([c], [c]) == [c]
  {
    assert [c][1..] == [];
    CompareIsTotalPreorder(c.rank, c.rank, c.rank);
  }

  // ----- Candidates -----

  datatype CpuError =
    | NoResultToken | GameFault(game: GameError) | DistanceFault(board: BoardError)
    | InvalidMovePlans | RandomSourceOutOfRange

  /** One plan takes no route; of two plans the CPU takes the shortcut. */
  function AutomaticPlan(plans: seq<ForwardPlan>): Outcome<(ForwardPlan, Option<Route>), CpuError> {
    if |plans| == 1 then Ok((plans[0], None))
    else if |plans| != 2 then Err(InvalidMovePlans)
    else if plans[0].route == Shortcut then Ok((plans[0], Some(Shortcut)))
    else if plans[1].route == Shortcut then Ok((plans[1], Some(Shortcut)))
    else Err(InvalidMovePlans)
  }

  predicate MeetsOpponent(pieces: seq<Piece>, team: Team, state: PieceState, space: SpaceID) {
    exists k :: 0 <= k < |pieces| && pieces[k].state == state && pieces[k].space == space && pieces[k].team != team
  }

  predicate JoinsAlly(pieces: seq<Piece>, team: Team, state: PieceState, space: SpaceID, moved: seq<PieceID>) {
    exists k :: 0 <= k < |pieces| && pieces[k].state == state && pieces[k].space == space && pieces[k].team == team
      && pieces[k].id !in moved
  }

  /** What a decided move promises, before the distance of the piece is known. */
  function Promise(rules: Rules, pieces: seq<Piece>, team: Team, move: Resolution, moved: seq<PieceID>): Rank {
    var finishes := move.state == Finished;
    Rank(finishes,
      !finishes && MeetsOpponent(pieces, team, move.state, move.space),
      !finishes && rules.settings.stackingEnabled && JoinsAlly(pieces, team, move.state, move.space, moved),
      move.route == Some(Shortcut), false, 0)
  }

  /** The move the CPU would make with a piece, the route it would send, and the pieces that move. */
  function PieceMove(rules: Rules, game: GameState, team: Team, id: PieceID, result: YutResult)
    : (r: Outcome<Option<(Resolution, Option<Route>)>, CpuError>)
    ensures r.Ok? && r.value.Some? ==> IndicesValid(game.pieces, r.value.value.0.moving)
  {
    if result == Backdo then
      match DecideBackdo(rules, game, team, id)
      case Ok(decision) => Ok(Some((decision.plan, None)))
      case Err(error) =>
        if error == Planning(BackdoMovementUnavailable) || error == Planning(BackdoHistoryUnavailable) then Ok(None)
        else Err(GameFault(error))
    else
      match OrdinaryPlans(rules, game, team, id, result)
      case Err(error) => if error == Planning(ForwardMovementUnavailable) then Ok(None) else Err(GameFault(error))
      case Ok(move) =>
        match AutomaticPlan(move.plans)
        case Err(error) => Err(error)
        case Ok((plan, route)) => Ok(Some((ForwardResolution(plan, move.moving), route)))
  }

  ghost function PieceDistance(rules: Rules, p: Piece): Outcome<int, BoardError> {
    RemainingDistance(rules.graph, p.At(), rules.settings.shortcutPolicy)
  }

  ghost function CandidateFor(rules: Rules, game: GameState, team: Team, p: Piece, result: YutResult)
    : Outcome<Option<CpuCandidate>, CpuError>
  {
    match PieceMove(rules, game, team, p.id, result)
    case Err(error) => Err(error)
    case Ok(None) => Ok(None)
    case Ok(Some((move, route))) =>
      var moved := IDsOf(game.pieces, move.moving);
      var rank := Promise(rules, game.pieces, team, move, moved);
      if p.id !in moved then Err(InvalidMovePlans)
      else if p.state == Waiting then Ok(Some(CpuCandidate(p.id, moved, route, rank)))
      else
        match PieceDistance(rules, p)
        case Err(error) => Err(DistanceFault(error))
        case Ok(distance) =>
          if distance <= 0 then Err(InvalidMovePlans)
          else Ok(Some(CpuCandidate(p.id, moved, route, rank.(hasDistance := true, distance := distance))))
  }

  // ----- Groups and their keys -----

  /** Different pieces have different texts. */
  ghost predicate Injective(text: PieceID -> string) {
    forall x, y :: text(x) == text(y) ==> x == y
  }

  function Texts(text: PieceID -> string, ids: seq<PieceID>): (r: seq<string>)
    ensures |r| == |ids|
  {
    if ids == [] then [] else [text(ids[0])] + Texts(text, ids[1..])
  }

  lemma {:induction false} TextsCount(text: PieceID -> string, ids: seq<PieceID>, id: PieceID)
    requires Injective(text)
    ensures multiset(Texts(text, ids))[text(id)] == multiset(ids)[id]
  {
    if ids != [] {
      TextsCount(text, ids[1..], id);
      assert ids == [ids[0]] + ids[1..];
      assert text(ids[0]) == text(id) <==> ids[0] == id;
    }
  }

  lemma {:induction false} TextsAreOfIds(text: PieceID -> string, ids: seq<PieceID>, t: string)
    requires t in Texts(text, ids)
    ensures exists id :: id in ids && text(id) == t
  {
    if text(ids[0]) != t {
      assert t in Texts(text, ids[1..]);
      TextsAreOfIds(text, ids[1..], t);
    }
  }

  /** Keys over texts merge exactly the groups that are equal as collections of pieces. */
  lemma KeysMergeGroups(text: PieceID -> string, a: seq<PieceID>, b: seq<PieceID>)
    requires Injective(text)
    ensures CpuGroupKey.GroupKey(Texts(text, a)) == CpuGroupKey.GroupKey(Texts(text, b)) <==> multiset(a) == multiset(b)
  {
    CpuGroupKey.GroupKeyExactly(Texts(text, a), Texts(text, b));
    var x, y := multiset(Texts(text, a)), multiset(Texts(text, b));
    if x == y {
      forall id: PieceID
        ensures multiset(a)[id] == multiset(b)[id]
      {
        TextsCount(text, a, id);
        TextsCount(text, b, id);
      }
    }
    if multiset(a) == multiset(b) {
      forall t
        ensures x[t] == y[t]
      {
        TextCountFollows(text, a, b, t);
      }
    }
  }

  lemma TextCountFollows(text: PieceID -> string, a: seq<PieceID>, b: seq<PieceID>, t: string)
    requires Injective(text) && multiset(a) == multiset(b)
    ensures multiset(Texts(text, a))[t] == multiset(Texts(text, b))[t]
  {
    if t in Texts(text, a) || t in Texts(text, b) {
      if t in Texts(text, a) {
        TextsAreOfIds(text, a, t);
      } else {
        TextsAreOfIds(text, b, t);
      }
      var id :| text(id) == t;
      TextsCount(text, a, id);
      TextsCount(text, b, id);
    }
  }

  predicate SameGroup(a: CpuCandidate, moved: seq<PieceID>) {
    multiset(a.moved) == multiset(moved)
  }

  predicate Seen(candidates: seq<CpuCandidate>, moved: seq<PieceID>) {
    exists k :: 0 <= k < |candidates| && SameGroup(candidates[k], moved)
  }

  /** The candidates of the first n pieces: the first member of each group stands for the group. */
  ghost function CandidatesBelow(rules: Rules, game: GameState, team: Team, result: YutResult, n: nat)
    : Outcome<seq<CpuCandidate>, CpuError>
    requires n <= |game.pieces|
  {
    if n == 0 then Ok([])
    else
      match CandidatesBelow(rules, game, team, result, n - 1)
      case Err(error) => Err(error)
      case Ok(rest) =>
        var p := game.pieces[n - 1];
        if p.team != team || p.state == Finished then Ok(rest)
        else
          match CandidateFor(rules, game, team, p, result)
          case Err(error) => Err(error)
          case Ok(None) => Ok(rest)
          case Ok(Some(c)) => if Seen(rest, c.moved) then Ok(rest) else Ok(rest + [c])
  }

  datatype CpuDecision =
    | ResolveHeadBuk(token: TokenID)
    | DiscardResult(token: TokenID)
    | MovePiece(token: TokenID, piece: PieceID, route: Option<Route>)

  /** The decision about the head of the queue; `ticket` is the random draw among the best, of which there
      always is one. */
  ghost function DecisionOf(rules: Rules, game: GameState, queue: seq<Token>, team: Team, ticket: nat)
    : Outcome<CpuDecision, CpuError>
  {
    if queue == [] then Err(NoResultToken)
    else if game.winner.Some? then Err(GameFault(MatchEnded))
    else if queue[0].result == Buk then Ok(ResolveHeadBuk(queue[0].id))
    else
      match CandidatesBelow(rules, game, team, queue[0].result, |game.pieces|)
      case Err(error) => Err(error)
      case Ok(candidates) =>
        if candidates == [] then Ok(DiscardResult(queue[0].id))
        else
          var best := Maxima(candidates, candidates);
          if |best| != 1 && ticket >= |best| then Err(RandomSourceOutOfRange)
          else if best == [] then Err(InvalidMovePlans)
          else
            var c := best[if |best| == 1 then 0 else ticket];
            Ok(MovePiece(queue[0].id, c.piece, c.route))
  }

  // ----- The policy's loops -----

  /** An error at one piece stays the answer of the whole scan. */
  lemma {:induction false} CandidateErrorStays(rules: Rules, game: GameState, team: Team, result: YutResult, n: nat,
      m: nat)
    requires n <= m <= |game.pieces| && CandidatesBelow(rules, game, team, result, n).Err?
    ensures CandidatesBelow(rules, game, team, result, m) == CandidatesBelow(rules, game, team, result, n)
  {
    hide CandidateFor;
    if n < m {
      CandidateErrorStays(rules, game, team, result, n, m - 1);
    }
  }

  method DestinationEffects(rules: Rules, pieces: seq<Piece>, team: Team, move: Resolution, moved: seq<PieceID>)
    returns (captures: bool, stacks: bool)
    ensures captures == Promise(rules, pieces, team, move, moved).captures
    ensures stacks == Promise(rules, pieces, team, move, moved).stacks
  {
    captures, stacks := false, false;
    if move.state == Finished {
      return;
    }
    for k := 0 to |pieces|
      invariant captures == MeetsOpponent(pieces[..k], team, move.state, move.space)
      invariant stacks ==
        (rules.settings.stackingEnabled && JoinsAlly(pieces[..k], team, move.state, move.space, moved))
    {
      assert pieces[..k + 1] == pieces[..k] + [pieces[k]];
      OneMorePiece(pieces[..k], pieces[k], team, move, moved);
      if pieces[k].state == move.state && pieces[k].space == move.space {
        if pieces[k].team != team {
          captures := true;
        } else if rules.settings.stackingEnabled && pieces[k].id !in moved {
          stacks := true;
        }
      }
    }
    assert pieces[..|pieces|] == pieces;
  }

  lemma OneMorePiece(seen: seq<Piece>, p: Piece, team: Team, move: Resolution, moved: seq<PieceID>)
    ensures MeetsOpponent(seen + [p], team, move.state, move.space) <==>
      MeetsOpponent(seen, team, move.state, move.space)
        || (p.state == move.state && p.space == move.space && p.team != team)
    ensures JoinsAlly(seen + [p], team, move.state, move.space, moved) <==>
      JoinsAlly(seen, team, move.state, move.space, moved)
      || (p.state == move.state && p.space == move.space && p.team == team && p.id !in moved)
  {
    var all := seen + [p];
    assert all[|seen|] == p && forall k :: 0 <= k < |seen| ==> all[k] == seen[k];
  }

  method CandidateForPiece(game: Game, team: Team, p: Piece, result: YutResult)
    returns (r: Outcome<Option<CpuCandidate>, CpuError>)
    requires game.Valid()
    ensures r == CandidateFor(game.rules, game.State(), team, p, result)
  {
    hide PieceMove, Promise, IDsOf, Game.Valid;
    var decided := PieceMove(game.rules, game.State(), team, p.id, result);
    if decided.Err? {
      return Err(decided.error);
    }
    if decided.value.None? {
      return Ok(None);
    }
    var (move, route) := decided.value.value;
    var moved := game.PieceIDs(move.moving);
    if p.id !in moved {
      return Err(InvalidMovePlans);
    }
    var captures, stacks := DestinationEffects(game.rules, game.pieces, team, move, moved);
    PromiseParts(game.rules, game.pieces, team, move, moved);
    var rank := Rank(move.state == Finished, captures, stacks, move.route == Some(Shortcut), false, 0);
    if p.state != Waiting {
      var distance := RemainingForwardDistance(game.rules.graph, p.At(), game.rules.settings.shortcutPolicy);
      if distance.Err? {
        return Err(DistanceFault(distance.error));
      }
      if distance.value <= 0 {
        return Err(InvalidMovePlans);
      }
      rank := rank.(hasDistance := true, distance := distance.value);
    }
    return Ok(Some(CpuCandidate(p.id, moved, route, rank)));
  }

  lemma PromiseParts(rules: Rules, pieces: seq<Piece>, team: Team, move: Resolution, moved: seq<PieceID>)
    ensures var p := Promise(rules, pieces, team, move, moved);
      p == Rank(move.state == Finished, p.captures, p.stacks, move.route == Some(Shortcut), false, 0)
  {
  }

  /** The keys seen so far are those of the listed groups. */
  ghost predicate KeysOf(text: PieceID -> string, candidates: seq<CpuCandidate>, seenGroups: set<string>) {
    forall moved :: CpuGroupKey.GroupKey(Texts(text, moved)) in seenGroups <==> Seen(candidates, moved)
  }

  lemma NoKeys(text: PieceID -> string)
    ensures KeysOf(text, [], {})
  {
  }

  lemma OneMoreKey(text: PieceID -> string, candidates: seq<CpuCandidate>, seenGroups: set<string>, c: CpuCandidate)
    requires Injective(text) && KeysOf(text, candidates, seenGroups)
    ensures KeysOf(text, candidates + [c], seenGroups + {CpuGroupKey.GroupKey(Texts(text, c.moved))})
  {
    hide CpuGroupKey.GroupKey, SameGroup;
    forall moved
      ensures CpuGroupKey.GroupKey(Texts(text, moved)) in seenGroups + {CpuGroupKey.GroupKey(Texts(text, c.moved))}
        <==> Seen(candidates + [c], moved)
    {
      KeysMergeGroups(text, c.moved, moved);
      OneMoreGroup(candidates, c, moved);
    }
  }

  lemma OneMoreGroup(candidates: seq<CpuCandidate>, c: CpuCandidate, moved: seq<PieceID>)
    ensures Seen(candidates + [c], moved) <==> Seen(candidates, moved) || multiset(c.moved) == multiset(moved)
  {
    var all := candidates + [c];
    assert all[|candidates|] == c && forall k :: 0 <= k < |candidates| ==> all[k] == candidates[k];
    if Seen(candidates, moved) {
      var k :| 0 <= k < |candidates| && SameGroup(candidates[k], moved);
      assert SameGroup(all[k], moved);
    }
  }

  /** One candidate per group, groups told apart by the key over their pieces' texts, whatever those are. */
  method MoveCandidates(game: Game, team: Team, result: YutResult, text: PieceID -> string)
    returns (r: Outcome<seq<CpuCandidate>, CpuError>)
    requires game.Valid() && Injective(text)
    ensures r == CandidatesBelow(game.rules, game.State(), team, result, |game.pieces|)
  {
    hide CandidateFor, Game.Valid, KeysOf, CpuGroupKey.GroupKey, Injective, Seen;
    var candidates: seq<CpuCandidate> := [];
    var seenGroups: set<string> := {};
    NoKeys(text);
    for i := 0 to |game.pieces|
      invariant CandidatesBelow(game.rules, game.State(), team, result, i) == Ok(candidates)
      invariant KeysOf(text, candidates, seenGroups)
    {
      var p := game.pieces[i];
      if p.team != team || p.state == Finished {
        continue;
      }
      var c := CandidateForPiece(game, team, p, result);
      if c.Err? {
        CandidateErrorStays(game.rules, game.State(), team, result, i + 1, |game.pieces|);
        return Err(c.error);
      }
      if c.value.None? {
        continue;
      }
      var groupKey := CpuGroupKey.MovedGroupKey(Texts(text, c.value.value.moved));
      assert groupKey in seenGroups <==> Seen(candidates, c.value.value.moved) by {
        KeyTells(text, candidates, seenGroups, c.value.value.moved);
      }
      if groupKey in seenGroups {
        continue;
      }
      OneMoreKey(text, candidates, seenGroups, c.value.value);
      seenGroups := seenGroups + {groupKey};
      candidates := candidates + [c.value.value];
    }
    return Ok(candidates);
  }

  lemma KeyTells(text: PieceID -> string, candidates: seq<CpuCandidate>, seenGroups: set<string>, moved: seq<PieceID>)
    requires KeysOf(text, candidates, seenGroups)
    ensures CpuGroupKey.GroupKey(Texts(text, moved)) in seenGroups <==> Seen(candidates, moved)
  {
  }

  method Decide(game: Game, queue: seq<Token>, team: Team, ticket: nat, text: PieceID -> string)
    returns (r: Outcome<CpuDecision, CpuError>)
    requires game.Valid() && Injective(text)
    ensures r == DecisionOf(game.rules, game.State(), queue, team, ticket)
  {
    hide CandidatesBelow, Maxima, Game.Valid, Injective;
    if |queue| == 0 {
      return Err(NoResultToken);
    }
    if game.winner.Some? {
      return Err(GameFault(MatchEnded));
    }
    if queue[0].result == Buk {
      return Ok(ResolveHeadBuk(queue[0].id));
    }
    var candidates := MoveCandidates(game, team, queue[0].result, text);
    if candidates.Err? {
      return Err(candidates.error);
    }
    if |candidates.value| == 0 {
      return Ok(DiscardResult(queue[0].id));
    }
    var best := BestCandidates(candidates.value);
    if |best| == 1 {
      return Ok(MovePiece(queue[0].id, best[0].piece, best[0].route));
    }
    if ticket >= |best| {
      return Err(RandomSourceOutOfRange);
    }
    return Ok(MovePiece(queue[0].id, best[ticket].piece, best[ticket].route));
  }
}
