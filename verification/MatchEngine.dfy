/** The game object: loops that overwrite its pieces in place, proved against MatchRules. */
module MatchEngine {
  import opened Domain
  import opened BoardGraph
  import opened BoardSearch
  import opened BoardForward
  import opened MatchRules

  lemma {:induction false} ExcludingConcat(a: seq<nat>, b: seq<nat>, excluded: seq<nat>)
    ensures Excluding(a + b, excluded) == Excluding(a, excluded) + Excluding(b, excluded)
  {
    if a == [] {
      assert a + b == b;
    } else {
      assert (a + b)[1..] == a[1..] + b;
      ExcludingConcat(a[1..], b, excluded);
    }
  }

  lemma NothingExcluded(pieces: seq<Piece>, team: Team, plan: Resolution)
    ensures Excluding(IndicesBelow(pieces, team, plan.state, plan.space, 0), plan.moving) == []
  {
  }

  lemma ExcludingGrows(pieces: seq<Piece>, team: Team, plan: Resolution, i: nat)
    requires i < |pieces|
    ensures Excluding(IndicesBelow(pieces, team, plan.state, plan.space, i + 1), plan.moving) ==
      Excluding(IndicesBelow(pieces, team, plan.state, plan.space, i), plan.moving)
      + (if i !in plan.moving && pieces[i].Stands(team, plan.state, plan.space) then [i] else [])
  {
    var below := IndicesBelow(pieces, team, plan.state, plan.space, i);
    ExcludingConcat(below, [i], plan.moving);
    assert [i][1..] == [] && Excluding(below, plan.moving) + [] == Excluding(below, plan.moving);
  }

  lemma {:induction false} IDsOfSnoc(pieces: seq<Piece>, indices: seq<nat>, i: nat)
    requires IndicesValid(pieces, indices) && i < |pieces|
    ensures IndicesValid(pieces, indices + [i])
    ensures IDsOf(pieces, indices + [i]) == IDsOf(pieces, indices) + [pieces[i].id]
  {
    if indices != [] {
      assert (indices + [i])[1..] == indices[1..] + [i];
      IDsOfSnoc(pieces, indices[1..], i);
    }
  }

  lemma {:induction false} ClosestOfSnoc(rules: Rules, all: seq<Group>, groups: seq<Group>, g: Group)
    ensures ClosestOf(rules, all, groups + [g]) ==
      ClosestOf(rules, all, groups) + (if IsClosest(rules, all, g) then [g] else [])
  {
    hide IsClosest;
    if groups != [] {
      assert (groups + [g])[1..] == groups[1..] + [g];
      ClosestOfSnoc(rules, all, groups[1..], g);
    } else {
      assert [] + [g] == [g];
      assert ClosestOf(rules, all, [g][1..]) == [];
    }
  }

  class Game {
    const rules: Rules
    const bukDestination: SpaceID
    const pieceIndex: map<PieceID, nat>
    var pieces: seq<Piece>
    var winner: Option<Team>

    /** The index map finds every piece. */
    ghost predicate Valid()
      reads this`pieces
    {
      && (forall id :: id in pieceIndex ==> pieceIndex[id] < |pieces| && pieces[pieceIndex[id]].id == id)
      && forall i :: 0 <= i < |pieces| ==> pieces[i].id in pieceIndex && pieceIndex[pieces[i].id] == i
    }

    lemma IndexInRange(id: PieceID)
      requires Valid() && id in pieceIndex
      ensures pieceIndex[id] < |pieces| && pieces[pieceIndex[id]].id == id
    {
    }

    lemma PieceIsIndexed(i: nat)
      requires Valid() && i < |pieces|
      ensures pieces[i].id in pieceIndex && pieceIndex[pieces[i].id] == i
    {
    }

    function State(): GameState
      reads this
    {
      GameState(pieces, winner, bukDestination)
    }

    constructor (rules: Rules, bukDestination: SpaceID, pieces: seq<Piece>, pieceIndex: map<PieceID, nat>)
      requires forall id :: id in pieceIndex ==> pieceIndex[id] < |pieces| && pieces[pieceIndex[id]].id == id
      requires forall i :: 0 <= i < |pieces| ==> pieces[i].id in pieceIndex && pieceIndex[pieces[i].id] == i
      ensures Valid() && this.rules == rules && State() == GameState(pieces, None, bukDestination)
    {
      this.rules, this.bukDestination, this.pieceIndex := rules, bukDestination, pieceIndex;
      this.pieces, winner := pieces, None;
    }

    method OwnedPieceIndex(team: Team, id: PieceID) returns (r: Outcome<nat, GameError>)
      requires Valid()
      ensures r == OwnedIndex(pieces, team, id)
    {
      if id !in pieceIndex {
        return Err(UnknownPiece);
      }
      var index := pieceIndex[id];
      assert index == PieceIndex(pieces, id);
      if pieces[index].team != team {
        return Err(PieceNotOwned);
      }
      return Ok(index);
    }

    method MovingPieceIndices(selected: nat) returns (r: seq<nat>)
      requires selected < |pieces|
      ensures r == MovingIndices(rules, pieces, selected)
    {
      var p := pieces[selected];
      if !rules.settings.stackingEnabled || p.state == Waiting {
        return [selected];
      }
      r := CollectAt(p.team, p.state, p.space);
    }

    /** The loop every selection of pieces in one place makes. */
    method CollectAt(team: Team, state: PieceState, space: SpaceID) returns (r: seq<nat>)
      ensures r == IndicesAt(pieces, team, state, space)
    {
      r := [];
      for i := 0 to |pieces|
        invariant r == IndicesBelow(pieces, team, state, space, i)
      {
        if pieces[i].Stands(team, state, space) {
          r := r + [i];
        }
      }
    }

    method PieceIDs(indices: seq<nat>) returns (ids: seq<PieceID>)
      requires IndicesValid(pieces, indices)
      ensures ids == IDsOf(pieces, indices)
    {
      ids := [];
      for k := 0 to |indices|
        invariant ids == IDsOf(pieces, indices[..k])
      {
        IDsOfSnoc(pieces, indices[..k], indices[k]);
        assert indices[..k + 1] == indices[..k] + [indices[k]];
        ids := ids + [pieces[indices[k]].id];
      }
      assert indices[..|indices|] == indices;
    }

    method DestinationAllies(team: Team, plan: Resolution) returns (r: seq<nat>)
      ensures r == Allies(rules, pieces, team, plan)
    {
      hide IndicesBelow, Excluding;
      NothingExcluded(pieces, team, plan);
      if !rules.settings.stackingEnabled || plan.state == Finished {
        return [];
      }
      r := [];
      for i := 0 to |pieces|
        invariant r == Excluding(IndicesBelow(pieces, team, plan.state, plan.space, i), plan.moving)
      {
        ExcludingGrows(pieces, team, plan, i);
        if i !in plan.moving && pieces[i].Stands(team, plan.state, plan.space) {
          r := r + [i];
        }
      }
    }

    method CapturedPieceIndices(team: Team, plan: Resolution) returns (r: seq<nat>)
      ensures r == Captured(pieces, team, plan)
    {
      if plan.state == Finished {
        return [];
      }
      r := [];
      for i := 0 to |pieces|
        invariant r == IndicesBelow(pieces, Opponent(team), plan.state, plan.space, i)
      {
        if pieces[i].team != team && pieces[i].state == plan.state && pieces[i].space == plan.space {
          r := r + [i];
        }
      }
    }

    method AllTeamPiecesFinished(team: Team) returns (r: bool)
      ensures r == AllFinished(pieces, team)
    {
      for i := 0 to |pieces|
        invariant forall j :: 0 <= j < i && pieces[j].team == team ==> pieces[j].state == Finished
      {
        if pieces[i].team == team && pieces[i].state != Finished {
          return false;
        }
      }
      return true;
    }

    /** Overwrites the captured pieces, then the final group, in place. */
    method OverwritePieces(team: Team, plan: Resolution, allies: seq<nat>, captured: seq<nat>)
      requires Valid() && IndicesValid(pieces, plan.moving)
      requires allies == Allies(rules, pieces, team, plan) && captured == Captured(pieces, team, plan)
      modifies this`pieces
      ensures Valid() && pieces == Relocate(rules, old(pieces), team, plan)
    {
      hide Relocate, Allies, Captured;
      ghost var before := pieces;
      for k := 0 to |captured|
        invariant |pieces| == |before|
        invariant forall i :: 0 <= i < |pieces| ==>
          pieces[i] == if i in captured[..k] then SentHome(before[i]) else before[i]
      {
        assert captured[..k + 1] == captured[..k] + [captured[k]];
        pieces := pieces[captured[k] := SentHome(pieces[captured[k]])];
      }
      assert captured[..|captured|] == captured;
      ghost var sent := pieces;
      var group := plan.moving + allies;
      assert IndicesValid(before, group);
      for k := 0 to |group|
        invariant |pieces| == |before|
        invariant forall i :: 0 <= i < |pieces| ==>
          pieces[i] == if i in group[..k] then Relocated(before[i], plan) else sent[i]
      {
        assert group[..k + 1] == group[..k] + [group[k]];
        pieces := pieces[group[k] := Relocated(pieces[group[k]], plan)];
      }
      assert group[..|group|] == group;
      OverwrittenIsRelocated(before, pieces, team, plan);
    }

    lemma OverwrittenIsRelocated(before: seq<Piece>, after: seq<Piece>, team: Team, plan: Resolution)
      requires |after| == |before|
      requires forall i :: 0 <= i < |before| ==>
        after[i] == if i in plan.moving + Allies(rules, before, team, plan) then Relocated(before[i], plan)
                    else if i in Captured(before, team, plan) then SentHome(before[i])
                    else before[i]
      ensures after == Relocate(rules, before, team, plan)
    {
    }

    method ApplyMoveResolution(team: Team, id: PieceID, result: YutResult, plan: Resolution)
      returns (outcome: MoveOutcome)
      requires Valid() && id in pieceIndex && IndicesValid(pieces, plan.moving)
      modifies this
      ensures Valid()
      ensures (State(), outcome) == ApplyResolution(rules, old(State()), team, pieceIndex[id], result, plan)
    {
      hide Game.Valid, Relocate, Allies, Captured, IndicesAt, IDsOf, AllFinished, CaptureGrantsExtraThrow;
      IndexInRange(id);
      var from := pieces[pieceIndex[id]].space;
      var moved := PieceIDs(plan.moving);
      var allies := DestinationAllies(team, plan);
      var captured := CapturedPieceIndices(team, plan);
      var capturedIDs := PieceIDs(captured);
      OverwritePieces(team, plan, allies, captured);
      var ended := AllTeamPiecesFinished(team);
      if ended {
        winner := Some(team);
      }
      var stacked: seq<PieceID> := [];
      if rules.settings.stackingEnabled && plan.state != Finished && |plan.moving| + |allies| > 1 {
        var standing := CollectAt(team, plan.state, plan.space);
        stacked := PieceIDs(standing);
      }
      var extra := |captured| > 0 && CaptureGrantsExtraThrow(rules.settings.captureExtraThrow, result);
      if ended {
        extra := false;
      }
      outcome := MoveOutcome(plan.route, plan.kind, from, plan.space, plan.previous,
        moved, stacked, capturedIDs, extra, ended, winner);
    }

    method OrdinaryMovePlans(team: Team, id: PieceID, result: YutResult) returns (r: Outcome<MovePlans, GameError>)
      requires Valid()
      ensures r == OrdinaryPlans(rules, State(), team, id, result)
    {
      hide ForwardPlans, PlansAccepted, MovingIndices;
      if winner.Some? {
        return Err(MatchEnded);
      }
      var owned := OwnedPieceIndex(team, id);
      if owned.Err? {
        return Err(owned.error);
      }
      var spaces := OrdinarySpaces(result);
      if spaces.None? {
        return Err(NotOrdinaryResult);
      }
      var moving := MovingPieceIndices(owned.value);
      var plans := ForwardPlans(rules.graph, pieces[owned.value].At(), spaces.value, rules.settings.shortcutPolicy);
      if plans.Err? {
        return Err(Planning(plans.error));
      }
      if !PlansAccepted(plans.value, rules.settings.shortcutPolicy) {
        return Err(InvalidForwardPlan);
      }
      return Ok(MovePlans(owned.value, plans.value, moving));
    }

    method ApplyOrdinaryMove(team: Team, id: PieceID, result: YutResult, route: Option<Route>)
      returns (r: Outcome<MoveOutcome, GameError>)
      requires Valid()
      modifies this
      ensures Valid()
      ensures match ApplyOrdinary(rules, old(State()), team, id, result, route)
        case Ok(done) => State() == done.0 && r == Ok(done.1)
        case Err(error) => State() == old(State()) && r == Err(error)
    {
      hide ForwardPlans, ApplyResolution, MovingIndices, PlanAccepted;
      var move := OrdinaryMovePlans(team, id, result);
      if move.Err? {
        return Err(move.error);
      }
      var plan := SelectPlan(move.value.plans, route);
      if plan.Err? {
        return Err(plan.error);
      }
      var outcome := ApplyMoveResolution(team, id, result, ForwardResolution(plan.value, move.value.moving));
      return Ok(outcome);
    }

    method ApplyBackdoMove(team: Team, id: PieceID) returns (r: Outcome<MoveOutcome, GameError>)
      requires Valid()
      modifies this
      ensures Valid()
      ensures match ApplyBackdo(rules, old(State()), team, id)
        case Ok(done) => State() == done.0 && r == Ok(done.1)
        case Err(error) => State() == old(State()) && r == Err(error)
    {
      var decision := DecideBackdo(rules, State(), team, id);
      if decision.Err? {
        return Err(decision.error);
      }
      var owned := OwnedPieceIndex(team, id);
      var outcome := ApplyMoveResolution(team, id, Backdo, decision.value.plan);
      return Ok(outcome);
    }

    method BukPositionGroups(team: Team) returns (groups: seq<Group>)
      ensures groups == PositionGroups(pieces, team)
    {
      groups := [];
      for i := 0 to |pieces|
        invariant groups == GroupsBelow(pieces, team, i)
      {
        var p := pieces[i];
        if p.team != team || !p.Active() {
          continue;
        }
        var k := 0;
        while k < |groups| && groups[k].space != p.space
          invariant 0 <= k <= |groups|
          invariant forall j :: 0 <= j < k ==> groups[j].space != p.space
        {
          k := k + 1;
        }
        assert k == GroupOf(groups, p.space);
        if k < |groups| {
          groups := groups[k := groups[k].(indices := groups[k].indices + [i])];
        } else {
          groups := groups + [Group(p.state, p.space, [i])];
        }
      }
    }

    method WaitingPieces(team: Team) returns (r: seq<nat>)
      ensures r == WaitingIndices(pieces, team)
    {
      r := [];
      for i := 0 to |pieces|
        invariant r == WaitingBelow(pieces, team, i)
      {
        if pieces[i].team == team && pieces[i].state == Waiting {
          r := r + [i];
        }
      }
    }

    /** Measures every group; the first unusable distance stops the resolution. */
    method MeasureGroups(groups: seq<Group>) returns (r: Outcome<seq<int>, GameError>, minimum: int)
      ensures match DistanceError(rules, groups)
        case Some(error) => r == Err(error)
        case None => r.Ok? && |r.value| == |groups| && forall k :: 0 <= k < |groups| ==>
          GroupDistance(rules, groups[k]) == Ok(r.value[k])
      ensures r.Ok? && groups != [] ==>
        (exists k :: 0 <= k < |groups| && r.value[k] == minimum) && forall k :: 0 <= k < |groups| ==>
          minimum <= r.value[k]
    {
      hide GroupDistance;
      var distances: seq<int> := [];
      minimum := 0;
      for k := 0 to |groups|
        invariant |distances| == k && DistanceError(rules, groups) == DistanceError(rules, groups[k..])
        invariant forall j :: 0 <= j < k ==> GroupDistance(rules, groups[j]) == Ok(distances[j])
        invariant k > 0 ==>
          (exists j :: 0 <= j < k && distances[j] == minimum) && forall j :: 0 <= j < k ==> minimum <= distances[j]
      {
        assert groups[k..][0] == groups[k] && groups[k..][1..] == groups[k + 1..];
        var distance := DistanceOf(groups[k]);
        if distance.Err? {
          return Err(Planning(distance.error)), 0;
        }
        if distance.value <= 0 {
          return Err(InvalidBukPlanner), 0;
        }
        if k == 0 || distance.value < minimum {
          minimum := distance.value;
        }
        distances := distances + [distance.value];
      }
      r := Ok(distances);
    }

    method DistanceOf(group: Group) returns (r: Outcome<int, BoardError>)
      ensures r == GroupDistance(rules, group)
    {
      r := RemainingForwardDistance(rules.graph, Position(group.state, group.space), rules.settings.shortcutPolicy);
    }

    /** The groups at the minimum distance. */
    method ClosestGroups(groups: seq<Group>, distances: seq<int>, minimum: int) returns (closest: seq<Group>)
      requires |distances| == |groups|
      requires forall k :: 0 <= k < |groups| ==>
        GroupDistance(rules, groups[k]) == Ok(distances[k]) && minimum <= distances[k]
      requires groups != [] ==> exists k :: 0 <= k < |groups| && distances[k] == minimum
      ensures closest == ClosestOf(rules, groups, groups)
    {
      hide GroupDistance;
      closest := [];
      for k := 0 to |groups|
        invariant closest == ClosestOf(rules, groups, groups[..k])
      {
        assert groups[..k + 1] == groups[..k] + [groups[k]];
        ClosestOfSnoc(rules, groups, groups[..k], groups[k]);
        MinimumIsClosest(groups, distances, minimum, k);
        if distances[k] == minimum {
          closest := closest + [groups[k]];
        }
      }
      assert groups[..|groups|] == groups;
    }

    lemma MinimumIsClosest(groups: seq<Group>, distances: seq<int>, minimum: int, k: nat)
      requires |distances| == |groups| && k < |groups|
      requires forall j :: 0 <= j < |groups| ==>
        GroupDistance(rules, groups[j]) == Ok(distances[j]) && minimum <= distances[j]
      requires exists j :: 0 <= j < |groups| && distances[j] == minimum
      ensures IsClosest(rules, groups, groups[k]) <==> distances[k] == minimum
    {
      hide GroupDistance;
      var m :| 0 <= m < |groups| && distances[m] == minimum;
      assert groups[m] in groups && groups[k] in groups;
    }

    method ResolveBukMove(team: Team, ticket: nat) returns (r: Outcome<BukOutcome, GameError>)
      requires Valid()
      modifies this
      ensures Valid()
      ensures match ResolveBuk(rules, old(State()), team, ticket)
        case Ok(done) => State() == done.0 && r == Ok(done.1)
        case Err(error) => State() == old(State()) && r == Err(error)
    {
      hide ClosestOf, DistanceError, GroupDistance, ApplyGroups, SelectedIDs;
      if winner.Some? {
        return Err(MatchEnded);
      }
      if !rules.settings.bukModeEnabled {
        return Err(BukModeDisabled);
      }
      BukGroupsValid(rules, State(), team, ticket);
      var groups := BukPositionGroups(team);
      var closest: seq<Group> := [];
      if |groups| == 0 {
        var waiting := WaitingPieces(team);
        if |waiting| == 0 {
          SelectNothing();
          return Ok(BukOutcome(true, bukDestination, [], []));
        }
        if ticket >= |waiting| {
          return Err(RandomOutOfRange);
        }
        closest := [Group(Waiting, NoSpace, [waiting[ticket]])];
      } else {
        var distances, minimum := MeasureGroups(groups);
        if distances.Err? {
          return Err(distances.error);
        }
        closest := ClosestGroups(groups, distances.value, minimum);
      }
      assert BukGroups(rules, State(), team, ticket) == Ok(closest);
      r := ApplyClosest(team, closest);
    }

    lemma SelectNothing()
      requires true
      ensures ApplyGroups(rules, State(), TeamA, []) == (State(), [])
        && ApplyGroups(rules, State(), TeamB, []) == (State(), [])
      ensures SelectedIDs(pieces, []) == []
    {
    }

    /** Applies the chosen groups in turn, skipping one that already stands on the destination. */
    method ApplyClosest(team: Team, closest: seq<Group>) returns (r: Outcome<BukOutcome, GameError>)
      requires Valid() && GroupsValid(pieces, closest)
      modifies this
      ensures Valid()
      ensures State() == ApplyGroups(rules, old(State()), team, closest).0
      ensures r == Ok(BukOutcome(closest == [], bukDestination, SelectedIDs(old(pieces), closest),
        ApplyGroups(rules, old(State()), team, closest).1))
    {
      hide Game.Valid, ApplyResolution, ApplyGroups, GroupsValid, SelectedIDs, IDsOf;
      var selected: seq<PieceID> := [];
      var moves: seq<MoveOutcome> := [];
      ghost var start := State();
      SuffixesValid(pieces, closest, 0);
      assert closest[0..] == closest;
      for k := 0 to |closest|
        invariant Valid() && |pieces| == |start.pieces|
        invariant GroupsValid(pieces, closest[k..]) && GroupsValid(start.pieces, closest[k..])
        invariant SelectedIDs(start.pieces, closest) == selected + SelectedIDs(start.pieces, closest[k..])
        invariant SameIDs(start.pieces, pieces)
        invariant ApplyGroups(rules, start, team, closest).0 == ApplyGroups(rules, State(), team, closest[k..]).0
        invariant ApplyGroups(rules, start, team, closest).1 ==
          moves + ApplyGroups(rules, State(), team, closest[k..]).1
      {
        var group := closest[k];
        assert closest[k..][0] == group && closest[k..][1..] == closest[k + 1..];
        SuffixesValid(pieces, closest[k..], 1);
        SuffixesValid(start.pieces, closest[k..], 1);
        GroupsApply(State(), team, closest[k..]);
        SelectedSplit(start.pieces, closest[k..]);
        var ids := PieceIDs(group.indices);
        IDsOfSame(start.pieces, pieces, group.indices);
        selected := selected + ids;
        if group.state == OnBoard && group.space == bukDestination {
          continue;
        }
        PieceIsIndexed(group.indices[0]);
        ghost var before := State();
        var move := ApplyMoveResolution(team, pieces[group.indices[0]].id, Buk, BukResolution(bukDestination, group));
        ResolutionSameIDs(before, team, group.indices[0], BukResolution(bukDestination, group));
        SameLengthValid(before.pieces, pieces, closest[k + 1..]);
        moves := moves + [move];
      }
      NothingLeft(State(), team, start.pieces, closest);
      assert selected + [] == selected && moves + [] == moves;
      r := Ok(BukOutcome(|closest| == 0, bukDestination, selected, moves));
    }

    ghost predicate SameIDs(before: seq<Piece>, after: seq<Piece>) {
      |before| == |after| && forall i :: 0 <= i < |before| ==> before[i].id == after[i].id
    }

    lemma SuffixesValid(pieces: seq<Piece>, groups: seq<Group>, n: nat)
      requires GroupsValid(pieces, groups) && n <= |groups|
      ensures GroupsValid(pieces, groups[n..])
      ensures n < |groups| ==> groups[n].indices != [] && IndicesValid(pieces, groups[n].indices)
      ensures groups != [] ==> groups[0].indices != [] && IndicesValid(pieces, groups[0].indices)
    {
      if groups != [] {
        assert groups[0] in groups;
      }
      if n < |groups| {
        assert groups[n] in groups;
      }
    }

    lemma SameLengthValid(before: seq<Piece>, after: seq<Piece>, groups: seq<Group>)
      requires GroupsValid(before, groups) && |before| == |after|
      ensures GroupsValid(after, groups)
    {
    }

    /** Unfolds the sequential application by one group. */
    lemma GroupsApply(game: GameState, team: Team, groups: seq<Group>)
      requires groups != [] && GroupsValid(game.pieces, groups)
      ensures GroupsValid(game.pieces, groups[1..])
      ensures groups[0].indices != [] && IndicesValid(game.pieces, groups[0].indices)
      ensures AlreadyThere(game, groups[0]) ==>
        ApplyGroups(rules, game, team, groups) == ApplyGroups(rules, game, team, groups[1..])
      ensures !AlreadyThere(game, groups[0]) ==>
        var (first, move) :=
          ApplyResolution(rules, game, team, groups[0].indices[0], Buk, BukResolution(game.bukDestination, groups[0]));
        GroupsValid(first.pieces, groups[1..])
        && ApplyGroups(rules, game, team, groups).0 == ApplyGroups(rules, first, team, groups[1..]).0
        && ApplyGroups(rules, game, team, groups).1 == [move] + ApplyGroups(rules, first, team, groups[1..]).1
    {
      SuffixesValid(game.pieces, groups, 1);
    }

    lemma SelectedSplit(pieces: seq<Piece>, groups: seq<Group>)
      requires groups != [] && GroupsValid(pieces, groups) && GroupsValid(pieces, groups[1..])
      requires IndicesValid(pieces, groups[0].indices)
      ensures SelectedIDs(pieces, groups) == IDsOf(pieces, groups[0].indices) + SelectedIDs(pieces, groups[1..])
    {
    }

    lemma ResolutionSameIDs(game: GameState, team: Team, selected: nat, plan: Resolution)
      requires selected < |game.pieces| && IndicesValid(game.pieces, plan.moving)
      ensures SameIDs(game.pieces, ApplyResolution(rules, game, team, selected, Buk, plan).0.pieces)
    {
      hide IndicesAt, IDsOf, AllFinished, Allies, Captured;
    }

    lemma NothingLeft(game: GameState, team: Team, pieces: seq<Piece>, groups: seq<Group>)
      ensures GroupsValid(game.pieces, groups[|groups|..]) && GroupsValid(pieces, groups[|groups|..])
      ensures ApplyGroups(rules, game, team, groups[|groups|..]) == (game, [])
      ensures SelectedIDs(pieces, groups[|groups|..]) == []
    {
    }

    lemma {:induction false} IDsOfSame(before: seq<Piece>, after: seq<Piece>, indices: seq<nat>)
      requires SameIDs(before, after) && IndicesValid(before, indices)
      ensures IndicesValid(after, indices) && IDsOf(before, indices) == IDsOf(after, indices)
    {
      if indices != [] {
        IDsOfSame(before, after, indices[1..]);
      }
    }
  }
}
