/** A Buk told turn by turn: who is drawn, who moves when, what each move reports, and what follows from it. */
module BukLaws {
  import opened Domain
  import opened BoardValidate
  import opened BoardTheorems
  import opened MatchRules
  import opened MatchInvariants
  import opened MatchBuk
  import opened MatchLaws

  // ----- The draw -----

  /** How many pieces of the team wait among the first n. */
  function WaitingBefore(pieces: seq<Piece>, team: Team, n: nat): nat
    requires n <= |pieces|
  {
    if n == 0 then 0
    else
      var one := if pieces[n - 1].team == team && pieces[n - 1].state == Waiting then 1 else 0;
      WaitingBefore(pieces, team, n - 1) + one
  }

  lemma {:induction false} WaitingByTicket(pieces: seq<Piece>, team: Team, n: nat)
    requires n <= |pieces|
    ensures var waiting := WaitingBelow(pieces, team, n);
      && |waiting| == WaitingBefore(pieces, team, n)
      && forall t :: 0 <= t < |waiting| ==> waiting[t] < n && WaitingBefore(pieces, team, waiting[t]) == t
  {
    if n > 0 {
      WaitingByTicket(pieces, team, n - 1);
    }
  }

  lemma {:induction false} WaitingGrows(pieces: seq<Piece>, team: Team, m: nat, n: nat)
    requires m < n <= |pieces| && pieces[m].team == team && pieces[m].state == Waiting
    ensures WaitingBefore(pieces, team, m) < WaitingBefore(pieces, team, n)
    decreases n
  {
    if m < n - 1 {
      WaitingGrows(pieces, team, m, n - 1);
    }
  }

  /** When no piece of the team is on the board, a ticket draws the waiting piece with that many waiting ones
      before it: every waiting piece is drawn by exactly one ticket. */
  lemma TicketDraws(rules: Rules, game: GameState, team: Team, ticket: nat, i: nat)
    requires !HasActive(game.pieces, team) && i < |game.pieces|
    ensures BukTakes(rules, game, team, ticket, i) <==>
      game.pieces[i].team == team && game.pieces[i].state == Waiting && WaitingBefore(game.pieces, team, i) == ticket
  {
    hide HasActive;
    var waiting := WaitingIndices(game.pieces, team);
    WaitingByTicket(game.pieces, team, |game.pieces|);
    if game.pieces[i].team == team && game.pieces[i].state == Waiting {
      assert i in waiting;
      var t :| 0 <= t < |waiting| && waiting[t] == i;
      if WaitingBefore(game.pieces, team, i) == ticket {
        assert t == ticket;
      }
    }
    if ticket < |waiting| && waiting[ticket] == i {
      assert i in waiting;
    }
  }

  // ----- Turn by turn -----

  /** The taken pieces that stand where piece j does. */
  ghost function Company(rules: Rules, game: GameState, team: Team, ticket: nat, j: nat): set<nat>
    requires j < |game.pieces|
  {
    set k: nat | k < |game.pieces| && BukTakes(rules, game, team, ticket, k)
      && game.pieces[k].space == game.pieces[j].space
  }

  /** One group goes to the destination, and its move is reported. */
  ghost predicate GoesOnce(rules: Rules, before: GameState, team: Team, j: nat, company: set<nat>, left: SpaceID,
    after: GameState, o: MoveOutcome)
    requires j < |before.pieces|
  {
    var destination := Position(OnBoard, before.bukDestination);
    && after.bukDestination == before.bukDestination
    && Lands(rules, before.pieces, team, company, destination, left, after.pieces)
    && Reports(rules, before, j, company, destination, left, Buk, after, o)
    && o.route == None && o.kind == BukMove
  }

  /** The groups led by these pieces go to the destination one after another. */
  ghost predicate GoInTurn(rules: Rules, start: GameState, team: Team, ticket: nat, now: GameState,
    leaders: seq<nat>, after: GameState, moves: seq<MoveOutcome>)
    requires |now.pieces| == |start.pieces|
    decreases |leaders|
  {
    if leaders == [] then after == now && moves == []
    else
      && moves != [] && leaders[0] < |start.pieces|
      && exists next: GameState ::
        (&& |next.pieces| == |start.pieces|
         && GoesOnce(rules, now, team, leaders[0], Company(rules, start, team, ticket, leaders[0]),
           start.pieces[leaders[0]].space, next, moves[0])
         && GoInTurn(rules, start, team, ticket, next, leaders[1..], after, moves[1..]))
  }

  /** The first members of the groups that move. */
  function FirstMembers(game: GameState, groups: seq<Group>): seq<nat>
    requires GroupsValid(game.pieces, groups)
  {
    if groups == [] then []
    else (if AlreadyThere(game, groups[0]) then [] else [groups[0].indices[0]]) + FirstMembers(game, groups[1..])
  }

  /** The groups are the taken pieces, place by place. */
  ghost predicate GroupsOf(rules: Rules, start: GameState, team: Team, ticket: nat, groups: seq<Group>) {
    && GroupsStand(start.pieces, team, groups)
    && forall g :: g in groups ==>
      && Ascending(g.indices) && g.indices[0] < |start.pieces| && start.pieces[g.indices[0]].space == g.space
      && forall k: nat :: k in g.indices <==> k in Company(rules, start, team, ticket, g.indices[0])
  }

  lemma GroupsTail(rules: Rules, start: GameState, team: Team, ticket: nat, groups: seq<Group>)
    requires groups != [] && GroupsOf(rules, start, team, ticket, groups)
    ensures GroupsOf(rules, start, team, ticket, groups[1..])
  {
    hide GroupStands, Ascending, Company;
    OneGroupStands(start.pieces, team, groups);
    assert forall g :: g in groups[1..] ==> g in groups;
  }

  lemma HeadGoes(rules: Rules, start: GameState, now: GameState, team: Team, ticket: nat, groups: seq<Group>)
    requires groups != [] && GroupsOf(rules, start, team, ticket, groups) && |now.pieces| == |start.pieces|
    requires GroupsStand(now.pieces, team, groups) && !AlreadyThere(now, groups[0]) && now.winner == None
    ensures var g := groups[0];
      var (next, o) := ApplyResolution(rules, now, team, g.indices[0], Buk, BukResolution(now.bukDestination, g));
      GoesOnce(rules, now, team, g.indices[0], Company(rules, start, team, ticket, g.indices[0]),
        start.pieces[g.indices[0]].space, next, o)
  {
    hide Lands, Reports, ApplyResolution, Company, Ascending;
    var g := groups[0];
    var plan := BukResolution(now.bukDestination, g);
    var company := Company(rules, start, team, ticket, g.indices[0]);
    assert g in groups;
    assert GroupStands(now.pieces, team, g) && g.indices[0] in g.indices;
    assert ResolvesFor(now.pieces, team, g.indices[0], company, plan);
    ResolutionLands(rules, now.pieces, team, g.indices[0], company, plan);
    ResolutionReports(rules, now, team, g.indices[0], company, Buk, plan);
    AppliesRelocation(rules, now, team, g.indices[0], Buk, plan);
  }

  lemma FirstThenRest(rules: Rules, start: GameState, team: Team, ticket: nat, now: GameState, j: nat,
      later: seq<nat>, next: GameState, o: MoveOutcome, after: GameState, moves: seq<MoveOutcome>)
    requires |now.pieces| == |start.pieces| == |next.pieces| && j < |start.pieces|
    requires GoesOnce(rules, now, team, j, Company(rules, start, team, ticket, j), start.pieces[j].space, next, o)
    requires GoInTurn(rules, start, team, ticket, next, later, after, moves)
    ensures GoInTurn(rules, start, team, ticket, now, [j] + later, after, [o] + moves)
  {
    hide GoesOnce, Company;
    assert ([j] + later)[1..] == later && ([o] + moves)[1..] == moves;
  }

  lemma FirstMembersSplit(game: GameState, groups: seq<Group>)
    requires groups != [] && GroupsValid(game.pieces, groups)
    ensures GroupsValid(game.pieces, groups[1..])
    ensures FirstMembers(game, groups) ==
      if AlreadyThere(game, groups[0]) then FirstMembers(game, groups[1..])
      else [groups[0].indices[0]] + FirstMembers(game, groups[1..])
  {
    assert [] + FirstMembers(game, groups[1..]) == FirstMembers(game, groups[1..]);
  }

  lemma {:induction false} GroupsGoInTurn(rules: Rules, start: GameState, team: Team, ticket: nat, now: GameState,
      groups: seq<Group>)
    requires GameInv(rules, now) && now.winner == None && rules.settings.bukModeEnabled
    requires |now.pieces| == |start.pieces| && now.bukDestination == start.bukDestination
    requires GroupsOf(rules, start, team, ticket, groups) && GroupsStand(now.pieces, team, groups)
    ensures var (after, moves) := ApplyGroups(rules, now, team, groups);
      GoInTurn(rules, start, team, ticket, now, FirstMembers(now, groups), after, moves)
    decreases |groups|
  {
    hide GameInv, GroupsOf, GroupStands, GoesOnce, ApplyResolution, Company, GoInTurn, FirstMembers;
    if groups == [] {
      NobodyGoes(rules, start, team, ticket, now);
    } else {
      GroupsTail(rules, start, team, ticket, groups);
      OneGroupStands(now.pieces, team, groups);
      FirstMembersSplit(now, groups);
      if AlreadyThere(now, groups[0]) {
        GroupsGoInTurn(rules, start, team, ticket, now, groups[1..]);
      } else {
        var g := groups[0];
        BukStep(rules, now, team, g);
        LaterGroupsStand(rules, now, team, groups);
        HeadGoes(rules, start, now, team, ticket, groups);
        var (next, o) := ApplyResolution(rules, now, team, g.indices[0], Buk, BukResolution(now.bukDestination, g));
        AppliesRelocation(rules, now, team, g.indices[0], Buk, BukResolution(now.bukDestination, g));
        GroupsGoInTurn(rules, start, team, ticket, next, groups[1..]);
        SameMembers(now, next, groups[1..]);
        HeadInStart(rules, start, team, ticket, groups);
        var (after, moves) := ApplyGroups(rules, next, team, groups[1..]);
        FirstThenRest(rules, start, team, ticket, now, g.indices[0], FirstMembers(now, groups[1..]), next, o, after,
          moves);
      }
    }
  }

  lemma NobodyGoes(rules: Rules, start: GameState, team: Team, ticket: nat, now: GameState)
    requires |now.pieces| == |start.pieces|
    ensures FirstMembers(now, []) == [] && GoInTurn(rules, start, team, ticket, now, [], now, [])
  {
  }

  lemma HeadInStart(rules: Rules, start: GameState, team: Team, ticket: nat, groups: seq<Group>)
    requires groups != [] && GroupsOf(rules, start, team, ticket, groups)
    ensures groups[0].indices != [] && groups[0].indices[0] < |start.pieces|
  {
    hide Company, Ascending;
    assert groups[0] in groups;
    assert GroupStands(start.pieces, team, groups[0]);
  }

  lemma {:induction false} SameMembers(now: GameState, next: GameState, groups: seq<Group>)
    requires GroupsValid(now.pieces, groups) && GroupsValid(next.pieces, groups)
    requires next.bukDestination == now.bukDestination
    ensures FirstMembers(next, groups) == FirstMembers(now, groups)
  {
    if groups != [] {
      assert forall g :: g in groups[1..] ==> g in groups;
      SameMembers(now, next, groups[1..]);
    }
  }

  // ----- The groups of a Buk -----

  ghost predicate AllAscend(groups: seq<Group>, n: nat) {
    forall b :: 0 <= b < |groups| ==> Ascending(groups[b].indices) && forall i :: i in groups[b].indices ==> i < n
  }

  lemma {:induction false} GroupsAscend(pieces: seq<Piece>, team: Team, n: nat)
    requires n <= |pieces|
    ensures AllAscend(GroupsBelow(pieces, team, n), n)
  {
    hide AllAscend;
    if n == 0 {
      NothingAscends();
    } else {
      GroupsAscend(pieces, team, n - 1);
      var groups := GroupsBelow(pieces, team, n - 1);
      var k := GroupOf(groups, pieces[n - 1].space);
      OneMoreAscends(groups, n - 1, k, Group(pieces[n - 1].state, pieces[n - 1].space, [n - 1]));
    }
  }

  lemma NothingAscends()
    ensures AllAscend([], 0)
  {
  }

  lemma OneMoreAscends(groups: seq<Group>, n: nat, k: nat, added: Group)
    requires AllAscend(groups, n) && k <= |groups| && added.indices == [n]
    ensures AllAscend(groups, n + 1) && AllAscend(groups + [added], n + 1)
    ensures k < |groups| ==> AllAscend(groups[k := groups[k].(indices := groups[k].indices + [n])], n + 1)
  {
    if k < |groups| {
      var indices := groups[k].indices;
      assert forall i :: 0 <= i < |indices| ==> indices[i] in indices;
      assert Ascending(indices + [n]);
    }
  }

  lemma BukGroupsAre(rules: Rules, game: GameState, team: Team, ticket: nat)
    requires GameInv(rules, game) && game.winner == None && BukGroups(rules, game, team, ticket).Ok?
    ensures GroupsOf(rules, game, team, ticket, BukGroups(rules, game, team, ticket).value)
  {
    hide GameInv, BukTakes, BukGroups, GroupsStand, Ordered, Chosen;
    BukGroupsTake(rules, game, team, ticket);
    var groups := BukGroups(rules, game, team, ticket).value;
    forall g | g in groups
      ensures g.indices != [] && g.indices[0] < |game.pieces| && game.pieces[g.indices[0]].space == g.space
      ensures Ascending(g.indices)
      ensures forall k: nat :: k in g.indices <==> k in Company(rules, game, team, ticket, g.indices[0])
    {
      BukGroupAscends(rules, game, team, ticket, g);
      GroupIsCompany(rules, game, team, ticket, groups, g);
    }
  }

  lemma BukGroupAscends(rules: Rules, game: GameState, team: Team, ticket: nat, g: Group)
    requires BukGroups(rules, game, team, ticket).Ok? && g in BukGroups(rules, game, team, ticket).value
    ensures Ascending(g.indices)
  {
    hide ClosestOf, DistanceError, IsClosest, GroupsBelow;
    var groups := PositionGroups(game.pieces, team);
    GroupsAscend(game.pieces, team, |game.pieces|);
    ClosestAreGroups(rules, groups, groups);
    if groups != [] {
      var b :| 0 <= b < |groups| && groups[b] == g;
    }
  }

  lemma GroupIsCompany(rules: Rules, game: GameState, team: Team, ticket: nat, groups: seq<Group>, g: Group)
    requires GroupsStand(game.pieces, team, groups) && g in groups
    requires forall i: nat :: Chosen(groups, i) <==> BukTakes(rules, game, team, ticket, i)
    ensures g.indices != [] && g.indices[0] < |game.pieces| && game.pieces[g.indices[0]].space == g.space
    ensures forall k: nat :: k in g.indices <==> k in Company(rules, game, team, ticket, g.indices[0])
  {
    hide BukTakes;
    assert GroupStands(game.pieces, team, g) && g.indices[0] in g.indices;
    forall k: nat
      ensures k in g.indices <==> k in Company(rules, game, team, ticket, g.indices[0])
    {
      if k in g.indices {
        assert Chosen(groups, k);
      }
      if k in Company(rules, game, team, ticket, g.indices[0]) {
        assert Chosen(groups, k);
        var h :| h in groups && k in h.indices;
        assert GroupStands(game.pieces, team, h);
        var a :| 0 <= a < |groups| && groups[a] == g;
        var b :| 0 <= b < |groups| && groups[b] == h;
      }
    }
  }

  lemma {:induction false} FirstMembersAre(game: GameState, groups: seq<Group>, j: nat)
    requires GroupsValid(game.pieces, groups)
    ensures j in FirstMembers(game, groups) <==>
      exists b :: 0 <= b < |groups| && !AlreadyThere(game, groups[b]) && groups[b].indices[0] == j
  {
    if groups != [] {
      FirstMembersSplit(game, groups);
      FirstMembersAre(game, groups[1..], j);
      assert forall b :: 0 < b < |groups| ==> groups[b] == groups[1..][b - 1];
      assert forall b :: 0 <= b < |groups[1..]| ==> groups[1..][b] == groups[b + 1];
    }
  }

  lemma {:induction false} FirstMembersAscend(game: GameState, groups: seq<Group>)
    requires GroupsValid(game.pieces, groups) && Ordered(groups)
    ensures Ascending(FirstMembers(game, groups))
  {
    hide Ordered, FirstMembers;
    if groups == [] {
      NobodyFirst(game);
    } else {
      FirstMembersSplit(game, groups);
      TailOrdered(groups);
      FirstMembersAscend(game, groups[1..]);
      var rest := FirstMembers(game, groups[1..]);
      forall k | 0 <= k < |rest|
        ensures groups[0].indices[0] < rest[k]
      {
        FirstMembersAre(game, groups[1..], rest[k]);
        FirstIsLeast(groups, rest[k]);
      }
    }
  }

  lemma NobodyFirst(game: GameState)
    ensures FirstMembers(game, []) == []
  {
  }

  lemma FirstIsLeast(groups: seq<Group>, j: nat)
    requires groups != [] && Ordered(groups)
    requires exists b :: 0 <= b < |groups[1..]| && groups[1..][b].indices != [] && groups[1..][b].indices[0] == j
    ensures groups[0].indices != [] && groups[0].indices[0] < j
  {
    var b :| 0 <= b < |groups[1..]| && groups[1..][b].indices != [] && groups[1..][b].indices[0] == j;
    assert groups[b + 1] == groups[1..][b];
  }

  /** The pieces that lead a group, in order. */
  ghost predicate Leaders(rules: Rules, game: GameState, team: Team, ticket: nat, leaders: seq<nat>) {
    Ascending(leaders) && forall j: nat :: j in leaders <==> Leads(rules, game, team, ticket, j)
  }

  /** A Buk, turn by turn: the taken pieces that are not on the destination go there place by place, in the
      order of the first piece of each place, and every such move is reported. */
  lemma BukInTurns(rules: Rules, game: GameState, team: Team, ticket: nat)
    requires GameInv(rules, game) && ResolveBuk(rules, game, team, ticket).Ok?
    ensures var (after, outcome) := ResolveBuk(rules, game, team, ticket).value;
      exists leaders :: Leaders(rules, game, team, ticket, leaders)
        && GoInTurn(rules, game, team, ticket, game, leaders, after, outcome.moves)
  {
    hide GameInv, BukTakes, BukGroups, GroupsStand, Ordered, Chosen, ApplyGroups, Leads, GoInTurn, SelectedIDs,
      GroupsOf,
      Ascending, FirstMembers;
    BukGroupsValid(rules, game, team, ticket);
    BukGroupsTake(rules, game, team, ticket);
    BukGroupsAre(rules, game, team, ticket);
    var groups := BukGroups(rules, game, team, ticket).value;
    GroupsGoInTurn(rules, game, team, ticket, game, groups);
    FirstMembersAscend(game, groups);
    forall j: nat
      ensures j in FirstMembers(game, groups) <==> Leads(rules, game, team, ticket, j)
    {
      FirstMembersAre(game, groups, j);
      LeaderExactly(rules, game, team, ticket, groups, j);
    }
  }

  // ----- Who is reported as taken -----

  lemma {:induction false} SelectedAre(pieces: seq<Piece>, groups: seq<Group>, id: PieceID)
    requires GroupsValid(pieces, groups)
    ensures id in SelectedIDs(pieces, groups) <==>
      exists j: nat :: j < |pieces| && Chosen(groups, j) && pieces[j].id == id
  {
    hide Chosen;
    if groups == [] {
      NobodyChosen();
    } else {
      assert forall g :: g in groups[1..] ==> g in groups;
      assert groups[0] in groups;
      SelectedAre(pieces, groups[1..], id);
      GroupIDs(pieces, groups[0].indices, id);
      forall j: nat
        ensures Chosen(groups, j) <==> j in groups[0].indices || Chosen(groups[1..], j)
      {
        ChosenSplit(groups, j);
      }
    }
  }

  lemma NobodyChosen()
    ensures forall j: nat :: !Chosen([], j)
  {
  }

  lemma GroupIDs(pieces: seq<Piece>, indices: seq<nat>, id: PieceID)
    requires IndicesValid(pieces, indices)
    ensures id in IDsOf(pieces, indices) <==> exists j: nat :: j < |pieces| && j in indices && pieces[j].id == id
  {
    IDsByIndex(pieces, indices);
    if j: nat :| j < |pieces| && j in indices && pieces[j].id == id {
      var k :| 0 <= k < |indices| && indices[k] == j;
      assert IDsOf(pieces, indices)[k] == id;
    }
    if id in IDsOf(pieces, indices) {
      var k :| 0 <= k < |indices| && IDsOf(pieces, indices)[k] == id;
      assert indices[k] in indices;
    }
  }

  /** A Buk reports its destination and exactly the pieces it takes. */
  lemma BukSelects(rules: Rules, game: GameState, team: Team, ticket: nat)
    requires GameInv(rules, game) && ResolveBuk(rules, game, team, ticket).Ok?
    ensures var outcome := ResolveBuk(rules, game, team, ticket).value.1;
      && outcome.destination == game.bukDestination
      && forall id :: id in outcome.selected <==>
        exists j: nat :: j < |game.pieces| && BukTakes(rules, game, team, ticket, j) && game.pieces[j].id == id
  {
    hide GameInv, BukTakes, BukGroups, GroupsStand, Ordered, Chosen, ApplyGroups, SelectedIDs;
    BukGroupsValid(rules, game, team, ticket);
    BukGroupsTake(rules, game, team, ticket);
    var groups := BukGroups(rules, game, team, ticket).value;
    forall id
      ensures id in SelectedIDs(game.pieces, groups) <==>
        exists j: nat :: j < |game.pieces| && BukTakes(rules, game, team, ticket, j) && game.pieces[j].id == id
    {
      SelectedAre(game.pieces, groups, id);
    }
  }

  // ----- Captures -----

  ghost predicate Clear(game: GameState, team: Team) {
    forall j :: 0 <= j < |game.pieces| && game.pieces[j].team != team ==> !OnSpot(game.pieces[j], game.bukDestination)
  }

  lemma GoneAfter(rules: Rules, before: GameState, team: Team, j: nat, company: set<nat>, left: SpaceID,
      after: GameState, o: MoveOutcome)
    requires j < |before.pieces| && before.pieces[j].team == team && j in company
    requires GoesOnce(rules, before, team, j, company, left, after, o)
    ensures Clear(after, team)
    ensures o.captureExtraThrow <==> !Clear(before, team) && Rewards(rules.settings.captureExtraThrow, Buk)
    ensures |after.pieces| == |before.pieces| && forall k :: 0 <= k < |after.pieces| ==>
      after.pieces[k].team == before.pieces[k].team
  {
    var destination := Position(OnBoard, before.bukDestination);
    assert after.pieces[j] == Fate(rules, before.pieces, team, company, destination, left, j);
    assert !o.matchEnded;
    assert Met(before.pieces, Opponent(team), destination) != {} <==> !Clear(before, team) by {
      MetExactly(before, team);
    }
    hide Lists, HasTwo, Met;
  }

  lemma MetExactly(game: GameState, team: Team)
    ensures Met(game.pieces, Opponent(team), Position(OnBoard, game.bukDestination)) != {} <==> !Clear(game, team)
  {
    var met := Met(game.pieces, Opponent(team), Position(OnBoard, game.bukDestination));
    if j :| 0 <= j < |game.pieces| && game.pieces[j].team != team && OnSpot(game.pieces[j], game.bukDestination) {
      assert j in met;
    }
    if j :| j in met {
      assert game.pieces[j].team != team && OnSpot(game.pieces[j], game.bukDestination);
    }
  }

  ghost predicate Earns(moves: seq<MoveOutcome>) {
    exists k :: 0 <= k < |moves| && moves[k].captureExtraThrow
  }

  lemma {:induction false} CapturesInTurn(rules: Rules, start: GameState, team: Team, ticket: nat, now: GameState,
      leaders: seq<nat>, after: GameState, moves: seq<MoveOutcome>)
    requires |now.pieces| == |start.pieces| && GoInTurn(rules, start, team, ticket, now, leaders, after, moves)
    requires forall k :: 0 <= k < |now.pieces| ==> now.pieces[k].team == start.pieces[k].team
    requires forall j :: j in leaders ==>
      j < |start.pieces| && start.pieces[j].team == team && BukTakes(rules, start, team, ticket, j)
    ensures Earns(moves) <==> leaders != [] && !Clear(now, team) && Rewards(rules.settings.captureExtraThrow, Buk)
    decreases |leaders|
  {
    hide BukTakes, GoesOnce, Clear, Rewards;
    if leaders != [] {
      assert leaders[0] in leaders;
      var company := Company(rules, start, team, ticket, leaders[0]);
      var left := start.pieces[leaders[0]].space;
      var next: GameState :| |next.pieces| == |start.pieces|
        && GoesOnce(rules, now, team, leaders[0], company, left, next, moves[0])
        && GoInTurn(rules, start, team, ticket, next, leaders[1..], after, moves[1..]);
      GoneAfter(rules, now, team, leaders[0], company, left, next, moves[0]);
      assert forall j :: j in leaders[1..] ==> j in leaders;
      CapturesInTurn(rules, start, team, ticket, next, leaders[1..], after, moves[1..]);
      EarnsFirst(moves);
    }
  }

  lemma EarnsFirst(moves: seq<MoveOutcome>)
    requires moves != []
    ensures Earns(moves) <==> moves[0].captureExtraThrow || Earns(moves[1..])
  {
    assert forall k :: 0 < k < |moves| ==> moves[k] == moves[1..][k - 1];
    assert forall k :: 0 <= k < |moves[1..]| ==> moves[1..][k] == moves[k + 1];
  }

  /** A Buk earns a throw exactly when it moves somebody, an opponent stood on the destination, and the room
      rewards captures by a Buk. */
  lemma BukEarnsExactly(rules: Rules, game: GameState, team: Team, ticket: nat)
    requires GameInv(rules, game) && ResolveBuk(rules, game, team, ticket).Ok?
    ensures var (after, outcome) := ResolveBuk(rules, game, team, ticket).value;
      Earns(outcome.moves) <==>
        BukMoves(rules, game, team, ticket) && !Clear(game, team) && Rewards(rules.settings.captureExtraThrow, Buk)
  {
    hide GameInv, GoInTurn, ResolveBuk, Clear, Rewards, BukTakes, Ascending;
    BukInTurns(rules, game, team, ticket);
    var (after, outcome) := ResolveBuk(rules, game, team, ticket).value;
    var leaders :| Leaders(rules, game, team, ticket, leaders)
      && GoInTurn(rules, game, team, ticket, game, leaders, after, outcome.moves);
    TakenAreOwn(rules, game, team, ticket);
    CapturesInTurn(rules, game, team, ticket, game, leaders, after, outcome.moves);
    SomebodyLeads(rules, game, team, ticket);
    if leaders != [] {
      assert leaders[0] in leaders;
    }
  }

  lemma TakenAreOwn(rules: Rules, game: GameState, team: Team, ticket: nat)
    ensures forall j: nat :: BukTakes(rules, game, team, ticket, j) ==> j < |game.pieces| && game.pieces[j].team == team
  {
    hide PieceDistance;
    var waiting := WaitingIndices(game.pieces, team);
    if ticket < |waiting| {
      assert waiting[ticket] in waiting;
    }
  }

  /** Among the taken pieces that must move, one leads. */
  lemma SomebodyLeads(rules: Rules, game: GameState, team: Team, ticket: nat)
    requires GameInv(rules, game)
    ensures BukMoves(rules, game, team, ticket) <==> exists j: nat :: Leads(rules, game, team, ticket, j)
  {
    hide GameInv, BukTakes;
    if BukMoves(rules, game, team, ticket) {
      var j: nat :| j < |game.pieces| && BukTakes(rules, game, team, ticket, j)
        && !OnSpot(game.pieces[j], game.bukDestination);
      var k := LeaderBefore(rules, game, team, ticket, j);
    }
  }

  lemma {:induction false} LeaderBefore(rules: Rules, game: GameState, team: Team, ticket: nat, j: nat) returns (k: nat)
    requires GameInv(rules, game) && j < |game.pieces| && BukTakes(rules, game, team, ticket, j)
    requires !OnSpot(game.pieces[j], game.bukDestination)
    ensures Leads(rules, game, team, ticket, k)
    decreases j
  {
    hide GameInv, BukTakes;
    if i: nat :| i < j && BukTakes(rules, game, team, ticket, i) && game.pieces[i].space == game.pieces[j].space {
      TakenAlike(rules, game, team, ticket, i, j);
      k := LeaderBefore(rules, game, team, ticket, i);
    } else {
      k := j;
    }
  }

  lemma TakenAlike(rules: Rules, game: GameState, team: Team, ticket: nat, i: nat, j: nat)
    requires GameInv(rules, game) && i < |game.pieces| && j < |game.pieces|
    requires BukTakes(rules, game, team, ticket, i) && BukTakes(rules, game, team, ticket, j)
    requires game.pieces[i].space == game.pieces[j].space
    ensures OnSpot(game.pieces[i], game.bukDestination) <==> OnSpot(game.pieces[j], game.bukDestination)
  {
    hide Apart, SharedHistory, Roster, WinnerOk, PieceDistance, RulesOk;
    assert PieceOk(rules.graph, game.pieces[i]) && PieceOk(rules.graph, game.pieces[j]);
    if HasActive(game.pieces, team) {
      SameSpaceSameState(rules.graph, game.pieces[i], game.pieces[j]);
    }
  }

  // ----- What a Buk leaves for a later Backdo -----

  /** A piece that a Buk took from another place on the board can step back at once: without stacking to the
      space it left, and with stacking, where everyone on the destination shares one history, to the space
      that was left last. */
  lemma BukThenBackdo(rules: Rules, game: GameState, team: Team, ticket: nat, i: nat)
    requires GameInv(rules, game) && ResolveBuk(rules, game, team, ticket).Ok? && HasActive(game.pieces, team)
    requires i < |game.pieces| && BukTakes(rules, game, team, ticket, i)
    requires !OnSpot(game.pieces[i], game.bukDestination)
    ensures var after := ResolveBuk(rules, game, team, ticket).value.0;
      var back := if rules.settings.stackingEnabled then LeftLast(rules, game, team, ticket) else game.pieces[i].space;
      var r := DecideBackdo(rules, after, team, game.pieces[i].id);
      && r.Ok? && Position(r.value.plan.state, r.value.plan.space) == StepBack(rules.graph, back)
      && (!rules.settings.stackingEnabled || OnePlace(rules, game, team, ticket) ==> back == game.pieces[i].space)
  {
    hide GameInv, ResolveBuk, BukTakes, HasActive, DecideBackdo, LeftLastBelow;
    BukOpen(rules, game, team, ticket);
    TakenAreOwn(rules, game, team, ticket);
    BukExact(rules, game, team, ticket);
    var after := ResolveBuk(rules, game, team, ticket).value.0;
    assert BukLands(rules, game, after, team, ticket, i);
    LastIsLed(rules, game, team, ticket, i);
    BackdoDecision(rules, after, i);
  }

  lemma BukOpen(rules: Rules, game: GameState, team: Team, ticket: nat)
    requires ResolveBuk(rules, game, team, ticket).Ok?
    ensures game.winner == None && rules.settings.bukModeEnabled
  {
  }

  /** All taken pieces that move stand in one place. */
  ghost predicate OnePlace(rules: Rules, game: GameState, team: Team, ticket: nat) {
    forall j: nat, k: nat :: Leads(rules, game, team, ticket, j) && Leads(rules, game, team, ticket, k) ==>
      game.pieces[j].space == game.pieces[k].space
  }

  lemma {:induction false} LastLedBelow(rules: Rules, game: GameState, team: Team, ticket: nat, n: nat) returns (j: nat)
    requires n <= |game.pieces| && exists k: nat :: k < n && Leads(rules, game, team, ticket, k)
    ensures j < n && Leads(rules, game, team, ticket, j)
    ensures LeftLastBelow(rules, game, team, ticket, n) == game.pieces[j].space
  {
    hide Leads;
    if Leads(rules, game, team, ticket, n - 1) {
      j := n - 1;
    } else {
      j := LastLedBelow(rules, game, team, ticket, n - 1);
    }
  }

  lemma LastIsLed(rules: Rules, game: GameState, team: Team, ticket: nat, i: nat)
    requires GameInv(rules, game) && HasActive(game.pieces, team)
    requires i < |game.pieces| && BukTakes(rules, game, team, ticket, i)
    requires !OnSpot(game.pieces[i], game.bukDestination)
    ensures BukMoves(rules, game, team, ticket)
    ensures LeftLast(rules, game, team, ticket) != NoSpace
    ensures OnePlace(rules, game, team, ticket) ==> LeftLast(rules, game, team, ticket) == game.pieces[i].space
    ensures game.pieces[i].space != NoSpace
  {
    hide GameInv, BukTakes, HasActive;
    var k := LeaderBefore(rules, game, team, ticket, i);
    var j := LastLedBelow(rules, game, team, ticket, |game.pieces|);
    TakenOnBoard(rules, game, team, ticket, j);
    TakenOnBoard(rules, game, team, ticket, i);
    LeaderPlace(rules, game, team, ticket, i);
  }

  lemma TakenOnBoard(rules: Rules, game: GameState, team: Team, ticket: nat, j: nat)
    requires GameInv(rules, game) && HasActive(game.pieces, team) && BukTakes(rules, game, team, ticket, j)
    ensures j < |game.pieces| && game.pieces[j].space != NoSpace
  {
    hide ValidGraph, Apart, SharedHistory, Roster, WinnerOk, PieceDistance;
    assert PieceOk(rules.graph, game.pieces[j]);
    NoSpaceUnknown(rules.graph);
    StartIsHome(rules.graph);
  }

  /** Somebody leads the place of every taken piece that moves. */
  lemma {:induction false} LeaderPlace(rules: Rules, game: GameState, team: Team, ticket: nat, j: nat)
    requires GameInv(rules, game) && j < |game.pieces| && BukTakes(rules, game, team, ticket, j)
    requires !OnSpot(game.pieces[j], game.bukDestination)
    ensures exists k: nat :: Leads(rules, game, team, ticket, k) && game.pieces[k].space == game.pieces[j].space
    decreases j
  {
    hide GameInv, BukTakes;
    if i: nat :| i < j && BukTakes(rules, game, team, ticket, i) && game.pieces[i].space == game.pieces[j].space {
      TakenAlike(rules, game, team, ticket, i, j);
      LeaderPlace(rules, game, team, ticket, i);
    } else {
      assert Leads(rules, game, team, ticket, j);
    }
  }
}
