/** The automatic Buk resolution: which pieces it takes, and what applying them in turn amounts to. */
module MatchBuk {
  import opened Domain
  import opened BoardGraph
  import opened BoardSearch
  import opened BoardValidate
  import opened BoardTheorems
  import opened MatchRules
  import opened MatchInvariants

  /** A group names unfinished pieces of one team that stand in one place. */
  ghost predicate GroupStands(pieces: seq<Piece>, team: Team, g: Group) {
    && g.indices != [] && IndicesValid(pieces, g.indices) && g.state != Finished
    && forall i :: i in g.indices ==> pieces[i].Stands(team, g.state, g.space)
  }

  /** No two groups stand in the same place. */
  ghost predicate GroupsStand(pieces: seq<Piece>, team: Team, groups: seq<Group>) {
    && GroupsValid(pieces, groups)
    && (forall g :: g in groups ==> GroupStands(pieces, team, g))
    && forall a, b :: 0 <= a < b < |groups| ==> groups[a].space != groups[b].space
  }

  ghost predicate Chosen(groups: seq<Group>, i: nat) {
    exists g :: g in groups && i in g.indices
  }

  predicate OnSpot(p: Piece, space: SpaceID) {
    p.state == OnBoard && p.space == space
  }

  /** A Buk resolution of one group is a proper relocation. */
  lemma BukIsResolution(rules: Rules, game: GameState, team: Team, group: Group)
    requires GroupStands(game.pieces, team, group) && !AlreadyThere(game, group)
    requires GameInv(rules, game) && rules.settings.bukModeEnabled
    ensures ResolutionOk(rules.graph, game.pieces, team, BukResolution(game.bukDestination, group))
  {
    hide ValidGraph, Apart, SharedHistory, Roster, WinnerOk, Graph.Spaces;
    var k := group.indices[0];
    assert k in group.indices;
    assert PieceOk(rules.graph, game.pieces[k]);
    NoSpaceUnknown(rules.graph);
    StartIsHome(rules.graph);
  }

  lemma OneGroupStands(pieces: seq<Piece>, team: Team, groups: seq<Group>)
    requires groups != [] && GroupsStand(pieces, team, groups)
    ensures GroupStands(pieces, team, groups[0]) && GroupsStand(pieces, team, groups[1..])
  {
    hide GroupStands;
    assert groups[0] in groups;
    assert forall g :: g in groups[1..] ==> g in groups;
  }

  /** Applying one group leaves the groups behind it where they were. */
  lemma LaterGroupsStand(rules: Rules, game: GameState, team: Team, groups: seq<Group>)
    requires groups != [] && GroupsStand(game.pieces, team, groups) && !AlreadyThere(game, groups[0])
    ensures GroupsStand(Relocate(rules, game.pieces, team, BukResolution(game.bukDestination, groups[0])), team,
      groups[1..])
  {
    hide Relocate;
    var plan := BukResolution(game.bukDestination, groups[0]);
    OneGroupStands(game.pieces, team, groups);
    forall g | g in groups[1..]
      ensures GroupStands(Relocate(rules, game.pieces, team, plan), team, g)
    {
      var b :| 1 <= b < |groups| && groups[b] == g;
      assert g in groups && groups[0].space != groups[b].space;
      forall i | i in g.indices
        ensures Relocate(rules, game.pieces, team, plan)[i].Stands(team, g.state, g.space)
      {
        RelocateEffect(rules, game.pieces, team, plan, i);
      }
    }
  }

  /** The space that the last group to move leaves. */
  function LastLeft(game: GameState, groups: seq<Group>): Option<SpaceID> {
    if groups == [] then None
    else
      match LastLeft(game, groups[1..])
      case Some(space) => Some(space)
      case None => if AlreadyThere(game, groups[0]) then None else Some(groups[0].space)
  }

  /** What applying groups one after another does to one piece. */
  ghost predicate BukEffect(rules: Rules, before: GameState, after: GameState, team: Team, groups: seq<Group>, i: nat)
    requires i < |before.pieces| == |after.pieces|
  {
    var p, q := before.pieces[i], after.pieces[i];
    var last := LastLeft(before, groups);
    if p.team != team then
      q == if OnSpot(p, before.bukDestination) && last.Some? then SentHome(p) else p
    else if Chosen(groups, i) && !OnSpot(p, before.bukDestination) then
      last.Some? && q ==
        Landed(p, before.bukDestination, if rules.settings.stackingEnabled then last.value else p.space)
    else if rules.settings.stackingEnabled && OnSpot(p, before.bukDestination) && last.Some? then
      q == Landed(p, before.bukDestination, last.value)
    else
      q == p
  }

  function Landed(p: Piece, space: SpaceID, previous: SpaceID): Piece {
    p.(state := OnBoard, space := space, previous := previous)
  }

  lemma {:induction false} ApplyGroupsKeeps(rules: Rules, game: GameState, team: Team, groups: seq<Group>)
    requires GameInv(rules, game) && game.winner == None && rules.settings.bukModeEnabled
    requires GroupsStand(game.pieces, team, groups)
    ensures var (after, moves) := ApplyGroups(rules, game, team, groups);
      && GameInv(rules, after) && after.winner == None
      && forall m :: m in moves ==> !m.matchEnded
    decreases |groups|
  {
    hide GameInv, GroupsStand, GroupStands, Relocate;
    if groups != [] {
      OneGroupStands(game.pieces, team, groups);
      if AlreadyThere(game, groups[0]) {
        ApplyGroupsKeeps(rules, game, team, groups[1..]);
      } else {
        var plan := BukResolution(game.bukDestination, groups[0]);
        BukIsResolution(rules, game, team, groups[0]);
        BukStep(rules, game, team, groups[0]);
        LaterGroupsStand(rules, game, team, groups);
        var (first, move) := ApplyResolution(rules, game, team, groups[0].indices[0], Buk, plan);
        ApplyGroupsKeeps(rules, first, team, groups[1..]);
      }
    }
  }

  /** One Buk relocation never finishes a piece, so it never ends the match. */
  lemma BukStep(rules: Rules, game: GameState, team: Team, group: Group)
    requires GroupStands(game.pieces, team, group) && !AlreadyThere(game, group)
    requires GameInv(rules, game) && game.winner == None && rules.settings.bukModeEnabled
    ensures var (first, move) :=
        ApplyResolution(rules, game, team, group.indices[0], Buk, BukResolution(game.bukDestination, group));
      GameInv(rules, first) && first.winner == None && !move.matchEnded
  {
    hide GameInv, Relocate, ResolutionOk, ApplyResolution;
    var plan := BukResolution(game.bukDestination, group);
    var k := group.indices[0];
    assert k in group.indices;
    BukIsResolution(rules, game, team, group);
    ResolutionKeepsInv(rules, game, team, k, Buk, plan);
    StayingNeverEnds(rules, game, team, k, Buk, plan);
  }

  /** Applying the groups in turn has one order-free effect on every piece. */
  lemma {:induction false} ApplyGroupsEffect(rules: Rules, game: GameState, team: Team, groups: seq<Group>, i: nat)
    requires GameInv(rules, game) && game.winner == None && rules.settings.bukModeEnabled
    requires GroupsStand(game.pieces, team, groups) && i < |game.pieces|
    ensures BukEffect(rules, game, ApplyGroups(rules, game, team, groups).0, team, groups, i)
    decreases |groups|
  {
    if groups != [] {
      OneGroupStands(game.pieces, team, groups);
      if AlreadyThere(game, groups[0]) {
        ApplyGroupsEffect(rules, game, team, groups[1..], i);
        SkipEffect(rules, game, ApplyGroups(rules, game, team, groups[1..]).0, team, groups, i);
      } else {
        BukIsResolution(rules, game, team, groups[0]);
        BukStep(rules, game, team, groups[0]);
        LaterGroupsStand(rules, game, team, groups);
        var plan := BukResolution(game.bukDestination, groups[0]);
        var (first, move) := ApplyResolution(rules, game, team, groups[0].indices[0], Buk, plan);
        ApplyGroupsEffect(rules, first, team, groups[1..], i);
        StepEffect(rules, game, first, ApplyGroups(rules, first, team, groups[1..]).0, team, groups, i);
      }
    }
  }

  lemma ChosenSplit(groups: seq<Group>, i: nat)
    requires groups != []
    ensures Chosen(groups, i) <==> i in groups[0].indices || Chosen(groups[1..], i)
  {
    assert groups == [groups[0]] + groups[1..];
  }

  lemma SkipEffect(rules: Rules, game: GameState, after: GameState, team: Team, groups: seq<Group>, i: nat)
    requires groups != [] && AlreadyThere(game, groups[0]) && GroupsStand(game.pieces, team, groups)
    requires i < |game.pieces| == |after.pieces| && BukEffect(rules, game, after, team, groups[1..], i)
    ensures BukEffect(rules, game, after, team, groups, i)
  {
    ChosenSplit(groups, i);
    assert groups[0] in groups;
    hide Chosen;
  }

  lemma StepEffect(rules: Rules, game: GameState, first: GameState, after: GameState, team: Team, groups: seq<Group>,
      i: nat)
    requires groups != [] && !AlreadyThere(game, groups[0]) && GroupsStand(game.pieces, team, groups)
    requires first.pieces == Relocate(rules, game.pieces, team, BukResolution(game.bukDestination, groups[0]))
    requires first.bukDestination == game.bukDestination
    requires i < |game.pieces| == |after.pieces| && BukEffect(rules, first, after, team, groups[1..], i)
    ensures BukEffect(rules, game, after, team, groups, i)
  {
    ChosenSplit(groups, i);
    SameLast(game, first, groups[1..]);
    if i in groups[0].indices {
      NotChosenAgain(game.pieces, team, groups, i);
    }
    RelocateEffect(rules, game.pieces, team, BukResolution(game.bukDestination, groups[0]), i);
    assert groups[0] in groups;
    hide Chosen, Relocate, LastLeft;
    LastLeftSplit(game, groups);
  }

  lemma LastLeftSplit(game: GameState, groups: seq<Group>)
    requires groups != [] && !AlreadyThere(game, groups[0])
    ensures LastLeft(game, groups) ==
      if LastLeft(game, groups[1..]).Some? then LastLeft(game, groups[1..]) else Some(groups[0].space)
  {
  }

  lemma {:induction false} SameLast(game: GameState, other: GameState, groups: seq<Group>)
    requires other.bukDestination == game.bukDestination
    ensures LastLeft(other, groups) == LastLeft(game, groups)
  {
    if groups != [] {
      SameLast(game, other, groups[1..]);
    }
  }

  /** A piece stands in one place, so it is in one group. */
  lemma NotChosenAgain(pieces: seq<Piece>, team: Team, groups: seq<Group>, i: nat)
    requires groups != [] && GroupsStand(pieces, team, groups) && i in groups[0].indices
    ensures !Chosen(groups[1..], i)
  {
    assert groups[0] in groups;
    if g :| g in groups[1..] && i in g.indices {
      var b :| 1 <= b < |groups| && groups[b] == g;
      assert g in groups;
    }
  }

  // ----- Which groups are taken -----

  lemma SameSpaceSameState(g: Graph, p: Piece, q: Piece)
    requires PieceOk(g, p) && PieceOk(g, q) && p.Active() && q.Active() && p.space == q.space
    ensures p.state == q.state
  {
    hide Graph.Spaces;
  }

  predicate OnBoardPiece(pieces: seq<Piece>, team: Team, i: nat) {
    i < |pieces| && pieces[i].team == team && pieces[i].Active()
  }

  /** Groups built so far hold exactly the team's pieces on the board among the first n. */
  ghost predicate CoversBelow(pieces: seq<Piece>, team: Team, groups: seq<Group>, n: nat) {
    && (forall i: nat :: Chosen(groups, i) <==> i < n && OnBoardPiece(pieces, team, i))
    && forall h :: h in groups ==> h.state == OnBoard || h.state == HomeCheckpoint
  }

  /** Grouping covers exactly the team's pieces on the board, one group a space. */
  lemma {:induction false} GroupsCover(g: Graph, pieces: seq<Piece>, team: Team, n: nat)
    requires PiecesOk(g, pieces) && n <= |pieces|
    ensures GroupsStand(pieces, team, GroupsBelow(pieces, team, n))
    ensures CoversBelow(pieces, team, GroupsBelow(pieces, team, n), n)
  {
    hide GroupsStand, CoversBelow, Graph.Spaces, PieceOk;
    if n == 0 {
      NoGroups(pieces, team);
    } else {
      GroupsCover(g, pieces, team, n - 1);
      var groups := GroupsBelow(pieces, team, n - 1);
      var p := pieces[n - 1];
      if p.team == team && p.Active() {
        var k := GroupOf(groups, p.space);
        if k < |groups| {
          GroupMember(pieces, team, groups, k, n - 1);
          SameSpaceSameState(g, pieces[groups[k].indices[0]], p);
          GroupExtended(pieces, team, groups, k, n - 1);
        } else {
          GroupOpened(pieces, team, groups, n - 1);
        }
      } else {
        GroupsUnchanged(pieces, team, groups, n - 1);
      }
    }
  }

  lemma NoGroups(pieces: seq<Piece>, team: Team)
    ensures GroupsStand(pieces, team, []) && CoversBelow(pieces, team, [], 0)
  {
  }

  lemma GroupsUnchanged(pieces: seq<Piece>, team: Team, groups: seq<Group>, n: nat)
    requires CoversBelow(pieces, team, groups, n) && !OnBoardPiece(pieces, team, n)
    ensures CoversBelow(pieces, team, groups, n + 1)
  {
  }

  /** The first piece of a group stands where the group does. */
  lemma GroupMember(pieces: seq<Piece>, team: Team, groups: seq<Group>, k: nat, n: nat)
    requires GroupsStand(pieces, team, groups) && k < |groups| && CoversBelow(pieces, team, groups, n)
    ensures groups[k] in groups && groups[k].indices != []
    ensures Chosen(groups, groups[k].indices[0]) && OnBoardPiece(pieces, team, groups[k].indices[0])
    ensures pieces[groups[k].indices[0]].Stands(team, groups[k].state, groups[k].space)
  {
    assert groups[k] in groups && groups[k].indices[0] in groups[k].indices;
    assert Chosen(groups, groups[k].indices[0]);
  }

  /** A piece joins the group that already stands on its space. */
  lemma GroupExtended(pieces: seq<Piece>, team: Team, groups: seq<Group>, k: nat, i: nat)
    requires GroupsStand(pieces, team, groups) && k < |groups| && CoversBelow(pieces, team, groups, i)
    requires OnBoardPiece(pieces, team, i) && pieces[i].Stands(team, groups[k].state, groups[k].space)
    ensures var groups' := groups[k := groups[k].(indices := groups[k].indices + [i])];
      GroupsStand(pieces, team, groups') && CoversBelow(pieces, team, groups', i + 1)
  {
    var grown := groups[k].(indices := groups[k].indices + [i]);
    var groups' := groups[k := grown];
    GrownStands(pieces, team, groups, k, i);
    forall j: nat
      ensures Chosen(groups', j) <==> Chosen(groups, j) || j == i
    {
      ChosenGrown(groups, k, i, j);
    }
    hide Chosen, OnBoardPiece, GroupStands;
    forall h | h in groups'
      ensures h.state == OnBoard || h.state == HomeCheckpoint
    {
      var b :| 0 <= b < |groups'| && groups'[b] == h;
      assert groups[b] in groups;
    }
  }

  lemma GrownStands(pieces: seq<Piece>, team: Team, groups: seq<Group>, k: nat, i: nat)
    requires GroupsStand(pieces, team, groups) && k < |groups| && i < |pieces|
    requires pieces[i].Stands(team, groups[k].state, groups[k].space)
    ensures GroupsStand(pieces, team, groups[k := groups[k].(indices := groups[k].indices + [i])])
  {
    var grown := groups[k].(indices := groups[k].indices + [i]);
    var groups' := groups[k := grown];
    assert groups[k] in groups;
    assert GroupStands(pieces, team, groups[k]);
    forall h | h in groups'
      ensures GroupStands(pieces, team, h)
    {
      var b :| 0 <= b < |groups'| && groups'[b] == h;
      assert groups[b] in groups;
    }
  }

  lemma ChosenGrown(groups: seq<Group>, k: nat, i: nat, j: nat)
    requires k < |groups|
    ensures Chosen(groups[k := groups[k].(indices := groups[k].indices + [i])], j) <==> Chosen(groups, j) || j == i
  {
    var grown := groups[k].(indices := groups[k].indices + [i]);
    var groups' := groups[k := grown];
    assert groups'[k] == grown;
    if Chosen(groups, j) {
      var h :| h in groups && j in h.indices;
      var b :| 0 <= b < |groups| && groups[b] == h;
      assert j in groups'[b].indices;
    }
    if j == i {
      assert grown in groups' && i in grown.indices;
    }
    if Chosen(groups', j) && j != i {
      var h :| h in groups' && j in h.indices;
      var b :| 0 <= b < |groups'| && groups'[b] == h;
      assert j in groups[b].indices;
    }
  }

  /** A piece on a space without a group opens one. */
  lemma GroupOpened(pieces: seq<Piece>, team: Team, groups: seq<Group>, i: nat)
    requires GroupsStand(pieces, team, groups) && CoversBelow(pieces, team, groups, i)
    requires OnBoardPiece(pieces, team, i)
    requires forall j :: 0 <= j < |groups| ==> groups[j].space != pieces[i].space
    ensures var groups' := groups + [Group(pieces[i].state, pieces[i].space, [i])];
      GroupsStand(pieces, team, groups') && CoversBelow(pieces, team, groups', i + 1)
  {
    var added := Group(pieces[i].state, pieces[i].space, [i]);
    var groups' := groups + [added];
    assert GroupStands(pieces, team, added);
    assert groups'[|groups|] == added;
    forall j: nat
      ensures Chosen(groups', j) <==> Chosen(groups, j) || j == i
    {
      ChosenAdded(groups, added, j);
    }
  }

  lemma ChosenAdded(groups: seq<Group>, added: Group, j: nat)
    ensures Chosen(groups + [added], j) <==> Chosen(groups, j) || j in added.indices
  {
    assert (groups + [added])[|groups|] == added;
    forall h | h in groups
      ensures h in groups + [added]
    {
    }
  }

  /** The distance of a piece on the board to the finish. */
  ghost function PieceDistance(rules: Rules, p: Piece): int {
    match RemainingDistance(rules.graph, p.At(), rules.settings.shortcutPolicy)
    case Ok(d) => d
    case Err(_) => 0
  }

  /** No piece of the team on the board is nearer to the finish. */
  ghost predicate Nearest(rules: Rules, pieces: seq<Piece>, team: Team, i: nat) {
    && OnBoardPiece(pieces, team, i)
    && forall j: nat :: OnBoardPiece(pieces, team, j) ==>
      PieceDistance(rules, pieces[i]) <= PieceDistance(rules, pieces[j])
  }

  ghost predicate HasActive(pieces: seq<Piece>, team: Team) {
    exists i: nat :: OnBoardPiece(pieces, team, i)
  }

  /** The pieces a Buk takes: all nearest ones, or the drawn waiting piece when none is on the board. */
  ghost predicate BukTakes(rules: Rules, game: GameState, team: Team, ticket: nat, i: nat) {
    if HasActive(game.pieces, team) then Nearest(rules, game.pieces, team, i)
    else
      var waiting := WaitingIndices(game.pieces, team);
      ticket < |waiting| && waiting[ticket] == i
  }

  lemma GroupDistanceIsPieceDistance(rules: Rules, game: GameState, team: Team, groups: seq<Group>, h: Group)
    requires GameInv(rules, game) && GroupsStand(game.pieces, team, groups) && h in groups
    requires h.state == OnBoard || h.state == HomeCheckpoint
    ensures GroupDistance(rules, h).Ok? && GroupDistance(rules, h).value >= 1
    ensures h.indices != []
    ensures forall i :: i in h.indices ==>
      i < |game.pieces| && PieceDistance(rules, game.pieces[i]) == GroupDistance(rules, h).value
  {
    hide ValidGraph, Apart, SharedHistory, Roster, WinnerOk, Graph.Spaces, RemainingDistance;
    assert GroupStands(game.pieces, team, h);
    var k := h.indices[0];
    assert k in h.indices;
    assert PieceOk(rules.graph, game.pieces[k]);
    DistanceDefined(rules.graph, Position(h.state, h.space), rules.settings.shortcutPolicy);
  }

  lemma {:induction false} DistancesAreGood(rules: Rules, groups: seq<Group>)
    requires forall h :: h in groups ==> GroupDistance(rules, h).Ok? && GroupDistance(rules, h).value >= 1
    ensures DistanceError(rules, groups) == None
  {
    if groups != [] {
      assert groups[0] in groups;
      DistancesAreGood(rules, groups[1..]);
    }
  }

  lemma {:induction false} ClosestStand(rules: Rules, pieces: seq<Piece>, team: Team, all: seq<Group>,
      groups: seq<Group>)
    requires GroupsStand(pieces, team, groups)
    ensures GroupsStand(pieces, team, ClosestOf(rules, all, groups))
  {
    hide GroupStands, IsClosest;
    ClosestAreGroups(rules, all, groups);
    if groups != [] {
      ClosestStand(rules, pieces, team, all, groups[1..]);
      ClosestAreGroups(rules, all, groups[1..]);
      var rest := ClosestOf(rules, all, groups[1..]);
      forall h | h in rest
        ensures h.space != groups[0].space
      {
        var b :| 1 <= b < |groups| && groups[b] == h;
      }
    }
  }

  lemma {:induction false} ClosestExists(rules: Rules, groups: seq<Group>) returns (h: Group)
    requires groups != [] && forall g :: g in groups ==> GroupDistance(rules, g).Ok?
    ensures h in groups && IsClosest(rules, groups, h)
    decreases |groups|
  {
    hide GroupDistance;
    h := groups[0];
    assert groups == [groups[0]] + groups[1..];
    if groups[1..] != [] {
      var rest := ClosestExists(rules, groups[1..]);
      if GroupDistance(rules, rest).value < GroupDistance(rules, h).value {
        h := rest;
      }
    }
  }

  /** Every group's distance is that of each of its pieces. */
  ghost predicate DistancesMatch(rules: Rules, pieces: seq<Piece>, groups: seq<Group>) {
    forall h, k: nat :: h in groups && k in h.indices ==> Measured(rules, pieces, h, k)
  }

  ghost predicate Measured(rules: Rules, pieces: seq<Piece>, h: Group, k: nat) {
    k < |pieces| && GroupDistance(rules, h).Ok? && PieceDistance(rules, pieces[k]) == GroupDistance(rules, h).value
  }

  ghost predicate Covers(pieces: seq<Piece>, team: Team, groups: seq<Group>) {
    && (forall i: nat :: Chosen(groups, i) <==> OnBoardPiece(pieces, team, i))
    && forall h :: h in groups ==> h.indices != []
  }

  lemma NearestIsChosen(rules: Rules, pieces: seq<Piece>, team: Team, groups: seq<Group>, closest: seq<Group>, i: nat)
    requires Covers(pieces, team, groups) && DistancesMatch(rules, pieces, groups)
    requires forall h :: h in closest <==> h in groups && IsClosest(rules, groups, h)
    requires Nearest(rules, pieces, team, i)
    ensures Chosen(closest, i)
  {
    hide GroupDistance, PieceDistance, OnBoardPiece;
    assert Chosen(groups, i);
    var h :| h in groups && i in h.indices;
    forall other | other in groups && GroupDistance(rules, other).Ok?
      ensures GroupDistance(rules, h).value <= GroupDistance(rules, other).value
    {
      var j := other.indices[0];
      assert j in other.indices && Chosen(groups, j);
    }
    assert IsClosest(rules, groups, h);
  }

  lemma ChosenIsNearest(rules: Rules, pieces: seq<Piece>, team: Team, groups: seq<Group>, closest: seq<Group>, i: nat)
    requires Covers(pieces, team, groups) && DistancesMatch(rules, pieces, groups)
    requires forall h :: h in closest <==> h in groups && IsClosest(rules, groups, h)
    requires Chosen(closest, i)
    ensures Nearest(rules, pieces, team, i)
  {
    hide GroupDistance, PieceDistance, OnBoardPiece;
    var h :| h in closest && i in h.indices;
    assert h in groups && IsClosest(rules, groups, h);
    assert Chosen(groups, i);
    OnBoardInRange(pieces, team);
    MemberMeasured(rules, pieces, groups, h, i);
    forall j: nat | j < |pieces| && OnBoardPiece(pieces, team, j)
      ensures i < |pieces| && PieceDistance(rules, pieces[i]) <= PieceDistance(rules, pieces[j])
    {
      assert Chosen(groups, j);
      var other :| other in groups && j in other.indices;
      MemberMeasured(rules, pieces, groups, other, j);
      assert GroupDistance(rules, h).value <= GroupDistance(rules, other).value;
    }
  }

  lemma MemberMeasured(rules: Rules, pieces: seq<Piece>, groups: seq<Group>, h: Group, k: nat)
    requires DistancesMatch(rules, pieces, groups) && h in groups && k in h.indices
    ensures k < |pieces| && GroupDistance(rules, h).Ok?
    ensures PieceDistance(rules, pieces[k]) == GroupDistance(rules, h).value
  {
    hide GroupDistance, PieceDistance;
    assert Measured(rules, pieces, h, k);
  }

  lemma OnBoardInRange(pieces: seq<Piece>, team: Team)
    ensures forall j: nat :: OnBoardPiece(pieces, team, j) ==> j < |pieces|
  {
  }

  lemma GroupsMeasurable(rules: Rules, game: GameState, team: Team, groups: seq<Group>)
    requires GameInv(rules, game) && GroupsStand(game.pieces, team, groups)
    requires forall h :: h in groups ==> h.state == OnBoard || h.state == HomeCheckpoint
    ensures forall h :: h in groups ==>
      GroupDistance(rules, h).Ok? && GroupDistance(rules, h).value >= 1 && h.indices != []
    ensures DistancesMatch(rules, game.pieces, groups)
  {
    hide GameInv, GroupDistance, PieceDistance, GroupsStand;
    forall h | h in groups
      ensures GroupDistance(rules, h).Ok? && GroupDistance(rules, h).value >= 1 && h.indices != []
      ensures forall k :: k in h.indices ==>
        k < |game.pieces| && PieceDistance(rules, game.pieces[k]) == GroupDistance(rules, h).value
    {
      GroupDistanceIsPieceDistance(rules, game, team, groups, h);
    }
  }

  /** The groups of a reachable match are well placed, measurable, and cover the team's pieces. */
  lemma GroupsAreGood(rules: Rules, game: GameState, team: Team, groups: seq<Group>)
    requires GameInv(rules, game) && groups == PositionGroups(game.pieces, team)
    ensures GroupsStand(game.pieces, team, groups) && Covers(game.pieces, team, groups)
    ensures DistancesMatch(rules, game.pieces, groups) && DistanceError(rules, groups) == None
    ensures forall h :: h in groups ==> GroupDistance(rules, h).Ok?
  {
    hide GameInv, GroupDistance, PieceDistance, GroupsStand, GroupsBelow, PiecesOk, Chosen, DistancesMatch,
      DistanceError;
    InvPieces(rules, game);
    GroupsCover(rules.graph, game.pieces, team, |game.pieces|);
    GroupsMeasurable(rules, game, team, groups);
    DistancesAreGood(rules, groups);
  }

  /** With pieces on the board a Buk takes exactly the nearest ones. */
  lemma NearestAreTaken(rules: Rules, game: GameState, team: Team)
    requires GameInv(rules, game)
    ensures var groups := PositionGroups(game.pieces, team);
      var closest := ClosestOf(rules, groups, groups);
      && DistanceError(rules, groups) == None
      && (groups != [] <==> HasActive(game.pieces, team))
      && GroupsStand(game.pieces, team, closest)
      && (groups != [] ==> closest != [])
      && (forall i: nat :: Chosen(closest, i) <==> Nearest(rules, game.pieces, team, i))
  {
    hide GameInv, GroupsBelow, Nearest, GroupsStand, DistancesMatch, IsClosest, ClosestOf, GroupDistance;
    var groups := PositionGroups(game.pieces, team);
    var closest := ClosestOf(rules, groups, groups);
    GroupsAreGood(rules, game, team, groups);
    ClosestStand(rules, game.pieces, team, groups, groups);
    ClosestAreGroups(rules, groups, groups);
    if groups != [] {
      var h := ClosestExists(rules, groups);
      assert h in closest;
      assert groups[0] in groups && groups[0].indices[0] in groups[0].indices;
      assert Chosen(groups, groups[0].indices[0]);
    }
    forall i: nat
      ensures Chosen(closest, i) <==> Nearest(rules, game.pieces, team, i)
    {
      if Chosen(closest, i) {
        ChosenIsNearest(rules, game.pieces, team, groups, closest, i);
      }
      if Nearest(rules, game.pieces, team, i) {
        NearestIsChosen(rules, game.pieces, team, groups, closest, i);
      }
    }
  }

  // ----- The whole resolution -----

  ghost predicate BukMoves(rules: Rules, game: GameState, team: Team, ticket: nat) {
    exists j: nat :: j < |game.pieces| && BukTakes(rules, game, team, ticket, j)
      && !OnSpot(game.pieces[j], game.bukDestination)
  }

  /** A taken piece that is not on the destination yet, the first of the taken ones in its place. */
  ghost predicate Leads(rules: Rules, game: GameState, team: Team, ticket: nat, j: nat) {
    && j < |game.pieces| && BukTakes(rules, game, team, ticket, j) && !OnSpot(game.pieces[j], game.bukDestination)
    && forall k: nat :: k < j && BukTakes(rules, game, team, ticket, k) ==> game.pieces[k].space != game.pieces[j].space
  }

  /** The place of the last such piece among the first n, or no place. */
  ghost function LeftLastBelow(rules: Rules, game: GameState, team: Team, ticket: nat, n: nat): SpaceID
    requires n <= |game.pieces|
  {
    if n == 0 then NoSpace
    else if Leads(rules, game, team, ticket, n - 1) then game.pieces[n - 1].space
    else LeftLastBelow(rules, game, team, ticket, n - 1)
  }

  ghost function LeftLast(rules: Rules, game: GameState, team: Team, ticket: nat): SpaceID {
    LeftLastBelow(rules, game, team, ticket, |game.pieces|)
  }

  /** What a Buk does to one piece: taken pieces land on the destination, with the space they left as their
      history; opponents met there go back to waiting; with stacking everyone on the destination has the same
      history, the place that was left last; and nothing else changes. */
  ghost predicate BukLands(rules: Rules, before: GameState, after: GameState, team: Team, ticket: nat, i: nat)
    requires i < |before.pieces| == |after.pieces|
  {
    var p, q := before.pieces[i], after.pieces[i];
    var spot, stacking := before.bukDestination, rules.settings.stackingEnabled;
    if p.team != team then
      q == if OnSpot(p, spot) && BukMoves(rules, before, team, ticket) then SentHome(p) else p
    else if BukTakes(rules, before, team, ticket, i) && !OnSpot(p, spot) then
      q == Landed(p, spot, if stacking then LeftLast(rules, before, team, ticket) else p.space)
    else if stacking && OnSpot(p, spot) && BukMoves(rules, before, team, ticket) then
      q == Landed(p, spot, LeftLast(rules, before, team, ticket))
    else
      q == p
  }

  // ----- The order of the groups -----

  /** Groups follow each other as their first members do, and a group's first member is its least. */
  ghost predicate Ordered(groups: seq<Group>) {
    && (forall b :: 0 <= b < |groups| ==> Led(groups[b]))
    && forall a, b :: 0 <= a < b < |groups| ==>
      groups[a].indices != [] && groups[b].indices != [] && groups[a].indices[0] < groups[b].indices[0]
  }

  ghost predicate Led(g: Group) {
    g.indices != [] && forall i :: i in g.indices ==> g.indices[0] <= i
  }

  ghost predicate IndicesBelowAll(groups: seq<Group>, n: nat) {
    forall b, i :: 0 <= b < |groups| && i in groups[b].indices ==> i < n
  }

  lemma {:induction false} GroupsOrdered(pieces: seq<Piece>, team: Team, n: nat)
    requires n <= |pieces|
    ensures Ordered(GroupsBelow(pieces, team, n)) && IndicesBelowAll(GroupsBelow(pieces, team, n), n)
  {
    hide Ordered, IndicesBelowAll;
    if n == 0 {
      NothingOrdered();
    } else {
      GroupsOrdered(pieces, team, n - 1);
      var groups := GroupsBelow(pieces, team, n - 1);
      var p := pieces[n - 1];
      var k := GroupOf(groups, p.space);
      BelowMore(groups, n - 1);
      if k < |groups| {
        GrownOrdered(groups, k, n - 1);
      } else {
        AddedOrdered(groups, Group(p.state, p.space, [n - 1]), n - 1);
      }
    }
  }

  lemma NothingOrdered()
    ensures Ordered([]) && IndicesBelowAll([], 0)
  {
  }

  lemma BelowMore(groups: seq<Group>, n: nat)
    requires IndicesBelowAll(groups, n)
    ensures IndicesBelowAll(groups, n + 1)
  {
  }

  lemma GrownOrdered(groups: seq<Group>, k: nat, n: nat)
    requires Ordered(groups) && IndicesBelowAll(groups, n) && k < |groups|
    ensures var groups' := groups[k := groups[k].(indices := groups[k].indices + [n])];
      Ordered(groups') && IndicesBelowAll(groups', n + 1)
  {
    var grown := groups[k].(indices := groups[k].indices + [n]);
    var groups' := groups[k := grown];
    assert Led(groups[k]) && groups[k].indices[0] in groups[k].indices;
    assert Led(grown);
    forall b | 0 <= b < |groups'|
      ensures Led(groups'[b]) && groups'[b].indices[0] == groups[b].indices[0]
      ensures forall i :: i in groups'[b].indices ==> i < n + 1
    {
      assert Led(groups[b]);
    }
  }

  lemma AddedOrdered(groups: seq<Group>, added: Group, n: nat)
    requires Ordered(groups) && IndicesBelowAll(groups, n) && added.indices == [n]
    ensures Ordered(groups + [added]) && IndicesBelowAll(groups + [added], n + 1)
  {
    var groups' := groups + [added];
    forall b | 0 <= b < |groups|
      ensures groups'[b] == groups[b] && groups[b].indices != [] && groups[b].indices[0] < n
    {
      assert Led(groups[b]) && groups[b].indices[0] in groups[b].indices;
    }
    assert groups'[|groups|] == added;
  }

  lemma {:induction false} ClosestOrdered(rules: Rules, all: seq<Group>, groups: seq<Group>)
    requires Ordered(groups)
    ensures Ordered(ClosestOf(rules, all, groups))
  {
    hide IsClosest, Ordered;
    if groups == [] {
      NothingOrdered();
    } else {
      var rest := ClosestOf(rules, all, groups[1..]);
      TailOrdered(groups);
      ClosestOrdered(rules, all, groups[1..]);
      ClosestAreGroups(rules, all, groups[1..]);
      HeadOrdered(groups, rest);
      assert [] + rest == rest;
    }
  }

  lemma TailOrdered(groups: seq<Group>)
    requires groups != [] && Ordered(groups)
    ensures Ordered(groups[1..])
  {
    assert forall b :: 0 <= b < |groups[1..]| ==> groups[1..][b] == groups[b + 1];
  }

  lemma HeadOrdered(groups: seq<Group>, rest: seq<Group>)
    requires groups != [] && Ordered(groups) && Ordered(rest) && forall g :: g in rest ==> g in groups[1..]
    ensures Ordered([groups[0]] + rest)
  {
    var all := [groups[0]] + rest;
    assert Led(groups[0]);
    forall b | 0 <= b < |rest|
      ensures all[b + 1] == rest[b] && Led(rest[b]) && groups[0].indices[0] < rest[b].indices[0]
    {
      assert rest[b] in rest;
      var c :| 1 <= c < |groups| && groups[c] == rest[b];
    }
    forall b | 0 <= b < |all|
      ensures Led(all[b])
    {
      assert b > 0 ==> all[b] == rest[b - 1];
    }
    forall x, y | 0 <= x < y < |all|
      ensures all[x].indices != [] && all[y].indices != [] && all[x].indices[0] < all[y].indices[0]
    {
      assert all[y] == rest[y - 1] && (x > 0 ==> all[x] == rest[x - 1]);
    }
  }

  /** Pieces of one group stand together, and pieces that stand together are in one group. */
  lemma LeaderExactly(rules: Rules, game: GameState, team: Team, ticket: nat, groups: seq<Group>, j: nat)
    requires GroupsStand(game.pieces, team, groups) && Ordered(groups)
    requires forall i: nat :: Chosen(groups, i) <==> BukTakes(rules, game, team, ticket, i)
    ensures Leads(rules, game, team, ticket, j) <==>
      exists b :: 0 <= b < |groups| && !AlreadyThere(game, groups[b]) && groups[b].indices[0] == j
  {
    hide BukTakes;
    if b :| 0 <= b < |groups| && !AlreadyThere(game, groups[b]) && groups[b].indices[0] == j {
      FirstLeads(rules, game, team, ticket, groups, b);
    }
    if Leads(rules, game, team, ticket, j) {
      assert Chosen(groups, j);
      var g :| g in groups && j in g.indices;
      var b :| 0 <= b < |groups| && groups[b] == g;
      assert GroupStands(game.pieces, team, g) && Led(groups[b]);
      var k := g.indices[0];
      assert k in g.indices && Chosen(groups, k);
    }
  }

  lemma FirstLeads(rules: Rules, game: GameState, team: Team, ticket: nat, groups: seq<Group>, b: nat)
    requires GroupsStand(game.pieces, team, groups) && Ordered(groups)
    requires forall i: nat :: Chosen(groups, i) <==> BukTakes(rules, game, team, ticket, i)
    requires b < |groups| && !AlreadyThere(game, groups[b])
    ensures groups[b].indices != [] && Leads(rules, game, team, ticket, groups[b].indices[0])
    ensures game.pieces[groups[b].indices[0]].space == groups[b].space
  {
    hide BukTakes;
    assert groups[b] in groups;
    assert GroupStands(game.pieces, team, groups[b]) && Led(groups[b]);
    var j := groups[b].indices[0];
    assert j in groups[b].indices && Chosen(groups, j);
    forall k: nat | k < j && BukTakes(rules, game, team, ticket, k)
      ensures game.pieces[k].space != game.pieces[j].space
    {
      assert Chosen(groups, k);
      var h :| h in groups && k in h.indices;
      var c :| 0 <= c < |groups| && groups[c] == h;
      assert GroupStands(game.pieces, team, h);
    }
  }

  /** The last group that moves is the one whose first member leads last. */
  lemma {:induction false} LastLeftIs(game: GameState, groups: seq<Group>) returns (b: nat)
    requires LastLeft(game, groups).Some?
    ensures b < |groups| && !AlreadyThere(game, groups[b]) && LastLeft(game, groups) == Some(groups[b].space)
    ensures forall c :: b < c < |groups| ==> AlreadyThere(game, groups[c])
  {
    if LastLeft(game, groups[1..]).Some? {
      var c := LastLeftIs(game, groups[1..]);
      b := c + 1;
      forall d | b < d < |groups|
        ensures AlreadyThere(game, groups[d])
      {
        assert groups[d] == groups[1..][d - 1];
      }
    } else {
      b := 0;
      NoneMoves(game, groups[1..]);
      assert forall d :: 0 < d < |groups| ==> groups[d] == groups[1..][d - 1];
    }
  }

  lemma {:induction false} NoneMoves(game: GameState, groups: seq<Group>)
    ensures LastLeft(game, groups).None? <==> forall c :: 0 <= c < |groups| ==> AlreadyThere(game, groups[c])
  {
    if groups != [] {
      NoneMoves(game, groups[1..]);
      assert forall d :: 0 < d < |groups| ==> groups[d] == groups[1..][d - 1];
      assert forall d :: 0 <= d < |groups[1..]| ==> groups[1..][d] == groups[d + 1];
    }
  }

  lemma {:induction false} LastLeader(rules: Rules, game: GameState, team: Team, ticket: nat, j: nat, n: nat)
    requires j < n <= |game.pieces| && Leads(rules, game, team, ticket, j)
    requires forall k: nat :: j < k < n ==> !Leads(rules, game, team, ticket, k)
    ensures LeftLastBelow(rules, game, team, ticket, n) == game.pieces[j].space
    decreases n
  {
    hide Leads;
    if n - 1 != j {
      LastLeader(rules, game, team, ticket, j, n - 1);
    }
  }

  /** The place that the groups leave last, told from the pieces. */
  lemma LastLeftExactly(rules: Rules, game: GameState, team: Team, ticket: nat, groups: seq<Group>)
    requires GroupsStand(game.pieces, team, groups) && Ordered(groups)
    requires forall i: nat :: Chosen(groups, i) <==> BukTakes(rules, game, team, ticket, i)
    ensures LastLeft(game, groups).Some? <==> BukMoves(rules, game, team, ticket)
    ensures LastLeft(game, groups).Some? ==> LastLeft(game, groups).value == LeftLast(rules, game, team, ticket)
  {
    hide BukTakes, Leads, GroupsStand, LeftLastBelow, Chosen, Ordered;
    MoveIsTakenMove(rules, game, team, ticket, groups);
    if LastLeft(game, groups).Some? {
      var b := LastLeftIs(game, groups);
      FirstLeads(rules, game, team, ticket, groups, b);
      var j := groups[b].indices[0];
      LeaderInRange(rules, game, team, ticket, j);
      forall k: nat | j < k < |game.pieces|
        ensures !Leads(rules, game, team, ticket, k)
      {
        LeaderExactly(rules, game, team, ticket, groups, k);
        LaterFirst(game, groups, b, k);
      }
      LastLeader(rules, game, team, ticket, j, |game.pieces|);
    }
  }

  lemma LeaderInRange(rules: Rules, game: GameState, team: Team, ticket: nat, j: nat)
    requires Leads(rules, game, team, ticket, j)
    ensures j < |game.pieces|
  {
  }

  lemma LaterFirst(game: GameState, groups: seq<Group>, b: nat, k: nat)
    requires Ordered(groups) && b < |groups| && groups[b].indices != [] && groups[b].indices[0] < k
    requires forall c :: b < c < |groups| ==> AlreadyThere(game, groups[c])
    ensures !exists c :: 0 <= c < |groups| && !AlreadyThere(game, groups[c]) && groups[c].indices[0] == k
  {
    forall c | 0 <= c < |groups| && !AlreadyThere(game, groups[c])
      ensures groups[c].indices[0] != k
    {
      if c < b {
        assert groups[c].indices[0] < groups[b].indices[0];
      }
    }
  }

  /** A team that has not won has a piece to draw when none is on the board. */
  lemma WaitingPieceExists(rules: Rules, game: GameState, team: Team)
    requires GameInv(rules, game) && game.winner == None && !HasActive(game.pieces, team)
    ensures WaitingIndices(game.pieces, team) != []
  {
    hide ValidGraph, Apart, SharedHistory, Roster;
    assert !AllFinished(game.pieces, team);
    var k :| 0 <= k < |game.pieces| && game.pieces[k].team == team && game.pieces[k].state != Finished;
    assert !OnBoardPiece(game.pieces, team, k);
    assert k in WaitingIndices(game.pieces, team);
  }

  /** The drawn waiting piece forms a group of its own. */
  lemma WaitingGroupStands(rules: Rules, game: GameState, team: Team, w: nat)
    requires PiecesOk(rules.graph, game.pieces) && w < |game.pieces|
    requires game.pieces[w].team == team && game.pieces[w].state == Waiting
    ensures GroupsStand(game.pieces, team, [Group(Waiting, NoSpace, [w])])
    ensures forall i: nat :: Chosen([Group(Waiting, NoSpace, [w])], i) <==> i == w
  {
    assert PieceOk(rules.graph, game.pieces[w]);
    var g := Group(Waiting, NoSpace, [w]);
    assert g in [g] && w in g.indices;
  }

  /** The groups a Buk acts on hold exactly the pieces it takes; it fails only on a ticket out of range. */
  lemma BukGroupsTake(rules: Rules, game: GameState, team: Team, ticket: nat)
    requires GameInv(rules, game) && game.winner == None
    ensures var r := BukGroups(rules, game, team, ticket);
      && (r.Ok? <==> HasActive(game.pieces, team) || ticket < |WaitingIndices(game.pieces, team)|)
      && (r.Err? ==> r.error == RandomOutOfRange)
      && (r.Ok? ==>
        && r.value != [] && GroupsStand(game.pieces, team, r.value) && Ordered(r.value)
        && forall i: nat :: Chosen(r.value, i) <==> BukTakes(rules, game, team, ticket, i))
  {
    hide GameInv, GroupsStand, Nearest, HasActive, ClosestOf, DistanceError, GroupsBelow, Chosen;
    NearestAreTaken(rules, game, team);
    GroupsOrdered(game.pieces, team, |game.pieces|);
    ClosestOrdered(rules, PositionGroups(game.pieces, team), PositionGroups(game.pieces, team));
    InvPieces(rules, game);
    hide PiecesOk;
    if !HasActive(game.pieces, team) {
      WaitingPieceExists(rules, game, team);
      var waiting := WaitingIndices(game.pieces, team);
      if ticket < |waiting| {
        assert waiting[ticket] in waiting;
        WaitingGroupStands(rules, game, team, waiting[ticket]);
      }
    }
  }

  lemma MoveIsTakenMove(rules: Rules, game: GameState, team: Team, ticket: nat, groups: seq<Group>)
    requires GroupsStand(game.pieces, team, groups)
    requires forall i: nat :: Chosen(groups, i) <==> BukTakes(rules, game, team, ticket, i)
    ensures LastLeft(game, groups).Some? <==> BukMoves(rules, game, team, ticket)
  {
    hide BukTakes;
    NoneMoves(game, groups);
    if LastLeft(game, groups).Some? {
      var c :| 0 <= c < |groups| && !AlreadyThere(game, groups[c]);
      assert groups[c] in groups;
      assert GroupStands(game.pieces, team, groups[c]);
      var i := groups[c].indices[0];
      assert i in groups[c].indices && Chosen(groups, i);
    }
    if BukMoves(rules, game, team, ticket) {
      var j: nat :| j < |game.pieces| && BukTakes(rules, game, team, ticket, j)
        && !OnSpot(game.pieces[j], game.bukDestination);
      assert Chosen(groups, j);
      var g :| g in groups && j in g.indices;
      assert GroupStands(game.pieces, team, g);
      var c :| 0 <= c < |groups| && groups[c] == g;
    }
  }

  lemma TakenMove(rules: Rules, game: GameState, team: Team, ticket: nat)
    ensures forall i: nat :: (i < |game.pieces| && BukTakes(rules, game, team, ticket, i)
      && !OnSpot(game.pieces[i], game.bukDestination)) ==> BukMoves(rules, game, team, ticket)
  {
  }

  /** A Buk in an open match always finds pieces to take, puts exactly the team's nearest pieces (or
      one waiting piece) on the destination, leaves the others in place and no opponent there, and
      never ends the match, although its groups are applied one after another. */
  lemma BukExact(rules: Rules, game: GameState, team: Team, ticket: nat)
    requires GameInv(rules, game) && game.winner == None && rules.settings.bukModeEnabled
    ensures var r := ResolveBuk(rules, game, team, ticket);
      && (r.Ok? <==> HasActive(game.pieces, team) || ticket < |WaitingIndices(game.pieces, team)|)
      && (r.Err? ==> r.error == RandomOutOfRange)
      && (r.Ok? ==>
        var (after, outcome) := r.value;
        && GameInv(rules, after) && after.winner == None && |after.pieces| == |game.pieces|
        && !outcome.noCandidate && (forall m :: m in outcome.moves ==> !m.matchEnded)
        && (forall i :: 0 <= i < |game.pieces| ==> BukLands(rules, game, after, team, ticket, i)))
  {
    hide GameInv, GroupsStand, BukTakes, HasActive, BukGroups, ApplyGroups, Chosen, BukMoves, SelectedIDs, Ordered,
      LastLeft, LeftLast;
    BukGroupsTake(rules, game, team, ticket);
    BukGroupsValid(rules, game, team, ticket);
    if BukGroups(rules, game, team, ticket).Ok? {
      var groups := BukGroups(rules, game, team, ticket).value;
      ApplyGroupsKeeps(rules, game, team, groups);
      LastLeftExactly(rules, game, team, ticket, groups);
      TakenMove(rules, game, team, ticket);
      var (after, moves) := ApplyGroups(rules, game, team, groups);
      forall i | 0 <= i < |game.pieces|
        ensures BukLands(rules, game, after, team, ticket, i)
      {
        ApplyGroupsEffect(rules, game, team, groups, i);
      }
    }
  }

  lemma FirstMember(pieces: seq<Piece>, team: Team, groups: seq<Group>)
    requires GroupsStand(pieces, team, groups) && groups != []
    ensures groups[0].indices != [] && Chosen(groups, groups[0].indices[0])
    ensures groups[0].indices[0] < |pieces| && pieces[groups[0].indices[0]].team == team
  {
    assert groups[0] in groups && groups[0].indices[0] in groups[0].indices;
  }

  /** Some piece is always taken. */
  lemma BukTakesSome(rules: Rules, game: GameState, team: Team, ticket: nat) returns (k: nat)
    requires GameInv(rules, game) && game.winner == None && BukGroups(rules, game, team, ticket).Ok?
    ensures k < |game.pieces| && game.pieces[k].team == team && BukTakes(rules, game, team, ticket, k)
  {
    hide GameInv, BukTakes, BukGroups, HasActive;
    BukGroupsTake(rules, game, team, ticket);
    var groups := BukGroups(rules, game, team, ticket).value;
    FirstMember(game.pieces, team, groups);
    k := groups[0].indices[0];
  }

  /** After a Buk no opponent stands on the destination. */
  lemma BukClearsDestination(rules: Rules, game: GameState, team: Team, ticket: nat, after: GameState,
      outcome: BukOutcome)
    requires GameInv(rules, game) && game.winner == None && rules.settings.bukModeEnabled
    requires ResolveBuk(rules, game, team, ticket) == Ok((after, outcome)) && |after.pieces| == |game.pieces|
    ensures forall i :: 0 <= i < |after.pieces| && after.pieces[i].team != team ==>
      after.pieces[i].space != game.bukDestination
  {
    hide GameInv, BukTakes, BukGroups, BukMoves, ApplyGroups, SelectedIDs;
    BukExact(rules, game, team, ticket);
    var k := BukTakesSome(rules, game, team, ticket);
    assert BukLands(rules, game, after, team, ticket, k);
    TeamsApart(rules, game, after, team, k);
  }

  lemma TeamsApart(rules: Rules, game: GameState, after: GameState, team: Team, k: nat)
    requires GameInv(rules, after) && after.bukDestination == game.bukDestination && rules.settings.bukModeEnabled
    requires k < |after.pieces| && after.pieces[k].team == team && OnSpot(after.pieces[k], game.bukDestination)
    ensures forall i :: 0 <= i < |after.pieces| && after.pieces[i].team != team ==>
      after.pieces[i].space != game.bukDestination
  {
    hide ValidGraph, PiecesOk, Roster, SharedHistory, WinnerOk, Graph.Spaces;
    NoSpaceUnknown(rules.graph);
  }
}
