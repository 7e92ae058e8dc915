/** Assembling a game: the roster, the piece index, and the Buk destination. */
module MatchSetup {
  import opened Domain
  import opened BoardGraph
  import opened BoardValidate
  import opened MatchRules
  import opened MatchInvariants
  import opened MatchEngine

  datatype TeamSetup = TeamSetup(team: Team, pieceIDs: seq<PieceID>)

  datatype SetupError = BadSettings | BadTeams | DuplicateTeam | BadPieceCount | BadPieceID | DuplicatePiece
    | BadBukDestination | BadTicket

  predicate SettingsOk(settings: Settings) {
    && 2 <= settings.pieceCount <= 4
    && (settings.randomBukDestination ==> settings.bukModeEnabled)
  }

  /** A Buk destination is a known, tagged candidate and no branch. */
  predicate DestinationAllowed(g: Graph, d: SpaceID) {
    var node := FirstNode(g.nodes, d);
    && d != NoSpace && node.Some?
    && CenterTag !in node.value.tags && RouteChoiceTag !in node.value.tags && BukCandidateTag in node.value.tags
  }

  function BukDestination(g: Graph, settings: Settings, ticket: nat): Outcome<SpaceID, SetupError> {
    if !settings.bukModeEnabled then Ok(NoSpace)
    else if !settings.randomBukDestination then
      if DestinationAllowed(g, g.fixedBukDestination) then Ok(g.fixedBukDestination) else Err(BadBukDestination)
    else if |g.bukCandidates| != 10 || g.fixedBukDestination !in g.bukCandidates || !AllAllowed(g)
    then Err(BadBukDestination)
    else if ticket >= |g.bukCandidates| then Err(BadTicket)
    else Ok(g.bukCandidates[ticket])
  }

  predicate AllAllowed(g: Graph) {
    && (forall i :: 0 <= i < |g.bukCandidates| ==> DestinationAllowed(g, g.bukCandidates[i]))
    && forall i, j :: 0 <= i < j < |g.bukCandidates| ==> g.bukCandidates[i] != g.bukCandidates[j]
  }

  method InitialBukDestination(g: Graph, settings: Settings, ticket: nat) returns (r: Outcome<SpaceID, SetupError>)
    ensures r == BukDestination(g, settings, ticket)
  {
    hide DestinationAllowed;
    if !settings.bukModeEnabled {
      return Ok(NoSpace);
    }
    if !settings.randomBukDestination {
      if !DestinationAllowed(g, g.fixedBukDestination) {
        return Err(BadBukDestination);
      }
      return Ok(g.fixedBukDestination);
    }
    if |g.bukCandidates| != 10 {
      return Err(BadBukDestination);
    }
    var seen: set<SpaceID> := {};
    for i := 0 to |g.bukCandidates|
      invariant seen == set k | 0 <= k < i :: g.bukCandidates[k]
      invariant forall k :: 0 <= k < i ==> DestinationAllowed(g, g.bukCandidates[k])
      invariant forall j, k :: 0 <= j < k < i ==> g.bukCandidates[j] != g.bukCandidates[k]
    {
      var candidate := g.bukCandidates[i];
      if candidate in seen || !DestinationAllowed(g, candidate) {
        return Err(BadBukDestination);
      }
      seen := seen + {candidate};
    }
    if g.fixedBukDestination !in seen {
      return Err(BadBukDestination);
    }
    if ticket >= |g.bukCandidates| {
      return Err(BadTicket);
    }
    return Ok(g.bukCandidates[ticket]);
  }

  /** A Buk without a draw lands on the fixed destination, and without the mode there is none. */
  lemma UndrawnDestination(g: Graph, settings: Settings, ticket: nat)
    requires !settings.bukModeEnabled || !settings.randomBukDestination
    ensures var r := BukDestination(g, settings, ticket);
      && (!settings.bukModeEnabled ==> r == Ok(NoSpace))
      && (settings.bukModeEnabled ==>
        (r == Ok(g.fixedBukDestination) <==> DestinationAllowed(g, g.fixedBukDestination)))
      && (r.Ok? || r == Err(BadBukDestination))
  {
  }

  /** Where a destination can be drawn at all, the ten tickets reach every candidate, the fixed one among
      them, and each exactly once. */
  lemma EveryCandidateIsDrawn(g: Graph, settings: Settings, first: nat)
    requires settings.bukModeEnabled && settings.randomBukDestination && BukDestination(g, settings, first).Ok?
    ensures forall t: nat :: BukDestination(g, settings, t).Ok? <==> t < 10
    ensures forall t: nat :: t >= 10 ==> BukDestination(g, settings, t) == Err(BadTicket)
    ensures forall d :: d in g.bukCandidates <==> exists t: nat :: BukDestination(g, settings, t) == Ok(d)
    ensures forall s: nat, t: nat :: (s < 10 && t < 10
      && BukDestination(g, settings, s) == BukDestination(g, settings, t)) ==> s == t
    ensures exists t: nat :: BukDestination(g, settings, t) == Ok(g.fixedBukDestination)
  {
    hide DestinationAllowed;
    forall d | d in g.bukCandidates
      ensures exists t: nat :: BukDestination(g, settings, t) == Ok(d)
    {
      var t :| 0 <= t < |g.bukCandidates| && g.bukCandidates[t] == d;
      assert BukDestination(g, settings, t) == Ok(d);
    }
  }

  function FreshPiece(id: PieceID, team: Team): Piece {
    Piece(id, team, Waiting, NoSpace, NoSpace)
  }

  /** The slice built so far is indexed without gaps and holds only waiting pieces. */
  ghost predicate Indexed(pieces: seq<Piece>, index: map<PieceID, nat>) {
    && (forall id :: id in index ==> index[id] < |pieces| && pieces[index[id]].id == id)
    && (forall i :: 0 <= i < |pieces| ==> pieces[i].id in index && index[pieces[i].id] == i)
    && (forall i :: 0 <= i < |pieces| ==> pieces[i] == FreshPiece(pieces[i].id, pieces[i].team))
  }

  /** The second slice is the first, followed by the waiting pieces of one team. */
  ghost predicate TeamAdded(setup: TeamSetup, before: seq<Piece>, after: seq<Piece>) {
    && |after| == |before| + |setup.pieceIDs|
    && (forall i :: 0 <= i < |before| ==> after[i] == before[i])
    && forall i :: |before| <= i < |after| ==> after[i] == FreshPiece(setup.pieceIDs[i - |before|], setup.team)
  }

  /** Some identifier of the team is empty, already indexed, or repeated. */
  ghost predicate BadRoster(setup: TeamSetup, index: map<PieceID, nat>) {
    exists k :: 0 <= k < |setup.pieceIDs| && BadEntry(setup, index, k)
  }

  ghost predicate BadEntry(setup: TeamSetup, index: map<PieceID, nat>, k: nat)
    requires k < |setup.pieceIDs|
  {
    var id := setup.pieceIDs[k];
    id == 0 || id in index || id in setup.pieceIDs[..k]
  }

  /** The first bad entry says what is wrong with it. */
  ghost predicate EntryError(setup: TeamSetup, index: map<PieceID, nat>, error: SetupError) {
    exists k: nat :: FirstBad(setup, index, k) && error == if setup.pieceIDs[k] == 0 then BadPieceID else DuplicatePiece
  }

  ghost predicate FirstBad(setup: TeamSetup, index: map<PieceID, nat>, k: nat) {
    k < |setup.pieceIDs| && BadEntry(setup, index, k) && forall j :: 0 <= j < k ==> !BadEntry(setup, index, j)
  }

  /** Fills the slice and the index with the pieces of one team. */
  method AddTeam(setup: TeamSetup, pieces: seq<Piece>, index: map<PieceID, nat>)
    returns (r: Outcome<(seq<Piece>, map<PieceID, nat>), SetupError>)
    requires Indexed(pieces, index)
    ensures r.Ok? ==> Indexed(r.value.0, r.value.1) && TeamAdded(setup, pieces, r.value.0)
    ensures r.Err? <==> BadRoster(setup, index)
    ensures r.Err? ==> EntryError(setup, index, r.error)
  {
    hide Indexed;
    var filled: seq<Piece>, filledIndex: map<PieceID, nat> := pieces, index;
    for k := 0 to |setup.pieceIDs|
      invariant Indexed(filled, filledIndex) && |filled| == |pieces| + k
      invariant forall i :: 0 <= i < |pieces| ==> filled[i] == pieces[i]
      invariant forall i :: |pieces| <= i < |filled| ==>
        filled[i] == FreshPiece(setup.pieceIDs[i - |pieces|], setup.team)
      invariant forall id :: id in filledIndex <==> id in index || id in setup.pieceIDs[..k]
      invariant forall j :: 0 <= j < k ==> !BadEntry(setup, index, j)
    {
      var id := setup.pieceIDs[k];
      assert setup.pieceIDs[..k + 1] == setup.pieceIDs[..k] + [id];
      if id == 0 {
        assert FirstBad(setup, index, k);
        return Err(BadPieceID);
      }
      if id in filledIndex {
        assert FirstBad(setup, index, k);
        return Err(DuplicatePiece);
      }
      IndexOneMore(filled, filledIndex, id, setup.team);
      filledIndex := filledIndex[id := |filled|];
      filled := filled + [FreshPiece(id, setup.team)];
    }
    return Ok((filled, filledIndex));
  }

  lemma IndexOneMore(pieces: seq<Piece>, index: map<PieceID, nat>, id: PieceID, team: Team)
    requires Indexed(pieces, index) && id !in index
    ensures Indexed(pieces + [FreshPiece(id, team)], index[id := |pieces|])
  {
  }

  /** A game starts only from two full, distinct teams; it then has every piece waiting, and on a
      validated board with a Buk destination away from home it satisfies the match invariant. */
  method NewGame(g: Graph, settings: Settings, setups: seq<TeamSetup>, ticket: nat)
    returns (r: Outcome<Game, SetupError>)
    ensures r.Ok? ==>
      && fresh(r.value) && r.value.Valid() && r.value.rules == Rules(g, settings) && r.value.winner == None
      && |setups| == 2 && setups[0].team != setups[1].team
      && (exists middle :: TeamAdded(setups[0], [], middle) && TeamAdded(setups[1], middle, r.value.pieces))
      && BukDestination(g, settings, ticket) == Ok(r.value.bukDestination)
      && (ValidGraph(g) && r.value.bukDestination != g.home ==> GameInv(r.value.rules, r.value.State()))
    ensures r.Ok? <==> RosterOk(settings, setups) && BukDestination(g, settings, ticket).Ok?
    ensures r.Err? ==> SetupRefused(g, settings, setups, ticket, r.error)
  {
    hide TeamAdded, BadRoster, EntryError, BukDestination, GameInv;
    if !SettingsOk(settings) {
      return Err(BadSettings);
    }
    if |setups| != 2 {
      return Err(BadTeams);
    }
    if |setups[0].pieceIDs| != settings.pieceCount {
      return Err(BadPieceCount);
    }
    var first := AddTeam(setups[0], [], map[]);
    if first.Err? {
      return Err(first.error);
    }
    if setups[1].team == setups[0].team {
      return Err(DuplicateTeam);
    }
    if |setups[1].pieceIDs| != settings.pieceCount {
      return Err(BadPieceCount);
    }
    FirstIndex(setups[0], first.value.0, first.value.1, setups[1]);
    var second := AddTeam(setups[1], first.value.0, first.value.1);
    if second.Err? {
      return Err(second.error);
    }
    var destination := InitialBukDestination(g, settings, ticket);
    if destination.Err? {
      return Err(destination.error);
    }
    var game := new Game(Rules(g, settings), destination.value, second.value.0, second.value.1);
    NewGameInv(Rules(g, settings), game.State(), setups, first.value.0, second.value.1, ticket);
    return Ok(game);
  }

  /** Two distinct full teams whose piece identifiers are nonempty and all different. */
  ghost predicate RosterOk(settings: Settings, setups: seq<TeamSetup>) {
    && SettingsOk(settings) && |setups| == 2 && setups[0].team != setups[1].team
    && |setups[0].pieceIDs| == settings.pieceCount == |setups[1].pieceIDs|
    && !BadRoster(setups[0], map[])
    && !BadRoster(setups[1], map id | id in setups[0].pieceIDs :: 0)
  }

  /** Why no game starts: the first check that fails. */
  ghost predicate SetupRefused(g: Graph, settings: Settings, setups: seq<TeamSetup>, ticket: nat, error: SetupError) {
    if !SettingsOk(settings) then error == BadSettings
    else if |setups| != 2 then error == BadTeams
    else if |setups[0].pieceIDs| != settings.pieceCount then error == BadPieceCount
    else if BadRoster(setups[0], map[]) then EntryError(setups[0], map[], error)
    else if setups[1].team == setups[0].team then error == DuplicateTeam
    else if |setups[1].pieceIDs| != settings.pieceCount then error == BadPieceCount
    else
      var taken: map<PieceID, nat> := map id | id in setups[0].pieceIDs :: 0;
      if BadRoster(setups[1], taken) then EntryError(setups[1], taken, error)
      else BukDestination(g, settings, ticket) == Err(error)
  }

  lemma FirstIndex(setup: TeamSetup, pieces: seq<Piece>, index: map<PieceID, nat>, other: TeamSetup)
    requires Indexed(pieces, index) && TeamAdded(setup, [], pieces)
    ensures BadRoster(other, index) <==> BadRoster(other, map id | id in setup.pieceIDs :: 0)
    ensures forall error :: EntryError(other, index, error) <==>
      EntryError(other, map id | id in setup.pieceIDs :: 0, error)
  {
    var plain: map<PieceID, nat> := map id | id in setup.pieceIDs :: 0;
    forall id
      ensures id in index <==> id in plain
    {
      if id in index {
        assert pieces[index[id]].id == setup.pieceIDs[index[id]];
      }
      if id in plain {
        var k :| 0 <= k < |setup.pieceIDs| && setup.pieceIDs[k] == id;
        assert pieces[k].id == id;
      }
    }
    assert forall k :: 0 <= k < |other.pieceIDs| ==> (BadEntry(other, index, k) <==> BadEntry(other, plain, k));
    assert forall k: nat :: FirstBad(other, index, k) <==> FirstBad(other, plain, k);
  }

  lemma NewGameInv(rules: Rules, game: GameState, setups: seq<TeamSetup>, middle: seq<Piece>,
      index: map<PieceID, nat>, ticket: nat)
    requires |setups| == 2 && setups[0].team != setups[1].team && setups[0].pieceIDs != [] && setups[1].pieceIDs != []
    requires TeamAdded(setups[0], [], middle) && TeamAdded(setups[1], middle, game.pieces)
    requires Indexed(game.pieces, index) && game.winner == None
    requires BukDestination(rules.graph, rules.settings, ticket) == Ok(game.bukDestination)
    ensures ValidGraph(rules.graph) && game.bukDestination != rules.graph.home ==> GameInv(rules, game)
  {
    hide ValidGraph;
    if ValidGraph(rules.graph) && game.bukDestination != rules.graph.home {
      FirstNodeKnown(rules.graph, game.bukDestination);
      var k := |middle|;
      assert middle[0].team == setups[0].team && game.pieces[0] == middle[0];
      assert game.pieces[k].team == setups[1].team;
      assert !AllFinished(game.pieces, game.pieces[0].team) && !AllFinished(game.pieces, game.pieces[k].team);
    }
  }

  lemma FirstNodeKnown(g: Graph, d: SpaceID)
    ensures FirstNode(g.nodes, d).Some? <==> d in g.Spaces()
  {
    FirstNodeIn(g.nodes, d);
  }

  lemma FirstNodeIn(nodes: seq<Node>, d: SpaceID)
    ensures FirstNode(nodes, d).Some? <==> exists n :: n in nodes && n.id == d
  {
    if nodes != [] {
      FirstNodeIn(nodes[1..], d);
      assert nodes == [nodes[0]] + nodes[1..];
    }
  }
}
