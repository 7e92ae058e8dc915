/** The CPU's preferences, told from the moves themselves. */
module CpuLaws {
  import opened Domain
  import opened BoardForward
  import opened BoardSearch
  import opened TurnQueue
  import opened MatchRules
  import opened MatchInvariants
  import opened MatchOffers
  import opened MatchLaws
  import opened CpuPolicy
  import opened CpuTheorems

  /** The route the CPU takes with a piece: the shortcut wherever it is asked. */
  function AutoRoute(rules: Rules, p: Piece, result: YutResult): Option<Route> {
    if result != Backdo && RouteAsked(rules, p) then Some(Shortcut) else None
  }

  /** What the game would make of the CPU's move with piece i. */
  function Auto(rules: Rules, game: GameState, i: nat, result: YutResult): Outcome<(GameState, MoveOutcome), GameError>
    requires i < |game.pieces|
  {
    var p := game.pieces[i];
    if result == Backdo then ApplyBackdo(rules, game, p.team, p.id)
    else ApplyOrdinary(rules, game, p.team, p.id, result, AutoRoute(rules, p, result))
  }

  /** What speaks for a move. */
  datatype Merits = Merits(finishes: bool, captures: bool, joins: bool, shortcut: bool, onBoard: bool, distance: int)

  /** An ally that does not move along stands where the piece arrives. */
  ghost predicate Joins(rules: Rules, game: GameState, i: nat, after: GameState)
    requires i < |game.pieces| == |after.pieces|
  {
    rules.settings.stackingEnabled && after.pieces[i].state != Finished
    && exists j :: 0 <= j < |game.pieces| && AwaitsThere(rules, game.pieces, i, after.pieces[i].At(), j)
  }

  predicate AwaitsThere(rules: Rules, pieces: seq<Piece>, i: nat, destination: Position, j: nat)
    requires i < |pieces| && j < |pieces|
  {
    !MovesWith(rules, pieces, i, j) && pieces[j].team == pieces[i].team && pieces[j].At() == destination
  }

  ghost function MeritsOf(rules: Rules, game: GameState, i: nat, result: YutResult): Merits
    requires i < |game.pieces|
  {
    var p := game.pieces[i];
    var distance := match RemainingDistance(rules.graph, p.At(), rules.settings.shortcutPolicy)
      case Ok(d) => d
      case Err(_) => 0;
    match Auto(rules, game, i, result)
    case Ok((after, o)) =>
      if |after.pieces| != |game.pieces| then Merits(false, false, false, false, false, 0)
      else Merits(after.pieces[i].state == Finished, o.captured != [], Joins(rules, game, i, after),
        o.route == Some(Shortcut), p.state != Waiting, distance)
    case Err(_) => Merits(false, false, false, false, false, 0)
  }

  /** Nothing speaks more for b: to finish comes first, then to capture, to join an ally, to take a shortcut, to
      move a piece that is on the board already, and the nearest one of these. */
  predicate AtLeastAsGood(a: Merits, b: Merits) {
    && (b.finishes ==> a.finishes)
    && (a.finishes == b.finishes ==>
      && (b.captures ==> a.captures)
      && (a.captures == b.captures ==>
        && (b.joins ==> a.joins)
        && (a.joins == b.joins ==>
          && (b.shortcut ==> a.shortcut)
          && (a.shortcut == b.shortcut ==>
            && (b.onBoard ==> a.onBoard)
            && (a.onBoard && b.onBoard ==> a.distance <= b.distance)))))
  }

  // ----- Ranks tell merits -----

  lemma AutoIsApplied(rules: Rules, game: GameState, i: nat, result: YutResult)
    requires GameInv(rules, game) && game.winner == None && result != Buk && i < |game.pieces|
    requires Usable(game.pieces, game.pieces[i].team, i, result)
    ensures var r := PieceMove(rules, game, game.pieces[i].team, game.pieces[i].id, result);
      && r.Ok? && r.value.Some?
      && var (move, route) := r.value.value;
        && route == AutoRoute(rules, game.pieces[i], result)
        && move.moving == MovingIndices(rules, game.pieces, i)
        && Auto(rules, game, i, result) == Ok(ApplyResolution(rules, game, game.pieces[i].team, i, result, move))
  {
    hide GameInv, ForwardPlans, Reversal, PlansAccepted, BackdoAccepted, MovingIndices, IsPlan, ApplyResolution;
    var p := game.pieces[i];
    PieceMoveExact(rules, game, p.team, i, result);
    if result != Backdo {
      OwnedByIndex(rules, game, i);
      PlansOfPiece(rules, game, i, OrdinarySpaces(result).value);
      OrdinaryAlwaysPlans(rules, game, p.team, p.id, result);
    }
  }

  lemma OfferTellsMerits(rules: Rules, game: GameState, team: Team, i: nat, result: YutResult, c: CpuCandidate)
    requires GameInv(rules, game) && game.winner == None && result != Buk && Offers(rules, game, team, result, i, c)
    ensures var m := MeritsOf(rules, game, i, result);
      && c.rank.immediateFinish == m.finishes && c.rank.captures == m.captures && c.rank.stacks == m.joins
      && c.rank.entersShortcut == m.shortcut && c.rank.hasDistance == m.onBoard
      && (m.onBoard ==> c.rank.distance == m.distance)
      && c.route == AutoRoute(rules, game.pieces[i], result)
  {
    hide GameInv, PieceMove, Usable, MovingIndices, Relocate, RemainingDistance, Auto, Promise, ApplyResolution, Joins;
    UsableOwn(game.pieces, team, i, result);
    AutoIsApplied(rules, game, i, result);
    CandidateExact(rules, game, team, i, result);
    var (move, route) := PieceMove(rules, game, team, game.pieces[i].id, result).value.value;
    PromiseTells(rules, game, i, result, move);
    JoinsTells(rules, game, i, ApplyResolution(rules, game, team, i, result, move).0, move);
  }

  lemma UsableOwn(pieces: seq<Piece>, team: Team, i: nat, result: YutResult)
    requires Usable(pieces, team, i, result)
    ensures i < |pieces| && pieces[i].team == team && pieces[i].state != Finished
  {
  }

  lemma PromiseTells(rules: Rules, game: GameState, i: nat, result: YutResult, move: Resolution)
    requires i < |game.pieces| && move.moving == MovingIndices(rules, game.pieces, i)
      && game.pieces[i].state != Finished
    ensures var team := game.pieces[i].team;
      var (after, o) := ApplyResolution(rules, game, team, i, result, move);
      var rank := Promise(rules, game.pieces, team, move, IDsOf(game.pieces, move.moving));
      && |after.pieces| == |game.pieces|
      && rank.immediateFinish == (after.pieces[i].state == Finished)
      && rank.captures == (o.captured != [])
      && rank.entersShortcut == (o.route == Some(Shortcut)) && !rank.hasDistance
      && after.pieces[i].At() ==
        (if move.state == Finished then Position(Finished, NoSpace) else Position(move.state, move.space))
      && rank.stacks == (move.state != Finished && rules.settings.stackingEnabled
        && JoinsAlly(game.pieces, team, move.state, move.space, IDsOf(game.pieces, move.moving)))
  {
    var team := game.pieces[i].team;
    AppliesRelocation(rules, game, team, i, result, move);
    GroupMoves(rules, game.pieces, i);
    RelocateEffect(rules, game.pieces, team, move, i);
    MeetsTells(rules, game.pieces, team, move);
    hide Relocate, MovingIndices, MeetsOpponent, JoinsAlly, Allies, IDsOf, IndicesAt, Captured;
    CapturedIDs(game.pieces, Captured(game.pieces, team, move));
  }

  lemma JoinsTells(rules: Rules, game: GameState, i: nat, after: GameState, move: Resolution)
    requires GameInv(rules, game) && i < |game.pieces| == |after.pieces| && game.pieces[i].state != Finished
    requires move.moving == MovingIndices(rules, game.pieces, i)
    requires after.pieces[i].At() == if move.state == Finished then Position(Finished, NoSpace)
      else Position(move.state, move.space)
    ensures Joins(rules, game, i, after) <==> (move.state != Finished && rules.settings.stackingEnabled
      && JoinsAlly(game.pieces, game.pieces[i].team, move.state, move.space, IDsOf(game.pieces, move.moving)))
  {
    hide GameInv, MovingIndices, IDsOf, MovesWith;
    GroupMoves(rules, game.pieces, i);
    forall j: nat | j < |game.pieces|
      ensures game.pieces[j].id in IDsOf(game.pieces, move.moving) <==> MovesWith(rules, game.pieces, i, j)
    {
      MovedTells(rules, game, i, j);
    }
    var team, moved := game.pieces[i].team, IDsOf(game.pieces, move.moving);
    if move.state != Finished {
      assert after.pieces[i].state == move.state;
      if k: nat :| k < |game.pieces| && AwaitsThere(rules, game.pieces, i, after.pieces[i].At(), k) {
        assert game.pieces[k].At() == Position(move.state, move.space);
        assert JoinsAlly(game.pieces, team, move.state, move.space, moved);
      }
      if JoinsAlly(game.pieces, team, move.state, move.space, moved) {
        var k: nat :| k < |game.pieces| && game.pieces[k].state == move.state && game.pieces[k].space == move.space
          && game.pieces[k].team == team && game.pieces[k].id !in moved;
        assert AwaitsThere(rules, game.pieces, i, after.pieces[i].At(), k);
      }
    }
  }

  lemma MovedTells(rules: Rules, game: GameState, i: nat, j: nat)
    requires GameInv(rules, game) && i < |game.pieces| && j < |game.pieces| && game.pieces[i].state != Finished
    ensures game.pieces[j].id in IDsOf(game.pieces, MovingIndices(rules, game.pieces, i)) <==>
      MovesWith(rules, game.pieces, i, j)
  {
    hide GameInv, MovingIndices, IDsOf;
    GroupMoves(rules, game.pieces, i);
    var moving := MovingIndices(rules, game.pieces, i);
    if game.pieces[j].id in IDsOf(game.pieces, moving) {
      var k := IDsNamed(game.pieces, moving, game.pieces[j].id);
      OnlyOne(rules, game, j);
      assert k in Movers(rules, game.pieces, i);
    }
    if MovesWith(rules, game.pieces, i, j) {
      assert j in Movers(rules, game.pieces, i);
      IDsHold(game.pieces, moving, j);
    }
  }

  lemma CapturedIDs(pieces: seq<Piece>, indices: seq<nat>)
    requires IndicesValid(pieces, indices)
    ensures IDsOf(pieces, indices) != [] <==> indices != []
  {
  }

  lemma MeetsTells(rules: Rules, pieces: seq<Piece>, team: Team, move: Resolution)
    ensures move.state != Finished ==> (MeetsOpponent(pieces, team, move.state, move.space) <==>
      Captured(pieces, team, move) != [])
  {
    if move.state != Finished {
      var captured := Captured(pieces, team, move);
      if captured != [] {
        assert captured[0] in captured;
      }
      if MeetsOpponent(pieces, team, move.state, move.space) {
        var k :| 0 <= k < |pieces| && pieces[k].state == move.state && pieces[k].space == move.space
          && pieces[k].team != team;
        assert k in captured;
      }
    }
  }

  // ----- The choice -----

  lemma RankTellsPreference(a: Rank, b: Rank, x: Merits, y: Merits)
    requires a.immediateFinish == x.finishes && a.captures == x.captures && a.stacks == x.joins
    requires a.entersShortcut == x.shortcut && a.hasDistance == x.onBoard && (x.onBoard ==> a.distance == x.distance)
    requires b.immediateFinish == y.finishes && b.captures == y.captures && b.stacks == y.joins
    requires b.entersShortcut == y.shortcut && b.hasDistance == y.onBoard && (y.onBoard ==> b.distance == y.distance)
    ensures Compare(a, b) >= 0 <==> AtLeastAsGood(x, y)
  {
  }

  lemma OffersCompare(rules: Rules, game: GameState, team: Team, i: nat, j: nat, result: YutResult, c: CpuCandidate,
      d: CpuCandidate)
    requires GameInv(rules, game) && game.winner == None && result != Buk
    requires Offers(rules, game, team, result, i, c) && Offers(rules, game, team, result, j, d)
    ensures Compare(c.rank, d.rank) >= 0 <==>
      AtLeastAsGood(MeritsOf(rules, game, i, result), MeritsOf(rules, game, j, result))
  {
    hide GameInv, CandidateFor, Usable, MeritsOf, Compare, AtLeastAsGood;
    OfferTellsMerits(rules, game, team, i, result, c);
    OfferTellsMerits(rules, game, team, j, result, d);
    RankTellsPreference(c.rank, d.rank, MeritsOf(rules, game, i, result), MeritsOf(rules, game, j, result));
  }

  /** No usable piece of the team has a better move. */
  ghost predicate Best(rules: Rules, game: GameState, team: Team, result: YutResult, i: nat) {
    && Usable(game.pieces, team, i, result)
    && forall j: nat :: Usable(game.pieces, team, j, result) ==>
      AtLeastAsGood(MeritsOf(rules, game, i, result), MeritsOf(rules, game, j, result))
  }

  lemma UsableOffers(rules: Rules, game: GameState, team: Team, result: YutResult, j: nat) returns (d: CpuCandidate)
    requires GameInv(rules, game) && game.winner == None && result != Buk && Usable(game.pieces, team, j, result)
    ensures Offers(rules, game, team, result, j, d)
  {
    hide GameInv, CandidateFor, Applied;
    CandidateExact(rules, game, team, j, result);
    d := CandidateFor(rules, game, team, game.pieces[j], result).value.value;
  }

  lemma BestOfferIsBest(rules: Rules, game: GameState, team: Team, result: YutResult, i: nat, c: CpuCandidate)
    requires GameInv(rules, game) && game.winner == None && result != Buk && Offers(rules, game, team, result, i, c)
    ensures BestOffer(rules, game, team, result, c) <==> Best(rules, game, team, result, i)
  {
    hide GameInv, CandidateFor, MeritsOf, Compare, AtLeastAsGood;
    UsableOwn(game.pieces, team, i, result);
    if BestOffer(rules, game, team, result, c) {
      forall j: nat | Usable(game.pieces, team, j, result)
        ensures j < |game.pieces|
          && AtLeastAsGood(MeritsOf(rules, game, i, result), MeritsOf(rules, game, j, result))
      {
        UsableOwn(game.pieces, team, j, result);
        var d := UsableOffers(rules, game, team, result, j);
        OffersCompare(rules, game, team, i, j, result, c, d);
      }
    }
    if Best(rules, game, team, result, i) {
      forall j: nat, d | Offers(rules, game, team, result, j, d)
        ensures Compare(c.rank, d.rank) >= 0
      {
        OffersCompare(rules, game, team, i, j, result, c, d);
      }
    }
  }

  /** The CPU chooses a usable piece with the best move there is, and takes the shortcut wherever it is asked. */
  lemma ChoiceIsBest(rules: Rules, game: GameState, queue: seq<Token>, team: Team, ticket: nat)
    requires GameInv(rules, game) && game.winner == None && queue != [] && queue[0].result != Buk
    requires DecisionOf(rules, game, queue, team, ticket).Ok?
    requires DecisionOf(rules, game, queue, team, ticket).value.MovePiece?
    ensures var decision := DecisionOf(rules, game, queue, team, ticket).value;
      exists i: nat ::
        && i < |game.pieces| && game.pieces[i].id == decision.piece && Best(rules, game, team, queue[0].result, i)
        && decision.route == AutoRoute(rules, game.pieces[i], queue[0].result)
  {
    hide GameInv, DecisionOf, CandidateFor, Usable, MeritsOf, BestOffer, Best;
    DecisionIsSound(rules, game, queue, team, ticket);
    var decision := DecisionOf(rules, game, queue, team, ticket).value;
    var i: nat, c :| ChosenOffer(rules, game, team, queue[0].result, i, c, decision.piece, decision.route);
    OfferTellsMerits(rules, game, team, i, queue[0].result, c);
    BestOfferIsBest(rules, game, team, queue[0].result, i, c);
  }

  /** The named piece moves with piece i. */
  predicate Companion(rules: Rules, pieces: seq<Piece>, i: nat, k: nat, id: PieceID) {
    k < |pieces| && i < |pieces| && pieces[k].id == id && MovesWith(rules, pieces, i, k)
  }

  /** Every best move can be drawn: for each piece with a best move some ticket makes the CPU move its group. */
  lemma EveryBestIsDrawn(rules: Rules, game: GameState, queue: seq<Token>, team: Team, i: nat) returns (ticket: nat)
    requires GameInv(rules, game) && game.winner == None && queue != [] && queue[0].result != Buk
    requires Best(rules, game, team, queue[0].result, i)
    ensures var r := DecisionOf(rules, game, queue, team, ticket);
      && r.Ok? && r.value.MovePiece?
      && exists k: nat :: Companion(rules, game.pieces, i, k, r.value.piece)
  {
    hide GameInv, CandidatesBelow, CandidateFor, Usable, MeritsOf, Best, Maxima, IsMaximal, BestOffer;
    var result := queue[0].result;
    UsableOwnBest(rules, game, team, result, i);
    CpuTheorems.CandidatesExact(rules, game, team, result, |game.pieces|);
    var candidates := CandidatesBelow(rules, game, team, result, |game.pieces|).value;
    var d := UsableOffers(rules, game, team, result, i);
    BestOfferIsBest(rules, game, team, result, i, d);
    var c := BestIsListed(rules, game, team, result, candidates, i, d);
    var best := Maxima(candidates, candidates);
    ticket :| 0 <= ticket < |best| && best[ticket] == c;
    SameGroupMoves(rules, game, team, result, candidates, i, c, d);
  }

  lemma UsableOwnBest(rules: Rules, game: GameState, team: Team, result: YutResult, i: nat)
    requires Best(rules, game, team, result, i)
    ensures Usable(game.pieces, team, i, result) && i < |game.pieces|
  {
    UsableOwn(game.pieces, team, i, result);
  }

  /** The group of a best offer is listed among the best candidates. */
  lemma BestIsListed(rules: Rules, game: GameState, team: Team, result: YutResult, candidates: seq<CpuCandidate>,
      i: nat,
      d: CpuCandidate) returns (c: CpuCandidate)
    requires Covers(rules, game, team, result, candidates, |game.pieces|)
    requires Offers(rules, game, team, result, i, d) && BestOffer(rules, game, team, result, d)
    ensures c in candidates && c in Maxima(candidates, candidates) && SameGroup(c, d.moved)
  {
    hide CandidateFor, Usable, Compare, SameGroup;
    assert Represented(candidates, d);
    var k :| 0 <= k < |candidates| && SameGroup(candidates[k], d.moved) && candidates[k].rank == d.rank;
    c := candidates[k];
    forall m | 0 <= m < |candidates|
      ensures Compare(c.rank, candidates[m].rank) >= 0
    {
      assert candidates[m] in candidates;
      var j: nat :| j < |game.pieces| && Offers(rules, game, team, result, j, candidates[m]);
    }
  }

  /** A candidate of the same group names one of the companions. */
  lemma SameGroupMoves(rules: Rules, game: GameState, team: Team, result: YutResult, candidates: seq<CpuCandidate>,
      i: nat,
      c: CpuCandidate, d: CpuCandidate)
    requires GameInv(rules, game) && game.winner == None && result != Buk
    requires Covers(rules, game, team, result, candidates, |game.pieces|) && c in candidates
    requires Offers(rules, game, team, result, i, d) && SameGroup(c, d.moved)
    ensures exists k: nat :: Companion(rules, game.pieces, i, k, c.piece)
  {
    hide GameInv, CandidateFor, Usable, MovingIndices, MovesWith, Applied, IDsOf;
    var k: nat :| k < |game.pieces| && Offers(rules, game, team, result, k, c);
    UsableOwn(game.pieces, team, i, result);
    UsableOwn(game.pieces, team, k, result);
    CandidateExact(rules, game, team, i, result);
    CandidateExact(rules, game, team, k, result);
    GroupMoves(rules, game.pieces, k);
    MoversAlike(rules, game.pieces, k);
    IDsHold(game.pieces, MovingIndices(rules, game.pieces, k), k);
    assert game.pieces[k].id in multiset(c.moved);
    assert game.pieces[k].id in d.moved;
    MovedTells(rules, game, i, k);
    assert Companion(rules, game.pieces, i, k, c.piece);
  }

  // ----- The draw -----

  /** No two candidates stand for the same group. */
  ghost predicate GroupsDiffer(candidates: seq<CpuCandidate>) {
    forall a, b :: 0 <= a < b < |candidates| ==> !SameGroup(candidates[a], candidates[b].moved)
  }

  lemma {:induction false} CandidatesDiffer(rules: Rules, game: GameState, team: Team, result: YutResult, n: nat)
    requires n <= |game.pieces| && CandidatesBelow(rules, game, team, result, n).Ok?
    ensures GroupsDiffer(CandidatesBelow(rules, game, team, result, n).value)
  {
    hide CandidateFor, SameGroup;
    if n > 0 {
      CandidatesDiffer(rules, game, team, result, n - 1);
    }
  }

  lemma TailDiffers(candidates: seq<CpuCandidate>)
    requires candidates != [] && GroupsDiffer(candidates)
    ensures GroupsDiffer(candidates[1..])
    ensures forall d :: d in candidates[1..] ==> !SameGroup(candidates[0], d.moved)
  {
    hide SameGroup;
    var rest := candidates[1..];
    assert forall k :: 0 <= k < |rest| ==> rest[k] == candidates[k + 1];
    forall d | d in rest
      ensures !SameGroup(candidates[0], d.moved)
    {
      var k :| 0 <= k < |rest| && rest[k] == d;
    }
  }

  lemma HeadDiffers(c: CpuCandidate, best: seq<CpuCandidate>)
    requires GroupsDiffer(best) && forall d :: d in best ==> !SameGroup(c, d.moved)
    ensures GroupsDiffer([c] + best)
  {
    hide SameGroup;
    var all := [c] + best;
    forall a, b | 0 <= a < b < |all|
      ensures !SameGroup(all[a], all[b].moved)
    {
      assert all[b] == best[b - 1] && (a > 0 ==> all[a] == best[a - 1]);
    }
  }

  lemma {:induction false} MaximaDiffer(all: seq<CpuCandidate>, candidates: seq<CpuCandidate>)
    requires GroupsDiffer(candidates)
    ensures GroupsDiffer(Maxima(all, candidates))
  {
    hide IsMaximal, SameGroup, GroupsDiffer;
    if candidates == [] {
      NothingDiffers();
    } else {
      TailDiffers(candidates);
      MaximaDiffer(all, candidates[1..]);
      var best := Maxima(all, candidates[1..]);
      HeadDiffers(candidates[0], best);
      assert [] + best == best;
    }
  }

  lemma NothingDiffers()
    ensures GroupsDiffer([])
  {
  }

  /** The draw fails only where there is something to draw: two pieces with best moves that do not go together. */
  lemma DrawFailsAmongMany(rules: Rules, game: GameState, queue: seq<Token>, team: Team, ticket: nat)
    requires GameInv(rules, game) && game.winner == None && queue != [] && queue[0].result != Buk
    requires DecisionOf(rules, game, queue, team, ticket).Err?
    ensures exists i: nat, j: nat :: Apart(rules, game, team, queue[0].result, i, j)
  {
    hide GameInv, CandidatesBelow, CandidateFor, Usable, MeritsOf, Best, Maxima, IsMaximal, BestOffer, SameGroup, Apart,
      Covers, GroupsDiffer;
    var result := queue[0].result;
    CpuTheorems.CandidatesExact(rules, game, team, result, |game.pieces|);
    var candidates := CandidatesBelow(rules, game, team, result, |game.pieces|).value;
    if candidates != [] {
      BestExists(candidates);
    }
    var best := Maxima(candidates, candidates);
    CandidatesDiffer(rules, game, team, result, |game.pieces|);
    MaximaDiffer(candidates, candidates);
    FirstTwoDiffer(best);
    var i := BestCandidateIsBest(rules, game, team, result, candidates, best[0]);
    var j := BestCandidateIsBest(rules, game, team, result, candidates, best[1]);
    DifferentGroupsApart(rules, game, team, result, i, j, best[0], best[1]);
  }

  lemma FirstTwoDiffer(best: seq<CpuCandidate>)
    requires GroupsDiffer(best) && |best| >= 2
    ensures best[0] in best && best[1] in best && !SameGroup(best[0], best[1].moved)
  {
    hide SameGroup;
  }

  /** Two pieces with best moves that do not go together. */
  ghost predicate Apart(rules: Rules, game: GameState, team: Team, result: YutResult, i: nat, j: nat) {
    && Best(rules, game, team, result, i) && Best(rules, game, team, result, j)
    && i < |game.pieces| && j < |game.pieces| && !MovesWith(rules, game.pieces, i, j)
  }

  lemma BestCandidateIsBest(rules: Rules, game: GameState, team: Team, result: YutResult, candidates: seq<CpuCandidate>,
      c: CpuCandidate) returns (i: nat)
    requires GameInv(rules, game) && game.winner == None && result != Buk
    requires Covers(rules, game, team, result, candidates, |game.pieces|) && c in Maxima(candidates, candidates)
    ensures Offers(rules, game, team, result, i, c) && Best(rules, game, team, result, i)
  {
    hide GameInv, CandidateFor, Usable, Best, BestOffer, Covers, Applied;
    BestIsOffer(rules, game, team, result, candidates, c);
    i :| Offers(rules, game, team, result, i, c) && game.pieces[i].id == c.piece;
    BestOfferIsBest(rules, game, team, result, i, c);
  }

  /** Pieces that go together are the same group. */
  lemma DifferentGroupsApart(rules: Rules, game: GameState, team: Team, result: YutResult, i: nat, j: nat,
      c: CpuCandidate, d: CpuCandidate)
    requires GameInv(rules, game) && game.winner == None && result != Buk
    requires Offers(rules, game, team, result, i, c) && Offers(rules, game, team, result, j, d)
    requires Best(rules, game, team, result, i) && Best(rules, game, team, result, j) && !SameGroup(c, d.moved)
    ensures Apart(rules, game, team, result, i, j)
  {
    hide GameInv, CandidateFor, Usable, Best, MovingIndices, Applied, IDsOf;
    UsableOwn(game.pieces, team, i, result);
    UsableOwn(game.pieces, team, j, result);
    CandidateExact(rules, game, team, i, result);
    CandidateExact(rules, game, team, j, result);
    if MovesWith(rules, game.pieces, i, j) {
      MovedTells(rules, game, i, j);
      GroupmatesStandTogether(rules, game, team, i, j);
    }
  }

  /** The decisions that need no choice. */
  lemma OtherDecisions(rules: Rules, game: GameState, queue: seq<Token>, team: Team, ticket: nat)
    ensures var r := DecisionOf(rules, game, queue, team, ticket);
      && (queue == [] ==> r == Err(NoResultToken))
      && (queue != [] && game.winner.Some? ==> r == Err(GameFault(MatchEnded)))
      && (queue != [] && game.winner == None && queue[0].result == Buk ==> r == Ok(ResolveHeadBuk(queue[0].id)))
  {
    hide CandidatesBelow, Maxima;
  }
}
