/** The CPU's decision is sound: it never fails, it is the best choice, and it goes through. */
module CpuTheorems {
  import opened Domain
  import opened BoardSearch
  import opened BoardForward
  import opened BoardTheorems
  import opened BoardValidate
  import opened TurnQueue
  import opened TurnMachine
  import opened MatchRules
  import opened MatchInvariants
  import opened MatchOffers
  import opened MatchFlow
  import opened MatchTurns
  import opened CpuPolicy

  /** The game's own decision about the piece and the route the CPU sends. */
  function Applied(rules: Rules, game: GameState, team: Team, id: PieceID, result: YutResult, route: Option<Route>)
    : Outcome<MatchRules.Decision, GameError>
  {
    if result == Backdo then DecideBackdo(rules, game, team, id)
    else DecideOrdinary(rules, game, team, id, result, route)
  }

  lemma {:induction false} IDsHold(pieces: seq<Piece>, indices: seq<nat>, i: nat)
    requires IndicesValid(pieces, indices) && i in indices
    ensures pieces[i].id in IDsOf(pieces, indices)
  {
    assert indices == [indices[0]] + indices[1..];
    if indices[0] != i {
      IDsHold(pieces, indices[1..], i);
    }
  }

  lemma {:induction false} IDsNamed(pieces: seq<Piece>, indices: seq<nat>, id: PieceID) returns (i: nat)
    requires IndicesValid(pieces, indices) && id in IDsOf(pieces, indices)
    ensures i < |pieces| && i in indices && pieces[i].id == id
  {
    if pieces[indices[0]].id == id {
      i := indices[0];
    } else {
      i := IDsNamed(pieces, indices[1..], id);
    }
  }

  /** The planned move of a piece exists exactly when the piece can use the result, and it is the move the
      game makes when the CPU's route is sent. */
  lemma PieceMoveExact(rules: Rules, game: GameState, team: Team, i: nat, result: YutResult)
    requires GameInv(rules, game) && game.winner == None && result != Buk
    requires i < |game.pieces| && game.pieces[i].team == team && game.pieces[i].state != Finished
    ensures var r := PieceMove(rules, game, team, game.pieces[i].id, result);
      && r.Ok? && (r.value.Some? <==> Usable(game.pieces, team, i, result))
      && (r.value.Some? ==>
        && r.value.value.0.moving == MovingIndices(rules, game.pieces, i)
        && Applied(rules, game, team, game.pieces[i].id, result, r.value.value.1) ==
          Ok(MatchRules.Decision(i, r.value.value.0)))
  {
    hide GameInv, PlanAccepted, ResolutionOk, ForwardPlans, Reversal, BackdoAccepted, MovingIndices;
    var id := game.pieces[i].id;
    OwnedByIndex(rules, game, i);
    if result == Backdo {
      BackdoExact(rules, game, team, id);
    } else {
      OrdinaryAlwaysPlans(rules, game, team, id, result);
    }
  }

  lemma BoardDistance(rules: Rules, game: GameState, i: nat)
    requires GameInv(rules, game) && i < |game.pieces|
    requires game.pieces[i].state != Waiting && game.pieces[i].state != Finished
    ensures PieceDistance(rules, game.pieces[i]).Ok? && PieceDistance(rules, game.pieces[i]).value >= 1
  {
    hide Apart, SharedHistory, Roster, WinnerOk;
    assert PieceOk(rules.graph, game.pieces[i]);
    DistanceDefined(rules.graph, game.pieces[i].At(), rules.settings.shortcutPolicy);
  }

  lemma CandidateExact(rules: Rules, game: GameState, team: Team, i: nat, result: YutResult)
    requires GameInv(rules, game) && game.winner == None && result != Buk
    requires i < |game.pieces| && game.pieces[i].team == team && game.pieces[i].state != Finished
    ensures var r := CandidateFor(rules, game, team, game.pieces[i], result);
      && r.Ok? && (r.value.Some? <==> Usable(game.pieces, team, i, result))
      && (r.value.Some? ==>
        var c := r.value.value;
        && c.piece == game.pieces[i].id && c.moved == IDsOf(game.pieces, MovingIndices(rules, game.pieces, i))
        && Applied(rules, game, team, c.piece, result, c.route).Ok?)
  {
    hide GameInv, PieceMove, Promise, PieceDistance, Usable, MovingIndices, Applied;
    PieceMoveExact(rules, game, team, i, result);
    IDsHold(game.pieces, MovingIndices(rules, game.pieces, i), i);
    if game.pieces[i].state != Waiting {
      BoardDistance(rules, game, i);
    }
  }

  /** Pieces that move the same group stand in the same place with the same history. */
  lemma GroupmatesStandTogether(rules: Rules, game: GameState, team: Team, i: nat, j: nat)
    requires GameInv(rules, game) && i < |game.pieces| && j < |game.pieces|
    requires game.pieces[i].team == team && game.pieces[j].team == team
    requires game.pieces[j].id in IDsOf(game.pieces, MovingIndices(rules, game.pieces, i))
    requires game.pieces[i].state != Finished
    ensures game.pieces[i].At() == game.pieces[j].At() && game.pieces[i].previous == game.pieces[j].previous
    ensures MovingIndices(rules, game.pieces, i) == MovingIndices(rules, game.pieces, j)
  {
    hide RulesOk, Apart, WinnerOk;
    var k := IDsNamed(game.pieces, MovingIndices(rules, game.pieces, i), game.pieces[j].id);
    assert k == j;
    if i != j {
      assert PieceOk(rules.graph, game.pieces[i]);
      assert Together(game.pieces[i], game.pieces[j]) by {
        OnBoardHasSpace(rules, game, i);
      }
    }
  }

  lemma OnBoardHasSpace(rules: Rules, game: GameState, i: nat)
    requires GameInv(rules, game) && i < |game.pieces|
    requires game.pieces[i].state != Waiting && game.pieces[i].state != Finished
    ensures game.pieces[i].space != NoSpace
  {
    hide Apart, SharedHistory, Roster, WinnerOk;
    NoSpaceUnknown(rules.graph);
    hide ValidGraph;
    assert PieceOk(rules.graph, game.pieces[i]);
    StartIsHome(rules.graph);
  }

  lemma GroupmatesMoveAlike(rules: Rules, game: GameState, team: Team, i: nat, j: nat, result: YutResult)
    requires GameInv(rules, game) && game.winner == None && result != Buk && i < |game.pieces| && j < |game.pieces|
    requires game.pieces[i].team == team && game.pieces[j].team == team
    requires game.pieces[i].At() == game.pieces[j].At() && game.pieces[i].previous == game.pieces[j].previous
    requires MovingIndices(rules, game.pieces, i) == MovingIndices(rules, game.pieces, j)
    ensures PieceMove(rules, game, team, game.pieces[i].id, result) ==
      PieceMove(rules, game, team, game.pieces[j].id, result)
  {
    hide GameInv, ForwardPlans, Reversal, PlansAccepted, BackdoAccepted, MovingIndices;
    OwnedByIndex(rules, game, i);
    OwnedByIndex(rules, game, j);
  }

  /** Candidates that stand for the same group rank alike. */
  lemma SameGroupRanksAlike(rules: Rules, game: GameState, team: Team, i: nat, j: nat, result: YutResult,
      c: CpuCandidate, d: CpuCandidate)
    requires GameInv(rules, game) && game.winner == None && result != Buk && i < |game.pieces| && j < |game.pieces|
    requires game.pieces[i].team == team && game.pieces[i].state != Finished
    requires game.pieces[j].team == team && game.pieces[j].state != Finished
    requires CandidateFor(rules, game, team, game.pieces[i], result) == Ok(Some(c))
    requires CandidateFor(rules, game, team, game.pieces[j], result) == Ok(Some(d))
    requires SameGroup(c, d.moved)
    ensures c.rank == d.rank
  {
    hide GameInv, PieceMove, Promise, PieceDistance, MovingIndices, CandidateFor;
    CandidateExact(rules, game, team, i, result);
    CandidateExact(rules, game, team, j, result);
    IDsHold(game.pieces, MovingIndices(rules, game.pieces, j), j);
    assert game.pieces[j].id in multiset(d.moved);
    GroupmatesStandTogether(rules, game, team, i, j);
    GroupmatesMoveAlike(rules, game, team, i, j, result);
    RankFollowsMove(rules, game, team, i, j, result, c, d);
  }

  lemma RankFollowsMove(rules: Rules, game: GameState, team: Team, i: nat, j: nat, result: YutResult, c: CpuCandidate,
      d: CpuCandidate)
    requires i < |game.pieces| && j < |game.pieces| && game.pieces[i].At() == game.pieces[j].At()
    requires PieceMove(rules, game, team, game.pieces[i].id, result) ==
      PieceMove(rules, game, team, game.pieces[j].id, result)
    requires CandidateFor(rules, game, team, game.pieces[i], result) == Ok(Some(c))
    requires CandidateFor(rules, game, team, game.pieces[j], result) == Ok(Some(d))
    ensures c.rank == d.rank
  {
    hide PieceMove, Promise, RemainingDistance;
  }

  /** The candidate a piece would be. */
  ghost predicate Offers(rules: Rules, game: GameState, team: Team, result: YutResult, i: nat, c: CpuCandidate) {
    i < |game.pieces| && Usable(game.pieces, team, i, result)
      && CandidateFor(rules, game, team, game.pieces[i], result) == Ok(Some(c))
  }

  /** Every candidate is the offer of a usable piece, and every usable piece has an equally ranked
      candidate for its group. */
  ghost predicate Covers(rules: Rules, game: GameState, team: Team, result: YutResult, candidates: seq<CpuCandidate>,
      n: nat) {
    && (forall c :: c in candidates ==> exists i: nat :: i < n && Offers(rules, game, team, result, i, c))
    && forall i: nat, d :: i < n && Offers(rules, game, team, result, i, d) ==> Represented(candidates, d)
  }

  predicate Represented(candidates: seq<CpuCandidate>, d: CpuCandidate) {
    exists k :: 0 <= k < |candidates| && SameGroup(candidates[k], d.moved) && candidates[k].rank == d.rank
  }

  lemma {:induction false} CandidatesExact(rules: Rules, game: GameState, team: Team, result: YutResult, n: nat)
    requires GameInv(rules, game) && game.winner == None && result != Buk && n <= |game.pieces|
    ensures CandidatesBelow(rules, game, team, result, n).Ok?
    ensures Covers(rules, game, team, result, CandidatesBelow(rules, game, team, result, n).value, n)
  {
    hide GameInv, CandidateFor, Usable, Covers, Applied;
    if n == 0 {
      NothingCovered(rules, game, team, result);
    } else {
      CandidatesExact(rules, game, team, result, n - 1);
      var rest := CandidatesBelow(rules, game, team, result, n - 1).value;
      var p := game.pieces[n - 1];
      if p.team != team || p.state == Finished {
        CoversSkip(rules, game, team, result, rest, n);
      } else {
        CandidateExact(rules, game, team, n - 1, result);
        var c := CandidateFor(rules, game, team, p, result).value;
        if c.None? {
          CoversSkip(rules, game, team, result, rest, n);
        } else if Seen(rest, c.value.moved) {
          CoversMerge(rules, game, team, result, rest, n, c.value);
        } else {
          CoversAppend(rules, game, team, result, rest, n, c.value);
        }
      }
    }
  }

  lemma NothingCovered(rules: Rules, game: GameState, team: Team, result: YutResult)
    ensures Covers(rules, game, team, result, [], 0)
  {
  }

  lemma CoversSkip(rules: Rules, game: GameState, team: Team, result: YutResult, rest: seq<CpuCandidate>, n: nat)
    requires 0 < n <= |game.pieces| && Covers(rules, game, team, result, rest, n - 1)
    requires game.pieces[n - 1].team != team || game.pieces[n - 1].state == Finished
      || !Usable(game.pieces, team, n - 1, result)
    ensures Covers(rules, game, team, result, rest, n)
  {
    hide CandidateFor, Represented;
    forall c | c in rest
      ensures exists i: nat :: i < n && Offers(rules, game, team, result, i, c)
    {
      var i: nat :| i < n - 1 && Offers(rules, game, team, result, i, c);
    }
  }

  lemma CoversMerge(rules: Rules, game: GameState, team: Team, result: YutResult, rest: seq<CpuCandidate>, n: nat,
      d: CpuCandidate)
    requires GameInv(rules, game) && game.winner == None && result != Buk
    requires 0 < n <= |game.pieces| && Covers(rules, game, team, result, rest, n - 1)
    requires Offers(rules, game, team, result, n - 1, d) && Seen(rest, d.moved)
    ensures Covers(rules, game, team, result, rest, n)
  {
    hide GameInv, CandidateFor;
    var k :| 0 <= k < |rest| && SameGroup(rest[k], d.moved);
    assert rest[k] in rest;
    var j: nat :| j < n - 1 && Offers(rules, game, team, result, j, rest[k]);
    SameGroupRanksAlike(rules, game, team, j, n - 1, result, rest[k], d);
    forall c | c in rest
      ensures exists i: nat :: i < n && Offers(rules, game, team, result, i, c)
    {
      var i: nat :| i < n - 1 && Offers(rules, game, team, result, i, c);
    }
  }

  lemma CoversAppend(rules: Rules, game: GameState, team: Team, result: YutResult, rest: seq<CpuCandidate>, n: nat,
      d: CpuCandidate)
    requires 0 < n <= |game.pieces| && Covers(rules, game, team, result, rest, n - 1)
    requires Offers(rules, game, team, result, n - 1, d)
    ensures Covers(rules, game, team, result, rest + [d], n)
  {
    hide CandidateFor, Usable;
    var all := rest + [d];
    assert all[|rest|] == d && forall k :: 0 <= k < |rest| ==> all[k] == rest[k];
    forall c | c in all
      ensures exists i: nat :: i < n && Offers(rules, game, team, result, i, c)
    {
      if c in rest {
        var i: nat :| i < n - 1 && Offers(rules, game, team, result, i, c);
      }
    }
    forall i: nat, x | i < n && Offers(rules, game, team, result, i, x)
      ensures Represented(all, x)
    {
      if i < n - 1 {
        var k :| 0 <= k < |rest| && SameGroup(rest[k], x.moved) && rest[k].rank == x.rank;
        assert all[k] == rest[k];
      } else {
        assert all[|rest|] == x;
      }
    }
  }

  lemma {:induction false} BestExists(candidates: seq<CpuCandidate>)
    requires candidates != []
    ensures Maxima(candidates, candidates) != []
  {
    var before := candidates[..|candidates| - 1];
    var c := candidates[|candidates| - 1];
    assert before + [c] == candidates;
    if before == [] {
      FirstIsBest(c);
      assert [] + [c] == [c];
    } else {
      BestExists(before);
      MaximaGrow(before, c, Maxima(before, before));
    }
  }

  /** No usable piece offers a better rank than this one. */
  ghost predicate BestOffer(rules: Rules, game: GameState, team: Team, result: YutResult, c: CpuCandidate) {
    forall i: nat, d :: Offers(rules, game, team, result, i, d) ==> Compare(c.rank, d.rank) >= 0
  }

  /** The piece at i makes the candidate the decision names, and no offer ranks higher. */
  ghost predicate ChosenOffer(rules: Rules, game: GameState, team: Team, result: YutResult, i: nat, c: CpuCandidate,
      piece: PieceID, route: Option<Route>)
  {
    && Offers(rules, game, team, result, i, c) && game.pieces[i].id == piece && c.piece == piece && c.route == route
    && BestOffer(rules, game, team, result, c)
  }

  /** For a head that is not a Buk, the only error is a random source out of range. The result is discarded
      exactly when no piece can use it. Otherwise the chosen piece can use it, no usable piece ranks
      higher, and the game accepts the move with the route the decision carries. */
  lemma DecisionIsSound(rules: Rules, game: GameState, queue: seq<Token>, team: Team, ticket: nat)
    requires GameInv(rules, game) && game.winner == None && queue != [] && queue[0].result != Buk
    ensures var r := DecisionOf(rules, game, queue, team, ticket);
      match r
      case Err(error) => error == RandomSourceOutOfRange && ticket > 0
      case Ok(ResolveHeadBuk(_)) => false
      case Ok(DiscardResult(token)) => token == queue[0].id
        && forall i: nat :: !Usable(game.pieces, team, i, queue[0].result)
      case Ok(MovePiece(token, piece, route)) =>
        token == queue[0].id && Applied(rules, game, team, piece, queue[0].result, route).Ok?
        && exists i: nat, c :: ChosenOffer(rules, game, team, queue[0].result, i, c, piece, route)
  {
    hide GameInv, CandidatesBelow, Maxima, CandidateFor, Usable, Applied, Compare, BestOffer, IsMaximal, Represented;
    var result := queue[0].result;
    CandidatesExact(rules, game, team, result, |game.pieces|);
    var candidates := CandidatesBelow(rules, game, team, result, |game.pieces|).value;
    if candidates == [] {
      forall i: nat
        ensures !Usable(game.pieces, team, i, result)
      {
        if Usable(game.pieces, team, i, result) {
          UsableIsRepresented(rules, game, team, result, candidates, i);
        }
      }
    } else {
      BestExists(candidates);
      var best := Maxima(candidates, candidates);
      if |best| == 1 || ticket < |best| {
        var c := best[if |best| == 1 then 0 else ticket];
        BestIsOffer(rules, game, team, result, candidates, c);
        var i: nat :| Offers(rules, game, team, result, i, c) && game.pieces[i].id == c.piece;
        assert ChosenOffer(rules, game, team, result, i, c, c.piece, c.route);
      }
    }
  }

  lemma UsableIsRepresented(rules: Rules, game: GameState, team: Team, result: YutResult,
      candidates: seq<CpuCandidate>, i: nat)
    requires GameInv(rules, game) && game.winner == None && result != Buk && Usable(game.pieces, team, i, result)
    requires Covers(rules, game, team, result, candidates, |game.pieces|)
    ensures candidates != []
  {
    hide GameInv, CandidateFor, Applied;
    CandidateExact(rules, game, team, i, result);
    var d := CandidateFor(rules, game, team, game.pieces[i], result).value.value;
    assert Offers(rules, game, team, result, i, d);
  }

  lemma BestIsOffer(rules: Rules, game: GameState, team: Team, result: YutResult, candidates: seq<CpuCandidate>,
      c: CpuCandidate)
    requires GameInv(rules, game) && game.winner == None && result != Buk
    requires Covers(rules, game, team, result, candidates, |game.pieces|) && c in Maxima(candidates, candidates)
    ensures Applied(rules, game, team, c.piece, result, c.route).Ok?
    ensures BestOffer(rules, game, team, result, c)
    ensures exists i: nat :: Offers(rules, game, team, result, i, c) && game.pieces[i].id == c.piece
  {
    hide GameInv, CandidateFor, Applied, Compare;
    assert c in candidates && IsMaximal(candidates, c);
    var i: nat :| i < |game.pieces| && Offers(rules, game, team, result, i, c);
    CandidateExact(rules, game, team, i, result);
    forall j: nat, d | Offers(rules, game, team, result, j, d)
      ensures Compare(c.rank, d.rank) >= 0
    {
      assert Represented(candidates, d);
      var k :| 0 <= k < |candidates| && SameGroup(candidates[k], d.moved) && candidates[k].rank == d.rank;
      assert Compare(c.rank, candidates[k].rank) >= 0;
    }
  }

  /** In a running turn the machine accepts the decision too: the chosen pair can be selected, and a head
      that is to be discarded can be discarded. */
  lemma DecisionIsAccepted(rules: Rules, f: Flow, ticket: nat)
    requires FlowInv(rules, f) && f.turn.phase == Phase.WaitMoveSelection
    ensures var r := DecisionOf(rules, f.game, f.turn.queue.tokens, f.team, ticket);
      && (r.Ok? ==> !r.value.ResolveHeadBuk?)
      && (r.Ok? && r.value.MovePiece? ==> MatchFlow.SelectMove(rules, f, r.value.token, r.value.piece).Ok?)
      && (r.Ok? && r.value.DiscardResult? ==> f.turn.DiscardUnusableResult(r.value.token).Ok?)
  {
    hide GameInv, PendingOk, DecisionOf, BestOffer, MatchFlow.SelectMove, Applied, CandidateFor, Usable, Turn.Inv,
      Turn.Movable, Turn.DiscardUnusableResult, Exposed, Choosable;
    HeadIsExposed(rules, f);
    DecisionIsSound(rules, f.game, f.turn.queue.tokens, f.team, ticket);
    var r := DecisionOf(rules, f.game, f.turn.queue.tokens, f.team, ticket);
    var head := f.turn.queue.tokens[0];
    if r.Ok? && r.value.MovePiece? {
      var i: nat, c :| ChosenOffer(rules, f.game, f.team, head.result, i, c, r.value.piece, r.value.route);
      PairIsChoosable(f, head, i);
      SelectProgress(rules, f, head.id, f.game.pieces[i].id);
    } else if r.Ok? && r.value.DiscardResult? {
      ExposedMovable(f, 0);
      DiscardedTurn(f.turn, head.id);
    }
  }

  lemma PairIsChoosable(f: Flow, head: Token, i: nat)
    requires |Exposed(f)| > 0 && Exposed(f)[0] == head && Usable(f.game.pieces, f.team, i, head.result)
    ensures Choosable(f, head.id, f.game.pieces[i].id)
  {
    assert ChoosablePair(f, head.id, f.game.pieces[i].id, 0, i);
  }

  lemma HeadIsExposed(rules: Rules, f: Flow)
    requires FlowInv(rules, f) && f.turn.phase == Phase.WaitMoveSelection
    ensures f.game.winner == None && f.turn.Inv() && f.turn.queue.tokens != []
    ensures |Exposed(f)| > 0 && Exposed(f)[0] == f.turn.queue.tokens[0] && f.turn.queue.tokens[0].result != Buk
  {
    hide GameInv, PendingOk;
    ExposedOrdinary(f);
  }
}
