/** The offered moves are exactly the moves that can be made. */
module MatchOffers {
  import opened Domain
  import opened TurnQueue
  import opened TurnMachine
  import opened MatchRules
  import opened MatchInvariants
  import opened MatchFlow

  /** A piece can use a result: it is the team's, unfinished, and has a history to go back to for a Backdo. */
  predicate Usable(pieces: seq<Piece>, team: Team, i: nat, result: YutResult) {
    && i < |pieces| && pieces[i].team == team && pieces[i].state != Finished
    && (result == Backdo ==> pieces[i].Active() && pieces[i].previous != NoSpace)
  }

  lemma OwnedByIndex(rules: Rules, game: GameState, i: nat)
    requires GameInv(rules, game) && i < |game.pieces|
    ensures OwnedIndex(game.pieces, game.pieces[i].team, game.pieces[i].id) == Ok(i)
  {
    hide PiecesOk, Apart, SharedHistory, WinnerOk, RulesOk;
    var k := PieceIndex(game.pieces, game.pieces[i].id);
  }

  /** The routes offered to a piece say exactly whether it can use the result. */
  lemma PieceRoutesExact(rules: Rules, game: GameState, team: Team, i: nat, result: YutResult)
    requires GameInv(rules, game) && game.winner == None && i < |game.pieces| && result != Buk
    ensures var r := PieceRoutes(rules, game, team, game.pieces[i], result);
      && r.Ok? && (r.value.Some? <==> Usable(game.pieces, team, i, result))
      && (r.value.Some? && result == Backdo ==> r.value.value == [])
      && (r.value.Some? && result != Backdo ==> |r.value.value| == 1 || |r.value.value| == 2)
  {
    hide GameInv, PlanAccepted, ResolutionOk;
    var p := game.pieces[i];
    if p.team == team && p.state != Finished {
      OwnedByIndex(rules, game, i);
      if result == Backdo {
        BackdoExact(rules, game, team, p.id);
      } else {
        OrdinaryAlwaysPlans(rules, game, team, p.id, result);
      }
    }
  }

  /** The routes offered to a usable piece. */
  function RoutesFor(rules: Rules, game: GameState, team: Team, i: nat, result: YutResult): seq<Route>
    requires i < |game.pieces|
  {
    match PieceRoutes(rules, game, team, game.pieces[i], result)
    case Ok(Some(routes)) => routes
    case _ => []
  }

  ghost predicate OffersOf(rules: Rules, game: GameState, team: Team, token: Token, candidates: seq<Candidate>, n: nat)
    requires n <= |game.pieces|
  {
    && (forall c :: c in candidates ==> exists i: nat :: i < n && IsOffer(rules, game, team, token, i, c))
    && forall i: nat :: i < n && Usable(game.pieces, team, i, token.result) ==>
      Candidate(token.id, game.pieces[i].id, RoutesFor(rules, game, team, i, token.result)) in candidates
  }

  ghost predicate IsOffer(rules: Rules, game: GameState, team: Team, token: Token, i: nat, c: Candidate) {
    && Usable(game.pieces, team, i, token.result)
    && c == Candidate(token.id, game.pieces[i].id, RoutesFor(rules, game, team, i, token.result))
  }

  lemma {:induction false} TokenCandidatesExact(rules: Rules, game: GameState, team: Team, token: Token, n: nat)
    requires GameInv(rules, game) && game.winner == None && n <= |game.pieces| && token.result != Buk
    ensures TokenCandidates(rules, game, team, token, n).Ok?
    ensures OffersOf(rules, game, team, token, TokenCandidates(rules, game, team, token, n).value, n)
  {
    hide GameInv, PieceRoutes, Usable;
    if n > 0 {
      TokenCandidatesExact(rules, game, team, token, n - 1);
      PieceRoutesExact(rules, game, team, n - 1, token.result);
      var rest := TokenCandidates(rules, game, team, token, n - 1).value;
      var c := Candidate(token.id, game.pieces[n - 1].id, RoutesFor(rules, game, team, n - 1, token.result));
      OffersGrow(rules, game, team, token, rest, c, n);
    }
  }

  lemma OffersGrow(rules: Rules, game: GameState, team: Team, token: Token, rest: seq<Candidate>, c: Candidate, n: nat)
    requires 0 < n <= |game.pieces| && OffersOf(rules, game, team, token, rest, n - 1)
    requires c == Candidate(token.id, game.pieces[n - 1].id, RoutesFor(rules, game, team, n - 1, token.result))
    ensures Usable(game.pieces, team, n - 1, token.result) ==> OffersOf(rules, game, team, token, rest + [c], n)
    ensures !Usable(game.pieces, team, n - 1, token.result) ==> OffersOf(rules, game, team, token, rest, n)
  {
    hide RoutesFor, Usable;
    if Usable(game.pieces, team, n - 1, token.result) {
      assert IsOffer(rules, game, team, token, n - 1, c);
      forall x | x in rest + [c]
        ensures exists i: nat :: i < n && IsOffer(rules, game, team, token, i, x)
      {
        if x in rest {
          var i: nat :| i < n - 1 && IsOffer(rules, game, team, token, i, x);
        }
      }
      assert (rest + [c])[|rest|] == c;
    }
  }

  /** The offer of a list of tokens: all pairs of a token and a piece that can use it, and the
      identifiers of the tokens that no piece can use. */
  ghost predicate OfferExact(rules: Rules, game: GameState, team: Team, tokens: seq<Token>, offer: Offer, n: nat)
    requires n <= |tokens|
  {
    && (forall c :: c in offer.candidates ==>
      exists k: nat, i: nat :: k < n && IsOffer(rules, game, team, tokens[k], i, c))
    && (forall k: nat, i: nat :: k < n && Usable(game.pieces, team, i, tokens[k].result) ==>
      Candidate(tokens[k].id, game.pieces[i].id, RoutesFor(rules, game, team, i, tokens[k].result)) in offer.candidates)
    && |offer.unusable| <= n
    && (offer.candidates == [] ==> |offer.unusable| == n && forall k :: 0 <= k < n ==>
      offer.unusable[k] == tokens[k].id)
  }

  lemma {:induction false} OfferOfExact(rules: Rules, game: GameState, team: Team, tokens: seq<Token>, n: nat)
    requires GameInv(rules, game) && game.winner == None && n <= |tokens|
    requires forall k :: 0 <= k < n ==> tokens[k].result != Buk
    ensures OfferOf(rules, game, team, tokens, n).Ok?
    ensures OfferExact(rules, game, team, tokens, OfferOf(rules, game, team, tokens, n).value, n)
  {
    hide GameInv, TokenCandidates, Usable, OffersOf, OfferExact;
    if n == 0 {
      EmptyOffer(rules, game, team, tokens);
    } else {
      OfferOfExact(rules, game, team, tokens, n - 1);
      TokenCandidatesExact(rules, game, team, tokens[n - 1], |game.pieces|);
      OfferGrows(rules, game, team, tokens, OfferOf(rules, game, team, tokens, n - 1).value,
        TokenCandidates(rules, game, team, tokens[n - 1], |game.pieces|).value, n);
    }
  }

  lemma EmptyOffer(rules: Rules, game: GameState, team: Team, tokens: seq<Token>)
    ensures OfferExact(rules, game, team, tokens, Offer([], []), 0)
  {
  }

  lemma OfferGrows(rules: Rules, game: GameState, team: Team, tokens: seq<Token>, offer: Offer, more: seq<Candidate>,
      n: nat)
    requires 0 < n <= |tokens| && OfferExact(rules, game, team, tokens, offer, n - 1)
    requires OffersOf(rules, game, team, tokens[n - 1], more, |game.pieces|)
    ensures OfferExact(rules, game, team, tokens,
      Offer(offer.candidates + more, if more == [] then offer.unusable + [tokens[n - 1].id] else offer.unusable), n)
  {
    hide RoutesFor;
    var grown := Offer(offer.candidates + more,
      if more == [] then offer.unusable + [tokens[n - 1].id] else offer.unusable);
    forall c | c in grown.candidates
      ensures exists k: nat, i: nat :: k < n && IsOffer(rules, game, team, tokens[k], i, c)
    {
      if c in more {
        var i: nat :| i < |game.pieces| && IsOffer(rules, game, team, tokens[n - 1], i, c);
      }
    }
    hide IsOffer;
  }

  /** In every reachable choice of a move, a pair is offered exactly when the result is exposed and the
      piece can use it; a result is left out exactly when no piece can use it. */
  lemma CandidatesExact(rules: Rules, f: Flow)
    requires GameInv(rules, f.game) && f.game.winner == None && f.turn.Inv() && f.turn.phase == Phase.WaitMoveSelection
    ensures MoveCandidates(rules, f).Ok?
    ensures OfferExact(rules, f.game, f.team, Exposed(f), MoveCandidates(rules, f).value, |Exposed(f)|)
    ensures |Exposed(f)| > 0 && forall k :: 0 <= k < |Exposed(f)| ==> Exposed(f)[k].result != Buk
  {
    hide GameInv, OfferOf, OfferExact, IndexOf;
    ExposedOrdinary(f);
    OfferOfExact(rules, f.game, f.team, Exposed(f), |Exposed(f)|);
  }

  lemma ExposedOrdinary(f: Flow)
    requires f.turn.Inv() && f.turn.phase == Phase.WaitMoveSelection
    ensures |Exposed(f)| > 0
    ensures forall k :: 0 <= k < |Exposed(f)| ==> Exposed(f)[k].result != Buk && Exposed(f)[k] in f.turn.queue.tokens
    ensures f.turn.order == Fifo ==> |Exposed(f)| == 1
    ensures f.turn.order == Free ==> Exposed(f) == f.turn.queue.tokens
  {
  }

  /** An unfinished piece exists while the match is open. */
  lemma UnfinishedPieceExists(rules: Rules, game: GameState, team: Team) returns (i: nat)
    requires GameInv(rules, game) && game.winner == None
    ensures i < |game.pieces| && game.pieces[i].team == team && game.pieces[i].state != Finished
  {
    hide PiecesOk, Apart, SharedHistory, Roster, RulesOk;
    assert !AllFinished(game.pieces, team);
    i :| 0 <= i < |game.pieces| && game.pieces[i].team == team && game.pieces[i].state != Finished;
  }

  /** Nothing can be selected exactly when every exposed result is a Backdo and no piece of the team
      has a recorded history on the board. */
  lemma NoCandidatesExactly(rules: Rules, game: GameState, team: Team, tokens: seq<Token>, offer: Offer, u: nat)
    requires tokens != [] && OfferExact(rules, game, team, tokens, offer, |tokens|)
    requires u < |game.pieces| && game.pieces[u].team == team && game.pieces[u].state != Finished
    ensures offer.candidates == [] <==>
      && (forall k :: 0 <= k < |tokens| ==> tokens[k].result == Backdo)
      && (forall i: nat :: !Usable(game.pieces, team, i, Backdo))
    ensures offer.candidates == [] ==> |offer.unusable| == |tokens| && offer.unusable[0] == tokens[0].id
  {
    hide RoutesFor;
    if offer.candidates == [] {
      forall k | 0 <= k < |tokens|
        ensures tokens[k].result == Backdo
      {
        assert !Usable(game.pieces, team, u, tokens[k].result);
      }
      assert tokens[0].result == Backdo;
    } else {
      var c := offer.candidates[0];
      assert c in offer.candidates;
      var k: nat, i: nat :| k < |tokens| && IsOffer(rules, game, team, tokens[k], i, c);
      assert Usable(game.pieces, team, i, tokens[k].result);
    }
  }

  /** While a Buk is queued nothing else is offered, and nothing is called unusable. */
  lemma BukOffersNothing(rules: Rules, f: Flow)
    requires exists i :: 0 <= i < |f.turn.queue.tokens| && f.turn.queue.tokens[i].result == Buk
    ensures MoveCandidates(rules, f) == Ok(Offer([], []))
  {
    hide TokenCandidates;
    assert FirstBuk(f.turn.queue.tokens) < |f.turn.queue.tokens|;
    assert Exposed(f)[0].result == Buk;
    assert OfferOf(rules, f.game, f.team, Exposed(f), 0) == Ok(Offer([], []));
  }
}
