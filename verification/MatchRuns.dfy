/** Laws of every sequence of moves: ordinary, Backdo and Buk, by either team, in any order. */
module MatchRuns {
  import opened Domain
  import opened BoardGraph
  import opened BoardValidate
  import opened BoardForward
  import opened BoardTheorems
  import opened MatchRules
  import opened MatchInvariants
  import opened MatchBuk

  datatype Call =
    | OrdinaryCall(team: Team, id: PieceID, result: YutResult, route: Option<Route>)
    | BackdoCall(team: Team, id: PieceID)
    | BukCall(team: Team, ticket: nat)

  /** The state a call leaves behind; a refused call changes nothing. */
  ghost function After(rules: Rules, game: GameState, call: Call): GameState {
    match call
    case OrdinaryCall(team, id, result, route) =>
      (match ApplyOrdinary(rules, game, team, id, result, route) case Ok(r) => r.0 case Err(_) => game)
    case BackdoCall(team, id) =>
      (match ApplyBackdo(rules, game, team, id) case Ok(r) => r.0 case Err(_) => game)
    case BukCall(team, ticket) =>
      (match ResolveBuk(rules, game, team, ticket) case Ok(r) => r.0 case Err(_) => game)
  }

  ghost function Run(rules: Rules, game: GameState, calls: seq<Call>): GameState
    decreases |calls|
  {
    if calls == [] then game else Run(rules, After(rules, game, calls[0]), calls[1..])
  }

  /** What an accepted single-piece call does: one proper relocation by an open match. */
  ghost predicate IsRelocation(rules: Rules, game: GameState, after: GameState, team: Team, plan: Resolution) {
    && game.winner == None && ResolutionOk(rules.graph, game.pieces, team, plan)
    && after.pieces == Relocate(rules, game.pieces, team, plan)
    && exists selected: nat :: selected < |game.pieces| && plan.moving == MovingIndices(rules, game.pieces, selected)
  }

  lemma OrdinaryCallRelocates(rules: Rules, game: GameState, team: Team, id: PieceID, result: YutResult,
      route: Option<Route>)
    requires GameInv(rules, game) && DecideOrdinary(rules, game, team, id, result, route).Ok?
    ensures ApplyOrdinary(rules, game, team, id, result, route).Ok?
    ensures var after := ApplyOrdinary(rules, game, team, id, result, route).value.0;
      && GameInv(rules, after) && |after.pieces| == |game.pieces|
      && IsRelocation(rules, game, after, team, DecideOrdinary(rules, game, team, id, result, route).value.plan)
  {
    hide GameInv, ResolutionOk, Relocate, ForwardPlans, PlansAccepted, MovingIndices;
    OrdinaryIsResolution(rules, game, team, id, result, route);
    var decision := DecideOrdinary(rules, game, team, id, result, route).value;
    ResolutionKeepsInv(rules, game, team, decision.selected, result, decision.plan);
  }

  lemma BackdoCallRelocates(rules: Rules, game: GameState, team: Team, id: PieceID)
    requires GameInv(rules, game) && DecideBackdo(rules, game, team, id).Ok?
    ensures ApplyBackdo(rules, game, team, id).Ok?
    ensures var after := ApplyBackdo(rules, game, team, id).value.0;
      && GameInv(rules, after) && |after.pieces| == |game.pieces|
      && IsRelocation(rules, game, after, team, DecideBackdo(rules, game, team, id).value.plan)
  {
    hide GameInv, ResolutionOk, Relocate, Reversal, MovingIndices;
    BackdoExact(rules, game, team, id);
    var decision := DecideBackdo(rules, game, team, id).value;
    ResolutionKeepsInv(rules, game, team, decision.selected, Backdo, decision.plan);
  }

  /** Every call keeps the match invariant. */
  lemma CallKeepsInv(rules: Rules, game: GameState, call: Call)
    requires GameInv(rules, game)
    ensures GameInv(rules, After(rules, game, call)) && |After(rules, game, call).pieces| == |game.pieces|
  {
    hide GameInv, IsRelocation, ApplyResolution, BukLands, BukGroups, ApplyGroups, HasActive, SelectedIDs,
      DecideOrdinary, DecideBackdo;
    match call {
      case OrdinaryCall(team, id, result, route) =>
        if DecideOrdinary(rules, game, team, id, result, route).Ok? {
          OrdinaryCallRelocates(rules, game, team, id, result, route);
        }
      case BackdoCall(team, id) =>
        if DecideBackdo(rules, game, team, id).Ok? {
          BackdoCallRelocates(rules, game, team, id);
        }
      case BukCall(team, ticket) =>
        if game.winner == None && rules.settings.bukModeEnabled {
          BukExact(rules, game, team, ticket);
        }
    }
  }

  /** Whatever moves are made, in whatever order: position fields match piece states, no space holds
      both teams, allies on a space share their history, and the winner is the finished team. */
  lemma {:induction false} RunKeepsInv(rules: Rules, game: GameState, calls: seq<Call>)
    requires GameInv(rules, game)
    ensures GameInv(rules, Run(rules, game, calls))
    decreases |calls|
  {
    hide GameInv, After;
    if calls != [] {
      CallKeepsInv(rules, game, calls[0]);
      RunKeepsInv(rules, After(rules, game, calls[0]), calls[1..]);
    }
  }

  // ----- Fate of one piece, and of two allies on one space -----

  /** A relocation treats two allies on one space alike. */
  lemma RelocationKeepsTogether(rules: Rules, game: GameState, after: GameState, team: Team, plan: Resolution, i: nat,
      j: nat)
    requires GameInv(rules, game) && rules.settings.stackingEnabled && IsRelocation(rules, game, after, team, plan)
    requires i < |game.pieces| && j < |game.pieces| && Together(game.pieces[i], game.pieces[j])
    ensures after.pieces[i].At() == after.pieces[j].At()
  {
    hide ValidGraph, Apart, SharedHistory, Roster, WinnerOk, Graph.Spaces, Relocate;
    RelocateEffect(rules, game.pieces, team, plan, i);
    RelocateEffect(rules, game.pieces, team, plan, j);
    assert PieceOk(rules.graph, game.pieces[i]) && PieceOk(rules.graph, game.pieces[j]);
    SameSpaceSameState(rules.graph, game.pieces[i], game.pieces[j]);
  }

  lemma BukKeepsTogether(rules: Rules, game: GameState, team: Team, ticket: nat, i: nat, j: nat)
    requires GameInv(rules, game) && game.winner == None && rules.settings.bukModeEnabled
    requires i < |game.pieces| && j < |game.pieces| && Together(game.pieces[i], game.pieces[j])
    requires ResolveBuk(rules, game, team, ticket).Ok?
    ensures |ResolveBuk(rules, game, team, ticket).value.0.pieces| == |game.pieces|
    ensures var after := ResolveBuk(rules, game, team, ticket).value.0;
      after.pieces[i].At() == after.pieces[j].At()
  {
    hide GameInv, ResolveBuk, HasActive, BukMoves;
    BukExact(rules, game, team, ticket);
    var after := ResolveBuk(rules, game, team, ticket).value.0;
    assert BukLands(rules, game, after, team, ticket, i) && BukLands(rules, game, after, team, ticket, j);
    AlliesTakenAlike(rules, game, team, ticket, i, j);
    hide BukTakes;
  }

  lemma AlliesTakenAlike(rules: Rules, game: GameState, team: Team, ticket: nat, i: nat, j: nat)
    requires GameInv(rules, game)
    requires i < |game.pieces| && j < |game.pieces| && Together(game.pieces[i], game.pieces[j])
    ensures game.pieces[i].At() == game.pieces[j].At() && game.pieces[i].state != Waiting
    ensures BukTakes(rules, game, team, ticket, i) <==> BukTakes(rules, game, team, ticket, j)
  {
    hide ValidGraph, Apart, SharedHistory, Roster, WinnerOk, Graph.Spaces;
    assert PieceOk(rules.graph, game.pieces[i]) && PieceOk(rules.graph, game.pieces[j]);
    SameSpaceSameState(rules.graph, game.pieces[i], game.pieces[j]);
    var waiting := WaitingIndices(game.pieces, team);
    if ticket < |waiting| {
      assert waiting[ticket] in waiting;
    }
  }

  lemma SharedAfter(rules: Rules, game: GameState, i: nat, j: nat)
    requires GameInv(rules, game) && rules.settings.stackingEnabled
    requires i < |game.pieces| && j < |game.pieces| && game.pieces[i].team == game.pieces[j].team
    requires game.pieces[i].At() == game.pieces[j].At()
    ensures game.pieces[i].previous == game.pieces[j].previous
  {
    hide ValidGraph, Apart, Roster, WinnerOk, Graph.Spaces;
    assert PieceOk(rules.graph, game.pieces[i]) && PieceOk(rules.graph, game.pieces[j]);
    NoSpaceUnknown(rules.graph);
    StartIsHome(rules.graph);
  }

  ghost predicate SameFate(p: Piece, q: Piece) {
    p.state == q.state && p.space == q.space && p.previous == q.previous
  }

  /** No call changes who a piece is, and finished pieces stay exactly as they are. */
  lemma TeamsNeverChange(rules: Rules, game: GameState, call: Call, i: nat)
    requires GameInv(rules, game) && i < |game.pieces| == |After(rules, game, call).pieces|
    ensures After(rules, game, call).pieces[i].team == game.pieces[i].team
    ensures After(rules, game, call).pieces[i].id == game.pieces[i].id
    ensures game.pieces[i].state == Finished ==> After(rules, game, call).pieces[i] == game.pieces[i]
  {
    hide GameInv, BukGroups, ApplyGroups, HasActive, SelectedIDs, DecideOrdinary, DecideBackdo, BukMoves, Relocate,
      IndicesAt, IDsOf, Captured, Allies, BukTakes;
    match call {
      case OrdinaryCall(team, id, result, route) =>
        if DecideOrdinary(rules, game, team, id, result, route).Ok? {
          OrdinaryCallRelocates(rules, game, team, id, result, route);
          RelocateEffect(rules, game.pieces, team, DecideOrdinary(rules, game, team, id, result, route).value.plan, i);
        }
      case BackdoCall(team, id) =>
        if DecideBackdo(rules, game, team, id).Ok? {
          BackdoCallRelocates(rules, game, team, id);
          RelocateEffect(rules, game.pieces, team, DecideBackdo(rules, game, team, id).value.plan, i);
        }
      case BukCall(team, ticket) =>
        if game.winner == None && rules.settings.bukModeEnabled {
          BukExact(rules, game, team, ticket);
          if game.pieces[i].state == Finished {
            FinishedNotTaken(rules, game, team, ticket, i);
          }
          if ResolveBuk(rules, game, team, ticket).Ok? {
            assert BukLands(rules, game, After(rules, game, call), team, ticket, i);
          }
        }
    }
  }

  lemma FinishedNotTaken(rules: Rules, game: GameState, team: Team, ticket: nat, i: nat)
    requires i < |game.pieces| && game.pieces[i].state == Finished
    ensures !BukTakes(rules, game, team, ticket, i)
  {
    var waiting := WaitingIndices(game.pieces, team);
    if ticket < |waiting| {
      assert waiting[ticket] in waiting;
    }
  }

  /** With stacking on, two allies that share a space share their fate at the next call: they move
      together, are captured together or finish together. */
  lemma AlliesShareFate(rules: Rules, game: GameState, call: Call, i: nat, j: nat)
    requires GameInv(rules, game) && rules.settings.stackingEnabled
    requires i < |game.pieces| && j < |game.pieces| && Together(game.pieces[i], game.pieces[j])
    ensures |After(rules, game, call).pieces| == |game.pieces|
    ensures SameFate(After(rules, game, call).pieces[i], After(rules, game, call).pieces[j])
  {
    hide GameInv, IsRelocation, ApplyResolution, BukGroups, ApplyGroups, SelectedIDs, DecideOrdinary, DecideBackdo;
    CallKeepsInv(rules, game, call);
    TeamsNeverChange(rules, game, call, i);
    TeamsNeverChange(rules, game, call, j);
    AlliesTakenAlike(rules, game, TeamA, 0, i, j);
    match call {
      case OrdinaryCall(team, id, result, route) =>
        if DecideOrdinary(rules, game, team, id, result, route).Ok? {
          OrdinaryCallRelocates(rules, game, team, id, result, route);
          RelocationKeepsTogether(rules, game, After(rules, game, call), team,
            DecideOrdinary(rules, game, team, id, result, route).value.plan, i, j);
        }
      case BackdoCall(team, id) =>
        if DecideBackdo(rules, game, team, id).Ok? {
          BackdoCallRelocates(rules, game, team, id);
          RelocationKeepsTogether(rules, game, After(rules, game, call), team,
            DecideBackdo(rules, game, team, id).value.plan, i, j);
        }
      case BukCall(team, ticket) =>
        if ResolveBuk(rules, game, team, ticket).Ok? {
          BukKeepsTogether(rules, game, team, ticket, i, j);
        }
    }
    SharedAfter(rules, After(rules, game, call), i, j);
  }

  /** The call takes both allies off the board: both were captured, or both finished. */
  ghost predicate LeaveTogether(before: GameState, after: GameState, i: nat, j: nat) {
    && i < |before.pieces| == |after.pieces| && j < |before.pieces|
    && Together(before.pieces[i], before.pieces[j])
    && SameFate(after.pieces[i], after.pieces[j])
    && (after.pieces[i].state == Waiting || after.pieces[i].state == Finished)
  }

  /** The allies leave together at the call numbered n. */
  ghost predicate LeavesAt(rules: Rules, game: GameState, calls: seq<Call>, n: nat, i: nat, j: nat) {
    n < |calls| && LeaveTogether(Run(rules, game, calls[..n]), Run(rules, game, calls[..n + 1]), i, j)
  }

  lemma AlliesGoOn(rules: Rules, game: GameState, call: Call, i: nat, j: nat)
    requires GameInv(rules, game) && rules.settings.stackingEnabled
    requires i < |game.pieces| && j < |game.pieces| && Together(game.pieces[i], game.pieces[j])
    ensures var after := After(rules, game, call);
      && GameInv(rules, after) && |after.pieces| == |game.pieces|
      && (Together(after.pieces[i], after.pieces[j]) || LeaveTogether(game, after, i, j))
  {
    hide After;
    var after := After(rules, game, call);
    CallKeepsInv(rules, game, call);
    TeamsNeverChange(rules, game, call, i);
    TeamsNeverChange(rules, game, call, j);
    AlliesShareFate(rules, game, call, i, j);
    OffBoardExactly(rules, after, i);
    hide GameInv;
  }

  lemma OffBoardExactly(rules: Rules, game: GameState, i: nat)
    requires GameInv(rules, game) && i < |game.pieces|
    ensures game.pieces[i].space == NoSpace <==> game.pieces[i].state == Waiting || game.pieces[i].state == Finished
  {
    hide ValidGraph, Apart, SharedHistory, Roster, WinnerOk, Graph.Spaces;
    assert PieceOk(rules.graph, game.pieces[i]);
    NoSpaceUnknown(rules.graph);
    StartIsHome(rules.graph);
  }

  /** With stacking on, two allies that share a space stay together whatever is played, until one call
      captures or finishes both. */
  lemma {:induction false} AlliesStayTogether(rules: Rules, game: GameState, calls: seq<Call>, i: nat, j: nat)
    requires GameInv(rules, game) && rules.settings.stackingEnabled
    requires i < |game.pieces| && j < |game.pieces| && Together(game.pieces[i], game.pieces[j])
    ensures |Run(rules, game, calls).pieces| == |game.pieces|
    ensures Together(Run(rules, game, calls).pieces[i], Run(rules, game, calls).pieces[j])
      || exists n: nat :: LeavesAt(rules, game, calls, n, i, j)
    decreases |calls|
  {
    hide GameInv, After, LeaveTogether;
    if calls != [] {
      RunKeepsPieces(rules, game, calls);
      var next := After(rules, game, calls[0]);
      AlliesGoOn(rules, game, calls[0], i, j);
      if Together(next.pieces[i], next.pieces[j]) {
        AlliesStayTogether(rules, next, calls[1..], i, j);
        if n: nat :| LeavesAt(rules, next, calls[1..], n, i, j) {
          RunPrefix(rules, game, calls, n);
          RunPrefix(rules, game, calls, n + 1);
          assert LeavesAt(rules, game, calls, n + 1, i, j);
        }
      } else {
        RunPrefix(rules, game, calls, 0);
        assert calls[1..][..0] == [] && calls[..0] == [];
        assert LeavesAt(rules, game, calls, 0, i, j);
      }
    }
  }

  lemma RunPrefix(rules: Rules, game: GameState, calls: seq<Call>, n: nat)
    requires n < |calls|
    ensures Run(rules, game, calls[..n + 1]) == Run(rules, After(rules, game, calls[0]), calls[1..][..n])
  {
    hide After;
    assert calls[..n + 1][1..] == calls[1..][..n];
  }

  lemma {:induction false} RunKeepsPieces(rules: Rules, game: GameState, calls: seq<Call>)
    requires GameInv(rules, game)
    ensures |Run(rules, game, calls).pieces| == |game.pieces|
    decreases |calls|
  {
    hide GameInv, After;
    if calls != [] {
      CallKeepsInv(rules, game, calls[0]);
      RunKeepsPieces(rules, After(rules, game, calls[0]), calls[1..]);
    }
  }

  /** So it does not matter which member of a stack is selected: the moving group, the available
      Backdo and the offered plans are the same for all of them. */
  lemma SelectionIndifferent(rules: Rules, game: GameState, team: Team, id: PieceID, other: PieceID, result: YutResult)
    requires GameInv(rules, game) && rules.settings.stackingEnabled && game.winner == None
    requires OwnedIndex(game.pieces, team, id).Ok? && OwnedIndex(game.pieces, team, other).Ok?
    requires Together(game.pieces[OwnedIndex(game.pieces, team, id).value],
      game.pieces[OwnedIndex(game.pieces, team, other).value])
    ensures SameDecision(DecideBackdo(rules, game, team, id), DecideBackdo(rules, game, team, other))
    ensures forall route :: SameDecision(
      DecideOrdinary(rules, game, team, id, result, route), DecideOrdinary(rules, game, team, other, result, route))
  {
    hide GameInv, ForwardPlans, Reversal, PlansAccepted, BackdoAccepted;
    var i, j := OwnedIndex(game.pieces, team, id).value, OwnedIndex(game.pieces, team, other).value;
    AlliesTakenAlike(rules, game, team, 0, i, j);
    SharedAfter(rules, game, i, j);
  }

  predicate SameDecision(a: Outcome<Decision, GameError>, b: Outcome<Decision, GameError>) {
    match (a, b)
    case (Ok(x), Ok(y)) => x.plan == y.plan
    case (Err(e), Err(f)) => e == f
    case (Ok(_), Err(_)) => false
    case (Err(_), Ok(_)) => false
  }

  // ----- Captures and the opponent's presence on the board -----

  function ActiveBelow(pieces: seq<Piece>, team: Team, n: nat): nat
    requires n <= |pieces|
  {
    if n == 0 then 0
    else ActiveBelow(pieces, team, n - 1) + (if OnBoardPiece(pieces, team, n - 1) then 1 else 0)
  }

  /** How many pieces of a team stand on the board. */
  function ActiveCount(pieces: seq<Piece>, team: Team): nat {
    ActiveBelow(pieces, team, |pieces|)
  }

  /** Counting is monotone, and strictly so where a piece left the board. */
  lemma {:induction false} ActiveBelowFalls(before: seq<Piece>, after: seq<Piece>, team: Team, n: nat)
    requires n <= |before| == |after|
    requires forall i: nat :: i < n && OnBoardPiece(after, team, i) ==> OnBoardPiece(before, team, i)
    ensures ActiveBelow(after, team, n) <= ActiveBelow(before, team, n)
    ensures (exists i: nat :: i < n && OnBoardPiece(before, team, i) && !OnBoardPiece(after, team, i)) ==>
      ActiveBelow(after, team, n) < ActiveBelow(before, team, n)
  {
    if n > 0 {
      ActiveBelowFalls(before, after, team, n - 1);
    }
  }

  ghost predicate LeftBoard(before: seq<Piece>, after: seq<Piece>, team: Team) {
    exists i: nat :: i < |before| && OnBoardPiece(before, team, i) && !OnBoardPiece(after, team, i)
  }

  ghost predicate NoneEntered(before: seq<Piece>, after: seq<Piece>, team: Team) {
    |before| == |after| && forall i: nat :: OnBoardPiece(after, team, i) ==> OnBoardPiece(before, team, i)
  }

  /** A relocation never puts an opponent on the board, and a capture takes one off. */
  lemma RelocationCaptures(rules: Rules, pieces: seq<Piece>, team: Team, plan: Resolution)
    requires ResolutionOk(rules.graph, pieces, team, plan)
    ensures NoneEntered(pieces, Relocate(rules, pieces, team, plan), Opponent(team))
    ensures Captured(pieces, team, plan) != [] ==>
      LeftBoard(pieces, Relocate(rules, pieces, team, plan), Opponent(team))
  {
    hide Relocate, ResolutionOk;
    var after := Relocate(rules, pieces, team, plan);
    PlanStays(rules, pieces, team, plan);
    forall i: nat | i < |pieces| && pieces[i].team == Opponent(team)
      ensures after[i] == if AtDestination(pieces[i], plan) then SentHome(pieces[i]) else pieces[i]
      ensures after[i].team == pieces[i].team
    {
      RelocateEffect(rules, pieces, team, plan, i);
    }
    forall i: nat | i < |pieces|
      ensures after[i].team == pieces[i].team
    {
      RelocateEffect(rules, pieces, team, plan, i);
    }
    var captured := Captured(pieces, team, plan);
    if captured != [] {
      var k := captured[0];
      assert k in captured;
      assert OnBoardPiece(pieces, Opponent(team), k) && !OnBoardPiece(after, Opponent(team), k);
    }
  }

  lemma PlanStays(rules: Rules, pieces: seq<Piece>, team: Team, plan: Resolution)
    requires ResolutionOk(rules.graph, pieces, team, plan)
    ensures plan.state != Waiting
    ensures forall i :: i in plan.moving ==> i < |pieces| && pieces[i].team == team
  {
    hide Graph.Spaces, ValidPosition;
  }

  /** An extra throw for a capture is granted only when the opponent lost a piece from the board. */
  lemma ResolutionCaptures(rules: Rules, game: GameState, team: Team, selected: nat, result: YutResult,
      plan: Resolution)
    requires selected < |game.pieces| && ResolutionOk(rules.graph, game.pieces, team, plan)
    ensures var (after, outcome) := ApplyResolution(rules, game, team, selected, result, plan);
      && ActiveCount(after.pieces, Opponent(team)) <= ActiveCount(game.pieces, Opponent(team))
      && (outcome.captureExtraThrow ==>
        ActiveCount(after.pieces, Opponent(team)) < ActiveCount(game.pieces, Opponent(team)))
  {
    hide ResolutionOk, Relocate, IndicesAt, IDsOf, Allies, Captured, OnBoardPiece;
    RelocationCaptures(rules, game.pieces, team, plan);
    ActiveBelowFalls(game.pieces, Relocate(rules, game.pieces, team, plan), Opponent(team), |game.pieces|);
  }

  lemma {:induction false} GroupsCapture(rules: Rules, game: GameState, team: Team, groups: seq<Group>)
    requires GameInv(rules, game) && game.winner == None && rules.settings.bukModeEnabled
    requires GroupsValid(game.pieces, groups) && GroupsStand(game.pieces, team, groups)
    ensures var (after, moves) := ApplyGroups(rules, game, team, groups);
      && ActiveCount(after.pieces, Opponent(team)) <= ActiveCount(game.pieces, Opponent(team))
      && ((exists m :: m in moves && m.captureExtraThrow) ==>
        ActiveCount(after.pieces, Opponent(team)) < ActiveCount(game.pieces, Opponent(team)))
    decreases |groups|
  {
    hide GameInv, GroupsStand, GroupStands, Relocate, ActiveCount, ResolutionOk;
    if groups != [] {
      OneGroupStands(game.pieces, team, groups);
      if AlreadyThere(game, groups[0]) {
        GroupsCapture(rules, game, team, groups[1..]);
      } else {
        var plan := BukResolution(game.bukDestination, groups[0]);
        assert groups[0] in groups;
        BukIsResolution(rules, game, team, groups[0]);
        BukStep(rules, game, team, groups[0]);
        LaterGroupsStand(rules, game, team, groups);
        var (first, move) := ApplyResolution(rules, game, team, groups[0].indices[0], Buk, plan);
        ResolutionCaptures(rules, game, team, groups[0].indices[0], Buk, plan);
        GroupsCapture(rules, first, team, groups[1..]);
      }
    }
  }
}
