/** How a new game on the checked-in board comes to the turn that ends in the dead end. */
module DeadEndOpening {
  import opened Domain
  import opened BoardForward
  import opened BoardValidate
  import opened CanonicalBoard
  import opened MatchRules
  import opened MatchInvariants
  import opened MatchRuns
  import opened MatchFlow
  import opened MatchWholeTurn
  import opened DeadEndRun

  const A_WAITS := Piece(1, TeamA, Waiting, NoSpace, NoSpace)
  const A_CORNER := Piece(1, TeamA, OnBoard, Space(5), Space(4))
  const B_CORNER := Piece(3, TeamB, OnBoard, Space(5), Space(4))
  const B_INSIDE := Piece(3, TeamB, OnBoard, Space(21), Space(20))

  /** A new game: every piece waits. */
  const OPENING := Game(A_WAITS, B_HOME)

  /** B throws Mo and Gae, A throws Mo and Do, and B throws Geol. */
  const CALLS: seq<Call> := [
    OrdinaryCall(TeamB, 3, Mo, None), OrdinaryCall(TeamB, 3, Gae, None),
    OrdinaryCall(TeamA, 1, Mo, None), OrdinaryCall(TeamA, 1, Do, None),
    OrdinaryCall(TeamB, 3, Geol, None)]

  lemma OpeningIsValid()
    ensures GameInv(RULES, OPENING) && forall p :: p in OPENING.pieces ==> p.state == Waiting
  {
    hide BOARD, ValidGraph;
    BoardIsValid();
    Known(Space(11));
    HomeOfBoard();
    assert OPENING.pieces[0].team == TeamA && OPENING.pieces[2].team == TeamB;
    assert OPENING.pieces[0].state != Finished && OPENING.pieces[2].state != Finished;
  }

  // ----- The plans -----

  /** One forced step of a plan that has not reached home. */
  lemma Strides(h: Heading, spaces: nat, k: nat, next: nat, previous: SpaceID, walk: seq<SpaceID>)
    requires k < 29 && next == Towards(Forced, k) && h.forceShortcuts && |walk| < spaces
    requires walk == [] ==> h.first == NoSpace
    requires walk != [] ==> SpaceAt(k) != Space(0)
    ensures Travel(BOARD, h, spaces, SpaceAt(k), previous, walk) ==
      Travel(BOARD, h, spaces, SpaceAt(next), SpaceAt(k), walk + [SpaceAt(next)])
  {
    hide BOARD, NextSpace, Towards;
    HomeOfBoard();
    ForcedNext(h, k, |walk|);
  }

  lemma Arrives(h: Heading, spaces: nat, at: SpaceID, previous: SpaceID, walk: seq<SpaceID>)
    requires |walk| == spaces && at != Space(0)
    ensures Travel(BOARD, h, spaces, at, previous, walk) ==
      Ok(ForwardPlan(h.route, Position(OnBoard, at), previous, walk))
  {
    hide BOARD;
    HomeOfBoard();
  }

  const TO_CORNER :=
    ForwardPlan(Normal, Position(OnBoard, Space(5)), Space(4), [Space(1), Space(2), Space(3), Space(4), Space(5)])
  const TURNING := ForwardPlan(Shortcut, Position(OnBoard, Space(20)), Space(5), [Space(20)])
  const INWARD := ForwardPlan(Shortcut, Position(OnBoard, Space(21)), Space(20), [Space(20), Space(21)])
  const ACROSS := ForwardPlan(Normal, Position(OnBoard, Space(28)), Space(27), [Bang, Space(27), Space(28)])

  lemma CornerPlan()
    ensures ForwardPlans(BOARD, Position(Waiting, NoSpace), 5, Forced) == Ok([TO_CORNER])
  {
    hide BOARD, Travel;
    var h := Heading(Normal, NoSpace, true, false);
    HomeOfBoard();
    NoChoiceAt(0);
    var walk := TO_CORNER.traversed;
    Strides(h, 5, 0, 1, NoSpace, []);
    Strides(h, 5, 1, 2, Space(0), walk[..1]);
    Strides(h, 5, 2, 3, Space(1), walk[..2]);
    Strides(h, 5, 3, 4, Space(2), walk[..3]);
    Strides(h, 5, 4, 5, Space(3), walk[..4]);
    assert [] + [Space(1)] == walk[..1] && walk[..1] + [Space(2)] == walk[..2] && walk[..2] + [Space(3)] == walk[..3]
      && walk[..3] + [Space(4)] == walk[..4] && walk[..4] + [Space(5)] == walk;
    Arrives(h, 5, Space(5), Space(4), walk);
    OneHeading(Space(0), 5, h, TO_CORNER);
  }

  /** A single heading gives a single plan. */
  lemma OneHeading(origin: SpaceID, spaces: nat, h: Heading, plan: ForwardPlan)
    requires Travel(BOARD, h, spaces, origin, NoSpace, []) == Ok(plan)
    ensures Plans(BOARD, [h], origin, spaces) == Ok([plan])
  {
    hide BOARD, Travel;
    assert [h][1..] == [] && [plan] + [] == [plan];
    assert Plans(BOARD, [], origin, spaces) == Ok([]);
  }

  lemma TurningPlans()
    ensures ForwardPlans(BOARD, A_CORNER.At(), 1, Forced) == Ok([TURNING])
    ensures ForwardPlans(BOARD, B_CORNER.At(), 2, Forced) == Ok([INWARD])
  {
    hide BOARD, Travel;
    var h := Heading(Shortcut, Space(20), true, false);
    HomeOfBoard();
    Known(Space(5));
    ChoiceAt(5);
    FirstStride(h, 1, Space(5));
    FirstStride(h, 2, Space(5));
    Arrives(h, 1, Space(20), Space(5), [Space(20)]);
    Strides(h, 2, 20, 21, Space(5), [Space(20)]);
    assert [Space(20)] + [Space(21)] == INWARD.traversed;
    Arrives(h, 2, Space(21), Space(20), INWARD.traversed);
    OneHeading(Space(5), 1, h, TURNING);
    OneHeading(Space(5), 2, h, INWARD);
  }

  /** The first step of a plan that takes a shortcut. */
  lemma FirstStride(h: Heading, spaces: nat, origin: SpaceID)
    requires spaces > 0 && h.first != NoSpace
    ensures Travel(BOARD, h, spaces, origin, NoSpace, []) == Travel(BOARD, h, spaces, h.first, origin, [h.first])
  {
    hide BOARD;
    assert [] + [h.first] == [h.first];
  }

  lemma AcrossPlan()
    ensures ForwardPlans(BOARD, B_INSIDE.At(), 3, Forced) == Ok([ACROSS])
  {
    hide BOARD, Travel;
    var h := Heading(Normal, NoSpace, true, false);
    HomeOfBoard();
    Known(Space(21));
    NoChoiceAt(21);
    var walk := ACROSS.traversed;
    Strides(h, 3, 21, 24, NoSpace, []);
    Strides(h, 3, 24, 27, Space(21), walk[..1]);
    Strides(h, 3, 27, 28, Bang, walk[..2]);
    assert [] + [Bang] == walk[..1] && walk[..1] + [Space(27)] == walk[..2] && walk[..2] + [Space(28)] == walk;
    Arrives(h, 3, Space(28), Space(27), walk);
    OneHeading(Space(21), 3, h, ACROSS);
  }

  // ----- The moves -----

  /** A move with one plan onto a space without opponents moves that piece and nothing else. */
  lemma Plays(a: Piece, b: Piece, i: nat, moved: Piece, result: YutResult, spaces: nat, plan: ForwardPlan)
    requires GameInv(RULES, Game(a, b)) && a.team == TeamA && b.team == TeamB && (i == 0 || i == 2)
    requires Pieces(a, b)[i].state != Finished && OrdinarySpaces(result) == Some(spaces)
    requires ForwardPlans(BOARD, Pieces(a, b)[i].At(), spaces, Forced) == Ok([plan])
    requires plan.destination.state == OnBoard && plan.destination.space != NoSpace
    requires a.At() != plan.destination && b.At() != plan.destination
    requires moved ==
      Pieces(a, b)[i].(state := OnBoard, space := plan.destination.space, previous := plan.actualPrevious)
    ensures MatchRuns.After(RULES, Game(a, b), OrdinaryCall(moved.team, moved.id, result, None)) ==
      Game(if i == 0 then moved else a, if i == 2 then moved else b)
  {
    hide BOARD, GameInv, ForwardPlans, OrdinaryPlans, Relocate, IDsOf, IndicesAt, Allies, Captured, AllFinished;
    var game := Game(a, b);
    var after := Pieces(if i == 0 then moved else a, if i == 2 then moved else b);
    SinglePlan(game, i, result, spaces, plan);
    RelocatesTo(game.pieces, after, i, ForwardResolution(plan, [i]));
    assert after[1].state != Finished && after[3].state != Finished;
    SecondsWait(after);
  }

  lemma SecondsWait(pieces: seq<Piece>)
    requires |pieces| == 4 && pieces[1].team == TeamA && pieces[3].team == TeamB
    requires pieces[1].state != Finished && pieces[3].state != Finished
    ensures !AllFinished(pieces, TeamA) && !AllFinished(pieces, TeamB)
  {
  }

  /** The game after k calls. */
  function GameAt(k: nat): GameState {
    if k == 0 then OPENING
    else if k == 1 then Game(A_WAITS, B_CORNER)
    else if k == 2 then Game(A_WAITS, B_INSIDE)
    else if k == 3 then Game(A_CORNER, B_INSIDE)
    else if k == 4 then Game(A_FAR, B_INSIDE)
    else START
  }

  lemma CallAt(k: nat)
    requires k < 5 && GameInv(RULES, GameAt(k))
    ensures MatchRuns.After(RULES, GameAt(k), CALLS[k]) == GameAt(k + 1) && GameInv(RULES, GameAt(k + 1))
  {
    hide BOARD, GameInv, ForwardPlans, MatchRuns.After;
    CallKeepsInv(RULES, GameAt(k), CALLS[k]);
    match k {
      case 0 =>
        CornerPlan();
        Plays(A_WAITS, B_HOME, 2, B_CORNER, Mo, 5, TO_CORNER);
      case 1 =>
        TurningPlans();
        Plays(A_WAITS, B_CORNER, 2, B_INSIDE, Gae, 2, INWARD);
      case 2 =>
        CornerPlan();
        Plays(A_WAITS, B_INSIDE, 0, A_CORNER, Mo, 5, TO_CORNER);
      case 3 =>
        TurningPlans();
        Plays(A_CORNER, B_INSIDE, 0, A_FAR, Do, 1, TURNING);
      case _ =>
        AcrossPlan();
        Plays(A_FAR, B_INSIDE, 2, B_NEAR, Geol, 3, ACROSS);
    }
  }

  lemma {:induction false} RunFromCall(k: nat)
    requires k <= 5 && GameInv(RULES, GameAt(k))
    ensures MatchRuns.Run(RULES, GameAt(k), CALLS[k..]) == START
    decreases 5 - k
  {
    hide BOARD, GameInv, MatchRuns.After, GameAt;
    if k < 5 {
      CallAt(k);
      RunFromCall(k + 1);
      assert CALLS[k..][0] == CALLS[k] && CALLS[k..][1..] == CALLS[k + 1..];
    } else {
      assert CALLS[5..] == [];
      LastGame();
    }
  }

  lemma LastGame()
    ensures GameAt(5) == START
  {
  }

  /** From a new game five moves lead to the start of that turn, and nine steps of the turn to the dead end. */
  lemma NewGameReachesDeadEnd()
    ensures GameInv(RULES, OPENING) && forall p :: p in OPENING.pieces ==> p.state == Waiting
    ensures MatchRuns.Run(RULES, OPENING, CALLS) == START
    ensures var f := NewFlow(RULES, START, TeamA, 7, 0);
      Accepted(RULES, f, STEPS) && DeadEnd(RunSteps(RULES, f, STEPS))
  {
    hide BOARD, GameInv, MatchRuns.After, Accepted, RunSteps, DeadEnd;
    OpeningIsValid();
    RunFromCall(0);
    assert CALLS[0..] == CALLS;
    DeadEndIsReachable();
  }
}
