/** When a turn accepts a call, and in which order it uses its results. */
module TurnLaws {
  import opened Domain
  import opened TurnQueue
  import opened TurnMachine

  /** A queued result that may be used next: a Buk before anything else, then the first or any, by the order. */
  ghost predicate MayBeUsed(t: Turn, x: Token) {
    && x in t.queue.tokens
    && (x.result != Buk ==> t.NoBuk() && (t.order == Fifo ==> x == t.queue.tokens[0]))
  }

  lemma ExposedExactly(t: Turn, x: Token)
    requires t.Inv()
    ensures x in Available(t.queue.tokens, t.order) <==> MayBeUsed(t, x)
  {
    hide Turn.PhaseInv, Turn.SelectionExposed;
    var buk := FirstBuk(t.queue.tokens);
    if buk < |t.queue.tokens| {
      assert t.queue.tokens[buk] in t.queue.tokens;
      if x in t.queue.tokens && x.result == Buk {
        var i :| 0 <= i < |t.queue.tokens| && t.queue.tokens[i] == x;
        assert i == buk;
      }
    } else {
      assert forall y :: y in t.queue.tokens ==> y.result != Buk;
    }
  }

  /** A call is accepted exactly in its phase and for the token it is about. */
  ghost predicate MayCall(t: Turn, a: Action) {
    match a
    case CallStart => t.phase == Phase.TurnStart
    case CallBeginThrow => t.phase == Phase.WaitThrow
    case CallRecordThrow(token) =>
      && t.phase == Phase.ThrowingChain && token.id != 0 && token.player == t.player
      && t.expectedOrigin == Some(token.origin) && token.id !in t.queue.seen
    case CallResolveQueue => t.phase == Phase.ResolveQueue
    case CallSelectMove(id, _) =>
      t.phase == Phase.WaitMoveSelection && exists x :: MayBeUsed(t, x) && x.id == id && x.result != Buk
    case CallRouteSelected(id) => t.phase == Phase.WaitRouteSelection && id == t.selected
    case CallMoveApplied(id) => t.phase == Phase.ApplyMove && id == t.selected
    case CallCompleteMove(id, move) =>
      t.phase == Phase.ResolveStackCaptureFinish && id == t.selected && !(move.captureExtraThrow && move.matchEnded)
    case CallDiscard(id) =>
      t.phase == Phase.WaitMoveSelection && exists x :: MayBeUsed(t, x) && x.id == id && x.result != Buk
    case CallCompleteBuk(id, buk) =>
      && t.phase == Phase.ResolveBuk && id == t.selected
      && !(buk.noCandidate && (buk.captureExtraThrow || buk.matchEnded)) && !(buk.captureExtraThrow && buk.matchEnded)
  }

  lemma MovableExactly(t: Turn, id: TokenID)
    requires t.Inv()
    ensures t.Movable(id) <==> exists x :: MayBeUsed(t, x) && x.id == id && x.result != Buk
  {
    hide Turn.Inv, Available, MayBeUsed;
    var available := Available(t.queue.tokens, t.order);
    if t.Movable(id) {
      var i :| 0 <= i < |available| && available[i].id == id && available[i].result != Buk;
      assert available[i] in available;
      ExposedExactly(t, available[i]);
    }
    if x :| MayBeUsed(t, x) && x.id == id && x.result != Buk {
      ExposedExactly(t, x);
      var i :| 0 <= i < |available| && available[i] == x;
      assert available[i].id == id;
    }
  }

  lemma ThrowRoom(t: Turn, token: Token)
    requires t.Inv() && t.phase == Phase.ThrowingChain && token.Valid() && token.id !in t.queue.seen
    ensures t.queue.Append(token).Ok?
  {
    hide Turn.SelectionExposed;
    assert t.NoBuk();
    assert FirstBuk(t.queue.tokens) == |t.queue.tokens|;
  }

  /** Whatever was called before, a call is accepted exactly when it may be made. */
  lemma AcceptedExactly(t: Turn, a: Action)
    requires t.Inv()
    ensures Perform(t, a).Ok? <==> MayCall(t, a)
  {
    hide MayBeUsed, Available, Turn.Movable;
    match a {
      case CallRecordThrow(token) =>
        PlayerNamed(t);
        if MayCall(t, a) {
          ThrowRoom(t, token);
        }
      case CallSelectMove(id, _) => MovableExactly(t, id);
      case CallDiscard(id) =>
        MovableExactly(t, id);
        if t.Movable(id) {
          MovableIsConsumable(t, id);
        }
      case CallCompleteMove(id, _) =>
        if MayCall(t, a) {
          ConsumeLeavesNoBuk(t, id);
        }
      case CallCompleteBuk(id, _) =>
        if MayCall(t, a) {
          ConsumeLeavesNoBuk(t, id);
        }
      case _ =>
    }
  }

  lemma PlayerNamed(t: Turn)
    requires t.Inv()
    ensures t.player != 0
  {
    hide Turn.SelectionExposed;
  }

  /** Where a turn goes on after a result was used. */
  function Onwards(t: Turn, earns: bool, ends: bool): Phase {
    if ends then Phase.MatchEnd
    else if earns && !t.capped then Phase.WaitThrow
    else Phase.ResolveQueue
  }

  /** The phase that an accepted call leads to. */
  ghost function PhaseAfter(t: Turn, a: Action): Phase {
    match a
    case CallStart => Phase.WaitThrow
    case CallBeginThrow => Phase.ThrowingChain
    case CallRecordThrow(token) =>
      var full := t.capped || |t.queue.tokens| + 1 == MAX_TOKENS;
      if t.yutMoExtra && (token.result == Yut || token.result == Mo) && !full then Phase.WaitThrow
        else Phase.ResolveQueue
    case CallResolveQueue =>
      if t.queue.tokens == [] then Phase.TurnEnd
      else if t.NoBuk() then Phase.WaitMoveSelection
      else Phase.ResolveBuk
    case CallSelectMove(_, routeRequired) => if routeRequired then Phase.WaitRouteSelection else Phase.ApplyMove
    case CallRouteSelected(_) => Phase.ApplyMove
    case CallMoveApplied(_) => Phase.ResolveStackCaptureFinish
    case CallCompleteMove(_, move) => Onwards(t, move.captureExtraThrow, move.matchEnded)
    case CallDiscard(_) => Phase.ResolveQueue
    case CallCompleteBuk(_, buk) =>
      if buk.noCandidate then Phase.TurnEnd else Onwards(t, buk.captureExtraThrow, buk.matchEnded)
  }

  /** Every accepted call leads to its phase. */
  lemma PhaseFollows(t: Turn, a: Action)
    requires t.Inv() && Perform(t, a).Ok?
    ensures Perform(t, a).value.phase == PhaseAfter(t, a)
  {
    hide Turn.Movable, Turn.SelectionExposed, Queue.Consume;
    if a.CallResolveQueue? {
      var buk := FirstBuk(t.queue.tokens);
      if buk < |t.queue.tokens| {
        assert t.queue.tokens[buk] in t.queue.tokens;
      } else {
        assert t.NoBuk();
        assert t.queue.tokens != [] ==> t.queue.tokens[0] in t.queue.tokens;
      }
    }
  }

  // ----- First in, first out -----

  /** The identifiers of the results that are not Buks, in order. */
  function Ordinary(tokens: seq<Token>): seq<TokenID> {
    if tokens == [] then [] else (if tokens[0].result != Buk then [tokens[0].id] else []) + Ordinary(tokens[1..])
  }

  function OrdinaryGenerated(t: Turn, a: Action): seq<TokenID> {
    if a.CallRecordThrow? && Perform(t, a).Ok? && a.token.result != Buk then [a.token.id] else []
  }

  function OrdinaryUsed(t: Turn, a: Action): seq<TokenID> {
    if (a.CallCompleteMove? || a.CallDiscard?) && Perform(t, a).Ok? then [a.id] else []
  }

  function AllOrdinaryGenerated(t: Turn, actions: seq<Action>): seq<TokenID>
    decreases |actions|
  {
    if actions == [] then []
      else OrdinaryGenerated(t, actions[0]) + AllOrdinaryGenerated(After(t, actions[0]), actions[1..])
  }

  function AllOrdinaryUsed(t: Turn, actions: seq<Action>): seq<TokenID>
    decreases |actions|
  {
    if actions == [] then [] else OrdinaryUsed(t, actions[0]) + AllOrdinaryUsed(After(t, actions[0]), actions[1..])
  }

  lemma {:induction false} OrdinaryConcat(a: seq<Token>, b: seq<Token>)
    ensures Ordinary(a + b) == Ordinary(a) + Ordinary(b)
  {
    if a == [] {
      assert a + b == b;
    } else {
      assert (a + b)[1..] == a[1..] + b;
      OrdinaryConcat(a[1..], b);
    }
  }

  lemma {:induction false} NoneOrdinary(tokens: seq<Token>)
    requires forall x :: x in tokens ==> x.result != Buk
    ensures |Ordinary(tokens)| == |tokens|
    ensures tokens != [] ==> Ordinary(tokens) == [tokens[0].id] + Ordinary(tokens[1..])
  {
    if tokens != [] {
      NoneOrdinary(tokens[1..]);
    }
  }

  lemma OrdinaryAround(tokens: seq<Token>, k: nat)
    requires k < |tokens|
    ensures Ordinary(tokens) == Ordinary(tokens[..k]) + (Ordinary([tokens[k]]) + Ordinary(tokens[k + 1..]))
    ensures Ordinary(Without(tokens, k)) == Ordinary(tokens[..k]) + Ordinary(tokens[k + 1..])
  {
    hide Ordinary;
    OrdinaryConcat(tokens[..k], [tokens[k]] + tokens[k + 1..]);
    OrdinaryConcat([tokens[k]], tokens[k + 1..]);
    OrdinaryConcat(tokens[..k], tokens[k + 1..]);
    assert tokens[..k] + ([tokens[k]] + tokens[k + 1..]) == tokens;
  }

  /** Using the first result takes it off the front; using a Buk leaves the others as they are. */
  lemma UsedLeaves(tokens: seq<Token>, k: nat)
    requires k < |tokens| && (tokens[k].result != Buk ==> k == 0)
    ensures Ordinary(tokens) ==
      (if tokens[k].result != Buk then [tokens[k].id] else []) + Ordinary(Without(tokens, k))
  {
    hide Ordinary, Without;
    OrdinaryAround(tokens, k);
    OneOrdinary(tokens[k]);
    if tokens[k].result != Buk {
      NothingOrdinary();
      assert tokens[..0] == [];
      assert [] + ([tokens[0].id] + Ordinary(tokens[1..])) == [tokens[0].id] + ([] + Ordinary(tokens[1..]));
    } else {
      assert [] + Ordinary(tokens[k + 1..]) == Ordinary(tokens[k + 1..]);
      assert [] + Ordinary(Without(tokens, k)) == Ordinary(Without(tokens, k));
    }
  }

  lemma ConsumedWithout(q: Queue, id: TokenID, order: MovementOrder)
    requires q.Consume(id, order).Ok?
    ensures var k := IndexOf(q.tokens, id);
      k < |q.tokens| && q.tokens[k].id == id && q.Consume(id, order).value.tokens == Without(q.tokens, k)
  {
    hide Available, Without;
  }

  predicate Uses(a: Action) {
    a.CallCompleteMove? || a.CallDiscard? || a.CallCompleteBuk?
  }

  lemma QueueAfter(t: Turn, a: Action)
    requires Perform(t, a).Ok?
    ensures var after := After(t, a).queue.tokens;
      && (a.CallRecordThrow? ==> after == t.queue.tokens + [a.token])
      && (Uses(a) ==> t.queue.Consume(a.id, t.order).Ok? && after == t.queue.Consume(a.id, t.order).value.tokens)
      && (!a.CallRecordThrow? && !Uses(a) ==> after == t.queue.tokens)
  {
    hide Available, Turn.Movable, Queue.Consume;
  }

  /** What a call does to the ordinary results, first in first out. */
  lemma FifoStep(t: Turn, a: Action)
    requires t.Inv() && t.order == Fifo
    ensures Ordinary(t.queue.tokens) + OrdinaryGenerated(t, a) ==
      OrdinaryUsed(t, a) + Ordinary(After(t, a).queue.tokens)
  {
    hide Ordinary, Turn.Inv, Without, Queue.Consume, Perform;
    var tokens, after := t.queue.tokens, After(t, a).queue.tokens;
    assert [] + Ordinary(tokens) == Ordinary(tokens) && Ordinary(tokens) + [] == Ordinary(tokens);
    assert [] + Ordinary(after) == Ordinary(after);
    if Perform(t, a).Ok? {
      QueueAfter(t, a);
      if a.CallRecordThrow? {
        OrdinaryConcat(tokens, [a.token]);
        OneOrdinary(a.token);
      } else if Uses(a) {
        ConsumedWithout(t.queue, a.id, t.order);
        var k := IndexOf(tokens, a.id);
        UsedToken(t, a, k);
        UsedLeaves(tokens, k);
      }
    }
  }

  lemma OneOrdinary(x: Token)
    ensures Ordinary([x]) == if x.result != Buk then [x.id] else []
  {
    assert [x][1..] == [];
  }

  lemma NothingOrdinary()
    ensures Ordinary([]) == []
  {
  }

  /** A move or a discard uses the first result, and a Buk uses a Buk. */
  lemma UsedToken(t: Turn, a: Action, k: nat)
    requires t.Inv() && t.order == Fifo && Perform(t, a).Ok?
    requires Uses(a) && k < |t.queue.tokens| && t.queue.tokens[k].id == a.id
    ensures a.CallCompleteBuk? <==> t.queue.tokens[k].result == Buk
    ensures !a.CallCompleteBuk? ==> k == 0
  {
    if a.CallDiscard? {
      MovableExactly(t, a.id);
      var x :| MayBeUsed(t, x) && x.id == a.id && x.result != Buk;
      var i :| 0 <= i < |t.queue.tokens| && t.queue.tokens[i] == x;
    } else {
      var x :| x in Available(t.queue.tokens, t.order) && x.id == t.selected
        && (x.result == Buk <==> t.phase == Phase.ResolveBuk);
      ExposedExactly(t, x);
      var i :| 0 <= i < |t.queue.tokens| && t.queue.tokens[i] == x;
    }
  }

  lemma {:induction false} FifoFrom(t: Turn, actions: seq<Action>)
    requires t.Inv() && t.order == Fifo
    ensures Ordinary(t.queue.tokens) + AllOrdinaryGenerated(t, actions) ==
      AllOrdinaryUsed(t, actions) + Ordinary(Run(t, actions).queue.tokens)
    decreases |actions|
  {
    hide Turn.Inv, Perform, After, OrdinaryGenerated, OrdinaryUsed, Ordinary;
    if actions == [] {
      assert Ordinary(t.queue.tokens) + [] == [] + Ordinary(t.queue.tokens);
    } else {
      var next := After(t, actions[0]);
      FifoStep(t, actions[0]);
      StepInv(t, actions[0]);
      SameOrder(t, actions[0]);
      FifoFrom(next, actions[1..]);
      var generated, used := OrdinaryGenerated(t, actions[0]), OrdinaryUsed(t, actions[0]);
      var g, u := AllOrdinaryGenerated(next, actions[1..]), AllOrdinaryUsed(next, actions[1..]);
      var last := Ordinary(Run(next, actions[1..]).queue.tokens);
      assert Ordinary(t.queue.tokens) + (generated + g) == Ordinary(t.queue.tokens) + generated + g;
      assert used + Ordinary(next.queue.tokens) + g == used + (Ordinary(next.queue.tokens) + g);
      assert used + (u + last) == used + u + last;
    }
  }

  lemma SameOrder(t: Turn, a: Action)
    ensures After(t, a).order == t.order
  {
    hide Available, Turn.Movable, Queue.Append, Queue.Consume;
  }

  /** First in, first out: whatever is called, the ordinary results are used in the order they were thrown,
      and the queue holds the rest of them in that order; a Buk is used before all of them. */
  lemma FirstInFirstOut(player: PlayerID, yutMoExtra: bool, actions: seq<Action>)
    requires player != 0
    ensures var t := NewTurn(player, Fifo, yutMoExtra);
      AllOrdinaryGenerated(t, actions) == AllOrdinaryUsed(t, actions) + Ordinary(Run(t, actions).queue.tokens)
  {
    var t := NewTurn(player, Fifo, yutMoExtra);
    FifoFrom(t, actions);
    assert [] + AllOrdinaryGenerated(t, actions) == AllOrdinaryGenerated(t, actions);
  }
}
