/** The phases of one turn: throwing, resolving the queue, choosing and applying moves. */
module TurnMachine {
  import opened Domain
  import opened TurnQueue

  datatype Phase =
    | TurnStart | WaitThrow | ThrowingChain | ResolveQueue
    | WaitMoveSelection | WaitRouteSelection | ApplyMove | ResolveStackCaptureFinish
    | ResolveBuk | TurnEnd | MatchEnd

  datatype RequiredInput = InputNone | InputThrow | InputSelectMove | InputSelectRoute

  /** The movement decisions a turn needs to know. */
  datatype MoveResult = MoveResult(captureExtraThrow: bool, matchEnded: bool) {
    predicate Valid() {
      !(captureExtraThrow && matchEnded)
    }
  }

  datatype BukResult = BukResult(noCandidate: bool, captureExtraThrow: bool, matchEnded: bool) {
    predicate Valid() {
      !(noCandidate && (captureExtraThrow || matchEnded)) && !(captureExtraThrow && matchEnded)
    }
  }

  /** The whole state of a turn machine as a value. */
  datatype Turn = Turn(
    player: PlayerID,
    order: MovementOrder,
    yutMoExtra: bool,
    phase: Phase,
    input: RequiredInput,
    expectedOrigin: Option<Origin>,
    selected: TokenID,
    queue: Queue,
    capped: bool)
  {
    function At(phase: Phase, input: RequiredInput, origin: Option<Origin>, selected: TokenID): Turn {
      this.(phase := phase, input := input, expectedOrigin := origin, selected := selected)
    }

    function Start(): Outcome<Turn, TurnError> {
      if phase != Phase.TurnStart then Err(InvalidTransition)
      else Ok(At(Phase.WaitThrow, InputThrow, Some(InitialThrow), 0))
    }

    function BeginThrow(): Outcome<Turn, TurnError> {
      if phase != Phase.WaitThrow then Err(InvalidTransition)
      else Ok(At(Phase.ThrowingChain, InputNone, expectedOrigin, 0))
    }

    function RecordThrow(token: Token): Outcome<Turn, TurnError> {
      if !token.Valid() then Err(InvalidToken)
      else if phase != Phase.ThrowingChain then Err(InvalidTransition)
      else if Some(token.origin) != expectedOrigin then Err(UnexpectedOrigin)
      else if token.player != player then Err(WrongPlayer)
      else
        match queue.Append(token)
        case Err(error) => Err(error)
        case Ok(q) =>
          var t := this.(queue := q, capped := capped || |q.tokens| >= MAX_TOKENS);
          if t.capped then Ok(t.At(Phase.ResolveQueue, InputNone, None, 0))
          else if yutMoExtra && token.result == Yut then Ok(t.At(Phase.WaitThrow, InputThrow, Some(YutExtra), 0))
          else if yutMoExtra && token.result == Mo then Ok(t.At(Phase.WaitThrow, InputThrow, Some(MoExtra), 0))
          else Ok(t.At(Phase.ResolveQueue, InputNone, None, 0))
    }

    function ResolveQueue(): Outcome<Turn, TurnError> {
      var available := Available(queue.tokens, order);
      if phase != Phase.ResolveQueue then Err(InvalidTransition)
      else if available == [] then Ok(At(Phase.TurnEnd, InputNone, None, 0))
      else if available[0].result == Buk then Ok(At(Phase.ResolveBuk, InputNone, None, available[0].id))
      else Ok(At(Phase.WaitMoveSelection, InputSelectMove, None, 0))
    }

    /** An exposed token that is not a Buk. */
    predicate Movable(id: TokenID) {
      exists i :: 0 <= i < |Available(queue.tokens, order)| &&
        Available(queue.tokens, order)[i].id == id && Available(queue.tokens, order)[i].result != Buk
    }

    function SelectMove(id: TokenID, routeRequired: bool): Outcome<Turn, TurnError> {
      if phase != Phase.WaitMoveSelection then Err(InvalidTransition)
      else if !Movable(id) then Err(NotAvailable)
      else if routeRequired then Ok(At(Phase.WaitRouteSelection, InputSelectRoute, None, id))
      else Ok(At(Phase.ApplyMove, InputNone, None, id))
    }

    function RouteSelected(id: TokenID): Outcome<Turn, TurnError> {
      if phase != Phase.WaitRouteSelection then Err(InvalidTransition)
      else if selected != id then Err(SelectedMismatch)
      else Ok(At(Phase.ApplyMove, InputNone, None, id))
    }

    function MoveApplied(id: TokenID): Outcome<Turn, TurnError> {
      if phase != Phase.ApplyMove then Err(InvalidTransition)
      else if selected != id then Err(SelectedMismatch)
      else Ok(At(Phase.ResolveStackCaptureFinish, InputNone, None, id))
    }

    function CompleteMove(id: TokenID, result: MoveResult): Outcome<Turn, TurnError> {
      if !result.Valid() then Err(InvalidOutcome)
      else if phase != Phase.ResolveStackCaptureFinish then Err(InvalidTransition)
      else if selected != id then Err(SelectedMismatch)
      else
        match queue.Consume(id, order)
        case Err(error) => Err(error)
        case Ok(q) => Ok(this.(queue := q).AfterResolution(result.captureExtraThrow, result.matchEnded))
    }

    function DiscardUnusableResult(id: TokenID): Outcome<Turn, TurnError> {
      if phase != Phase.WaitMoveSelection then Err(InvalidTransition)
      else if !Movable(id) then Err(NotAvailable)
      else
        match queue.Consume(id, order)
        case Err(error) => Err(error)
        case Ok(q) => Ok(this.(queue := q).At(Phase.ResolveQueue, InputNone, None, 0))
    }

    function CompleteBuk(id: TokenID, result: BukResult): Outcome<Turn, TurnError> {
      if !result.Valid() then Err(InvalidOutcome)
      else if phase != Phase.ResolveBuk then Err(InvalidTransition)
      else if selected != id then Err(SelectedMismatch)
      else
        match queue.Consume(id, order)
        case Err(error) => Err(error)
        case Ok(q) =>
          var t := this.(queue := q);
          if result.noCandidate then Ok(t.At(Phase.TurnEnd, InputNone, None, 0))
          else Ok(t.AfterResolution(result.captureExtraThrow, result.matchEnded))
    }

    function AfterResolution(captureExtra: bool, matchEnded: bool): Turn {
      if matchEnded then At(Phase.MatchEnd, InputNone, None, 0)
      else if capped then At(Phase.ResolveQueue, InputNone, None, 0)
      else if captureExtra then At(Phase.WaitThrow, InputThrow, Some(CaptureExtra), 0)
      else At(Phase.ResolveQueue, InputNone, None, 0)
    }

    // ----- What every history of a turn keeps -----

    predicate Throwing() {
      phase == Phase.WaitThrow || phase == Phase.ThrowingChain
    }

    predicate HoldsSelection() {
      phase == Phase.WaitRouteSelection || phase == Phase.ApplyMove ||
      phase == Phase.ResolveStackCaptureFinish || phase == Phase.ResolveBuk
    }

    ghost predicate NoBuk() {
      forall t :: t in queue.tokens ==> t.result != Buk
    }

    /** The required input, the expected origin and the selection follow the phase. */
    ghost predicate PhaseInv() {
      && input == (match phase
         case WaitThrow => InputThrow
         case WaitMoveSelection => InputSelectMove
         case WaitRouteSelection => InputSelectRoute
         case _ => InputNone)
      && (expectedOrigin.Some? <==> Throwing())
      && (selected != 0 <==> HoldsSelection())
    }

    /** The selected token is exposed, and it is a Buk exactly during Buk resolution. */
    ghost predicate SelectionExposed() {
      exists t :: t in Available(queue.tokens, order) && t.id == selected
        && (t.result == Buk <==> phase == Phase.ResolveBuk)
    }

    ghost predicate Inv() {
      && player != 0
      && queue.Inv()
      && PhaseInv()
      && (!capped ==> |queue.tokens| < MAX_TOKENS)
      && (Throwing() || phase == Phase.TurnStart ==> !capped)
      && (phase == Phase.TurnStart ==> queue == EMPTY_QUEUE)
      && (phase != Phase.ResolveQueue && phase != Phase.ResolveBuk ==> NoBuk())
      && (phase == Phase.WaitMoveSelection ==> queue.tokens != [])
      && (HoldsSelection() ==> SelectionExposed())
    }
  }

  function NewTurn(player: PlayerID, order: MovementOrder, yutMoExtra: bool): Turn {
    Turn(player, order, yutMoExtra, Phase.TurnStart, InputNone, None, 0, EMPTY_QUEUE, false)
  }

  /** One call on a turn machine. */
  datatype Action =
    | CallStart | CallBeginThrow | CallRecordThrow(token: Token) | CallResolveQueue
    | CallSelectMove(id: TokenID, routeRequired: bool) | CallRouteSelected(id: TokenID) | CallMoveApplied(id: TokenID)
    | CallCompleteMove(id: TokenID, move: MoveResult) | CallDiscard(id: TokenID)
    | CallCompleteBuk(id: TokenID, buk: BukResult)

  function Perform(t: Turn, a: Action): Outcome<Turn, TurnError> {
    match a
    case CallStart => t.Start()
    case CallBeginThrow => t.BeginThrow()
    case CallRecordThrow(token) => t.RecordThrow(token)
    case CallResolveQueue => t.ResolveQueue()
    case CallSelectMove(id, routeRequired) => t.SelectMove(id, routeRequired)
    case CallRouteSelected(id) => t.RouteSelected(id)
    case CallMoveApplied(id) => t.MoveApplied(id)
    case CallCompleteMove(id, move) => t.CompleteMove(id, move)
    case CallDiscard(id) => t.DiscardUnusableResult(id)
    case CallCompleteBuk(id, buk) => t.CompleteBuk(id, buk)
  }

  /** A refused call leaves the machine as it was. */
  function After(t: Turn, a: Action): Turn {
    match Perform(t, a)
    case Ok(t') => t'
    case Err(_) => t
  }

  function Run(t: Turn, actions: seq<Action>): Turn
    decreases |actions|
  {
    if actions == [] then t else Run(After(t, actions[0]), actions[1..])
  }

  lemma ConsumeLeavesNoBuk(t: Turn, id: TokenID)
    requires t.Inv() && t.HoldsSelection() && id == t.selected
    ensures t.queue.Consume(id, t.order).Ok?
    ensures forall x :: x in t.queue.Consume(id, t.order).value.tokens ==> x.result != Buk
  {
    var x :| x in Available(t.queue.tokens, t.order) && x.id == t.selected &&
      (x.result == Buk <==> t.phase == Phase.ResolveBuk);
    AvailableIsConsumable(t.queue, x, t.order);
    ConsumeKeeps(t.queue, id, t.order);
  }

  lemma MovableIsConsumable(t: Turn, id: TokenID)
    requires t.Inv() && t.Movable(id)
    ensures id != 0 && t.queue.Consume(id, t.order).Ok?
    ensures t.NoBuk()
  {
    var available := Available(t.queue.tokens, t.order);
    var i :| 0 <= i < |available| && available[i].id == id && available[i].result != Buk;
    AvailableIsConsumable(t.queue, available[i], t.order);
  }

  lemma RecordKeepsInv(t: Turn, token: Token)
    requires t.Inv() && t.RecordThrow(token).Ok?
    ensures t.RecordThrow(token).value.Inv()
  {
    hide Available;
    AppendKeeps(t.queue, token);
    assert t.queue.Append(token).value.tokens == t.queue.tokens + [token];
  }

  lemma ResolveQueueKeepsInv(t: Turn)
    requires t.Inv() && t.ResolveQueue().Ok?
    ensures t.ResolveQueue().value.Inv()
  {
    var available := Available(t.queue.tokens, t.order);
    if available != [] {
      assert available[0] in available;
      AvailableIsConsumable(t.queue, available[0], t.order);
    }
  }

  lemma SelectKeepsInv(t: Turn, id: TokenID, routeRequired: bool)
    requires t.Inv() && t.SelectMove(id, routeRequired).Ok?
    ensures t.SelectMove(id, routeRequired).value.Inv()
  {
    MovableIsConsumable(t, id);
    hide Available;
    var available := Available(t.queue.tokens, t.order);
    var i :| 0 <= i < |available| && available[i].id == id && available[i].result != Buk;
    assert available[i] in available;
  }

  lemma ConsumedTurnInv(t: Turn, q: Queue, id: TokenID)
    requires t.Inv() && t.queue.Consume(id, t.order) == Ok(q)
    requires forall x :: x in q.tokens ==> x.result != Buk
    ensures forall captureExtra, matchEnded :: t.(queue := q).AfterResolution(captureExtra, matchEnded).Inv()
    ensures t.(queue := q).At(Phase.ResolveQueue, InputNone, None, 0).Inv()
    ensures t.(queue := q).At(Phase.TurnEnd, InputNone, None, 0).Inv()
  {
    hide Queue.Consume, Available, Turn.SelectionExposed, Queue.IDs;
    ConsumeKeeps(t.queue, id, t.order);
  }

  /** Every accepted call keeps the invariant. */
  lemma PerformKeepsInv(t: Turn, a: Action)
    requires t.Inv() && Perform(t, a).Ok?
    ensures Perform(t, a).value.Inv()
  {
    match a {
      case CallRecordThrow(token) => RecordKeepsInv(t, token);
      case CallResolveQueue => ResolveQueueKeepsInv(t);
      case CallSelectMove(id, routeRequired) => SelectKeepsInv(t, id, routeRequired);
      case CallCompleteMove(id, _) =>
        ConsumeLeavesNoBuk(t, id);
        ConsumedTurnInv(t, t.queue.Consume(id, t.order).value, id);
      case CallCompleteBuk(id, _) =>
        ConsumeLeavesNoBuk(t, id);
        ConsumedTurnInv(t, t.queue.Consume(id, t.order).value, id);
      case CallDiscard(id) =>
        MovableIsConsumable(t, id);
        ConsumeKeeps(t.queue, id, t.order);
        ConsumedTurnInv(t, t.queue.Consume(id, t.order).value, id);
      case _ =>
    }
  }

  /** Whatever is called, in whatever order, a turn keeps its invariant. */
  lemma {:induction false} RunKeepsInv(t: Turn, actions: seq<Action>)
    requires t.Inv()
    ensures Run(t, actions).Inv()
    decreases |actions|
  {
    hide Turn.Inv, Perform;
    if actions != [] {
      if Perform(t, actions[0]).Ok? {
        PerformKeepsInv(t, actions[0]);
      }
      RunKeepsInv(After(t, actions[0]), actions[1..]);
    }
  }

  /** After any calls, recording a throw never meets a full queue or a second Buk, and the selected
      token can always be consumed by the completion that the phase expects. */
  lemma QueueErrorsNeverHappen(player: PlayerID, order: MovementOrder, yutMoExtra: bool, actions: seq<Action>,
      token: Token, move: MoveResult, buk: BukResult)
    requires player != 0
    ensures var t := Run(NewTurn(player, order, yutMoExtra), actions);
      && t.RecordThrow(token) != Err(QueueFull) && t.RecordThrow(token) != Err(StackedBuk)
      && (move.Valid() && t.phase == Phase.ResolveStackCaptureFinish ==> t.CompleteMove(t.selected, move).Ok?)
      && (buk.Valid() && t.phase == Phase.ResolveBuk ==> t.CompleteBuk(t.selected, buk).Ok?)
  {
    var t := Run(NewTurn(player, order, yutMoExtra), actions);
    RunKeepsInv(NewTurn(player, order, yutMoExtra), actions);
    if t.HoldsSelection() {
      ConsumeLeavesNoBuk(t, t.selected);
    }
  }

  // ----- Every generated token is used at most once -----

  function Generated(t: Turn, a: Action): seq<TokenID> {
    if a.CallRecordThrow? && Perform(t, a).Ok? then [a.token.id] else []
  }

  function Used(t: Turn, a: Action): seq<TokenID> {
    if (a.CallCompleteMove? || a.CallDiscard? || a.CallCompleteBuk?) && Perform(t, a).Ok? then [a.id] else []
  }

  function AllGenerated(t: Turn, actions: seq<Action>): seq<TokenID>
    decreases |actions|
  {
    if actions == [] then [] else Generated(t, actions[0]) + AllGenerated(After(t, actions[0]), actions[1..])
  }

  function AllUsed(t: Turn, actions: seq<Action>): seq<TokenID>
    decreases |actions|
  {
    if actions == [] then [] else Used(t, actions[0]) + AllUsed(After(t, actions[0]), actions[1..])
  }

  ghost function Elements(ids: seq<TokenID>): set<TokenID> {
    set id | id in ids
  }

  /** One call generates only fresh tokens, uses only queued ones, and changes the queue by both. */
  lemma StepAccount(t: Turn, a: Action)
    requires t.Inv()
    ensures var t' := After(t, a);
      && t'.queue.seen == t.queue.seen + Elements(Generated(t, a))
      && t'.queue.IDs() == t.queue.IDs() + Elements(Generated(t, a)) - Elements(Used(t, a))
      && Elements(Generated(t, a)) !! t.queue.seen
      && Elements(Used(t, a)) <= t.queue.IDs()
  {
    hide Available, Queue.IDs, Queue.Inv, Turn.Movable, Turn.SelectionExposed;
    match Perform(t, a) {
      case Err(_) =>
      case Ok(t') =>
        if a.CallRecordThrow? {
          AppendKeeps(t.queue, a.token);
        } else if a.CallCompleteMove? || a.CallDiscard? || a.CallCompleteBuk? {
          ConsumeKeeps(t.queue, a.id, t.order);
        }
    }
  }

  lemma {:induction false} RunAccount(t: Turn, actions: seq<Action>)
    requires t.Inv()
    ensures var generated, used := AllGenerated(t, actions), AllUsed(t, actions);
      && Distinct(generated) && Distinct(used)
      && Elements(generated) !! t.queue.seen
      && Elements(used) <= t.queue.IDs() + Elements(generated)
      && Run(t, actions).queue.seen == t.queue.seen + Elements(generated)
      && Run(t, actions).queue.IDs() == t.queue.IDs() + Elements(generated) - Elements(used)
    decreases |actions|
  {
    if actions != [] {
      var t' := After(t, actions[0]);
      StepAccount(t, actions[0]);
      IDsAreSeen(t);
      StepInv(t, actions[0]);
      IDsAreSeen(t');
      hide Turn.Inv, Perform, After, Queue.IDs, Generated, Used, Elements, Distinct;
      RunAccount(t', actions[1..]);
      OneElement(Generated(t, actions[0]));
      OneElement(Used(t, actions[0]));
      ElementsConcat(Generated(t, actions[0]), AllGenerated(t', actions[1..]));
      ElementsConcat(Used(t, actions[0]), AllUsed(t', actions[1..]));
    }
  }

  lemma StepInv(t: Turn, a: Action)
    requires t.Inv()
    ensures After(t, a).Inv() && |Generated(t, a)| <= 1 && |Used(t, a)| <= 1
  {
    hide Turn.Inv;
    if Perform(t, a).Ok? {
      PerformKeepsInv(t, a);
    }
  }

  lemma OneElement(ids: seq<TokenID>)
    requires |ids| <= 1
    ensures Distinct(ids)
  {
  }

  lemma IDsAreSeen(t: Turn)
    requires t.Inv()
    ensures t.queue.IDs() <= t.queue.seen
  {
  }

  lemma ElementsConcat(a: seq<TokenID>, b: seq<TokenID>)
    ensures Elements(a + b) == Elements(a) + Elements(b)
    ensures Distinct(a) && Distinct(b) && Elements(a) !! Elements(b) ==> Distinct(a + b)
  {
    if Distinct(a) && Distinct(b) && Elements(a) !! Elements(b) {
      forall i, j | 0 <= i < j < |a + b|
        ensures (a + b)[i] != (a + b)[j]
      {
        if i < |a| <= j {
          assert (a + b)[i] in Elements(a) && (a + b)[j] in Elements(b);
        }
      }
    }
  }

  /** In every history of a turn each token is generated under a fresh identifier and used at most
      once, and the queue holds exactly the generated tokens that were not used yet. */
  lemma TokensAreConserved(player: PlayerID, order: MovementOrder, yutMoExtra: bool, actions: seq<Action>)
    requires player != 0
    ensures var t := NewTurn(player, order, yutMoExtra);
      var generated, used := AllGenerated(t, actions), AllUsed(t, actions);
      && Distinct(generated) && Distinct(used) && Elements(used) <= Elements(generated)
      && Run(t, actions).queue.IDs() == Elements(generated) - Elements(used)
  {
    RunAccount(NewTurn(player, order, yutMoExtra), actions);
  }

  /** A call either succeeds with the state its turn value reaches, or changes nothing. */
  predicate Did(before: Turn, a: Action, r: Option<TurnError>, after: Turn) {
    match Perform(before, a)
    case Ok(t) => r == None && after == t
    case Err(error) => r == Some(error) && after == before
  }

  /** The machine object: it owns its queue and updates its fields in place. */
  class Machine {
    const player: PlayerID
    const movementOrder: MovementOrder
    const yutMoExtra: bool
    const queue: ResultQueue
    var phase: Phase
    var requiredInput: RequiredInput
    var expectedOrigin: Option<Origin>
    var selectedID: TokenID
    var throwingCapped: bool

    function State(): Turn
      reads this, queue
    {
      Turn(player, movementOrder, yutMoExtra, phase, requiredInput, expectedOrigin, selectedID, queue.State(),
        throwingCapped)
    }

    constructor (player: PlayerID, movementOrder: MovementOrder, yutMoExtra: bool)
      ensures State() == NewTurn(player, movementOrder, yutMoExtra) && fresh(queue)
    {
      this.player, this.movementOrder, this.yutMoExtra := player, movementOrder, yutMoExtra;
      queue := new ResultQueue();
      phase, requiredInput, expectedOrigin := Phase.TurnStart, InputNone, None;
      selectedID, throwingCapped := 0, false;
    }

    method SetState(phase: Phase, input: RequiredInput, origin: Option<Origin>, selected: TokenID)
      modifies this
      ensures State() == old(State()).At(phase, input, origin, selected)
    {
      this.phase := phase;
      requiredInput := input;
      expectedOrigin := origin;
      selectedID := selected;
    }

    method Start() returns (r: Option<TurnError>)
      modifies this
      ensures Did(old(State()), CallStart, r, State())
    {
      if phase != Phase.TurnStart {
        return Some(InvalidTransition);
      }
      SetState(Phase.WaitThrow, InputThrow, Some(InitialThrow), 0);
      return None;
    }

    method BeginThrow() returns (r: Option<TurnError>, origin: Option<Origin>)
      modifies this
      ensures Did(old(State()), CallBeginThrow, r, State())
      ensures r == None ==> origin == old(expectedOrigin)
    {
      if phase != Phase.WaitThrow {
        return Some(InvalidTransition), None;
      }
      origin := expectedOrigin;
      SetState(Phase.ThrowingChain, InputNone, origin, 0);
      r := None;
    }

    method RecordThrow(token: Token) returns (r: Option<TurnError>)
      modifies this, queue
      ensures Did(old(State()), CallRecordThrow(token), r, State())
    {
      if !token.Valid() {
        return Some(InvalidToken);
      }
      if phase != Phase.ThrowingChain {
        return Some(InvalidTransition);
      }
      if Some(token.origin) != expectedOrigin {
        return Some(UnexpectedOrigin);
      }
      if token.player != player {
        return Some(WrongPlayer);
      }
      r := queue.Append(token);
      if r != None {
        return;
      }
      if |queue.tokens| >= MAX_TOKENS {
        throwingCapped := true;
      }
      if throwingCapped {
        SetState(Phase.ResolveQueue, InputNone, None, 0);
      } else if yutMoExtra && token.result == Yut {
        SetState(Phase.WaitThrow, InputThrow, Some(YutExtra), 0);
      } else if yutMoExtra && token.result == Mo {
        SetState(Phase.WaitThrow, InputThrow, Some(MoExtra), 0);
      } else {
        SetState(Phase.ResolveQueue, InputNone, None, 0);
      }
    }

    method ResolveQueue() returns (r: Option<TurnError>)
      modifies this
      ensures Did(old(State()), CallResolveQueue, r, State())
    {
      if phase != Phase.ResolveQueue {
        return Some(InvalidTransition);
      }
      var available := queue.Exposed(movementOrder);
      if |available| == 0 {
        SetState(Phase.TurnEnd, InputNone, None, 0);
      } else if available[0].result == Buk {
        SetState(Phase.ResolveBuk, InputNone, None, available[0].id);
      } else {
        SetState(Phase.WaitMoveSelection, InputSelectMove, None, 0);
      }
      return None;
    }

    /** The search both selection and discard make for an exposed token that is not a Buk. */
    method FindMovable(id: TokenID) returns (found: bool)
      ensures found == State().Movable(id)
    {
      var available := queue.Exposed(movementOrder);
      for i := 0 to |available|
        invariant forall j :: 0 <= j < i ==> !(available[j].id == id && available[j].result != Buk)
      {
        if available[i].id == id && available[i].result != Buk {
          return true;
        }
      }
      return false;
    }

    method SelectMove(id: TokenID, routeRequired: bool) returns (r: Option<TurnError>)
      modifies this
      ensures Did(old(State()), CallSelectMove(id, routeRequired), r, State())
    {
      if phase != Phase.WaitMoveSelection {
        return Some(InvalidTransition);
      }
      var found := FindMovable(id);
      if !found {
        return Some(NotAvailable);
      }
      if routeRequired {
        SetState(Phase.WaitRouteSelection, InputSelectRoute, None, id);
      } else {
        SetState(Phase.ApplyMove, InputNone, None, id);
      }
      return None;
    }

    method RouteSelected(id: TokenID) returns (r: Option<TurnError>)
      modifies this
      ensures Did(old(State()), CallRouteSelected(id), r, State())
    {
      if phase != Phase.WaitRouteSelection {
        return Some(InvalidTransition);
      }
      if selectedID != id {
        return Some(SelectedMismatch);
      }
      SetState(Phase.ApplyMove, InputNone, None, id);
      return None;
    }

    method MoveApplied(id: TokenID) returns (r: Option<TurnError>)
      modifies this
      ensures Did(old(State()), CallMoveApplied(id), r, State())
    {
      if phase != Phase.ApplyMove {
        return Some(InvalidTransition);
      }
      if selectedID != id {
        return Some(SelectedMismatch);
      }
      SetState(Phase.ResolveStackCaptureFinish, InputNone, None, id);
      return None;
    }

    method CompleteMove(id: TokenID, move: MoveResult) returns (r: Option<TurnError>)
      modifies this, queue
      ensures Did(old(State()), CallCompleteMove(id, move), r, State())
    {
      if !move.Valid() {
        return Some(InvalidOutcome);
      }
      if phase != Phase.ResolveStackCaptureFinish {
        return Some(InvalidTransition);
      }
      if selectedID != id {
        return Some(SelectedMismatch);
      }
      r := queue.Consume(id, movementOrder);
      if r == None {
        AdvanceAfterResolution(move.captureExtraThrow, move.matchEnded);
      }
    }

    method DiscardUnusableResult(id: TokenID) returns (r: Option<TurnError>)
      modifies this, queue
      ensures Did(old(State()), CallDiscard(id), r, State())
    {
      if phase != Phase.WaitMoveSelection {
        return Some(InvalidTransition);
      }
      var found := FindMovable(id);
      if !found {
        return Some(NotAvailable);
      }
      r := queue.Consume(id, movementOrder);
      if r == None {
        SetState(Phase.ResolveQueue, InputNone, None, 0);
      }
    }

    method CompleteBuk(id: TokenID, buk: BukResult) returns (r: Option<TurnError>)
      modifies this, queue
      ensures Did(old(State()), CallCompleteBuk(id, buk), r, State())
    {
      if !buk.Valid() {
        return Some(InvalidOutcome);
      }
      if phase != Phase.ResolveBuk {
        return Some(InvalidTransition);
      }
      if selectedID != id {
        return Some(SelectedMismatch);
      }
      r := queue.Consume(id, movementOrder);
      if r != None {
        return;
      }
      if buk.noCandidate {
        SetState(Phase.TurnEnd, InputNone, None, 0);
      } else {
        AdvanceAfterResolution(buk.captureExtraThrow, buk.matchEnded);
      }
    }

    method AdvanceAfterResolution(captureExtra: bool, matchEnded: bool)
      modifies this
      ensures State() == old(State()).AfterResolution(captureExtra, matchEnded)
    {
      if matchEnded {
        SetState(Phase.MatchEnd, InputNone, None, 0);
      } else if throwingCapped {
        SetState(Phase.ResolveQueue, InputNone, None, 0);
      } else if captureExtra {
        SetState(Phase.WaitThrow, InputThrow, Some(CaptureExtra), 0);
      } else {
        SetState(Phase.ResolveQueue, InputNone, None, 0);
      }
    }
  }
}
