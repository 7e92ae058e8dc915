/** The browser client's staged synchronization: sequences, the staged presentation, and the bridge
    that commits both together or neither. */
module ClientSync {
  import opened Domain
  import opened SequenceText

  // ----- protocol_state -----

  datatype Protocol = Protocol(
    lastSequence: Sequence, pendingSequence: Sequence, sequenceSet: bool, pendingSet: bool,
    synchronizing: bool, resynchronizationRequired: bool)
  {
    function BeginSynchronization(): Protocol {
      this.(synchronizing := true, pendingSequence := 0, pendingSet := false, resynchronizationRequired := false)
    }

    function Refuse(): (Protocol, bool) {
      (this.(resynchronizationRequired := true), false)
    }

    function ApplySnapshot(sequence: Sequence): (Protocol, bool) {
      if !synchronizing then (this, false)
      else if sequence == 0 || pendingSet || (sequenceSet && sequence < lastSequence) then Refuse()
      else (this.(pendingSequence := sequence, pendingSet := true), true)
    }

    function ApplyEvent(sequence: Sequence): (Protocol, bool) {
      var current := if synchronizing then pendingSequence else lastSequence;
      var currentSet := if synchronizing then pendingSet else sequenceSet;
      if !currentSet || resynchronizationRequired || current == MAX_UINT64 || sequence != current + 1 then Refuse()
      else if synchronizing then (this.(pendingSequence := sequence), true)
      else (this.(lastSequence := sequence), true)
    }

    function CompleteSynchronization(): (Protocol, bool) {
      if !synchronizing || !pendingSet || resynchronizationRequired then (this, false)
      else
        (this.(lastSequence := pendingSequence, sequenceSet := true, pendingSequence := 0, pendingSet := false,
          synchronizing := false), true)
    }

    predicate CanSendCommands() {
      !synchronizing && !resynchronizationRequired
    }

    function LastSequence(): Sequence {
      if sequenceSet then lastSequence else 0
    }
  }

  const PROTOCOL_INIT := Protocol(0, 0, false, false, true, false)

  // ----- presentation_state -----

  datatype Input = NoInput | Throw | SelectMove | SelectRoute

  datatype Metadata = Metadata(status: nat, phase: nat, input: Input, timer: nat, team: nat, remaining: Sequence)

  /** A staged piece; the node is None when no board space is named. */
  datatype Piece = Piece(team: Team, state: PieceState, node: Option<SpaceID>, stacked: bool, stackSize: nat)

  datatype MoveRequest = MoveRequest(input: Input, normal: bool, shortcut: bool, origin: Option<SpaceID>)

  datatype Snapshot = Snapshot(metadata: Option<Metadata>, pieces: seq<Piece>, results: seq<YutResult>,
      move: Option<MoveRequest>)

  const NO_SNAPSHOT := Snapshot(None, [], [], None)
  const MAX_PIECES: nat := 32
  const MAX_RESULTS: nat := 32

  /** What the client knows about the board: where home is, and which spaces have a route choice. */
  datatype Layout = Layout(home: SpaceID, choices: set<SpaceID>)

  datatype Presentation = Presentation(confirmed: Option<Snapshot>, pending: Snapshot, staging: bool, failed: bool) {
    function BeginSnapshot(): Presentation {
      this.(pending := NO_SNAPSHOT, staging := true, failed := false)
    }

    function AbortSnapshot(): Presentation {
      this.(pending := NO_SNAPSHOT, staging := false, failed := false)
    }

    function Fail(): (Presentation, bool) {
      (this.(failed := true), false)
    }

    function StageMetadata(m: Metadata): (Presentation, bool) {
      if !staging || failed || pending.metadata.Some? then Fail()
      else (this.(pending := pending.(metadata := Some(m))), true)
    }

    function StagePiece(layout: Layout, p: Piece, memory: bool): (Presentation, bool) {
      if !staging || failed || !PieceShapeOk(layout, p) || |pending.pieces| >= MAX_PIECES || !memory then Fail()
      else (this.(pending := pending.(pieces := pending.pieces + [p])), true)
    }

    function StageResult(r: YutResult, memory: bool): (Presentation, bool) {
      if !staging || failed || |pending.results| >= MAX_RESULTS || !memory then Fail()
      else (this.(pending := pending.(results := pending.results + [r])), true)
    }

    function StageMoveRequest(layout: Layout, m: MoveRequest): (Presentation, bool) {
      if !staging || failed || pending.move.Some? || pending.metadata.None? || !MoveShapeOk(layout, m)
        || pending.metadata.value.input != m.input then Fail()
      else (this.(pending := pending.(move := Some(m))), true)
    }

    predicate CanCommit() {
      staging && !failed && pending.metadata.Some? &&
      ((pending.metadata.value.input == SelectMove || pending.metadata.value.input == SelectRoute) <==>
        pending.move.Some?)
    }

    function CommitSnapshot(): (Presentation, bool) {
      if !CanCommit() then (this, false)
      else (Presentation(Some(pending), NO_SNAPSHOT, false, false), true)
    }
  }

  const PRESENTATION_INIT := Presentation(None, NO_SNAPSHOT, false, false)

  /** Stack sizes and spaces fit the piece state. */
  predicate PieceShapeOk(layout: Layout, p: Piece) {
    var onBoard := p.state == OnBoard || p.state == HomeCheckpoint;
    && (if p.stacked then 2 <= p.stackSize <= MAX_PIECES && onBoard else p.stackSize == 0)
    && (onBoard <==> p.node.Some?)
    && (p.state == HomeCheckpoint ==> p.node == Some(layout.home))
  }

  predicate MoveShapeOk(layout: Layout, m: MoveRequest) {
    match m.input
    case SelectRoute => m.normal && m.shortcut && m.origin.Some? && m.origin.value in layout.choices
    case SelectMove => !m.normal && !m.shortcut && m.origin.None?
    case _ => false
  }

  // ----- protocol_bridge -----

  datatype Bridge = Bridge(protocol: Protocol, presentation: Presentation, eventTail: bool, snapshotStaged: bool)

  const BRIDGE_INIT := Bridge(PROTOCOL_INIT, PRESENTATION_INIT, false, false)

  /** What the page may call; text that names no known value is None. */
  datatype Call =
    | Begin
    | SnapshotSequence(text: string)
    | EventSequence(text: string)
    | ReducedEventSequence(text: string)
    | StageMetadataCall(metadata: Option<Metadata>)
    | StagePieceCall(piece: Option<Piece>, memory: bool)
    | StageResultCall(result: Option<YutResult>, memory: bool)
    | StageMoveCall(move: Option<MoveRequest>)
    | FailSync
    | Complete

  function Failed(b: Bridge): Bridge {
    Bridge(b.protocol.BeginSynchronization().ApplySnapshot(0).0, b.presentation.AbortSnapshot(), false, false)
  }

  function StageEvent(b: Bridge, text: string, tail: bool): (Bridge, bool) {
    if !b.snapshotStaged || Parsed(text).None? then (Failed(b), false)
    else
      var (protocol, ok) := b.protocol.ApplyEvent(Parsed(text).value);
      if ok then (b.(protocol := protocol, eventTail := b.eventTail || tail), true)
      else (Failed(b.(protocol := protocol)), false)
  }

  /** A staging call either changes the pending presentation or fails the synchronization. */
  function Staged(b: Bridge, staged: Option<(Presentation, bool)>): (Bridge, bool) {
    match staged
    case Some((presentation, true)) => (b.(presentation := presentation), true)
    case _ => (Failed(b), false)
  }

  function Finish(b: Bridge): (Bridge, bool) {
    if b.eventTail || !b.presentation.CanCommit() then (Failed(b), false)
    else
      var (protocol, ok) := b.protocol.CompleteSynchronization();
      if !ok then (Failed(b), false)
      else
        var (presentation, committed) := b.presentation.CommitSnapshot();
        if !committed then (Failed(b), false) else (Bridge(protocol, presentation, false, false), true)
  }

  function Next(layout: Layout, b: Bridge, c: Call): (Bridge, bool) {
    match c
    case Begin => (Bridge(b.protocol.BeginSynchronization(), b.presentation.BeginSnapshot(), false, false), true)
    case SnapshotSequence(text) =>
      if Parsed(text).None? then (Failed(b), false)
      else
        var (protocol, ok) := b.protocol.ApplySnapshot(Parsed(text).value);
        if ok then (b.(protocol := protocol, snapshotStaged := true), true)
        else (Failed(b.(protocol := protocol)), false)
    case EventSequence(text) => StageEvent(b, text, true)
    case ReducedEventSequence(text) => StageEvent(b, text, false)
    case StageMetadataCall(m) => Staged(b, if m.None? then None else Some(b.presentation.StageMetadata(m.value)))
    case StagePieceCall(p, memory) =>
      Staged(b, if p.None? then None else Some(b.presentation.StagePiece(layout, p.value, memory)))
    case StageResultCall(r, memory) =>
      Staged(b, if r.None? then None else Some(b.presentation.StageResult(r.value, memory)))
    case StageMoveCall(m) => Staged(b, if m.None? then None else Some(b.presentation.StageMoveRequest(layout, m.value)))
    case FailSync => (Failed(b), true)
    case Complete => Finish(b)
  }

  function After(layout: Layout, b: Bridge, c: Call): Bridge {
    Next(layout, b, c).0
  }

  function Run(layout: Layout, b: Bridge, calls: seq<Call>): Bridge
    decreases |calls|
  {
    if calls == [] then b else Run(layout, After(layout, b, calls[0]), calls[1..])
  }

  // ----- What every run of calls keeps -----

  /** Sequences are staged only inside a synchronization and never behind the last one; once it is over,
      nothing is staged; a confirmed sequence and a confirmed presentation exist together. */
  predicate BridgeInv(b: Bridge) {
    && (b.snapshotStaged <==> b.protocol.pendingSet)
    && (b.snapshotStaged ==> b.protocol.synchronizing && b.protocol.LastSequence() <= b.protocol.pendingSequence)
    && (!b.protocol.synchronizing ==> !b.presentation.staging && !b.protocol.resynchronizationRequired)
    && (b.protocol.sequenceSet <==> b.presentation.confirmed.Some?)
    && (!b.protocol.synchronizing ==> b.protocol.sequenceSet)
    && (b.eventTail ==> b.snapshotStaged)
  }

  /** A failed synchronization keeps what was confirmed and disables commands. */
  lemma FailureEffect(b: Bridge)
    requires b.protocol.sequenceSet <==> b.presentation.confirmed.Some?
    ensures BridgeInv(Failed(b)) && !Failed(b).protocol.CanSendCommands()
    ensures Failed(b).protocol.LastSequence() == b.protocol.LastSequence()
    ensures Failed(b).presentation.confirmed == b.presentation.confirmed
  {
  }

  /** One call keeps the invariant. The last sequence and the confirmed presentation change together, only
      by a successful completion, and the sequence never goes back. Commands are enabled exactly right
      after a successful completion. */
  lemma CallEffect(layout: Layout, b: Bridge, c: Call)
    requires BridgeInv(b)
    ensures var (after, ok) := Next(layout, b, c);
      && BridgeInv(after)
      && b.protocol.LastSequence() <= after.protocol.LastSequence()
      && (after.protocol.CanSendCommands() <==> c == Complete && ok)
      && (c == Complete && ok ==>
        && after.protocol.LastSequence() == b.protocol.pendingSequence
        && after.presentation.confirmed == Some(b.presentation.pending))
      && (!(c == Complete && ok) ==>
        && after.protocol.LastSequence() == b.protocol.LastSequence()
        && after.presentation.confirmed == b.presentation.confirmed)
  {
    hide Parsed, Failed, PieceShapeOk, MoveShapeOk;
    FailureEffect(b);
    FailureEffect(b.(protocol := b.protocol.Refuse().0));
    FailureEffect(b.(protocol := b.protocol.ApplySnapshot(0).0));
  }

  lemma {:induction false} RunKeepsInv(layout: Layout, b: Bridge, calls: seq<Call>)
    requires BridgeInv(b)
    ensures BridgeInv(Run(layout, b, calls))
    ensures b.protocol.LastSequence() <= Run(layout, b, calls).protocol.LastSequence()
    decreases |calls|
  {
    hide BridgeInv, Next;
    if calls != [] {
      CallEffect(layout, b, calls[0]);
      RunKeepsInv(layout, After(layout, b, calls[0]), calls[1..]);
    }
  }

  lemma {:induction false} RunConcat(layout: Layout, b: Bridge, x: seq<Call>, y: seq<Call>)
    ensures Run(layout, b, x + y) == Run(layout, Run(layout, b, x), y)
    decreases |x|
  {
    hide After;
    if x == [] {
      assert x + y == y;
    } else {
      assert (x + y)[1..] == x[1..] + y;
      RunConcat(layout, After(layout, b, x[0]), x[1..], y);
    }
  }

  lemma RunSnoc(layout: Layout, b: Bridge, calls: seq<Call>, c: Call)
    ensures Run(layout, b, calls + [c]) == After(layout, Run(layout, b, calls), c)
  {
    RunConcat(layout, b, calls, [c]);
    assert [c][1..] == [];
  }

  /** After any calls at all, commands are enabled exactly when the last call completed a synchronization. */
  lemma CommandsEnabledExactly(layout: Layout, calls: seq<Call>)
    ensures var b := Run(layout, BRIDGE_INIT, calls);
      b.protocol.CanSendCommands() <==>
        calls != [] && calls[|calls| - 1] == Complete
        && Next(layout, Run(layout, BRIDGE_INIT, calls[..|calls| - 1]), Complete).1
  {
    hide BridgeInv, Next;
    assert BridgeInv(BRIDGE_INIT) by {
      InitialInv();
    }
    if calls != [] {
      var before := calls[..|calls| - 1];
      RunKeepsInv(layout, BRIDGE_INIT, before);
      CallEffect(layout, Run(layout, BRIDGE_INIT, before), calls[|calls| - 1]);
      RunSnoc(layout, BRIDGE_INIT, before, calls[|calls| - 1]);
      assert before + [calls[|calls| - 1]] == calls;
    }
  }

  lemma InitialInv()
    ensures BridgeInv(BRIDGE_INIT)
  {
  }

  /** A later state never shows an older sequence. */
  lemma SequenceNeverGoesBack(layout: Layout, calls: seq<Call>, k: nat)
    requires k <= |calls|
    ensures Run(layout, BRIDGE_INIT, calls[..k]).protocol.LastSequence() <=
      Run(layout, BRIDGE_INIT, calls).protocol.LastSequence()
  {
    hide BridgeInv;
    InitialInv();
    RunKeepsInv(layout, BRIDGE_INIT, calls[..k]);
    RunKeepsInv(layout, Run(layout, BRIDGE_INIT, calls[..k]), calls[k..]);
    RunConcat(layout, BRIDGE_INIT, calls[..k], calls[k..]);
    assert calls[..k] + calls[k..] == calls;
  }
}
