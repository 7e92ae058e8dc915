/** The client's state structs and the bridge over them, updated in place and proved against ClientSync. */
module ClientRuntime {
  import opened Domain
  import opened SequenceText
  import opened ClientSync

  class ProtocolState {
    var lastSequence: Sequence
    var pendingSequence: Sequence
    var sequenceSet: bool
    var pendingSequenceSet: bool
    var synchronizing: bool
    var resynchronizationRequired: bool

    function State(): Protocol
      reads this
    {
      Protocol(lastSequence, pendingSequence, sequenceSet, pendingSequenceSet, synchronizing, resynchronizationRequired)
    }

    constructor ()
      ensures State() == PROTOCOL_INIT
    {
      lastSequence, pendingSequence, sequenceSet, pendingSequenceSet := 0, 0, false, false;
      synchronizing, resynchronizationRequired := true, false;
    }

    method BeginSynchronization()
      modifies this
      ensures State() == old(State()).BeginSynchronization()
    {
      synchronizing := true;
      pendingSequence := 0;
      pendingSequenceSet := false;
      resynchronizationRequired := false;
    }

    method ApplySnapshot(sequence: Sequence) returns (ok: bool)
      modifies this
      ensures (State(), ok) == old(State()).ApplySnapshot(sequence)
    {
      if !synchronizing {
        return false;
      }
      if sequence == 0 || pendingSequenceSet || (sequenceSet && sequence < lastSequence) {
        resynchronizationRequired := true;
        return false;
      }
      pendingSequence := sequence;
      pendingSequenceSet := true;
      return true;
    }

    method ApplyEvent(sequence: Sequence) returns (ok: bool)
      modifies this
      ensures (State(), ok) == old(State()).ApplyEvent(sequence)
    {
      var current := if synchronizing then pendingSequence else lastSequence;
      var currentSet := if synchronizing then pendingSequenceSet else sequenceSet;
      if !currentSet || resynchronizationRequired || current == MAX_UINT64 || sequence != current + 1 {
        resynchronizationRequired := true;
        return false;
      }
      if synchronizing {
        pendingSequence := sequence;
      } else {
        lastSequence := sequence;
      }
      return true;
    }

    method CompleteSynchronization() returns (ok: bool)
      modifies this
      ensures (State(), ok) == old(State()).CompleteSynchronization()
    {
      if !synchronizing || !pendingSequenceSet || resynchronizationRequired {
        return false;
      }
      lastSequence := pendingSequence;
      sequenceSet := true;
      pendingSequence := 0;
      pendingSequenceSet := false;
      synchronizing := false;
      return true;
    }
  }

  class PresentationState {
    const layout: Layout
    var confirmed: Option<Snapshot>
    var pending: Snapshot
    var staging: bool
    var pendingFailed: bool

    function State(): Presentation
      reads this
    {
      Presentation(confirmed, pending, staging, pendingFailed)
    }

    constructor (layout: Layout)
      ensures State() == PRESENTATION_INIT && this.layout == layout
    {
      this.layout := layout;
      confirmed, pending, staging, pendingFailed := None, NO_SNAPSHOT, false, false;
    }

    method BeginSnapshot()
      modifies this
      ensures State() == old(State()).BeginSnapshot()
    {
      pending, staging, pendingFailed := NO_SNAPSHOT, true, false;
    }

    method AbortSnapshot()
      modifies this
      ensures State() == old(State()).AbortSnapshot()
    {
      pending, staging, pendingFailed := NO_SNAPSHOT, false, false;
    }

    method StageMetadata(m: Metadata) returns (ok: bool)
      modifies this
      ensures (State(), ok) == old(State()).StageMetadata(m)
    {
      if !staging || pendingFailed || pending.metadata.Some? {
        pendingFailed := true;
        return false;
      }
      pending := pending.(metadata := Some(m));
      return true;
    }

    method StagePiece(p: Piece, memory: bool) returns (ok: bool)
      modifies this
      ensures (State(), ok) == old(State()).StagePiece(layout, p, memory)
    {
      if !staging || pendingFailed {
        pendingFailed := true;
        return false;
      }
      if !PieceShapeOk(layout, p) {
        pendingFailed := true;
        return false;
      }
      if |pending.pieces| >= MAX_PIECES || !memory {
        pendingFailed := true;
        return false;
      }
      pending := pending.(pieces := pending.pieces + [p]);
      return true;
    }

    method StageResult(result: YutResult, memory: bool) returns (ok: bool)
      modifies this
      ensures (State(), ok) == old(State()).StageResult(result, memory)
    {
      if !staging || pendingFailed || |pending.results| >= MAX_RESULTS || !memory {
        pendingFailed := true;
        return false;
      }
      pending := pending.(results := pending.results + [result]);
      return true;
    }

    method StageMoveRequest(m: MoveRequest) returns (ok: bool)
      modifies this
      ensures (State(), ok) == old(State()).StageMoveRequest(layout, m)
    {
      if !staging || pendingFailed || pending.move.Some? || pending.metadata.None? || !MoveShapeOk(layout, m)
        || pending.metadata.value.input != m.input
      {
        pendingFailed := true;
        return false;
      }
      pending := pending.(move := Some(m));
      return true;
    }

    method CommitSnapshot() returns (ok: bool)
      modifies this
      ensures (State(), ok) == old(State()).CommitSnapshot()
    {
      if !State().CanCommit() {
        return false;
      }
      confirmed := Some(pending);
      pending, staging, pendingFailed := NO_SNAPSHOT, false, false;
      return true;
    }
  }

  class Client {
    const layout: Layout
    const protocol: ProtocolState
    const presentation: PresentationState
    var pendingEventTail: bool
    var snapshotSequenceStaged: bool

    function State(): Bridge
      reads this, protocol, presentation
    {
      Bridge(protocol.State(), presentation.State(), pendingEventTail, snapshotSequenceStaged)
    }

    predicate Valid() {
      presentation.layout == layout
    }

    constructor (layout: Layout)
      ensures Valid() && State() == BRIDGE_INIT && fresh(protocol) && fresh(presentation) && this.layout == layout
    {
      this.layout := layout;
      protocol := new ProtocolState();
      presentation := new PresentationState(layout);
      pendingEventTail, snapshotSequenceStaged := false, false;
    }

    method FailRuntimeSynchronization()
      modifies this, protocol, presentation
      ensures State() == Failed(old(State()))
    {
      protocol.BeginSynchronization();
      var ok := protocol.ApplySnapshot(0);
      presentation.AbortSnapshot();
      pendingEventTail := false;
      snapshotSequenceStaged := false;
    }

    method BeginSynchronization()
      modifies this, protocol, presentation
      ensures (State(), true) == Next(layout, old(State()), Begin)
    {
      protocol.BeginSynchronization();
      presentation.BeginSnapshot();
      pendingEventTail := false;
      snapshotSequenceStaged := false;
    }

    method ApplySnapshotSequence(text: string) returns (ok: bool)
      modifies this, protocol, presentation
      ensures (State(), ok) == Next(layout, old(State()), SnapshotSequence(text))
    {
      hide Parsed;
      var parsed := ParseSequence(text);
      if parsed.None? {
        FailRuntimeSynchronization();
        return false;
      }
      ok := protocol.ApplySnapshot(parsed.value);
      if !ok {
        FailRuntimeSynchronization();
        return;
      }
      snapshotSequenceStaged := true;
    }

    method ApplyEventSequence(text: string) returns (ok: bool)
      modifies this, protocol, presentation
      ensures (State(), ok) == Next(layout, old(State()), EventSequence(text))
    {
      ok := ApplySequence(text, true);
    }

    method ApplyReducedEventSequence(text: string) returns (ok: bool)
      modifies this, protocol, presentation
      ensures (State(), ok) == Next(layout, old(State()), ReducedEventSequence(text))
    {
      ok := ApplySequence(text, false);
    }

    method ApplySequence(text: string, tail: bool) returns (ok: bool)
      modifies this, protocol, presentation
      ensures (State(), ok) == StageEvent(old(State()), text, tail)
    {
      hide Parsed;
      var parsed := ParseSequence(text);
      if !snapshotSequenceStaged || parsed.None? {
        FailRuntimeSynchronization();
        return false;
      }
      ok := protocol.ApplyEvent(parsed.value);
      if !ok {
        FailRuntimeSynchronization();
        return;
      }
      if tail {
        pendingEventTail := true;
      }
    }

    method StageSnapshotMetadata(m: Option<Metadata>) returns (ok: bool)
      requires Valid()
      modifies this, protocol, presentation
      ensures (State(), ok) == Next(layout, old(State()), StageMetadataCall(m))
    {
      ok := false;
      if m.Some? {
        ok := presentation.StageMetadata(m.value);
      }
      if !ok {
        FailRuntimeSynchronization();
      }
    }

    method StageSnapshotPiece(p: Option<Piece>, memory: bool) returns (ok: bool)
      requires Valid()
      modifies this, protocol, presentation
      ensures (State(), ok) == Next(layout, old(State()), StagePieceCall(p, memory))
    {
      hide PieceShapeOk;
      ok := false;
      if p.Some? {
        ok := presentation.StagePiece(p.value, memory);
      }
      if !ok {
        FailRuntimeSynchronization();
      }
    }

    method StageSnapshotResult(result: Option<YutResult>, memory: bool) returns (ok: bool)
      requires Valid()
      modifies this, protocol, presentation
      ensures (State(), ok) == Next(layout, old(State()), StageResultCall(result, memory))
    {
      ok := false;
      if result.Some? {
        ok := presentation.StageResult(result.value, memory);
      }
      if !ok {
        FailRuntimeSynchronization();
      }
    }

    method StageSnapshotMoveRequest(m: Option<MoveRequest>) returns (ok: bool)
      requires Valid()
      modifies this, protocol, presentation
      ensures (State(), ok) == Next(layout, old(State()), StageMoveCall(m))
    {
      hide MoveShapeOk;
      ok := false;
      if m.Some? {
        ok := presentation.StageMoveRequest(m.value);
      }
      if !ok {
        FailRuntimeSynchronization();
      }
    }

    /** The sequence and the presentation are committed together or not at all. */
    method CompleteSynchronization() returns (ok: bool)
      requires Valid()
      modifies this, protocol, presentation
      ensures (State(), ok) == Next(layout, old(State()), Complete)
    {
      if pendingEventTail || !presentation.State().CanCommit() {
        FailRuntimeSynchronization();
        return false;
      }
      ok := protocol.CompleteSynchronization();
      if !ok {
        FailRuntimeSynchronization();
        return;
      }
      ok := presentation.CommitSnapshot();
      assert ok;
      pendingEventTail := false;
      snapshotSequenceStaged := false;
    }
  }
}
