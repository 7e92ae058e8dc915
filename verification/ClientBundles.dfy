/** The server's check against the client's: a bundle drives the client exactly when its sequences fit. */
module ClientBundles {
  import opened Domain
  import opened SequenceText
  import opened ReconnectSync
  import opened ClientSync

  /** One event of a bundle, and whether the page has folded it into the snapshot. */
  datatype Event = Event(sequence: Sequence, reduced: bool)

  function EventCall(e: Event): Call {
    if e.reduced then ReducedEventSequence(Format(e.sequence)) else EventSequence(Format(e.sequence))
  }

  function EventCalls(events: seq<Event>): seq<Call> {
    if events == [] then [] else [EventCall(events[0])] + EventCalls(events[1..])
  }

  function PieceCalls(pieces: seq<Piece>): seq<Call> {
    if pieces == [] then [] else [StagePieceCall(Some(pieces[0]), true)] + PieceCalls(pieces[1..])
  }

  function ResultCalls(results: seq<YutResult>): seq<Call> {
    if results == [] then [] else [StageResultCall(Some(results[0]), true)] + ResultCalls(results[1..])
  }

  function Shown(snapshot: Snapshot): seq<Call> {
    [StageMetadataCall(snapshot.metadata)] + (if snapshot.move.Some? then [StageMoveCall(snapshot.move)] else [])
    + PieceCalls(snapshot.pieces) + ResultCalls(snapshot.results)
  }

  /** The page's calls for one bundle. */
  function BundleCalls(s: Sequence, events: seq<Event>, snapshot: Snapshot): seq<Call> {
    [Begin, SnapshotSequence(Format(s))] + EventCalls(events) + Shown(snapshot) + [Complete]
  }

  /** A snapshot the client can show: well-formed, and with a move request exactly where one is asked for. */
  predicate Presentable(layout: Layout, snapshot: Snapshot) {
    && HeadOk(layout, snapshot) && PiecesOk(layout, snapshot.pieces, 0) && |snapshot.results| <= MAX_RESULTS
    && (snapshot.move.Some? <==>
      snapshot.metadata.value.input == SelectMove || snapshot.metadata.value.input == SelectRoute)
  }

  predicate HeadOk(layout: Layout, snapshot: Snapshot) {
    && snapshot.metadata.Some?
    && (snapshot.move.Some? ==>
      MoveShapeOk(layout, snapshot.move.value) && snapshot.move.value.input == snapshot.metadata.value.input)
  }

  /** The pieces have the right shape and fit behind the ones that are there. */
  predicate PiecesOk(layout: Layout, pieces: seq<Piece>, had: nat) {
    had + |pieces| <= MAX_PIECES && forall i :: 0 <= i < |pieces| ==> PieceShapeOk(layout, pieces[i])
  }

  /** The sequences fit a client that last confirmed `last`. */
  predicate Fits(last: Sequence, s: Sequence, events: seq<Event>) {
    s != 0 && last <= s && Continues(s, events)
  }

  predicate Continues(s: Sequence, events: seq<Event>) {
    forall k :: 0 <= k < |events| ==> events[k].sequence as nat == s + k + 1
  }

  predicate AllReduced(events: seq<Event>) {
    forall k :: 0 <= k < |events| ==> events[k].reduced
  }

  /** A synchronization that has failed and was not begun again. */
  predicate Broken(b: Bridge) {
    b.protocol.synchronizing && b.protocol.resynchronizationRequired && !b.presentation.staging
  }

  lemma BrokenCall(layout: Layout, b: Bridge, c: Call)
    requires Broken(b) && c != Begin
    ensures Broken(After(layout, b, c))
  {
    hide Parsed, PieceShapeOk, MoveShapeOk;
  }

  lemma {:induction false} BrokenStays(layout: Layout, b: Bridge, calls: seq<Call>)
    requires Broken(b) && Begin !in calls
    ensures Broken(Run(layout, b, calls))
    decreases |calls|
  {
    hide After, Broken;
    if calls != [] {
      assert calls[0] in calls;
      BrokenCall(layout, b, calls[0]);
      BrokenStays(layout, After(layout, b, calls[0]), calls[1..]);
    }
  }

  /** Where the bridge is once events up to `last` are applied. */
  function Reached(b: Bridge, last: Sequence, tail: bool): Bridge {
    b.(protocol := b.protocol.(pendingSequence := last), eventTail := b.eventTail || tail)
  }

  /** A bridge that has a snapshot sequence staged. */
  predicate Opened(b: Bridge) {
    b.snapshotStaged && b.protocol.synchronizing && !b.protocol.resynchronizationRequired && b.protocol.pendingSet
  }

  lemma EventApplies(layout: Layout, b: Bridge, e: Event)
    requires Opened(b)
    ensures var after := After(layout, b, EventCall(e));
      if e.sequence as nat == b.protocol.pendingSequence + 1
      then Opened(after) && after == Reached(b, e.sequence, !e.reduced)
      else Broken(after)
  {
    hide Parsed, Format;
    ParseFormat(e.sequence);
  }

  /** Events that continue the staged sequence move it to the last of them, and an unreduced one among
      them stays noted; an event that does not continue it breaks the synchronization. */
  lemma {:induction false} EventsApply(layout: Layout, b: Bridge, events: seq<Event>)
    requires Opened(b)
    ensures var after := Run(layout, b, EventCalls(events));
      var last := b.protocol.pendingSequence + |events|;
      if Continues(b.protocol.pendingSequence, events)
      then last <= MAX_UINT64 && Opened(after) && after == Reached(b, last, !AllReduced(events))
      else Broken(after)
    decreases |events|
  {
    hide After, EventCall, Opened, Broken;
    if events == [] {
      RunNothing(layout, b);
    } else {
      var s: nat := b.protocol.pendingSequence;
      var next := After(layout, b, EventCall(events[0]));
      EventApplies(layout, b, events[0]);
      RunCons(layout, b, EventCall(events[0]), EventCalls(events[1..]));
      if events[0].sequence as nat == s + 1 {
        EventsApply(layout, next, events[1..]);
        ContinuesTail(s, events);
      } else {
        NoBegin(events[1..]);
        BrokenStays(layout, next, EventCalls(events[1..]));
      }
    }
  }

  lemma ContinuesTail(s: Sequence, events: seq<Event>)
    requires events != [] && events[0].sequence as nat == s + 1
    ensures Continues(s, events) <==> Continues(events[0].sequence, events[1..])
    ensures AllReduced(events) <==> events[0].reduced && AllReduced(events[1..])
  {
    if Continues(events[0].sequence, events[1..]) {
      forall k | 0 <= k < |events|
        ensures events[k].sequence as nat == s + k + 1
      {
        if k > 0 {
          assert events[k] == events[1..][k - 1];
        }
      }
    }
    if events[0].reduced && AllReduced(events[1..]) {
      forall k | 0 <= k < |events|
        ensures events[k].reduced
      {
        if k > 0 {
          assert events[k] == events[1..][k - 1];
        }
      }
    }
  }

  lemma {:induction false} NoBegin(events: seq<Event>)
    ensures Begin !in EventCalls(events)
  {
    if events != [] {
      NoBegin(events[1..]);
    }
  }

  function WithPieces(b: Bridge, pieces: seq<Piece>): Bridge {
    b.(presentation := b.presentation.(pending := b.presentation.pending.(pieces := pieces)))
  }

  function WithResults(b: Bridge, results: seq<YutResult>): Bridge {
    b.(presentation := b.presentation.(pending := b.presentation.pending.(results := results)))
  }

  lemma RunCons(layout: Layout, b: Bridge, c: Call, rest: seq<Call>)
    ensures Run(layout, b, [c] + rest) == Run(layout, After(layout, b, c), rest)
  {
    assert ([c] + rest)[1..] == rest;
  }

  lemma RunNothing(layout: Layout, b: Bridge)
    ensures Run(layout, b, []) == b
  {
  }

  lemma MoveFirst<T>(had: seq<T>, more: seq<T>)
    requires more != []
    ensures had + [more[0]] + more[1..] == had + more
  {
  }

  lemma PieceApplies(layout: Layout, b: Bridge, piece: Piece)
    requires b.presentation.staging && !b.presentation.failed && |b.presentation.pending.pieces| < MAX_PIECES
    requires PieceShapeOk(layout, piece)
    ensures After(layout, b, StagePieceCall(Some(piece), true)) ==
      WithPieces(b, b.presentation.pending.pieces + [piece])
  {
  }

  /** What staging one more piece leaves, as far as further staging is concerned. */
  lemma PieceStaged(b: Bridge, pieces: seq<Piece>, more: seq<Piece>)
    ensures WithPieces(WithPieces(b, pieces), more) == WithPieces(b, more)
    ensures WithPieces(b, pieces).presentation.pending.pieces == pieces
    ensures WithPieces(b, pieces).presentation.staging == b.presentation.staging
    ensures WithPieces(b, pieces).presentation.failed == b.presentation.failed
    ensures pieces == b.presentation.pending.pieces ==> WithPieces(b, pieces) == b
  {
  }

  lemma {:induction false} PiecesApply(layout: Layout, b: Bridge, pieces: seq<Piece>)
    requires b.presentation.staging && !b.presentation.failed
      && |b.presentation.pending.pieces| + |pieces| <= MAX_PIECES
    requires forall i :: 0 <= i < |pieces| ==> PieceShapeOk(layout, pieces[i])
    ensures Run(layout, b, PieceCalls(pieces)) == WithPieces(b, b.presentation.pending.pieces + pieces)
    decreases |pieces|
  {
    hide After, Run, PieceShapeOk, WithPieces;
    var had := b.presentation.pending.pieces;
    if pieces == [] {
      assert had + pieces == had;
      RunNothing(layout, b);
      PieceStaged(b, had, had);
    } else {
      var next := After(layout, b, StagePieceCall(Some(pieces[0]), true));
      PieceApplies(layout, b, pieces[0]);
      PieceStaged(b, had + [pieces[0]], had + pieces);
      RunCons(layout, b, StagePieceCall(Some(pieces[0]), true), PieceCalls(pieces[1..]));
      PiecesApply(layout, next, pieces[1..]);
      MoveFirst(had, pieces);
    }
  }

  lemma ResultApplies(layout: Layout, b: Bridge, result: YutResult)
    requires b.presentation.staging && !b.presentation.failed && |b.presentation.pending.results| < MAX_RESULTS
    ensures After(layout, b, StageResultCall(Some(result), true)) ==
      WithResults(b, b.presentation.pending.results + [result])
  {
  }

  lemma ResultStaged(b: Bridge, results: seq<YutResult>, more: seq<YutResult>)
    ensures WithResults(WithResults(b, results), more) == WithResults(b, more)
    ensures WithResults(b, results).presentation.pending.results == results
    ensures WithResults(b, results).presentation.staging == b.presentation.staging
    ensures WithResults(b, results).presentation.failed == b.presentation.failed
    ensures results == b.presentation.pending.results ==> WithResults(b, results) == b
  {
  }

  lemma {:induction false} ResultsApply(layout: Layout, b: Bridge, results: seq<YutResult>)
    requires b.presentation.staging && !b.presentation.failed
      && |b.presentation.pending.results| + |results| <= MAX_RESULTS
    ensures Run(layout, b, ResultCalls(results)) == WithResults(b, b.presentation.pending.results + results)
    decreases |results|
  {
    hide After, Run, WithResults;
    var had := b.presentation.pending.results;
    if results == [] {
      assert had + results == had;
      RunNothing(layout, b);
      ResultStaged(b, had, had);
    } else {
      var next := After(layout, b, StageResultCall(Some(results[0]), true));
      ResultApplies(layout, b, results[0]);
      ResultStaged(b, had + [results[0]], had + results);
      RunCons(layout, b, StageResultCall(Some(results[0]), true), ResultCalls(results[1..]));
      ResultsApply(layout, next, results[1..]);
      MoveFirst(had, results);
    }
  }

  /** Staging a well-formed snapshot leaves exactly that snapshot pending. */
  lemma ShownApplies(layout: Layout, b: Bridge, snapshot: Snapshot)
    requires HeadOk(layout, snapshot) && PiecesOk(layout, snapshot.pieces, 0) && |snapshot.results| <= MAX_RESULTS
    requires b.presentation == b.presentation.BeginSnapshot()
    ensures Run(layout, b, Shown(snapshot)) == b.(presentation := b.presentation.(pending := snapshot))
  {
    hide PieceShapeOk, MoveShapeOk;
    var head := [StageMetadataCall(snapshot.metadata)] +
      (if snapshot.move.Some? then [StageMoveCall(snapshot.move)] else []);
    var staged := b.(presentation := b.presentation.(pending := Snapshot(snapshot.metadata, [], [], snapshot.move)));
    HeadApplies(layout, b, snapshot, head);
    RunConcat(layout, b, head, PieceCalls(snapshot.pieces));
    PiecesApply(layout, staged, snapshot.pieces);
    RunConcat(layout, b, head + PieceCalls(snapshot.pieces), ResultCalls(snapshot.results));
    assert [] + snapshot.pieces == snapshot.pieces && [] + snapshot.results == snapshot.results;
    ResultsApply(layout, Run(layout, staged, PieceCalls(snapshot.pieces)), snapshot.results);
  }

  lemma HeadApplies(layout: Layout, b: Bridge, snapshot: Snapshot, head: seq<Call>)
    requires HeadOk(layout, snapshot) && b.presentation == b.presentation.BeginSnapshot()
    requires head ==
      [StageMetadataCall(snapshot.metadata)] + (if snapshot.move.Some? then [StageMoveCall(snapshot.move)] else [])
    ensures Run(layout, b, head) ==
      b.(presentation := b.presentation.(pending := Snapshot(snapshot.metadata, [], [], snapshot.move)))
  {
    hide PieceShapeOk, MoveShapeOk;
    RunSnoc(layout, b, [], StageMetadataCall(snapshot.metadata));
    assert [] + [StageMetadataCall(snapshot.metadata)] == [StageMetadataCall(snapshot.metadata)];
    if snapshot.move.Some? {
      RunSnoc(layout, b, [StageMetadataCall(snapshot.metadata)], StageMoveCall(snapshot.move));
    }
  }

  lemma PieceFails(layout: Layout, b: Bridge, piece: Piece)
    requires b.protocol.synchronizing && (b.presentation.staging ==>
      |b.presentation.pending.pieces| >= MAX_PIECES || !PieceShapeOk(layout, piece))
    ensures Broken(After(layout, b, StagePieceCall(Some(piece), true)))
  {
    hide PieceShapeOk;
  }

  lemma {:induction false} PiecesBreak(layout: Layout, b: Bridge, pieces: seq<Piece>)
    requires b.presentation.staging && !b.presentation.failed && b.protocol.synchronizing
    requires |b.presentation.pending.pieces| <= MAX_PIECES
    requires !PiecesOk(layout, pieces, |b.presentation.pending.pieces|)
    ensures Broken(Run(layout, b, PieceCalls(pieces)))
    decreases |pieces|
  {
    hide After, Run, PieceShapeOk, WithPieces, Broken;
    var had := b.presentation.pending.pieces;
    if pieces != [] {
      var next := After(layout, b, StagePieceCall(Some(pieces[0]), true));
      RunCons(layout, b, StagePieceCall(Some(pieces[0]), true), PieceCalls(pieces[1..]));
      if |had| < MAX_PIECES && PieceShapeOk(layout, pieces[0]) {
        PieceApplies(layout, b, pieces[0]);
        PieceStaged(b, had + [pieces[0]], []);
        StillSynchronizing(b, had + [pieces[0]]);
        PiecesBreak(layout, next, pieces[1..]);
      } else {
        PieceFails(layout, b, pieces[0]);
        PiecesNeverBegin(pieces[1..]);
        BrokenStays(layout, next, PieceCalls(pieces[1..]));
      }
    }
  }

  lemma StillSynchronizing(b: Bridge, pieces: seq<Piece>)
    ensures WithPieces(b, pieces).protocol == b.protocol
    ensures WithPieces(b, pieces).presentation.pending.results == b.presentation.pending.results
  {
  }

  lemma ResultFails(layout: Layout, b: Bridge, result: YutResult)
    requires b.protocol.synchronizing && (b.presentation.staging ==> |b.presentation.pending.results| >= MAX_RESULTS)
    ensures Broken(After(layout, b, StageResultCall(Some(result), true)))
  {
  }

  lemma {:induction false} ResultsBreak(layout: Layout, b: Bridge, results: seq<YutResult>)
    requires b.presentation.staging && !b.presentation.failed && b.protocol.synchronizing
    requires |b.presentation.pending.results| <= MAX_RESULTS < |b.presentation.pending.results| + |results|
    ensures Broken(Run(layout, b, ResultCalls(results)))
    decreases |results|
  {
    hide After, Run, WithResults, Broken;
    var had := b.presentation.pending.results;
    var next := After(layout, b, StageResultCall(Some(results[0]), true));
    RunCons(layout, b, StageResultCall(Some(results[0]), true), ResultCalls(results[1..]));
    if |had| < MAX_RESULTS {
      ResultApplies(layout, b, results[0]);
      ResultStaged(b, had + [results[0]], []);
      StillOpen(b, had + [results[0]]);
      ResultsBreak(layout, next, results[1..]);
    } else {
      ResultFails(layout, b, results[0]);
      ResultsNeverBegin(results[1..]);
      BrokenStays(layout, next, ResultCalls(results[1..]));
    }
  }

  lemma StillOpen(b: Bridge, results: seq<YutResult>)
    ensures WithResults(b, results).protocol == b.protocol
  {
  }

  lemma HeadBreaks(layout: Layout, b: Bridge, snapshot: Snapshot, head: seq<Call>)
    requires !HeadOk(layout, snapshot) && b.presentation == b.presentation.BeginSnapshot() && b.protocol.synchronizing
    requires head ==
      [StageMetadataCall(snapshot.metadata)] + (if snapshot.move.Some? then [StageMoveCall(snapshot.move)] else [])
    ensures Broken(Run(layout, b, head))
  {
    hide PieceShapeOk, MoveShapeOk;
    RunSnoc(layout, b, [], StageMetadataCall(snapshot.metadata));
    assert [] + [StageMetadataCall(snapshot.metadata)] == [StageMetadataCall(snapshot.metadata)];
    if snapshot.move.Some? {
      RunSnoc(layout, b, [StageMetadataCall(snapshot.metadata)], StageMoveCall(snapshot.move));
    }
  }

  /** Staging a snapshot that is not presentable leaves nothing that could be committed. */
  lemma UnshownFails(layout: Layout, b: Bridge, snapshot: Snapshot)
    requires !Presentable(layout, snapshot) && b.presentation == b.presentation.BeginSnapshot()
    requires b.protocol.synchronizing
    ensures !Run(layout, b, Shown(snapshot)).presentation.CanCommit()
  {
    hide PieceShapeOk, MoveShapeOk, HeadOk, PiecesOk, Run;
    var head := [StageMetadataCall(snapshot.metadata)] +
      (if snapshot.move.Some? then [StageMoveCall(snapshot.move)] else []);
    RunConcat(layout, b, head, PieceCalls(snapshot.pieces));
    RunConcat(layout, b, head + PieceCalls(snapshot.pieces), ResultCalls(snapshot.results));
    PiecesNeverBegin(snapshot.pieces);
    ResultsNeverBegin(snapshot.results);
    var first := Run(layout, b, head);
    var second := Run(layout, first, PieceCalls(snapshot.pieces));
    if !HeadOk(layout, snapshot) {
      HeadBreaks(layout, b, snapshot, head);
      BrokenStays(layout, first, PieceCalls(snapshot.pieces));
      BrokenStays(layout, second, ResultCalls(snapshot.results));
    } else if !PiecesOk(layout, snapshot.pieces, 0) {
      HeadApplies(layout, b, snapshot, head);
      PiecesBreak(layout, first, snapshot.pieces);
      BrokenStays(layout, second, ResultCalls(snapshot.results));
    } else if |snapshot.results| > MAX_RESULTS {
      HeadApplies(layout, b, snapshot, head);
      AllPieces(layout, first, snapshot.pieces);
      ResultsBreak(layout, second, snapshot.results);
    } else {
      ShownApplies(layout, b, snapshot);
    }
  }

  lemma AllPieces(layout: Layout, b: Bridge, pieces: seq<Piece>)
    requires b.presentation.staging && !b.presentation.failed && b.presentation.pending.pieces == []
    requires PiecesOk(layout, pieces, 0)
    ensures Run(layout, b, PieceCalls(pieces)) == WithPieces(b, pieces)
  {
    hide PieceShapeOk, Run;
    PiecesApply(layout, b, pieces);
    assert [] + pieces == pieces;
  }

  lemma ShownNeverBegins(snapshot: Snapshot)
    ensures Begin !in Shown(snapshot)
  {
    PiecesNeverBegin(snapshot.pieces);
    ResultsNeverBegin(snapshot.results);
  }

  lemma {:induction false} PiecesNeverBegin(pieces: seq<Piece>)
    ensures Begin !in PieceCalls(pieces) && Complete !in PieceCalls(pieces)
  {
    if pieces != [] {
      PiecesNeverBegin(pieces[1..]);
    }
  }

  lemma {:induction false} ResultsNeverBegin(results: seq<YutResult>)
    ensures Begin !in ResultCalls(results) && Complete !in ResultCalls(results)
  {
    if results != [] {
      ResultsNeverBegin(results[1..]);
    }
  }

  lemma OpeningApplies(layout: Layout, b: Bridge, s: Sequence)
    ensures var after := Run(layout, b, [Begin, SnapshotSequence(Format(s))]);
      var begun := After(layout, b, Begin);
      if s != 0 && b.protocol.LastSequence() <= s
      then after == Bridge(begun.protocol.(pendingSequence := s, pendingSet := true), begun.presentation, false, true)
      else Broken(after)
  {
    hide Parsed, Format;
    ParseFormat(s);
    RunSnoc(layout, b, [Begin], SnapshotSequence(Format(s)));
    RunSnoc(layout, b, [], Begin);
    assert [] + [Begin] == [Begin] && [Begin] + [SnapshotSequence(Format(s))] == [Begin, SnapshotSequence(Format(s))];
  }

  /** Whatever state the client is in, a bundle completes exactly when its sequences fit, no event was sent
      unreduced, and its snapshot is presentable; it then confirms the snapshot together with the last event's
      sequence, and otherwise leaves what was confirmed before and keeps commands disabled. */
  lemma BundleCompletesExactly(layout: Layout, b: Bridge, s: Sequence, events: seq<Event>, snapshot: Snapshot)
    requires BridgeInv(b)
    ensures var after := Run(layout, b, BundleCalls(s, events, snapshot));
      if Fits(b.protocol.LastSequence(), s, events) && AllReduced(events) && Presentable(layout, snapshot)
      then
        && after.protocol.CanSendCommands()
        && after.protocol.LastSequence() as nat == s + |events| && after.presentation.confirmed == Some(snapshot)
      else
        && Broken(after) && !after.protocol.CanSendCommands()
        && after.protocol.LastSequence() == b.protocol.LastSequence()
        && after.presentation.confirmed == b.presentation.confirmed
  {
    hide Presentable, Next, Run, Format, Shown, EventCalls, Continues, AllReduced, Presentation.CanCommit;
    var before := [Begin, SnapshotSequence(Format(s))] + EventCalls(events) + Shown(snapshot);
    var staged := Run(layout, b, before);
    BundleStages(layout, b, s, events, snapshot);
    RunSnoc(layout, b, before, Complete);
    NoCompletion(events, snapshot, s);
    OnlyCompletionConfirms(layout, b, before);
    if Fits(b.protocol.LastSequence(), s, events) {
      if !Presentable(layout, snapshot) {
        UnshownCompletion(layout, staged);
      } else if AllReduced(events) {
        CompletionSucceeds(layout, staged, snapshot);
      } else {
        UnreducedCompletion(layout, staged);
      }
    } else {
      BrokenCompletion(layout, staged);
    }
  }

  /** Everything before the completion: the whole bundle is staged, or nothing can be committed. */
  lemma BundleStages(layout: Layout, b: Bridge, s: Sequence, events: seq<Event>, snapshot: Snapshot)
    ensures var staged := Run(layout, b, [Begin, SnapshotSequence(Format(s))] + EventCalls(events) + Shown(snapshot));
      if !Fits(b.protocol.LastSequence(), s, events) then Broken(staged)
      else if !Presentable(layout, snapshot) then !staged.presentation.CanCommit()
      else
        && Opened(staged) && staged.protocol.pendingSequence as nat == s + |events|
        && staged.eventTail == !AllReduced(events)
        && staged.presentation.pending == snapshot && staged.presentation.staging && !staged.presentation.failed
  {
    hide Next, Run, Format, Shown, EventCalls, Continues, AllReduced, Presentation.CanCommit, HeadOk, PiecesOk;
    var opening := [Begin, SnapshotSequence(Format(s))];
    var first := Run(layout, b, opening);
    OpeningApplies(layout, b, s);
    RunConcat(layout, b, opening, EventCalls(events));
    var second := Run(layout, first, EventCalls(events));
    RunConcat(layout, b, opening + EventCalls(events), Shown(snapshot));
    NoBegin(events);
    ShownNeverBegins(snapshot);
    if s != 0 && b.protocol.LastSequence() <= s {
      BegunPresentation(layout, b);
      EventsApply(layout, first, events);
      if !Fits(b.protocol.LastSequence(), s, events) {
        BrokenStays(layout, second, Shown(snapshot));
      } else if Presentable(layout, snapshot) {
        ShownApplies(layout, second, snapshot);
      } else {
        UnshownFails(layout, second, snapshot);
      }
    } else {
      BrokenStays(layout, first, EventCalls(events));
      BrokenStays(layout, second, Shown(snapshot));
    }
  }

  lemma UnshownCompletion(layout: Layout, b: Bridge)
    requires !b.presentation.CanCommit() && BridgeInv(b)
    ensures var after := After(layout, b, Complete);
      && Broken(after) && !after.protocol.CanSendCommands()
      && after.protocol.LastSequence() == b.protocol.LastSequence()
      && after.presentation.confirmed == b.presentation.confirmed
  {
  }

  lemma NoCompletion(events: seq<Event>, snapshot: Snapshot, s: Sequence)
    ensures Complete !in [Begin, SnapshotSequence(Format(s))] + EventCalls(events) + Shown(snapshot)
  {
    hide Format;
    EventsNeverComplete(events);
    PiecesNeverBegin(snapshot.pieces);
    ResultsNeverBegin(snapshot.results);
  }

  lemma {:induction false} EventsNeverComplete(events: seq<Event>)
    ensures Complete !in EventCalls(events)
  {
    if events != [] {
      EventsNeverComplete(events[1..]);
    }
  }

  /** Without a completion, what was confirmed stays confirmed. */
  lemma {:induction false} OnlyCompletionConfirms(layout: Layout, b: Bridge, calls: seq<Call>)
    requires BridgeInv(b) && Complete !in calls
    ensures BridgeInv(Run(layout, b, calls))
    ensures Run(layout, b, calls).protocol.LastSequence() == b.protocol.LastSequence()
    ensures Run(layout, b, calls).presentation.confirmed == b.presentation.confirmed
    decreases |calls|
  {
    hide BridgeInv, Next;
    if calls != [] {
      assert calls[0] in calls;
      CallEffect(layout, b, calls[0]);
      OnlyCompletionConfirms(layout, After(layout, b, calls[0]), calls[1..]);
    }
  }

  lemma BegunPresentation(layout: Layout, b: Bridge)
    ensures var begun := After(layout, b, Begin);
      && begun.presentation == begun.presentation.BeginSnapshot()
      && begun.protocol.synchronizing && !begun.protocol.resynchronizationRequired
  {
  }

  lemma CompletionSucceeds(layout: Layout, b: Bridge, snapshot: Snapshot)
    requires Presentable(layout, snapshot) && b.presentation.pending == snapshot && b.presentation.staging
      && !b.presentation.failed
    requires b.protocol.synchronizing && b.protocol.pendingSet && !b.protocol.resynchronizationRequired && !b.eventTail
    ensures var after := After(layout, b, Complete);
      && after.protocol.CanSendCommands() && after.protocol.LastSequence() == b.protocol.pendingSequence
      && after.presentation.confirmed == Some(snapshot)
  {
    hide PieceShapeOk, MoveShapeOk;
  }

  /** A completion that fails leaves what was confirmed. */
  lemma BrokenCompletion(layout: Layout, b: Bridge)
    requires Broken(b) && BridgeInv(b)
    ensures var after := After(layout, b, Complete);
      && Broken(after) && !after.protocol.CanSendCommands()
      && after.protocol.LastSequence() == b.protocol.LastSequence()
        && after.presentation.confirmed == b.presentation.confirmed
  {
  }

  lemma UnreducedCompletion(layout: Layout, b: Bridge)
    requires b.eventTail && BridgeInv(b)
    ensures var after := After(layout, b, Complete);
      && Broken(after) && !after.protocol.CanSendCommands()
      && after.protocol.LastSequence() == b.protocol.LastSequence()
        && after.presentation.confirmed == b.presentation.confirmed
  {
  }

  /** A call out of order breaks the synchronization, whatever state the client is in: a second snapshot
      sequence, an event before the snapshot's, metadata or a move request given twice, and a move request
      before the metadata. */
  lemma OutOfOrderBreaks(layout: Layout, b: Bridge, c: Call)
    requires BridgeInv(b)
    requires match c
      case SnapshotSequence(_) => b.snapshotStaged || !b.protocol.synchronizing
      case EventSequence(_) => !b.snapshotStaged
      case ReducedEventSequence(_) => !b.snapshotStaged
      case StageMetadataCall(_) => b.presentation.pending.metadata.Some? || !b.presentation.staging
      case StageMoveCall(_) => b.presentation.pending.move.Some? || b.presentation.pending.metadata.None?
      case _ => false
    ensures Broken(After(layout, b, c)) && !Next(layout, b, c).1
    ensures After(layout, b, c).protocol.LastSequence() == b.protocol.LastSequence()
    ensures After(layout, b, c).presentation.confirmed == b.presentation.confirmed
  {
    hide Parsed, PieceShapeOk, MoveShapeOk;
  }

  /** The events are those of the server's bundle, each reduced or not. */
  predicate Carries(events: seq<Event>, bundle: Bundle) {
    |events| == |bundle.events| &&
    forall k :: 0 <= k < |events| ==> bundle.events[k].Some? && events[k].sequence == bundle.events[k].value.sequence
  }

  /** Every bundle the server accepts for the sequence a client reported drives that client to the
      snapshot's sequence plus the number of events if every event was reduced and the snapshot is
      presentable, and fails otherwise. */
  lemma AcceptedBundleDrives(
    layout: Layout, b: Bridge, command: Command, bundle: Bundle, events: seq<Event>, snapshot: Snapshot)
    requires BridgeInv(b) && BundleOk(command, bundle) && command.lastSequence == Some(b.protocol.LastSequence())
    requires Carries(events, bundle)
    ensures var after := Run(layout, b, BundleCalls(bundle.snapshot.value.sequence, events, snapshot));
      && (after.protocol.CanSendCommands() <==> AllReduced(events) && Presentable(layout, snapshot))
      && (after.protocol.CanSendCommands() ==>
        && after.protocol.LastSequence() as nat == bundle.snapshot.value.sequence + |bundle.events|
        && after.presentation.confirmed == Some(snapshot))
      && (!after.protocol.CanSendCommands() ==>
        && after.protocol.LastSequence() == b.protocol.LastSequence()
        && after.presentation.confirmed == b.presentation.confirmed)
  {
    hide BridgeInv, Run, Presentable, BundleCalls;
    assert forall k :: 0 <= k < |bundle.events| ==> EventFollows(bundle.snapshot.value, k, bundle.events[k]);
    BundleCompletesExactly(layout, b, bundle.snapshot.value.sequence, events, snapshot);
  }

  /** A new client at sequence 10 is sent event 11 as it is: the server accepts the bundle, and the client
      fails it. Reduced, the same bundle completes. */
  lemma UnreducedEventFails(layout: Layout, reduced: bool)
    ensures var command := Command(true, 1, Some(1), Some(0));
      var bundle := Bundle(Some(SnapshotScope(1, 1, 10)), [Some(EventScope(11, 1, Some(1)))]);
      var snapshot := Snapshot(Some(Metadata(0, 0, Throw, 0, 0, 0)), [], [], None);
      var after := Run(layout, BRIDGE_INIT, BundleCalls(10, [Event(11, reduced)], snapshot));
      && BundleOk(command, bundle) && Presentable(layout, snapshot)
      && (after.protocol.CanSendCommands() <==> reduced)
      && after.protocol.LastSequence() == if reduced then 11 else 0
  {
    hide Run, BundleCalls, BridgeInv;
    InitialInv();
    var command := Command(true, 1, Some(1), Some(0));
    var bundle := Bundle(Some(SnapshotScope(1, 1, 10)), [Some(EventScope(11, 1, Some(1)))]);
    var snapshot := Snapshot(Some(Metadata(0, 0, Throw, 0, 0, 0)), [], [], None);
    assert AllReduced([Event(11, reduced)]) <==> [Event(11, reduced)][0].reduced;
    AcceptedBundleDrives(layout, BRIDGE_INIT, command, bundle, [Event(11, reduced)], snapshot);
  }
}
