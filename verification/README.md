# Verified model of the Yutnori server and client core

This project models the rules engine, the event commit protocol and the synchronization and admission
code of a server-authoritative Yutnori match, and proves what they promise. `dafny verify dfyconfig.toml`
checks everything.

The source's validated strings are datatypes (`Domain.dfy`), its stateful objects are classes that update
fields in place, and its loops are loops. Each such method is proved equal to a function of the old state;
the laws are lemmas about those functions and hold for every input, every run, or every interleaving.

| files | subject |
|---|---|
| `BoardGraph`, `BoardSearch`, `BoardForward`, `BoardValidate`, `BoardTheorems`, `BoardRoutes`, `CanonicalBoard` | the board graph, its searches, the step-by-step planner, the validation gate, and the checked-in board |
| `TurnQueue`, `TurnMachine`, `TurnThrows`, `TurnLaws` | the result queue and the turn machine |
| `MatchRules`, `MatchEngine`, `MatchSetup`, `MatchInvariants`, `MatchBuk`, `MatchRuns`, `MatchLaws`, `BukLaws` | the piece engine: moves, captures, stacks, Buk, victory |
| `MatchFlow`, `MatchDriver`, `MatchOffers`, `MatchTurns`, `MatchWholeTurn`, `FlowLaws`, `DeadEndRun`, `DeadEndOpening` | machine and game driven together for one turn |
| `EventCommit`, `EventRegistry`, `EventInvariants`, `EventTheorems`, `EventAnnounced`, `EventStatus`, `EventJoins` | persist, commit, broadcast, storage pause, retry, invalidation, presence |
| `RateLimits`, `ChatLimits`, `Processor`, `RoomActor` | rate limits, chat admission, idempotent commands, the room's single executor |
| `SequenceText`, `ReconnectSync`, `ClientSync`, `ClientRuntime`, `ClientBundles` | the reconnect bundle and the client's staged synchronization |
| `CpuPolicy`, `CpuGroupKey`, `CpuTheorems`, `CpuLaws` | the CPU's choice |

## What the code does not meet

Each of these is a property one would expect, with the condition under which the code meets it.

- A turn can always go on: `MatchWholeTurn.TurnGoesOn` holds exactly outside the dead end of two or more
  exposed results that are all unusable Backdos. `DeadEndOpening.NewGameReachesDeadEnd` plays from a new game
  on the checked-in board into such a turn in free order, and `DeadEndRun.DeadEndIsReachable` shows that no
  step is accepted there; the runtime then reports a configuration error instead of discarding.
  `MatchTurns.FifoNeverFails` shows that first-in first-out order rules it out, and
  `MatchWholeTurn.DeadEndTakesTwoBackdos` that it takes two Backdos in one turn.
- Clients see every room sequence once: `EventTheorems.ReuseOnlyAfterFailedNotice` gives the exact
  condition, and `EventTheorems.LostInvalidationReuses` a run. The comment in
  `internal/application/match_runtime.go:919-921` expects a gap in the store; by `EventTheorems.EveryRun`
  the store never has one, and the clients see numbers again instead.
- Everything delivered was stored first: by `EventTheorems.EveryRun` this fails only for the notice of a
  termination whose own append failed.
- A retry against a healthy store succeeds, and staged rows are never dropped: both hold as long as nothing
  is flushed during a storage pause (`EventTheorems.HealthyRetryRecovers`, `EventAnnounced.RunLosesNothing`), as
  for every command, which is refused then. A spectator's join is not refused. By
  `EventJoins.PendingStorableExactly` it takes the numbers of the pending batch exactly when it is stored,
  which ends the match (`EventJoins.StoredJoinEndsMatch`); when it is not, the pending batch is dropped
  (`EventJoins.FailedJoinDropsPending`). The comment in `internal/application/match_runtime.go:662-666`
  calls a duplicate key impossible.
- A match ends once: `EventTheorems.TerminationEnds` gives the exact condition, and
  `EventTheorems.FinishedMatchCanEndTwice` a run in which a finished match is also invalidated, in one
  stored batch and without its statistics.
- Every bundle the server accepts leads to a completion: by `ClientBundles.BundleCompletesExactly` it does
  exactly when no event was sent unreduced and its snapshot is presentable, and
  `ClientBundles.UnreducedEventFails` is a bundle that fails.

## Model

| member | source | states |
|---|---|---|
| BoardSearch.ShortestDistance | internal/domain/board/distance.go:100-143 | a distance is found exactly when the destination is reachable along policy-legal edges, and the number is the minimum length of such a walk; an unknown space is the error |
| BoardSearch.ReachableFrom | internal/domain/board/distance.go:14-41 | returns exactly the reachable spaces, each once |
| BoardSearch.RemainingForwardDistance | internal/domain/board/distance.go:45-98 | equals the shortest walk home plus the home checkpoint distance, with every position error of the source |
| BoardSearch.FirstArrival | internal/domain/board/distance.go:119-139 | the first time the search meets the destination it is at the minimum distance |
| BoardSearch.ExhaustedMeansUnreachable | internal/domain/board/distance.go:140-142 | an exhausted search means that no walk of any length exists |
| BoardSearch.ClosedSetHoldsWalks | internal/domain/board/distance.go:23-40 | no legal walk leaves a set that is closed under legal steps |
| BoardForward.BuildForwardPlan | internal/domain/board/forward.go:176-238 | the step loop computes the recursive plan: first space, forced or normal steps, home stop, finish |
| BoardTheorems.ForwardPlansTotal | internal/domain/board/forward.go:48-107 | on a validated graph planning succeeds for every valid unfinished position, positive distance and policy, with one plan or the normal and the shortcut plan, each a legal walk from the origin that ends on the destination with the right predecessor |
| BoardTheorems.TravelShape | internal/domain/board/forward.go:190-237 | every plan is a legal walk of the asked length, cut short only by passing home |
| BoardRoutes.PlansTakeTheirRoutes | internal/domain/board/forward.go:48-107 | every plan takes its branches, told from its path: under the forced policy the shortcut at every choice; under the selectable policy the branch its route names where it starts and the normal one later, except that a move inside the Back-Mo shortcut goes on towards Bangsugi at Bang; at a choice the first plan is the normal one and the second the shortcut |
| BoardRoutes.PathIsDetermined | internal/domain/board/forward.go:190-237 | where a plan starts, its route and its length determine its path |
| BoardTheorems.DistanceDefined | internal/domain/board/distance.go:45-98 | every valid position on the board has a positive finish distance, one at the home checkpoint |
| BoardTheorems.ForcedMoveExact | internal/domain/board/forward.go:176-238 | forced policy: a move finishes if and only if it has at least the remaining distance, and any other move lowers it by exactly its spaces |
| BoardTheorems.SelectableMoveBounded | internal/domain/board/forward.go:176-238 | selectable policy: no plan finishes in fewer spaces than the distance and no move lowers it by more than its spaces |
| BoardTheorems.ForcedStepIsUnique | internal/domain/board/distance.go:145-152 | forced edges leave exactly one legal step from every space |
| BoardValidate.Validate | internal/domain/board/validate.go:9-106 | reports no problem if and only if the graph satisfies every structural rule |
| BoardValidate.ValidateNodes | internal/domain/board/validate.go:22-48 | no problem if and only if node identifiers are nonempty and distinct |
| BoardValidate.ValidateEdges | internal/domain/board/validate.go:71-93 | no problem if and only if every edge joins two known different spaces and none is repeated |
| BoardValidate.ValidateRouteChoices | internal/domain/board/validate.go:108-210 | no problem if and only if choices are exactly the branching spaces, with two distinct edges, and forced edges are exactly their shortcuts |
| BoardValidate.ValidateHomePaths | internal/domain/board/validate.go:230-239 | no problem if and only if every space has a walk home under the policy |
| BoardValidate.ValidateReachability | internal/domain/board/validate.go:212-241 | no problem if and only if everything is reachable from the start and reaches home under both policies |
| BoardValidate.ValidateOuterRing | internal/domain/board/validate.go:243-294 | the walk accepts if and only if the outer spaces form one ring through the start along normal successors |
| BoardValidate.TrailFollowsRing | internal/domain/board/validate.go:255-292 | a walk of forced outer successors can only be an initial stretch of the ring |
| BoardValidate.ValidateBukCandidates | internal/domain/board/validate.go:296-361 | no problem if and only if the ten Buk candidates are distinct, tagged, off route choices and center, and contain the fixed destination |
| CanonicalBoard.BoardIsValid | spec/board_graph.yaml:17-118 | the checked-in board passes every rule |
| CanonicalBoard.HomeFrom | spec/board_graph.yaml:60-118 | every space of the checked-in board reaches home under either policy |
| CanonicalBoard.AdjacentAt | spec/board_graph.yaml:60-118 | the successors of every space, in declaration order |
| TurnQueue.ResultQueue.Append | internal/domain/turn/queue.go:61-87 | appends exactly the valid, fresh, non-overflowing token, or reports why not and changes nothing |
| TurnQueue.ResultQueue.Consume | internal/domain/turn/queue.go:118-141 | removes exactly the exposed token in place and keeps its identifier used |
| TurnQueue.ResultQueue.Exposed | internal/domain/turn/queue.go:152-165 | an unresolved Buk alone is exposed, else the head or the whole queue by the movement order |
| TurnQueue.AppendKeeps | internal/domain/turn/queue.go:61-87 | appending keeps capacity, distinct identifiers and at most one Buk, and adds one new identifier |
| TurnQueue.ConsumeKeeps | internal/domain/turn/queue.go:118-141 | consuming keeps the queue invariant and removes exactly the named token |
| TurnQueue.AvailableIsConsumable | internal/domain/turn/queue.go:107-141 | every exposed token can be consumed |
| TurnMachine.Machine.Start | internal/domain/turn/machine.go:130-143 | from turn start to the first throw window; a refused call reports the source's error and changes nothing |
| TurnMachine.Machine.BeginThrow | internal/domain/turn/machine.go:146-155 | opens a throw and returns the expected origin; a refused call reports the source's error and changes nothing |
| TurnMachine.Machine.RecordThrow | internal/domain/turn/machine.go:158-212 | queues the token, caps the chain at 32, and grants Yut and Mo extras; a refused call reports the source's error and changes nothing |
| TurnMachine.Machine.ResolveQueue | internal/domain/turn/machine.go:215-235 | ends the turn, starts a Buk, or opens move selection; a refused call reports the source's error and changes nothing |
| TurnMachine.Machine.SelectMove | internal/domain/turn/machine.go:240-261 | selects an exposed token that is not a Buk; a refused call reports the source's error and changes nothing |
| TurnMachine.Machine.RouteSelected | internal/domain/turn/machine.go:264-275 | continues the selected token after its route; a refused call reports the source's error and changes nothing |
| TurnMachine.Machine.MoveApplied | internal/domain/turn/machine.go:278-289 | continues the selected token after its move; a refused call reports the source's error and changes nothing |
| TurnMachine.Machine.CompleteMove | internal/domain/turn/machine.go:292-310 | consumes the selected token and advances; a refused call reports the source's error and changes nothing |
| TurnMachine.Machine.DiscardUnusableResult | internal/domain/turn/machine.go:315-340 | consumes an exposed token that is not a Buk; a refused call reports the source's error and changes nothing |
| TurnMachine.Machine.CompleteBuk | internal/domain/turn/machine.go:343-365 | consumes the Buk and advances, or ends the turn without candidates; a refused call reports the source's error and changes nothing |
| TurnMachine.Machine.AdvanceAfterResolution | internal/domain/turn/machine.go:367-383 | match end, then the cap, then a capture throw, then the queue |
| TurnMachine.PerformKeepsInv | internal/domain/turn/machine.go:145-383 | every accepted call keeps: input, origin and selection follow the phase, the selected token is exposed, a Buk is queued only while it is being resolved, the cap closes the throw chain |
| TurnMachine.RunKeepsInv | internal/domain/turn/machine.go:130-383 | the machine invariant holds after any sequence of calls |
| TurnMachine.QueueErrorsNeverHappen | internal/domain/turn/machine.go:145-365 | in every reachable state recording never meets a full queue or a second Buk, and the completion the phase expects always consumes the selected token |
| TurnLaws.AcceptedExactly | internal/domain/turn/machine.go:130-365 | in every reachable state a call is accepted if and only if it is the phase's and about the expected token; a result may be used if and only if it is a Buk, or no Buk is queued and it is the first or the order is free |
| TurnLaws.PhaseFollows | internal/domain/turn/machine.go:130-383 | an accepted call leads to its phase, told from the queue, the cap and the call |
| TurnMachine.TokensAreConserved | internal/domain/turn/queue.go:118-141 | in every history each identifier is generated once and used at most once, and the queue holds exactly the unused ones |
| TurnLaws.FirstInFirstOut | internal/domain/turn/queue.go:107-165 | first in, first out: in every history the ordinary results are used in the order they were thrown and the queue holds the rest in that order |
| TurnThrows.ThrowsAreGranted | internal/domain/turn/machine.go:158-235 | every throw of a history was granted exactly once: by the turn, by a Yut or Mo below the cap, or by a rewarded capture |
| TurnThrows.OriginsAreReasons | internal/domain/turn/machine.go:158-212 | an accepted throw carries the origin for which it was granted |
| MatchEngine.Game.ApplyMoveResolution | internal/domain/match/resolution.go:38-100 | the loops that overwrite pieces in place reach exactly the specified pieces, winner and outcome |
| MatchEngine.Game.OverwritePieces | internal/domain/match/resolution.go:52-70 | captured pieces are sent home and the moved and joined group is relocated, nothing else changes |
| MatchEngine.Game.DestinationAllies | internal/domain/match/resolution.go:102-123 | the unmoved allies on the destination, in order |
| MatchEngine.Game.CapturedPieceIndices | internal/domain/match/resolution.go:125-140 | the opponents on the destination, in order |
| MatchEngine.Game.AllTeamPiecesFinished | internal/domain/match/resolution.go:156-163 | true if and only if every piece of the team is finished |
| MatchEngine.Game.MovingPieceIndices | internal/domain/match/game.go:202-216 | a piece moves alone without stacking or while waiting, else with its whole space |
| MatchEngine.Game.OwnedPieceIndex | internal/domain/match/game.go:185-200 | finds the owned piece or tells an unknown from a foreign one |
| MatchRules.CaptureGrantsExtraThrow | internal/domain/match/resolution.go:165-177 | always and never reward as they say; the middle policy rewards captures by moves of at most three spaces and by the special results |
| MatchInvariants.RelocateEffect | internal/domain/match/resolution.go:53-70 | each piece is relocated, sent home or untouched, exactly by its place |
| MatchInvariants.ResolutionKeepsInv | internal/domain/match/resolution.go:38-100 | a relocation keeps positions, separation of the teams, shared history, roster and the meaning of the winner |
| MatchInvariants.RelocateKeeps | internal/domain/match/resolution.go:53-85 | no space holds both teams and stacked allies share their history after a relocation |
| MatchInvariants.OrdinaryAlwaysPlans | internal/domain/match/ordinary_movement.go:27-71 | every unfinished owned piece always has a plan for an ordinary result, and every plan passes the engine's own check |
| MatchInvariants.BackdoExact | internal/domain/match/backdo_movement.go:25-56 | a Backdo is available if and only if the piece is on the board with recorded history |
| MatchLaws.OrdinaryExact | internal/domain/match/ordinary_movement.go:27-222 | an ordinary move is accepted if and only if the piece is the team's and unfinished and a route is given exactly where one is asked for; then the piece and its companions go where the plan of that route leads, opponents met there go back to waiting, allies met there join under stacking, nobody else changes, and the outcome reports exactly this |
| MatchLaws.BackdoMovesExactly | internal/domain/match/backdo_movement.go:25-118 | a Backdo takes the piece and its companions back to the recorded space, records the space it left, and reports it |
| MatchLaws.ResolutionReports | internal/domain/match/resolution.go:38-177 | an outcome lists exactly the moved pieces, the opponents sent home and the stack of two or more on the destination, says where from and to, and earns a throw if and only if an opponent was met, the match goes on and the result is rewarded |
| MatchLaws.OnlyCompanionsMove | internal/domain/match/game.go:202-216 | off the destination only allies that share the piece's place on the board move with it, and only with stacking; a waiting piece enters alone |
| MatchLaws.OrdinaryRefused | internal/domain/match/ordinary_movement.go:27-222 | the reason a move is refused is the first that applies: match over, unknown piece, foreign piece, no ordinary result, finished piece, route not allowed, route required |
| MatchLaws.BackdoRefused | internal/domain/match/backdo_movement.go:25-56 | a Backdo is refused for the same reasons, for a piece off the board, or for one without history |
| MatchEngine.Game.OrdinaryMovePlans | internal/domain/match/ordinary_movement.go:27-71 | plans of an owned piece with the source's error order |
| MatchEngine.Game.ApplyOrdinaryMove | internal/domain/match/ordinary_movement.go:180-222 | applies the selected plan, or reports the error and changes nothing |
| MatchEngine.Game.ApplyBackdoMove | internal/domain/match/backdo_movement.go:95-118 | applies the reversal, or reports the error and changes nothing |
| MatchRuns.RunKeepsInv | internal/domain/match/resolution.go:38-163 | any sequence of ordinary, Backdo and Buk moves keeps the match invariant |
| MatchRuns.TeamsNeverChange | internal/domain/match/resolution.go:38-100 | pieces keep team and identifier, and finished pieces stay as they are, under every call |
| MatchRuns.AlliesStayTogether | internal/domain/match/game.go:202-216 | with stacking, two allies on one space stay together in every run of later calls, until one call captures or finishes both |
| MatchRuns.SelectionIndifferent | internal/domain/match/backdo_movement.go:25-56 | the moving group, the Backdo and the plans do not depend on which member of a stack is selected |
| MatchRuns.ResolutionCaptures | internal/domain/match/resolution.go:53-85 | a rewarded capture strictly lowers the opponent's number of pieces on the board, and no move raises it |
| MatchRuns.GroupsCapture | internal/domain/match/buk_movement.go:171-224 | the groups of a Buk together lower the opponent's pieces on the board if any of them captures |
| MatchEngine.Game.ResolveBukMove | internal/domain/match/buk_movement.go:117-225 | the measuring and applying loops reach the specified state and combined outcome |
| MatchEngine.Game.BukPositionGroups | internal/domain/match/buk_movement.go:227-246 | groups the team's pieces on the board by space, in the order first met |
| MatchEngine.Game.MeasureGroups | internal/domain/match/buk_movement.go:147-163 | every group is measured, the minimum is attained, and the first unusable distance is the error |
| MatchBuk.BukExact | internal/domain/match/buk_movement.go:117-246 | a Buk puts exactly the team's nearest pieces, or one waiting piece, on the destination; they record the space they left, or with stacking everyone there records the space left last; nothing else changes, it never reports no candidate and never ends the match |
| MatchBuk.BukClearsDestination | internal/domain/match/buk_movement.go:171-224 | after a Buk no opponent stands on the destination |
| BukLaws.BukInTurns | internal/domain/match/buk_movement.go:171-224 | the taken pieces that are not on the destination go there place by place, in the order of the first piece of each place, and each such move is reported exactly |
| BukLaws.BukSelects | internal/domain/match/buk_movement.go:171-224 | a Buk reports its destination and exactly the pieces it takes |
| BukLaws.BukEarnsExactly | internal/domain/match/buk_movement.go:171-224 | a Buk earns a throw if and only if it moves somebody, an opponent stood on the destination, and captures by a Buk are rewarded |
| BukLaws.TicketDraws | internal/domain/match/buk_movement.go:117-146 | with no piece on the board a ticket draws the waiting piece with that many waiting ones before it |
| BukLaws.BukThenBackdo | internal/domain/board/backdo.go:29-31 | a piece taken from the board can step back at once: to the space it left, or with stacking to the space left last |
| MatchBuk.NearestAreTaken | internal/domain/match/buk_movement.go:147-170 | the chosen groups hold exactly the pieces at minimum finish distance |
| MatchSetup.NewGame | internal/domain/match/game.go:57-146 | a game starts if and only if the roster is proper and a Buk destination exists, and otherwise the first check that fails is the error; every piece waits and the match invariant holds |
| MatchSetup.InitialBukDestination | internal/domain/match/buk_movement.go:12-89 | the fixed or drawn destination, and the source's errors |
| MatchSetup.EveryCandidateIsDrawn | internal/domain/match/buk_movement.go:31-65 | where a destination can be drawn, the tickets below ten reach every candidate exactly once |
| MatchSetup.UndrawnDestination | internal/domain/match/buk_movement.go:17-29 | without a draw the destination is the fixed one, and without the mode there is none |
| MatchDriver.Runtime.PerformThrow | internal/application/match_flow.go:239-268 | one throw with a fresh identifier and the expected origin |
| MatchDriver.Runtime.Offered | internal/application/match_events.go:135-179 | the nested candidate loops compute the specified offer, stopping at a Buk |
| MatchDriver.Runtime.EnterSelection | internal/application/match_flow.go:395-418 | waits for a choice, discards a single unusable result, or fails |
| MatchDriver.Runtime.SelectMovePair | internal/application/match_flow.go:420-462 | the pair is checked against fresh candidates; a rejected pair changes nothing |
| MatchDriver.Runtime.SelectPendingRoute | internal/application/match_flow.go:207-234 | only the pending result and piece take a route |
| MatchDriver.Runtime.ApplySelected | internal/application/match_flow.go:464-515 | the game moves first, then the machine completes the same token |
| MatchDriver.Runtime.ResolveBukHead | internal/application/match_flow.go:331-389 | the combined outcome of the moved groups completes the Buk |
| MatchDriver.Runtime.AdvanceTurn | internal/application/match_flow.go:280-312 | the stepping loop ends, takes only automatic steps, and stops where input is needed, the turn is over, or the dead end is reached |
| MatchDriver.Runtime.ThrowYut | internal/application/match_flow.go:150-175 | another player is refused; a throw is followed by all automatic steps it makes possible |
| MatchDriver.Runtime.SelectMove | internal/application/match_flow.go:181-204 | another player is refused; an accepted pair is followed by all automatic steps |
| MatchDriver.Runtime.SelectRoute | internal/application/match_flow.go:207-234 | another player is refused; an accepted route is followed by all automatic steps |
| MatchOffers.PieceRoutesExact | internal/application/match_events.go:147-170 | planning a candidate never fails in a reachable match; it yields one or two routes if and only if the piece can use the result |
| MatchOffers.CandidatesExact | internal/application/match_events.go:135-179 | a pair is offered if and only if its result is exposed and the piece can use it, with the piece's routes |
| MatchOffers.NoCandidatesExactly | internal/application/match_events.go:173-177 | nothing is offered if and only if every exposed result is a Backdo that no piece can use; then every exposed result is listed as unusable |
| MatchOffers.BukOffersNothing | internal/application/match_events.go:135-145 | while a Buk is queued nothing else is offered or called unusable |
| MatchTurns.ThrowProgress | internal/application/match_flow.go:239-268 | every result that can be drawn is recorded and spends the throw budget |
| MatchTurns.SelectProgress | internal/application/match_flow.go:420-515 | selecting succeeds for exactly the offered pairs, goes through to completion, and lowers the measure |
| MatchTurns.RouteProgress | internal/application/match_flow.go:207-234 | a pending choice accepts either route of its pair and nothing else, and lowers the measure |
| MatchTurns.BukProgress | internal/application/match_flow.go:331-389 | resolving the queued Buk completes and lowers the measure |
| MatchTurns.DiscardExactly | internal/application/match_flow.go:395-418 | waits, discards or fails exactly by whether the exposed results are unusable Backdos and how many they are |
| MatchTurns.FifoNeverFails | internal/application/match_flow.go:410-412 | in first-in first-out order the discard never fails |
| FlowLaws.StepDoesExactly | internal/application/match_flow.go:239-515 | an accepted step throws under the next identifier, or plays the chosen result with the chosen piece and route in the game, uses up exactly that result and goes on by the outcome, or waits for a route exactly where one is asked for, or discards a Backdo nobody can use |
| MatchWholeTurn.StepProgress | internal/application/match_flow.go:289-312 | every accepted step keeps the invariant of machine and game together and lowers the lexicographic measure |
| MatchWholeTurn.ErrorsAreExpected | internal/application/match_flow.go:289-515 | in a reachable turn no step reports an internal error |
| MatchWholeTurn.TurnIsBounded | internal/application/match_flow.go:280-312 | whatever is thrown and chosen, a turn makes at most 32 times one plus the opponent's pieces on the board throws, and a bounded number of steps |
| MatchWholeTurn.TurnUsesEveryToken | internal/application/match_flow.go:289-312 | a turn that reaches its end has an empty queue, and every generated token was used exactly once |
| MatchWholeTurn.TurnGoesOn | internal/application/match_flow.go:289-312 | an unfinished turn has an accepted next step if and only if it is not in the dead end |
| MatchWholeTurn.DeadEndTakesTwoBackdos | internal/application/match_flow.go:395-418 | a turn in which at most one Backdo is thrown never meets the dead end |
| DeadEndRun.DeadEndIsReachable | internal/application/match_flow.go:410-412 | a turn on the checked-in board in free order that ends in the dead end, where no step is accepted |
| DeadEndOpening.NewGameReachesDeadEnd | spec/board_graph.yaml:60-118 | from a new game on the checked-in board five ordinary moves reach the first state of that turn exactly |
| DeadEndRun.CaptureSelects | internal/application/match_flow.go:420-515 | the capture of that turn, from the choice to the granted throw |
| EventRegistry.RoomEventSequences.CommitNext | internal/application/room_event_sequences.go:38-52 | issues the next number of one room only, and refuses an empty room or an exhausted counter |
| EventRegistry.RoomEventSequences.RestoreBoundary | internal/application/room_event_sequences.go:69-80 | never moves a room backwards |
| EventRegistry.RoomEventSequences.ForgetClosedRoom | internal/application/room_event_sequences.go:85-93 | forgets one room only |
| EventRegistry.EventStore.AppendRows | internal/application/event_tx.go:102-117 | a batch and its result are stored whole or not at all; a taken key refuses it |
| EventRegistry.RegisteredRoom.FlushTx | internal/application/event_tx.go:70-151 | persist, then consume one sequence per row, then deliver; a failed append pauses the match or fences the room |
| EventRegistry.RegisteredRoom.CommitAndPublish | internal/application/event_tx.go:133-146 | one sequence per row, then the rows in order |
| EventRegistry.RegisteredRoom.EnterPause | internal/application/match_runtime.go:602-660 | keeps the failed batch, adds the pause marker behind it unless the match is finishing, and arms the first retry |
| EventRegistry.RegisteredRoom.FireRetry | internal/application/match_runtime.go:667-833 | an overtaken timer is ignored; a failure arms the next delay, holds an abandoned match or invalidates; a success commits, then finishes or resumes |
| EventRegistry.RegisteredRoom.AppendResumeMarker | internal/application/match_runtime.go:743-793 | the resume marker is an append of its own and becomes the pending batch when it fails |
| EventRegistry.RegisteredRoom.Invalidate | internal/application/match_runtime.go:868-951 | the terminal batch is persisted if it can be and announced either way |
| EventRegistry.RegisteredRoom.ApplyPresence | internal/application/match_presence.go:71-143 | presence events join the pending batch during a pause, a reconnect restarts held retries, and otherwise they are flushed |
| EventRegistry.RegisteredRoom.AppendDeferred | internal/application/match_presence.go:310-331 | deferred rows continue the pending numbers |
| EventRegistry.RegisteredRoom.FirePresenceExpiry | internal/application/match_presence.go:240-308 | an abandoned match is closed whatever the store answers |
| EventRegistry.RegisteredRoom.Begin | internal/application/room_start_flow.go:98-114 | a new match is attached before its first events are flushed |
| EventInvariants.ContiguousAppend | internal/application/event_tx.go:102-131 | a batch that continues the stored numbers never meets a taken key |
| EventInvariants.StepKeepsInv | internal/application/match_runtime.go:602-833 | every allowed step keeps store, boundary, pending batch, deliveries and results consistent |
| EventInvariants.RunKeepsInv | internal/application/match_runtime.go:602-951 | the protocol invariant holds in every run |
| EventTheorems.EveryRun | internal/application/event_tx.go:63-151 | in every run the store holds 1..n without a gap, what was delivered after being stored is the store in sequence order, every other delivery lies in the unstored notice of one terminated match, pending rows continue at n + 1, and statistics are applied once, for matches that ended exactly once |
| EventTheorems.PausedMatchMovesOn | internal/application/match_runtime.go:696-725 | a paused match has an armed retry, or everyone is away |
| EventTheorems.FlushFailsOnlyWhenDown | internal/application/event_tx.go:70-151 | a flush commits and delivers exactly its events when the store is up, and changes nothing stored or delivered when it is down |
| EventTheorems.HealthyRetryRecovers | internal/application/match_runtime.go:726-795 | a retry against a healthy store delivers the whole pending batch once and finishes or resumes the match |
| EventTheorems.FailingRetry | internal/application/match_runtime.go:695-724 | a failed retry arms the next delay until the third, then invalidates unless everyone is away |
| EventTheorems.DeliversExactly | internal/application/event_tx.go:70-151 | an allowed step delivers something if and only if its guard holds: events and a store that is up, a pending batch that is stored, or a termination |
| EventAnnounced.StepAnnounces | internal/application/match_presence.go:310-331 | an allowed step adds to what is announced or staged exactly its own events, numbered on behind everything before, and the markers of the pause, resumption or end it causes |
| EventAnnounced.RunAnnounces | internal/application/event_tx.go:70-151 | in every run what was announced or is staged is exactly what the steps added, once and in order |
| EventStatus.StepStatus | internal/application/match_runtime.go:602-795 | an allowed step changes the status exactly by its guards: the match begins, pauses, resumes, finishes or is given up, its result is applied, the room is closed or fenced, retries are counted |
| EventStatus.AbandonedExactly | internal/application/match_presence.go:160-200 | a match is taken for abandoned if and only if everyone left it and nobody has come back since |
| EventTheorems.StepEnds | internal/application/match_runtime.go:868-921 | a step adds to the delivered ends of every match exactly: two when it gives up with the final batch pending, one when it gives up otherwise or delivers the final batch, else none |
| EventTheorems.ReuseOnlyAfterFailedNotice | internal/application/match_runtime.go:923-942 | in every reachable room, an allowed step shows clients a sequence twice if and only if it will deliver something, read from the room and the action, while a failed termination's notice still reaches above the boundary |
| EventTheorems.LostInvalidationReuses | internal/application/match_runtime.go:923-942 | after an invalidation that could not be stored, the room's next event repeats a number |
| EventTheorems.TerminationEnds | internal/application/match_runtime.go:868-921 | in every reachable room, an allowed step makes a match end twice if and only if the step gives up on it, read from the room and the action, while its own final batch is pending |
| EventTheorems.FinishedMatchCanEndTwice | internal/application/match_runtime.go:868-921 | a finished match whose final batch meets a long outage is ended twice in one batch and loses its statistics |
| EventTheorems.ClosedIsSilent | internal/application/match_presence.go:304-308 | a closed room delivers nothing more |
| EventAnnounced.RunLosesNothing | internal/application/event_tx.go:70-151 | in every run, rows that were announced to clients or staged for them stay so, in the same order |
| EventJoins.PendingStorableExactly | internal/application/room_registry.go:358-364 | during a storage pause a join leaves the pending batch storable if and only if it emits nothing or the store is down |
| EventJoins.StoredJoinEndsMatch | internal/application/match_runtime.go:667-725 | after a join that was stored during a pause, the three retries fail even against a healthy store, and the match is invalidated with an unstored notice and without its result |
| EventJoins.FailedJoinDropsPending | internal/application/match_runtime.go:602-659 | a join that could not be stored during a pause replaces the pending batch; the next healthy retry delivers the join alone and resumes the match, even a finished one, without its result |
| RateLimits.FixedWindowLimiter.Allow | internal/server/security.go:89-118 | decides as a full scan of the entries would, within the entry cap, and names a positive wait for the right window |
| RateLimits.FixedWindowLimiter.Purge | internal/server/security.go:93-101 | popping the expiry list removes exactly the expired entries |
| RateLimits.FrontOpenMeansAllOpen | internal/server/security.go:93-99 | an open front of the list means every window is open |
| RateLimits.GrantsSpread | internal/server/security.go:102-117 | for every request sequence a key's grants fall into windows of at most limit grants that open at least a full length apart, so any two times limit consecutive grants take at least a full window |
| RateLimits.RefusedExactly | internal/server/security.go:102-117 | after any history a request is refused if and only if its key's open window holds limit grants, or it would open another window while the table is full of open ones |
| RateLimits.BoundIsTight | internal/server/security.go:102-117 | for every limit, one grant fewer can fall inside one window |
| ChatLimits.TimestampsAfter | internal/application/lobby_chat_room.go:385-391 | dropping the expired prefix keeps exactly the later timestamps |
| ChatLimits.LobbyChatRoom.Judge | internal/application/lobby_chat_room.go:183-233 | clock, block, attempts, duplicate, rate and sequence are checked in this order |
| ChatLimits.LobbyChatRoom.Execute | internal/application/lobby_chat_room.go:161-234 | one user's message changes only that user, and only an acceptance takes a number |
| ChatLimits.AcceptedChatIsLimited | internal/application/lobby_chat_room.go:197-226 | in every run accepted[i+3] is at least a second after accepted[i], and a message equal to the one accepted directly before it is at least five seconds after it |
| ChatLimits.BlockedIsSilent | internal/application/lobby_chat_room.go:197-199 | a blocked user says nothing until the block ends |
| ChatLimits.BlockStartsExactly | internal/application/lobby_chat_room.go:201-207 | after any history a counted message is refused as blocked if and only if fifteen other attempts were counted in the last five seconds; the sender is then blocked for a minute, and otherwise not |
| ChatLimits.VerdictExactly | internal/application/lobby_chat_room.go:208-226 | the verdict on a counted message is told from what the user said before: a duplicate within five seconds of the last accepted message, a fourth message within a second, or accepted |
| Processor.CommandProcessor.Begin | internal/application/processor.go:79-103 | execute, wait or conflict by the listed record |
| Processor.CommandProcessor.Settle | internal/application/processor.go:110-120 | stores the result and drops a record that is not to be replayed or was forgotten meanwhile |
| Processor.CommandProcessor.ForgetClosedRoom | internal/application/processor.go:129-145 | completed records of the room leave, running ones are marked, others stay |
| Processor.StepKeepsInv | internal/application/processor.go:64-145 | every interleaved step keeps running records listed and run by one call |
| Processor.OneExecutionOneAnswer | internal/application/processor.go:64-122 | in every interleaving a key has at most one execution in flight, and every answer is the result of one execution of the same command |
| Processor.RetainedUntilForgotten | internal/application/processor.go:110-153 | a retained result is replayed without another execution until its room is forgotten |
| Processor.MarkedExactly | internal/application/processor.go:129-145 | an execution is marked to be dropped if and only if its room is forgotten while it runs |
| Processor.ForgottenRoomIsEmpty | internal/application/processor.go:129-145 | after a room is forgotten, in every interleaving without new commands for it, only records that are still running and will be dropped on completion are listed for it |
| RoomActor.StepKeepsInv | internal/application/room_actor.go:135-213 | every atomic step of submitters, closers and the actor keeps the invariant |
| RoomActor.OneAtATime | internal/application/room_actor.go:171-198 | in every interleaving executions do not overlap or repeat, cleanup is single, last and after closing, and a finished actor has answered every admitted request |
| RoomActor.AnswersTellExecution | internal/application/room_actor.go:135-151 | an outcome or contained panic means one execution, a closed or canceled answer means none |
| RoomActor.AnswerIsOutcome | internal/application/room_actor.go:186-193 | the outcome a request is answered with is the one its own callback returned |
| RoomActor.AnswersTellWhy | internal/application/room_actor.go:135-151 | a submitter is told that the actor is closed only when it is, and that it canceled only when it did |
| RoomActor.PanicClosesActor | internal/application/room_actor.go:186-196 | after a callback has panicked nothing starts any more |
| RoomActor.LateSubmitsRefused | internal/application/room_actor.go:139-141 | whoever submits to a closed actor is told so at once and is never admitted |
| RoomActor.ResponsesStay | internal/application/room_actor.go:187-192 | a response is written once and returned unchanged |
| RoomActor.ClosedStartsNothing | internal/application/room_actor.go:181-185 | in every interleaving after the closed flag is stored, nothing starts |
| RoomActor.AdmittedMovesOn | internal/application/room_actor.go:171-213 | while an admitted request waits, every step of the actor or its stopper strictly lowers the number of steps left to its answer, and no other step raises it |
| RoomActor.AdmittedIsAnswered | internal/application/room_actor.go:171-213 | in every interleaving an admitted request has its response after at most six steps of the actor and its stopper, whether the actor is closed or not; until then one of them always has a step to take |
| RoomActor.ClosedActorMovesOn | internal/application/room_actor.go:171-213 | in a closed actor every step of the actor or its stopper strictly lowers the number of steps left, and no other step raises it |
| RoomActor.ClosedActorFinishes | internal/application/room_actor.go:171-213 | in every interleaving a closed actor is done, with its cleanup run, after at most six steps of the actor and its stopper; until then one of them always has a step to take |
| SequenceText.ParseSequence | client/src/protocol_bridge.c:58-76 | accepts exactly the texts of one to twenty digits that fit in 64 bits, and returns their value |
| SequenceText.ParseFormat | client/src/protocol_bridge.c:305-310 | every 64-bit sequence survives printing and parsing |
| ReconnectSync.ValidateReconnect | internal/protocol/reconnect_sync.go:66-121 | accepts exactly the bundles of at most 128 contiguous events in scope that do not roll the client back; the error names the first thing that is wrong |
| ClientRuntime.ProtocolState.ApplySnapshot | client/src/protocol_state.c:28-47 | stages a snapshot sequence once and never behind the confirmed one |
| ClientRuntime.ProtocolState.ApplyEvent | client/src/protocol_state.c:49-67 | advances by exactly one, or requires a new synchronization |
| ClientRuntime.ProtocolState.CompleteSynchronization | client/src/protocol_state.c:69-82 | confirms the staged sequence |
| ClientRuntime.PresentationState.StagePiece | client/src/presentation_state.c:232-270 | stages a well-formed piece within the cap, or fails the staging |
| ClientRuntime.PresentationState.StageMoveRequest | client/src/presentation_state.c:290-319 | stages a request that fits the metadata, or fails the staging |
| ClientRuntime.PresentationState.CommitSnapshot | client/src/presentation_state.c:321-346 | moves a complete pending snapshot into the confirmed one |
| ClientRuntime.Client.FailRuntimeSynchronization | client/src/protocol_bridge.c:47-56 | a failure disables commands and drops everything staged |
| ClientRuntime.Client.ApplySnapshotSequence | client/src/protocol_bridge.c:103-117 | parses and stages, or fails the synchronization |
| ClientRuntime.Client.ApplyReducedEventSequence | client/src/protocol_bridge.c:135-145 | parses and advances, or fails the synchronization |
| ClientRuntime.Client.CompleteSynchronization | client/src/protocol_bridge.c:245-269 | sequence and presentation are confirmed together or not at all |
| ClientSync.CallEffect | client/src/protocol_bridge.c:78-269 | the last sequence and the confirmed presentation change together, only by a successful completion, and never back |
| ClientSync.CommandsEnabledExactly | client/src/protocol_bridge.c:295-298 | after any calls commands are enabled if and only if the last call completed a synchronization |
| ClientSync.SequenceNeverGoesBack | client/src/protocol_state.c:94-99 | in every run the last sequence never decreases |
| ClientBundles.BundleCompletesExactly | client/src/protocol_bridge.c:92-269 | from any client state a bundle completes if and only if its sequences fit, no event was sent unreduced and its snapshot is presentable; otherwise what was confirmed stays and commands are disabled |
| ClientBundles.AcceptedBundleDrives | internal/protocol/reconnect_sync.go:97-120 | a bundle the server accepts drives the client to the snapshot sequence plus the number of events if every event was reduced and the snapshot is presentable, and leaves it where it was otherwise |
| ClientBundles.OutOfOrderBreaks | client/src/protocol_bridge.c:103-145 | a call out of order breaks the synchronization and keeps what was confirmed: a second snapshot sequence, an event before it, metadata or a move request twice, a move request before the metadata |
| ClientBundles.UnreducedEventFails | client/src/protocol_bridge.c:119-133 | one bundle of a single event that the server accepts, which a new client completes if the event was reduced and fails if it was not |
| CpuPolicy.CompareIsTotalPreorder | internal/domain/cpu/policy.go:376-406 | the comparison is reflexive, sign-symmetric and transitive |
| CpuLaws.ChoiceIsBest | internal/domain/cpu/policy.go:376-406 | told from the moves themselves, no usable piece has a better move than the chosen one: to finish comes first, then to capture, to join an ally, to take the shortcut, to move a piece on the board, and the nearest of these; the shortcut is taken wherever a route is asked for |
| CpuLaws.EveryBestIsDrawn | internal/domain/cpu/policy.go:362-374 | every group with a best move is drawn by some ticket |
| CpuLaws.DrawFailsAmongMany | internal/domain/cpu/policy.go:408-420 | a ticket out of range is an error only where two pieces with best moves do not go together |
| CpuPolicy.BestCandidates | internal/domain/cpu/policy.go:362-374 | the running list is exactly the maximal candidates in input order |
| CpuPolicy.MaximaGrow | internal/domain/cpu/policy.go:365-373 | one more candidate replaces, joins or leaves the maximal ones |
| CpuPolicy.DestinationEffects | internal/domain/cpu/policy.go:305-330 | captures and stacks are told exactly by the pieces on the destination |
| CpuPolicy.CandidateForPiece | internal/domain/cpu/policy.go:186-278 | the candidate of one piece with the source's checks |
| CpuPolicy.MoveCandidates | internal/domain/cpu/policy.go:147-184 | one candidate per group, the first member standing for it; groups are told apart by the text key over any injective naming of the pieces |
| CpuPolicy.Decide | internal/domain/cpu/policy.go:78-129 | the decision about the head of the queue |
| CpuGroupKey.MovedGroupKey | internal/domain/cpu/policy.go:332-353 | the length-prefixed text of the sorted identifiers |
| CpuGroupKey.GroupKeyExactly | internal/domain/cpu/policy.go:332-353 | two groups share a key if and only if they are the same multiset of identifiers |
| CpuPolicy.KeysMergeGroups | internal/domain/cpu/policy.go:171-181 | under any injective naming of pieces two moved groups share a key if and only if they are the same collection of pieces |
| CpuTheorems.SameGroupRanksAlike | internal/domain/cpu/policy.go:163-182 | members of one group rank alike, so keeping the first loses nothing |
| CpuTheorems.DecisionIsSound | internal/domain/cpu/policy.go:78-129 | the only error is a random source out of range; a result is discarded if and only if no piece can use it; the chosen piece is usable, none ranks higher, and the game accepts the move with the route it carries |
| CpuTheorems.DecisionIsAccepted | internal/application/match_flow.go:590-601 | in a running turn the chosen pair can be selected and a discarded head can be discarded |

## Left out

- Identifiers of pieces, tokens, players, rooms and matches are numbers; zero stands for the empty identifier. Spaces the planner knows by name are constructors, all others are numbered.
- Values outside the source's enumerations (phases, results, policies, routes) cannot be written down, so their error branches are not modelled.
- BoardValidate.Validate: does not model the graph's version, status, names, duplicate or empty tags, policy texts, finish-distance texts and render coordinates, nor the order and wording of problems.
- BoardValidate.ValidateNodes: does not model the checks of node names and of empty or duplicate tags.
- BoardValidate.ValidateRouteChoices: does not model the check of the selectable rule text.
- Randomness is a parameter: throws, the Buk ticket and the CPU ticket are arbitrary inputs; the Yut probability table is not modelled.
- MatchSetup.NewGame: promises the match invariant for a Buk destination other than home; the validation does not exclude that case, and a Buk landing on home is not modelled. Neither are the checks of player counts and timeouts and of absent dependencies.
- Normal-only routes always reach home: the validation does not imply it.
- MatchDriver.Runtime.AdvanceTurn: the model stops where the turn or the match ends; starting the next turn, chained CPU turns and the CPU's second decision for a pending route are not modelled.
- MatchDriver.Runtime.ThrowYut: host pauses, membership and match scope checks are not modelled, and neither are the turn timers and the staging of the events a step emits.
- MatchDriver.Runtime.SelectMove: leaves out the same as MatchDriver.Runtime.ThrowYut.
- MatchDriver.Runtime.SelectRoute: leaves out the same as MatchDriver.Runtime.ThrowYut.
- EventRegistry.RegisteredRoom.FlushTx: assumes that fewer than 2^64 events are numbered in a room; building and encoding a message never fails in the model.
- EventRegistry.RegisteredRoom.EnterPause: does not model the turn window it preserves nor a marker that cannot be built.
- EventRegistry.RegisteredRoom.FireRetry: does not model the settling of a host pause and the CPU control after a recovery.
- EventRegistry.RegisteredRoom.Invalidate: does not model the reset of the room status and of the ready flags.
- EventRegistry.RegisteredRoom.ApplyPresence: its start-window, host-pause and CPU branches are events that the caller passes in.
- EventRegistry.RegisteredRoom: the runtime record is one value that is replaced as a whole, not an object with fields of its own; aliasing of it is not modelled.
- The invariant of a room is stated for runs in which no spectator joins during a storage pause; what such a join does is stated on its own.
- The terminal event is stored together with its statistics: not claimed for invalidated and abandoned matches, which append the pending batch without the result.
- Turn windows preserved over a pause, host pauses that survive a recovery, and the CPU control that may follow a recovery are not modelled; what they emit is an ordinary flush.
- Retry delays are positions in the schedule; the clock and its precision are not modelled.
- ChatLimits.LobbyChatRoom.Execute: payload validation, nicknames, delivery to subscribers and the best-effort log are not modelled.
- Processor.CommandProcessor: fingerprints are compared as values; their JSON encoding is not modelled. A call blocks between its critical sections, so its waiting is a step of the interleaving and not a method.
- RoomActor: channels and the once-only stop are steps of a state machine over values, because goroutines cannot be written in Dafny; when a caller stops waiting for Close is not modelled.
- ReconnectSync.ValidateReconnect: envelopes arrive decoded; text that does not decode is an absent value.
- ClientRuntime.Client: texts of enumerations arrive parsed; memory allocation is a yes-or-no input; route interaction, event cues and drawing are not modelled. The reduction of events into a snapshot is the page's and not modelled.
- HTTP and WebSocket handling, authentication, SQLite, JSON, drawing, browser scripts and tools are not modelled.
