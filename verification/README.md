# Verified model of the signal delivery chain and its neighbours

This project models parts of a stock-signal platform in Dafny and proves what the
code promises about them. `dafny verify dfyconfig.toml` checks everything.

Three kinds of code are covered.

* **The delivery of AI signals.** Price moves are stored and ask for signals; workers
  generate a signal version per request under a row lock; versions leave the database
  through an outbox, a relay and a topic; the serving sink writes what the product
  shows. Every hop may repeat a message and any process may stop between two commits.
  `Pipeline` puts the parts into one transition system (`Ledger` has the workers, and
  `LedgerLaws` what interleaved workers may rely on) and proves that, once the outbox
  is empty and the offset at the end of the topic, the serving tables equal one
  application of each published version. `ServingSink` says exactly when the order of
  deliveries can matter. `OutboxRelay` and `Consumer` are the loops that take the
  steps of `Transport`, written as the imperative code they are.
* **The replay view.** The playback plan and the playhead (`ReplayPlayback`,
  `ReplayPlaybackLaws`), the incremental chart (`ReplayChart`) and the placement of tags
  (`TagLayout`).
* **Smaller machines.** The event-stream buffer (`Sse`), the rolling regressions
  (`Decomposition`), the trigger scheduler (`Cooldown`), the alert fanout (`Fanout`,
  `Registry`), the KIS stream (`KisConnection`, `SubscriptionPool`), the call limiter
  (`RateLimiter`) and document revisions (`DocumentRevisions`).

Code that updates objects or tables step by step is a class or a method with loops,
proved against a function of the old state; the theorems are about that function and
about whole runs of it.

## Findings

Where a promise does not hold on all inputs, the exact condition is proved.

* Two delivery orders of the same updates can leave different current rows if and only if
  two versions of one move straddle another move of the symbol (`OrderFreeIffNoStraddle`);
  window ends that never fall within a move rule that out.
* A published cause survives the sink's filter if and only if it cites a document
  (`PublishedCausesSurviveIff`): a cause with event sources only is dropped
  (`EventOnlyCauseIsLost`), so a shown signal could be served without causes. No source
  yields events today.
* Replay bars are validated to be weakly ascending only
  (`frontend/src/lib/replay.ts:293-295`). The one-minute incremental chart equals a redraw
  on all forward moves (`FaithfulIff`), and on all runs of views with their backward seeks and
  changes of interval (`RunsAreFaithfulIff`), if and only if no minute repeats.
* Without a row limit the tag search ends if and only if some position is clear of the
  blocks of all rows (`UnlimitedSearchEndsIff`); a block over the whole plot makes it endless
  (`FullyBlockedSearchNeverEnds`).
* Of two free positions equally near on either side of a placed tag, the one tried first
  decides whether the row takes the next tag (`OfferIsChosen`, `TieIsDecidedByOrder`).
* The ticks parsed before a broken record of a KIS message are kept back until a later
  message is handled without breaking, and stay in the buffer when the reconnections are
  exhausted (`BrokenMessageKeepsItsTick`). A call that hands out nothing leaves ticks waiting
  if and only if the last messages handled are broken ones of which some left ticks
  (`Advance`, `LeftBehindIff`).
* A price state that does not start before its end, such as one that starts a minute after
  the last document or two at one instant, still fires its state change, outside the state.
  Triggers lie inside their state if and only if it starts before it ends
  (`TriggersAreSpaced`, `LateStateFiresOutside`), and the day's triggers come in strict time
  order if and only if the states do (`TheDayAscends`).
* The check under the row lock looks at the move's version alone, so two workers that read
  one request before either has written both write a shown version from one input
  (`TwoWorkersRepeat`, `RepeatIsReachable`). A version repeats the input of the one before if
  and only if that one was committed from it after the worker's read (`RepeatsInputIff`); a
  rewrite is sure to cite something newer than what it replaces if and only if no candidate
  it may rest on is as old (`RewriteIsNewerIff`); and both hold, with the ten minutes between
  versions, when no version of the move was committed in between (`UndisturbedCommit`).
* Cutting an event stream is independent of the chunks if and only if the text holds no
  CR CR LF (`ChunkInvariantIff`); `CrCrLfCanChangeAFrame` gives a visible difference. What a reading
  hands over with a CR before a line end is always changed by another (`HandedOverCrIsUnstable`).
* A first connection keeps the acknowledged set of an earlier socket, so after it the new
  socket carries all desired subscriptions if and only if nothing desired was still
  recorded (`AcknowledgedMeansDesired`, `SettledLinks`); a reconnection clears the record
  first. After connect, acknowledge, stop and connect the socket carries nothing
  (`SecondConnectAsksForNothing`).
* An update whose served causes repeat a rank violates a primary key and fails every time,
  unless it is a known version that does not win (`ServingDatabase.Handle`); the worker
  never publishes one (`PublishedUpdateIsStorable`).

## Model

| member | source | states |
|---|---|---|
| ServingSink.ServingDatabase.Handle | services/ai_signal/src/ai_signal/serving/sink.py:226-275 | One message changes current row, history and causes together or not at all; exactly which messages are skipped, fail or are applied. |
| ServingSink.BeatsIsTotal | services/ai_signal/src/ai_signal/serving/sink.py:114-145 | Of two different updates of a consistent set one wins over the other. |
| ServingSink.BeatsIsTransitive | services/ai_signal/src/ai_signal/serving/sink.py:114-145 | Without straddling versions the two-case condition of the upsert is transitive, so with totality it is one strict order. |
| ServingSink.MonotoneHasNoStraddle | services/ai_signal/src/ai_signal/serving/sink.py:114-145 | Window ends that never fall within a move leave no straddling versions. |
| ServingSink.ApplySettles | services/ai_signal/src/ai_signal/serving/sink.py:161-188 | Whatever was delivered before, one more delivery leaves the tables that the set of deliveries stands for. |
| ServingSink.DeliveriesSettle | services/ai_signal/src/ai_signal/serving/sink.py:226-253 | Any sequence of deliveries leaves, per symbol, the best update with its causes, and one history entry per version. |
| ServingSink.SettledIsUnique | services/ai_signal/src/ai_signal/serving/sink.py:226-253 | A set of updates stands for one table state only. |
| ServingSink.OrderFreeIffNoStraddle | services/ai_signal/src/ai_signal/serving/sink.py:114-145 | Reordering and duplication of deliveries never matter if and only if no versions of one move straddle another move. |
| ServingSink.StraddleSplitsOrders | services/ai_signal/src/ai_signal/serving/sink.py:114-145 | Any straddling triple has two delivery orders with different results. |
| ServingSink.ThreeUpdatesCanStraddle | services/ai_signal/src/ai_signal/serving/sink.py:114-145 | Such a triple exists among valid updates, so the condition is needed. |
| ServingSink.MonotoneConverges | services/ai_signal/src/ai_signal/serving/sink.py:226-253 | With window ends that never fall, any two deliveries of the same set of updates leave the same tables. |
| ServingSink.ShownIsNewest | services/ai_signal/src/ai_signal/serving/sink.py:114-145 | After any deliveries the row shown is the newest: of one move by move version and version, else by window end and then move id. |
| ServingSink.KeepValidIs | services/ai_signal/src/ai_signal/serving/sink.py:93-111 | A cause is served if and only if its rank is one to three and it counts its documents, at least one, right and each once. |
| ServingSink.FailsWhen | services/ai_signal/src/ai_signal/serving/sink.py:226-253 | A known status fails exactly on a version below one, and on a repeated rank unless its version is known and not newer than what is shown. |
| Transport.StepKeepsBusInv | services/ai_signal/src/ai_signal/outbox/relay.py:177-216 | Every step of relays and consumer, including stops, lost acknowledgements, records that arrive after their relay gave up, and restarts, keeps: nothing lost, nothing invented, locks disjoint, records below the offset taken. |
| Transport.InsertKeepsBusInv | services/ai_signal/src/ai_signal/outbox/writer.py:47-70 | A row written in the caller's transaction, or ignored because its id is present, keeps the same facts. |
| Transport.TakeSettles | services/ai_signal/src/ai_signal/consumers/frame.py:205-241 | Under redelivery and duplicates the tables stay what the taken updates stand for. |
| Transport.RestMeansAllTaken | services/ai_signal/src/ai_signal/consumers/frame.py:232-241 | With an empty outbox and the offset at the end, the updates taken, in the topic and committed are the same. |
| OutboxRelay.OutboxRelay.SendRecords | services/ai_signal/src/ai_signal/outbox/relay.py:123-158 | Succeeds exactly when every record was acknowledged; records that arrive are in their topics either way. |
| OutboxRelay.OutboxRelay.RelayOnce | services/ai_signal/src/ai_signal/outbox/relay.py:177-216 | The locked rows leave the outbox only when all of them are in their topics; otherwise all rows stay and the locks are free. |
| OutboxRelay.SentIsSound | services/ai_signal/src/ai_signal/outbox/relay.py:123-158 | However the producer fares, only topics and this relay's acknowledgements change. |
| OutboxRelay.TurnIsSound | services/ai_signal/src/ai_signal/outbox/relay.py:177-216 | A fully acknowledged turn is a permitted sequence of transport steps ending in the deletion. |
| OutboxRelay.StoppedTurnIsSound | services/ai_signal/src/ai_signal/outbox/relay.py:177-216 | A turn that is not fully acknowledged leaves everything sound without deleting. |
| Consumer.ServingConsumer.HandleMessage | services/ai_signal/src/ai_signal/consumers/frame.py:205-230 | Up to three transactions, of which at most one takes effect; succeeds exactly when an undisturbed attempt meets an acceptable update. |
| Consumer.ServingConsumer.Process | services/ai_signal/src/ai_signal/consumers/frame.py:232-241 | The offset moves only after the transaction, and a message that cannot be handled changes nothing. |
| Consumer.ServingConsumer.Run | services/ai_signal/src/ai_signal/consumers/frame.py:309-324 | After any number of messages the tables hold them in order up to the offset, plus at most the one whose offset commit failed. |
| Consumer.ServingConsumer.Resume | services/ai_signal/src/ai_signal/consumers/frame.py:309-324 | Wherever the run before ended, the next one starts at the committed offset, takes an unconfirmed message once more, and ends where another may start. |
| Generation.CandidatesAreMatches | services/ai_signal/src/ai_signal/signals/candidates.py:76-148 | Each candidate is a judged document about the symbol, in the move's direction, without a failure and inside the window, copied field by field; there are at most twenty. |
| Generation.CandidatesAreDistinct | services/ai_signal/src/ai_signal/signals/candidates.py:76-96 | However many of its entities are linked to the symbol, a document is a candidate at most once. |
| Generation.CandidatesAscend | services/ai_signal/src/ai_signal/signals/candidates.py:96-131 | Candidates are numbered oldest first, and by id where they are equally old. |
| Generation.RangeIs | services/ai_signal/src/ai_signal/signals/move.py:112-131 | Documents count from the move's start to 20:00 KST of the business date of its end, or to its end if that is later; moves that are not daily have no range. |
| Generation.OnlyOlderDocumentsAreLeftOut | services/ai_signal/src/ai_signal/signals/candidates.py:76-96 | A document that qualifies is left out only when twenty are kept that are newer, or as new with a smaller id. |
| Generation.ResolveOutput | services/ai_signal/src/ai_signal/signals/generation.py:266-293 | The loop over sorted causes computes the resolution of an answer. |
| Generation.ResolvedAnswer | services/ai_signal/src/ai_signal/signals/generation.py:266-293 | An answer resolves to the first usable cause of each rank 1 to 3, renumbered without gaps, with the headline following its cause; otherwise to nothing. |
| Generation.DecideIsSound | services/ai_signal/src/ai_signal/signals/generation.py:373-402 | A shown decision is ranked 1 to k with k at most 3, has its headline among the ranks, cites candidates only, and a rewrite cites a new one. |
| Generation.DecideIs | services/ai_signal/src/ai_signal/signals/generation.py:373-402 | Which answers are refused, which keep the current signal and with what reason, and which are shown with what, over all of: keeping, effects, usable causes, wording rules and new sources. |
| Generation.SourcesAre | services/ai_signal/src/ai_signal/signals/generation.py:270-276 | The sources of a cause are the candidates it names, each once, in the order in which it names them first. |
| Generation.GenerateIs | services/ai_signal/src/ai_signal/signals/generation.py:474-494 | Without candidates nothing is asked; otherwise the first answer that decides is taken with the error before it, and without one the signal is hidden with the last error. |
| Generation.AnswersCiteAfterIff | services/ai_signal/src/ai_signal/signals/generation.py:373-402 | Every answer that may be accepted cites a source after a given time if and only if no candidate it may rest on alone is that old. |
| SignalStore.InsertNextKeepsNumbered | services/ai_signal/src/ai_signal/signals/store.py:133-157 | The counter and the insert keep each move's versions 1, 2, 3, ... |
| SignalStore.NumberedIsKeyed | services/ai_signal/src/ai_signal/signals/store.py:144-157 | No two rows of a move share a version. |
| SignalStore.InsertKeepsKey | services/ai_signal/src/ai_signal/signals/store.py:144-157 | An insert never changes a row and never makes a second row of one move and version. |
| SignalStore.CurrentIs | services/ai_signal/src/ai_signal/signals/store.py:45-94 | The current signal is the latest shown version of the move version, if it has causes. |
| SignalStore.PublishedCausesSurviveIff | services/ai_signal/src/ai_signal/serving/sink.py:93-111 | All published causes pass the sink's filter if and only if each cites a document. |
| SignalStore.EventOnlyCauseIsLost | services/ai_signal/src/ai_signal/signals/store.py:298-331 | An answer that cites an event only is shown with its cause and served without one. |
| SignalStore.PublishedUpdateIsStorable | services/ai_signal/src/ai_signal/signals/store.py:298-331 | What is published violates no constraint of the serving tables. |
| SignalStore.PublishedCauseCarries | services/ai_signal/src/ai_signal/signals/store.py:298-312 | A published cause has the rank, the explanation, and exactly the documents cited, each once in the order of first citation, and their number. |
| SignalStore.HeadlineIs | services/ai_signal/src/ai_signal/signals/generation.py:254-259 | The published headline is the label of the cause with the headline's rank. |
| SignalWorker.LatestMove | services/ai_signal/src/ai_signal/signals/move.py:60-100 | The symbol's move with the greatest window end, then version. |
| SignalWorker.AnsweredWhen | services/ai_signal/src/ai_signal/signals/worker.py:125-179 | A request asks for an answer unless its move is disabled or, when it is no state change, the price is neutral or the move's latest version is of this move version and less than ten minutes of event time old; it then raises if and only if the move is not a daily one, and the model is asked if and only if the latest version was not made from this move version, these candidates and this prompt. |
| SignalWorker.RequestIs | services/ai_signal/src/ai_signal/signals/worker.py:153-163 | The model is shown the documents up to the event time, and the current signal unless the price state changed. |
| SignalWorker.PlansLookBack | services/ai_signal/src/ai_signal/signals/worker.py:153-179 | An answer depends on no document published after the request's event time. |
| SignalWorker.SignalDatabase.Record | services/ai_signal/src/ai_signal/signals/worker.py:187-222 | The half under the lock, proved against a function whose meaning `FinishIs` gives. |
| SignalWorker.FinishIs | services/ai_signal/src/ai_signal/signals/worker.py:181-222 | A plan whose move is another version by now leaves nothing. Otherwise a failure leaves a retry for the later target at the earlier time, a kept signal leaves its decision, and anything else, a failure of a state change included, adds the next version with what was decided and from what, the move's status, the event with all that readers are to see, and settles retries when shown. |
| SignalWorker.SignalDatabase.Handle | services/ai_signal/src/ai_signal/signals/worker.py:121-222 | One request leaves what `RequestIsHandled` says for the latest move, nothing when there is none, or an error that changes nothing; it raises exactly when that move asks for an answer and is not a daily one. |
| SignalWorker.RequestIsHandled | services/ai_signal/src/ai_signal/signals/worker.py:121-222 | A request that asks, about a daily move with something new since its latest version, leaves what its outcome calls for in signals, decisions, retries, statuses and outbox; any other leaves nothing. |
| SignalWorker.WritesWhen | services/ai_signal/src/ai_signal/signals/worker.py:130-214 | A version is written if and only if the request goes ahead and its outcome is neither kept nor a failure that no state change asked for. |
| SignalWorker.PlansAreGrounded | services/ai_signal/src/ai_signal/signals/worker.py:153-163 | Whatever the model answers, the decision cites documents of the candidate window only. |
| SignalWorker.WrittenSignalsAreGrounded | services/ai_signal/src/ai_signal/signals/worker.py:153-214 | Handled without interruption, a stored version cites sources from the move's start to its event time, a shown one is ranked with a headline, and a rewrite cites a document newer than the signal it replaces. |
| SignalWorker.WrittenCausesAreServed | services/ai_signal/src/ai_signal/signals/store.py:315-346 | Handled without interruption, the event published with a version carries its status and all its causes past the sink's filter. |
| SignalWorker.StateChangesAreAnswered | services/ai_signal/src/ai_signal/signals/worker.py:130-214 | A state change of an enabled daily move gets a version whatever the model answers, exactly unless the latest version has the same input; a neutral move's is hidden. |
| SignalWorker.RedeliveryWritesNothing | services/ai_signal/src/ai_signal/signals/worker.py:136-173 | Handling a request again right after it wrote a version changes nothing, whatever the model would answer. |
| SignalWorker.VersionsAreSpaced | services/ai_signal/src/ai_signal/signals/worker.py:136-152 | With one worker, a version that no state change asked for comes ten minutes of event time or more after the preceding one of its move version. |
| SignalWorker.RunsStayNumbered | services/ai_signal/src/ai_signal/signals/store.py:133-157 | Over any serial run the ledger stays numbered and only grows. |
| MoveSink.MoveTable.HandleMove | services/ai_signal/src/ai_signal/moves/sink.py:192-232 | One price move: the stored row and the request published with it. |
| MoveSink.MoveTable.CompletePending | services/ai_signal/src/ai_signal/moves/pending.py:55-86 | Exactly the daily rows without contributions whose data is available are filled, and counted. |
| MoveSink.StoredIsMaximum | services/ai_signal/src/ai_signal/moves/sink.py:109-137 | The stored version is the maximum delivered, in any order and with duplicates. |
| MoveSink.RequestPerRunningMaximum | services/ai_signal/src/ai_signal/moves/sink.py:192-232 | A delivery asks for a signal if and only if it is a new maximum of an enabled symbol. |
| MoveSink.OneRequestPerVersion | services/ai_signal/src/ai_signal/moves/sink.py:192-232 | No version of a move is asked for twice. |
| MoveSink.ContributionsStay | services/ai_signal/src/ai_signal/moves/pending.py:43-53 | Contributions once present stay unchanged for as long as their version is stored, with the late filler interleaved. |
| MoveSink.DeliverIs | services/ai_signal/src/ai_signal/moves/sink.py:109-232 | Which deliveries are stored, and every column they store: the previous close in place of the window's start, contributions of daily moves only, type and symbol from the first delivery; no other move changes. |
| MoveSink.RequestIs | services/ai_signal/src/ai_signal/moves/sink.py:192-232 | A request goes out exactly for a version above the stored one of an enabled symbol with a name, as of the window's end. |
| MoveSink.FillIs | services/ai_signal/src/ai_signal/moves/pending.py:43-53 | A fill reaches only the version it was computed for, and only missing contributions. |
| Ledger.NextKeepsStoreInv | services/ai_signal/src/ai_signal/signals/worker.py:181-214 | Every interleaving of any number of workers, move deliveries, fills and stops keeps locks exclusive, counters current, versions 1 to n, move versions ordered, rows grounded in their input, and each published update equal to its row's decision. |
| Ledger.PublishedUpdatesConverge | services/ai_signal/src/ai_signal/signals/store.py:315-346 | What workers publish is storable, consistent and monotone in its window ends, which is the hypothesis of convergence. |
| Ledger.CommittedUpdateDescribes | services/ai_signal/src/ai_signal/signals/move.py:103-109 | Under the row lock the published move version and window end are those of the stored move, and the update conveys its row: status, headline and all causes, past the sink's filter. |
| Ledger.OpenIs | services/ai_signal/src/ai_signal/signals/move.py:60-100 | What a worker reads of a move is what is stored. |
| LedgerLaws.RepeatsInputIff | services/ai_signal/src/ai_signal/signals/worker.py:164-214 | A version repeats the input of the version before if and only if that one was committed from it after the worker's read. |
| LedgerLaws.UndisturbedCommit | services/ai_signal/src/ai_signal/signals/worker.py:136-214 | If no version of the move was committed since the worker read, its version has another input than the one before, keeps the ten minutes unless a state change asked for it, and cites something newer than what it replaces. |
| LedgerLaws.RewriteIsNewerIff | services/ai_signal/src/ai_signal/signals/worker.py:153-214 | With any number of workers: whatever the model answers, a rewrite cites a document newer than the version it replaces if and only if no candidate it may rest on is as old; so if no version of the move was committed since the worker read, and never once a version as of its own event time is shown, unless there is nothing to rest on. |
| Pipeline.StepKeepsInv | services/ai_signal/src/ai_signal/outbox/relay.py:177-216 | Every step of the whole chain keeps its invariant. |
| Pipeline.EveryStateIsSound | services/ai_signal/src/ai_signal/consumers/frame.py:205-241 | The invariant holds in every reachable state. |
| Pipeline.LedgerIsExact | services/ai_signal/src/ai_signal/signals/store.py:133-157 | With any number of workers each move's versions are exactly 1 to n and its move versions never fall. |
| Pipeline.NothingLostNothingInvented | services/ai_signal/src/ai_signal/outbox/relay.py:177-216 | In every state a committed event is in the outbox or in its topic, and topics hold committed events only. |
| Pipeline.EffectivelyOnce | services/ai_signal/src/ai_signal/serving/sink.py:226-253 | At rest the serving tables equal one application of each published version, in any order. |
| Pipeline.RestIsReachable | services/ai_signal/src/ai_signal/outbox/relay.py:177-232 | From every reachable state, steps of relays and sink alone lead to rest with one application of each published version in the tables: no record blocks the chain for good. |
| Pipeline.SinkShowsPublished | services/ai_signal/src/ai_signal/serving/sink.py:114-145 | At any moment a symbol shows a published version that beats every other record below the offset. |
| Pipeline.LedgerIsGrounded | services/ai_signal/src/ai_signal/signals/worker.py:153-214 | In every reachable state each ledger row cites candidates it was shown, documents from the move's start to its event time, is ranked with a headline when shown, and has a published update that conveys it. |
| Pipeline.ReadersSeeTheLedger | services/ai_signal/src/ai_signal/serving/sink.py:226-253 | At any moment what a symbol shows is one whole row of the ledger, with its status, headline and all its causes. |
| Pipeline.HistoryIsTheLedger | services/ai_signal/src/ai_signal/serving/sink.py:226-253 | At rest the history is the ledger: every row with its status, headline and all its causes, and nothing else. |
| Pipeline.TopicMovesAreStored | services/ai_signal/src/ai_signal/serving/sink.py:226-253 | Every update that the sink may take is about a stored move, as the current row's foreign key demands. |
| Pipeline.RepeatsAreOvertaken | services/ai_signal/src/ai_signal/signals/worker.py:164-214 | In every reachable state a commit repeats the latest input if and only if it was overtaken by a commit from the same input. |
| Pipeline.UndisturbedCommitsAreFresh | services/ai_signal/src/ai_signal/signals/worker.py:136-214 | In every reachable state an undisturbed commit is fresh in the sense of `LedgerLaws.UndisturbedCommit`. |
| Pipeline.RepeatIsReachable | services/ai_signal/src/ai_signal/signals/worker.py:130-214 | A reachable state, from one document and one request: two workers read it, and two shown versions of one move version have one input, the second citing nothing newer than the first. |
| ReplayPlayback.BuildPlaybackPlan | frontend/src/lib/replay.ts:631-654 | Windows are sorted, strictly separated, inside the plan, and cover exactly the surroundings of the events in range. |
| ReplayPlayback.AdvanceReplayPlayhead | frontend/src/lib/replay.ts:656-711 | The loop computes the flow through segments and ends on every plan; without idle skipping the position is the clamped one plus the elapsed time at the selected speed, up to the end. |
| ReplayPlayback.SegmentEndIsAhead | frontend/src/lib/replay.ts:674-704 | Reaching the end of a segment leaves fewer boundaries ahead. |
| ReplayPlaybackLaws.FrameRateIndependence | frontend/src/lib/replay.ts:656-711 | Advancing by a and then b gives the position of advancing by a + b, with and without idle skipping. |
| ReplayPlaybackLaws.PlainAdvance | frontend/src/lib/replay.ts:657-669 | Without idle skipping the playhead runs at sixty times the selected speed, gaps and windows alike, and is never fast forwarding. |
| ReplayPlaybackLaws.AdvanceInWindow | frontend/src/lib/replay.ts:671-711 | With idle skipping a run inside a window goes at sixty times the selected speed, and is not fast forwarding. |
| ReplayPlaybackLaws.AdvanceInGap | frontend/src/lib/replay.ts:671-711 | A run inside a gap goes at the speed that crosses the whole gap in 2500 ms, or at the selected one where that is faster; it is fast forwarding exactly in the first case. |
| ReplayPlaybackLaws.FramesSplit | frontend/src/lib/replay.ts:657-711 | A frame may be split anywhere short of the plan's end: position and flag are those of the last part. |
| ReplayPlaybackLaws.PlayheadIsMonotone | frontend/src/lib/replay.ts:656-711 | The playhead never moves back and stays inside the plan. |
| ReplayPlaybackLaws.FlagTellsSegment | frontend/src/lib/replay.ts:683-695 | The fast-forward flag tells the segment the playhead ended in, unless it stands on a boundary. |
| ReplayPlaybackLaws.WholePlanBudget | frontend/src/lib/replay.ts:683-705 | A whole plan plays within its windows at normal speed plus 2500 ms per gap. |
| ReplayChart.VisibleIsPrefix | frontend/src/lib/replay.ts:459-462 | The visible bars are the prefix up to the playhead. |
| ReplayChart.AggregateReplayBars | frontend/src/lib/replay.ts:464-487 | The in-place loop computes the aggregation, mutates only bars it made, and leaves its input untouched. |
| ReplayChart.AggregateSummarizes | frontend/src/lib/replay.ts:464-487 | Above one minute each bar starts at a multiple of the interval and has first open, last close, attained extreme prices and total volume of exactly the minutes of that length from there on; bars ascend and no minute is left out. At one minute the bars stay. |
| ReplayChart.PlanReplaySeriesUpdate | frontend/src/lib/replay.ts:511-534 | The loop finds the first changed bar and decides between nothing, replacement and update. |
| ReplayChart.PlanIs | frontend/src/lib/replay.ts:511-534 | Nothing is done for an unchanged series, a series that differs in its last bar and new ones at most is updated from there, and everything else, and everything forced, is replaced. |
| ReplayChart.ForwardNeverReplaces | frontend/src/lib/replay.ts:511-534 | Moving the playhead forward never needs a full replacement. |
| ReplayChart.IncrementalIsFullRecompute | frontend/src/lib/replay.ts:459-534 | Applying the update of a forward move yields exactly the chart recomputed at the new playhead. |
| ReplayChart.FaithfulIff | frontend/src/lib/replay.ts:459-534 | On validated bars that holds for all forward moves if and only if bars are bucketed or no minute repeats. |
| ReplayChart.RunIsFaithful | frontend/src/lib/ReplayChart.svelte:542-560 | After any views that leave out the unaggregated interval, and after any views at all when no minute repeats, the series is the chart of the last view recomputed. |
| ReplayChart.RunsAreFaithfulIff | frontend/src/lib/ReplayChart.svelte:542-560 | Every run of views, forward, backward and across intervals, shows the recomputed chart if and only if no minute repeats. |
| ReplayChart.AnyUpdateIsFaithfulIff | frontend/src/lib/replay.ts:502-534 | Between any two charts of distinct ascending times the plan redraws the new one if and only if it does not update a last bar whose time differs. |
| TagLayout.LayoutReplayAnnotationTags | frontend/src/lib/replay.ts:780-836 | Every tag is in the first row that offers it a position, or hidden at the row limit; the search ends for every finite limit. |
| TagLayout.FrameIs | frontend/src/lib/replay.ts:788-800 | Negative sizes count as none; blocks are put the right way round, cut to the plot, and dropped when empty. |
| TagLayout.RowLimitIs | frontend/src/lib/replay.ts:801-801 | A row limit is the whole number below it and at least one. |
| TagLayout.OccupiedIs | frontend/src/lib/replay.ts:804-805 | The obstacles of a row are its blocks and those of all rows, then its tags in the order of their placement. |
| TagLayout.CandidatesAre | frontend/src/lib/replay.ts:813-817 | The positions tried are the anchor's and then both sides of each obstacle in turn. |
| TagLayout.OfferIsChosen | frontend/src/lib/replay.ts:803-830 | A row offers exactly the first nearest clear candidate, and offers nothing if and only if the anchor is blocked, nothing is free, or that candidate lies left of a tag. |
| TagLayout.ChosenIsNearestFree | frontend/src/lib/replay.ts:813-823 | That candidate is unique, is one of the nearest of all free positions, and exists if and only if any position is free. |
| TagLayout.TieIsDecidedByOrder | frontend/src/lib/replay.ts:813-830 | A row may offer a position although another one, left of its tags, is equally near. |
| TagLayout.CandidatesSuffice | frontend/src/lib/replay.ts:813-823 | Any free position is matched by a candidate at least as near to the anchor. |
| TagLayout.RowsArePacked | frontend/src/lib/replay.ts:824-829 | Tags of a row are ordered and a full gap apart. |
| TagLayout.VisibleTagsAvoidBlocks | frontend/src/lib/replay.ts:788-800 | A visible tag lies inside the plot and a gap away from every block of its row. |
| TagLayout.VisibleTagsLeaveTheGap | frontend/src/lib/replay.ts:793-800 | The same in terms of the ranges passed in, whichever way round. |
| TagLayout.HiddenOnlyAtTheLimit | frontend/src/lib/replay.ts:833-834 | A tag is hidden if and only if every row up to the limit turned it down. |
| TagLayout.UnlimitedSearchEndsIff | frontend/src/lib/replay.ts:801-831 | Without a row limit the search ends if and only if some position is clear in all rows. |
| TagLayout.FullyBlockedSearchNeverEnds | frontend/src/lib/replay.ts:801-831 | With a block over the whole plot no row ever offers a position. |
| TagLayout.LayoutIsUnique | frontend/src/lib/replay.ts:780-836 | The inputs determine the layout. |
| Sse.DrainCompleteFrames | frontend/src/lib/api.ts:269-277 | The drain emits the non-blank frames of the cut and keeps its rest. |
| Sse.ConsumeSSE | frontend/src/lib/api.ts:261-289 | The read loop emits the frames and the trimmed tail of the state reached chunk by chunk. |
| Sse.EmittedAre | frontend/src/lib/api.ts:270-289 | Frames that are not blank are handed over as they are, and then the trimmed rest unless it is blank. |
| Sse.TrimIsWithin | frontend/src/lib/api.ts:287-288 | Trimming takes exactly the white space at both ends. |
| Sse.NormReplaces | frontend/src/lib/api.ts:270-270 | CR LF becomes LF wherever it stands. |
| Sse.CutIsCut | frontend/src/lib/api.ts:270-276 | Frames and rest join to the text, no frame holds a blank line, and none is left in the rest. |
| Sse.CutIsUnique | frontend/src/lib/api.ts:270-276 | That split is unique, and what is cut stays cut whatever follows. |
| Sse.NormAbsorbs | frontend/src/lib/api.ts:270-270 | Text with rewritten line ends can be extended as if it had not been rewritten. |
| Sse.NormTwiceIff | frontend/src/lib/api.ts:270-270 | Rewriting line ends twice is the same as once if and only if there is no CR CR LF. |
| Sse.ChunkingDoesNotMatter | frontend/src/lib/api.ts:259-289 | Without CR CR LF all ways to chunk a text emit the same frames and tail. |
| Sse.ChunkInvariantIff | frontend/src/lib/api.ts:261-289 | Cutting is independent of the chunks if and only if there is no CR CR LF. |
| Sse.CrCrLfCanChangeAFrame | frontend/src/lib/api.ts:261-289 | A text with CR CR LF emits different frames for two ways to chunk it. |
| Sse.HandedOverCrIsUnstable | frontend/src/lib/api.ts:261-289 | Whatever any reading hands over with a CR before a line end is not handed over by some other reading of the same text. |
| Decomposition.RollingOls | services/ai_signal/src/ai_signal/decomposition.py:58-99 | Filling, shifting and reindexing give each complete day the fit of the window of complete days that ends `shift` days before. |
| Decomposition.ShiftRows | services/ai_signal/src/ai_signal/decomposition.py:102-107 | Rows move down by the shift and the first ones are missing. |
| Decomposition.ShiftedIsPreviousDaysFit | services/ai_signal/src/ai_signal/decomposition.py:58-72 | A shift of one moves each result to the next complete day. |
| Decomposition.ShiftedFitLooksBack | services/ai_signal/src/ai_signal/decomposition.py:110-111 | A shifted fit depends on earlier days only and exists once sixty complete days precede. |
| Decomposition.BetasLookBack | services/ai_signal/src/ai_signal/decomposition.py:238-258 | Histories that agree before a complete day have the same betas on it, through all nested residual fits. |
| Decomposition.DecompositionIsCausal | services/ai_signal/src/ai_signal/decomposition.py:313-321 | The contributions of a day depend on days up to it only, and so do the betas known at its end. |
| Decomposition.LayersAddUp | services/ai_signal/src/ai_signal/decomposition.py:281-310 | The layers add up to the return, a missing sector contributes nothing, and the dominant layer is the first of those largest in size. |
| Decomposition.LayersAre | services/ai_signal/src/ai_signal/decomposition.py:281-310 | The global layer is the US market's and the sector ETF's part, the market layer that of the rest of the market, the sector layer that of the rest of the sector, each sensitivity times its own factor, and the rest is idiosyncratic. |
| Decomposition.FactorsAre | services/ai_signal/src/ai_signal/decomposition.py:245-258 | What each factor is what is left of, and the order in which they enter the regression. |
| Decomposition.BetasAre | services/ai_signal/src/ai_signal/decomposition.py:261-278 | Each sensitivity is the coefficient of its factor in the fit of at most 120 and at least 60 days, the sector's not below zero. |
| Decomposition.ResidOnOne | services/ai_signal/src/ai_signal/decomposition.py:238-242 | A factor left of one other is its value less the line fitted on earlier days. |
| Decomposition.ResidOnTwo | services/ai_signal/src/ai_signal/decomposition.py:238-242 | A factor left of two others is its value less the plane fitted on earlier days. |
| Decomposition.FitIs | services/ai_signal/src/ai_signal/decomposition.py:58-111 | A regression shifted by one exists on complete days after enough complete days, and is the fit of the last ones of these, the day itself excluded. |
| Decomposition.SectorBetaIsFloored | services/ai_signal/src/ai_signal/decomposition.py:273-278 | The sector's sensitivity is never negative. |
| Decomposition.IdioIsTheResidual | services/ai_signal/src/ai_signal/decomposition.py:281-321 | While the floor does not bind, the idiosyncratic part is the regression residual and its constant, so each beta meets its own factor. |
| Decomposition.DecomposedIff | services/ai_signal/src/ai_signal/decomposition.py:313-321 | A day is decomposed if and only if its factors exist and sixty such days precede it. |
| Decomposition.WarmUp | services/ai_signal/src/ai_signal/decomposition.py:238-321 | Nothing is decomposed in the first 120 days. |
| Cooldown.GroupEvents | experiments/signal_trigger/judgement_v3.py:331-347 | Judged documents get the number of the one event with their identity, numbered in the order of first report; each event lists its documents in order and the objects they name, each once. |
| Cooldown.SameEventIff | experiments/signal_trigger/judgement_v3.py:323-328 | Two judged documents share an event if and only if subject and type agree, and, where the news is about flows, the direction. |
| Cooldown.EligibleIs | experiments/signal_trigger/judgement_v3.py:357-370 | Exactly which documents can fire in a state, by direction, kind of news, relevance, kind of event and probability. |
| Cooldown.SimulateState | experiments/signal_trigger/judgement_v3.py:376-399 | The loop over documents computes one state's scan, whose first trigger is the state change at its start. |
| Cooldown.Simulate | experiments/signal_trigger/judgement_v3.py:372-400 | The triggers of all states, in order, at least one per state. |
| Cooldown.DayIsItsStates | experiments/signal_trigger/judgement_v3.py:372-400 | The day is its states one after the other, each until the next one starts and the last until the day ends. |
| Cooldown.DayEndIs | experiments/signal_trigger/judgement_v3.py:374-374 | The day ends a minute after its last document. |
| Cooldown.ChangeReportsEarlierDocuments | experiments/signal_trigger/judgement_v3.py:379-381 | A state change comes with exactly the documents that could have fired before it, in order. |
| Cooldown.TriggersAreSpaced | experiments/signal_trigger/judgement_v3.py:383-399 | Triggers of a state are ten minutes apart and fire with a document on its arrival or with all that wait when the cooldown ends, no earlier than their documents and at most a cooldown later; they lie inside the state if and only if it starts before it ends. |
| Cooldown.LateStateFiresOutside | experiments/signal_trigger/judgement_v3.py:372-399 | A state that starts a minute after the last document still fires its state change. |
| Cooldown.FreshDocumentsFireOrAreLost | experiments/signal_trigger/judgement_v3.py:383-399 | The first documents of new events are exactly those fired and those lost, and some are lost only when the state ends within a cooldown of its last trigger. |
| Cooldown.EventsDoNotRepeat | experiments/signal_trigger/judgement_v3.py:379-392 | No event fires twice in a state, nor after it was reported before the state. |
| Cooldown.TheDayAscends | experiments/signal_trigger/judgement_v3.py:372-400 | Over the day the triggers come in strict time order if and only if the states do, and all lie before the day's end if and only if the last state starts before it. |
| Fanout.AlertPusher.Handle | services/alert_service/src/alert_service/ws/pusher.py:63-126 | One delivery, stopped after any number of atomic actions. |
| Fanout.AlertPusher.BulkCreatePending | services/alert_service/src/alert_service/repository/notifications.py:19-60 | A pending row per watcher unless the pair exists, and the watchers still pending. |
| Fanout.CompletedMeansSettled | services/alert_service/src/alert_service/ws/pusher.py:83-126 | A completed delivery leaves none of its watchers pending. |
| Fanout.StatusMatchesAnswer | services/alert_service/src/alert_service/ws/pusher.py:113-126 | Each status is the one the registry's answer calls for, and only connected users cost a send. |
| Fanout.WalkStopsAt | services/alert_service/src/alert_service/ws/pusher.py:113-126 | Wherever a delivery is stopped, the users before the stop have their final status, the one at the stop may have a send begun, and those after it are untouched. |
| Fanout.DeliverRecords | services/alert_service/src/alert_service/ws/pusher.py:63-105 | What a delivery records before it sends: the alert unless it is known, and a notification with its identifier and symbol per watcher without one; nothing of other alerts changes. |
| Fanout.PendingInOrder | services/alert_service/src/alert_service/repository/notifications.py:48-60 | Watchers are tried in the order in which they were found. |
| Fanout.SendsAreBounded | services/alert_service/src/alert_service/ws/pusher.py:63-126 | Over any run a notification is sent at most once more than the number of stopped deliveries of its alert. |
| Fanout.StatusesSettle | services/alert_service/src/alert_service/repository/notifications.py:62-91 | A status moves only away from pending and then stays; a notification keeps its identity. |
| Fanout.RedeliveryIsSilent | services/alert_service/src/alert_service/ws/pusher.py:83-102 | Delivering again after completion sends and changes nothing. |
| Fanout.UndisturbedDeliveryCompletes | services/alert_service/src/alert_service/ws/pusher.py:63-126 | A delivery left alone completes; the reserved identifier never does. |
| Registry.ConnectionRegistry.Add | services/alert_service/src/alert_service/ws/registry.py:26-27 | Only this user gains the socket. |
| Registry.ConnectionRegistry.Remove | services/alert_service/src/alert_service/ws/registry.py:29-35 | Only this user loses the socket, and no user is kept without one. |
| Registry.ConnectionRegistry.IsConnected | services/alert_service/src/alert_service/ws/registry.py:40-41 | A user counts as connected if and only if some socket of theirs is registered. |
| Registry.ConnectionRegistry.SendToUser | services/alert_service/src/alert_service/ws/registry.py:43-56 | The payload reaches exactly the working sockets, and the broken ones are forgotten. |
| SubscriptionPool.KISSubscriptionPool.SetDesired | services/kis_ingestion/src/kis_ingestion/subscription_pool.py:12-21 | Replaces one feed's symbols, or refuses and changes nothing when over the cap. |
| SubscriptionPool.KISSubscriptionPool.SwitchMarket | services/kis_ingestion/src/kis_ingestion/subscription_pool.py:34-41 | Exactly the subscriptions of one feed move to the other, and the cap is kept. |
| SubscriptionPool.AcksKeepHeading | services/kis_ingestion/src/kis_ingestion/connection_manager.py:239-279 | Acknowledgements in kind never change where the acknowledged set is heading. |
| SubscriptionPool.DifferencesAre | services/kis_ingestion/src/kis_ingestion/subscription_pool.py:22-33 | A subscription is asked for exactly when it is wanted and not recorded, and its end exactly when it is recorded and not wanted. |
| SubscriptionPool.AcknowledgeIs | services/kis_ingestion/src/kis_ingestion/connection_manager.py:264-279 | An acknowledgement ends what is under way for its subscription and records it, and changes no other. |
| SubscriptionPool.AcknowledgedMeansDesired | services/kis_ingestion/src/kis_ingestion/connection_manager.py:164-178 | Once everything sent is acknowledged in kind, acknowledged is what was desired at the sending; the socket itself carries it if and only if no stale record was left. |
| SubscriptionPool.SettledLinks | services/kis_ingestion/src/kis_ingestion/connection_manager.py:99-279 | Over any run of connections, interrupted reconnections, changes of wish and acknowledgements in kind: with nothing under way, acknowledged is what was wanted when the differences were last sent, hence desired if and only if nothing else was wanted since. |
| SubscriptionPool.LinkRunIsRun | services/kis_ingestion/src/kis_ingestion/connection_manager.py:99-279 | The subscription state over a run with bookkeeping is that of the manager's steps alone. |
| SubscriptionPool.SecondConnectAsksForNothing | services/kis_ingestion/src/kis_ingestion/connection_manager.py:99-120 | Connect, acknowledge, stop, connect: everything is recorded as acknowledged and the new socket carries nothing. |
| KisConnection.KISConnectionManager.Connect | services/kis_ingestion/src/kis_ingestion/connection_manager.py:99-113 | A new session from number zero, with the differences to the recorded subscriptions under way: the first step of a run as `SettledLinks` takes it. |
| KisConnection.KISConnectionManager.Reconnect | services/kis_ingestion/src/kis_ingestion/connection_manager.py:201-237 | Succeeds if and only if one of eight attempts does, then with every desired subscription under way on a socket that has none; succeed or fail, the subscriptions are those after the interrupted attempts in order. |
| KisConnection.KISConnectionManager.HandleJsonResponse | services/kis_ingestion/src/kis_ingestion/connection_manager.py:239-279 | Which responses confirm which operation, and their effect on pending and acknowledged subscriptions. |
| KisConnection.ClassifyIs | services/kis_ingestion/src/kis_ingestion/connection_manager.py:239-279 | Which codes, and without them which texts of a successful response, name which operation. |
| KisConnection.OnResponseIs | services/kis_ingestion/src/kis_ingestion/connection_manager.py:239-279 | A response changes the record of its own subscription, by the operation it names or the one it completes, and otherwise nothing. |
| KisConnection.KISConnectionManager.HandleDataMessage | services/kis_ingestion/src/kis_ingestion/connection_manager.py:281-318 | Complete records are numbered on and appended in order; a broken one ends the message without a gap and is reported. |
| KisConnection.NewTicksAre | services/kis_ingestion/src/kis_ingestion/connection_manager.py:281-318 | A supported message gives a tick for each complete record before the first broken one, with its content and the next number. |
| KisConnection.KISConnectionManager.Advance | services/kis_ingestion/src/kis_ingestion/connection_manager.py:125-162 | Ticks are handed out in the order of arrival: the first of the buffer, or of what the first message that does not break finds there, through reconnections, until stopped or exhausted; a call that hands out nothing leaves ticks waiting exactly when the last messages handled are broken ones that left ticks. |
| KisConnection.KISConnectionManager.Receive | services/kis_ingestion/src/kis_ingestion/connection_manager.py:136-162 | One round of the loop: when it hands out, gives up or goes on, and the steps of `SettledLinks` that it takes on the subscriptions. |
| KisConnection.LeftBehindIff | services/kis_ingestion/src/kis_ingestion/connection_manager.py:149-162 | Ticks wait if and only if some message handled left ticks and broke, and no later one was handled without breaking. |
| KisConnection.BrokenMessageKeepsItsTick | services/kis_ingestion/src/kis_ingestion/connection_manager.py:125-162 | A good record before one that cannot be parsed, then a closed socket and eight failures: the call raises with the tick still in the buffer. |
| KisConnection.KISConnectionManager.Stop | services/kis_ingestion/src/kis_ingestion/connection_manager.py:115-120 | Stopping clears the buffer and what is under way, and changes no other part of the subscriptions. |
| KisConnection.NumberedIsOrdered | services/kis_ingestion/src/kis_ingestion/connection_manager.py:307-309 | Ticks are in session order and numbered 1, 2, 3, ... without gaps in each. |
| RateLimiter.SharedRateLimiter.Make | services/kis_ingestion/src/kis_ingestion/poller/rate_limiter.py:14-31 | Limits below one call or without a period are refused. |
| RateLimiter.SharedRateLimiter.Acquire | services/kis_ingestion/src/kis_ingestion/poller/rate_limiter.py:37-46 | A reading is granted if and only if fewer than the maximum of grants lie within the last period; otherwise the sleep ends when the oldest expires, and the reading after a sleep slept in full is granted; grants stay spaced. |
| RateLimiter.NoPeriodHoldsMore | services/kis_ingestion/src/kis_ingestion/poller/rate_limiter.py:37-46 | No half-open period, wherever it starts, holds more grants than the maximum. |
| RateLimiter.BoundedPeriodsAreSpaced | services/kis_ingestion/src/kis_ingestion/poller/rate_limiter.py:37-46 | The converse: grants that keep every period within the maximum are spaced. |
| RateLimiter.SecondSleepMeansShortSleep | services/kis_ingestion/src/kis_ingestion/poller/rate_limiter.py:39-46 | Two refusals in a row mean that the sleep between them ended early. |
| DocumentRevisions.DocumentProcessor.UpsertDocument | services/ai_signal/src/ai_signal/documents/processor.py:204-275 | A new title makes a revision; a known one, current or not, changes nothing; the current state is returned. |
| DocumentRevisions.DocumentProcessor.Handle | services/ai_signal/src/ai_signal/documents/processor.py:490-555 | One message: revision, then at most one judgement and one round of requests. |
| DocumentRevisions.RevisionsAreFirstArrivals | services/ai_signal/src/ai_signal/documents/processor.py:189-275 | Revisions are the distinct titles in first-arrival order, and the version is their count. |
| DocumentRevisions.HistoryOnlyGrows | services/ai_signal/src/ai_signal/documents/processor.py:442-466 | Revisions, judgements and requests are never rewritten. |
| DocumentRevisions.OneRequestRoundPerJudgement | services/ai_signal/src/ai_signal/documents/processor.py:504-555 | Each revision has at most one judgement, and requests are one round per judgement that calls for them. |
| DocumentRevisions.JudgesTheCurrentTitle | services/ai_signal/src/ai_signal/documents/processor.py:430-466 | A judgement is about the title of the revision it is stored under. |
| DocumentRevisions.MessageIsHandled | services/ai_signal/src/ai_signal/documents/processor.py:490-555 | What one message leaves after any messages: the current title, publisher and time of its document, a verdict exactly when a linked symbol is enabled, the revision is unjudged and the judge answers, and a round of requests exactly when that verdict calls for one. |
| DocumentRevisions.KnownTitleIsNoOp | services/ai_signal/src/ai_signal/documents/processor.py:249-259 | Once the current revision is judged, a repeated title changes nothing. |

## Left out

- SQL, Kafka, Avro, HTTP and WebSocket calls: a statement or commit is one atomic step on maps and sequences, and a rolled-back transaction is no step.
- The language model: its answers and errors are arbitrary values, and the wording rules an arbitrary predicate.
- SignalWorker.VersionsAreSpaced: is about one worker per symbol; for several it holds of undisturbed commits (`LedgerLaws.UndisturbedCommit`), and `Pipeline.RepeatIsReachable` is an interleaving in which it does not.
- SignalWorker.WrittenSignalsAreGrounded: is about one uninterrupted handler call; for interleaved workers `Pipeline.LedgerIsGrounded` says the same without the clause on what is replaced, for which `LedgerLaws.RewriteIsNewerIff` is exact.
- SignalWorker.RedeliveryWritesNothing: is about a request handled again right away; in between, other processes may change documents or the move.
- SignalWorker.LatestMove: a tie of window end and version is broken by the greater id, which the query leaves open.
- Ledger.NextKeepsStoreInv: a worker's unlocked reads are taken at one instant; only the version check under the lock is separate.
- ServingSink.ServingDatabase.Handle: the foreign key of the current row to the move table is not among its constraints; `Pipeline.TopicMovesAreStored` shows that the chain meets it, and the replay driver, which deletes moves, is not part of the model.
- Move ids are natural numbers in the order of their text form, and input hashes are the hashed values themselves.
- The serving consumer has one partition; undecodable or empty messages, whose offsets are committed unhandled, are not part of the topic.
- The signal worker's dead-letter topic and the consumers of requests and price moves appear as steps that may take any record any number of times, without offsets.
- OutboxRelay.OutboxRelay.RelayOnce: takes any unlocked batch; the order by creation time is not modelled.
- Event candidates: their source yields none in the code, so candidates are documents.
- Retry rows are recorded and cleared, but the retry job that reads them is not modelled.
- Decomposition.RollingOls: all series share one calendar; the alignment of US dates and the weight history are left out, the latter because it is not causal by design.
- Fit quality and coefficients are those of an arbitrary function of the window; floating point is replaced by real arithmetic here and in the replay view.
- Replay bars carry times in milliseconds, so two spellings of one instant are one time; the conversion of bucket starts to text is left out.
- Sse.ChunkInvariantIff: is about the frames cut and the rest; of emitted frames no CR CR LF in the text is sufficient (`Sse.ChunkingDoesNotMatter`) and no CR before a line end in them is necessary (`Sse.HandedOverCrIsUnstable`), but a CR CR LF among blank lines may or may not show.
- The fields of a frame and their dispatch to callbacks, which only add easy members.
- Cooldown.Simulate: event subjects are taken as already stripped.
- Fanout.SendsAreBounded: counts the sends begun per notification; one send to several sockets is one.
- Fanout.AlertPusher.Handle: two deliveries of one alert at the same time are not modelled, and watchers are distinct as in the watch list's primary key.
- The registry's answers to the fanout are arbitrary; `Registry` says what they are when sockets do not change during a send.
- KisConnection.KISConnectionManager.Advance: a message whose handling raises is a broken record or `Failing`; session identifiers are ordinals; back-off delays, approval keys and a stop during a reconnection are left out.
- RateLimiter.SharedRateLimiter.Acquire: the clock is any nondecreasing sequence of readings, and waiting for the lock is left out.
- DocumentRevisions.DocumentProcessor.Handle: entity links, raw rows and the choice of symbols to ask for are inputs; messages of one document are taken one after the other, as its row lock orders them.
- The poll loops of alerts and patterns, tick persistence, configuration, routes and the user interface.
