# OpsLog: a verified model

This project models the parts of OpsLog that have real state and real interleavings, and proves what they keep:

- **The server's delivery plane** (`DispatchProtocol.dfy`, `Dispatcher.dfy`, `Batching.dfy`, `Pipeline.dfy`,
  `Publishing.dfy`): producers, the bounded queue, the batching loop with its reused buffer, ticker, cancellation with
  drain, fan-out, `Stop`, and the closing of the outputs that `App.Stop` does afterwards.
- **The SDK agent** (`AgentProtocol.dfy`, `Agent.dfy`, `Sending.dfy`): the lossy queue, two workers, the collector,
  `Sync`'s two reads, the `Close` handshake, the level policy and failover.
- **The file store** (`Codec.dfy`, `Disks.dfy`, `StoreLog.dfy`, `Filtering.dfy`, `Paging.dfy`, `Archiving.dfy`,
  `StoreHistory.dfy`, `QueryHistory.dfy`, `Store.dfy`, `ArchiveProtocol.dfy`): writing, querying, filtering, paging,
  archiving, restoring and pruning over a disk of names and inodes, whole histories of these, and `Archive` interleaved
  with `Write`.
- **The live hub** (`HubProtocol.dfy`, `HubFanout.dfy`, `Hub.dfy`) and **the length framer** (`Framing.dfy`).

A concurrent component is a step system: a `State`, a `Step` for every action another goroutine can come between,
`Enabled` and `Do`, and a `Run` of any number of steps. The theorems are about every legal run. The code itself is a
class whose methods mirror the Go methods; those of the dispatcher and the agent carry a ghost `run`, and every method
is proved to take only steps of the step system, so the theorems about runs hold of them too. A lemma that returns a
`Run` exhibits one: it shows that something does happen.

## What turned out not to hold as one would say it

Each has a concrete run or input, and beside it the exact condition or the exact statement.

- *Everything accepted is delivered by the time the loop has gone.* A Dispatch after the drain's last look at the
  queue stays in it (`LateDispatchStrands`). It holds of a run exactly when there is none (`ExitDeliversAllIff`);
  `ExitDelivers` says which signals are left, and `QuietStopDelivers` that none are when nothing is accepted after the
  cancellation.
- *The loop makes ceil((k+n)/batchN) Writes after cancellation.* The outer select may still choose the ticker
  (`TickAfterCancel`). The number lies between that and n, plus one if a batch is held (`WritesAfterCancel`); both are
  reached (`FewestWrites`, `MostWrites`), so it is certain exactly when the two are equal (`CeilWritesIff`), wherever
  the cancellation finds the loop (`CancelFinds`). Counted from the moment the loop notices it is exact (`DrainCounts`).
- *Outputs are not written after they are closed.* `App.Stop` closes them even when `Stop` gave up on its context
  (`WriteAfterClose`). `WillNotWrite` is the exact condition for no more Writes: `NoLateWrite` where it holds,
  `LateWrite` where it does not. Once the inputs are stopped it is `WillNotWriteQuietly`: `NoQuietWrite` and
  `QuietLateWrite`.
- *A successful Sync means everything was sent.* It can miss one signal per worker (`SyncCanMiss`); `SyncMisses` says
  exactly which.
- *Close handles everything accepted.* A call already past the closed check can push later (`WindowStrands`), and if the
  context given to `Start` ended first the workers may have left (`ParentCancelStrands`). `CloseHandles` says, of every
  run, exactly what was handled, and `CloseHandlesAllIff` when that is certain to be everything: exactly when nobody is
  in the window and, if both workers have left, nothing is queued.
- *nil from sendOne means delivered.* Not for a reliable level when the failed transport is the only one
  (`LoneTransportHidesFailure`); `LevelPolicyDelivery` is the equivalence.
- *Archive keeps everything.* Exactly when it neither truncates an archive of the same id nor prunes one
  (`ArchiveConserves`, with `PrunedAwayIff` for when it prunes). With its steps interleaved with Writes to days not
  before the cutoff, a run keeps a segment if and only if it has not moved it on top of an archive that was not empty
  (`NothingLost`), and a store is certain to keep it if and only if that is not about to happen (`KeepsIff`). Without
  that restriction on the Writes a signal of any older segment can vanish (`EarlyWriteIsLost`).
- *Query finds everything there is.* It takes no lock. While Writes append it does (`QueryDuringWrites`); an Archive
  between its listing and its reads hides what it moves (`QueryMissesMoved`). `QueryDuringHistory` says exactly what
  it finds, `QueryMissesNothing` that leaving the listed segments alone is enough, and `QuerySeesNothingTwice` that
  nothing shows more often than it was written.
- *HasMore is offset + items < total.* Exactly when the offset is not negative or the total exceeds the limit
  (`HasMoreFormula`).

Where the documentation and the code differ the model follows the code: docs/outputs.md line 56 says segments rotate by
day and size, the code rotates by day only. Two more things the code does that a reader may not expect, and the model
keeps: `Restore` with neither `ToHot` nor `ReadOnly` writes to the hot segment, and the hub is told of a signal that the
pipeline or the full queue dropped.

## Assumptions

- `Codec.Library.Valid` is all that is assumed of encoding/json, the time format and sort.Slice: trees and times that
  can be written are read back, an encoding is one line that does not end in a carriage return, sorting permutes, into
  the order of the comparison it is given. Nothing is said of the order of equal elements.
- A gzip file is a value holding the bytes it expands to. A disk is a map from names to inodes with append, truncate and
  remove; an append that fails writes nothing.
- Text is ASCII where it is lower-cased. An instant is an integer of nanoseconds, a zone a fixed offset, a day the
  number of days since the epoch; path and archive id are the pair of kind and day, so kinds contain no separator.
- A transport, a hook, a formatter, a processor and a policy are total functions; the outcome of a Send is any function
  of the earlier attempts.
- `Start` is called once, before anything else of the agent or the dispatcher that is modelled.

## Model

| member | source | states |
|---|---|---|
| `DispatchProtocol.Conservation` | server/internal/dispatcher/dispatcher.go:161-206 | In every reachable state the accepted signals are the batches handed to write, then the batch held, then the queue; every output has been offered the same non-empty batches of at most batchN, those visited in the current fan-out one ahead, whatever failed; the reused buffer still holds the batch being written |
| `DispatchProtocol.AcceptsWhileRoom` | server/internal/dispatcher/dispatcher.go:122-141 | In every reachable state the accepted signals are those of the calls of Dispatch that enqueued one, in order; the queue never exceeds its size, another signal can enter iff it is below that and is dropped iff it is not |
| `DispatchProtocol.ExitDelivers` | server/internal/dispatcher/dispatcher.go:173-188 | When the loop has gone, what was accepted before its last empty-queue observation has reached every output once and in order, and the rest is exactly what is left in the queue |
| `DispatchProtocol.ExitDeliversAllIff` | server/internal/dispatcher/dispatcher.go:173-188 | When the loop has gone everything accepted has been handed to every output iff nothing was accepted after the last look at the queue |
| `DispatchProtocol.QuietStopDelivers` | server/internal/app/app.go:338-346 | If nothing is accepted once the context is cancelled, every output has been offered everything ever accepted, once and in order, when the loop has gone |
| `DispatchProtocol.LateDispatchStrands` | server/internal/dispatcher/dispatcher.go:184-186 | A run in which an accepted signal is never handed over |
| `DispatchProtocol.StopOrdersFlush` | server/internal/dispatcher/dispatcher.go:94-109 | Unless Stop gave up, no output sees a Write after a Flush or Close, and a Stop that returned has outlived the loop |
| `DispatchProtocol.NoLateWrite` | server/internal/app/app.go:338-348 | From a state where the loop is done writing, no run writes again |
| `DispatchProtocol.LateWrite` | server/internal/app/app.go:338-348 | From every other reachable state some run does write, whatever Stop and the closing of outputs have done |
| `DispatchProtocol.NoQuietWrite` | server/internal/app/app.go:338-348 | With the inputs stopped no run writes again when the loop is done writing, or holds nothing and has nothing queued |
| `DispatchProtocol.QuietLateWrite` | server/internal/app/app.go:338-348 | From every other reachable state some run without a further Dispatch does write |
| `DispatchProtocol.WriteAfterClose` | server/internal/app/app.go:338-348 | A run in which an output is closed and then written to, with nothing accepted since Stop was called |
| `DispatchProtocol.DrainCounts` | server/internal/dispatcher/dispatcher.go:173-188 | With producers stopped, a drain of k batched and n queued signals receives exactly n and makes exactly ceil((k+n)/batchN) Writes per output, of the chunks of what there was |
| `DispatchProtocol.DrainTerminates` | server/internal/dispatcher/dispatcher.go:177-187 | In a drain, whatever is accepted meanwhile, the next step is always enabled, and each step of the loop shortens the queue or what is left to write |
| `DispatchProtocol.DrainFinishes` | server/internal/dispatcher/dispatcher.go:177-187 | A drain, once entered, can be brought to its end by the steps of the loop alone, also after a late Dispatch |
| `DispatchProtocol.TickAfterCancel` | server/internal/dispatcher/dispatcher.go:173-196 | One signal held and one queued when batches hold two: a run from the cancellation with two Writes where one would do |
| `DispatchProtocol.WritesAfterCancel` | server/internal/dispatcher/dispatcher.go:161-206 | With producers stopped, a completed run from any state before the last look at the queue hands over between ceil((k+n)/batchN) and n + (1 if k > 0) batches, and every output is written each of them and the rest of the fan-out under way |
| `DispatchProtocol.FewestWrites` | server/internal/dispatcher/dispatcher.go:174-188 | From every cancelled state at the select, or in a fan-out that returns there, some run makes the least number |
| `DispatchProtocol.MostWrites` | server/internal/dispatcher/dispatcher.go:189-196 | And some run makes the most |
| `DispatchProtocol.CeilWritesIff` | server/internal/dispatcher/dispatcher.go:161-198 | So every completed run hands over ceil((k+n)/batchN) batches iff that is n + (1 if k > 0), k and n being what is held and queued at the cancellation |
| `DispatchProtocol.CancelFinds` | server/internal/dispatcher/dispatcher.go:94-97 | The first cancellation always finds the loop at the select or in a fan-out that returns there |
| `Batching.ChunksPartition` | server/internal/dispatcher/dispatcher.go:177-187 | Chunking loses, repeats and reorders nothing, never makes an empty or oversized batch, fills all but the last, and makes the least number |
| `Dispatcher.Async.constructor` | server/internal/dispatcher/dispatcher.go:64-92 | The defaults of New and an idle loop |
| `Dispatcher.Async.Dispatch` | server/internal/dispatcher/dispatcher.go:111-142 | The queue and error for every fate of a signal: pipeline error, dropped, queued, context done, queue full; it enqueues at most the signal as processed |
| `Dispatcher.KeptFates` | server/internal/dispatcher/dispatcher.go:122-141 | A signal the pipeline keeps is queued while there is room on a live context, dropped without an error when full, refused with the context error when that is done and the queue full; with room and a done context either may happen |
| `Dispatcher.LostFates` | server/internal/dispatcher/dispatcher.go:112-121 | Any other signal leaves the queue alone, with the error of the pipeline if there was one |
| `Dispatcher.Async.DispatchBatch` | server/internal/dispatcher/dispatcher.go:152-159 | Dispatches in order up to the first error |
| `Dispatcher.BatchFillsQueue` | server/internal/dispatcher/dispatcher.go:111-159 | On a live context a batch fills the queue with its kept signals in order while there is room, and reports no error for the others |
| `Dispatcher.Async.Write` | server/internal/dispatcher/dispatcher.go:200-206 | Every output is offered the batch as it stands in the buffer, once, whichever fail |
| `Dispatcher.Async.FlushBatch` | server/internal/dispatcher/dispatcher.go:166-172 | Nothing for an empty batch; else one batch to every output and an emptied slice |
| `Dispatcher.Async.Receive` | server/internal/dispatcher/dispatcher.go:189-193 | The head of the queue joins the batch, which is handed over when it is full |
| `Dispatcher.Async.Tick` | server/internal/dispatcher/dispatcher.go:194-196 | A non-empty batch is handed to every output |
| `Dispatcher.Async.Drain` | server/internal/dispatcher/dispatcher.go:173-188 | Every output is offered the chunks of batch and queue, and both end empty |
| `Dispatcher.FirstErrorIsFirst` | server/internal/dispatcher/dispatcher.go:208-216 | What flushAll returns is nil iff no Flush failed, and otherwise the error of the first that did |
| `Dispatcher.Async.FlushAll` | server/internal/dispatcher/dispatcher.go:208-216 | One Flush of every output, in order, after which the first error is returned |
| `Dispatcher.Async.Stop` | server/internal/dispatcher/dispatcher.go:94-109 | Either the context ends first, or the loop drains into every output, every Flush follows every Write, and the first flush error is returned |
| `Pipelines.ChainConcat` | server/internal/pipeline/pipeline.go:37-50 | A chain of two lists is the first chain, then the second unless the first failed or dropped |
| `Pipelines.ChainStopsAtFirst` | server/internal/pipeline/pipeline.go:37-50 | The first stage that fails or drops decides the result: an error gives back what that stage was given, a drop what it returned |
| `Pipelines.Chain.Process` | server/internal/pipeline/pipeline.go:37-50 | The loop computes the chain |
| `Publishing.NormalizeIdempotent` | server/internal/processor/normalize.go:37-54 | Normalizing a normalized event, at any later time, changes nothing |
| `Publishing.NormalizedValues` | server/internal/processor/normalize.go:42-52 | An empty kind becomes log, a zero time the present, an empty level info; any other level keeps its letters in lower case and the other fields stay |
| `Publishing.NormalizeProcess` | server/internal/processor/normalize.go:37-54 | The three fields of an *Event are updated in place, any other signal is left alone, and the same object is kept |
| `Publishing.NormalizeChain` | server/internal/processor/normalize.go:37-54 | However many normalize stages a chain has, it normalizes once |
| `Publishing.StagesConcat` | server/internal/pipeline/pipeline.go:37-50 | On objects too a chain of two lists is the first, then the second, which is given the object itself iff every stage before normalizes in place |
| `Publishing.PublishingDispatcher.InnerDispatch` | server/internal/dispatcher/dispatcher.go:111-142 | On objects the queue and the error are what Dispatch makes of the values |
| `Publishing.PublishingDispatcher.Process` | server/internal/pipeline/pipeline.go:37-50 | On objects: the value is the chain's, and an all-normalize chain hands on the caller's own object |
| `Publishing.PublishingDispatcher.Dispatch` | server/internal/app/app.go:355-361 | The hub is told exactly when Dispatch returned nil, dropped signals included, and of the caller's object, which with the normalize chain is the one queued, normalized |
| `AgentProtocol.AgentSafety` | sdk/agent/agent.go:149-187 | In every interleaving each accepted signal is queued, held or finished, in exactly one of these, and a worker holds the signal it received; offered while open = accepted + dropped + on its way; inflight is the number of workers inside sendOne; no Send begins after any Close and no transport is closed twice |
| `AgentProtocol.DropsOnlyWhenFull` | sdk/agent/agent.go:149-161 | In every interleaving the signals that passed the closed check are, as a multiset, the accepted ones, those that found the queue full, and those on their way; the drop counter is the number of the second |
| `AgentProtocol.StaysWithin` | sdk/agent/agent.go:185-278 | Sends go to the agent's own transports, and a collector leaves only once the workers' context has ended |
| `AgentProtocol.CollectorGetsIn` | sdk/agent/agent.go:280-297 | What a collector offers an open agent with room can be accepted next |
| `AgentProtocol.ClosesAll` | sdk/agent/agent.go:324-340 | When Close has returned every transport has been closed exactly once |
| `AgentProtocol.TrailOrder` | sdk/agent/agent.go:334-338 | A trail of Sends and then Closes in list order has no Send after a Close and one Close per transport |
| `AgentProtocol.SyncCourse` | sdk/agent/agent.go:299-310 | A Sync reads inflight only after an empty queue, succeeds only if that is then zero, and times out only between two rounds |
| `AgentProtocol.SyncMisses` | sdk/agent/agent.go:299-310 | When both reads gave zero, the signals accepted before the first that are not finished are exactly those a worker has received and not yet counted |
| `AgentProtocol.SyncCanMiss` | sdk/agent/agent.go:179-186 | A run in which Sync succeeds while a worker holds the one accepted signal |
| `AgentProtocol.CloseHandles` | sdk/agent/agent.go:324-331 | Once any Close is past its wait, everything accepted before the workers last saw the queue empty was handled exactly once and the rest is what is queued; if only Close cancelled the workers, that moment is not before its swap and at most the calls then in the window pushed later |
| `AgentProtocol.HandlesAll` | sdk/agent/agent.go:324-340 | When nobody is in the window of a closed agent and, if both workers have left, nothing is queued, every Close that returns has handled everything |
| `AgentProtocol.LeavesSome` | sdk/agent/agent.go:149-155 | From every other state of a closed agent some run returns from Close with a signal not handled |
| `AgentProtocol.CloseHandlesAllIff` | sdk/agent/agent.go:324-340 | So Close is certain to handle everything accepted iff that condition holds |
| `AgentProtocol.WindowStrands` | sdk/agent/agent.go:149-155 | A run in which such a push is left in the queue |
| `AgentProtocol.ParentCancelStrands` | sdk/agent/agent.go:134-135 | A run in which the parent context ends first and a signal accepted before Close stays in the queue |
| `AgentProtocol.CloseProgress` | sdk/agent/agent.go:324-331 | After the swap a step that finds the agent closed, ends a context or goes round in Sync leaves the work as it is; every other step decreases a lexicographic measure: queue and window, window, then how far the goroutines have got |
| `AgentProtocol.CloseNeverStuck` | sdk/agent/agent.go:324-331 | Until Close returns some step that makes progress is enabled |
| `AgentProtocol.CloseFinishes` | sdk/agent/agent.go:324-340 | From wherever a Close is, the goroutines can bring it to its return |
| `AgentCode.AgentImpl.constructor` | sdk/agent/agent.go:81-110 | The default queue size and an idle, open agent |
| `AgentCode.AgentImpl.Enqueue` | sdk/agent/agent.go:149-161 | Ignored when closed, dropped and counted when full, else queued last |
| `AgentCode.AgentImpl.Handle` | sdk/agent/agent.go:179-187 | inflight is back where it was and exactly the received signal is finished, whatever was sent |
| `AgentCode.AgentImpl.Serve` | sdk/agent/agent.go:163-182 | A receive at either select of a worker takes the head of the queue and finishes it, and leaves the worker where it was |
| `AgentCode.AgentImpl.Drain` | sdk/agent/agent.go:167-177 | Everything queued is handled in order, then the worker leaves |
| `AgentCode.AgentImpl.TrySync` | sdk/agent/agent.go:301-304 | At any time, quiescent iff queue and inflight are both zero; on success the run ends with the two reads SyncMisses is about |
| `AgentCode.AgentImpl.Close` | sdk/agent/agent.go:324-340 | The first call drains the queue, finishes every accepted signal once and closes every transport once, whether or not the context ended before; any call on a closed agent changes nothing |
| `Sending.Select` | sdk/policy/level.go:34-58 | The map filled with overwrites finds the last transport of the wanted name or type |
| `Sending.LastNamedIsLast` | sdk/policy/level.go:38-42 | It is a transport whose name or type is the one wanted, with none after it, and is missing iff there is none |
| `Sending.SelectsOne` | sdk/policy/level.go:34-58 | One available transport is selected: the last that answers to the wanted name, else the first of all |
| `Sending.WantsErrorTransport` | sdk/policy/level.go:28-51 | With any policy NewLevelPolicy makes, config signals and those of level error, fatal or panic in any case want the error transport if one is named, and all others the default one |
| `Sending.WantsByLevel` | sdk/policy/level.go:43-51 | For any policy: which of its three names a signal asks for, by its kind and by its level in any case, and what happens when a name is empty |
| `Sending.FallbackTries` | sdk/agent/agent.go:241-262 | fallbackSend tries the other transports in list order up to the first success; it returns nil iff one succeeded or there was none |
| `Sending.OthersConcat` | sdk/agent/agent.go:243-246 | The others of a list are taken in its order |
| `Sending.TriedAnswers` | sdk/agent/agent.go:241-262 | The i-th attempt goes to the i-th of the order and is answered after the ones before it |
| `Sending.TriedOutcome` | sdk/agent/agent.go:241-262 | Only the last attempt can succeed, and if it did not all were tried |
| `Sending.OneTarget` | sdk/agent/agent.go:207-229 | One target: attempts are the target and, for a reliable level, then the others; nil iff one succeeded or a reliable signal has no other transport |
| `Sending.DeliverConcat` | sdk/agent/agent.go:207-229 | Targets of a list are tried one after the other, an error being carried from the first ones to the rest |
| `Sending.DeliverAfter` | sdk/agent/agent.go:207-229 | What one target makes of an error recorded before it: kept on success, set by an unreliable failure, replaced by the outcome of a failover |
| `Sending.LevelPolicyDelivery` | sdk/agent/agent.go:202-229 | Through the level policy at most one Send succeeds, all attempts go to available transports with the same payload, and nil means delivered or reliable with no other transport |
| `Sending.LoneTransportHidesFailure` | sdk/agent/agent.go:220-224 | The failure of an only transport is reported as success for a reliable level |
| `Sending.NilMeansDelivered` | sdk/agent/agent.go:207-229 | For any policy, nil means some Send succeeded, or the level is reliable and some selected transport is the only one |
| `Sending.HooksOne` | sdk/agent/agent.go:190-196 | A single hook decides what is sent and whether |
| `Sending.HooksConcat` | sdk/agent/agent.go:190-196 | Of two lists of hooks the second is given what the first made of the signal, unless that dropped it |
| `Sending.HooksKeep` | sdk/agent/agent.go:190-196 | A signal is kept iff every hook keeps what the ones before it made of it |
| `Sending.Agent.FallbackSend` | sdk/agent/agent.go:241-262 | The loop and its first error are the recursive failover |
| `Sending.Agent.SendOne` | sdk/agent/agent.go:185-230 | A hook that drops, a format error and an empty selection send nothing; otherwise the loop over targets is the delivery function |
| `Codec.DecodeJSON` | pkg/codec/json.go:44-91 | Field by field it computes the event of the object, null included, keeps a copy of the bytes, and fails on anything else |
| `Codec.CodecRoundTrip` | pkg/codec/json.go:23-91 | What EncodeJSON writes decodes to the same event, an empty kind reading back as log, and is one line |
| `Codec.FieldsRoundTrip` | pkg/signal/event.go:17-26 | The members written with omitempty determine the event, for any distinct member names |
| `Codec.EncodesMembers` | pkg/signal/event.go:17-26 | The wire form of an event: exactly these member names, kind and ts always, the others iff not empty |
| `Codec.DecodesMembers` | pkg/codec/json.go:51-90 | What each member is decoded to, whatever its type: msg hides message, a missing kind is log, a missing or unreadable ts the zero time |
| `Codec.DecodesObjects` | pkg/codec/json.go:45-48 | Exactly objects and null decode, null as the object without members |
| `Codec.ScanFirst` | server/internal/output/filesystem/filesystem.go:161-163 | A line within the limit is the scanner's first token and the rest is scanned as if alone |
| `Codec.ScanDropsReturn` | server/internal/output/filesystem/filesystem.go:161-163 | A carriage return before the end of a line is not part of the token |
| `Codec.ScanUnended` | server/internal/output/filesystem/filesystem.go:161-163 | A last line without an end is a token |
| `Codec.ScanStops` | server/internal/output/filesystem/filesystem.go:161-163 | A line of 8 MiB or more ends the scan, and nothing behind it is read |
| `Codec.SortsNewestFirst` | server/internal/output/filesystem/filesystem.go:174-175 | Sorted by the comparison Query passes to sort.Slice, what it found is the same events, newest first |
| `StoreLog.Applied` | server/internal/output/filesystem/filesystem.go:75-97 | How many signals of a batch are written: those before the first that fails |
| `StoreLog.WrittenPartitions` | server/internal/output/filesystem/filesystem.go:72-98 | Appending a batch is a stable partition: each segment gets its old content and the lines of its entries in order, no other file changes |
| `StoreLog.WritePartitions` | server/internal/output/filesystem/filesystem.go:72-98 | A Write that fails has applied exactly a prefix of its batch |
| `StoreLog.ReadsBack` | server/internal/output/filesystem/filesystem.go:161-171 | Scanning and decoding the lines of events gives the matching events |
| `StoreLog.GatherAll` | server/internal/output/filesystem/filesystem.go:147-173 | Going through the day segments of a kind finds each event of the log once |
| `StoreLog.QueryRefinesLog` | server/internal/output/filesystem/filesystem.go:134-190 | Query refines the abstract log: before paging a newest-first permutation of the matching events, Total their number |
| `StoreLog.QueryAfterWrites` | server/internal/output/filesystem/filesystem.go:72-190 | The same after any sequence of Writes from an empty store, failed ones included, and the pages of a walk are the whole result |
| `StoreLog.QueryDuringWrites` | server/internal/output/filesystem/filesystem.go:134-175 | Query takes no lock: whatever Writes append while it reads, it finds every answer there was when it listed the days and none that was not there when it had read the last, newest first |
| `StoreLog.WindowsSplit` | server/internal/output/filesystem/filesystem.go:193-199 | Two adjacent time windows give each answer of the whole window once |
| `Filtering.AnswersFilter` | server/internal/output/filesystem/filesystem.go:193-216 | The answers to a query are those of its kind that match, each as often as it was written |
| `Filtering.AllAnswers` | server/internal/output/filesystem/filesystem.go:138-141 | Without criteria every entry of the kind is an answer, log if no kind is named, with an empty kind read back as log |
| `Filtering.AnswersConcat` | server/internal/output/filesystem/filesystem.go:134-190 | The answers from a log are those from its parts |
| `Filtering.ServicesFilter` | server/internal/output/filesystem/filesystem.go:203-205 | A list of services keeps, of the answers without it, those of one of the services |
| `Filtering.LevelsFilter` | server/internal/output/filesystem/filesystem.go:200-202 | A list of levels those of one of the levels |
| `Filtering.HostsFilter` | server/internal/output/filesystem/filesystem.go:206-208 | A list of hosts those of one of the hosts |
| `Filtering.TraceFilter` | server/internal/output/filesystem/filesystem.go:209-211 | A trace id those of that trace |
| `Filtering.KeywordFilter` | server/internal/output/filesystem/filesystem.go:212-214 | A keyword those whose message contains it, whatever the case of either |
| `Filtering.FromFilter` | server/internal/output/filesystem/filesystem.go:194-196 | A lower bound those not before it |
| `Filtering.ToFilter` | server/internal/output/filesystem/filesystem.go:197-199 | An upper bound those not after it |
| `Filtering.LiveMatches` | server/internal/live/hub.go:86-103 | The live filter lets through what a query with the same criteria matches, of the kind if one is named |
| `Paging.PageIsSlice` | server/internal/output/filesystem/filesystem.go:177-189 | A page is the slice of at most the limit, 100 if none is given, from the offset |
| `Paging.HasMoreFormula` | server/internal/output/mysql/mysql.go:185 | HasMore equals offset + items < total iff the offset is not negative or the total exceeds the limit |
| `Paging.WalkSeesAll` | server/internal/web/static/assets/app.js:858-862 | Advancing by the limit while HasMore holds shows every item once, in order, in max(1, ceil(total/limit)) pages |
| `Store.Output.OpenLocked` | server/internal/output/filesystem/filesystem.go:100-113 | One handle per path, leading to the file of that name, which exists afterwards and is otherwise unchanged |
| `Store.Output.WriteOne` | server/internal/output/filesystem/filesystem.go:75-96 | The outcome and the files for each way one signal can fail |
| `Store.Output.Write` | server/internal/output/filesystem/filesystem.go:72-98 | The loop leaves the files the function of the batch and its faults says, and fails iff not all was applied |
| `Store.Output.ScanSegment` | server/internal/output/filesystem/filesystem.go:161-171 | The scan adds the lines that decode and match, in order, and stops at one that is too long |
| `Store.Output.RunQuery` | server/internal/output/filesystem/filesystem.go:134-191 | The page Query returns is the specified page |
| `Store.Output.ArchiveSegment` | server/internal/output/filesystem/filesystem.go:251-267 | Compress, describe and remove one segment, or change nothing if the segment cannot be read or its archive not created |
| `Store.Output.Archive` | server/internal/output/filesystem/filesystem.go:227-275 | Without a failure exactly the eligible segments are moved and exactly the old archives pruned; the first failure ends it with some eligible segments moved, that one not, and nothing pruned |
| `Store.Output.ListArchives` | server/internal/output/filesystem/filesystem.go:277-302 | The descriptions there are, latest first |
| `Store.Output.PruneArchives` | server/internal/output/filesystem/filesystem.go:334-346 | Exactly the archives that begin before the cutoff go |
| `Store.Output.Restore` | server/internal/output/filesystem/filesystem.go:304-332 | Result and files for every combination of options and missing or existing files |
| `Archiving.ArchiveConserves` | server/internal/output/filesystem/filesystem.go:236-273 | Hot and archived content of an id together are kept iff no non-empty archive of that id is truncated and none pruned |
| `Archiving.PrunedAwayIff` | server/internal/output/filesystem/filesystem.go:270-273 | Retention removes an archive iff it is on, its day began more than that many days before now, and the segment is moved now or was before |
| `Archiving.MovesWhatIsDatedBefore` | server/internal/output/filesystem/filesystem.go:80-84 | Archive at a midnight moves exactly the segments of the signals of the four kinds that are dated before it, whenever they were written |
| `Archiving.UndatedAsNow` | server/internal/output/filesystem/filesystem.go:80-83 | A signal without a time goes where it would go dated now |
| `Archiving.InfoCoversDay` | server/internal/output/filesystem/filesystem.go:257-266 | The description of an archive names its segment and covers exactly the instants of its day |
| `Archiving.MovingConserves` | server/internal/output/filesystem/filesystem.go:236-268 | The same for the segments moved before a failure ends Archive: hot and archived content are kept iff no non-empty archive is truncated |
| `Archiving.RestoreInvertsArchive` | server/internal/output/filesystem/filesystem.go:227-332 | Restoring an archived segment that was not pruned recreates it exactly, at its path, changing nothing else |
| `Archiving.RestoreKeepsExisting` | server/internal/output/filesystem/filesystem.go:328-330 | Without Overwrite no existing file is altered |
| `Archiving.OverwriteReplaces` | server/internal/output/filesystem/filesystem.go:328-331 | With Overwrite the hot segment becomes the archive's content, whatever it was; no other file changes |
| `Archiving.ArchiveHides` | server/internal/output/filesystem/filesystem.go:227-275 | After Archive the store represents the log without the entries of the segments moved |
| `Archiving.RestoreReveals` | server/internal/output/filesystem/filesystem.go:304-332 | After restoring one of them it represents the log with its entries again |
| `Archiving.QueryAfterArchive` | server/internal/output/filesystem/filesystem.go:134-275 | Query after Archive answers from the log without the archived segments |
| `StoreHistory.QueryAfterHistory` | server/internal/output/filesystem/filesystem.go:72-332 | After any sequence of Writes, Archives and Restores, cut short or not, Query answers from the hot shelf: a newest-first permutation of its matching events, Total their number |
| `StoreHistory.RestoreAfterHistory` | server/internal/output/filesystem/filesystem.go:304-332 | And a Restore then succeeds or fails, and with which error, as the shelves say |
| `StoreHistory.ShelvedStep` | server/internal/output/filesystem/filesystem.go:72-332 | Each operation on the files is the one on the shelves, an Archive that stops at a failing segment included |
| `StoreHistory.CarefulHistoryKeeps` | server/internal/output/filesystem/filesystem.go:72-332 | In any history whose Archives truncate and forget no archive and whose Restores replace no segment, every signal ever written is still on a shelf, as often as it was written |
| `QueryHistory.QueryDuringHistory` | server/internal/output/filesystem/filesystem.go:134-175 | Whatever operations come between the listing and the reads of Query, the result is, day by day, the matching events of the hot segment at the moment it was read, newest first |
| `QueryHistory.QuerySeesNothingTwice` | server/internal/output/filesystem/filesystem.go:134-175 | It never shows an event more often than it was written, though archived segments may come back meanwhile |
| `QueryHistory.QueryMissesNothing` | server/internal/output/filesystem/filesystem.go:134-175 | It finds every answer there was at the listing if no listed segment is taken away or replaced before it is read |
| `QueryHistory.QueryMissesMoved` | server/internal/output/filesystem/filesystem.go:156-159 | If Archive moves every listed segment before it is read, the result is empty |
| `ArchiveProtocol.NothingLost` | server/internal/output/filesystem/filesystem.go:229-268 | In every interleaving of Archive's steps with Writes to days not before the cutoff, a segment and its archive together hold what they held at the beginning followed by what was appended iff the segment has not been moved on top of an archive that was not empty; while it is being moved both are what the segment was |
| `ArchiveProtocol.KeepsIff` | server/internal/output/filesystem/filesystem.go:229-268 | From any store, every such run keeps a segment it is not moving iff the segment is not eligible, not there, or its archive is empty or missing |
| `ArchiveProtocol.ArchiveFinishes` | server/internal/output/filesystem/filesystem.go:236-274 | If nothing fails Archive can be brought to its end from wherever it is, with no more Writes |
| `ArchiveProtocol.ArchiveCompletes` | server/internal/output/filesystem/filesystem.go:229-268 | Segments not before the cutoff only grow by appends, and when Archive has returned every other one is an archive with its original content and its description |
| `ArchiveProtocol.DescribedBeforeRemoved` | server/internal/output/filesystem/filesystem.go:255-267 | In every interleaving a segment that has gone has its archive, with all it held, and its description |
| `ArchiveProtocol.AppendsWhatIsGiven` | server/internal/output/filesystem/filesystem.go:72-98 | What has been appended is what the calls of Write were given, in order, but for what the one under way has still to append and what ended ones left |
| `ArchiveProtocol.EarlyWriteIsLost` | server/internal/output/filesystem/filesystem.go:255-267 | A run in which a signal written to a segment already compressed is removed with it |
| `HubProtocol.NeverPanics` | server/internal/live/hub.go:34-83 | In every interleaving no send meets a closed channel and none is closed twice; the channels in the table are exactly the open ones and ids stay below next |
| `HubProtocol.ClosedForGood` | server/internal/live/hub.go:53-60 | A closed channel stays closed and its id out of the table |
| `HubProtocol.Accounting` | server/internal/live/hub.go:34-82 | Each subscriber's output is an order-preserving, duplicate-free selection of the matching signals offered, with accounting of both drop points |
| `HubProtocol.DropsOnlyWhenFull` | server/internal/live/hub.go:37-42 | In every run the signals lost at each buffer are as many as came to it while it held 128 |
| `HubProtocol.FilterIsAsked` | server/internal/live/hub.go:45-51 | A subscription is matched with the filter its call of Subscribe was given |
| `HubProtocol.GoneFromTable` | server/internal/live/hub.go:65-72 | A forwarding goroutine that has left, by its context or by the channel, has left its id out of the table and both channels closed |
| `HubProtocol.DeliversAll` | server/internal/live/hub.go:63-82 | When neither buffer was ever found full and the context is live, after a cancel the output is exactly the matching signals offered |
| `HubFanout.EachPublishOffered` | server/internal/live/hub.go:34-51 | A subscription is offered, exactly once each, the signals of the Publish calls that began while it was in the table, but for those on their way, and no others |
| `HubFanout.BegunIs` | server/internal/live/hub.go:34-36 | The numbered signals are those of the calls of Publish, in the order they began |
| `HubFanout.OffersKeepOrder` | server/internal/live/hub.go:34-43 | Two calls of Publish that do not overlap are offered to every subscription in their order |
| `HubFanout.DeliversPublished` | server/internal/live/hub.go:34-83 | When neither buffer was ever found full and the context is live, a cancelled subscription has been given exactly the matching signals published while it was in the table, each once |
| `HubFanout.DeliversInOrder` | server/internal/live/hub.go:34-83 | If the calls of Publish in that stretch came one after another, it has been given the matching signals in the order they were published |
| `HubProtocol.ForwarderFinishes` | server/internal/live/hub.go:53-82 | From every reachable state a subscription that is cancelled or whose context has ended can be brought to rest, with its context as it was |
| `Hubs.PushedAllFits` | server/internal/live/hub.go:37-42 | A run of lossy sends keeps the first that fit |
| `Hubs.Hub.Publish` | server/internal/live/hub.go:34-43 | Every subscription gets one lossy send, whatever order the map is walked in |
| `Hubs.Hub.Subscribe` | server/internal/live/hub.go:45-51 | A new channel under an id never used before |
| `Hubs.Hub.Cancel` | server/internal/live/hub.go:53-60 | The channel is removed and closed, once; its buffer and the other subscriptions are untouched |
| `Hubs.Forward` | server/internal/live/hub.go:63-82 | On a closed channel what is buffered and matches is passed on, in order, as far as it fits, then out is closed |
| `Framing.HeaderRoundTrip` | pkg/framer/length.go:27-28 | Reading back the four header bytes of a length gives it |
| `Framing.HeaderUnique` | pkg/framer/length.go:42 | Every four bytes are the header of the length they read as |
| `Framing.HeaderReads` | pkg/framer/length.go:42 | The most significant byte comes first |
| `Framing.RefusesLarge` | pkg/framer/length.go:43-45 | A length over 8 MiB, and no other, is refused once its header is read |
| `Framing.ReadBack` | pkg/framer/length.go:22-51 | A frame at the front of a stream is read back, consuming 4+n bytes, whatever follows |
| `Framing.ReadsOnlyFrames` | pkg/framer/length.go:36-51 | What a successful read consumed is the frame of the payload it returned |
| `Framing.ReadCut` | pkg/framer/length.go:37-51 | A frame cut anywhere yields an end of file at its start or just after its header and an unexpected end elsewhere |
| `Framing.ReadPrefix` | server/internal/input/tcp.go:80-96 | Over any prefix of a stream of frames exactly the payloads whose frames lie wholly inside it are read, in order, then the right error |
| `Framing.ReadFull` | pkg/framer/length.go:38-40 | However the reader splits its bytes, the buffer is filled with the next ones or the error says whether any came |
| `Framing.ReadLengthPrefixed` | pkg/framer/length.go:36-51 | The reader computes the specified read, result and position |
| `Framing.Handle` | server/internal/input/tcp.go:80-96 | The connection loop dispatches what decodes of the payloads, in order, up to the first error of the reader or the first round that finds the context done |
| `Framing.WriteLengthPrefixed` | pkg/framer/length.go:22-34 | A payload over the limit writes nothing; otherwise the frame is appended, or as much of it as the connection takes, with an error |

## Left out

- Dispatcher.Async.Stop: called while the loop is at its select with producers stopped, and run by itself; Stop interleaved with everything else is in DispatchProtocol.
- AgentCode.AgentImpl.Close: the first call is made while the workers and the collector are at their selects; every other interleaving is in AgentProtocol.
- AgentCode.AgentImpl.TrySync: one round of Sync's polling loop; its 3 s deadline is the step SyncDeadline of AgentProtocol, and the flush of the transports that ends every Sync is not modelled.
- Hubs.Forward: the goroutine of a subscription already cancelled; receiving, forwarding, the context and the cancel closure in any order are in HubProtocol.
- QueryHistory.QueryDuringHistory: a file is read at one moment; a Restore of which Query sees only the beginning, and a line of which it sees only a part, are not modelled.
- Store.Output.ListArchives: an insertion stands for sort.Slice; the order of equal days is not specified.
- Store.Output.Archive: run by itself; ArchiveProtocol interleaves it with Write, without retention.
- Store.Output.ArchiveSegment: a compression that fails half way and leaves a cut archive behind is not modelled, nor are failures of writing the description and of removing the segment, which the code ignores, nor any other disk error but those of open and append in Write.
- Store.Output.RunQuery: of a store nobody changes meanwhile; Query takes no lock, and StoreLog.QueryDuringWrites and module QueryHistory say what it finds while others change it, each line and each restored segment being seen whole. Attribute filters are ignored, as in the code.
- Publishing.PublishingDispatcher.Dispatch: one caller at a time.
- Framing.Handle: the read deadline is an error of the reader like any other; the result of a dispatch is ignored, as in the code.
- Sockets, HTTP, WebSocket and gRPC, TLS, retries inside libraries: a transport is an oracle, a connection a byte sequence delivered in pieces of any size; a read that returns no byte and no error does not occur.
- MySQL and ClickHouse outputs: only the HasMore formula, for comparison.
- Compression, checksums, sizes and the JSON of archive descriptions; file names that are not of the store; creating directories.
- EncodeBatchJSON, DecodeBatchJSON and DecodePlain: compositions of the two functions modelled.
- Daylight saving: a zone is a fixed offset, so a day has 24 hours.
- How an output reacts to the cancelled context it is given during the drain: a Write may fail there, and nothing depends on it.
- Wall-clock timing: tickers, timeouts and deadlines are steps that may happen at any time.
- Panics in hooks, processors and formatters; a nil transport in the list.
- Enrichers, collectors' content, configuration, registry, console and basic auth, logging and message truncation: glue, or easy members.
- A second Start of the dispatcher or the agent, and Stop or Close before Start.
- The Flush and Close of the file store, which change no file.
