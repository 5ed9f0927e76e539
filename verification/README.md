# gopayground: a model of the payment pipeline, with proofs

The consumer reads payment events from Kafka, one goroutine per partition, and for each message
takes a semaphore slot, validates, checks and sets an idempotency key in Redis, writes a status
(Redis) and a history row (DynamoDB) under retry, sends failures to a dead-letter topic, publishes
successes on a Redis channel and marks the offset. Every remote call can be lost, or run and lose
its answer. Around it stand the event bus of the UI with its SSE clients, the producer, the
dead-letter envelope, and two backoff loops.

## How it is built

- `Protocol` defines the consumer once, as a step function: a claim's program counter, the reply of
  the environment, the next state. A *script* is one claim alone (`After`); `Exec` interleaves all
  claims with the clock and with crashes that lose the process at any step.
- `Consumer.Handler` and the repository classes in `Backends` are the code as it is written: fields
  updated in place, the loop over the messages, the retry loop. `Valid()` says that the script
  recorded so far leads to exactly the state the fields show and that each step is the one the
  answers of the environment call for (`Inputs`), which are inputs; so every method is proved to take
  the steps of `Protocol`, and `Protocol.SoloRun` makes every such script a run of the whole system.
- `Safety`, `Outcomes`, `Provenance`, `Atomicity`, `Accounting`, `Tallies` and `Progress` are invariants
  of all runs and what follows from them; `Writes` and `Healthy` are about scripts, and `Stored` carries the retried writes
  over to all interleavings. `Limits` shows that the conditions of `Atomicity` are the ones needed, and
  `Loss` when a promise of the design fails; both build their runs from `Runs`. `Session` applies the
  theorems to the Handler object.
- `Bus` is the fan-out as a state machine and `EventBuses` the class, tied together the same way.
  `Sse.Handlers` is one SSE request, `SseSteps` any number of them with the bus.
- `Retry`, `Connect`, `Validator`, `Producer`, `Generate`, `Dlq` and `Decimal` follow their source
  files. `Retry.Do` takes the function it retries as the sequence of its results;
  `Consumer.Handler.RetryWrites` is the same loop around the handler's own closure, whose effects a
  function value cannot carry.

Assumptions about libraries: sarama's MarkMessage only moves forward, to one past the offset; each
partition has at most one running ConsumeClaim; Redis answers SET NX with no expiry for a zero time
to live and deletes a key given a zero expiry; uuids are fresh; timers do not fire early; a
formatted time parses to the same or an earlier time. JSON and time parsing are function parameters.

Where code and documents disagree the code is modelled. ADR-009 and ADR-004 speak of a goroutine per
message and about 1.3 s of backoff: messages of a partition are handled one at a time
(internal/consumer/handler.go:168), and three attempts have two waits
(internal/retry/handler.go:37-39). ADR-002 speaks of an atomic check: the check and the mark are two
requests and a failed mark is only logged (internal/consumer/handler.go:248-272);
`Limits.ConditionIsExact` says exactly when the pair still acts as one. ADR-012 promises that no
message in flight is lost: `Loss.CrashAfterMarkLosesMessage` and, without any crash,
`Loss.LostLetterLosesMessage` refute it from every state with an idle claim, a free slot and an
unmarked payment; `Loss.LossHasThreeCauses` gives the three ways a marked message is lost, one of
which is the payment id alone being the idempotency key, so that a second event of the payment is
skipped while the mark lives (internal/idempotency/redis.go:40); `Loss.RedeliveryLosesExactlyWhen` and
`Loss.CrashLosesExactlyWhen` say exactly when a message can be lost.

## Model

| member | source | states |
|---|---|---|
| Outcomes.EveryCallIsSound | internal/consumer/handler.go:184-341 | in every reachable state of every interleaving with crashes: a marked offset means both writes were acknowledged in that call or its answered check found a mark, and the marked position is past it; an error means exactly one dead-letter attempt, none only if no slot was got, and no mark |
| Outcomes.PositionsAreMarked | internal/consumer/handler.go:184-193 | in every run each partition's marked position is where it started or one past the offset of a call that marked it, never goes back, and is past every marked offset |
| Outcomes.LettersHaveSenders | internal/consumer/handler.go:215-231 | in every run the dead letters that arrived and the calls whose letter got through are the same, one to one: each letter is of its call's message, was its one attempt, and holds the error the call returned |
| Outcomes.PublishedHasCall | internal/consumer/handler.go:330-338 | in every run the events on the bus and the calls that got one there are the same, one to one: each call had completed both writes for its event, and none published twice |
| Safety.ControlAlways | internal/consumer/handler.go:147-341 | the invariant behind it: every record is sound, fits its program counter, and a busy claim works on the newest call of its partition |
| Provenance.SkipHasCause | internal/idempotency/redis.go:30-49 | a call that skips its message was caused by another call for the same payment id that had itself passed validation and the check and created a mark less than one time to live earlier |
| Provenance.HistoryIsAppendOnly | internal/history/dynamodb.go:50-66 | between any two moments of a run no history row changes or disappears, whichever claims write and fail |
| Provenance.RowHasWriter | internal/consumer/handler.go:274-299 | every new row was put by a call for exactly that event, after the status write of the same attempt was acknowledged; it holds that call's trace and the clock's reading at the put |
| Provenance.PublishedIsPersisted | internal/consumer/handler.go:286-338 | in every reachable state every published event, and every completed call's event, has its row |
| Atomicity.PassesAreApart | internal/consumer/handler.go:244-272 | with ids routed to partitions, two calls that went on to write for one id have marks at least a time to live apart, given only that both checks were answered and the first mark ran; failures, crashes and other partitions are arbitrary |
| Limits.ConditionIsExact | internal/consumer/handler.go:248-272 | for each outcome of first check, first mark and second check: passes for one id are apart in all runs if and only if the mark ran and both checks were answered (the first check does not matter when the time to live is under two clock units) |
| Limits.PassTwice | internal/consumer/handler.go:248-272 | from every state with an idle claim, one message passes on to its writes twice, any time apart, wherever the checks that are answered find no mark: a lost mark or an unanswered check allows it at the same instant |
| Atomicity.ExclusiveAlways | internal/consumer/handler.go:148-168 | the invariant behind it: between an answered check and its mark the id stays unmarked, because only its own partition's claim can mark it |
| Accounting.SemaphoreIsExact | internal/consumer/handler.go:200-206 | semaphore occupancy is the number of calls between acquire and return, never above the worker count, and the deferred release never waits |
| Accounting.CountersBalance | internal/consumer/handler.go:149-325 | with nothing in flight: received = success + error, marks = success = hits + completions, error = both dead-letter counts + cancelled acquisitions, retry attempts between entries and entries times the maximum |
| Tallies.CountersCountCalls | internal/consumer/handler.go:149-325 | in every run each counter is the number of calls since the last crash that did what it is named for, and dlq:count has grown by the number of increments that ran |
| Writes.RetryEqualsOneAttempt | internal/consumer/handler.go:274-299 | for one claim and every pattern of lost requests and lost answers, a nil result leaves all statuses and history as one clean attempt would, up to clock readings and trace ids; after an error at most that status, which is then the event's, and that row differ |
| Stored.RetryAmongOthers | internal/consumer/handler.go:274-299 | the same for the payment's status and the event's row while any other claims run, with ids routed to partitions |
| Stored.NilMeansStored | internal/consumer/handler.go:274-340 | with ids routed to partitions, over all interleavings, failures and crashes: when a call that did not skip is about to return nil, Redis holds its event's status (none if the time to live is zero) and the table a row under its event's key, which predates the run or was written by this call or an earlier one of its partition |
| Stores.PipelineMeaning | internal/status/redis.go:29-43 | after the pipeline the status is readable for its whole time to live, if and only if that is positive, and no other payment's status or mark changes |
| Stores.RenderInjective | internal/idempotency/redis.go:31-40 | two rendered keys are the same string only if family and id are the same, for any payment ids |
| Stores.CommandsAgree | internal/status/redis.go:29-43 | on Redis' one keyspace, where they see only rendered keys, EXISTS, SET NX, HSET, EXPIRE and INCR answer and do the same as on the model's record of three maps |
| Stores.SetNXMeaning | internal/idempotency/redis.go:39-49 | after a mark request the id is marked; a mark it created lives exactly its time to live, a live one is left alone, and nothing else is touched |
| Stores.CheckFindsCreatedMark | internal/idempotency/redis.go:30-37 | after any mark requests for an id, the check finds a key if and only if one of them created it less than one time to live ago |
| Stores.KeyIsIdAndTime | internal/history/dynamodb.go:50-66 | two events share a row if and only if they have the same payment id and timestamp |
| Healthy.ConsumeClaimRefines | internal/consumer/handler.go:147-341 | a healthy run of any messages ends as a pure function of the messages and their verdicts says: statuses, history, bus, dead letters, marks, position |
| Healthy.AbsorbedLogs | internal/consumer/handler.go:208-340 | the bus gets the first valid event of each unmarked id in order, the dead letters the invalid messages in order, the marks the valid ids |
| Healthy.AbsorbedRows | internal/history/dynamodb.go:50-66 | the rows are those that were there and those of the first valid events; no later event of a known id adds one |
| Healthy.FirstDecides | internal/consumer/handler.go:274-299 | the first valid event of an id gives its status, and its row unless the row predates the run |
| Healthy.KeyStaysAbsent | internal/consumer/handler.go:255-261 | an id that was marked, or has no valid event among the messages, keeps its status and rows |
| Healthy.PositionAfter | internal/consumer/handler.go:184-193 | the position ends one past the last valid offset, unless it was further |
| Healthy.ReplayIsIdempotent | internal/consumer/handler.go:208-261 | redelivery of ids already handled, in any order and number, leaves statuses, history, bus and marks and adds exactly the invalid messages to the dead letters |
| Session.RedeliveryChangesNothing | internal/validator/validator.go:37-91 | with the validator as it is, redelivering any messages judged valid before changes no status, row, bus or dead letter while marks live |
| Session.SoloIsSafe | internal/consumer/handler.go:147-197 | every execution of ConsumeClaim, whatever failed, leaves sound calls, an empty semaphore and balanced counters |
| Session.ConsumePartition | internal/consumer/handler.go:147-341 | for the Handler object over empty stores and any answers of the environment: sound calls and balanced counters; with a worker and an attempt, answers that all arrive and a live context, and no mark running out, the stores, bus, dead letters and dlq:count end as the pure function of the messages says |
| Inputs.AllWellIsHealthy | internal/consumer/handler.go:200-206 | with a worker, a claim alone whose requests are all answered and whose context stays alive gets its slot every time, and nothing is cancelled or lost |
| Loss.RedeliveryLosesExactlyWhen | internal/consumer/handler.go:244-325 | message by message, with ids routed to partitions, from any reachable state with an idle claim: redelivery can end with the offset marked and the message without row and dead letter - with no crash, lost letter or other message of the payment from there on - if and only if the payment's mark is live and the message has neither row nor letter |
| Loss.CrashLosesExactlyWhen | internal/consumer/handler.go:263-325 | the same after a crash at any step; for a claim past its mark: if and only if its own row was not put and its letter has not arrived, the mark is live, and the message was not handled before or by another call |
| Session.CrashLosesExactlyWhen | internal/validator/validator.go:37-91 | the same with the validator as it is, for every claim whose message was validated, with no condition on verdicts |
| Loss.LossHasThreeCauses | internal/consumer/handler.go:255-325 | with ids routed to partitions, a marked message without row and letter was skipped for the mark of an earlier call of its partition and payment, which was for another message or event of the payment, or for this message and cut off by a crash, or for this message and returned an error whose dead letter was lost |
| Loss.MarkedIsHandledUnlessDropped | internal/consumer/handler.go:263-325 | a marked message has its event's row or its dead letter, unless a call that set its payment's mark did not handle this message |
| Loss.HandledIsVisible | internal/consumer/handler.go:286-338 | a message's row or letter is there if and only if it was there at the start or some call put the one or got the other through; without them its event was never published |
| Loss.UnhandledIsInvisible | internal/consumer/handler.go:286-338 | a payment none of whose calls put a row or got a letter through has no row that does not predate the run, was never published, and none of the new letters is from its calls |
| Loss.CrashAfterMarkLosesMessage | internal/consumer/handler.go:263-299 | from every state with an idle claim, a crash after the mark and a redelivery mark the offset and leave no trace of the payment |
| Loss.LostLetterLosesMessage | internal/retry/handler.go:42-48 | the same from every such state without a crash: the context ends the retries, the dead letter is lost, and redelivery marks the offset |
| Loss.PassedOverExactlyWhen | internal/consumer/handler.go:184-325 | a message is passed over if and only if its position started past it or some call marked its offset or a later one; it is then gone without row and letter if and only if, in addition, it was not handled before the run and no call put its row or got its letter through |
| Loss.FailedMessageIsPassedOver | internal/consumer/handler.go:184-231 | so an invalid message whose dead letter was lost is passed over without a trace by the next duplicate of its partition |
| Protocol.SoloRun | internal/consumer/handler.go:147-197 | a claim running alone is a run of the interleaved system |
| Progress.CallEnds | internal/consumer/handler.go:199-341 | a call is over after at most 3n + 7 steps of its own for n attempts (8 if none is allowed), however the other claims interleave |
| Progress.NeverStuck | internal/consumer/handler.go:200-206 | a busy claim can always take a step without being cancelled, unless it waits for a slot and none is free |
| Progress.SomeoneMoves | internal/consumer/handler.go:200-206 | when no slot is free, some call that holds one can take a step |
| Consumer.Handler.ConsumeClaim | internal/consumer/handler.go:147-197 | consumes exactly these messages, ends idle with every slot returned, by the steps that the answers of the environment call for, one after the other; steps recorded before stay |
| Consumer.Handler.AcquireSlot | internal/consumer/handler.go:200-206 | the slot is taken if and only if one is free and the select does not take the case of an ended context |
| Consumer.Handler.ProcessMessage | internal/consumer/handler.go:199-341 | adds the protocol's steps for this message to the record, ends with the protocol's result on every path, and gives its slot back |
| Consumer.Handler.RetryWrites | internal/consumer/handler.go:274-299 | the retry loop in place: nil after 1 to max attempts, the last with both writes; the exhausted error after exactly max (none if max is not positive); the cancelled error after fewer |
| Consumer.Handler.Wait | internal/retry/handler.go:37-48 | ends early exactly when the context has ended; otherwise exactly the jittered delay passes, and what the timer is late by |
| Consumer.Handler.DeadLetter | internal/consumer/handler.go:215-231 | one counted publication that adds this letter or is lost, one best-effort count in Redis, and nothing else; then the error is returned whatever their outcome |
| Backends.RedisUpdater.UpdateStatus | internal/status/redis.go:29-43 | a pipeline that may run not at all, up to the hash, or whole |
| Backends.DynamoRecorder.RecordHistory | internal/history/dynamodb.go:37-67 | puts the row if absent; a failed condition is success, and success means the row is there |
| Retry.Do | internal/retry/handler.go:34-63 | for every result sequence and cancellation: between 1 and n calls, nil exactly when the last call was, the last error wrapped, no call when n is not positive, the waits of the schedule |
| Retry.JitterWithinAQuarter | internal/retry/handler.go:65-76 | a delay is kept within a quarter and the clamp at zero does nothing |
| Retry.JitterFollowsRandom | internal/retry/handler.go:65-76 | the jittered delay is d (3/4 + r/2) for the random number r, to within a nanosecond |
| Retry.BackoffTriples | internal/retry/handler.go:37-41 | the nominal delay is the base before the second attempt and triples from one attempt to the next |
| Retry.TotalWait | internal/retry/handler.go:37-41 | m waits total base (3^m - 1) / 2 within a quarter, for all random numbers |
| Retry.HundredMillisecondsFit | internal/retry/handler.go:38-39 | at 100 ms no 64-bit overflow happens exactly up to 24 attempts; the next wait wraps to a negative |
| Connect.NewSyncProducerWithRetry | internal/kafka/provider.go:96-129 | stops at the first attempt that does not let it go on, at most the eighth, after at most 31.5 s of nominal waiting; connected exactly when that attempt succeeded, timed out exactly when it failed with the context alive later than 30 s after the start |
| Connect.WaitAt | internal/kafka/provider.go:124-127 | wait k is min(500 2^k, 8000) ms |
| Connect.TimeAddsUp | internal/kafka/provider.go:96-129 | the time at which an attempt returns is the durations, nominal waits and lateness so far |
| Bus.NeverPanics | internal/ui/events.go:54-117 | under every interleaving a channel is in the map exactly while open, so nothing is closed twice or sent on when closed |
| Bus.StreamIsWhatWasKept | internal/ui/events.go:84-103 | received plus buffered is, in order, what was kept of the consecutive dispatches since registration; received + buffered + dropped = offered; nothing is missing between dispatches |
| Bus.DropsOnlyWhenFull | internal/ui/events.go:96-101 | an offer is dropped exactly when the buffer is full, and otherwise appends the event |
| Bus.StreamIgnoresOthers | internal/ui/events.go:94-103 | a subscriber's stream is determined by the dispatches and its own events: neither map order nor the other clients' speed matter |
| Bus.ProjectionIsLocal | internal/ui/events.go:54-117 | what one subscription sees of a run equals a run of its own events alone |
| EventBuses.EventBus.Subscribe | internal/ui/events.go:54-72 | registers a new open, empty channel |
| EventBuses.EventBus.Unsubscribe | internal/ui/events.go:62-69 | closes and removes the channel the first time, and does nothing when repeated or after Close |
| EventBuses.EventBus.Dispatch | internal/ui/events.go:94-103 | offers the event once to every registered channel in whatever order, and touches no other |
| EventBuses.EventBus.Close | internal/ui/events.go:109-117 | closes exactly the registered channels and empties the map, any number of times |
| Sse.Handlers.HandleSSE | internal/ui/handlers.go:73-140 | refuses exactly without a bus, when full or unable to flush; otherwise sends exactly the frames of a pure one-client machine, its payments being what the channel handed over, in order; slot, count and subscription are given back on every path |
| Sse.OverMeansEnded | internal/ui/handlers.go:113-140 | the stream is over if and only if the client went away or the channel was found closed and drained |
| Sse.FirstFrame | internal/ui/handlers.go:109-111 | the first frame and only it says that the client is connected |
| Sse.BeatsAreTicks | internal/ui/handlers.go:134-138 | one heartbeat for each time the ticker fired before the stream was over |
| SseSteps.ResourcesNest | internal/ui/handlers.go:80-104 | subscribers <= connections <= slots <= 100 in every reachable state, and nothing is held once all requests are gone |
| Validator.ValidExactlyWhen | internal/models/payment.go:5-13 | the accepted events, rule by rule: uuid shape, the four statuses, positive amount, three characters without a lower-case letter, at most 255 printable characters, a timestamp no later than five minutes from now |
| Validator.RejectedUnread | internal/validator/validator.go:37-49 | too large exactly over 10240 bytes, empty exactly without bytes, malformed exactly when it does not decode |
| Validator.ValidStaysValid | internal/validator/validator.go:37-91 | once valid, valid with the same event at every later time |
| Validator.RejectionIsFinalUnlessEarly | internal/validator/validator.go:72-91 | a rejected message is accepted later if and only if only its timestamp was too early and has come within five minutes by then |
| Producer.Publish | internal/producer/producer.go:46-116 | results are a prefix in correspondence with the events: all of them unless the context ended the loop, then up to the first iteration in which it did, whose result says so; the broker is called exactly for the events that marshal and pass validation at their check, once each and in order |
| Producer.PublishWithinRate | internal/producer/producer.go:49-76 | event i is never sent before i periods after the ticker's start, and at most 1 + t / period sends happen by time t, for all delays |
| Producer.NoDelayNoWait | internal/producer/producer.go:49-76 | without delays iteration i is entered exactly at tick i |
| Producer.SentBytesValidate | internal/producer/producer.go:78-102 | bytes the producer sent pass the consumer's validation with the same event at every later time |
| Generate.GeneratedIsValid | internal/producer/producer.go:118-140 | a generated event satisfies every rule if and only if the arguments given do |
| Generate.DefaultsFillIn | internal/producer/producer.go:118-140 | what was given is kept; an empty id, status or currency and an amount that is not positive become a new id, confirmed, BRL and 100 |
| Generate.GenerateBulkEvents | internal/producer/producer.go:142-154 | event i has the i-th id, status, currency, ten times i + 1, and the numbered description; every event of every bulk satisfies the rules, now and later |
| Dlq.BuildEnvelope | internal/dlq/producer.go:37-64 | key and value as they were, then the non-nil headers in order, then the new ones |
| Dlq.PresentKeepsAll | internal/dlq/producer.go:51-56 | headers none of which is nil are all kept, in their places |
| Dlq.PresentSkipsNil | internal/dlq/producer.go:51-56 | a nil header makes no difference, wherever it stands |
| Dlq.EnvelopeRoundTrips | internal/dlq/producer.go:37-57 | the last headers of their names give back topic, partition and offset exactly, also for a dead letter of a dead letter |
| Dlq.ReasonIsReadBack | internal/dlq/producer.go:37-49 | the error, the time and the trace are read back from the last headers of their names |
| Dlq.SendWithContext | internal/dlq/producer.go:70-90 | nil exactly when the send finished well and the context did not win, and then the broker took exactly this message once; an error leaves it taken once or not at all; on cancellation the one send may also still happen |
| Dlq.Publish | internal/dlq/producer.go:30-67 | at most one letter, and after nil the letter at the broker recovers the source coordinates |
| Decimal.FormatParses | internal/dlq/producer.go:39-40 | decimal headers parse back to the number, over all integers |
| Decimal.FormatIsDecimal | internal/dlq/producer.go:39-40 | the last digit is the remainder by ten, the rest the quotient's, and the minus sign comes first |

## Left out

- Several consumer processes at once: all claims share one Handler, so a crash ends all of them; the semaphore is per process in the source.
- Kafka rebalancing, commit timing and partition hashing: any message of a partition may be delivered to its claim at any time, which covers every redelivery.
- Requests that reach a server after their caller has given up: a request runs at the moment of the call or not at all, except the dead-letter send in `Dlq`.
- Per-call timeouts (5 s, 10 s): a timed-out call is one whose answer is lost.
- Stored.NilMeansStored: an expired status entry stays in the modelled map with its expiry time; what a reader sees after that time is not modelled.
- Loss.RedeliveryLosesExactlyWhen: a row under the event's key counts as the message's row, as the conditional put takes it (internal/history/dynamodb.go:50-66), even if an event of the same id and time with other fields wrote it; a status without a row does not.
- Healthy.ConsumeClaimRefines: for at least one attempt and runs that do not outlast a mark; with no attempts allowed every first event goes to the dead letters, which `Retry.Do` and the safety theorems cover.
- Dead letters as delivered: every letter has its call, but a call's attempt can be lost, as `Loss.FailedMessageIsPassedOver` shows.
- Floating point: amounts and jitter are reals; math.Pow is exact up to 3^33, far beyond the overflow bound.
- Retry exponents beyond the int64 range (more than 39 attempts), where Go's float conversion is implementation-defined.
- Negative times to live and a negative worker count or buffer size, which the libraries reject.
- Case mapping of non-ASCII letters in the currency rule, and byte-level UTF-8: strings are sequences of characters.
- Producer.Publish: a rate above 10^9 per second makes NewTicker panic, so it is a precondition.
- Dispatch of payloads that are not valid JSON: the loop logs and skips them.
- Direct publication on the bus by the UI, the listing, metrics and proxy handlers, configuration, telemetry, table creation and the static pages: plumbing or single folds.
- error_count in the envelope: a constant in the source, about which nothing is claimed.
