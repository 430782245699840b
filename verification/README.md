# LogMorph, verified

LogMorph is a log pipeline. An ingestion service appends raw events to a Redis stream; workers read
the stream through one consumer group, archive each raw event, parse it, normalize it, validate it
against a JSON schema, and acknowledge it. This project models the parts of that pipeline whose
correctness depends on how several operations interact, and proves what they guarantee.

`dafny verify dfyconfig.toml` verifies everything with Dafny 4.11.

## How the project is laid out

- **Delivery protocol.** `Delivery` is a step system. Its shared state is the stream with its
  delivery cursor, the pending list, the acknowledged set, processing locks and done markers with
  expiry, the raw store's contents and the clock. Each attempt has a program point, and every store call of
  `processSingleMessageIdempotent` is one atomic step with its own outcome: success, failure without
  effect, or failure whose effect took place. Attempts of any number of workers interleave freely and
  may crash at any point. `AckSafety`, `Archive`, `Exclusion`, `Races`, `Faults`, `Reexecution`,
  `Recovery`, `Refusals`, `Progress` and `Promptness` prove properties of all runs; several of them also
  construct the runs in which a guarantee fails or a bound is attained.
- **One worker.** `Worker` holds the code path of one message as a method on shared stores: what it
  makes of each store, and the one run of the protocol that makes the same of them. `Batch` shows that every interleaving of a batch ends where the
  one-at-a-time loop ends. `Pool` is the semaphore, wait group and launching loop, and `Executor` joins
  it to the store calls that the goroutines make.
- **Stores.** `Idempotency`, `Buffer`, `RawStore` and `Ingestion` are the classes the workers and
  the ingestion service share, with what they do to their state.
- **Formats.** `Syslog`, `Csv` and `JsonParser` are the three parsers, each as imperative methods
  proved against a function, over the string functions in `Text`; `SyslogLines` reads whole lines.
  `Convergence` compares the three.
  `Normalizer` and `Validation` (the schema as data, with an interpreter) complete the path, and
  `Pipeline` puts the parts together.

Times are natural numbers of milliseconds. A Redis key is readable up to and including its expiry
instant. `P` bounds the time from a live attempt's claim to its MarkDone or release, and `G` the time
from its IsDone check to its claim; a crashed attempt is not bounded.

## What holds, and what does not

Several guarantees hold under a condition only. "Exactly if" below means that an if-and-only-if is
proved. For a condition on the configuration, its failing direction is a run built for every
configuration that violates it; the other conditions are on the run, the calls or the record itself.

- At most one live attempt per event works between claim and MarkDone or release, exactly if
  `P <= lockTTL`. The code goes on after a failed claim, and one such failure is enough to lose this.
- Completions of one event are more than `doneTTL` apart, exactly if
  `P + min(G, doneTTL) <= lockTTL`. With the defaults that means two minutes for work and gap together.
- The failing runs for these two use a reclaim, or with crash recovery disabled an event published
  twice. With crash recovery disabled and distinct event IDs every event has a single attempt.
- The second guarantee also needs IsDone to reply and MarkDone to take effect. In spite of one failed
  IsDone, or of one lost MarkDone, it holds exactly if `P + doneTTL <= lockTTL`; under that condition
  any number of such faults is harmless.
- The comment on the memory idempotency store (internal/buffer/idempotency.go:95) says that it
  mirrors the Redis semantics. It does exactly for the sequences of calls in which nobody claims an
  event that was completed under a lock; its MarkDone drops the lock and Redis keeps it. Two complete
  executions of one event without crash, error or delay are therefore possible on the memory store.
- With the Redis store and distinct event IDs, from every reachable state an entry can still be
  acknowledged exactly if it decodes, the pipeline accepts its event, and either crash recovery is on or
  the entry is undelivered, being worked on, or acknowledged. On the memory store, as long as claims
  reply, exactly if in addition it is acknowledged or its event is not stuck: locked, not done, and
  held by nobody. A crash between claim and MarkDone leaves an event stuck.
- Once no call fails and nobody crashes any more, and everybody is prompt, an accepted entry is
  acknowledged within `lockTTL + claimIdle` plus the allowed delays, whatever the failures left behind.
- One lock refuses at most `lockTTL / claimIdle + 1` attempts on an entry (integer division) beyond those
  begun before it was taken that had yet to claim then, and for every configuration and number of the
  latter a run attains this. With the rounded-up quotient in place of `lockTTL / claimIdle + 1` the
  bound holds in every run exactly if `claimIdle` does not divide `lockTTL`, and in any run whose
  holder claimed within `claimIdle` of the entry's delivery.
- A `break` in the select of `processMessages` (internal/worker/worker.go:329) leaves only the
  select. A goroutine can then run without a token; its receive blocks forever, and so does the call.
- The raw store is described as immutable and the event as archived before parsing; the code only
  logs a failed Put. With distinct event IDs, an acknowledged event is in the raw store as published
  exactly if it has an ID and one of its own Puts took effect, whatever happened to other events.
  Without distinct IDs, an entry is stored as published exactly if the last Put for its ID carried an
  equal event. Three runs acknowledge an event that is not stored: with its Put lost, with an empty
  ID, and with the ID of an earlier event.
- The three formats agree on a record exactly if its verb is deny or allow: syslog folds the synonyms
  drop, block, accept and permit, JSON folds none but rates block and drop as severe, CSV does neither.
- A port beyond 65535 passes every parser. The normalized event then fails the schema, and is
  acknowledged nevertheless, because validation does not gate completion.

## Model

| member | source | states |
|---|---|---|
| AckSafety.WellFormedStep | internal/buffer/redis.go:97-204 | every step of every attempt, in any state, keeps undelivered, pending and acknowledged entries a partition, and attempts tied to the entry they were begun for |
| AckSafety.Conservation | internal/buffer/redis.go:113-204 | in every run each appended entry is at every moment exactly one of undelivered, pending or acknowledged |
| AckSafety.PendingUntilAcked | internal/worker/worker.go:382-404 | an entry leaves the pending list only through an XACK by an attempt on that very entry, so failed, refused and crashed messages stay pending |
| AckSafety.AckedIsAbsorbing | internal/buffer/redis.go:196-204 | an acknowledged entry stays acknowledged and never becomes pending again |
| AckSafety.MalformedStaysPending | internal/buffer/redis.go:213-223 | an entry that cannot be decoded gets no attempt and, once delivered, is pending forever |
| AckSafety.AckOnlyAfterSuccess | internal/worker/worker.go:392-414 | in every run, with any errors, expiries, crashes and claims in degraded mode, an acknowledged message's event has had a pipeline run that returned without error |
| AckSafety.DoneOnlyAfterSuccess | internal/worker/worker.go:406-412 | the same for done markers |
| AckSafety.RejectedNeverCompletes | internal/worker/worker.go:184-194 | with distinct IDs, an event the pipeline rejects is never acknowledged and never marked done, in any run |
| Archive.StoredExactly | internal/storage/raw/store.go:31-42 | in every run an ID is in the raw store if and only if it is not empty and some Put for it took effect |
| Archive.StoredIsLastPut | internal/storage/raw/store.go:38-40 | what is stored under an ID is the event of the last Put for it that took effect |
| Archive.StoredAsPublishedExactly | internal/worker/worker.go:164-170 | event IDs distinct or not, an entry is stored as published if and only if it has an ID and the last Put for that ID carried an equal event |
| Archive.ArchivedExactly | internal/worker/worker.go:164-170 | with distinct IDs, an entry is stored as published if and only if it has an ID and any Put for it took effect |
| Archive.StoredStays | internal/storage/raw/store.go:31-42 | with distinct IDs a stored value never changes, by retries or otherwise |
| Archive.AckedIsArchivedExactly | internal/worker/worker.go:164-170 | with distinct IDs, an acknowledged event is stored as published, then and at every later moment, if and only if it has an ID and one of its own Puts took effect; its own Puts all taking effect is enough, whatever becomes of other events |
| Archive.LostPutIsAcked | internal/worker/worker.go:166-170 | if the only Put is lost, or the event has no ID, a run acknowledges the event and marks it done with an empty raw store |
| Archive.DuplicateIdIsAckedUnstored | internal/worker/worker.go:365-373 | for any two different events under one ID, a run without error, crash or lost call acknowledges both and stores only the first |
| Exclusion.MutualExclusion | internal/worker/worker.go:376-401 | at most one live attempt per event holds it at any moment: without timing for the memory store, and for Redis if work is bounded by lockTTL |
| Exclusion.ReleasesOwnLock | internal/buffer/idempotency.go:73-75 | although DEL names no owner, a release deletes only the live lock its own attempt set |
| Exclusion.MarkerPersists | internal/buffer/idempotency.go:79-81 | a done marker outlives the completion that set it by doneTTL, whatever later completions do |
| Exclusion.AtMostOneCompletion | internal/worker/worker.go:359-415 | completions of one event are more than doneTTL apart in every run within the bounds, over any workers, reclaims and crashes |
| Races.OverlapRun | internal/worker/worker.go:376-388 | beyond lockTTL there is a crash-free, error-free run with two attempts holding one event |
| Races.FailedClaimOverlaps | internal/worker/worker.go:377-381 | a single failed claim breaks mutual exclusion at zero delay |
| Races.MutualExclusionExactly | internal/worker/worker.go:359-415 | mutual exclusion in all runs within the bounds, if and only if P is at most lockTTL |
| Races.TwoCompletionsRun | internal/worker/worker.go:365-376 | for every pair of completion times the bounds allow once the lock can expire between check and claim, a run completes one event at both |
| Races.AtMostOneCompletionExactly | internal/worker/worker.go:359-415 | completions more than doneTTL apart in all runs within the bounds, if and only if P + min(G, doneTTL) is at most lockTTL |
| Races.OneAttemptWithoutRecovery | internal/worker/worker.go:154-156 | with crash recovery disabled and distinct IDs, no two attempts ever share an event, whatever fails |
| Races.MemoryStoreCompletesTwice | internal/buffer/idempotency.go:132-138 | on the memory store a run completes one event twice at one instant, without crash, error or loss of mutual exclusion |
| Faults.LockKeepsApart | internal/worker/worker.go:365-414 | as long as claims reply, two completions of one event are at least lockTTL - P + 1 apart, whatever IsDone and MarkDone reply or lose |
| Faults.LocksAloneKeepApart | internal/worker/worker.go:365-414 | so they are more than doneTTL apart if P + doneTTL is at most lockTTL, with any number of failed IsDone calls and lost MarkDones |
| Faults.OneFaultCompletesTwice | internal/worker/worker.go:366-368 | one failed IsDone, or one lost MarkDone, and nothing else wrong: a run completes an event as soon as its first lock has expired |
| Faults.OneFaultExactly | internal/worker/worker.go:406-412 | in spite of either fault, completions are more than doneTTL apart in all runs within the bounds, if and only if P + doneTTL is at most lockTTL |
| Reexecution.WindowBalances | internal/worker/worker.go:376-412 | over any span of a run, pipelines started and in flight before equal those completed, failed, crashed and in flight after |
| Reexecution.WindowCompletesOnce | internal/worker/worker.go:406-412 | within one doneTTL an event completes at most once |
| Reexecution.BoundedReexecution | internal/worker/worker.go:359-415 | within one doneTTL an event's pipeline starts at most once more than it failed or crashed |
| Reexecution.NoStartWhileDone | internal/worker/worker.go:363-389 | no pipeline starts for an event whose done marker is live |
| Reexecution.CompletedIsOnlyAcked | internal/worker/worker.go:363-422 | for doneTTL after a completion, in every run within the bounds, no attempt of that event starts or runs a pipeline, and each that checks goes straight to its acknowledgement |
| Reexecution.DoneEventIsOnlyAcked | internal/worker/worker.go:369-373 | a completed event whose acknowledgement failed is acknowledged on redelivery and nothing else changes |
| Recovery.ReclaimsAreSpaced | internal/buffer/redis.go:167-174 | n reclaims of an entry take n times claimIdle from its last delivery |
| Recovery.LockSetter | internal/buffer/idempotency.go:67-69 | every lock goes back to the last claim that set it and carries that claim's expiry |
| Recovery.RefusedOnlyWithinLockTTL | internal/worker/worker.go:376-388 | a lock refuses nobody once lockTTL has passed since it was set |
| Recovery.ClaimAfterExpiryStarts | internal/worker/worker.go:376-389 | the first claim after a lock's expiry wins if nobody has claimed since |
| Recovery.ReclaimBound | internal/worker/worker.go:275-285 | while one lock stands an entry is reclaimed at most lockTTL/claimIdle + 1 times, and at most the rounded-up quotient if the holder claimed within claimIdle of the delivery |
| Refusals.RefusalsAccount | internal/worker/worker.go:376-388 | over any span of a run, refusals on an entry plus attempts left that have yet to claim are at most those at the outset plus the reclaims |
| Refusals.RefusalBound | internal/worker/worker.go:376-388 | one lock refuses at most lockTTL/claimIdle + 1 attempts on an entry beyond those that had yet to claim when it was taken, and at most the rounded-up quotient beyond them if the holder claimed within claimIdle of the delivery |
| Refusals.RefusalBoundIsAttained | internal/worker/worker.go:148-156 | for every lockTTL, claimIdle and number of attempts that had yet to claim, a run in which the lock refuses exactly that many attempts |
| Refusals.CeilBoundExactly | internal/worker/worker.go:148-156 | the rounded-up quotient, beyond the attempts that had yet to claim, bounds the refusals of one lock in all runs, if and only if claimIdle does not divide lockTTL |
| Batch.ProcessInOrder | internal/worker/worker.go:309-317 | the sequential loop runs the messages before the cancellation, one after the other |
| Batch.RunEachInOrder | internal/worker/worker.go:310-315 | running one list of messages after another is running their concatenation, so messages run in the order listed |
| Batch.BatchInvAct | internal/worker/worker.go:359-415 | a call of one attempt keeps every attempt of a batch on the way its own store entries prescribe, and touches no entry outside the batch |
| Batch.ParallelRefinesSequential | internal/worker/worker.go:304-344 | for distinct IDs, without errors and expiry, every complete interleaving of a batch ends with the acknowledgements, pending list, markers, locks and archive of the sequential loop |
| Batch.OutcomeOfBatch | internal/worker/worker.go:359-415 | what each attempt of a batch leaves behind follows from the state the batch started in |
| Executor.ReturnedIsSequential | internal/worker/worker.go:304-344 | when the parallel call returns, after any interleaving of loop, goroutines, store calls and cancellation, the stores are those of the sequential loop cancelled before the first message not launched; without cancellation, of the whole loop |
| Executor.RestHasReturned | internal/worker/worker.go:319-343 | a parallel call that is not cancelled has nothing left to do only when it has returned with every message launched |
| Executor.CallReturns | internal/worker/worker.go:319-343 | every batch has, for every concurrency, an uncancelled parallel call that returns |
| Pool.AccountedRun | internal/worker/worker.go:319-341 | in every schedule unfinished goroutines equal tokens plus launches without a token, of which there is at most one |
| Pool.BoundedConcurrency | internal/worker/worker.go:319-341 | at most concurrency messages run at once, or one more after a cancelled select |
| Pool.SchedulesAreFinite | internal/worker/worker.go:322-343 | no schedule of a batch takes more than 6n + 3 steps |
| Pool.ExtraIsSelected | internal/worker/worker.go:327-341 | a goroutine is launched without a token if and only if a select took the cancelled branch |
| Pool.ReturnsExactlyWithoutCancelledSelect | internal/worker/worker.go:327-343 | a schedule at rest has returned if and only if no select took the cancelled branch; otherwise one goroutine waits on the empty channel forever |
| Pool.CancellationCanHang | internal/worker/worker.go:327-331 | for every batch and concurrency a schedule hangs that way |
| Worker.DefaultsCompleteOnce | internal/worker/worker.go:123-156 | with default TTLs, completions are more than a day apart in all runs within the bounds, if and only if P + G is at most two minutes |
| Worker.ProcessSingleMessageIdempotent | internal/worker/worker.go:359-415 | run undisturbed, for every combination of failed and lost calls, what becomes of pending list, acknowledgements, lock, marker and archive, read off the stores before |
| Worker.AcknowledgedExactly | internal/worker/worker.go:363-414 | the message is acknowledged if and only if it is pending, the XACK takes effect, and its event is known to be done, or gets past the claim and is accepted |
| Worker.HandledIsSolo | internal/worker/worker.go:359-415 | a run of the protocol in which a fresh attempt makes exactly these calls and returns leaves exactly these stores |
| Worker.SoloRunIsUnique | internal/worker/worker.go:359-415 | there is only one such run |
| Worker.AloneIsSolo | internal/worker/worker.go:309-317 | with every call succeeding it ends where the sequential loop leaves the message |
| Worker.AckMessage | internal/worker/worker.go:418-422 | a pending message is acknowledged if the XACK takes effect, and nothing else changes; a failure is swallowed |
| Worker.SettingsReachConfig | internal/worker/worker.go:123-156 | a positive lock TTL, done TTL or claim idle time reaches the configuration in its unit, any other gives the default |
| Worker.SizesArePositive | internal/worker/worker.go:129-134 | so for batch size and concurrency, which are never zero |
| Idempotency.MemoryIdempotencyStore.TryClaimProcessing | internal/buffer/idempotency.go:113-121 | reply and new contents of the memory store after a claim |
| Idempotency.MemoryIdempotencyStore.ReleaseProcessing | internal/buffer/idempotency.go:124-129 | a release removes that event's lock and nothing else |
| Idempotency.MemoryIdempotencyStore.MarkDone | internal/buffer/idempotency.go:132-138 | marking done adds the marker and drops the lock |
| Idempotency.MemoryIdempotencyStore.IsDone | internal/buffer/idempotency.go:141-145 | the answer is whether a marker is set |
| Idempotency.RedisIdempotencyStore.TryClaimProcessing | internal/buffer/idempotency.go:67-69 | SET NX with expiry: refused exactly when the protocol's lock is live, and the keys go on representing the protocol's state |
| Idempotency.RedisIdempotencyStore.ReleaseProcessing | internal/buffer/idempotency.go:73-75 | DEL of the lock key, whoever set it; the keys go on representing the protocol's state |
| Idempotency.RedisIdempotencyStore.MarkDone | internal/buffer/idempotency.go:79-81 | sets the marker key with expiry and leaves the lock key; the keys go on representing the protocol's state |
| Idempotency.RedisIdempotencyStore.IsDone | internal/buffer/idempotency.go:84-90 | EXISTS answers whether the protocol's done marker is live |
| Idempotency.KeysDoNotCollide | internal/buffer/idempotency.go:12-17 | no lock key of any event is the lock or marker key of another, whatever the IDs contain |
| Idempotency.MemoryMirrorsRedisExactly | internal/buffer/idempotency.go:97-145 | from equal contents both stores give the same replies to a sequence of calls, if and only if none of them claims an event completed under a lock not released since |
| Idempotency.RedisStepIsProtocolCall | internal/buffer/idempotency.go:67-90 | the replies and contents compared are those of the protocol's calls, for the Redis store while nothing has expired |
| Idempotency.MemoryStepIsProtocolCall | internal/buffer/idempotency.go:113-145 | and for the memory store, always |
| Buffer.RedisRawBuffer.EnsureGroup | internal/buffer/redis.go:97-110 | a new group starts after the last entry with nothing delivered, an existing one is left alone, and every error but BUSYGROUP is passed on |
| Buffer.RedisRawBuffer.PublishRaw | internal/buffer/redis.go:67-94 | the event is appended undelivered and nothing else changes; a failed XADD changes nothing and is passed on |
| Buffer.RedisRawBuffer.ReadGroup | internal/buffer/redis.go:113-148 | the next entries become pending now, malformed ones included, and the reply holds the decodable ones in order; without a group it fails |
| Buffer.RedisRawBuffer.ClaimPending | internal/buffer/redis.go:157-193 | the oldest sufficiently idle entries become pending anew, and the reply holds the decodable ones in order; without a group it fails |
| Buffer.TakenAreOldest | internal/buffer/redis.go:167-174 | only delivered, unacknowledged, sufficiently idle entries are taken, at most as many as asked for; if any is left out, exactly that many are taken and all of them are older |
| Buffer.RedisRawBuffer.Ack | internal/buffer/redis.go:196-204 | exactly a pending entry moves to the acknowledged ones |
| Buffer.BegunByReply | internal/buffer/redis.go:136-145 | the reply lists one message per attempt the protocol begins, in order |
| Buffer.ReadGroupIsDeliveries | internal/buffer/redis.go:121-145 | reading n entries is n delivery steps of the protocol, in pending list and attempts |
| Buffer.ClaimPendingIsReclaims | internal/buffer/redis.go:167-190 | each entry it takes is reclaimable in the protocol also after those before it, and all these reclaims together leave its pending list and begin the attempts of its reply |
| RawStore.MemoryRawStore.Put | internal/storage/raw/store.go:31-42 | stores a private copy, refuses nil and empty IDs, and keeps no reference to its argument |
| RawStore.MemoryRawStore.Get | internal/storage/raw/store.go:44-54 | a fresh object equal to what is stored, or none |
| RawStore.CallerKeepsMutating | internal/storage/raw/store.go:38-53 | overwriting the object passed in and the object handed out leaves the archive's contents as they were |
| Ingestion.IngestionService.Ingest | internal/ingestion/service.go:52-73 | success exactly for a payload that is published; then one entry is appended that holds the request's format, source and payload, the clock reading, and "evt_" with the UUID as its ID; else the stream is untouched |
| Ingestion.IngestionService.IngestBatch | internal/ingestion/service.go:78-109 | an invalid batch appends nothing; a valid one leaves the stream and gives the answer of single calls from left to right, each appended entry holding its request field by field |
| Ingestion.BatchIsSingles | internal/ingestion/service.go:89-108 | such calls append all events with their payloads and answer IDs aligned with the requests, or exactly the first k if the publication at index k is the first to fail |
| Text.AtoiOfItoa | internal/parsing/parsers/syslog.go:93-93 | decimal round trip over the whole range of a 64-bit int, and rejection above it |
| Text.AtoiOfNumeral | internal/parsing/parsers/syslog.go:93-93 | an optional sign and digits give their value, if it is in the range of a 64-bit int |
| Text.OnlyNumeralsAreNumbers | internal/parsing/parsers/syslog.go:93-93 | nothing else is a number |
| Text.TrimOf | internal/parsing/parsers/csv.go:52-53 | all space around a text is removed, and nothing else |
| Text.CaseMapping | internal/parsing/parsers/syslog.go:64-78 | case mapping moves ASCII letters by their place in the alphabet and leaves every other character alone |
| Syslog.MatchIsFound | internal/parsing/parsers/syslog.go:17-17 | the key-value scanner finds every match of the expression at a position, and there is at most one |
| Syslog.BodyRoundTrip | internal/parsing/parsers/syslog.go:53-62 | a body of KEY=value words and words without an equals sign, with any blanks between, yields exactly those pairs in order and exactly those tokens |
| Syslog.KvMapIsLastWins | internal/parsing/parsers/syslog.go:53-58 | a key is present exactly if some pair carries it in upper case, and the last such pair gives its value |
| Syslog.LastWordDecides | internal/parsing/parsers/syslog.go:60-72 | the last recognised action word and the last recognised protocol word decide |
| Syslog.UnrecognisedIsUnknown | internal/parsing/parsers/syslog.go:60-61 | without such words action and protocol are unknown |
| Syslog.OverridesWin | internal/parsing/parsers/syslog.go:74-79 | for every well-made body, the last ACTION or PROTO word overrides the other words, and only such a word does |
| Syslog.HeaderRoundTrip | internal/parsing/parsers/syslog.go:16-16 | a rendered header, with or without priority and with any blanks, scans back to its stamp, host and body |
| Syslog.HeaderExactly | internal/parsing/parsers/syslog.go:37-49 | a header is found exactly in the lines that are a rendering of well-formed pieces, and the pieces found are those |
| Syslog.BuildKvMap | internal/parsing/parsers/syslog.go:53-58 | the map-building loop computes the last-wins map |
| Syslog.ScanTokens | internal/parsing/parsers/syslog.go:60-72 | the token loop computes the verdict of all tokens |
| Syslog.FillNetwork | internal/parsing/parsers/syslog.go:81-109 | the field updates give each endpoint its address, and its port from a numeral in SPT or DPT before the address |
| Syslog.Parse | internal/parsing/parsers/syslog.go:31-137 | the parser method computes the function the round trips are about |
| SyslogLines.LineParses | internal/parsing/parsers/syslog.go:31-137 | for every line of well-made words, with a header or without one, every field of the event is read off the line: last words win, SPT and DPT win over addresses, and without a header the whole text is the body and the source the host |
| SyslogLines.NumberedPortWins | internal/parsing/parsers/syslog.go:92-107 | a numeral in the last SPT or DPT word is the port, whatever SRC and DST hold |
| SyslogLines.FailsExactlyOnBlank | internal/parsing/parsers/syslog.go:32-35 | the parser fails on blank payloads and on no others |
| SyslogLines.PlainAddress | internal/parsing/parsers/syslog.go:139-149 | without a colon, or with several outside brackets, the whole text is the address |
| SyslogLines.BracketedAddress | internal/parsing/parsers/syslog.go:139-149 | a bracketed host may hold colons and splits from its port |
| Csv.BuildColMap | internal/parsing/parsers/csv.go:50-54 | the overwriting loop computes the column map |
| Csv.RightmostColumnWins | internal/parsing/parsers/csv.go:50-54 | a name is a key exactly if some column carries it, and the right-most such column gives its cell |
| Csv.ColumnOrderIsIrrelevant | internal/parsing/parsers/csv.go:50-133 | for columns distinct after trimming and lower-casing, every permutation of header and row together leaves the parsed event unchanged |
| Csv.Parse | internal/parsing/parsers/csv.go:26-134 | the parser method computes the function the two lemmas are about |
| Csv.GivenCellsWin | internal/parsing/parsers/csv.go:56-97 | every text field of the event is what the right-most column of its name holds, or its default if that is empty or missing |
| Csv.GivenPortsAndUserWin | internal/parsing/parsers/csv.go:99-116 | numerals become ports and everything else none; a given username is kept and an empty one is null |
| Csv.FailsExactly | internal/parsing/parsers/csv.go:27-48 | the parser fails on blank or unreadable payloads, without a data row, and on a row of another length, and never else |
| JsonParser.Classify | internal/parsing/parsers/json.go:89-123 | the cascade picks action, category and severity by a fixed order of precedence |
| JsonParser.Route | internal/parsing/parsers/json.go:149-217 | the cascade picks each address and port from the most specific field that holds one |
| JsonParser.Parse | internal/parsing/parsers/json.go:73-244 | all overrides in the order of the code pick what the precedence picks |
| JsonParser.GivenUserIsKept | internal/parsing/parsers/json.go:219-226 | a given user object comes out unchanged, a missing one as a null username; a given time stamp is kept |
| JsonParser.GivenSourceWins | internal/parsing/parsers/json.go:125-146 | each given field of the source object is taken, the others have their defaults |
| JsonParser.GivenEventWins | internal/parsing/parsers/json.go:89-123 | top-level category, action and severity win over the firewall object's, and a severity is derived only if none is given |
| JsonParser.GivenNetworkWins | internal/parsing/parsers/json.go:148-209 | for addresses and ports the nested endpoint wins over the network object, that over the top level, and a short name over its alias |
| JsonParser.GivenProtocolWins | internal/parsing/parsers/json.go:176-179 | the network object's protocol wins over the top level's, and that over the firewall object's |
| JsonParser.PortOf | internal/parsing/parsers/json.go:246-268 | numbers become ports by dropping their fraction, texts if they are numerals once trimmed |
| JsonParser.FailsExactly | internal/parsing/parsers/json.go:74-82 | the parser fails on blank payloads and on those that do not decode, and never else |
| Convergence.AddressRoundTrip | internal/parsing/parsers/syslog.go:139-149 | an address of digits and dots with any port of a 64-bit int splits back into both |
| Convergence.SyslogParses | internal/parsing/parsers/syslog.go:31-137 | every record, rendered with any header and any blanks, parses to its network, its folded action and severity, and no user |
| Convergence.CsvParses | internal/parsing/parsers/csv.go:43-133 | every table for the record, with columns in any order and case and others beside them, parses to its network and its own verb |
| Convergence.JsonParses | internal/parsing/parsers/json.go:84-243 | a flat, aliased or nested JSON record, with ports as numbers or numerals, parses to its network and its own verb |
| Convergence.PlainTable | internal/parsing/parsers/csv.go:43-109 | every record has a table the previous statements apply to |
| Convergence.FormatsConvergeExactly | tests/pipeline_test.go:188-219 | the three formats always agree on network and user, and on action, category and severity if and only if the verb is deny or allow |
| Normalizer.NormalizeFillsGaps | internal/normalization/normalizer.go:21-64 | identifier, time and format are the first non-empty candidates, and everything parsed and the payload pass through untouched |
| Validation.AdditionalMembersAreIgnored | internal/validation/universal_event.schema.json:83-83 | for every object schema without an enumeration, a member it neither describes nor requires never changes the verdict |
| Validation.EncodingRoundTrip | internal/models/event.go:54-99 | leaving out empty members loses nothing: every event reads back from its encoding |
| Validation.DocumentMembersAre | internal/models/event.go:89-99 | which member of the document holds which part of the event, and when it is left out |
| Validation.SourceMembersAre | internal/models/event.go:39-44 | the same for the source |
| Validation.EventMembersAre | internal/models/event.go:47-51 | the same for the event |
| Validation.NetworkMembersAre | internal/models/event.go:54-60 | the same for the network |
| Validation.SmallMembersAre | internal/models/event.go:63-77 | the same for user, raw and metadata |
| Validation.SchemaExactly | internal/validation/universal_event.schema.json:6-83 | which documents the schema accepts, wherever they come from |
| Validation.ValidExactly | internal/validation/universal_event.schema.json:6-81 | the encoding of any event is valid if and only if it has an ID, version 1.0, and each port absent or in 0..65535 |
| Validation.NormalizedIsValidExactly | internal/normalization/normalizer.go:21-64 | a normalized event is valid if and only if each port is absent or in 0..65535 |
| Pipeline.CanonicalFormsConverge | tests/pipeline_test.go:188-219 | after normalization the three formats say the same exactly for deny and allow, and all three or none pass the schema, by the port numbers alone |
| Progress.GoOnAlone | internal/worker/worker.go:359-415 | from every state any attempt can be run to its end undisturbed |
| Progress.AcceptedCanBeAcked | internal/worker/worker.go:275-285 | with Redis, from every reachable state every accepted entry that can be reclaimed, is undelivered or is being worked on has a continuation without failures that acknowledges it, IDs distinct or not |
| Progress.UnattendedForever | internal/worker/worker.go:154-156 | with crash recovery disabled, a delivered entry that nobody works on stays unacknowledged in every continuation |
| Progress.CanBeAckedExactly | internal/worker/worker.go:359-415 | with Redis and distinct IDs, from every reachable state, after any crashes, lost calls and locks left behind, an entry can still be acknowledged if and only if it decodes, is accepted, and can be reclaimed, is undelivered, being worked on, or acknowledged |
| Progress.AckableExactly | internal/worker/worker.go:392-414 | with any store, a lone event in a fresh system can be acknowledged if and only if the pipeline accepts it |
| Progress.StuckForever | internal/buffer/idempotency.go:113-121 | on the memory store, once an event is locked, not done and nobody holds it, no continuation in which claims reply acknowledges it |
| Progress.MemoryCanBeAckedExactly | internal/buffer/idempotency.go:97-145 | with the memory store and distinct IDs, from every reachable state, an entry can still be acknowledged while claims reply if and only if it could with Redis and is acknowledged already or its event is not stuck |
| Progress.CrashIsFinalInMemory | internal/buffer/idempotency.go:97-138 | after a crash following the claim, Redis can still acknowledge the event and the memory store never does while claims reply |
| Promptness.PromptlyAcknowledged | internal/worker/worker.go:275-285 | in every run in which from some moment nothing fails and nobody is late, an accepted entry is acknowledged within lockTTL + claimIdle + slack + 3 stages of that moment, whatever happened before |
| Pipeline.InvalidEventIsAcked | internal/worker/worker.go:196-234 | a syslog record with a port beyond 65535 parses, fails the schema, and is acknowledged in some run |
| Ingestion.HistoryIsIssued | internal/ingestion/service.go:52-109 | after any history of single and batch calls, successful or not, the stream holds exactly the published requests in order, each field by field |
| Ingestion.FreshIdsAreDistinct | internal/ingestion/service.go:90-98 | UUIDs distinct over all calls give every published event an ID of its own |
| Pipeline.IngestedPayloadIsStored | internal/ingestion/service.go:75-77 | whatever calls built the stream, in every run the raw store holds an acknowledged event, with its request's exact payload, if and only if a Put for it took effect |

## Left out

- Stream trimming: the stream is unbounded, as with a maximum length of zero; with approximate trimming an undelivered entry can vanish, and conservation is not claimed.
- Entries older than the consumer group: `Buffer` keeps them apart, and the protocol starts with the group created before the first entry.
- Detection, drift analysis, the parser registry and the engine: one deterministic outcome of payload and format hint, the field `parses` of a configuration.
- The main loop's order and timers: deliveries and reclaims are enabled whenever Redis allows them, so every schedule of the loop is covered; that the loop eventually makes a step is not stated.
- A worker that stays alive but stalls is covered as an attempt that takes no step. Acknowledgement in bounded time is proved from promptness bounds on a run; fairness without bounds is not.
- The limit of ten times COUNT entries that XAUTOCLAIM examines per call, entries it drops because they were deleted, and a COUNT of zero, which NewWorker excludes.
- Worker.ProcessSingleMessageIdempotent: covers a message that is not interfered with and a worker that does not crash midway, because a method cannot be preempted; interleavings and crashes are covered by the step system.
- Ingestion.IngestionService.IngestBatch: a failed XADD is taken to have appended nothing; the case of a lost reply is not distinguished.
- Network failures of XREADGROUP, XAUTOCLAIM and XGROUP CREATE whose effect took place: in the protocol such a delivery is one whose attempts crash at once.
- One set of stores for every mode: `Worker.Stores` stands for a deployment with any of the three store modes and lost replies; the store classes in `Idempotency`, `Buffer` and `RawStore` are each tied to the protocol on their own.
- The HTTP handler, the two main programs, signal handling, environment variables and logging.
- A worker without a raw store: its archive step is one that fails without effect.
- The MinIO archive: its Put is the archive step of the protocol, with the same outcomes.
- JSON decoding, the CSV reader and the schema library: parsing starts from the decoded record and the record list, and validation from a JSON value.
- Numbers that are not exact as 64-bit floats, and the conversion of floats beyond the range of int, which Go leaves to the implementation.
- Time stamp parsing: the parse function takes the conversion of the stamp as a parameter, and clocks and UUIDs are parameters throughout.
- Case mapping beyond ASCII, including the two non-ASCII letters that the case-insensitive key expression also matches, and replacement of invalid UTF-8 by the encoder.
- Validation errors as lists: the verdict is modelled, the messages are not.
- Mutexes of the memory stores: each method is one atomic step.
- Idempotency.MemoryMirrorsRedisExactly: compares with a Redis store whose keys do not expire, because the memory store ignores TTLs.
