# Kerdoos, verified

A Dafny model of the parts of Kerdoos whose correctness depends on whole runs: digest delivery,
the run queue, the browser gate and the fetch race, the login limiter, the multi-tenant
configuration store, and the price and timestamp texts. `dafny verify dfyconfig.toml` checks it all.

| file | models |
|---|---|
| Wrappers.dfy | optional values, and how a store call can fail |
| Timestamps.dfy | the text order of ISO timestamps, on which every SQL time comparison rests |
| Scheduler.dfy | the window of a job: the last cron occurrence not after the tick |
| Jobs.dfy | a digest job as the evaluator lists it |
| Price.dfy | printing cents as pt-BR text and reading them back through binary floats |
| Smtp.dfy | one `send()` call: classifiers, transaction, retry loop, derived settings |
| JobRuns.dfy | the `job_runs` table and its operations |
| Delivery.dfy | evaluators as a transition system: at most one dispatch and one email per window |
| Lifecycle.dfy | the life of a row under one evaluator, and the reaper |
| SendExecutor.dfy | the rotating send pool |
| PlanB.dfy | a tick, Plan B in it and the evaluator loop as code, each returning its Delivery trace |
| PlanA.dfy | scrape deduplication and the freshness of what a digest collects |
| EmptyDigestWarnings.dfy | the rate limit on "nothing to report" warnings |
| LoginLimiter.dfy | the login rate limiter with its read-only fast path |
| ConfigStore.dfy | the configuration store: owner scoping, cascades, constraints |
| RunQueue.dfy | the coalescing run queue with its supervised consumer |
| BrowserGate.dfy | semaphore and shared slot locks of the browser gate |
| FetchClaim.dfy | the driving thread against the deadline, in both browser tiers |

How it is modelled. A table is a map on its primary key and a transaction is one step. Objects that
the program updates in place are classes, and each of their methods is proved equal to a function on
the abstract state; the lemmas are about those functions. Protocols that interleave (evaluators,
processes, threads) are transition systems, and a theorem about one speaks of every run. Clocks,
relays, thread scheduling and failing store calls are parameters, so a theorem holds for all of them.

Where the code and its comments disagree, the code is followed:

- The start-up warning about a thin retry budget says that the retry loop never retries then. It does,
  after a first attempt that fails fast (`Smtp.WarningDoesNotDisableRetry`). Nor does its absence mean
  that a fast failure is retried: its threshold leaves out the backoff, and a backoff cut down to what
  the budget leaves is slept in vain (`Smtp.DefaultsMissARetry`). `Smtp.RetryThresholds` has the exact
  thresholds of all three; the warning decides the first of the loop's two budget checks and no more
  (`Smtp.WarningDecidesFirstCheck`).
- `evaluate_tick` is documented never to raise, so that one bad job cannot stop the others. Plan A reads
  every listed cron text outside of any handler, and the store accepts any text of five fields: one
  owner's unreadable text makes every tick raise after the sweep, and no job of any owner is notified
  (`PlanB.OneCronTextStopsEveryOwner`). Indexing the registries is unguarded too. `PlanB.EvaluateTick`
  says exactly when a tick completes, and the loop survives the ticks that do not.
- `reap_stale_job_run` is documented to return whether a row was reaped. It returns whether exactly one
  was (`JobRuns.TwoStaleRowsReapedUnreported`); `JobRuns.ReapAnswerIff` says exactly when the two agree,
  and with one row in flight per job they do (`JobRuns.OneStaleAtMost`).
- The browser gate guards its permit against slot failures while acquiring, but not while releasing: when
  unlocking or closing the slot file raises, the permit is gone (`BrowserGate.AllPermitsBackIff`).
- The row cap of the limiter is not kept when it is below one (`LoginLimiter.CapExceededIff`). The
  settings reject such a cap (`packages/kerdoos/src/kerdoos/config.py:668-670`), so only a store built
  directly can have one.
- The empty-digest warning is documented as once per window. A window longer than two days is reported
  again (`EmptyDigestWarnings.WarnsAgainIffLongWindow`).
- The read-only path of the limiter is invisible only while clock readings do not fall from one
  transaction to the next (`LoginLimiter.SameAnswersIffClockNeverFalls`). Concurrent logins each read
  the clock before their transaction (`packages/kerdoos/src/kerdoos/core/app/auth.py:136-140`), so nothing
  orders their readings.
- A send is meant to find no unfinished one on the current pool. When a submission raises after
  queueing its work item, the item stays there and can run later, while its row says error
  (`SendExecutor.RotatingSendExecutor.Submit`); it is still the only send of its window.
- The store does not isolate owners from a job id that another owner already has;
  `ConfigStore.JobIdCollision` says exactly when a creation is answered from the owner's own rows. The
  application draws ids at random (`packages/kerdoos/src/kerdoos/core/app/services.py:369`), so only a caller
  of the store itself can meet this.

## Model

| member | source | states |
|---|---|---|
| Timestamps.TextOrderIsTimeOrder | packages/kerdoos/src/kerdoos/persistence/sqlite_store.py:345-351 | comparing two UTC `isoformat()` texts, with or without microseconds, is comparing the instants on the Gregorian calendar, so `fired_at < ?` means earlier |
| Timestamps.IsoFormatIsInjective | packages/kerdoos/src/kerdoos/core/scheduler.py:55-56 | equal texts, equal datetimes and equal instants coincide, so a window text is a key |
| Timestamps.IsoShape | packages/kerdoos/src/kerdoos/core/evaluator.py:459-460 | where the fields stand in an `isoformat()` text, and that the microseconds are there only when there are any |
| Scheduler.WindowIsLatestOccurrence | packages/kerdoos/src/kerdoos/core/scheduler.py:33-56 | the exclusive `get_prev` nudged by a microsecond gives the greatest occurrence not after `now`, which is `now` itself on an occurrence |
| Scheduler.SameWindowIffNoOccurrenceBetween | packages/kerdoos/src/kerdoos/core/scheduler.py:4-10 | two ticks share a window if and only if no occurrence lies between them |
| Delivery.WindowMeaning | packages/kerdoos/src/kerdoos/core/scheduler.py:33-56 | a job's window is the last occurrence of its own cron text in its own time zone, and there is none exactly when they cannot be read |
| Price.PrintedPriceCapture | packages/kerdoos/src/kerdoos/parsers/adapters/amazon.py:61-63 | the price pattern matches every printed price, and every way to match it captures the whole amount |
| Price.LiteralOfAmount | packages/kerdoos/src/kerdoos/parsers/adapters/amazon.py:137-139 | the literal handed to `float` is the printed digits with two decimals, and names exactly the printed cents |
| Price.PriceRoundTrip | packages/kerdoos/src/kerdoos/parsers/normalize.py:22-39 | reading a printed price back gives the same cents if and only if they lie in [1, 100000000], for every admissible rounding of both float operations, and nothing otherwise |
| Price.RoundsToNearestEven | packages/kerdoos/src/kerdoos/parsers/normalize.py:22-39 | rounding gives a nearest integer, the even one of two |
| Price.AmountInGrammar | packages/kerdoos/src/kerdoos/digest/render.py:18-24 | the grouped text of any non-negative number of cents is in the amount grammar |
| Smtp.RetryOnlyAfterRefusal | packages/kerdoos/src/kerdoos/digest/smtp_sender.py:164-239 | an attempt classified as retryable was not accepted by the relay, and one that succeeded was, including failures of QUIT after acceptance |
| Smtp.SucceedsIff | packages/kerdoos/src/kerdoos/digest/smtp_sender.py:202-239 | an attempt succeeds if and only if connecting and securing did, the content was answered with 250 and leaving the client raised nothing |
| Smtp.RetryableIff | packages/kerdoos/src/kerdoos/digest/smtp_sender.py:164-239 | an attempt is retryable if and only if connecting or securing met a network failure, or the server answered 4yz (for all recipients), and leaving raised nothing else |
| Smtp.FailureSeen | packages/kerdoos/src/kerdoos/digest/smtp_sender.py:202-239 | the failure seen is that of the first phase that failed, unless the answer to QUIT replaced it |
| Smtp.AtMostOneAccepted | packages/kerdoos/src/kerdoos/digest/smtp_sender.py:313-341 | whatever the relay does, any number of begun attempts of one call has at most one accepted message |
| Smtp.Send | packages/kerdoos/src/kerdoos/digest/smtp_sender.py:257-341 | the loop makes the specified number of attempts, at most the retry count plus one, each but the last of them retryable; it starts no retry with less than eight timeouts left, returns true exactly when the last attempt succeeded, at once if the first did, and then exactly one message was accepted |
| Smtp.SafeTimeoutInRange | packages/kerdoos/src/kerdoos/digest/factory.py:76-103 | the socket timeout is strictly between zero and the reaper bound for every configured float, NaN and infinities included, and is the configured one exactly when that is in range |
| Smtp.RetriedIff | packages/kerdoos/src/kerdoos/digest/smtp_sender.py:329-341 | a retryable failure with attempts left is retried if and only if what the deadline leaves beyond a full attempt covers the whole backoff and the overrun of the sleep (with no overrun at all, if anything is left) |
| Smtp.SecondAttemptIff | packages/kerdoos/src/kerdoos/digest/smtp_sender.py:319-341 | the same for the first failure and the number of attempts of the call |
| Smtp.WarningDecidesFirstCheck | packages/kerdoos/src/kerdoos/digest/factory.py:106-121 | the start-up warning is absent if and only if every first failure within one socket timeout passes the budget check before the backoff |
| Smtp.RetryThresholds | packages/kerdoos/src/kerdoos/digest/factory.py:70-71 | for every configured timeout: the warning is given below ten socket timeouts of reaper bound, every fast failure is retried if and only if the bound is at least ten timeouts plus backoff and overrun, and none ever is if and only if it is at most nine timeouts plus the backoff |
| Smtp.DefaultsMissARetry | packages/kerdoos/src/kerdoos/digest/smtp_sender.py:329-341 | with the default settings, which give no warning, a first failure after 29 of its 30 seconds is not retried, whatever the overrun of the sleep |
| Smtp.WarningDoesNotDisableRetry | packages/kerdoos/src/kerdoos/digest/factory.py:106-121 | settings the environment accepts and a clock with an overrun under which the warning is given and a fast failure is still retried |
| JobRuns.StateStore.RecordJobRun | packages/kerdoos/src/kerdoos/persistence/sqlite_store.py:224-240 | inserts unless the key exists, and answers whether this call inserted |
| JobRuns.StateStore.UpdateJobRun | packages/kerdoos/src/kerdoos/persistence/sqlite_store.py:242-264 | replaces status, sent time and error of an existing row, whatever its status |
| JobRuns.ActiveCheckGuardsInsert | packages/kerdoos/src/kerdoos/persistence/sqlite_store.py:313-328 | recording a new run of a job keeps one row in flight per job if and only if the check for an active run finds none |
| JobRuns.StateStore.ReapStaleJobRun | packages/kerdoos/src/kerdoos/persistence/sqlite_store.py:330-354 | a committed call turns a row into an error if and only if it is of that job and owner, queued or running, and fired before the cutoff, and answers whether exactly one was |
| JobRuns.ReapAnswerIff | packages/kerdoos/src/kerdoos/persistence/sqlite_store.py:330-354 | the answer agrees with the documented "a row was reaped" if and only if at most one row of the job was stale |
| JobRuns.TwoStaleRowsReapedUnreported | packages/kerdoos/src/kerdoos/persistence/sqlite_store.py:354-354 | a table where two rows are reaped and the answer is no |
| JobRuns.ReapMeaning | packages/kerdoos/src/kerdoos/persistence/sqlite_store.py:342-353 | reaping keeps every key, changes a row if and only if it is of that job and owner, in flight and fired before the cutoff, and leaves none such |
| Delivery.StepKeepsSafe | packages/kerdoos/src/kerdoos/core/evaluator.py:327-431 | every step of every evaluator keeps the safety invariant: a won key is recorded, undispatched and won by one evaluator only |
| Delivery.AtMostOnceDispatch | packages/kerdoos/src/kerdoos/core/evaluator.py:313-431 | over every interleaving with crashes, raising store calls, reaps and orphaned sends, no (job, window) is dispatched twice, none recorded before is dispatched, and `sent` rows were dispatched |
| Delivery.AtMostOneEmailPerWindow | packages/kerdoos/src/kerdoos/persistence/ports.py:41-52 | end to end, whatever evaluators, store and relays do, at most one email is accepted per (job, window) |
| Delivery.DispatchesWithinOccurrences | packages/kerdoos/src/kerdoos/core/scheduler.py:33-56 | with a fixed schedule, a job's dispatches over ticks in an interval are at most one more than the occurrences after its start, and none when the schedule cannot be read |
| Lifecycle.StepKeepsAlive | packages/kerdoos/src/kerdoos/core/evaluator.py:327-431 | under one evaluator each step keeps one row in flight per job and moves a row at most one place along queued, running, terminal |
| Lifecycle.RowsOnlyAge | packages/kerdoos/src/kerdoos/core/evaluator.py:450-457 | over every run of one evaluator with crashes and restarts, no row disappears, ranks only rise, terminal rows never change |
| Lifecycle.TerminalRowChangesIff | packages/kerdoos/src/kerdoos/persistence/sqlite_store.py:242-264 | with any number of evaluators, a step changes a terminal row if and only if it is a committed mark or final update of that row with other values |
| Lifecycle.SecondEvaluatorBreaksIt | packages/kerdoos/src/kerdoos/core/evaluator.py:208-215 | from an empty table, for every job whose window can be computed, a run of two evaluators in which a late update changes a row that the second one's sweep had made terminal |
| Lifecycle.ReapAllMeaning | packages/kerdoos/src/kerdoos/core/evaluator.py:434-469 | a sweep turns a row into an error if and only if it is in flight, was fired before the cutoff and a committed call named its job and owner; it removes none |
| Lifecycle.YoungRowStays | packages/kerdoos/src/kerdoos/core/evaluator.py:458-462 | a sweep leaves every row fired within the timeout as it was |
| Lifecycle.StrandedRowIsReaped | packages/kerdoos/src/kerdoos/core/evaluator.py:548-551 | a tick later than the timeout makes a stranded row terminal before Plan B, keeps its window consumed and unblocks the job if and only if a reap call for that job commits, whatever the other calls do |
| SendExecutor.RotatingSendExecutor.PruneRetired | packages/kerdoos/src/kerdoos/core/evaluator.py:82-89 | keeps exactly the retired pools whose orphan has not ended |
| SendExecutor.RotatingSendExecutor.CanSubmit | packages/kerdoos/src/kerdoos/core/evaluator.py:91-93 | admits a send exactly when fewer than three orphans per worker are alive |
| SendExecutor.RotatingSendExecutor.Submit | packages/kerdoos/src/kerdoos/core/evaluator.py:369-371 | a send goes to a pool on which every earlier send has ended, if and only if no stray of a submission that raised after queueing is unfinished there |
| SendExecutor.RotatingSendExecutor.Rotate | packages/kerdoos/src/kerdoos/core/evaluator.py:95-102 | a fresh pool takes over, the running orphan is remembered, and the list stays within its ceiling |
| PlanB.Dispatch | packages/kerdoos/src/kerdoos/core/evaluator.py:358-409 | after a return, an exception, a timeout of a queued or a running send, nothing but strays is left unfinished on the current pool |
| PlanB.NotifyJob | packages/kerdoos/src/kerdoos/core/evaluator.py:327-431 | a job none of whose sources has a record is not dispatched and writes no row; a due job is handed to the pool, and its row and the one counter that rises are those of how its send ended; every path bumps exactly one counter and is a Delivery run |
| PlanB.CounterMeaning | packages/kerdoos/src/kerdoos/core/evaluator.py:327-431 | which counter rises, reason by reason in the order they are met: a raising check, a run in flight, an unreadable history, nothing to report, a full pool, an unreadable window, a window already recorded, a failing update, the end of the send |
| PlanB.RunPlanB | packages/kerdoos/src/kerdoos/core/evaluator.py:313-431 | all listed jobs are counted once each, and the loop is a Delivery run |
| PlanB.ReapStaleJobRuns | packages/kerdoos/src/kerdoos/core/evaluator.py:434-469 | the sweep over the listed jobs is the reaping phase of Delivery, also when reaps raise |
| PlanB.LoadRegistries | packages/kerdoos/src/kerdoos/core/evaluator.py:553-564 | counts each owner whose registry did not load once, and raises exactly when one that loaded cannot be indexed |
| PlanB.EvaluateTick | packages/kerdoos/src/kerdoos/core/evaluator.py:532-592 | a tick returns its summary if and only if listing raised, or every listed cron text can be read and every loaded registry indexed; each of the three counters is what the jobs, one count each, add up to, failures of listing, loading and scraping being errors, and no more are notified than sends were handed over; a tick that raises has only swept the table |
| PlanB.TickScrapesIff | packages/kerdoos/src/kerdoos/core/evaluator.py:552-570 | a tick scrapes a source if and only if every listed cron text can be read, its owner's registry loaded and resolves it, history and tier are there, and a job that references it finds it stale |
| PlanB.TickCountsMeaning | packages/kerdoos/src/kerdoos/core/evaluator.py:544-570 | the failures are the owners that did not load, the referenced sources whose history raised and the scraped ones whose scrape did |
| PlanB.OneCronTextStopsEveryOwner | packages/kerdoos/src/kerdoos/registry/ports.py:179-187 | two owners, one with a stored cron text that cannot be read: their tick does not complete, while the other owner's due window alone is dispatched |
| PlanB.RunEvaluatorLoop | packages/kerdoos/src/kerdoos/core/evaluator.py:595-646 | over any ticks, raising ones included, sends handed to the pool are distinct and new, at most three timed out sends per worker are alive, and the current pool holds no unfinished send but strays, of which there are none unless a submission raised after queueing; nothing is dispatched while no tick completes |
| PlanA.LatestMeaning | packages/kerdoos/src/kerdoos/persistence/sqlite_store.py:85-93 | the one-row history is a record of the source, and none of the source's records is newer |
| PlanA.PeriodMeaning | packages/kerdoos/src/kerdoos/core/evaluator.py:218-226 | a job's period is the distance of the two occurrences, read in UTC, that follow the tick |
| PlanA.RequiredPeriods | packages/kerdoos/src/kerdoos/core/evaluator.py:254-261 | the loops build the specified dictionary in insertion order if and only if every listed cron text can be read, and raise otherwise |
| PlanA.CadenceUnion | packages/kerdoos/src/kerdoos/core/evaluator.py:254-261 | the dictionary holds exactly the referenced sources, each with the least period of an enabled job that references it |
| PlanA.ScrapeStore.ScrapeRequired | packages/kerdoos/src/kerdoos/core/evaluator.py:263-292 | the loop scrapes and records the specified sources and counts returns and failures |
| PlanA.ScrapeStore.RunPlanA | packages/kerdoos/src/kerdoos/core/evaluator.py:243-292 | Plan A raises exactly when a listed cron text cannot be read and then scrapes nothing, else it leaves the specified history and counts |
| PlanA.ScrapeStore.CollectJobDigest | packages/kerdoos/src/kerdoos/core/evaluator.py:295-310 | collects the latest record of each of the job's sources that has one, in order, unless reading one raises |
| PlanA.ScrapeAllMeaning | packages/kerdoos/src/kerdoos/core/evaluator.py:263-286 | each source is scraped at most once and judged by its history before the tick, and its latest record afterwards is the tick's own or the old one |
| PlanA.ScrapedIffStale | packages/kerdoos/src/kerdoos/core/evaluator.py:254-286 | a source is scraped at most once, and it is if and only if every listed cron text can be read, the source can be reached, and some job that references it finds every record at least one of its periods old |
| PlanA.ScrapedIffOlderThanStep | packages/kerdoos/src/kerdoos/core/evaluator.py:254-286 | for schedules of a constant step, a reachable source is scraped if and only if it has no record younger than the step |
| PlanA.PlanACountsMeaning | packages/kerdoos/src/kerdoos/core/evaluator.py:263-292 | scraped counts the scrapes that returned; errors count the histories and scrapes that raised |
| PlanA.CollectedRecordIsFresh | packages/kerdoos/src/kerdoos/core/evaluator.py:254-310 | for a resolvable source with an installed tier and no exception, Plan B collects its newest record, which is younger than the distance of the job's next two occurrences |
| PlanA.CollectMeaning | packages/kerdoos/src/kerdoos/core/evaluator.py:295-310 | collected are newest records of the job's own sources, one for each source that has a record |
| PlanA.CollectAppend | packages/kerdoos/src/kerdoos/core/evaluator.py:303-310 | and they come in the order of the sources |
| PlanA.DigestIffRecord | packages/kerdoos/src/kerdoos/core/evaluator.py:337-352 | there is a digest to send if and only if one of the job's own sources has a record |
| EmptyDigestWarnings.EmptyDigestWarningTracker.ShouldWarn | packages/kerdoos/src/kerdoos/core/evaluator.py:164-172 | warns if and only if the key was not remembered or its warning is older than two days; remembers it then, and forgets exactly the other entries that old |
| EmptyDigestWarnings.WarnsUnlessWarnedLately | packages/kerdoos/src/kerdoos/core/evaluator.py:154-172 | after any run, a check warns exactly when no warning for its key was given in the two days before |
| EmptyDigestWarnings.WarnsAgainIffLongWindow | packages/kerdoos/src/kerdoos/core/evaluator.py:147-159 | a key warns again exactly when more than two days have passed |
| LoginLimiter.SqliteAuthStore.ReserveLoginAttempt | packages/kerdoos/src/kerdoos/registry/auth_store.py:214-275 | the statements compute the specified table and answer |
| LoginLimiter.SuccessStartsOver | packages/kerdoos/src/kerdoos/registry/auth_store.py:277-287 | after a success the identifier is admitted at once and its admissions count from zero, and no other identifier is answered differently by the read path |
| LoginLimiter.FastPathRefinesWritePath | packages/kerdoos/src/kerdoos/registry/auth_store.py:217-275 | with a clock that does not step back, every call sequence gets the answers of the limiter that always writes |
| LoginLimiter.SameAnswersIffClockNeverFalls | packages/kerdoos/src/kerdoos/registry/auth_store.py:217-275 | for given clock readings, the limiters with and without the read-only path answer alike on every table and every list of identifiers if and only if the readings never fall |
| LoginLimiter.ClockStepBackIsObservable | packages/kerdoos/src/kerdoos/registry/auth_store.py:222-239 | from an empty table too, a call sequence with one step back tells the two apart |
| LoginLimiter.RemovalCauses | packages/kerdoos/src/kerdoos/registry/auth_store.py:237-253 | a row survives a transaction exactly when it is not expired, not the evicted one and not the succeeding identifier's |
| LoginLimiter.AdmissionsOfOneRow | packages/kerdoos/src/kerdoos/registry/auth_store.py:254-275 | over every order of concurrent transactions, admissions during a row's life are min(failure_count, max) |
| LoginLimiter.AtMostMaxAdmissions | packages/kerdoos/src/kerdoos/registry/auth_store.py:254-275 | so no identifier gets more than the maximum while its row lives |
| LoginLimiter.TableBound | packages/kerdoos/src/kerdoos/registry/auth_store.py:243-253 | the table never outgrows the larger of the row cap, one row and its initial size |
| LoginLimiter.CapExceededIff | packages/kerdoos/src/kerdoos/registry/auth_store.py:247-253 | when the limiter is on, the first row outgrows the cap if and only if the cap is below one |
| LoginLimiter.RetryAfterIsExact | packages/kerdoos/src/kerdoos/registry/auth_store.py:231-234 | with no other call, waiting the announced time admits, and waiting less is refused with the rest of it |
| LoginLimiter.FixedWindow | packages/kerdoos/src/kerdoos/registry/auth_store.py:214-275 | on an empty table, of any attempts of one identifier within a window of the first, the first `max` are admitted and every later one is told what is left of the window that the first one opened |
| ConfigStore.SqliteConfigStore.AddSource | packages/kerdoos/src/kerdoos/registry/sqlite_store.py:380-390 | answers Ok exactly when the id is there afterwards; an existing source and every other one keep their values, and a refusal changes nothing |
| ConfigStore.RemoveUndoesAddSource | packages/kerdoos/src/kerdoos/registry/sqlite_store.py:380-399 | removing a source that was just added restores every table |
| ConfigStore.SqliteConfigStore.RemoveSource | packages/kerdoos/src/kerdoos/registry/sqlite_store.py:392-399 | afterwards the owner has no such source and no link to it, and every other source and link is as before |
| ConfigStore.RemoveProductBySources | packages/kerdoos/src/kerdoos/registry/sqlite_store.py:401-425 | removing a product does what removing each of its sources, in any order, and then the emptied product does |
| ConfigStore.SqliteConfigStore.LinkSources | packages/kerdoos/src/kerdoos/registry/sqlite_store.py:429-452 | afterwards a given source is linked exactly if it was before or the owner has it, all else is unchanged, and the answer is the newly linked ones in the order of their first mention, without repeats |
| ConfigStore.SqliteConfigStore.CreateJob | packages/kerdoos/src/kerdoos/registry/sqlite_store.py:464-487 | refused exactly when the id or the owner's name is taken, and then nothing changes; else the job is there as given and every given source that the owner has is linked and listed |
| ConfigStore.UpdateCanBeReverted | packages/kerdoos/src/kerdoos/registry/sqlite_store.py:544-568 | an accepted edit is undone by editing name and settings back, which is never refused |
| ConfigStore.DeleteUndoesCreate | packages/kerdoos/src/kerdoos/registry/sqlite_store.py:570-592 | deleting a job that was just created with its links restores every table |
| ConfigStore.SqliteConfigStore.AddJobSource | packages/kerdoos/src/kerdoos/registry/sqlite_store.py:594-604 | answers true, and links, exactly when the job and the source are the owner's and not linked yet; a job that is not the owner's is unknown |
| ConfigStore.UnlinkUndoesLink | packages/kerdoos/src/kerdoos/registry/sqlite_store.py:594-614 | unlinking a source whose linking answered true restores every table |
| ConfigStore.ApplyKeepsLinks | packages/kerdoos/src/kerdoos/registry/sqlite_store.py:84-94 | after every operation each link's owner is its job's and its source's owner |
| ConfigStore.ApplyKeepsIntegrity | packages/kerdoos/src/kerdoos/registry/sqlite_store.py:64-76 | after every operation sources have their product and site, URLs are unique per owner and product, job names per owner |
| ConfigStore.ImportIsIdempotent | packages/kerdoos/src/kerdoos/registry/sqlite_store.py:20-21 | repeating a successful upsert succeeds and changes nothing |
| ConfigStore.NonInterference | packages/kerdoos/src/kerdoos/registry/sqlite_store.py:350-614 | with job ids that no two owners share, an owner's rows and responses after any trace are those of replaying only that owner's operations and the site upserts |
| ConfigStore.JobIdCollision | packages/kerdoos/src/kerdoos/registry/sqlite_store.py:468-485 | a creation is answered from the owner's own rows if and only if its id is not another owner's or its name is already taken |
| RunQueue.RunQueue.CheckBacklogWarning | packages/kerdoos/src/kerdoos/core/run_queue.py:99-111 | with a positive threshold the flag is afterwards exactly "depth is at least the threshold", and with none it is untouched; nothing else changes |
| RunQueue.RunQueue.EnqueueOwner | packages/kerdoos/src/kerdoos/core/run_queue.py:129-158 | accepts exactly when alive, not cooling down and not queued or running |
| RunQueue.RunQueue.TakeNext | packages/kerdoos/src/kerdoos/core/run_queue.py:215-222 | pops the oldest owner, which shows as running and stays in the set, so that it cannot be queued again |
| RunQueue.FinishedOwnerAcceptedIff | packages/kerdoos/src/kerdoos/core/run_queue.py:223-242 | after its run the owner is accepted again at once if the run failed, and exactly once the cooldown has passed if it succeeded |
| RunQueue.RunQueue.HandleCrash | packages/kerdoos/src/kerdoos/core/run_queue.py:176-208 | turns the lost runs into errors, frees them, and restarts, stops or dies |
| RunQueue.CrashMeaning | packages/kerdoos/src/kerdoos/core/run_queue.py:176-208 | which owners a crash turns into errors and frees, and when the queue restarts, stops or dies |
| RunQueue.ReachableQueue | packages/kerdoos/src/kerdoos/core/run_queue.py:141-242 | in every reachable state, through crashes, restarts and cancellation, accepted enqueues are started runs followed by the FIFO, the owners left in the FIFO of a dead queue all show an error, the backlog flag is exact, and until the consumer is gone FIFO, status and set agree without duplicates |
| RunQueue.AcceptedAfterCooldown | packages/kerdoos/src/kerdoos/core/run_queue.py:113-158 | an accepted enqueue comes at least the cooldown after the owner's last success, through failed and crashed runs |
| RunQueue.CooldownIsExact | packages/kerdoos/src/kerdoos/core/run_queue.py:113-127 | the announced remaining cooldown is what is left since the last success; waiting it out ends it, and waiting less leaves the rest |
| RunQueue.DeathByStreak | packages/kerdoos/src/kerdoos/core/run_queue.py:163-208 | the restart counter is the number of crashes since the last success, and a dead queue has seen exactly the budget plus one |
| RunQueue.DeathIsPermanent | packages/kerdoos/src/kerdoos/core/run_queue.py:141-145 | a dead queue stays dead, starts nothing and answers every enqueue with an error status |
| BrowserGate.AtMostNBrowsers | packages/autolycos/src/autolycos/browser_gate.py:70-113 | over every interleaving of threads and processes with failures and kills, at most N browsers are held across the processes that share the lock directory |
| BrowserGate.PermitsConserved | packages/autolycos/src/autolycos/browser_gate.py:70-113 | in each process free permits plus threads past the semaphore are always the capacity |
| BrowserGate.PermitIffRoom | packages/autolycos/src/autolycos/browser_gate.py:70-76 | a new acquisition gets a permit at once if and only if fewer threads than the maximum are past the semaphore |
| BrowserGate.SlotIffUnheld | packages/autolycos/src/autolycos/browser_gate.py:86-106 | a slot can be locked if and only if no thread of any process holds it or left it locked |
| BrowserGate.AllPermitsBackIff | packages/autolycos/src/autolycos/browser_gate.py:70-113 | a process whose threads have all left the gate has every permit back if and only if no release of it raised since it started; failed acquisitions leak nothing |
| BrowserGate.OneRaisingReleaseBlocksTheGate | packages/autolycos/src/autolycos/browser_gate.py:108-113 | the run in which one release of a gate of one raises, after which no acquisition of that process can begin |
| BrowserGate.ProcessGate.AcquireSlot | packages/autolycos/src/autolycos/browser_gate.py:86-106 | returns the first slot in polling order that could be locked, or fails at the first error or at the first round past the deadline |
| BrowserGate.ProcessGate.Acquire | packages/autolycos/src/autolycos/browser_gate.py:70-84 | takes one permit on success and none on failure, by steps of the transition system that end with the thread holding what is returned or outside the gate |
| BrowserGate.ProcessGate.Release | packages/autolycos/src/autolycos/browser_gate.py:108-113 | gives the permit back exactly when neither unlocking nor closing raises, by steps of the transition system |
| FetchClaim.LocalKeepsOk | packages/autolycos/src/autolycos/adapters/browser.py:479-493 | each locked block keeps the per-fetch invariant, never changes a claim and moves the count by what it counts |
| FetchClaim.AbandonedCountIsExactAndBounded | packages/autolycos/src/autolycos/adapters/browser.py:441-457 | in both tiers the count is the number of counted threads still alive, never negative, and at most the ceiling minus one plus the callers past the check; with psutil, and always in the camoufox tier, it is the number of timed out fetches whose thread goes on |
| FetchClaim.BoundIsReached | packages/autolycos/src/autolycos/adapters/browser.py:441-457 | that bound is reached by some run, for every ceiling and number of callers |
| FetchClaim.NoFetchIsStuck | packages/autolycos/src/autolycos/adapters/browser.py:589-648 | a fetch whose caller waits or whose thread runs can always step |
| FetchClaim.ExactlyOneSideWins | packages/autolycos/src/autolycos/adapters/camoufox.py:734-779 | in both tiers one side wins the claim and decides the caller's result, and a caller never reads an empty outcome |

## Left out

- croniter, zoneinfo and daylight saving: a schedule is any unbounded, strictly increasing grid of instants.
- SQLite, WAL, busy timeouts and schema migrations: a table is a map and a transaction is one step.
- Rounding of clock values: the limiter, the queue and the SMTP deadline use reals.
- The text of stored errors, display timestamps and log lines.
- The per-send daemon threads that a single `kerdoos digest` tick uses instead of the rotating pool.
- PlanB.EvaluateTick: an overflow of date arithmetic, which would also raise, has no counterpart on unbounded instants.
- Lifecycle.RowsOnlyAge: assumes that a job id keeps its owner, as the primary key of `digest_jobs` and random ids give.
- Rendering the digest and checking the recipient's host: `Smtp.Send` takes the address and the verdict on its host as inputs.
- Negative cents: `Price.FormatCents` takes the non-negative prices that `to_cents` can produce.
- The split-span PIX price and the HTML scoping of the Amazon parser, and the other site parsers.
- The run queue after a crash that comes while stopping, or a cancellation: only the FIFO order and the backlog flag are stated there.
- A consumer crash between taking an item and marking it running: nothing suspends there, so taking is one step.
- Launching, driving and killing browsers: they are open outcomes of the fetch race; the deprecated `uc` tier is not modelled.
- Sessions, tokens, password hashing, CSRF, web, MCP and command-line doors, egress proxy and URL validation.
