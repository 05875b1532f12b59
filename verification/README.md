# Cyntr: models and proofs

A Dafny model of the stateful core of Cyntr, a multi-tenant agent platform written in Go, with
proofs of what its queues, limits, logs and loops guarantee.

| file | models |
|---|---|
| `JobQueue.dfy` | the durable job queue as a transition system: lease passes, workers, enqueues and crashes interleave step by step |
| `JobQueueRuns.dfy` | building runs of the queue; a lease that nothing falls into as a stretch of a run |
| `JobQueueObject.dfy` | the queue object: the same steps as methods, and the claiming loop, which is a run of steps |
| `JobQueueOutcomes.dfy` | how jobs end and what a crash leaves of them |
| `JobQueueCaps.dfy` | how far overlapping lease passes can go beyond the global cap |
| `JobQueueBudget.dfy`, `JobQueueRaces.dfy` | how often a job's handler is started, for any number of passes, and a crash-free run beyond the budget |
| `JobTimes.dfy` | the retry delay on int64, and RFC 3339 time stamps compared as text |
| `Dependencies.dfy`, `KernelBoot.dfy` | boot order by Kahn's algorithm, and start and stop under failures |
| `IpcBus.dfy` | the request/reply bus: bounded inboxes, re-registration, time-outs, close |
| `TokenBucket.dfy` | the rate bucket of the quota module |
| `AgentSlots.dfy`, `AgentSlotCaps.dfy` | its concurrent-agent slots, and when their cap holds |
| `RateLimit.dfy` | the proxy's fixed-window limiter, against one that never evicts |
| `AuditChain.dfy` | writer and verifier of the audit hash chain |
| `Calendar.dfy`, `Cron.dfy`, `CronYearly.dfy` | a UTC calendar, the cron field parser, the search for the next match, and which yearly schedules it misses |
| `SkillHealth.dfy` | the sliding health window, scores and prune suggestions |
| `Compress.dfy` | content-addressed compression of trajectories |
| `Approval.dfy`, `ToolLoop.dfy` | the approval queue, and the agent's turn and tool-call loop that waits on it |
| `ToolLoopAnswers.dfy` | what a chat tells the model and the user: tool output, refusals, the reply and the tools used |
| `Common.dfy`, `Text.dfy` | counting lemmas, int64 arithmetic, and Go's string functions |

Concurrency is modelled by runs: sequences of actions, each one burst under a mutex, one SQL statement
or one channel operation, in any order that the guards allow. The locked bursts are also methods of
classes, and both use the same functions for their effect. Clock readings, random identifiers, hashes,
encoders, policy decisions, model answers and tool results are parameters.

## Where the code and its comments part

- **Global cap of the job queue.** With `k` lease passes at a time (`RunOnce` beside the background loop) up
  to `k` times the cap is the bound, and whatever the caps, two passes are enough to exceed it. So it holds
  in all runs exactly when passes do not overlap.
- **Attempt budget of the job queue.** It holds for any number of passes as long as no claim wins with a
  copy whose attempts are not the row's any more, as with one pass at a time, passes that scan different
  jobs, or a budget of one. After any claim that does, the run can go on to more starts than the budget.
- **Time stamps.** RFC3339Nano drops trailing zeros, so text order is time order except within one
  second, and there it fails exactly when one trimmed fraction is a proper prefix of the other. A whole
  second sorts after all later instants of that second.
- **Starting a kernel again while modules run.** If an Init then fails, later modules keep running while
  modules they depend on do not. `RestartKeepsClosureExactly` says when.
- **Rate hint.** The time given on a denial is when a token has accrued only up to rounding: a call at
  exactly that time is admitted exactly when the capacity divides a minute. A nanosecond later it is, and
  stays so until elapsed time times capacity leaves int64: at a million a minute a bucket that was idle for
  9,300 seconds is still denied.
- **Slot cap.** A limit that is read before a config change and used after it puts the old limit on the
  new slots, or the new limit below the slots in use. An object whose look-ups never lower its limit keeps
  its cap; and as long as a tenant's config stays, its cap is safe exactly when no goroutine is about to
  look up with another limit.
- **Limiter backstop.** A tenant turned away because the bucket map is full would have been admitted by
  a limiter without eviction. Calls that read the clock before the lock agree with that limiter as long as
  they are out of order by at most half an interval, and need not beyond that.
- **Bus after close.** To register a handler again after close would close its inbox twice, and panics; a
  key that had no handler at close is accepted, and its requests are refused.
- **Audit signature.** `Write` hashes an entry with whatever signature the caller left in it, while
  `VerifyChain` clears the signature first. Logs verify exactly when callers pass empty signatures.
- **Cron.** A step so large that the addition wraps around is accepted and yields negative values. `Next`
  gives up after 525,960 minutes, less than a leap year. A schedule of one date a year is always found
  exactly when every year has the date and its last minute of the day is at least 1,080 after its first:
  "0 0 31 12 *" is missed before every leap year. Day and weekday must both match.
- **First seen failing.** The comments ask for seven days of continuous failing; the code takes the start of
  the first failing window of the whole history. A skill can be suggested for pruning the moment it starts
  to fail, or fails again after it recovered. A suggestion is wrong exactly when that window starts before
  the cutoff and the spell that lasts begins after it.
- **Compression.** White space is normalised after redaction, so a second compression can redact text
  that only then takes a recognised form. As long as no two texts at hand have the same hash, compressing
  again changes nothing exactly when scrubbing each of them twice is the same as scrubbing it once.
- **Approvals.** A denial does not look at the deadline; an approval does.
- **Message history.** Truncation can cut between a response and its tool results, and the history then
  starts with results whose call is gone. That is the only way in which it fails to answer its calls.

## Model

| member | source | states |
|---|---|---|
| JobQueue.StepKeepsAccounting | kernel/jobs/queue.go:379-407 | every step keeps, for each tenant, the counter equal to the slots reserved or held, within the cap, and the sum over tenants equal to all of them |
| JobQueue.StepKeepsExclusive | kernel/jobs/queue.go:387-413 | every step keeps one holder for each running row and no holder for others |
| JobQueue.RunKeepsInv | kernel/jobs/queue.go:321-462 | the accounting, exclusivity and well-formedness hold at every point of every run, with any number of passes, workers and crashes |
| JobQueue.TenantSlotsAccounted | kernel/jobs/queue.go:379-407 | in every run the tenant's counter is its reserved and held slots and within the cap, and a decrement always finds a positive counter |
| JobQueue.OneHolderPerRunningJob | kernel/jobs/queue.go:387-413 | a job is running exactly when some worker holds it, the holder is unique, and its kind has a handler |
| JobQueue.StepKeepsFinishedRows | kernel/jobs/queue.go:443-461 | no step changes a done or failed row |
| JobQueue.JobsPersist | kernel/jobs/queue.go:177-181 | an enqueued job stays in the table under its tenant and kind through retries and crashes; done and failed jobs stay as they are |
| JobQueueOutcomes.DoneExactly | kernel/jobs/queue.go:443-446 | in every run a row turns done exactly at the record of its own worker, whose handler has returned without an error |
| JobQueueOutcomes.FailedExactly | kernel/jobs/queue.go:450-455 | a row turns failed exactly at the record of its own worker, whose handler has returned an error, if the attempts are used up |
| JobQueueOutcomes.OutcomeIsWritten | kernel/jobs/queue.go:432-461 | what such a record writes: state, attempts, and for a retry the next run time; tenant and kind stay |
| JobQueueOutcomes.CrashRequeues | kernel/jobs/queue.go:177-181 | after a crash every unfinished job is pending with its attempts and time and held by nobody; finished jobs are as they were |
| JobQueueOutcomes.UnfinishedRunsAgain | kernel/jobs/queue.go:177-181 | after a crash the queue can come, without another one, to start any unfinished job again, whatever else is due before it |
| JobQueueRuns.LeaseProlongsRun | kernel/jobs/queue.go:320-416 | a lease that scans the rows as they are is a stretch of a run: begin, select, its candidates' steps, end |
| JobQueueCaps.HeldWithinPasses | kernel/jobs/queue.go:328-338 | in every run with at most k passes at a time, at most k times the global cap of jobs hold a slot |
| JobQueueCaps.OverlapExceedsCap | kernel/jobs/queue.go:328-338 | whatever the positive caps, two passes at a time can have one job more at work than the global cap |
| JobQueueCaps.CapNeedsOnePass | kernel/jobs/queue.go:308-338 | the global cap holds in all runs with at most k passes at a time exactly when k is at most one |
| JobQueueBudget.AccurateRunKeepsBudget | kernel/jobs/queue.go:432-461 | with any number of passes and no stale claim, at every point starts are attempts plus interruptions, plus one for a start under way |
| JobQueueBudget.AttemptBudgetHolds | kernel/jobs/queue.go:450-461 | in such runs pending jobs have tries left, and a handler starts at most as often as the budget plus the crashes that interrupted it |
| JobQueueBudget.CrashFreeTriesDecrease | kernel/jobs/queue.go:432-461 | without crashes each start uses up one try of a count that never grows nor falls below zero |
| JobQueueBudget.StaleClaimBreaksBudget | kernel/jobs/queue.go:352-366 | after any first claim whose copy is behind its row, the run can go on to more starts than budget and crashes allow |
| JobQueueBudget.SingleAttemptIsAccurate | kernel/jobs/queue.go:450-461 | with one attempt no claim is ever stale, in any run |
| JobQueueBudget.UnsharedRunIsAccurate | kernel/jobs/queue.go:352-366 | nor is one if no pass claims a job that another pass has scanned |
| JobQueueBudget.SerialRunIsUnshared | kernel/jobs/queue.go:282-290 | which is so with one pass at a time |
| JobQueueBudget.StepKeepsCopiesExactly | kernel/jobs/queue.go:352-366 | a step makes a scanned copy of a job stale exactly when it claims a job that another pass has scanned too |
| JobQueueBudget.ClaimKeepsCopiesExactly | kernel/jobs/queue.go:387-413 | while copies are current a claim always wins, and keeps them current exactly when no other pass shares the candidate |
| JobQueueObject.Queue.constructor | kernel/jobs/queue.go:177-181 | opening the queue makes running rows pending, with their attempts and times, and leaves the others alone |
| JobQueueObject.Queue.Enqueue | kernel/jobs/queue.go:204-225 | refuses an empty tenant or kind, else inserts a pending row with no attempts |
| JobQueueObject.Queue.Snapshot | kernel/jobs/queue.go:322-337 | slots left are the global cap less the sum of all counters |
| JobQueueObject.Queue.TryReserve | kernel/jobs/queue.go:379-385 | counts one more for the tenant exactly when it is below its cap |
| JobQueueObject.Queue.GiveBack | kernel/jobs/queue.go:399-406 | counts one less and drops a counter that reaches zero |
| JobQueueObject.Queue.TryClaim | kernel/jobs/queue.go:387-396 | turns a pending row into a running one, and says whether it did |
| JobQueueObject.Queue.ClaimCandidate | kernel/jobs/queue.go:373-412 | wins exactly when kind, cap and row allow it, and changes no count otherwise |
| JobQueueObject.Queue.Lease | kernel/jobs/queue.go:368-414 | claims distinct pending candidates of known kinds within both caps, counts each, passes none over without a reason, and is a sequence of the system's steps |
| JobQueueObject.Queue.Settle | kernel/jobs/queue.go:434-461 | gives the slot back and writes done, failed or pending with one more attempt |
| JobQueueRaces.TwoPassesBreakAttemptBudget | kernel/jobs/queue.go:450-461 | a crash-free run of concurrent passes that starts a handler three times with a budget of two |
| JobTimes.BackoffIsCappedDoubling | kernel/jobs/queue.go:185-191 | for every attempt the delay is the smaller of a minute and 2^attempt seconds, despite wrap-around |
| JobTimes.LateShiftsLeaveRange | kernel/jobs/queue.go:186-188 | from attempt 34 on, every wrapped shift is not positive or above a minute |
| JobTimes.CompareText | kernel/jobs/queue.go:342-347 | text order of stamps follows the seconds, and within a second the trimmed fractions |
| JobTimes.DueWithinASecond | kernel/jobs/queue.go:342-347 | the due query never takes a job a full second early nor leaves out one due by a full second |
| JobTimes.DueExactly | kernel/jobs/queue.go:218-219 | text comparison is time comparison exactly unless one trimmed fraction of the same second is a proper prefix of the other |
| JobTimes.WholeSecondSortsLast | kernel/jobs/queue.go:342-347 | a job due at a whole second is not taken at any later instant of that second |
| Dependencies.BootOrderExcludesCycles | kernel/kernel.go:276-278 | a complete boot order rules out every dependency cycle |
| Dependencies.StuckModulesHaveCycle | kernel/kernel.go:276-278 | if every module of a set depends on one in the set, there is a dependency cycle |
| KernelBoot.AddEdge | kernel/kernel.go:250-251 | one more dependent on one side, one more open dependency on the other |
| KernelBoot.LinkModule | kernel/kernel.go:245-252 | links all dependencies of a module, or names the first that is not registered |
| KernelBoot.Link | kernel/kernel.go:239-253 | in-degrees and reverse edges of the declared graph, or the first unregistered dependency |
| KernelBoot.Ready | kernel/kernel.go:255-260 | exactly the modules without open dependencies, once each |
| KernelBoot.Free | kernel/kernel.go:268-273 | taking a module off its dependents keeps the sorting invariant, duplicates included |
| KernelBoot.Sort | kernel/kernel.go:255-280 | a full order is a permutation with dependencies first; a short one means a cycle |
| KernelBoot.Kernel.Register | kernel/kernel.go:52-68 | a new name is appended and indexed; a taken one is an error that changes nothing |
| KernelBoot.Kernel.TopoSort | kernel/kernel.go:239-281 | an order exactly when all dependencies are registered and none is circular, and otherwise the error that applies |
| KernelBoot.Kernel.Advance | kernel/kernel.go:110-126 | one phase reaches every module before the first failure, marks that one failed, and touches no other |
| KernelBoot.Kernel.Boot | kernel/kernel.go:109-145 | both phases, with the state of every module and the error |
| KernelBoot.Kernel.Start | kernel/kernel.go:91-152 | no error exactly if every Init and Start call succeeds, and then all modules run; otherwise the error is about a module whose call failed; from a kernel where nothing runs, what runs afterwards is a dependency-closed prefix of the boot order |
| KernelBoot.PrefixIsDependencyClosed | kernel/kernel.go:128-145 | a running prefix of a boot order contains all its dependencies |
| KernelBoot.OutcomeIsPrefix | kernel/kernel.go:109-145 | every outcome of a first start is such a prefix |
| KernelBoot.RestartKeepsClosureExactly | kernel/kernel.go:91-152 | a start while modules run keeps closure exactly when no Init fails or no later running module depends on one initialised again |
| KernelBoot.RestartLosesClosure | kernel/kernel.go:91-152 | two running modules, of which a restart leaves the dependent one running alone |
| KernelBoot.Kernel.StopOne | kernel/kernel.go:170-184 | a running module is stopped, or failed if its Stop fails; others are skipped |
| KernelBoot.Kernel.Stop | kernel/kernel.go:154-192 | every running module is stopped exactly once, none runs afterwards even if stops fail, and the error is that of the first stop that failed |
| KernelBoot.StopCallsAre | kernel/kernel.go:163-172 | the stop calls are exactly the running modules of the order, once each |
| KernelBoot.StopCallsReverseOrder | kernel/kernel.go:163-172 | a module booted later is stopped earlier |
| KernelBoot.DependentsStopFirst | kernel/kernel.go:154-192 | when a module is stopped, all running modules that depend on it have been stopped |
| IpcBus.RunKeepsInv | kernel/ipc/bus.go:55-159 | registration, conservation, channels and correlation hold at every point of every run |
| IpcBus.AcceptedIsConserved | kernel/ipc/bus.go:129-159 | accepted requests are queued, running or replied to, in one place each, and the places add up |
| IpcBus.NoSendOnClosedInbox | kernel/ipc/bus.go:132-147 | a send never meets a closed inbox on an open bus, and no inbox outgrows its buffer |
| IpcBus.OneReplyEach | kernel/ipc/bus.go:75-97 | an accepted request stays so, and a reply once sent is never replaced |
| IpcBus.CallerLearnsOutcome | kernel/ipc/bus.go:75-97 | the handler of a returned request ended exactly once, and the caller has its response with payload and topic, its error, or the cause of its panic; an answer has the request's id and trace and its source and target exchanged |
| IpcBus.RegistrationAfterClose | kernel/ipc/bus.go:63-67 | at every point after close, a registration would close an inbox for the second time exactly for the keys that had a handler at close |
| IpcBus.FirstInFirstOut | kernel/ipc/bus.go:69-97 | the handler behind an inbox is given exactly the requests accepted while it was registered, in that order; the rest wait in the inbox |
| IpcBusObject.MessageBus.Handle | kernel/ipc/bus.go:55-73 | the replaced inbox is closed and a new one is registered |
| IpcBusObject.MessageBus.Send | kernel/ipc/bus.go:100-151 | the refusal that applies, or the request at the end of the handler's inbox |
| IpcBusObject.MessageBus.Close | kernel/ipc/bus.go:224-238 | every registered inbox is closed, queues are kept, and a second close does nothing |
| TokenBucket.RateBucket.Allow | modules/quota/enforcer.go:22-54 | refill, decision, new state and hint as the specification functions give them |
| TokenBucket.AdmittedByAccrual | modules/quota/enforcer.go:30-48 | calls up to a time are paid for by the tokens at hand and what accrues until then |
| TokenBucket.AdmittedSinceCreation | modules/quota/enforcer.go:22-54 | within a time T of creation at most capacity + floor(T * capacity / minute) are admitted |
| TokenBucket.AdmittedInWindow | modules/quota/enforcer.go:22-54 | in any window of length T at most one more than that |
| TokenBucket.AdmittedFromHand | modules/quota/enforcer.go:30-48 | as many calls as there are tokens, at hand or accrued by the first of them, are all admitted, whenever they come |
| TokenBucket.BurstIsAdmitted | modules/quota/enforcer.go:30-48 | of a burst at one instant exactly as many are admitted |
| TokenBucket.WindowBoundIsTight | modules/quota/enforcer.go:30-43 | the one more does occur |
| TokenBucket.DenialState | modules/quota/enforcer.go:45-53 | a denied bucket is empty, unchanged, and its hint is not in the past |
| TokenBucket.AdmitsWhenAccrued | modules/quota/enforcer.go:30-48 | an empty bucket admits exactly when a whole token has accrued |
| TokenBucket.HintIsRight | modules/quota/enforcer.go:50-53 | denied before the hint, admitted after it, and at it exactly when the capacity divides a minute |
| TokenBucket.AdmitsExactly | modules/quota/enforcer.go:30-48 | an empty bucket admits exactly when elapsed time times capacity, wrapped to int64, is a minute or more |
| TokenBucket.IdleBucketIsDenied | modules/quota/enforcer.go:30-43 | a bucket that has been idle for 9,300 seconds at a million a minute is denied |
| AgentSlots.InUseIsLive | modules/quota/enforcer.go:63-84 | each object's count is its unreleased acquisitions, and an effective release finds a positive count |
| AgentSlots.ReleaseTakesEffectOnce | modules/quota/enforcer.go:277-287 | a release closure takes effect at most once |
| AgentSlots.AcquireProlongsRun | modules/quota/enforcer.go:247-288 | an acquisition that nothing falls into is a stretch of a run: read, look up, take, or read and done for no limit |
| AgentSlotCaps.RisingLookupsKeepCap | modules/quota/enforcer.go:254-265 | an object whose look-ups never lower its limit never has more holders than its cap |
| AgentSlotCaps.CapIsSafeExactly | modules/quota/enforcer.go:247-267 | while a tenant's config stays, no continuation breaks its cap exactly when no goroutine is about to look up with another limit |
| AgentSlotCaps.PromptRunIsOk | modules/quota/enforcer.go:247-267 | runs whose look-ups all use the limit now configured meet the premises of that |
| AgentSlotCaps.LoweringCanBeHarmless | modules/quota/enforcer.go:254-265 | a run whose last look-up lowers the limit and whose cap is safe all the same |
| AgentSlotCaps.HoldersWithinCap | modules/quota/enforcer.go:247-288 | with look-ups that use the limit now configured, holders never exceed the cap through any number of resets |
| AgentSlotCaps.OutdatedConfigBreaksCap | modules/quota/enforcer.go:248-267 | a run with an outdated limit that ends with two holders under a cap of one |
| AgentSlots.SlotIdsUnique | modules/quota/module.go:210-214 | an id determines tenant and counter, whatever dashes tenants contain |
| AgentSlots.PublishedIdIsNew | modules/quota/module.go:210-214 | a new id is not in the table |
| AgentSlots.WithdrawnIdStaysAway | modules/quota/module.go:226-234 | an id that was withdrawn never comes back, so it releases at most once |
| AgentSlotsObject.AgentSlotsBox.Acquire | modules/quota/enforcer.go:63-76 | takes a slot exactly when one is free |
| AgentSlotsObject.AgentSlotsBox.Release | modules/quota/enforcer.go:78-84 | gives a slot back, and nothing at zero |
| AgentSlotsObject.ReleaseHandle.Call | modules/quota/enforcer.go:279-287 | the first call gives the slot back, later ones do nothing |
| AgentSlotsObject.Enforcer.SetConfig | modules/quota/enforcer.go:126-133 | stores the limit and forgets the tenant's slot object |
| AgentSlotsObject.Enforcer.AcquireAgentSlot | modules/quota/enforcer.go:247-288 | unlimited tenants always succeed and touch no object; others exactly when their object has room under the current limit; the object follows the system's steps |
| AgentSlotsObject.Enforcer.Lookup | modules/quota/enforcer.go:254-265 | the tenant's own object or a new one, under the given limit, its count kept |
| AgentSlotsObject.QuotaModule.Publish | modules/quota/module.go:210-217 | the next id, bound to the closure |
| AgentSlotsObject.QuotaModule.HandleSlotRelease | modules/quota/module.go:221-236 | a known id is removed and its slot given back once; an unknown one changes nothing |
| RateLimit.RateLimiter.EvictStale | modules/proxy/ratelimit.go:98-110 | at most once an interval, exactly the buckets idle for more than two intervals are deleted |
| RateLimit.RateLimiter.Allow | modules/proxy/ratelimit.go:58-94 | decision and new state of one call, with eviction, backstop and reset; an admitted call costs one token of those it finds, a refused one none |
| RateLimit.CallSimulates | modules/proxy/ratelimit.go:68-93 | a call that finds room gets the answer of the limiter that never evicts, and the states stay related |
| RateLimit.BackstopDisagrees | modules/proxy/ratelimit.go:70-76 | a call refused for lack of room would have been admitted, unless the rate admits nothing |
| RateLimit.EvictionIsInvisible | modules/proxy/ratelimit.go:58-110 | over calls out of order by at most half an interval both limiters agree exactly when the rate admits nothing or no call is refused for lack of room |
| RateLimit.FarOutOfOrderDisagrees | modules/proxy/ratelimit.go:58-110 | further out of order they disagree without a refusal for lack of room |
| RateLimit.TwiceTheRateAtMost | modules/proxy/ratelimit.go:82-93 | any half-open span of one interval admits at most twice the rate per tenant |
| RateLimit.RateIsAdmitted | modules/proxy/ratelimit.go:82-93 | from a call that begins an interval for its tenant on, the interval admits the tenant exactly the rate, or as often as it calls if that is less |
| AuditChain.Writer.constructor | modules/audit/writer.go:48-57 | continues from the last digest of the log, or from "genesis" |
| AuditChain.Writer.Write | modules/audit/writer.go:60-103 | appends the row for the stamped entry and moves the link, or fails and changes nothing |
| AuditChain.Writer.VerifyChain | modules/audit/writer.go:105-145 | reports the first break, of the kind that applies |
| AuditChain.AcceptedByRow | modules/audit/writer.go:112-143 | a log is accepted exactly when each row links to the one before and carries the digest of its content |
| AuditChain.FirstBreakReported | modules/audit/writer.go:112-143 | the break that is reported is that of the first row that is not accepted, of the first kind that applies to it |
| AuditChain.RowIsSigned | modules/audit/writer.go:60-103 | row i of a log decodes to what the caller of the write that found i rows gave, under the writer's instance and the row's link, signed for the row's digest |
| AuditChain.ReplayRecords | modules/audit/writer.go:48-103 | after any writes and restarts the rows are those of the written entries, in order |
| AuditChain.WrittenLogsAccepted | modules/audit/writer.go:60-145 | a log written across any restarts is accepted exactly when callers passed empty signatures |
| AuditChain.SignedEntryIsRefused | modules/audit/writer.go:60-145 | one entry that the caller signed makes a log that is refused |
| AuditChain.UniqueSplit | modules/audit/writer.go:73-77 | link and entry are hashed without a separator, and still split in one way only |
| AuditChain.SameEndSameLog | modules/audit/writer.go:105-145 | two accepted logs with the same last digest have the same length, order and entries up to signatures, absent collisions |
| Calendar.DateOf | modules/scheduler/cron.go:132-138 | the date of a day number is valid and has that number |
| Calendar.DateOfUnique | modules/scheduler/cron.go:132-138 | every valid date is the date of its number |
| Calendar.DateOfMonotone | modules/scheduler/cron.go:132-138 | later days have later dates |
| Calendar.WeekdaysAreRight | modules/scheduler/cron.go:132-138 | weekdays follow each other, and two known dates have theirs |
| Cron.PartOfReads | modules/scheduler/cron.go:63-98 | reading a part finds the one value, range or step that the text writes |
| Cron.ParseRange | modules/scheduler/cron.go:102-120 | the values of a range in bounds, or the error that applies |
| Cron.StepValues | modules/scheduler/cron.go:79-81 | the multiples of the step in range when nothing wraps, and a negative second value when it does; the loop ends either way |
| Cron.ParseStep | modules/scheduler/cron.go:64-81 | the values of a stepped part, or its error |
| Cron.ParsePart | modules/scheduler/cron.go:63-98 | what one part denotes, or its error |
| Cron.AcceptedIsLegal | modules/scheduler/cron.go:63-98 | a part is accepted exactly when it is a way to write something within bounds |
| Cron.ParseField | modules/scheduler/cron.go:53-100 | accepts exactly the legal fields, with non-empty values equal to the union of what the parts denote unless a step wraps |
| Cron.InRangeUnlessWrapped | modules/scheduler/cron.go:53-100 | the values of an accepted field are all in range exactly when no step wraps |
| Cron.ParseCron | modules/scheduler/cron.go:20-51 | accepts exactly five legal fields and reports the first bad one |
| Cron.MatchesItsMeaning | modules/scheduler/cron.go:132-138 | a minute matches exactly when all five fields denote its values |
| Cron.ClockReads | modules/scheduler/cron.go:132-138 | a minute's five values are those of a clock and a calendar |
| Cron.Next | modules/scheduler/cron.go:141-150 | the least matching whole minute after the given time if one of the next 525,960 matches, else the minute past them |
| Cron.WrappingFieldIsAccepted | modules/scheduler/cron.go:65-81 | a day field with the largest step is legal although the step wraps |
| CronYearly.OneDateFoundExactly | modules/scheduler/cron.go:141-150 | a schedule of one date a year is always found exactly when every year has the date and its last minute of the day is at least 1,080 after its first |
| CronYearly.YearlyMidnightMissed | modules/scheduler/cron.go:143-149 | from the minute after a yearly midnight before a leap day the search finds nothing, though the next one comes 366 days on |
| SkillHealth.ClassifyHealth | modules/curator/scores.go:25-48 | over 80%, 50 to 80% and less of the last twenty, and no verdict under five |
| SkillHealth.PastHealth | modules/curator/scores.go:124-134 | the classification when an earlier invocation was the newest, and where its window starts |
| SkillHealth.FirstSeenFailing | modules/curator/scores.go:111-142 | for a failing history the start of the earliest-ending failing window, which always exists; else the zero time |
| SkillHealth.TalliesAddUp | modules/curator/scores.go:80-91 | every invocation falls into exactly one of last seven days, seven before, earlier |
| SkillHealth.ComputeScore | modules/curator/scores.go:54-105 | counts by window, rates, average and health of a history |
| SkillHealth.ComputePruneSuggestions | modules/curator/scores.go:169-192 | suggestions for exactly the failing skills whose first failing window starts over seven days ago, in order |
| SkillHealth.LongFailingIsSuggested | modules/curator/scores.go:12-14 | a skill that has been failing without a break for over seven days is always suggested |
| SkillHealth.OneSpell | modules/curator/scores.go:12-14 | a failing skill is in one spell of failing only |
| SkillHealth.FailingSinceSpell | modules/curator/scores.go:12-14 | a skill has been failing without a break since a time exactly when its current spell began before it |
| SkillHealth.SpellAndCrossing | modules/curator/scores.go:107-142 | the current spell began at the first crossing exactly when no window since has left Failing |
| SkillHealth.SuggestedByFirstWindow | modules/curator/scores.go:169-192 | a failing skill is suggested exactly when the first failing window of its history starts over seven days ago |
| SkillHealth.SuggestedWithoutAWeekExactly | modules/curator/scores.go:107-142 | it is suggested without a week of continuous failing exactly when that window starts before the cutoff and the current spell begins after it |
| SkillHealth.RelapseIsSuggested | modules/curator/scores.go:107-142 | a skill that failed a month ago, recovered, and fails again now is suggested at once |
| SkillHealth.FreshFailureIsSuggested | modules/curator/scores.go:107-142 | a skill that starts to fail now is suggested as failing for eight days |
| Compress.NormalizeTwice | modules/eval/compress.go:176-178 | normalisation is a fixed point |
| Compress.NormalizeOnlyMovesSpace | modules/eval/compress.go:176-178 | all visible characters stay in order, with single spaces between and none at the ends |
| Compress.NormalFormIsWords | modules/eval/compress.go:173-178 | two texts have the same normal form exactly when they have the same words |
| Compress.BlobTable.Intern | modules/eval/compress.go:80-88 | the reference of a scrubbed text, stored unless empty |
| Compress.Compress | modules/eval/compress.go:58-100 | the compact form of the specification function |
| Compress.Expand | modules/eval/compress.go:106-132 | the expansion of the specification function, with missing references read as empty |
| Compress.BlobsAreReferences | modules/eval/compress.go:80-98 | blob keys are exactly the non-empty references: every reference resolves, every blob is used |
| Compress.DecisionsRoundTrip | modules/eval/compress.go:106-132 | count, order, index and tool of all steps survive |
| Compress.ExpandCompress | modules/eval/compress.go:106-132 | inputs and observations come back scrubbed exactly when no two different texts of the trajectory collide |
| Compress.StableIfRedactionIs | modules/eval/compress.go:59-61 | scrubbing is stable if redaction leaves scrubbed text alone |
| Compress.CompressAgain | modules/eval/compress.go:51-58 | without collisions and with stable scrubbing, compressing the expansion changes nothing |
| Compress.CompressAgainExactly | modules/eval/compress.go:59-61 | without collisions among the texts of trajectory and expansion, exactly when scrubbing is stable on the trajectory's texts |
| Compress.UnstableTrajectory | modules/eval/compress.go:59-61 | a redaction and a prompt that only the second compression redacts |
| Approval.RunKeepsInv | modules/policy/approval.go:81-183 | the state of every request is consistent with its history at every point of every run |
| Approval.LeavesPendingOnce | modules/policy/approval.go:147-183 | a request leaves pending at most once, and is in the table until it does |
| Approval.EndedByAction | modules/policy/approval.go:96-183 | a request that has ended was approved by an approval no later than its deadline, denied by a denial, or expired by an approval, sweep or submission later than that, and names who approved or denied it |
| Approval.StepEnds | modules/policy/approval.go:96-183 | an action ends a request in a way exactly when it is one that does |
| Approval.ApprovedInTime | modules/policy/approval.go:154-163 | approvals were checked no later than the deadline, expiries after it |
| Approval.DecisionIsReadable | modules/policy/approval.go:109-117 | a decision can be read for at least the retention time, and reads as what it was |
| Approval.DecisionIsFinal | modules/policy/approval.go:151-153 | whatever follows, an ended request stays ended in the same way |
| Approval.SweepKeepsOnlyRecent | modules/policy/approval.go:96-119 | after a sweep no pending request is past its deadline and no decision older than the retention time |
| Approval.ExpiryIsReadable | modules/policy/approval.go:102-108 | the sweep that expires a request keeps it |
| Approval.PollSeesDecision | modules/policy/engine.go:169-182 | a poll within the waiting time sees exactly where the request stands |
| Approval.PollNeverSeesExpiry | modules/policy/approval.go:70-71 | with the default lifetime a waiter never sees an expiry |
| ApprovalObject.ApprovalQueue.constructor | modules/policy/approval.go:69-78 | fifteen minutes of lifetime unless given |
| ApprovalObject.ApprovalQueue.Submit | modules/policy/approval.go:81-94 | a pending request with the given details and deadline under its own or a new id, followed by a sweep |
| ApprovalObject.ApprovalQueue.SweepLocked | modules/policy/approval.go:100-119 | one pass in any order expires and removes exactly what is due |
| ApprovalObject.ApprovalQueue.Approve | modules/policy/approval.go:143-164 | without an error the request is approved in the caller's name, past the deadline it is expired, and any other error changes nothing |
| ApprovalObject.ApprovalQueue.Deny | modules/policy/approval.go:167-183 | without an error the request is denied in the caller's name; an error changes nothing |
| ApprovalObject.ApprovalQueue.ListPending | modules/policy/approval.go:197-218 | after a sweep, each pending request once, oldest first |
| ToolLoop.WaitForApproval | modules/agent/runtime.go:1203-1227 | the verdict of the first poll that has one, or a time-out |
| ToolLoop.FirstDecides | modules/agent/runtime.go:1207-1226 | the first deciding event gives the result |
| ToolLoop.WaitApprovedMeansApproved | modules/agent/runtime.go:1203-1227 | the wait ends in "approved" only if the queue approved the request by its deadline |
| ToolLoop.DecisionReachesWaiter | modules/agent/runtime.go:1211-1224 | once a request has ended, the first answered poll within the waiting time returns how |
| ToolLoop.Session.AddMessage | modules/agent/session.go:62-72 | history is always the latest part of the log, no longer than its limit |
| ToolLoop.RunCall | modules/agent/runtime.go:782-906 | one result with the call's id: the output and error flag of the tool if it was executed, which policy and approval decide, and an error if not |
| ToolLoop.RunCalls | modules/agent/runtime.go:752-916 | results, reported names and executions of all calls of a response |
| ToolLoop.HandleChat | modules/agent/runtime.go:594-922 | log, executions and result of a chat: it ends at the first failed or final turn, or when turns run out |
| ToolLoop.CallsAreAnswered | modules/agent/runtime.go:752-916 | every call of every response is answered by exactly one result with its id, in order, before anything else is said |
| ToolLoopAnswers.LogCarriesOutput | modules/agent/runtime.go:782-906 | in the log of a chat the answer to each executed call has its output and error flag, and the answer to any other call is an error that says why |
| ToolLoopAnswers.PolicyDecides | modules/agent/runtime.go:782-822 | a denied tool never runs, one that needs an approval runs exactly if the wait ends in "approved", and any other tool runs |
| ToolLoopAnswers.ReplyIsRight | modules/agent/runtime.go:736-747 | a chat ends with the sanitized text of its last response exactly if that asked for no tools, and counts the calls that it lists |
| ToolLoopAnswers.ToolsUsedList | modules/agent/runtime.go:782-906 | the list has all calls in order, each under its name, with the reason after it exactly if it was turned away |
| ToolLoop.ExecutedExactly | modules/agent/runtime.go:782-822 | the executed tools are exactly the calls that may run, each once and in order |
| ToolLoop.ExecutedWasApproved | modules/agent/runtime.go:793-822 | a tool that needs an approval runs only if its request was approved in time |
| ToolLoop.RemindedOnce | modules/agent/runtime.go:629-634 | the reminder is given once, and only in chats of more than three turns that reach the last but one |
| ToolLoop.HistoryIsAnsweredExactly | modules/agent/session.go:66-68 | the truncated history answers its calls exactly when the cut is not between a response and its last result |
| ToolLoop.CutLeavesOrphan | modules/agent/session.go:66-68 | a log and a limit whose history starts with a result without its call |

## Left out

- SQLite, JSON and YAML, HTTP, WebSocket, Docker and OS processes: tables are maps or sequences, and statements succeed except where the model names an error.
- SHA-256, HMAC and random identifiers: functions and fresh values with the stated properties.
- Redaction patterns: redaction is a parameter, so its stability on its own output is a hypothesis.
- Several processes on one database, failing database writes, and `Stop` cancelling handlers: the job queue is one process whose writes succeed.
- Fairness of the job queue: jobs of kinds without a handler can fill a whole batch, so no liveness is claimed.
- The queue's options are the same before and after a restart.
- IpcBus.RunKeepsInv: no registration that panics because it closes an inbox for the second time; `RegistrationAfterClose` says exactly when.
- IpcBus.FirstInFirstOut: the order in which handlers are given requests; each then runs in a goroutine of its own, and they may finish in any order.
- Publish and subscribe on the bus: fire and forget, with nothing to conserve.
- TokenBucket.AdmittedInWindow: elapsed time times capacity fits in an int64; beyond that the refill wraps around, and `AdmitsExactly` says what is admitted.
- TokenBucket.HintIsRight: the same, with `IdleBucketIsDenied` for a call that is later.
- RateLimit.EvictionIsInvisible: calls out of order by at most half an interval; `FarOutOfOrderDisagrees` shows that there must be a limit.
- Daily token and session quotas: the check and the record are separate by design, so there is no strict cap to prove.
- Quota configs loaded from the store on first use: the in-memory table is the whole configuration.
- The rate limiter's identity header and secret: the tenant is given.
- AuditChain.WrittenLogsAccepted: entries decode to what was encoded, which Go guarantees for valid UTF-8 only.
- AuditChain.Writer.Write: queries, exports and other tables of the audit module are not part of this model.
- Time zones and monotonic clock readings: instants are integers in nanoseconds and calendars are UTC.
- Cron.Next: times are unbounded integers.
- The scheduler's own loop over due jobs.
- SkillHealth.ComputeScore: durations are summed without wrap-around, and rates are real numbers.
- The order of skills by name, and the store that lists them: skills are given in their order.
- Compress.ExpandCompress: user, subagent flag and creation time are not restored by the source and not claimed.
- The JSONL stream around `Compress`.
- Approval requests are values in a map: the reference that `Get` hands out, and what it reads after the lock is released, is not captured.
- ApprovalObject.ApprovalQueue.ListPending: the library sort is modelled by insertion; the order of requests created at the same time is free.
- ToolLoop.HandleChat: context assembly, memories, summaries, tokens, spans, events and retries of a tool are left out, as are secrets merged into tool input.
- ToolLoop.Session.AddMessage: a session starts empty; history restored from the session store is not part of this model.
- Text: strings are sequences of Unicode characters; invalid UTF-8 has no counterpart.
- Resource limits, roles, policy rules, federation and the remaining stores: each is settled by reading one branch.
