# A verified model of placitum-counter

placitum-counter is an inspector behind a web firewall. It keeps leaky buckets per subject (address, network,
session, user, connection), charges them by what it measures and by notes from neighbouring inspectors, and answers
each request with allow, a score or deny. This project models its logic in Dafny and proves what the code relies on.

The project stands alone: `dafny verify dfyconfig.toml` checks all of it.

## The parts

**Leaky buckets** (`Tiers`, `Refs`, `Ledger`, `RedisPath`, `BucketStore`, `Agreement`, `History`, `Eviction`, `Runs`,
`Interleaving`, `Overlap`). A bucket is one stored number, `level + rate * time`. `Ledger.dfy` is the in-memory form: a
class over a mutable map that deletes drained entries and, on overflow, arbitrary ones. `RedisPath.dfy` is the Redis form,
command by command, with the server time of every command and key lifetimes. `Agreement.dfy` proves that both report the same
levels over every run, also when keys vanish between two commands of one call. `History.dfy` states what a level means:
the largest excess of charges over leak among all windows. `Interleaving.dfy` lets the commands of many concurrent calls
interleave, lag behind and die, and says exactly when a charge can get lost; `Overlap.dfy` does so for any number of
overlapping calls answered in order.

**Worker pool** (`WorkQueue`, `PoolSteps`, `PoolShape`, `PoolOwnership`, `PoolWakeups`, `PoolRuns`, `PoolProgress`,
`PoolVariant`, `PoolRest`, `PoolAnswers`, with `Sequences` for what keeps its order). `WorkQueue.dfy` is the queue as a class over an array, with the compaction that writes into
the slice it is reading. `PoolSteps.dfy` is the pool as a transition system: submitters, workers, the sweeper, wait timers
and Close, each locked section one atomic step, one condition variable for all. Safety holds over every run: each task is
in one place, no wakeup is lost or wasted, Close drains, and every answer means what it says: served in time, late, or over
the limit. Progress is proved too: an unanswered task always leaves some
thread able to move, after the last submission the number of moves is bounded by a polynomial in the number of threads,
and when no thread can move any more every task is answered.

**Decision chain** (`Counters`, `Subjects`, `Prior`, `Judge`, `Phases`, `Chain`). Validation of counters, the gathering of
subject keys, what neighbours ask, the loop over the rules, one phase's charges and reads, and the properties that span
all of them: a rule is never judged by a level nobody returned, notes move a percentage by exactly their sum, and more
charges never soften a decision.

**Audit sink, generation swap, body loader** (`AuditSink`, `Generation`, `BodyLoader`). A drop-oldest buffer with
batching and grouping; the replacement of the profile tree with a rollback that may itself fail; a batched fetch that
equals the pointwise one.

## Where the code does less than one might expect

- A Redis key may vanish before a call once its lifetime has passed, but within a charging call only strictly later.
  Exactly which disappearances do harm is told from the value stored before the call
  (`Agreement.ChargeAgreesExactly`); at exactly the lifetime it is the one case of `Agreement.AtExactlyTheLifetime`, of
  which `Agreement.ExactLifetimeIsTooEarly` is an instance.
- Corrections of concurrent calls may erase a charge (`Interleaving.CorrectionsMayEraseACharge`). With two calls under
  way at one clock reading this is possible if and only if the bucket had drained
  (`Interleaving.ChargesAreSafeExactly`); if the calls are answered in the order of their increments, if and only if
  it had drained and the sum stays within the cap (`Overlap.InOrderExactly`, for any number of calls).
- `ScaleScore` passes a score above 100 through when the percent is zero. It fits the reply in exactly the other cases
  (`Judge.ScaledFits`); validated rules never get there (`Judge.ValidScoreFits`).
- Installing a generation ignores a failed removal of `.next`. What goes live is the manifest if and only if no file was
  left there that the manifest does not have (`Generation.Apply`); `Generation.ResidueCanGoLive` is a successful call in
  which such a file goes live.
- Two buckets share a key if and only if some enabled kind is another one followed by a colon and perhaps more
  (`Counters.KeysInjectiveExactly`), as with counters named `x` and `x:ip` (`Counters.NamesMatter`); validated names rule
  it out (`Counters.ValidKeysInjective`).

## Model

| member | source | states |
|---|---|---|
| Tiers.MarkMoves | internal/buckets/buckets.go:20-30 | the product rate times time grows with the clock, and a key lives exactly as long as a full bucket needs to drain |
| Refs.BeforeIsStrictOrder | internal/buckets/buckets.go:135-141 | the comparison given to the sort is a strict total order on kind and key |
| Refs.LexIsDictionary | internal/buckets/buckets.go:135-141 | strings are compared at the first place where they differ, and one that ends before comes first |
| Refs.RefUnion | internal/buckets/buckets.go:110-144 | the result is ascending and holds exactly the charged and read buckets whose tier is enabled and whose key is not empty |
| Refs.UnionIsUnique | internal/buckets/buckets.go:110-144 | there is only one such list, so neither the order nor repetitions of charges and reads matter |
| Refs.Sum | internal/buckets/buckets.go:156-160 | the map holds, for each charged bucket and no other, the sum of its charges |
| Refs.SumOfAppend | internal/buckets/buckets.go:292-296 | one charge more adds its amount to its own bucket's sum and to no other |
| Refs.ChargeOnPermutation | internal/buckets/buckets.go:156-160 | the charge on every bucket depends only on the multiset of charges |
| Refs.LiveKeepsSums | internal/buckets/buckets.go:89-95 | dropping zero charges and disabled tiers changes no sum on an enabled bucket |
| BucketStore.Live | internal/buckets/buckets.go:89-95 | keeps, in order, exactly the charges that are not zero and whose tier is enabled |
| BucketStore.Store.Apply | internal/buckets/buckets.go:81-144 | every charge that is not zero and every read, with a key and a tier that can hold and lose something, gets a level for its bucket, no other bucket does, and none gets two; without Redis the ledger's levels and map, with Redis the pipeline's; with nothing wanted no level and no change |
| BucketStore.LedgerCall | internal/buckets/buckets.go:286-338 | in numbers, for every bucket of a call: what is left above the mark, `loss` percent of the capacity per second, is clamped, raised by the sum of the charges and clamped again; that is the score and, over the capacity, the percent reported; a charged bucket stores it plus the mark, an empty one goes, any other keeps its entry, unless the sweep takes it |
| BucketStore.OrderIsIrrelevant | internal/buckets/buckets.go:81-144 | calls with the same multiset of charges and the same set of reads visit the same buckets with the same charges |
| Ledgers.Ledger.Touch | internal/buckets/buckets.go:303-325 | one bucket's turn: the reported fill, and the map after writing, deleting or leaving the entry |
| Ledgers.Ledger.Apply | internal/buckets/buckets.go:286-338 | the levels of all buckets in order, the new map up to the sweep, and at most `max` entries afterwards |
| Ledgers.Ledger.Evict | internal/buckets/buckets.go:327-335 | the sweep only removes entries, whichever, and leaves exactly half the limit |
| Ledgers.VisitedAt | internal/buckets/buckets.go:303-325 | with keys apart, a bucket's level and next entry depend on that bucket alone |
| RedisPath.RunCommands | internal/buckets/buckets.go:165-182 | what SETNX, INCRBYFLOAT and PEXPIRE, or GET, do to one key and answer, each at its own server time |
| RedisPath.AssessAll | internal/buckets/buckets.go:188-218 | the fills told to the caller and exactly the corrections the answers call for |
| RedisPath.ApplyRedis | internal/buckets/buckets.go:146-232 | the levels and the keyspace after the pipeline and the corrective SETs |
| RedisPath.RedisAt | internal/buckets/buckets.go:146-240 | with keys apart, a bucket's level and next entry depend on that bucket alone, in spite of the two phases |
| Agreement.CallAgrees | internal/buckets/buckets.go:165-240 | on one bucket a call reports the same fill in both forms and keeps them in step, for charges of either sign, also when the key vanished before or during the call |
| Agreement.RunsAgree | internal/buckets/buckets.go:146-338 | over every run with a clock that does not run back, both forms report identical levels, call by call; expiry cannot be observed |
| Agreement.PromptRunsAgree | internal/buckets/buckets.go:146-338 | the same with no timing condition left when the server runs each command at the caller's clock reading |
| Agreement.ChargeAgreesExactly | internal/buckets/buckets.go:165-240 | a charging call reports the ledger's fill and leaves the ledger's fill behind if and only if the key stayed, or its value before the call makes its disappearance harmless |
| Agreement.GoneBeforeIncrement | internal/buckets/buckets.go:172-174 | for a key gone between SETNX and INCRBYFLOAT the exact condition on the stored value and the charge |
| Agreement.GoneBeforeExpire | internal/buckets/buckets.go:173-175 | for a key gone between INCRBYFLOAT and PEXPIRE the answer is right in any case, and the key comes back if and only if the stored value was below the mark or the sum exceeds the cap |
| Agreement.AtExactlyTheLifetime | internal/buckets/buckets.go:24-30 | at exactly the lifetime harm is done if and only if the bucket was full after its last charge, went after the increment, and the new charge is one it could hold |
| Agreement.ExactLifetimeIsTooEarly | internal/buckets/buckets.go:24-30 | an instance: a key that vanishes mid-call at exactly its lifetime takes the new charge with it |
| Chain.ValidatedRunsAgree | internal/config/counters.go:214-264 | validated counters supply the one condition on keys, so the two forms agree on every timed run |
| History.LevelHasWindow | internal/buckets/buckets.go:303-325 | a level above zero is only reported if the charges of some recent window exceed the leak by as much |
| History.LevelIsLargestWindow | internal/buckets/buckets.go:303-325 | while the cap never bites, the level reaches `x` if and only if some window's excess does |
| Runs.WithinBudget | internal/buckets/buckets.go:22-22 | in a run of the whole store, a subject whose every window stays within `x` plus the leak is never shown above `x` |
| Runs.SlotOfRun | internal/buckets/buckets.go:286-338 | a bucket of the store is the bucket of its own history, whatever happens to the others |
| Runs.HeavierRunIsFuller | internal/buckets/buckets.go:303-325 | when each call of a second run charges every bucket at least as much at the same instant, every bucket is at least as full, whatever other buckets the calls of either run visit |
| History.SplitCharges | internal/buckets/buckets.go:292-318 | non-negative charges split over several calls at one instant fill the bucket like their sum |
| Runs.EvictionOnlyForgets | internal/buckets/buckets.go:327-335 | whichever keys the sweep picks, later levels are at most those of a store that never evicts, and at most `max` entries remain |
| Runs.LedgerWithinBudget | internal/buckets/buckets.go:303-335 | the window bound for the ledger that sweeps: whatever it evicts, a subject whose every window stays within `x` plus the leak is never shown above `x` |
| Runs.NoSweepNoLoss | internal/buckets/buckets.go:327-335 | until the limit is exceeded the ledger is exactly the store that never evicts |
| Eviction.NothingGoesMissing | internal/buckets/buckets.go:286-338 | for one bucket and any sweeps after the events of its history: charged is held plus leaked, spilled at the cap and forgotten, and no account is negative |
| Runs.LedgerIsSwept | internal/buckets/buckets.go:327-335 | in every run of the ledger a bucket is as full as its history of calls with the sweeps read off the run, also those that calls on other buckets trigger |
| Runs.LedgerBooksBalance | internal/buckets/buckets.go:286-338 | in every run of the ledger, everything charged to a bucket is held, leaked, spilled at the cap or forgotten by the sweep |
| Interleaving.OverfullIsOwed | internal/buckets/buckets.go:162-240 | in every interleaving, a stored value above a full bucket was seen by the call that incremented last, which still owes its SET |
| Interleaving.QuietMeansAtMostFull | internal/buckets/buckets.go:162-240 | once every call has completed, the bucket is at most full |
| Interleaving.CallersAreTold | internal/buckets/buckets.go:203-222 | however commands interleave, a caller is told at least its own charge and at most a full bucket |
| Interleaving.StoredIsAccounted | internal/buckets/buckets.go:165-240 | in every interleaving in which the key stays, the stored value is one caller's base plus every increment less what the corrections erased, so charges are missing exactly as far as corrections erased them |
| Interleaving.UncorrectedLosesNothing | internal/buckets/buckets.go:165-176 | while no answer calls for a correction and the key stays, the stored value is one base plus every increment |
| Interleaving.UndrainedLosesNothing | internal/buckets/buckets.go:162-240 | over a bucket not yet drained, no interleaving of any number of calls at one clock reading loses a charge, corrections at the cap included |
| Interleaving.ChargesAreSafeExactly | internal/buckets/buckets.go:203-222 | with two calls about to increment, every interleaving keeps all charges if and only if the stored value is at or above the mark |
| Interleaving.DifferentClocksLoseNothing | internal/buckets/buckets.go:162-240 | calls with different clock readings, over a bucket not drained at the latest and with increments that fit the cap at the earliest: every interleaving leaves exactly what was stored plus all increments |
| Interleaving.CorrectionsMayEraseACharge | internal/buckets/buckets.go:205-222 | an instance: over a drained key two simultaneous charges leave only one in the bucket |
| Overlap.InOrderExactly | internal/buckets/buckets.go:203-240 | any number of calls that all increment before the first is answered, and are answered in that order, leave the sum of their charges if and only if the bucket had not drained or the sum exceeds the cap |
| Overlap.LastCorrectionCounts | internal/buckets/buckets.go:220-229 | the value after all answers is that of the last correction sent, if there was one |
| WorkQueue.Queue.Append | internal/queue/queue.go:167-171 | the queue is the old one with the new entry at its end, whether or not the buffer had to grow |
| WorkQueue.Queue.Pop | internal/queue/queue.go:289-293 | returns the oldest task and leaves the others |
| WorkQueue.Queue.TakeExpired | internal/queue/queue.go:185-222 | returns exactly the tasks whose deadline, less the time waited and the reserve, leaves less than the minimum, keeps exactly the others, both in order, and together they are the queue as it was |
| WorkQueue.Queue.Compact | internal/queue/queue.go:197-216 | the compaction writes the tasks to keep over the slice it is reading |
| WorkQueue.Queue.Fill | internal/queue/queue.go:173-179 | the percentage rounded down, and 100 exactly when the queue is full |
| WorkQueue.SplitMembers | internal/queue/queue.go:185-222 | a queued task is kept or expired, never both, by what is left of its own deadline |
| WorkQueue.KeptWithin | internal/queue/queue.go:197-222 | compaction never changes the order, also relative to tasks that left before |
| PoolShape.RunKeepsShape | internal/queue/queue.go:88-336 | in every reachable state each thread is at a place of its kind, holds what it should, the queue fits `depth`, and a finished worker saw the pool closed and empty |
| PoolOwnership.RunOwned | internal/queue/queue.go:88-336 | in every reachable state each submitted task is in exactly one place: a hand, the queue, a dead batch, or answered |
| PoolRuns.AnsweredAtMostOnce | internal/queue/queue.go:260-336 | the handler was called at most once per task, only for submitted tasks, and never for one still in the pool |
| PoolRuns.NoTaskIsLost | internal/queue/queue.go:88-336 | a submitted task not yet answered is queued, in a batch or in some thread's hands |
| PoolRuns.CloseDrains | internal/queue/queue.go:235-258 | when Close and all submitters have returned, every task was answered exactly once and the queue is empty |
| PoolRuns.CountersAreExact | internal/queue/queue.go:167-336 | `Accepted` equals the number of enqueues, `Expired` and `Shed` the numbers of answers with their reason, wherever they are counted |
| PoolAnswers.AnswersMean | internal/queue/queue.go:260-336 | over every run: a worker serves the task in its hand if enough of its deadline is left and else answers it as expired; a batch is answered as expired and every task in it is late; a submitter is answered as expired only if late, timed out or closed out, and as over the limit only if it found the queue full and open and the pool does not wait; no other step answers |
| PoolAnswers.LockSettles | internal/queue/queue.go:98-165 | under the lock a submitter is refused as expired by a closed pool, enqueued if there is room, shed by a full pool that does not wait, refused as expired if late or timed out, and waits with a timer in every other case |
| PoolAnswers.FirstLook | internal/queue/queue.go:88-95 | a task late on arrival is refused as expired before it reaches the queue, and no other is |
| PoolAnswers.EntersExactly | internal/queue/queue.go:98-171 | a task enters the queue exactly when its submitter finds the pool open and room in it |
| PoolAnswers.PopTakesFirst | internal/queue/queue.go:282-306 | a worker takes the first queued task with enough of its deadline left, and none only if all are late |
| PoolRuns.FirstInFirstOut | internal/queue/queue.go:282-306 | tasks leave in the order they entered, expiry only leaves some out, and the queue never exceeds `depth` |
| PoolWakeups.SignalsAreNotWasted | internal/queue/queue.go:167-171 | whenever an enqueue signals, no submitter sleeps, so the signal can only reach a worker |
| PoolWakeups.NoLostWakeup | internal/queue/queue.go:130-147 | a sleeping submitter faces a full, open queue; a sleeping worker leaves no task unattended; a non-empty queue has a worker that is up |
| PoolWakeups.RunKeepsAttention | internal/queue/queue.go:282-306 | while any worker sleeps, the queue is no longer than the number of workers notified and not yet resumed |
| PoolProgress.UnansweredMeansMovable | internal/queue/queue.go:88-336 | with an unanswered task some thread can always move, without the help of a timer |
| PoolProgress.ClosingMeansMovable | internal/queue/queue.go:235-258 | while Close waits somebody can move |
| PoolVariant.MovesComeOutOfBudget | internal/queue/queue.go:122-306 | while nothing is submitted, every move, timer and Close step lowers a number that no other step raises |
| PoolVariant.MovesAreBounded | internal/queue/queue.go:122-306 | after the last submission only so many moves follow as `MoveLimit` allows for the number of threads, submitters that have returned included: no livelock of waking and sleeping |
| PoolVariant.MoveLimitIsQuadratic | internal/queue/queue.go:122-306 | that limit is `7n(3n+1)+3n` for `n` threads |
| PoolRest.RestMeansAnswered | internal/queue/queue.go:88-336 | after the last submission a state in which no thread can move has every submitted task answered, and lies within the limit of moves |
| PoolRest.EveryTaskGetsItsAnswer | internal/queue/queue.go:88-336 | from every reachable state the threads' own moves, without clock, timer or submission, lead to the answer of every submitted task within the limit |
| Counters.Validate | internal/config/counters.go:214-264 | accepts exactly the configurations with a counter, all of them good, and a good shared source of users |
| Counters.GoodCounterExactly | internal/config/counters.go:219-255 | a good counter has a plain name, is filled by measuring or notes, and has axes, all known, each with a positive capacity, a loss of at most all of it a second, and a source if it is that of users |
| Counters.GoodNameExactly | internal/config/profile.go:59-59 | letters, digits, dots, underscores and dashes, the first a letter or a digit |
| Counters.GoodFromExactly | internal/config/counters.go:66-84 | nothing, a named cookie, a named header, or one of two fields of the session |
| Counters.FilledBy | internal/config/counters.go:160-167 | in a valid configuration notes fill the counters that say so, and measuring fills all others |
| Counters.TiersOf | internal/config/counters.go:120-130 | one tier per declared counter and axis, and no other |
| Counters.AxesOf | internal/config/counters.go:132-147 | every axis of the counter, once |
| Counters.NoteAxes | internal/config/counters.go:169-195 | of the axes a word on the wire reaches, the address, the network and its router, or the session, those the counter has, once each |
| Counters.CutJoined | internal/config/counters.go:100-100 | cutting a joined kind at its first colon gives counter and axis back |
| Counters.ValidKeysInjective | internal/config/counters.go:219-239 | usable buckets of a valid configuration never share a key, whatever the subjects' keys contain |
| Counters.KeysInjectiveExactly | internal/buckets/buckets.go:77-79 | usable buckets have distinct keys if and only if no enabled kind is another enabled kind followed by a colon and perhaps more |
| Counters.NamesMatter | internal/config/profile.go:59-59 | an instance: without the rule on names two usable buckets share a key |
| Counters.DeclaredIsEnabled | internal/config/counters.go:231-247 | each declared axis has its own tier under its kind, and it is enabled |
| Subjects.SubjectsOf | cmd/inspector/subjects.go:72-163 | the one-pass gathering gives every asked axis the key it would have alone, and no axis a wrong or an empty one |
| Subjects.ResolvedSubjects | cmd/inspector/subjects.go:114-163 | the key of every axis in terms of the request: a host prefix by the form of the address, the named connection, the resolved network and router, and a digest of what the session cookie or the user source holds, the counter's own before the shared one; nothing for what is unknown |
| Prior.EvaluatePrior | internal/decide/prior.go:49-82 | the nested loops compute the skip, the notes, one outcome per delivered action, and the sum of accepted deltas kept between -100 and 900 |
| Prior.OneMoreAction | internal/decide/prior.go:64-96 | an action more is a delivery more, unless it is a note recorded in another phase; a note of the request counts in the response while the request phase is off |
| Prior.ThresholdMovesPercent | internal/decide/prior.go:116-135 | a threshold moves the unclamped percent by its delta times the number of rules that name the sender, accept thresholds, and do not restrict scope or code to others |
| Prior.OthersLeavePercent | internal/decide/prior.go:127-131 | nothing else moves the percent, and the answer is a skip if and only if some rule accepts a skip |
| Prior.NoteMovesAxis | internal/decide/prior.go:116-176 | a note adds its value to each axis it reaches and the counter has, once for every rule that charges the counter and accepts it |
| Prior.Deliver | internal/decide/prior.go:98-143 | one action against all rules: what each takes, and the reason if none does |
| Prior.OutcomesAccountForPercent | internal/decide/prior.go:124-131 | the unclamped percent is what the outcomes report as taken, and what the rules accept |
| Prior.OneOutcomeEach | internal/decide/prior.go:98-143 | every delivered action is reported once, in order, with what was taken of it |
| Prior.OutcomeSays | internal/decide/prior.go:103-187 | the outcome is no rule if none accepts the action, no counter if it is a note that only reaches axes the counters lack, and applied otherwise |
| Prior.OutcomeTook | internal/decide/prior.go:127-187 | the amount reported is the delta or the value once per rule that takes it, and nothing for a skip |
| Prior.NotesAddUp | internal/decide/prior.go:145-176 | the notes on an axis add up to the values of the matching notes, once per rule and axis |
| Prior.NotesAreReal | internal/decide/prior.go:145-176 | every note charged has the value, code and sender of a delivered one, is not empty, and goes to the counter of a rule that names the sender, on an axis the note reaches and the counter has |
| Prior.OnePhaseExactly | internal/decide/prior.go:84-96 | a note belongs to two phases if and only if the request phase is off, the two are request and response, and it was recorded in the request |
| Prior.NotesAreChargedOnce | internal/decide/prior.go:66-72 | with the request phase on, two phases together deliver no note more often than the entries carry it |
| Prior.OrderIsIrrelevant | internal/decide/prior.go:49-143 | skip, percent and the sum of notes on every axis do not depend on the order of the actions |
| Judge.Decide | internal/decide/decide.go:61-117 | enforcing, the answer is what the fired rules decide; observing, it is allow with no score and no deny response, and any other verdict is kept aside with its score and code; the audit has a row per rule with its reading, its code and whether it fired |
| Judge.FiredCount | internal/decide/decide.go:80-104 | a rule fires, as often as it is listed, if and only if its subject has a key and the level is at least the threshold |
| Judge.LastDenierDecides | internal/decide/decide.go:127-148 | the last rule reached that denies makes it a denial with its code, or the default one |
| Judge.FirstHighestDecides | internal/decide/decide.go:127-148 | with no denial the first among the rules reached with the highest score gives score and code |
| Judge.NothingReachedAllows | internal/decide/decide.go:69-69 | with no rule reached the decision is allow |
| Judge.Take | internal/decide/decide.go:127-148 | taking one more fired rule turns the decision for the rules so far into that for one more |
| Judge.DecisionIsUnique | internal/decide/decide.go:61-148 | the fired rules determine the whole decision |
| Judge.OrderIsIrrelevant | internal/decide/decide.go:61-148 | verdict and score do not depend on the order of the rules |
| Judge.HigherIsHarder | internal/decide/decide.go:61-148 | higher levels never lead to a softer decision: a denial stays one, allow comes from allow, and scores do not fall |
| Judge.ScaledFits | internal/decide/prior.go:189-201 | the scaled score is within 0..100 unless the percent is zero and the score above 100, and only then not |
| Judge.ScaledIsNearest | internal/decide/prior.go:189-201 | the scaled score is the whole number nearest to the product, halves rounded up, between 0 and 100; it is 0 for a score that is not positive, and any score passes at no percent |
| Judge.ScaleKeepsOrder | internal/decide/prior.go:189-201 | scaling by the same percent keeps the order of scores |
| Judge.ScaleGrowsWithPercent | internal/decide/prior.go:189-201 | a higher percent never lowers a score that fits |
| Judge.ValidScoreFits | internal/config/profile.go:904-941 | with validated rules the scaled score of the decision fits the reply, whatever the neighbours ask |
| Phases.Run | internal/measure/measure.go:35-76 | one value for each rule that found something, its amount times the weight, on the rule's axes or all |
| Phases.ValuesAreMeasured | internal/config/profile.go:1031-1094 | in a validated profile values go only to counters that measuring fills, on axes they have |
| Phases.BuildMeasureCharges | cmd/inspector/frame.go:133-148 | the charges of all measured values on all axes with a key, in order |
| Phases.BuildNoteCharges | cmd/inspector/handler.go:542-582 | one charge per note whose subject has a key, its percentage of the bucket's capacity |
| Phases.Ask | cmd/inspector/frame.go:128-189 | every watched subject with a key is in the levels returned, and each level includes what the same phase charges, in memory as in Redis |
| Phases.PercentInNumbers | internal/buckets/buckets.go:303-325 | the percent a phase judges by, in numbers: what the bucket held at the phase's mark plus what the phase charges it, clamped, over the capacity |
| RedisPath.OwnChargeIsTold | internal/buckets/buckets.go:203-218 | whatever Redis held and whenever the key vanishes, the fill told is at least the call's own charge and at most the capacity |
| Phases.WatchedFound | cmd/inspector/handler.go:201-247 | for a profile and counters validated together every rule and every level outcome with a key finds its bucket among the levels returned |
| Chain.Conclude | cmd/inspector/handler.go:258-283 | enforced, the reply is the decision with its score scaled; observed, it is allow with the scaled decision kept aside; a frame that passes without a reason is said to be measured; an internal error in exactly one case, which validated rules exclude |
| Chain.WatchedIsRead | cmd/inspector/handler.go:249-256 | a rule with a key reads exactly the level returned for its bucket, never the default zero, and fires if and only if that is at least its threshold; one without a key does not fire |
| Chain.ProbeIsRead | cmd/inspector/handler.go:249-256 | a level outcome with a key reads exactly the level returned for its bucket |
| Chain.JudgePhase | cmd/inspector/frame.go:133-257 | from notes and values to the reply: a rule counts as fired if and only if its subject has a key and its bucket's percent, this phase's charges included, is at least its threshold, in memory as in Redis, and the reply shows what these rules decide; a skip answers at once, in a frame after charging |
| Chain.MeasureMovesBucket | internal/measure/measure.go:50-68 | a measure more charges its counter's bucket on each axis it names, or on all the counter has, with what it found times its weight, and no other bucket |
| Chain.MeasureSparesNotes | internal/config/profile.go:1049-1053 | measuring never charges a counter that notes fill |
| Chain.NotesCharge | cmd/inspector/handler.go:542-582 | the notes on a bucket are charged once each |
| Chain.NotesMovePercent | cmd/inspector/handler.go:542-582 | notes move the shown percent from P to P plus their sum, clamped once to 0..100 |
| Chain.DeliveredNotesMovePercent | internal/decide/prior.go:49-176 | from the actions delivered to the percent shown: with validated counters it moves by the sum of the matching values, clamped once |
| Chain.ReportedIsLevelAfter | internal/buckets/buckets.go:303-325 | what a call reports is what a reading right after it would show |
| Chain.HeavierRunIsHarder | cmd/inspector/handler.go:249-258 | with larger charges at the same instants no decision taken at any later reading gets softer, before or after scaling |
| Chain.ReadAfterRun | cmd/inspector/handler.go:249-256 | what a rule reads of the levels its own call returned is the level of the whole run of calls at that moment |
| Chain.HeavierCallIsHarder | cmd/inspector/handler.go:233-258 | the same for the decision the code takes, on the levels its own last call returned |
| AuditSink.Sink.Add | internal/audit/sink.go:65-99 | appends the event, on overflow drops the oldest pending ones and counts them; accepted minus dropped stays sent, in flight, pending |
| AuditSink.Sink.TakeBatch | internal/audit/sink.go:130-154 | takes the oldest pending events, 256 or all there are, and recomputes the size |
| AuditSink.Sink.PublishBatch | internal/audit/sink.go:156-168 | one message for every subject of the batch with all its events and only those, keeping every subject's events in order on the wire |
| AuditSink.Sink.Flush | internal/audit/sink.go:130-154 | everything pending is sent, in order, and nothing is dropped |
| AuditSink.Sink.NothingIsLost | internal/audit/sink.go:77-154 | every accepted event was sent, is in flight, is pending or was dropped and counted, and those not dropped keep their order |
| AuditSink.Sink.WireKeepsOrder | internal/audit/sink.go:65-183 | for each subject the wire, the batch in flight and the pending events are the accepted events not dropped, in order |
| AuditSink.GroupBySubject | internal/audit/sink.go:170-183 | subjects in order of first appearance, each with exactly its events in their order |
| AuditSink.OnlyCount | internal/audit/sink.go:170-183 | the events of a subject are those that have it, each as often as it occurs |
| AuditSink.OnlyWithin | internal/audit/sink.go:170-183 | and they are in the order of the batch |
| AuditSink.FirstComesFirst | internal/audit/sink.go:170-183 | of two subjects the one that appears first goes out first |
| AuditSink.BatchOnWire | internal/audit/sink.go:156-183 | the messages of a batch carry, for each subject, exactly its events in their order |
| AuditSink.BuryRemoves | internal/audit/sink.go:81-86 | dropping removes exactly a stretch of the surviving events and is counted |
| Generation.Store.ReloadFrom | internal/config/profiles.go:116-134 | publishes what the directory holds, or keeps directory, snapshot and generation number |
| Generation.FileSystem.Write | internal/desired/desired.go:201-222 | succeeds exactly when none of its directories and files fails, and then the staging directory holds the manifest over what was left there; live and parked trees are untouched throughout |
| Generation.Apply | internal/desired/desired.go:143-199 | whichever steps fail, a whole generation is live or parked at every moment; an error keeps the snapshot; it succeeds exactly when no step up to loading fails and the tree loads, and then publishes what is live, which is the manifest iff clearing left nothing foreign |
| Generation.RollBack | internal/desired/desired.go:184-194 | a generation that does not load gives way to the parked one, which is never lost, and the snapshot keeps its content |
| Generation.WrittenIsTree | internal/desired/desired.go:152-158 | the written tree is the manifest's if and only if every file left behind is one the manifest writes |
| Generation.ResidueCanGoLive | internal/desired/desired.go:150-152 | a call of `Apply` that succeeds although the removal of an abandoned file fails, and puts that file live |
| BodyLoader.LoadMany | internal/body/body.go:86-161 | the batched fetch answers for every locator as the single fetch does, whatever the mix of absent, unavailable and differently stored ones |
| BodyLoader.LoadSays | internal/body/body.go:58-84 | the single fetch case by case: empty, unavailable with its reason, a fault that names why nothing could be fetched, or what was fetched and checked |
| BodyLoader.Scan | internal/body/body.go:102-122 | the batch collects positions of one driver and store, and everything else is loaded on the spot |
| BodyLoader.RedisAgrees | internal/body/redis.go:32-79 | the Redis body store meets the condition under which this holds |
| BodyLoader.RedisLoads | internal/body/redis.go:32-45 | a fault for another driver, for a server that does not answer and for an absent key, otherwise what the server holds |

## Left out

- Floating point: amounts are exact reals; rounding of the stored text form and of IEEE arithmetic is not modelled.
- Times: lifetimes are exact, their truncation to milliseconds is not modelled; integers are unbounded.
- Network errors in the bucket pipelines: a call that fails is modelled only in `Interleaving`, as a call that dies at
  any point; a sequence of calls in `Agreement` is one in which no command fails.
- Agreement of the two bucket forms when the clock runs backwards or tiers change between calls: the code does not
  promise it.
- Agreement.RunsAgree: the expiry conditions compare the client's clock with the lifetime; skew between client and
  server beyond them is not covered.
- BodyLoader.LoadMany: assumes a store whose bulk fetch agrees with its single fetch at the moment of the call.
- The interleaved model follows one key; calls on different keys do not interact.
- Pool: the handler call and the counter increment beside it are one step; a timer may fire at any time once armed;
  the throughput statistics are left out. The sweeper's ticks are steps that may happen at any time.
- Queue capacity growth: the buffer at least doubles, the exact growth of the Go slice does not show in the contents.
- The order in which maps are iterated is left open, so results hold for every order.
- YAML and regular expressions, cookie and header parsing, content-type matching: what a source or a selector yields is
  a parameter (`Sender.valueOf`, the amounts of `Phases.Run`).
- Hashing and encryption: `Sender.hash` and `Loader.finish` are arbitrary functions; keys are assumed not to hash to the
  empty string.
- Session cookies and user sources of a counter are names only; validation of the `from` syntax is modelled, the reading
  of sessions is not.
- `Fire`, `FireOverload` and the copying of outcomes into actions and list writes, audit rows and log lines: one-branch
  copies.
- A phase's early returns (profile off, phase disabled, resolver missing, store failed) end before the buckets are
  touched and are not modelled.
- Profile validation is modelled as far as rules, measures and notes depend on it; the long list of outcome verbs is not.
- Audit sink: encoding an event and an error from the connection; an event counts as sent when it is handed over.
- Generation: the probe profile read from the bootstrap directory, the fingerprint, parsing of the manifest and its hash;
  whether a tree loads is a parameter. A concurrent reload by the watcher is excluded.
