# HiCollie watchdog: a verified model

HiCollie is a software watchdog. One watchdog thread keeps a queue of tasks ordered by deadline,
runs probes on the threads it watches, escalates when they do not answer, and samples the main
thread's stack from a signal handler. This project models the parts that are state machines or
algorithms, and proves what holds over every run of them.

| file | what it models |
|---|---|
| `SamplerRing.dfy`, `SamplerSessions.dfy`, `SamplerRecords.dfy`, `SamplerIndices.dfy`, `ThreadSampler.dfy` | the two-slot sampling ring shared by the watchdog thread and a signal handler; every load and store of a shared field is a step |
| `Scheduler.dfy`, `SchedulerSafety.dfy`, `SchedulerPace.dfy`, `SchedulerRuns.dfy`, `SchedulerRequests.dfy`, `WatchdogInner.dfy` | the task queue, the name registry, the capacity check, the fetch, run and re-insert loop, wake-ups |
| `SchedulerNames.dfy`, `SchedulerLimits.dfy`, `SchedulerWrap.dfy`, `SchedulerCounters.dfy`, `SchedulerMisses.dfy` | exactly when names stay unique, bounds that are attained, very long intervals, timer counters inside runs and the triggers they miss |
| `HandlerProbe.dfy`, `LowMemory.dfy`, `WatchdogTask.dfy`, `WatchdogChecks.dfy`, `Escalation.dfy` | the probe and its verdicts, the low-memory deferral, the decisions of a check, and scheduler and probe together |
| `Unsigned.dfy` | 64-bit subtraction and the word sizes |
| `TimerCount.dfy` | the pruned trigger log against a reference that keeps everything |
| `BinderGraph.dfy`, `BinderTrail.dfy`, `BinderChain.dfy` | the graph of binder calls, the account of a walk, and the depth-first search itself |
| `StringSplit.dfy` | the string splitters |
| `SampleStackMap.dfy` | the three-entry cache against a partial map |
| `JankSession.dfy` | jank configuration and the length of a sampling session |

The step functions (`Apply`, `Push`, `Take`, ...) are the shared vocabulary. The classes
`ThreadSampler`, `WatchdogInner`, `HandlerChecker`, `WatchdogTask`, `CallChain`,
`SampleStackMap`, `JankParams` and `StackContent` update their fields in place, as the program does; each method is proved to
take the step of its machine, and the lemmas are about all runs of the machine.

## Results that go against expectation

- One failed signal system call, or one handler that finds the stack pointer outside the stack,
  ends sampling for the session: the slot stays requested and no later request gets through. In
  every session the ring is blocked exactly if that has happened (`WedgedIffLost`).
- `Deinit` neither resets the ring indices nor cancels a queued signal. If a session starts with the
  indices apart, stacks are listed out of order; if it starts with a signal left over, a published
  stack can be overwritten before it is listed. Listing in order holds exactly when the indices start
  equal and no signal is left over (`InOrderIff`). So a session leaves the next one in order exactly
  if none of its signals is still undelivered then and the number of its unlisted stacks is not one
  (`NextSessionInOrderIff`); both failures can happen (`ApartReachable`, `StrayReachable`).
- The queue is checked against 128 entries, but re-insertion is not. The true bound on pending
  tasks is 129 (`CapacityBound`), and it is attained (`CapacityAttained`).
- Two pending periodic tasks can share a name (`DuplicatesReachable`). In every run that happens
  exactly when a name is registered that a pending periodic task still bears (`NamesUniqueIff`),
  which needs a name erased, or released by a retired one-shot, while its task is pending
  (`RegistryIff`). When a sampling task erases its own name in flight, nothing goes wrong exactly if
  the name is not asked for before the task comes back; then the task is dropped
  (`ErasedDoublesIffAsked`).
- A timer whose timeout is a multiple of 2^32 is narrowed to 0 and can never be cancelled
  (`CancelWorksIff`).
- Intervals close to 2^64 make ticks run backwards (`MovesBackIff`), and from 2^63 on twice the
  interval wraps. The tick law and the rate bound hold exactly for the intervals of `PlainLawIff`
  and `RateIff`, which depend on the range of the clock.
- The time from posting a probe to the decision to kill is at least two intervals less the
  lateness of the posting check (`KillDelay`). That lateness may be two intervals, and then no time
  need pass at all (`ZeroDelayIsPossible`).
- A probe that the handler refuses to queue escalates to a kill by itself, in every run
  (`RefusedPostEscalates`). A false verdict of a block is passed exactly after such a refusal
  (`FalseBlockIffRefused`).
- A trigger sent to a counter while that is in flight is lost, and a burst with it (`MissedBurst`).
  Counters that can report at all are open to this (`AlwaysAgreesIff`); a run in which nothing is
  sent in flight is safe (`CounterAgreesOnSent`).

## Model

| member | source | states |
|---|---|---|
| SamplerRing.StepKeepsCore | frameworks/native/thread_sampler/thread_sampler.cpp:249-402 | every access of either thread, a failed signal and a bail-out included, keeps the ring invariant: the unlisted stacks sit intact in order from the read position, at most one request is under way, and it is for slot writeIndex |
| SamplerRing.StepKeepsHistories | frameworks/native/thread_sampler/thread_sampler.cpp:279-402 | every step keeps the listed stacks a prefix of the published ones, each published stack a whole capture with strictly growing capture numbers; both histories only grow |
| SamplerRing.StepKeepsSubmitters | frameworks/native/thread_sampler/thread_sampler.cpp:315-322 | every step keeps the k-th recorded submitter id from the same capture as the k-th published stack, and the number of ids at the number of captures or the capacity |
| SamplerSessions.RunKeepsInv | frameworks/native/thread_sampler/thread_sampler.cpp:249-402 | the whole invariant holds in every state of every interleaving |
| SamplerSessions.HistoriesOnlyGrow | frameworks/native/thread_sampler/thread_sampler.cpp:321-384 | nothing published or listed is ever taken back or changed later in a run |
| SamplerSessions.SessionSafety | frameworks/native/thread_sampler/thread_sampler.cpp:249-402 | from a zeroed ring with equal indices and no signal left over, in every interleaving: the list is a prefix of what was published, none twice, none torn or overwritten, at most two unlisted, at most one undelivered signal and that one for slot writeIndex |
| SamplerSessions.SubmitterPairing | frameworks/native/thread_sampler/thread_sampler.cpp:315-319 | for every i below the list length and the id capacity, the i-th id was recorded by the capture that produced the i-th listed stack |
| SamplerRecords.ReadIsKept | frameworks/native/thread_sampler/thread_sampler.cpp:315-318 | a submitter id that the handler reads with recording on and room left is held from then on, at the next position, under its capture |
| SamplerRecords.PrintedIsRead | frameworks/native/thread_sampler/thread_sampler.cpp:315-319 | in every session the id held for the i-th listed stack is the one read by the handler invocation that captured that stack; so a submitter is printed if and only if that reading was not 0 |
| SamplerRecords.PrintedWasRead | frameworks/native/thread_sampler/thread_sampler.cpp:458-464 | and for every listed stack within the capacity there was such a reading |
| SamplerRecords.PublishedAsRead | frameworks/native/thread_sampler/thread_sampler.cpp:320-322 | in every session a published stack, and its list entry, carry the clock reading of the step that published it |
| SamplerRecords.TimesAreRead | frameworks/native/thread_sampler/thread_sampler.cpp:321-397 | in every run every request, snapshot and process time that is set is the clock reading of the step that stored it |
| SamplerSessions.WedgesExactlyOnLoss | frameworks/native/thread_sampler/thread_sampler.cpp:265-352 | a step leaves a requested slot that nothing can fill if and only if it is a failed signal or a bail-out |
| SamplerSessions.WedgedStays | frameworks/native/thread_sampler/thread_sampler.cpp:265-277 | once that is so no step changes it, and no new capture is published |
| SamplerSessions.LossEndsSampling | frameworks/native/thread_sampler/thread_sampler.cpp:306-348 | after one loss every later state of the session is blocked, and only a capture already past its slot advance is still published |
| SamplerSessions.WedgedIffLost | frameworks/native/thread_sampler/thread_sampler.cpp:265-352 | in every state of every session the ring is blocked if and only if some step before it was a failed signal or a bail-out |
| SamplerIndices.ApartListsOutOfOrder | frameworks/native/thread_sampler/thread_sampler.cpp:492-508 | with unequal initial indices, in every kind of session, a run lists the second capture first |
| SamplerIndices.StrayOverwrites | frameworks/native/thread_sampler/thread_sampler.cpp:279-402 | with equal indices and a signal left over, in every kind of session, a run overwrites a published stack before it is listed |
| SamplerIndices.InOrderIff | frameworks/native/thread_sampler/thread_sampler.cpp:492-508 | for every kind of session, all reachable states list a prefix of what was published if and only if the session starts with equal indices and no signal left over |
| SamplerIndices.ApartIffOneUnlisted | frameworks/native/thread_sampler/thread_sampler.cpp:249-328 | between two calls of any session the indices are apart if and only if exactly one stack is published, or past its slot advance, and not listed |
| SamplerIndices.NextSessionInOrderIff | frameworks/native/thread_sampler/thread_sampler.cpp:492-508 | a session that inherits the indices of another, and those of its undelivered signals that have not arrived in between, lists in order in all its runs if and only if no signal is left and the other did not end with exactly one stack unlisted |
| SamplerIndices.ApartReachable | frameworks/native/thread_sampler/thread_sampler.cpp:330-402 | every kind of session can end with the indices apart and nothing under way: a request, a drain that finds nothing, then the capture |
| SamplerIndices.StrayReachable | frameworks/native/thread_sampler/thread_sampler.cpp:330-402 | and with equal indices, nothing published and a signal undelivered: the same without the capture |
| ThreadSamplerObject.GivesUpWhenDone | frameworks/native/thread_sampler/thread_sampler.cpp:249-263 | a read check that fails proves that everything published is listed |
| ThreadSamplerObject.RefusedWhenUnderway | frameworks/native/thread_sampler/thread_sampler.cpp:265-277 | a write check that meets a set request time does so only while a stack or a request is under way, or a request has been lost |
| ThreadSamplerObject.AccessFlow | frameworks/native/thread_sampler/thread_sampler.cpp:265-417 | the control flow of the sampling calls, in which a slot with a request is never requested again |
| ThreadSamplerObject.HandlerFrame | frameworks/native/thread_sampler/thread_sampler.cpp:279-328 | no handler step touches the watchdog thread's variables, adds work, or ends work except by publishing or losing the request |
| ThreadSamplerObject.ThreadSampler.constructor | frameworks/native/thread_sampler/thread_sampler.cpp:116-155 | a new session is a zeroed ring with the indices and signals it inherits; with equal indices and no signal it starts a run |
| ThreadSamplerObject.ThreadSampler.HandlerAccess | frameworks/native/thread_sampler/thread_sampler.cpp:279-328 | each access of WriteContext is the handler step of the machine |
| ThreadSamplerObject.ThreadSampler.WatchdogAccess | frameworks/native/thread_sampler/thread_sampler.cpp:249-402 | each access of the watchdog thread is the watchdog step of the machine |
| ThreadSamplerObject.ThreadSampler.SendSampleRequest | frameworks/native/thread_sampler/thread_sampler.cpp:330-352 | under every interleaving it ends with a request or a stack under way, unless a request has been lost; the list is untouched |
| ThreadSamplerObject.ThreadSampler.GetReadContext | frameworks/native/thread_sampler/thread_sampler.cpp:249-263 | null only when everything published before the call is listed |
| ThreadSamplerObject.ThreadSampler.ProcessStackBuffer | frameworks/native/thread_sampler/thread_sampler.cpp:354-402 | the drain loop ends although the handler keeps running, lists at most two stacks, and lists everything published when it began |
| ThreadSamplerObject.ThreadSampler.Sample | frameworks/native/thread_sampler/thread_sampler.cpp:404-417 | what was published at the call is listed at the return; a stack was listed or one is under way, unless a request has been lost |
| ThreadSamplerObject.ThreadSampler.CollectStack | frameworks/native/thread_sampler/thread_sampler.cpp:434-485 | drains, then gives one entry per listed stack; false if and only if nothing is listed |
| ThreadSamplerObject.ThreadSampler.FormatStacks | frameworks/native/thread_sampler/thread_sampler.cpp:457-467 | the k-th entry is the k-th listed stack with the k-th submitter id if recorded and not zero, and that id is from the stack's own capture |
| SchedulerSafety.StepKeepsIds | frameworks/native/watchdog_inner.cpp:1093-1219 | every step keeps each pending task in exactly one place, as it was built up to triggers and tick; only an insert adds one |
| SchedulerSafety.StepKeepsCapacity | frameworks/native/watchdog_inner.cpp:1187-1219 | every step keeps at most 128 queued while a task is in flight and 129 otherwise |
| SchedulerSafety.RetireKeepsRegistryIff | frameworks/native/watchdog_inner.cpp:1400-1447 | retiring the top task keeps the registry sound if and only if it is not a one-shot under the name of a pending periodic task |
| SchedulerSafety.RemoveKeepsRegistry | frameworks/native/watchdog_inner.cpp:1938-1972 | removal by name releases the name only when its periodic task is gone |
| SchedulerSafety.StepKeepsWakeful | frameworks/native/watchdog_inner.cpp:1209-1216 | no step lets the loop sleep past a queued deadline without a notify |
| SchedulerRuns.CapacityBound | frameworks/native/watchdog_inner.cpp:1187-1219 | in every reachable state at most 129 tasks are queued or in flight, at most 128 queued while one is in flight |
| SchedulerRuns.SleepsSafely | frameworks/native/watchdog_inner.cpp:1458-1544 | in every reachable sleeping state every queued task is due no earlier than nextWeakUpTime_, or a notify was issued since the fetch |
| SchedulerNames.StepUniqueIff | frameworks/native/watchdog_inner.cpp:1182-1219 | a step of any kind, erasures and retirements included, keeps pending periodic names distinct if and only if it is not an accepted periodic insert under the name of a pending periodic task |
| SchedulerNames.NamesUniqueIff | frameworks/native/watchdog_inner.cpp:1182-1498 | in every run names stay distinct up to a state if and only if no step before it was such an insert |
| SchedulerNames.StepRegistryIff | frameworks/native/watchdog_inner.cpp:1400-1498 | a step keeps pending periodic names registered and distinct if and only if it neither erases the name of a pending periodic task nor retires a one-shot under one |
| SchedulerNames.RegistryIff | frameworks/native/watchdog_inner.cpp:1182-1498 | in every run every pending periodic task is registered and no two share a name, up to a state, if and only if no step before it took the name of a task that stays pending |
| SchedulerNames.ErasedDoublesIffAsked | frameworks/native/watchdog_inner.cpp:1775-1778 | after the name of a task in flight is erased and until it is re-inserted, two pending tasks come to share the name if and only if it is asked for again while the queue has room; if it is not, re-insertion drops the task and nothing bears the name |
| SchedulerNames.NamesUnique | frameworks/native/watchdog_inner.cpp:1182-1498 | runs without direct erasure and without one-shots under checker names expose no name, so in them every pending periodic task is registered and no two share a name |
| SchedulerNames.EraseThenRegisterDuplicates | frameworks/native/watchdog_inner.cpp:1724-1727 | erasing the name of any task in flight and registering it again queues two tasks of that name |
| SchedulerRuns.TimerRunsOnce | frameworks/native/watchdog_inner.cpp:1076-1114 | in every run an accepted one-shot runs at most once, never before the tick it was built with, and never once cancelled |
| SchedulerRequests.WelcomeIsTaken | frameworks/native/watchdog_inner.cpp:1197-1219 | a request is taken if and only if its arguments are usable, its name is free or it is a one-shot, and fewer than 128 tasks are queued; otherwise queue and registry stay |
| SchedulerRequests.BuiltAsAsked | frameworks/native/watchdog_task.cpp:63-135 | deadline, interval, limits, name and kind of the task for each of the five requests, in 32 and 64 bits |
| SchedulerRequests.NamesAreLimited | frameworks/native/xcollie_utils.cpp:461-467 | names are cut to 128 characters |
| SchedulerRequests.AttemptsAsAsked | frameworks/native/watchdog_inner.cpp:1060-1147 | in every run and for every kind of request: the first attempt is due when the request says and none comes before; without a period one attempt at most, which runs; with one, each attempt is due one period after the last, or after its fetch if that was reset, and is reset if and only if it is no counter and more than two periods late |
| SchedulerRequests.NoTimerIsEarly | frameworks/native/watchdog_inner.cpp:1076-1091 | in every run no attempt of a timer comes before its clock reading plus its timeout in 32 bits |
| SchedulerRequests.CountsAsAsked | frameworks/native/watchdog_inner.cpp:1133-1180 | in every run a counter reports as the reference does with the limits of its request |
| SchedulerRequests.CancelledNeverRuns | frameworks/native/watchdog_inner.cpp:1093-1114 | in every run a timer cancelled while queued is never attempted |
| SchedulerRequests.RemovesExactly | frameworks/native/watchdog_inner.cpp:1938-1972 | removal takes every queued task of the name and no other, and releases the name if and only if one of them was periodic |
| SchedulerRequests.RemovedCanReturn | frameworks/native/watchdog_inner.cpp:1951-1971 | in every run a name whose periodic task was removed can be registered again at once while there is room |
| SchedulerRequests.FetchTakesDue | frameworks/native/watchdog_inner.cpp:1449-1479 | a fetch takes the top task, one of the earliest, if it is due; otherwise the loop sleeps exactly until it is, or 30 s for the kicking task, or 60 s with nothing queued |
| SchedulerRequests.FinishedIsRetired | frameworks/native/watchdog_inner.cpp:1400-1447 | each of the four checkers, finished and on top, is retired: no longer pending and its name free |
| SchedulerRequests.OthersAreNotRetired | frameworks/native/watchdog_inner.cpp:1400-1447 | no task but those four is retired |
| SchedulerRequests.NotifiesForEarlier | frameworks/native/watchdog_inner.cpp:1214-1216 | a notify is issued only for a task just queued that is due before the loop wakes |
| SchedulerRequests.StopIsFinal | frameworks/native/watchdog_inner.cpp:1449-1456 | in every run a stop empties the queue, and nothing is attempted after it |
| SchedulerPace.StepKeepsOnce | frameworks/native/watchdog_inner.cpp:1449-1498 | every step keeps a one-shot's history: untouched until its only run, at or after its deadline |
| SchedulerPace.RunOnClock | frameworks/native/watchdog_task.cpp:209-220 | on real clock readings the unsigned comparison resets a task exactly when it is later than two intervals taken in 64 bits |
| SchedulerPace.StepKeepsLaw | frameworks/native/watchdog_task.cpp:187-234 | every step keeps the tick law and the next tick of each periodic task at the value the law gives |
| SchedulerRuns.PeriodicTicks | frameworks/native/watchdog_inner.cpp:1467-1497 | in every run a periodic task of any interval runs its body exactly at the attempts within its patience, and each tick follows the last by one interval in 64 bits, counted from the fetch after a reset |
| SchedulerRuns.CounterTicks | frameworks/native/watchdog_inner.cpp:1481-1498 | in every run a timer counter runs at every attempt, and its ticks are one interval apart in 64 bits |
| SchedulerRuns.TicksAdvance | frameworks/native/watchdog_task.cpp:214-220 | where tick sums do not wrap, consecutive ticks differ by exactly one interval, or after a late reset by more than three |
| SchedulerRuns.RateBound | frameworks/native/watchdog_task.cpp:210-234 | where tick sums do not wrap, any clock window of length T holds at most T / interval + 3 body executions |
| SchedulerWrap.PlainLawIff | frameworks/native/watchdog_task.cpp:209-220 | for every clock range and every 64-bit interval: all runs keep to two intervals of lateness and to ticks one interval apart if and only if range and interval add up to at most 2^64, and two intervals either fit in 64 bits or wrap to at least the greatest lateness |
| SchedulerWrap.RateIff | frameworks/native/watchdog_task.cpp:209-234 | for every clock range of at most a third of 2^64 and every 64-bit interval: all runs keep the rate bound if and only if 2^64 exceeds the interval by at least a third of the range |
| SchedulerWrap.TicksFall | frameworks/native/watchdog_inner.cpp:1492-1497 | where a reading and the interval can add up to 2^64, each further tick lies 2^64 - interval before the last |
| SchedulerCounters.CounterAgrees | frameworks/native/watchdog_inner.cpp:1149-1180 | in every run a timer counter reports at exactly the checks at which the reference reports that keeps every trigger which found the counter queued, since the last report or clear |
| SchedulerMisses.CounterAgreesOnSent | frameworks/native/watchdog_inner.cpp:1149-1180 | in every run in which nothing is sent to the counter in flight, the same with every trigger sent to it |
| SchedulerMisses.MissedBurst | frameworks/native/watchdog_inner.cpp:1160-1175 | for all limits above 0 a run sends the counter as many triggers as it waits for between its fetch and its check: the reference reports, the counter does not |
| SchedulerMisses.AlwaysAgreesIff | frameworks/native/watchdog_inner.cpp:1160-1175 | counters with given limits agree in all runs with the reference on all triggers sent if and only if the time limit, narrowed to 32 bits, is 0 and they never report |
| SchedulerLimits.CapacityAttained | frameworks/native/watchdog_inner.cpp:1481-1498 | a state with 129 queued tasks is reachable |
| SchedulerLimits.DuplicatesReachable | frameworks/native/watchdog_inner.cpp:1775-1778 | a state with two pending periodic tasks of one name is reachable once a name is erased in flight |
| SchedulerRequests.CancelWorksIff | frameworks/native/watchdog_task.cpp:110-122 | in every run, whenever a task is queued, cancelling removes it if and only if it was asked for as a timer with a timeout that is not a multiple of 2^32 |
| SchedulerRequests.CancelFrame | frameworks/native/watchdog_inner.cpp:1093-1114 | cancelling in any state leaves everything but the task of that id as it was |
| SchedulerWrap.MovesBackIff | frameworks/native/watchdog_inner.cpp:1481-1498 | for every clock range and every 64-bit interval: some reachable re-insertion moves the tick back if and only if the interval exceeds 2^64 less the range |
| WatchdogInnerObject.Top | frameworks/native/watchdog_task.h:74-78 | the top of the queue is a task of earliest tick |
| WatchdogInnerObject.DrainTimer | frameworks/native/watchdog_inner.cpp:1102-1113 | rebuilding the queue drops exactly the timer with this id |
| WatchdogInnerObject.DrainName | frameworks/native/watchdog_inner.cpp:1951-1965 | rebuilding the queue drops exactly the tasks of this name, and reports whether one was periodic |
| WatchdogInnerObject.DrainTriggering | frameworks/native/watchdog_inner.cpp:1160-1175 | rebuilding the queue changes only the trigger logs of the named tasks |
| WatchdogInnerObject.WatchdogInner.InsertWatchdogTaskLocked | frameworks/native/watchdog_inner.cpp:1197-1219 | is the machine's push; 0 exactly on a registered name or a full queue |
| WatchdogInnerObject.WatchdogInner.Register | frameworks/native/watchdog_inner.cpp:1032-1147 | the five entry points: refuse unusable arguments, narrow, and push; AddThread returns 0 if and only if the request was taken, the timers the id, 0 or -1 |
| WatchdogInnerObject.WatchdogInner.RemoveXCollieTask | frameworks/native/watchdog_inner.cpp:1093-1114 | is the machine's cancel |
| WatchdogInnerObject.WatchdogInner.RemoveInnerTask | frameworks/native/watchdog_inner.cpp:1938-1972 | is the machine's removal by name; true if and only if some queued task had the name |
| WatchdogInnerObject.WatchdogInner.TriggerTimerCountTask | frameworks/native/watchdog_inner.cpp:1149-1180 | is the machine's trigger |
| WatchdogInnerObject.WatchdogInner.FetchNextTask | frameworks/native/watchdog_inner.cpp:1449-1479 | is an enabled fetch of the machine at this clock reading, which first retires a top task that is finished, or empties the queue when stopping |
| WatchdogInnerObject.FetchDecides | frameworks/native/watchdog_inner.cpp:1400-1466 | a fetch retires its top task if and only if that has no name, or is one of the four checkers and finished |
| WatchdogInnerObject.WatchdogInner.RetireTop | frameworks/native/watchdog_inner.cpp:1400-1447 | drops the top task and releases its name |
| WatchdogInnerObject.WatchdogInner.RunFetched | frameworks/native/watchdog_task.cpp:187-234 | adds one attempt to the task history; a periodic task runs if and only if it is within its patience and otherwise has its tick set to the clock; a timer counter reports if and only if some window is short |
| WatchdogInnerObject.WatchdogInner.ReInsertTaskIfNeed | frameworks/native/watchdog_inner.cpp:1481-1498 | is the machine's re-insertion |
| HandlerProbe.HandlerChecker.GetCheckState | frameworks/native/handler_checker.cpp:55-66 | judges the current probe: completed, half wait, then full wait |
| HandlerProbe.HandlerChecker.ScheduleCheck | frameworks/native/handler_checker.cpp:23-53 | posts a new probe exactly when there is a handler and the last probe has completed |
| HandlerProbe.HandlerChecker.RunProbe | frameworks/native/handler_checker.cpp:36-47 | the watched thread completes a probe |
| WatchdogTaskObject.WatchdogTask.EvaluateCheckerState | frameworks/native/watchdog_task.cpp:469-499 | the events for each verdict and registration, less those that low memory takes back; the report count, the low-memory state and the loss of the recovery flag |
| WatchdogTaskObject.WatchdogTask.HandleWaitedHalfState | frameworks/native/watchdog_task.cpp:501-509 | warns, and counts the report |
| WatchdogTaskObject.WatchdogTask.HandleWaitedFullState | frameworks/native/watchdog_task.cpp:511-536 | reports and kills as registered, unless low memory defers; remembers the deferral |
| WatchdogTaskObject.WatchdogTask.NoteAvailableMemory | frameworks/native/watchdog_task.cpp:193-200 | a low memory reading is remembered |
| WatchdogTaskObject.WatchdogTask.RunHandlerCheckerTask | frameworks/native/watchdog_task.cpp:321-328 | a check evaluates before it schedules, with or without a completion in between; the events, report count, low-memory state and flags are those of the evaluation |
| HandlerProbe.StepKeepsInv | frameworks/native/handler_checker.cpp:23-66 | every check, posting and completion, at any moment, keeps the probe invariant |
| HandlerProbe.OneOutstanding | frameworks/native/handler_checker.cpp:29-53 | in every run at most one probe is outstanding, the current one, and it is uncompleted |
| HandlerProbe.PostsIff | frameworks/native/handler_checker.cpp:23-53 | in every run a scheduling step creates a probe if and only if there is a handler and the last probe has been run; it is queued if and only if the posting is accepted |
| HandlerProbe.CompletesForGood | frameworks/native/handler_checker.cpp:36-47 | in every run a probe that was run has left the queue and counts as run for ever |
| WatchdogTaskObject.KillIsWarned | frameworks/native/watchdog_task.cpp:469-536 | in every run every kill follows a warning on the same probe, created before it, judged uncompleted at every check in between and not run in any state up to the kill; for a handler task the warning is SERVICE_WARNING and what follows SERVICE_BLOCK |
| WatchdogChecks.KillIff | frameworks/native/watchdog_task.cpp:469-536 | in every run of a task with its memory readings a check decides to kill if and only if the task can kill, the current probe was created two or more checks before and has not been run, and the low-memory strategy, if on, does not defer the exit |
| WatchdogChecks.EventsIff | frameworks/native/watchdog_task.cpp:469-536 | in every run which event a check sends, for handler and IPC-full tasks, with and without logging, callback and low memory, as if-and-only-ifs over the age of the uncompleted probe |
| WatchdogChecks.LowIff | frameworks/native/watchdog_task.cpp:193-200 | in every run with the strategy on, a check finds memory low if and only if some reading of 1 to 512000 was taken within the last 60000 ms |
| WatchdogChecks.CheckRemembers | frameworks/native/watchdog_task.cpp:469-590 | a check of such a run changes the low-memory state as the task does |
| WatchdogChecks.DeferredForOneMinute | frameworks/native/watchdog_task.cpp:469-590 | in every such run, after the first deferral and while no check says completed, a full wait kills unless and only unless memory is low and it comes within a minute of that deferral |
| HandlerProbe.WaitIff | frameworks/native/handler_checker.cpp:55-66 | in every run a check gets a half wait if and only if the uncompleted probe was created by the check before, and a full wait if and only if by an earlier one |
| HandlerProbe.NotDoneBefore | frameworks/native/handler_checker.cpp:55-66 | until a check that judges it uncompleted, the watched thread has not run the probe |
| HandlerProbe.VerdictIsTrue | frameworks/native/handler_checker.cpp:55-66 | a check says completed if and only if the watched thread has run the current probe |
| HandlerProbe.FalseBlockIffRefused | frameworks/native/handler_checker.cpp:49-66 | in every run a check judges uncompleted a probe that does not wait in the queue if and only if some posting before it was refused |
| HandlerProbe.RefusedStays | frameworks/native/handler_checker.cpp:29-53 | after a refused posting the probe stays current and uncompleted for ever, and nothing is queued again |
| HandlerProbe.RefusedPostEscalates | frameworks/native/handler_checker.cpp:49-66 | in every run the check after a refused posting gets a half wait and every later one a full wait |
| Escalation.ChecksArePaced | frameworks/native/watchdog_task.cpp:210-234 | checks are at most two intervals late and their ticks at least one interval apart |
| Escalation.KillDelay | frameworks/native/watchdog_task.cpp:469-499 | in every run of the scheduler and of a probe, a full wait at check k on a probe created by check j comes at least two intervals, less the lateness of check j, after it; that lateness is at most two intervals; so the delay is positive if two intervals exceed the range of the clock |
| Escalation.ZeroDelayIsPossible | frameworks/native/watchdog_task.cpp:214-234 | for every shorter interval there are such runs in which both checks read the same clock value |
| WatchdogTaskObject.WatchdogTask.IsLowMemoryStatus | frameworks/native/watchdog_task.cpp:553-567 | low memory means that the strategy is on and a low reading fell within the last minute |
| WatchdogTaskObject.WatchdogTask.ShouldSkipExitForLowMemory | frameworks/native/watchdog_task.cpp:569-590 | skips the exit in low memory from the first deferral for one minute, then clears it |
| WatchdogTaskObject.WatchdogTask.ShouldSkipSendEventForLowMemory | frameworks/native/watchdog_task.cpp:592-603 | skips the event in low memory after the first one |
| LowMemory.DeferredForOneMinute | frameworks/native/watchdog_task.cpp:511-590 | without a completed verdict, a full wait after the first deferral is deferred if and only if memory is low and it is within a minute of it; the first one after that minute kills |
| LowMemory.BlockSentOnce | frameworks/native/watchdog_task.cpp:469-525 | in low memory SERVICE_BLOCK is sent once until a completed verdict |
| LowMemory.HadSendIff | frameworks/native/watchdog_task.cpp:592-603 | in every run a block counts as sent if and only if there was a full wait in low memory since the last completed verdict |
| LowMemory.StartsOver | frameworks/native/watchdog_task.cpp:569-590 | after a kill that low memory could defer no longer, the next full wait in low memory is deferred again |
| TimerCount.CheckTriggers | frameworks/native/watchdog_task.cpp:290-319 | reports if and only if some window of countLimit triggers is short; then clears, else prunes |
| TimerCount.SameVerdict | frameworks/native/watchdog_task.cpp:298-313 | on what pruning has kept a check finds a short window if and only if the full log has a burst |
| TimerCount.PruningAgrees | frameworks/native/watchdog_task.cpp:290-319 | over every history of triggers, clears and checks the answers are those of a reference that keeps every trigger since the last report or clear |
| TimerCount.CheckBoundsLog | frameworks/native/watchdog_task.cpp:316-318 | at most 2 * countLimit triggers are kept after a check |
| BinderChain.CallChain.Parse | frameworks/native/xcollie_utils.cpp:247-270 | ends on every graph; adds only pids reachable from its start, with all their calls; adds nothing from a start whose calls are covered; its trail accounts for every call followed and for the terminal |
| BinderChain.CallChain.Visit | frameworks/native/xcollie_utils.cpp:253-268 | one call: skips a visited server, else visits it and all it leads to, and keeps the account |
| BinderChain.CallChain.Enter | frameworks/native/xcollie_utils.cpp:257-262 | marks the server, and hands the terminal over if and only if the walk looks for it and the call is the event thread's or the terminal's |
| BinderChain.CallChain.Descend | frameworks/native/xcollie_utils.cpp:263-267 | walks the server, first looking for the terminal if the call matched; the second walk then adds nothing |
| BinderTrail.LastIsLeft | frameworks/native/xcollie_utils.cpp:258-266 | no call of a thread that the terminal has moved to was followed, unless in the start process |
| BinderTrail.LastIsEnd | frameworks/native/xcollie_utils.cpp:258-266 | where every process is called once and the start not at all, a terminal that has moved is a thread that calls nobody |
| BinderChain.SyncPids | frameworks/native/xcollie_utils.cpp:247-270 | from an empty set exactly the pids reachable by one or more calls; if no call comes from the initial terminal, the terminal ends at a thread handed over to from the event thread when a followed call comes from it, and is unchanged when none does; a terminal that has moved was followed to its end |
| BinderGraph.ClosedHasChains | frameworks/native/xcollie_utils.cpp:247-270 | a set closed under calls contains every pid at the end of a chain |
| BinderGraph.HandoverJoins | frameworks/native/xcollie_utils.cpp:258-266 | chains of calls through threads compose |
| StringSplit.Find | frameworks/native/xcollie_utils.cpp:512-524 | the next occurrence of the separator from a position |
| StringSplit.NextIsFirst | frameworks/native/xcollie_utils.cpp:512-524 | what is found is an occurrence and none lies before it |
| StringSplit.JoinRestores | frameworks/native/xcollie_utils.cpp:503-532 | joining the pieces gives the string back |
| StringSplit.NoPieceContains | frameworks/native/xcollie_utils.cpp:503-532 | no piece contains the separator |
| StringSplit.SplitStr | frameworks/native/xcollie_utils.cpp:503-532 | the pieces of the string, in order, trimmed and filtered as asked |
| StringSplit.SplitExactly | frameworks/native/xcollie_utils.cpp:503-532 | keeping empties, without trimming: join of the result is the string, and no piece contains the separator |
| StringSplit.SplitSelects | frameworks/native/xcollie_utils.cpp:503-532 | for all four settings: the result is exactly the pieces, trimmed if asked, that are not empty or all of them, each once and in order |
| StringSplit.TrimsBothEnds | frameworks/native/xcollie_utils.cpp:495-501 | trimming drops exactly the blanks at both ends |
| StringSplit.TrimLeft | frameworks/native/xcollie_utils.cpp:495-501 | drops exactly the leading blanks |
| StringSplit.TrimRight | frameworks/native/xcollie_utils.cpp:495-501 | drops exactly the trailing blanks |
| StringSplit.StrSplit | frameworks/native/xcollie_utils.cpp:130-146 | the index-th piece of the split on ':', or nothing when there are fewer |
| SampleStackMap.SampleStackMap.ExpireOldEntries | frameworks/native/sample_stack_map.cpp:86-95 | keeps exactly the bindings no older than 120 s |
| SampleStackMap.SampleStackMap.Set | frameworks/native/sample_stack_map.cpp:38-71 | refuses large values; expires; replaces, adds, or drops a binding of minimum timestamp and adds |
| SampleStackMap.SampleStackMap.Choose | frameworks/native/sample_stack_map.cpp:49-65 | the entry of the key, else a free one, else one of minimum timestamp |
| SampleStackMap.SampleStackMap.GetAndRemove | frameworks/native/sample_stack_map.cpp:73-84 | the live value of the key or nothing, and the key is gone |
| SampleStackMap.FullIffAllValid | frameworks/native/sample_stack_map.cpp:49-65 | at most three bindings, and three exactly when every entry is valid |
| SampleStackMap.SurvivesTwoSets | frameworks/native/sample_stack_map.cpp:38-95 | under later timestamps an unexpired key on which nothing operates has at most as many newer bindings as there were Sets, and survives two |
| SampleStackMap.SetSurvivesTwoSets | frameworks/native/sample_stack_map.cpp:38-95 | from an empty cache under strictly increasing timestamps, a key just set keeps its value through every continuation with at most two Sets of other keys, unless it expires or is removed |
| SampleStackMap.SetIsNewest | frameworks/native/sample_stack_map.cpp:63-71 | after a Set with a timestamp above all others no binding is newer |
| SampleStackMap.TakeableFor120Seconds | frameworks/native/sample_stack_map.cpp:38-95 | a value just set can be taken if and only if no more than 120000 ms have passed |
| SampleStackMap.TooLargeIsIgnored | frameworks/native/sample_stack_map.cpp:38-44 | a value of more than 262144 characters is not set |
| JankSession.ReachableConfigIsSound | frameworks/native/watchdog_inner.cpp:2043-2226 | after any calls with any parameters, (count + 4) * interval is at most 2500 |
| JankSession.SettingsAreTakenIff | frameworks/native/watchdog_inner.cpp:2110-2196 | settings written in decimal are taken over unchanged if and only if each is in its range, and otherwise change nothing |
| JankSession.PolicyIsTakenIff | frameworks/native/watchdog_inner.cpp:2110-2226 | the same for a policy that also names automatic stopping |
| JankSession.PolicyDefaults | frameworks/native/watchdog_inner.cpp:2198-2226 | a policy that names only stack sampling gets the defaults |
| JankSession.OtherLogTypes | frameworks/native/watchdog_inner.cpp:2157-2226 | log type 0 resets everything to its default, log type 2 changes nothing else |
| JankSession.NumberIsRead | frameworks/native/watchdog_inner.cpp:2071-2095 | a number below 10^9 written in decimal is read back |
| JankSession.JankParams.UpdateJankParam | frameworks/native/watchdog_inner.cpp:2043-2069 | a trace-only configuration keeps the sampling parameters, any other replaces them |
| JankSession.JankParams.CheckSampleParam | frameworks/native/watchdog_inner.cpp:2110-2155 | accepts or rejects exactly as the limits say, and a rejection changes nothing |
| JankSession.JankParams.SetEventConfig | frameworks/native/watchdog_inner.cpp:2157-2196 | -1 leaves the configuration as it was; 0 means the asked-for log type is in force |
| JankSession.JankParams.ConfigEventPolicy | frameworks/native/watchdog_inner.cpp:2198-2226 | the same with defaults for missing keys |
| JankSession.StackContent.SampleTask | frameworks/native/watchdog_inner.cpp:696-730 | one body execution of the sampling task |
| JankSession.SessionProgress | frameworks/native/watchdog_inner.cpp:696-730 | until the finish flag the counters grow with every execution, and a session reports at most once |
| JankSession.SessionFinishes | frameworks/native/watchdog_inner.cpp:692-730 | the finish flag is up within count + 2 executions, whatever the event timer answers |
| JankSession.FullSession | frameworks/native/watchdog_inner.cpp:696-730 | if the event timer always answers yes, a session samples once at each of count executions, and finishes and reports at the next |
| JankSession.QuietSession | frameworks/native/watchdog_inner.cpp:696-730 | if it answers no twice at the start, the session finishes with no sample and no report |
| JankSession.Detecting | frameworks/native/watchdog_inner.cpp:696-730 | what each answer does before the first sample |
| JankSession.AutoStop | frameworks/native/watchdog_inner.cpp:702-712 | while collecting, a no ends the session with a report at the next execution if automatic stopping is on, and is sampled otherwise |
| JankSession.NominalLength | frameworks/native/watchdog_inner.cpp:2110-2155 | under every reachable configuration (count + 2) * interval is below 2500 ms |

## Left out

- Memory ordering: the ring runs over sequentially consistent memory; the relaxed and acquire/release orders of the slot fields are not part of this model.
- Clocks: readings of the watchdog loop do not go back and are positive where 0 means "unset"; they stay below a range that is a parameter of every run, at most 2^64. Reads within one operation are separate parameters where the program reads twice.
- Queue order: the priority queue is a map by task id whose top is any task of earliest tick; which of several is taken first is left open. Task ids are unique; the unsynchronised counter behind them is not part of this model.
- Condition variables: issuing a notify is modelled, its delivery is not; a sleeping loop may wake at any time.
- A second consumer of the ring (`StopSample` from another thread): the header forbids it.
- HandlerProbe: timeOutCallback replaces all decisions and is a flag of the configuration.
- WatchdogInnerObject.WatchdogInner.RetireTop: takes the task and its name away; the flags each checker resets and the sampler it releases are not modelled, and whether it is finished is an answer of the environment. The bodies of the app-start, trace and freeze sampling tasks are not modelled either.
- Escalation.KillDelay: for intervals up to 2^64 less the range of the clock, where tick sums do not wrap.
- SchedulerWrap.RateIff: for clock ranges up to a third of 2^64; beyond that late resets and wrapping mix.
- SamplerIndices.NextSessionInOrderIff: a session that ends while the handler runs is not covered; its buffer is unmapped under the handler.
- ThreadSamplerObject.ThreadSampler.CollectStack: the list format only, not the tree format; the text that stands in for an empty list is not modelled.
- JankSession.JankParams.UpdateJankParam: the report-time limits and the checker interval, which may come from a file, are not stored.
- TimerCount.CheckTriggers: the int overflow of 2 * countLimit for limits above 2^30 is not modelled.
- BinderChain.CallChain.Parse: which of several chains the terminal ends on depends on the order of calls and is promised only through the trail.
- JankSession.NominalLength: the interval and the count of a session come from one configuration, although the program reads them at two moments; the event timer is an answer of the environment.
- Free-text parsing of the kernel's binder report, and asynchronous binder space accounting.
- Unwinding, ELF access, stack printing and the tree format: a stack is an opaque value tagged with its capture.
- HiSysEvent, HiLog, files, ioctl, dlopen and process kills: recorded as decisions only.
- The suspend-check build, asynchronous stacks, FFRT traces and the kick-watchdog file.
- The thin public wrappers, the kill-reason table, the one-minute report limiter and report flag toggling: they would only add easy members.
