# Photon Controller agent protocols, in Dafny

A model of the stateful protocols in Photon Controller's ESX agent (Python) and of the
indexes in its CLI (Ruby), with proofs about every run of them. `dafny verify dfyconfig.toml`
checks the whole project.

Each protocol is a state machine: a datatype `Sys`, the events the threads, processes and
the environment can take, `Next` for one step and `Exec` for a run. Theorems quantify over
all event lists, so over all interleavings, failures and crashes (`Runs.dfy` has what is common
to them). Beside it stands a class in the source's own form, whose methods are proved against the functions the machine uses. Clocks,
RPC outcomes, file-system outcomes and random choices are parameters of events and methods.

| file | what it models | main results |
|---|---|---|
| `Mode.dfy`, `Registration.dfy` | host mode, and the loop that tells the chairman | `QuietExactly`, `TriggerLeadsToRead` |
| `FileLock.dfy` | a lock made of a file that is renamed before it is deleted | `MutualExclusion`, `RemoveIsHarmless`, `LockSucceedsExactly` |
| `HealthChecker.dfy` | heartbeat rounds and incremental reports | `JudgementExactly`, `ReportedMissingExactly`, `ChairmanAgreesExactly` |
| `Scheduling.dfy` | schedulers swapped and drained under calls in flight | `LatchIsExact`, `RunsAfterCleanupExactly`, `CheckersExactly` |
| `BlockingDict.dfy` | a dictionary whose readers wait for a value | `LostWakeupExactly`, `ReturnedExactly` |
| `Stats.dfy` | bounded series and the publisher's high-water mark | `ExactlyOnceExactly`, `NeverTwice` |
| `Text.dfy`, `AgentConfig.dfy` | option loading, persisting and updating | `RestartAfterRun`, `FaithfulExactly`, `AddressesRoundTrip` |
| `PersistentState.dfy`, `LogRotation.dfy` | state file, log rotation | `CrashConsistency`, `RecentLogsAreKept` |
| `CommandTree.dfy`, `VmConfig.dfy`, `Cache.dfy` | command trie, free numbers, cache | `TreeIsLinearSearch`, `KeywordsExactly`, `GetFreeBusNumber`, `AnswersAreFresh`, `ComputedIsReused` |

## Where the code does not do what is expected of it

In each case the model does what the code does, a lemma gives a run (or, for the round trip, an
input) that shows the failure, and another says exactly when the expectation holds.

- A mode change whose state file cannot be written is visible but runs no callback, so the
  chairman is not told (`LostChange`; exactly when: `QuietExactly`).
- The health checker classifies a child by a read of its entry and a later read of the round
  number. A child that has answered every round can be reported missing
  (`AnsweringChildReportedMissing`), and so can one that has answered the round in progress
  although no round ended in between (`InProgressAnswerReportedMissing`). It happens exactly when
  the entry has been overtaken by the time of the comparison (`JudgementExactly`,
  `ReportedMissingExactly`).
- A report that reaches the chairman although the call fails can leave the chairman wrong
  (`MisledIsReached`) for as long as all children answer (`MisledForGood`; exactly when:
  `ChairmanAgreesExactly`).
- `cleanup` says that all new requests fail, but one that enters between its await and its last
  line can run on (`CleanupCanLeaveACallRunning`; exactly when: `RunsAfterCleanupExactly`).
- A role list with a repeated id, or one that is refused after a leaf was made, leaves a leaf
  scheduler whose health checker nobody stops (`OrphanedCheckersAreReal`; exactly when:
  `OrphansExactly`, `CheckersExactly`).
- Writers of the blocking dictionary walk the live waiter list. A waiter leaving it meanwhile
  makes the writer skip another (`WakeupCanBeLost`; exactly when: `LostWakeupExactly`).
- They show a value to the waiters before they store it, so a call can be over and have returned
  a value that the key never held (`ReturnsUnheldValue`; exactly when: `ReturnedExactly`).
- Samples that arrive late, or in too great a number, are never published (`LateSampleIsLost`,
  `CrowdedOutSampleIsLost`; exactly when: `ExactlyOnceExactly`).
- A config file that names another config path redirects all later writes to a place that is
  never read (`RedirectIsReal`; exactly when: `RedirectedExactly`, `FaithfulExactly`).
- Server addresses whose host has a colon do not survive printing and parsing
  (`ColonHostIsLost`; exactly when: `AddressesRoundTrip`).

## Model

| member | source | states |
|---|---|---|
| HostMode.Admits | python/src/common/common/mode.py:69-76 | a mode change is admitted exactly from a readable mode that is the new one or among the allowed origins, or with none listed; the early return, the unreadable mode and the refused origin are told apart |
| HostMode.DecodeExactly | python/src/common/common/mode.py:50-59 | every mode is read back from its number, nothing stored is normal, and no other number but zero can be read |
| HostMode.ForExactly | python/src/common/common/mode.py:80-83 | of any registrations exactly those for the mode, in order |
| HostMode.HostModeStore.Select | python/src/common/common/mode.py:80-83 | the callbacks run for a mode are those registered for it, in order |
| HostMode.HostModeStore.SetMode | python/src/common/common/mode.py:61-86 | refusals and no-ops change nothing and run nothing; a failed write leaves the new mode visible and runs nothing; otherwise exit, enter and change callbacks run in that order |
| HostMode.HostModeStore.OnChange | python/src/common/common/mode.py:88-92 | the callback is added after those registered before |
| Registration.BackOff | python/src/agent/agent/chairman_registrant.py:124-128 | the wait doubles with each failure up to 60 seconds, never gets shorter, and is at the cap exactly from the sixth failure on |
| Registration.InvRun | python/src/agent/agent/chairman_registrant.py:60-122 | the invariant tying flag, counter, loop position and last read holds in every run |
| Registration.QuietExactly | python/src/agent/agent/chairman_registrant.py:52-128 | in every run, at every quiet point nothing is pending, and the chairman has the host registered exactly when the mode is neither maintenance nor deprovisioned, if and only if no mode change since the last read changed the demand and ended without its callback |
| Registration.Convergence | python/src/agent/agent/chairman_registrant.py:90-112 | if every mode change reaches its callback, every quiet point is converged |
| Registration.TriggerLeadsToRead | python/src/agent/agent/chairman_registrant.py:60-76 | after a trigger and until the next read of the mode, the loop never parks and a read is still to come |
| Registration.RetriesUntilOk | python/src/agent/agent/chairman_registrant.py:90-112 | after a failure, until the chairman says OK, the loop never waits untimed and the failures counted never go down |
| Registration.IterationSettles | python/src/agent/agent/chairman_registrant.py:66-112 | from any reached state with the loop at its top and no mode change in progress, a trigger and one OK iteration end quiet and converged |
| Registration.LostChange | python/src/common/common/mode.py:77-86 | some run with a failed state write ends quiet and not converged |
| Registration.ChairmanRegistrant.constructor | python/src/agent/agent/chairman_registrant.py:45-55 | starts with the first registration pending |
| Registration.ChairmanRegistrant.TriggerChairmanUpdate | python/src/agent/agent/chairman_registrant.py:60-64 | refines the trigger step: flag set, a parked loop woken |
| Registration.ChairmanRegistrant.WaitForUpdateOrRetry | python/src/agent/agent/chairman_registrant.py:66-76 | refines the wait step: no wait when pending, timed wait exactly when retrying, for as long as the back-off of the failures counted |
| Registration.ChairmanRegistrant.Iterate | python/src/agent/agent/chairman_registrant.py:90-122 | clears before reading; sends register or unregister by the mode read; the counter is reset exactly when that succeeded |
| FileLocking.OpenKeeps | python/src/common/common/file_io.py:118-139 | atomic open-and-lock keeps the file-system invariant, whether it succeeds or meets a locked file |
| FileLocking.MoveKeeps | python/src/common/common/file_io.py:294-297 | moving the lock file aside keeps it, whether the move is done, fails or fails half-way |
| FileLocking.CloseKeeps | python/src/common/common/file_io.py:223-232 | closing keeps it, also when the system does not release the lock |
| FileLocking.CrashKeeps | python/src/common/common/file_io.py:242-256 | a crash, which releases the locks of the process, keeps it |
| FileLocking.InvRun | python/src/common/common/file_io.py:273-305 | the invariant holds in every run of any number of processes |
| FileLocking.MutualExclusion | python/src/common/common/file_io.py:273-305 | in every run at most one lock object is between lock and the end of its move |
| FileLocking.RemoveIsHarmless | python/src/common/common/file_io.py:292-299 | in every run a delete touches neither the lock path nor a file locked by another process, and every owner still owns |
| FileLocking.LockSucceedsExactly | python/src/common/common/file_io.py:118-139 | in every run an attempt succeeds if and only if the file system serves the open, no object uses the lock path and no unclosed lock is left there; otherwise no lock and no object changes |
| FileLocking.UnlockAlone | python/src/common/common/file_io.py:287-305 | an undisturbed unlock takes away the lock and the lock file and nothing else |
| FileLocking.LockUnlockRestores | python/src/common/common/file_io.py:273-305 | in every run an undisturbed lock and unlock leave locks and other files as they were, and no lock file |
| FileLocking.FirstOpened | python/src/common/common/file_io.py:204-210 | the first attempt that opens the file, with none before it |
| FileLocking.FileLock.LockAndOpen | python/src/common/common/file_io.py:196-217 | the first opening among the first retry + 1 attempts wins and its descriptor is remembered; otherwise it raises and nothing changes |
| FileLocking.FileLock.CloseAll | python/src/common/common/file_io.py:223-232 | forgets every descriptor and releases exactly the nonzero ones the system closes |
| FileLocking.FileBackedLock.Lock | python/src/common/common/file_io.py:273-282 | raises exactly when no attempt opens; otherwise acquired with the new descriptor |
| FileLocking.FileBackedLock.Unlock | python/src/common/common/file_io.py:287-305 | whichever step raises, an acquired lock ends closed and given up, and the file is removed only after move and close; an unacquired one is left alone |
| HealthChecking.RoundExact | python/src/scheduler/scheduler/health_checker.py:130-143 | when no attempted report fails, the reported sets become exactly the scanned ones |
| HealthChecking.AgreementExactly | python/src/scheduler/scheduler/health_checker.py:130-143 | a round keeps the chairman's missing set equal to the local one if and only if no failed report that took effect was about a child the chairman saw otherwise |
| HealthChecking.InvRun | python/src/scheduler/scheduler/health_checker.py:76-143 | the invariant on rounds, entries and reports holds in every interleaving |
| HealthChecking.ReportedSetsStaySound | python/src/scheduler/scheduler/health_checker.py:50-57 | in every run the reported sets are disjoint sets of children |
| HealthChecking.ReportRoundExact | python/src/scheduler/scheduler/health_checker.py:116-143 | in every run, a round whose attempted reports succeed leaves exactly the scanned sets |
| HealthChecking.JudgementExactly | python/src/scheduler/scheduler/health_checker.py:122-126 | in every run and whatever the clocks say, at a comparison that finds the child silent: it has answered neither the latest completed round nor the one in progress if and only if its entry as it stands is still behind; and it missed the latest completed one if no round ended between the reads |
| HealthChecking.ReportedMissingExactly | python/src/scheduler/scheduler/health_checker.py:119-128 | in every run, a child about to be reported missing had answered neither round when it was classed, if and only if its entry had not been overtaken |
| HealthChecking.ClassedExactly | python/src/scheduler/scheduler/health_checker.py:119-128 | in every run a classed child is about to be reported missing if and only if its latest answer, as read, came more than the timeout before the report began and was to a round before the last completed one |
| HealthChecking.EntryBehindExactly | python/src/scheduler/scheduler/health_checker.py:76-92 | in every run an entry is behind if and only if the child answered neither the latest completed round nor the one in progress |
| HealthChecking.AnsweringChildReportedMissing | python/src/scheduler/scheduler/health_checker.py:122-126 | some run classes as missing a child that answered every round |
| HealthChecking.InProgressAnswerReportedMissing | python/src/scheduler/scheduler/health_checker.py:122-126 | some run in which no round ends between the reads classes as missing a child that answered the round in progress |
| HealthChecking.ChairmanAgreesExactly | python/src/scheduler/scheduler/health_checker.py:116-143 | in every run the chairman's missing set equals the local one after every step, if and only if no announcement lost a reply that mattered |
| HealthChecking.ChairmanAgrees | python/src/scheduler/scheduler/health_checker.py:130-143 | if failed reports never reach the chairman, its missing set is the local one in every run |
| HealthChecking.MisledIsReached | python/src/scheduler/scheduler/health_checker.py:130-143 | some run with one report that took effect and failed leaves the chairman wrong with nothing left to report |
| HealthChecking.MisledForGood | python/src/scheduler/scheduler/health_checker.py:130-143 | from there, in every continuation in which all children answer, the chairman stays wrong, whatever the replies |
| HealthChecking.HealthChecker.constructor | python/src/scheduler/scheduler/health_checker.py:37-62 | no round made, nothing reported |
| HealthChecking.HealthChecker.SendHeartbeat | python/src/scheduler/scheduler/health_checker.py:76-92 | exactly the answering children get the new number and their time; the number goes up by one |
| HealthChecking.HealthChecker.SendReport | python/src/scheduler/scheduler/health_checker.py:116-143 | the silent children are those whose last answer is older than the timeout and not to the last round; what is reported with success moves between the sets, what is not stays to be reported |
| Scheduling.BuildIsNumbered | python/src/scheduler/scheduler/scheduler_handler.py:55-75 | the schedulers built are new, and each leaf stands under one id |
| Scheduling.RefusalExactly | python/src/scheduler/scheduler/scheduler_handler.py:57-73 | building is refused exactly when some role has both kinds of children or none, and leaves are made exactly when a leaf role comes before any such role |
| Scheduling.AcceptedExactly | python/src/scheduler/scheduler/scheduler_handler.py:55-75 | every role id is in the table, and every leaf made is, if and only if no leaf role's id is used again |
| Scheduling.OrphansExactly | python/src/scheduler/scheduler/scheduler_handler.py:55-79 | a configure leaves a scheduler outside every table exactly for these role lists |
| Scheduling.LatchCountsUp | python/src/scheduler/scheduler/leaf_scheduler.py:118-133 | entering keeps every latch equal to the calls in flight |
| Scheduling.LatchCountsDown | python/src/scheduler/scheduler/leaf_scheduler.py:118-133 | so does leaving |
| Scheduling.InvRun | python/src/scheduler/scheduler/leaf_scheduler.py:84-133 | the invariant on table, leaves, calls and latches holds in every run |
| Scheduling.LatchIsExact | python/src/scheduler/scheduler/count_up_down_latch.py:27-53 | in every run a latch counts exactly the calls in flight, counting down never raises, and an await that passes finds no call inside |
| Scheduling.RetiredLeafIsDrained | python/src/scheduler/scheduler/leaf_scheduler.py:320-335 | in every run a call still running on a cleaned-up leaf entered between the await and the end of the cleanup |
| Scheduling.LateCallsAreTurnedAway | python/src/scheduler/scheduler/leaf_scheduler.py:143-144 | a call not past the flag test when the cleanup ends never runs and never contacts a host, in any continuation |
| Scheduling.RunsAfterCleanupExactly | python/src/scheduler/scheduler/leaf_scheduler.py:320-335 | for every call on a cleaned-up leaf and every continuation, the call has run if and only if it was past the flag test when the cleanup ended; otherwise it never contacts a host |
| Scheduling.TestExactly | python/src/scheduler/scheduler/leaf_scheduler.py:143-144 | in every run a call is routed to the configured leaf that the table has under its id, and a call testing the flag goes on to run if and only if its leaf is not retired |
| Scheduling.CleanupCanLeaveACallRunning | python/src/scheduler/scheduler/leaf_scheduler.py:331-335 | some run leaves a call running on a cleaned-up leaf |
| Scheduling.OrphanRun | python/src/scheduler/scheduler/scheduler_handler.py:46-79 | a checker of an orphan runs if and only if one ran before or some configure with checks on orphaned a leaf |
| Scheduling.CheckersExactly | python/src/scheduler/scheduler/scheduler_handler.py:46-79 | in every run, between configures, replaced leaves are unconfigured with their checker stopped, and the running checkers are exactly those of the current table if and only if no configure orphaned a leaf |
| Scheduling.ProperCheckersExactly | python/src/scheduler/scheduler/scheduler_handler.py:46-79 | after accepted configures with distinct ids the running checkers are exactly those of the current table |
| Scheduling.OrphanedCheckerRuns | python/src/scheduler/scheduler/scheduler_handler.py:55-79 | for every role list that orphans a leaf, some run leaves a checker running for a leaf in no table |
| Scheduling.OrphanedCheckersAreReal | python/src/scheduler/scheduler/scheduler_handler.py:55-79 | an id used twice, and a refusal after a leaf was made, do so |
| Scheduling.RefusedConfigureChangesNothing | python/src/scheduler/scheduler/scheduler_handler.py:52-73 | a refused configure changes neither the table nor any scheduler |
| Scheduling.CountUpDownLatch.CountUp | python/src/scheduler/scheduler/count_up_down_latch.py:50-53 | one more |
| Scheduling.CountUpDownLatch.CountDown | python/src/scheduler/scheduler/count_up_down_latch.py:27-36 | raises exactly at zero; otherwise one less, waking those awaiting exactly on reaching zero |
| Scheduling.LeafScheduler.constructor | python/src/scheduler/scheduler/leaf_scheduler.py:64-78 | unconfigured, no checker, nothing in flight |
| Scheduling.LeafScheduler.Configure | python/src/scheduler/scheduler/leaf_scheduler.py:84-105 | configured, with a checker running exactly when enabled |
| Scheduling.LeafScheduler.Find | python/src/scheduler/scheduler/leaf_scheduler.py:118-163 | refused exactly when unconfigured; otherwise the first answer that is not a plain miss decides; the latch is back where it was however it ends |
| Scheduling.LeafScheduler.Cleanup | python/src/scheduler/scheduler/leaf_scheduler.py:331-335 | from the await on: checker stopped, unconfigured |
| Scheduling.SchedulerHandler.Configure | python/src/scheduler/scheduler/scheduler_handler.py:46-79 | raises exactly for no list or a refused one and then keeps the table; otherwise the table built is swapped in and the replaced leaves' checkers stop |
| Scheduling.SchedulerHandler.GetScheduler | python/src/scheduler/scheduler/scheduler_handler.py:132-144 | the table's scheduler, or InvalidScheduler exactly for no id or an unknown one |
| BlockingDictionary.InvRun | python/src/common/common/blocking_dict.py:55-156 | the invariant on lists, writer, waiters and what they were shown holds in every interleaving |
| BlockingDictionary.LostWakeupExactly | python/src/common/common/blocking_dict.py:55-69 | in every run, with no write in progress, the key of a registered unverified waiter holds a value its function accepts, or the very value it asks for, if and only if the latest write of the key skipped it |
| BlockingDictionary.NoLostWakeup | python/src/common/common/blocking_dict.py:55-107 | if no waiter leaves a list behind a writer walking it, no wakeup is lost |
| BlockingDictionary.WakeupCanBeLost | python/src/common/common/blocking_dict.py:140-156 | some run leaves a waiter asleep on a value it waits for |
| BlockingDictionary.DecisionIsRight | python/src/common/common/blocking_dict.py:171-201 | in every run a registered waiter that decides returns the last shown value that satisfied it, times out exactly when none did, and can always be removed; no list is empty |
| BlockingDictionary.ShownByWriter | python/src/common/common/blocking_dict.py:55-107 | a waiter is shown the key's value when it registers and afterwards only values being written to its key |
| BlockingDictionary.ReturnedExactly | python/src/common/common/blocking_dict.py:79-107 | in every run, for every call that has returned a value: its function accepts the value, or it is the very value asked for; the key held it during the call if and only if the call returned at once or a write of it ended before the waiter left; otherwise a write of it was still in progress then |
| BlockingDictionary.ReturnsUnheldValue | python/src/common/common/blocking_dict.py:55-61 | some run ends a call on a value that the key has never held |
| BlockingDictionary.WaiterObject.SetValue | python/src/common/common/blocking_dict.py:196-201 | a satisfying value is taken and verifies; another changes nothing |
| BlockingDictionary.BlockingDict.OfferAll | python/src/common/common/blocking_dict.py:56-59 | exactly the waiters of the key are shown the value |
| BlockingDictionary.BlockingDict.SetItem | python/src/common/common/blocking_dict.py:55-61 | value stored and shown; afterwards nobody sleeps on a value that is there |
| BlockingDictionary.BlockingDict.DeleteItem | python/src/common/common/blocking_dict.py:63-69 | key gone, waiters shown None, KeyError exactly when it was absent |
| BlockingDictionary.BlockingDict.WaitUntil | python/src/common/common/blocking_dict.py:94-138 | returns at once exactly when the function accepts the current value, None if absent, or it is the value asked for; otherwise one new waiter at the end of the key's list |
| BlockingDictionary.BlockingDict.RemoveWaiter | python/src/common/common/blocking_dict.py:148-156 | the waiter leaves its list, and an emptied list leaves the table |
| Stats.SeriesHoldsLastN | python/src/stats/stats/memory_tsdb.py:111-125 | after any additions a series is exactly the last n values |
| Stats.SuffixStart | python/src/stats/stats/memory_tsdb.py:127-140 | where the longest suffix newer than the mark begins |
| Stats.ScanIsFilterExactly | python/src/stats/stats/memory_tsdb.py:127-140 | the backwards scan equals the plain filter if and only if no newer sample stands before an older one |
| Stats.ScanIsFilterInOrder | python/src/stats/stats/memory_tsdb.py:127-140 | so it does when timestamps never decrease |
| Stats.NumSamplesIsLeast | python/src/stats/stats/memory_tsdb.py:77-83 | the number of samples is the least that covers the duration at the frequency |
| Stats.InvRun | python/src/stats/stats/stats_publisher.py:64-77 | the invariant on deques, mark and what was sent holds in every run |
| Stats.NeverTwice | python/src/stats/stats/stats_publisher.py:64-77 | whatever timestamps and rates, the published lists one after the other are samples at increasing places of what was added, so none is published twice and order is kept; the store holds the last n |
| Stats.MarkIsGreatest | python/src/stats/stats/stats_publisher.py:66-73 | in every run the high-water mark is the greatest timestamp published so far, or zero |
| Stats.CompleteRun | python/src/stats/stats/stats_publisher.py:64-77 | delivery is gapless after a run if and only if it was before and every publication found its samples in number and above the mark |
| Stats.DeliveredIsComplete | python/src/stats/stats/stats_publisher.py:64-77 | in any state the invariant allows, the published lists followed by the rest are all samples if and only if the published places are gapless |
| Stats.ExactlyOnceExactly | python/src/stats/stats/stats_publisher.py:64-77 | over every run and key, the published lists one after the other followed by the rest equal everything added, if and only if every publication found at most n new samples per key, all above the mark |
| Stats.LateSampleIsLost | python/src/stats/stats/stats_publisher.py:67-73 | some run publishes everything but a sample that came with too old a timestamp |
| Stats.CrowdedOutSampleIsLost | python/src/stats/stats/memory_tsdb.py:83-83 | some run publishes everything but a sample pushed out by a later one |
| Stats.MemoryTimeSeriesDB.SetPolicy | python/src/stats/stats/memory_tsdb.py:60-83 | raises exactly for a zero time; otherwise empties the store and sets the least covering number |
| Stats.MemoryTimeSeriesDB.Add | python/src/stats/stats/memory_tsdb.py:111-125 | appends to the key's bounded series, making it if need be |
| Stats.MemoryTimeSeriesDB.GetValuesSince | python/src/stats/stats/memory_tsdb.py:127-140 | the loop returns the longest newer suffix, and an unknown key gets an empty series |
| Stats.StatsPublisher.MaxTime | python/src/stats/stats/stats_publisher.py:68-73 | the greatest of the mark and the timestamps |
| Stats.StatsPublisher.Publish | python/src/stats/stats/stats_publisher.py:64-77 | every key's newer suffix is published and the mark becomes the greatest timestamp seen |
| Text.SplitAt | python/src/agent/agent/agent_config.py:634-636 | splitting at the first separator, and how many parts splitting gives |
| Text.StripPadded | python/src/agent/agent/agent_config.py:699-700 | stripping takes off exactly the space at both ends |
| Text.ReadPadded | python/src/agent/agent/agent_config.py:636-636 | a number is read with space around it and a sign before it |
| Text.ReadNeedsDigits | python/src/agent/agent/agent_config.py:636-640 | anything else is refused |
| Text.ReadPrintedInt | python/src/agent/agent/agent_config.py:635-636 | every integer printed is read back |
| AgentConfiguration.ParseList | python/src/agent/agent/agent_config.py:692-704 | the result is never a string, and what was none is left alone |
| AgentConfiguration.ParseListReadsNames | python/src/agent/agent/agent_config.py:699-700 | names joined by commas are read back as the list of the stripped names |
| AgentConfiguration.LoadAt | python/src/agent/agent/agent_config.py:749-762 | what loading gives each option: the file's value exactly where the option was unset |
| AgentConfiguration.LoadExactly | python/src/agent/agent/agent_config.py:733-762 | the file's value is taken exactly where the option is declared and has its default value, or none, zero or an empty one; strings become lists for the three lists |
| AgentConfiguration.PersistExactly | python/src/agent/agent/agent_config.py:764-773 | exactly the options with another value are written |
| AgentConfiguration.PersistIsStable | python/src/agent/agent/agent_config.py:749-773 | loading what was persisted persists the same again |
| AgentConfiguration.BootIsIdempotent | python/src/agent/agent/agent_config.py:82-96 | starting twice leaves all config files as starting once, redirected path or not |
| AgentConfiguration.RestartExactly | python/src/agent/agent/agent_config.py:733-773 | what a restart gives each option after a persist, and exactly on which it agrees with the running agent; unset stays unset |
| AgentConfiguration.RedirectedUpdatesAreLost | python/src/agent/agent/agent_config.py:706-731 | options persisted under another path change nothing about a restart |
| AgentConfiguration.RedirectedExactly | python/src/agent/agent/agent_config.py:749-759 | that happens exactly when the path is not set on the command line and the file names another |
| AgentConfiguration.AgentRun | python/src/agent/agent/agent_config.py:82-245 | after any updates and restarts the options are sanitized, and the file that starts read is what was persisted last, or, redirected, the first one unchanged |
| AgentConfiguration.RestartAfterRun | python/src/agent/agent/agent_config.py:733-773 | for every command line, config files and run of updates and restarts, what a restart gives each option: redirected, what the first start gave; otherwise the command-line value, the running value or the unset value, in that order of being set |
| AgentConfiguration.FaithfulExactly | python/src/agent/agent/agent_config.py:733-773 | restarts keep every option that is set and left open by the command line, after every run, if and only if the first file does not redirect |
| AgentConfiguration.RedirectIsReal | python/src/agent/agent/agent_config.py:749-773 | a start, one update and a restart that loses it |
| AgentConfiguration.ColonHostIsLost | python/src/agent/agent/agent_config.py:634-643 | an address by an IPv6 host is dropped |
| AgentConfiguration.AddressesRoundTrip | python/src/agent/agent/agent_config.py:620-661 | printing and parsing addresses drops exactly those whose host has a colon, in order, for all integer ports |
| AgentConfiguration.ReadAddressExactly | python/src/agent/agent/agent_config.py:634-638 | an entry is read exactly when it has one colon and a number after it |
| AgentConfiguration.ReadAllInOrder | python/src/agent/agent/agent_config.py:632-646 | entries are read one by one in order, and what cannot be read is dropped |
| AgentConfiguration.ParseChairmanList | python/src/agent/agent/agent_config.py:620-646 | the loop keeps exactly the readable entries, in order |
| AgentConfiguration.UpdateSurvivesRestart | python/src/agent/agent/agent_config.py:151-245 | without a redirect, after every run, every option an accepted update set, not to unset and not fixed on the command line, is back after a restart |
| AgentConfiguration.PutExactly | python/src/agent/agent/agent_config.py:137-149 | setting distinct options one by one gives them those values and no other option a new one |
| AgentConfiguration.ChangesExactly | python/src/agent/agent/agent_config.py:137-149 | some step notices a change if and only if some option differed from its setting before all of them |
| AgentConfiguration.SettingsWithin | python/src/agent/agent/agent_config.py:176-231 | no request sets an option twice |
| AgentConfiguration.ChangeIsNoticed | python/src/agent/agent/agent_config.py:176-231 | the stages of an update notice a change among the rebooting options exactly where the request differs from the options before it |
| AgentConfiguration.ChangeIsSeen | python/src/agent/agent/agent_config.py:176-231 | the request differs among the rebooting options exactly when one of them comes out different |
| AgentConfiguration.PlacementExactly | python/src/agent/agent/agent_config.py:177-182 | after an update the availability zone, datastores and networks are those of the request, None where it gives none |
| AgentConfiguration.AddressingExactly | python/src/agent/agent/agent_config.py:184-193 | host name and port are those of the request, None and 8835 without an address |
| AgentConfiguration.PluginExactly | python/src/agent/agent/agent_config.py:195-204 | the stats options are those of an enabled plugin configuration, else as before |
| AgentConfiguration.ToldExactly | python/src/agent/agent/agent_config.py:206-214 | the chairman list is one host:port per server, and the overcommits are those given or 1.0 and 16.0 |
| AgentConfiguration.ImagesExactly | python/src/agent/agent/agent_config.py:216-226 | image datastores, as records, and management-only are those of the request if given, else as before |
| AgentConfiguration.IdentityExactly | python/src/agent/agent/agent_config.py:227-231 | host id and deployment id are those of the request |
| AgentConfiguration.OthersUntouched | python/src/agent/agent/agent_config.py:176-231 | no other option changes |
| AgentConfiguration.AgentConfig.constructor | python/src/agent/agent/agent_config.py:82-96 | parse, load and persist in this order |
| AgentConfiguration.AgentConfig.LoadConfig | python/src/agent/agent/agent_config.py:749-762 | the loop gives what the load function says, in any order of the keys |
| AgentConfiguration.AgentConfig.PersistConfig | python/src/agent/agent/agent_config.py:764-773 | the loop writes exactly the options that are set, at the path they name |
| AgentConfiguration.AgentConfig.CheckAndSetAttr | python/src/agent/agent/agent_config.py:137-149 | the option has the value, an absent one that is to be None stays absent, no other is touched, and the result says whether it changed |
| AgentConfiguration.AgentConfig.SetBefore | python/src/agent/agent/agent_config.py:176-204 | placement, address and stats options are set in order; the result says whether any changed |
| AgentConfiguration.AgentConfig.SetBehind | python/src/agent/agent/agent_config.py:216-231 | image and identity options are set in order; the result says whether any changed |
| AgentConfiguration.AgentConfig.SetTold | python/src/agent/agent/agent_config.py:206-214 | chairman and overcommits are as requested, and each result says whether it changed |
| AgentConfiguration.AgentConfig.UpdateConfig | python/src/agent/agent/agent_config.py:151-245 | one step of the runs above: an overcommit given below one is refused before anything changes, otherwise all settings are made and persisted; a reboot is required exactly when a rebooting option comes out different, and listeners are told exactly of changes |
| PersistentState.InvRun | python/src/common/common/state.py:26-76 | the invariant tying file, temporary file, cache and completed sets holds in every run |
| PersistentState.CrashConsistency | python/src/common/common/file_util.py:22-47 | over any sets, failed writes and crashes at any step, a reload gives exactly the completed sets, or once renamed those with the one in progress; the cache shows every set begun |
| PersistentState.NeverTorn | python/src/common/common/file_util.py:36-47 | a file that is whole or absent is never torn |
| PersistentState.DoneOnlyGrows | python/src/common/common/state.py:68-76 | what has returned stays |
| PersistentState.State.constructor | python/src/common/common/state.py:26-36 | the cache is what the file gives, or empty |
| PersistentState.State.Get | python/src/common/common/state.py:56-66 | the cached value, or None exactly when absent |
| PersistentState.State.Set | python/src/common/common/state.py:68-76 | cached in any case; in the file exactly when writing succeeds; what each failure leaves in the temporary file |
| LogRotation.ShiftAt | python/src/common/common/log.py:49-55 | after the renaming loop each number has its predecessor's log |
| LogRotation.RecentLogsAreKept | python/src/common/common/log.py:46-66 | after any rollovers, from any files, number i holds the log rotated i ago |
| LogRotation.FilesExactly | python/src/common/common/log.py:46-66 | starting with none, exactly the numbers up to the lesser of rollovers and backups are in use |
| LogRotation.NoneKept | python/src/common/common/log.py:49-66 | with no backups kept, rotated files are left alone |
| LogRotation.GzipRotatingFileHandler.DoRollover | python/src/common/common/log.py:46-66 | the loop and the compression give the rollover function, and the current log is empty |
| CommandTree.BestIsBest | ruby/cli/lib/cli/runner.rb:93-105 | the reference: a matching command with the longest keywords, the last registered among equals |
| CommandTree.NoBestNoMatch | ruby/cli/lib/cli/runner.rb:93-105 | the reference finds nothing only when nothing matches |
| CommandTree.TakeKeywordsExactly | ruby/cli/lib/cli/runner.rb:81-81 | the keywords are exactly the words before the first that does not begin with a letter |
| CommandTree.WordsOfGlue | ruby/cli/lib/cli/runner.rb:81-81 | words with any space between them and after them are read back |
| CommandTree.KeywordsExactly | ruby/cli/lib/cli/runner.rb:81-81 | so the keywords of a usage are its words before the first that does not begin with a letter |
| CommandTree.LeadingSpaceNoKeywords | ruby/cli/lib/cli/runner.rb:81-81 | a usage that begins with space has none |
| CommandTree.AtInsert | ruby/cli/lib/cli/runner.rb:83-89 | inserting a command changes what its path holds and nothing else |
| CommandTree.TreeHolds | ruby/cli/lib/cli/runner.rb:73-91 | each path of the built tree holds the last command registered with it |
| CommandTree.DepthIsLongest | ruby/cli/lib/cli/runner.rb:93-105 | the search stops at the longest beginning of the arguments that holds a command |
| CommandTree.TreeIsLinearSearch | ruby/cli/lib/cli/runner.rb:73-105 | for all commands and arguments the tree finds what linear search finds and leaves exactly the rest; without a match all arguments are left |
| CommandTree.Runner.BuildParseTree | ruby/cli/lib/cli/runner.rb:73-91 | the loop builds the tree of the commands |
| CommandTree.Runner.FindCommand | ruby/cli/lib/cli/runner.rb:93-105 | the recursive search that shifts and unshifts arguments gives the search function, arguments included |
| CommandTree.Runner.Lookup | ruby/cli/lib/cli/runner.rb:48-60 | the whole lookup is linear search, with exactly the keywords taken off |
| VmConfig.SelectInstances | python/src/pysdk/pysdk/vmconfig.py:71-73 | exactly the devices of the class, in order |
| VmConfig.GetDeviceListFromSpec | python/src/pysdk/pysdk/vmconfig.py:100-111 | the devices of changes that are not removals, in order; none without a list |
| VmConfig.KeptExactly | python/src/pysdk/pysdk/vmconfig.py:107-110 | a device is in that list if and only if some change that is no removal has it |
| VmConfig.KeptInOrder | python/src/pysdk/pysdk/vmconfig.py:107-110 | and the order is kept |
| VmConfig.InstancesInOrder | python/src/pysdk/pysdk/vmconfig.py:71-73 | so it is when selecting by class |
| VmConfig.GetControllers | python/src/pysdk/pysdk/vmconfig.py:68-82 | exactly the matching devices: default, then configured, then those of the spec, each in order |
| VmConfig.FirstController | python/src/pysdk/pysdk/vmconfig.py:68-82 | the first is a default device if one matches, else a configured one if one matches, else one of the spec |
| VmConfig.FirstGap | python/src/pysdk/pysdk/vmconfig.py:119-125 | the scan over sorted numbers finds the least natural not among them, duplicates and negatives included |
| VmConfig.GetFreeBusNumber | python/src/pysdk/pysdk/vmconfig.py:114-125 | the least bus number that no matching controller uses |
| VmConfig.FreeKey | python/src/pysdk/pysdk/vmconfig.py:21-30 | the greatest negative key below all keys of the spec |
| VmConfig.KeysCountDown | python/src/pysdk/pysdk/vmconfig.py:192-269 | in a spec built from nothing by nic, cdrom and serial adds, failed ones included, the n-th change is an addition and its device has key -n |
| VmConfig.ConfigSpec.GetFreeKey | python/src/pysdk/pysdk/vmconfig.py:21-30 | the loop gives that key, also without a list |
| VmConfig.ConfigSpec.AddToSpec | python/src/pysdk/pysdk/vmconfig.py:171-189 | one addition more at the end, with the free key and the key of the first controller; or, exactly when no controller matches, an exception and the spec as before |
| Caching.PutSize | python/src/common/common/cache.py:58-64 | storing after an eviction keeps within the limit |
| Caching.InvRun | python/src/common/common/cache.py:50-76 | in every run entries are within the limit and were computed for their key when they say |
| Caching.AnswersAreFresh | python/src/common/common/cache.py:50-76 | after any calls and evictions, an answer was computed for the same key, by this call or less than the time to live ago |
| Caching.EntryIsUsed | python/src/common/common/cache.py:66-71 | once a key has an entry, after any calls that do not evict it and before it expires, the next call returns its value, computes nothing and changes nothing |
| Caching.ComputedIsReused | python/src/common/common/cache.py:50-76 | in every run, what a call computed is what later calls for the key get until it is evicted or expires |
| Caching.CachedIsDirect | python/src/common/common/cache.py:50-76 | for a function of the key, every cached call gives what a direct call gives |
| Caching.CachedFunction.Nested | python/src/common/common/cache.py:51-76 | the wrapper refines the call function, evictions included |

## Left out

- RPC, thrift, HTTP and SSH clients, ZooKeeper, hypervisor managers and `host_handler.py`: network and hypervisor plumbing; each call is an arbitrary success or failure.
- `ChairmanRegistrant.stop_register` and all thread shutdown: no claim is made about it.
- The POSIX variant of `lock_and_open`: it opens and locks in two steps, and the exclusion argument is about the one-step ESX variant.
- Fresh names in `FileBackedLock.unlock` are taken never to have been used before.
- Calls to the chairman, registrations and health reports alike, that time out and are applied only after later ones are not modelled.
- Inside `leaf_scheduler.py`: host coalescing, `_filter_missing_hosts`, scoring and the choice of placement hosts. `place` differs from `find` only in these, so calls are modelled once.
- Scheduling.LeafScheduler.Cleanup: starts where the await passes, because a method cannot block; the await itself is the step `PassAwait` of the state machine.
- Scheduling.SchedulerHandler.Configure: has no call in flight; the interleavings with calls are in the state machine.
- Branch schedulers are only entries of the table; their cleanup does nothing in the source.
- BlockingDictionary.BlockingDict.SetItem: takes the walk over the waiters as uninterrupted; the interleavings, in which its validity predicate can fail, are in the state machine.
- Verifiers that raise an exception, in the blocking dictionary.
- HealthChecking.HealthChecker.SendReport: is one round with nothing in between and no chairman; both are in the state machine.
- Interleavings inside one publish and inside one cache lookup; publishers that raise after the mark has moved.
- `_parse_time` in the time-series store, and floating-point rounding of the number of samples.
- Config values that are not what the option parser or the request types give, such as a config path that is not a string.
- AgentConfiguration.AgentConfig.UpdateConfig: a listener that raises half-way is not modelled.
- Option parser definitions, JSON and gzip encodings: taken to round-trip.
- Loss of unsynced data on power failure: a crash stops the process, and completed writes and renames stay.
- CommandTree.Runner.BuildParseTree: the nested hashes are values, so growing them in place and sharing nodes is not captured.
- CLI output, option handling and the commands themselves; logging set-up; plugins; the service locator: easy members or I/O only.
