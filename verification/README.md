# redrill: a model of the restore-drill core

redrill restores backups on a schedule and keeps a proof per drill and level: the start time of the
latest run whose restore really passed. This project models the parts that claim rests on and states
what holds of them for every input, every interleaving and every reachable state.

- **Runs and the store.** `Store` holds each SQL statement as one atomic step on a table value, with
  an acknowledgement that says whether the write took effect and whether the caller heard of it;
  `Database.Connection` performs the same statements in place. `Levels` is the level loop with its
  short-circuit, pin and totals. `RunMachine` lets any number of `Run` calls interleave with each
  other, with retention, with the startup marking of abandoned runs, with lost or failed writes, with
  panics and with crashes; a history of every run survives the deletion of its row. `RunInvariant`,
  `RunSteps`, `RestoreTrace`, `Fates`, `RunTheorems`, `OpenRows` and `Counting` prove what every trace keeps; `Sla`
  reads the Proof SLA off the proofs such a trace leaves. `Orchestrator` is `Run`
  as the program executes it, shown to be a schedule of that machine. `Retention` is the policy
  behind the three DELETE statements.
- **Pinning.** `Pinning` runs the dump-directory executors over a directory, symbolic links included,
  that changes arbitrarily between levels; `Audit` is `Run` with them. `Snapshots` is the newest-first sort the pin of the other engines depends on.
- **Gate and scheduler.** `Gate` is the token channel with its in-flight set and two-step release;
  `Schedule` and `Scheduler` are the due/advance loop with jitter.
- **Alerts.** `Staleness`, `Alerter`, `AlerterState` and `Digest` cover stale episodes and the weekly
  digest.
- **Checks, redaction, selection, bounds.** `Glob`, `Redact`, `Sorting`, `Sample`, `Selection`, `Quota`.
- **Configuration to verdict.** `Config` and `Verdicts` link what validation accepts to what a
  passing level shows.

Times are integers on one clock and 0 is Go's zero time. Randomness, the clock, the executor, cron's
`Next`, `path.Match` and the outcome of every write are parameters that may answer anything their
stated contract allows.

Where the code falls short of the natural statement, the model keeps the code, proves the exact
condition, and has a lemma at an input that fails:

- One backup per run: `Pinning.OneBackupExactly`, with `Pinning.ZeroTimeSplits` (a dump whose mtime is
  the zero time) and `Pinning.LinkSplits` (a link whose own time is not that of the file behind it;
  left alone, such a link is refused at the next level, see `Pinning.UnchangedRefusedExactly`). The
  listing takes the entry's own time (internal/driver/dumpdir/dumpdir.go:68-72), the checks and the
  guard that of the file behind it, although the comment on the guard speaks of one mtime.
- All-matching-window: `Pinning.WindowExactly`, with `Pinning.WindowIgnoresPin`.
- Stale alerts: `Alerter.RepeatExactly`, with `Alerter.ClearMayOvertakeSend`.
- The stale flag after a passing run: `Alerter.PassLeavesFlagExactly`, with `Alerter.SweepDuringCompletion`.
- Secrets left in redacted text: `Redact.SurvivesExactly`, with `Redact.PlaceholderSecretStays`.
- A cron expression without a next slot, such as the thirtieth of February, is accepted and its
  `Next` is the zero time: `Scheduler.DueProgress` and `Scheduler.SlotsNeverRepeat` say exactly when
  the loop and a job suffer from it, with `Scheduler.DryJobSpinsOrStalls` and
  `Scheduler.DryJobNeverRests`.
- Open rows: `OpenRows.OpenExactly`, with `OpenRows.FailedFinalizer`.
- L2 without proof: `Verdicts.L2SoundExactly`, with `Verdicts.EmptyL2Passes`.
- Age first, count second: `Retention.AgeThenCount`, with `Retention.AgeFirstKeepsMore`.
- One digest per slot: `Digest.DigestOncePerSlot`, with `Digest.SharedGap`.
- The byte counter: `Counting.CounterMissesExactly`, with `Counting.LostUpdate`.

## Model

| member | source | states |
|---|---|---|
| `RunTheorems.ProofSoundness` | internal/orchestrate/orchestrate.go:183-194 | After any trace, each (drill, level) proof time is the start of a run of that drill that committed the verdict pass itself, with that level among its passing outcomes, and whose level the executor really passed earlier in the trace. |
| `RunTheorems.ProofComplete` | internal/store/state.go:16-32 | A proof a run recorded is still there after any continuation, at that run's start or later, even once its row is pruned. |
| `RunTheorems.ProofsNeverRegress` | internal/store/state.go:16-32 | Proof times never decrease and proofs never disappear, along every continuation of every trace. |
| `RunTheorems.VerdictsAreWriteOnce` | internal/store/runs.go:58-81 | A row with a verdict never changes again except by deletion, a deleted row never returns, and the history agrees. |
| `RunTheorems.AbandonedRunsProveNothing` | internal/orchestrate/orchestrate.go:158-177 | A run finalized by anyone but its own normal end stays an error for good, records no proof and counts no bytes, whatever its process still does. |
| `RunTheorems.MarkingClosesEveryRow` | internal/store/runs.go:140-151 | After the startup marking no row lacks a verdict: open rows become errors finished now and are otherwise as they were, the others are untouched. |
| `RunTheorems.RetentionFollowsTheDrill` | internal/orchestrate/orchestrate.go:195-213 | In any state, the retention step behind a run deletes exactly the rows the drill's own age and count limits do not keep at the run's end; without effect, or refused for want of a clock, none. |
| `RunTheorems.NoZombies` | internal/orchestrate/orchestrate.go:109-129 | A row without a verdict belongs to a run a process is still executing, or to one whose process crashed, whose insert took effect unheard, or whose finalizer's write failed, each found in the trace; no other `Run` comes back leaving its row open. |
| `Fates.FatesExplained` | internal/orchestrate/orchestrate.go:92-129 | In every trace, a run still marked as executing has a process, and every other end than a plain return has the action that caused it. |
| `OpenRows.OpenExactly` | internal/store/runs.go:58-81 | For every trace and every run in it: the row is open if and only if nothing settled it, be it its own process committing a verdict, the startup marking, or retention. |
| `OpenRows.EndedLeavesOpen` | internal/orchestrate/orchestrate.go:118-129 | A run ended without a verdict by a crash, an unheard insert or a failed finalizer leaves its row open, and it stays open exactly until the next marking or the retention that removes it. |
| `OpenRows.FailedFinalizer` | internal/orchestrate/orchestrate.go:118-129 | A concrete trace: a panic in the loop and a finalizer whose write has no effect. |
| `RunTheorems.FinishedRowsTellTheRun` | internal/orchestrate/orchestrate.go:158-177 | The row of a normally finished run holds the verdict its outcomes call for, the last level executed, the pin, the sum of its levels' bytes, and one step row per level in order. |
| `RunTheorems.CountersNeverDecrease` | internal/store/runs.go:184-197 | The per-drill restored-bytes counter never decreases along any continuation. |
| `RunTheorems.CounterConservation` | internal/orchestrate/orchestrate.go:178-182 | The counter never exceeds what the drill's normally finished runs restored, pruned or not, and equals it if and only if none of those that restored bytes is uncounted in the history. |
| `Counting.CounterMissesExactly` | internal/orchestrate/orchestrate.go:172-182 | Read off the trace: the counter is that sum if and only if no such run is still about to count, and none had its update fail, its process crash before it, or its verdict committed unheard. |
| `Counting.ReachBalanced` | internal/orchestrate/orchestrate.go:172-182 | In every trace a normally finished run is uncounted exactly when its update is still to come or was lost, and never both. |
| `Counting.LostUpdate` | internal/orchestrate/orchestrate.go:178-182 | A concrete trace with one failed counter write: ten bytes restored, the counter at zero. |
| `RunTheorems.TraceEvolves` | internal/orchestrate/orchestrate.go:92-197 | Between any two points of a trace: histories keep drill, start, verdict and proofs; rows are write-once; proofs and counters are monotone. |
| `RunSteps.ReachInv` | internal/orchestrate/orchestrate.go:92-197 | Every reachable state satisfies the machine invariant linking rows, step rows, processes, histories, proofs and counters. |
| `RunSteps.PassLevelsPassed` | internal/orchestrate/orchestrate.go:183-194 | The levels a passing run records proofs for are exactly those whose outcome was pass. |
| `RestoreTrace.ReachTraced` | internal/orchestrate/orchestrate.go:215-260 | Every passing outcome the machine remembers stems from a passing executor answer to that level of that run, earlier in the trace. |
| `Levels.ShortCircuitCollapse` | internal/orchestrate/orchestrate.go:140-158 | For any executor answers: one outcome per level in order, at most one fail or error, everything after it skipped, and the run verdict and level reached are those of the last level that executed, error and none if none did. |
| `Levels.OneMoreLevel` | internal/orchestrate/orchestrate.go:215-260 | What one more level adds: skipped without a trace behind a bad level, on an unsupported combination and without a sandbox; an error when the executor breaks; else the executor's verdict, its bytes and files, and its snapshot as the pin if none was set. |
| `Levels.VerdictIsLastRan` | internal/orchestrate/orchestrate.go:316-338 | On short-circuited outcomes the dominance rule and the verdict of the last executed level coincide, and pass means no level failed or erred. |
| `Levels.AggregateRun` | internal/orchestrate/orchestrate.go:316-338 | The flag-folding loop answers fail exactly when some level failed, pass exactly when some level passed and none failed or erred, and error otherwise. |
| `Levels.SelectLevelsExact` | internal/orchestrate/orchestrate.go:292-312 | Selection yields exactly the configured levels asked for, L1 before L2 before L3; it is a usage error exactly when one level was asked for that is not configured. |
| `Levels.SelectLevelsLoop` | internal/orchestrate/orchestrate.go:292-312 | The selection loop computes the function `SelectLevelsExact` is about. |
| `Levels.RunWithAnswers` | internal/orchestrate/orchestrate.go:215-260 | Consulting an executor level by level, with the pin so far, is the loop over the answers it gives. |
| `Orchestrator.Orchestrator.Run` | internal/orchestrate/orchestrate.go:92-197 | Run alone, the imperative `Run` is a stretch of its own process's steps in the run machine. It finishes, with its proofs recorded, whenever the levels are selected, the row can be created and every write it depends on is acknowledged. A run that gave up in its loop leaves its row in error with the totals of the levels before and the pin, one that could not write its verdict in error or with the verdict, and both open if the finalizer's write had no effect. A finished one leaves the outcomes, totals and pin of the level loop, its bytes counted unless that write failed, behind a pass every passing level's proof advanced, and exactly the rows that the drill's age and count limits keep; all rows, if a proof could not be recorded. Nothing else moves proofs, counters or other rows. |
| `Orchestrator.Orchestrator.RunLevels` | internal/orchestrate/orchestrate.go:140-156 | The level loop is the machine's level steps, and computes the progress of `Levels`, up to its end or to the level whose rows could not be written. |
| `Orchestrator.Orchestrator.RunLevel` | internal/orchestrate/orchestrate.go:215-260 | One level is the machine's execute and write steps; a failed write leaves only the deferred finalizer, with the pin kept. |
| `Orchestrator.Orchestrator.DeferredFinalizer` | internal/orchestrate/orchestrate.go:118-129 | The finalizer of an unfinished run is the machine's finalize step. |
| `Orchestrator.Orchestrator.Conclude` | internal/orchestrate/orchestrate.go:158-197 | Verdict, counter, proofs and retention follow each other as machine steps: no proof moves unless the verdict committed as pass, and retention keeps exactly what the drill's age and count limits keep of the rows with this run's row finished. |
| `Orchestrator.Orchestrator.RecordProofs` | internal/orchestrate/orchestrate.go:183-194 | On a pass, the proofs of exactly the passing levels advance to the run's start or stay later; the first failed write stops the loop. |
| `Orchestrator.PlayMore` | internal/orchestrate/orchestrate.go:92-197 | Playing two stretches of a trace one after the other is playing them joined. |
| `Database.Connection.CreateRun` | internal/store/runs.go:33-54 | In place, the insert statement: an open row under a fresh id, or a rejection for a missing drill or start. |
| `Database.Connection.FinishRun` | internal/store/runs.go:58-81 | In place, the guarded update: it takes effect only on an open row, and tells a finished row from a missing one. |
| `Database.Connection.MarkAbandonedRuns` | internal/store/runs.go:140-151 | In place, every open row becomes an error, the affected count is the number of open rows, and none is left open. |
| `Database.Connection.AddStep` | internal/store/runs.go:243-255 | In place, the step row is appended to its run, and refused for a deleted run. |
| `Database.Connection.AddBytesRestored` | internal/store/runs.go:184-197 | In place, the counter upsert; a non-positive amount changes nothing. |
| `Database.Connection.RecordProof` | internal/store/state.go:16-32 | In place, the MAX upsert of the proof time. |
| `Database.Connection.Prune` | internal/store/retention.go:27-56 | In place, whichever DELETE applies, with cascading steps and the exact number of deleted rows. |
| `Retention.OnePolicy` | internal/store/retention.go:14-56 | All DELETE forms keep exactly the other drills' runs and this drill's runs that are within age and have fewer than maxCount newer ids, unchanged. |
| `Retention.PruneKeepsExactly` | internal/store/retention.go:27-56 | A prune that takes effect leaves exactly the rows the policy keeps, unchanged; one without effect, or refused for a missing clock, leaves all. |
| `Retention.NewestRank` | internal/store/retention.go:16-17 | The LIMIT subquery selects exactly the ids with fewer than n newer ones. |
| `Retention.PruneIdempotent` | internal/store/retention.go:27-56 | Pruning twice is pruning once. |
| `Retention.PruneLeavesTheRest` | internal/store/retention.go:27-56 | Other drills, kept rows and their steps, proofs, counters and the id sequence are unchanged, and at most maxCount runs of the drill remain. |
| `Retention.CountThenAge` | internal/store/retention.go:14-22 | Count first and age second keeps exactly what the combined DELETE keeps. |
| `Retention.AgeThenCount` | internal/store/retention.go:14-22 | Age first and count second keeps at least what the combined DELETE keeps, and the same if and only if every young run is among the newest n or all newest n are young. |
| `Retention.AgeFirstKeepsMore` | internal/store/retention.go:14-22 | A concrete table on which age first keeps a run the combined DELETE removes. |
| `Retention.NewestOfSubset` | internal/store/retention.go:16-21 | The newest n of a subset are its share of the overall newest n exactly when one of the two sets contains the other. |
| `Pinning.OneBackupPerRun` | internal/orchestrate/orchestrate.go:238-240 | With pick newest and any directory changes between levels, links included: if the newest dump the first level finds is safe to pin, every level that ends pass or fail judges exactly the pinned name at the pinned mtime. |
| `Pinning.OneBackupExactly` | internal/exec/exec.go:422-428 | Every run that starts on a directory audits one backup if and only if its newest listed dump is safe to pin: a plain base name whose non-zero listed time is that of its content, or nothing to read behind it. |
| `Pinning.UnsafeSplits` | internal/exec/exec.go:235-258 | From any directory that is not safe to pin, the levels and later directory of a run that passes on content other than its pin. |
| `Pinning.ZeroTimeSplits` | internal/exec/exec.go:418-428 | A dump of mtime zero, rewritten between L2 and L3: both pass, on different contents. |
| `Pinning.LinkSplits` | internal/driver/dumpdir/dumpdir.go:68-72 | A link whose own time differs from its target's: L1 passes on one content and L2 on another; unchanged, L2 refuses it. |
| `Pinning.UnchangedRefusedExactly` | internal/exec/exec.go:731-738 | In an unchanged directory the guard refuses the pin exactly when the newest dump is a link that dangles, or whose non-zero own time is not that of its content; a plain file is never refused. |
| `Audit.RowNamesPin` | internal/orchestrate/orchestrate.go:158-177 | A finished run's row, where the first level found a dump safe to pin, holds as snapshot and snapshot time the one backup its levels judged. |
| `Audit.RunDumpdirDrill` | internal/orchestrate/orchestrate.go:92-197 | The imperative `Run` leaves such a row, while retention keeps it, whenever its executor is the dump-directory runner over a first directory safe to pin. |
| `Audit.RunIsAudited` | internal/orchestrate/orchestrate.go:158-177 | What `Run` leaves behind with the dump-directory runner over a first directory safe to pin names, in its row, the one backup the levels judged. |
| `Pinning.PinGuardExact` | internal/exec/exec.go:422-428 | Later levels judge only the pinned file in every directory if and only if the pin is a plain base name with a non-zero mtime. |
| `Pinning.DumpdirSound` | internal/exec/exec.go:718-773 | Whatever the directory does, the three dump-directory runners judge nothing but a guarded pin's file at its pinned mtime, and leave out no level but L3. |
| `Pinning.RunFaithful` | internal/orchestrate/orchestrate.go:215-260 | The level loop over any sound runner whose first level pins what it judges keeps everything judged equal to the pin. |
| `Pinning.PinKept` | internal/orchestrate/orchestrate.go:238-240 | Once set, the pin survives every later level. |
| `Pinning.PlainIsSafe` | internal/driver/dumpdir/dumpdir.go:51-82 | A newest dump that is a plain file with a base name and a non-zero mtime is safe to pin. |
| `Pinning.PinningFaithful` | internal/exec/exec.go:218-258 | On a directory safe to pin, the unpinned level that resolves a snapshot ends in error or judged the very file and mtime it reports, with a pin the guard compares. |
| `Pinning.PinnedFaithful` | internal/exec/l3.go:36-67 | Under a guarded pin, L2 and L3 judge the pinned file at its pinned mtime or end in error. |
| `Pinning.WorkingPinnedAnswers` | internal/exec/l3.go:36-67 | Where everything around the directory works, a pinned L2 or L3 answers with its checks' verdict on the pinned file exactly when that is readable and has the pinned mtime, if not zero; otherwise it errs. |
| `Pinning.WorkingLevelAnswers` | internal/exec/exec.go:218-258 | Where everything works and the newest dump is a plain file, every unpinned level answers with its checks' verdict on that dump and pins it. |
| `Pinning.UnpinnedIsNewest` | internal/driver/dumpdir/dumpdir.go:51-82 | Unpinned, the snapshot a level reports is a listed entry at its own time, and no matching entry is newer. |
| `Pinning.BrokenLevelErrs` | internal/exec/exec.go:718-773 | Where something does not work the level says so: L3 is left out without a sandbox, and an unreadable directory, a failed or empty listing that is needed, and a failed scratch space or copy are errors that judge nothing. |
| `Pinning.WindowIgnoresPin` | internal/exec/exec.go:731-741 | With pick all-matching-window, a dump that lands between L1 and L2 becomes part of what L2 judges. |
| `Pinning.WindowExactly` | internal/exec/exec.go:731-752 | With pick all-matching-window, every run that starts on a directory judges its pin only if and only if nothing is listed, or some listed dump cannot be read and no other than the newest, at its listed time, can; so no directory with only readable dumps is safe. |
| `Gate.GateSafety` | internal/scheduler/scheduler.go:45-81 | Over every interleaving, tokens equal in-flight claims plus half-done releases, never exceed the concurrency, and no drill has two active holders. |
| `Gate.PlayKeeps` | internal/scheduler/scheduler.go:51-81 | Every interleaving of acquisitions and release steps keeps the gate invariant and its capacity. |
| `Gate.ReceiveNeverBlocks` | internal/scheduler/scheduler.go:74-79 | A release that deleted its claim can always receive its token at once. |
| `Gate.ReleaseOnlyOwnClaim` | internal/scheduler/scheduler.go:74-79 | A release never removes another acquisition's claim, and a repeated one changes nothing. |
| `Gate.RefusalExplained` | internal/scheduler/scheduler.go:60-73 | A drill is refused exactly while it is held or while claims and half-done releases make up the configured concurrency; after all releases any drill is granted. |
| `Gate.ConcurrencyIsUsable` | internal/scheduler/scheduler.go:51-73 | As many different drills as the configured concurrency are all granted on a new gate. |
| `Gate.Gate.TryAcquire` | internal/scheduler/scheduler.go:60-81 | Grants exactly when the drill is not in flight and a token is free, and hands out a release bound to this acquisition. |
| `Gate.Release.Call` | internal/scheduler/scheduler.go:74-79 | The first call removes the claim and one token, later calls change nothing, and the invariant holds. |
| `Schedule.NextIsLeastSlot` | internal/scheduler/schedule.go:23-24 | `Next(t)` is the least slot strictly after t. |
| `Schedule.FoundIsLeastSlot` | internal/scheduler/schedule.go:23-24 | For any accepted expression, `Next(t)` is the least slot strictly after t wherever it finds one. |
| `Scheduler.Scheduler.Due` | internal/scheduler/scheduler.go:183-196 | Returns exactly the jobs whose fire has come, once each and in order; each of them is moved to the slot its schedule names after now, with a fire one draw behind it, the others are untouched, and the soonest of the new fires is returned. |
| `Scheduler.Scheduler.Visit` | internal/scheduler/scheduler.go:183-196 | A job is dispatched exactly when its fire has come, and then has the slot its schedule names after now, with a fire one draw behind it; otherwise it is untouched. |
| `Scheduler.Scheduler.AdvanceJob` | internal/scheduler/scheduler.go:198-200 | The next fire is what the schedule answers for now, plus a draw. |
| `Scheduler.Scheduler.Jitter` | internal/scheduler/scheduler.go:202-208 | The delay lies within the bound, and is none when the bound is not positive. |
| `Scheduler.Scheduler.Add` | internal/scheduler/scheduler.go:107-145 | A registered job starts at what its schedule answers for now, plus a draw. |
| `Scheduler.DueProgress` | internal/scheduler/scheduler.go:183-200 | For any accepted schedules, one pass leaves every fire in the future and returns the exact wake-up if and only if no due job's schedule has run dry; the wake-up reads as "no jobs" if and only if there are none or the last one ran dry and drew no jitter. |
| `Scheduler.SoonestIsMinimum` | internal/scheduler/scheduler.go:183-196 | For positive fires the running minimum with its zero sentinel is the true minimum. |
| `Scheduler.ZeroFireHidesTheOthers` | internal/scheduler/scheduler.go:183-196 | A zero fire makes the pass forget every fire before it. |
| `Scheduler.SoonestReadsNone` | internal/scheduler/scheduler.go:183-196 | The running minimum reads as none exactly when there are no fires or the last one is zero. |
| `Scheduler.SlotsNeverRepeat` | internal/scheduler/scheduler.go:149-200 | For any accepted schedule, any non-decreasing clock and any jitter: a job is dispatched at most once per pass, each time for the first slot after the dispatch before it, or after its registration, and its next slot is again the first one, with a fire one draw behind it, if and only if the schedule had a slot to offer at registration and at every dispatch; so no slot fires twice, none is left out, and downtime yields one dispatch. |
| `Scheduler.DryJobNeverRests` | internal/scheduler/scheduler.go:183-200 | A job whose schedule never has a slot is dispatched on every pass, whatever it draws. |
| `Scheduler.DryJobSpinsOrStalls` | internal/scheduler/scheduler.go:161-177 | Alone, a job that ran dry makes the loop spin if it drew a positive jitter, and wait for nothing if it drew none. |
| `Scheduler.DispatchedWhenDue` | internal/scheduler/scheduler.go:183-196 | A pass dispatches the job exactly when the clock has reached its fire. |
| `Digest.DigestOncePerSlot` | cmd/redrill/notify.go:164-179 | For any non-decreasing check times at most one digest per passed slot, and exactly one per slot if and only if some check fell between every two consecutive slots. |
| `Digest.SharedGap` | cmd/redrill/notify.go:164-179 | A concrete schedule and check time at which two slots share one digest. |
| `Digest.DigestsConsumeFreshSlots` | cmd/redrill/notify.go:164-179 | Each digest consumes at least one slot, all after construction and after whatever earlier digests consumed. |
| `Digest.MarkInvariant` | cmd/redrill/notify.go:62-65 | The mark is the construction time or a check time, and no slot is pending after the last check. |
| `Digest.CoveredStep` | cmd/redrill/notify.go:164-179 | A check keeps all slots covered exactly when it consumes at most one slot. |
| `Digest.SlotsSplit` | cmd/redrill/notify.go:164-179 | The slots of consecutive intervals add up. |
| `Staleness.HeadlineIsHighest` | internal/scheduler/staleness.go:27-38 | The headline is L3 if configured, else L2, else L1: the strongest level a run of the whole drill executes, and missing exactly when none is configured. |
| `Sla.StaleExactly` | internal/scheduler/staleness.go:15-20 | In every reachable state a drill is stale exactly when it has an SLA and its proof cannot be read or no run that earned a proof of its headline level started within the SLA. |
| `Sla.RecordedIsProven` | internal/orchestrate/orchestrate.go:183-194 | A run that recorded a proof earned it: a pass committed by itself, with that level passing among its outcomes and in the executor's answers. |
| `Sla.ProofIsLatest` | internal/store/state.go:16-48 | A stored proof exists exactly when some run earned it, and is the start of the latest such run. |
| `Alerter.ClearedBetweenAlerts` | cmd/redrill/notify.go:108-139 | Over any interleaving, between two decisions to alert on a drill its flag was cleared by a sweep that found the proof fresh or by a passing run. |
| `Alerter.OneAlertPerEpisode` | cmd/redrill/notify.go:71-90 | Alerts sent never exceed clears by more than one, and with nothing outstanding there is exactly one alert per episode. |
| `Alerter.StaleSweepRaises` | cmd/redrill/notify.go:108-139 | A sweep that finds the proof stale leaves the flag up, in an episode with its own alert. |
| `Alerter.SweepSetsFlag` | cmd/redrill/notify.go:116-139 | One look of a sweep at a drill: the flag then says what it found, an alert is to be sent exactly when a flag went up, and nothing changes where flag and finding agree. |
| `Alerter.RepeatExactly` | cmd/redrill/notify.go:108-139 | With the daemon's single sweeper, which sends before it looks at the next drill: two alerts with no clear between them can follow a point if and only if the drill's flag was cleared there under an alert still to be sent. |
| `Alerter.ClearMayOvertakeSend` | cmd/redrill/notify.go:86-90 | The concrete interleaving in which a passing run's clear overtakes the first stale alert. |
| `Alerter.PassLeavesFlagExactly` | cmd/redrill/notify.go:78-90 | For every interleaving, after a passing run's completion its drill is still flagged if and only if the flag was down when the run read it, has come up since, and the run before it neither failed nor errored. |
| `Alerter.SweepDuringCompletion` | cmd/redrill/notify.go:78-90 | The concrete interleaving: a sweep raises the flag between a passing run's read and its end, and the flag stays up. |
| `Alerter.OnlyPassesClear` | cmd/redrill/notify.go:82-90 | The completion of a run that did not pass changes no flag, whatever ran in between. |
| `Alerter.PlayInv` | cmd/redrill/notify.go:71-139 | Every interleaving keeps flag, raises, clears, sent and unsent alerts in balance. |
| `AlerterState.Alerter.SweepStale` | cmd/redrill/notify.go:108-139 | One sweep alerts exactly the drills that are stale and not flagged, once each in order, and leaves the flags saying which swept drills are stale. |
| `AlerterState.Alerter.AfterRun` | cmd/redrill/notify.go:71-90 | A failed run announces a fail and an errored one an error; a passing run announces a recovery exactly when the flag was up or the run before it failed or erred, and otherwise nothing. Uninterrupted by a sweep, a passing run leaves its drill's flag down and touches no other; any other verdict changes no flag. |
| `AlerterState.Alerter.MaybeDigest` | cmd/redrill/notify.go:164-179 | Each check keeps the mark and the number of digests at what `Digest` says of the checks so far. |
| `Glob.GlobCorrect` | internal/checks/filecount.go:98-124 | For every valid pattern matching never errs, and succeeds exactly when each `**` can be expanded to zero or more arbitrary segments so that the pattern fits the path segment by segment. |
| `Glob.MatchSegmentsLoop` | internal/checks/filecount.go:98-124 | The loop terminates and computes the recursion `GlobCorrect` is about, error cases and search order included. |
| `Glob.AdjacentDepthsCollapse` | internal/checks/filecount.go:98-124 | Adjacent `**` segments collapse, anywhere in the pattern. |
| `Glob.ValidGlob` | internal/config/check.go:180-190 | Accepts exactly the patterns none of whose segments other than `**` is malformed for any name. |
| `Glob.ValidatedGlobNeverErrs` | internal/checks/filecount.go:91-96 | A validated pattern never errs at match time, with or without a slash. |
| `Glob.MatchesBaseOrPath` | internal/checks/filecount.go:91-96 | A pattern without a slash meets exactly the base name, at any depth; a valid one with a slash the whole path, segment by segment. |
| `Glob.SplitExactly` | internal/checks/filecount.go:91-96 | Splitting cuts at every slash and nowhere else. |
| `Glob.CountFiles` | internal/checks/filecount.go:30-88 | The walk counts exactly the positions of regular matching files of sufficient size; it fails exactly when a step errs, a malformed match stops it, or a matching file's info cannot be read, and for a validated glob never for the pattern's sake. |
| `Redact.RedactionComplete` | internal/redact/redact.go:79-94 | Every occurrence of a registered secret in the output overlaps an inserted placeholder. |
| `Redact.DisjointSecretsVanish` | internal/redact/redact.go:62-70 | A secret that cannot be laid over the placeholder never occurs in the output, in particular one that shares no character with it. |
| `Redact.SurvivesExactly` | internal/redact/redact.go:62-94 | A registered secret can be left in some redacted text if and only if, shifted by some offset, it meets the placeholder and agrees with it wherever they meet. |
| `Redact.SurvivorLaysOver` | internal/redact/redact.go:62-70 | A registered secret found in an output lies over the placeholder at some offset. |
| `Redact.DisjointNeverLaysOver` | internal/redact/redact.go:62-70 | A secret that shares no character with the placeholder cannot be laid over it. |
| `Redact.SurvivorShares` | internal/redact/redact.go:62-70 | A registered secret that occurs in the output has a character of the placeholder. |
| `Redact.PlaceholderSecretStays` | internal/redact/redact.go:62-70 | A secret made of placeholder characters is found in its own redaction. |
| `Redact.OrderIrrelevant` | internal/redact/redact.go:79-94 | Any longest-first ordering of the registered set redacts alike: registration order, map order and sort ties do not show. |
| `Redact.LongestIsCut` | internal/redact/redact.go:79-94 | At every place of the text the longest registered secret that starts there is cut, and a character is kept only where none starts. |
| `Redact.PiecesRestoreInput` | internal/redact/redact.go:62-70 | Only registered secrets are cut: putting them back gives the input. |
| `Redact.EmptyRedactsNothing` | internal/redact/redact.go:62-70 | With no secrets the text is unchanged. |
| `Redact.Redactor.AddSecret` | internal/redact/redact.go:38-52 | Adds exactly the non-blank values, and never leaves a cached replacer that disagrees with the set. |
| `Redact.Redactor.ReplacerLocked` | internal/redact/redact.go:79-94 | A non-nil replacer is a longest-first ordering of exactly the current set. |
| `Redact.Redactor.Redact` | internal/redact/redact.go:62-70 | The output depends on the registered set and the text only, and every registered secret left in it overlaps a placeholder. |
| `Sample.SelectSample` | internal/exec/sample.go:18-61 | The paths are strictly ascending, exactly the picked ones, and the total is the sum of their sizes. |
| `Selection.SelectionMeaning` | internal/exec/sample.go:18-61 | For distinct paths and any permutation: only regular files with their own sizes, every file under an include path, the M newest of the rest, at most includes + M + N entries. |
| `Selection.DrawnMeaning` | internal/exec/sample.go:46-55 | The draw picks min(N, rest) different files of the rest, all of which are in the selection. |
| `Selection.PickedOnly` | internal/exec/sample.go:18-61 | Nothing else is selected: a file is under an include path, among the M newest of the rest, or drawn. |
| `Selection.NewestHolds` | internal/exec/sample.go:38-50 | The first n of the sorted pool hold every file that fewer than n others precede under (mtime, path). |
| `Sample.UnderAny` | internal/exec/sample.go:63-71 | True exactly when the path is an include path or lies below one. |
| `Sample.UnderExactly` | internal/exec/sample.go:63-71 | An include path, with or without a final slash, covers exactly itself and the paths below it. |
| `Sample.Collect` | internal/exec/sample.go:50-61 | From the map in any order: its keys strictly ascending and the sum of its values. |
| `Sample.LessExactly` | internal/exec/sample.go:36-41 | The path order: a proper prefix, or a smaller character at the first difference, comes first. |
| `Sample.SumAdds` | internal/exec/sample.go:56-61 | The total is the sum of the selected sizes, piece by piece. |
| `Sorting.SortCorrect` | internal/exec/sample.go:38-44 | The sort contract the selection relies on: ordered and a permutation. |
| `Quota.LimitedWriter.Write` | internal/exec/l3.go:465-474 | Remaining stays non-negative, remaining plus bytes written is the quota even for a short-writing sink, and the quota error comes exactly when the write does not fit. |
| `Quota.Copy` | internal/exec/l3.go:453-474 | Stopping at the first error, the output is a prefix of the input no longer than the quota; with a healthy sink the copy succeeds exactly when the input fits, and otherwise fills the quota to the byte. |
| `Quota.Stage` | internal/exec/l3.go:453-463 | A non-positive limit means no limit; otherwise the limit bounds what lands. |
| `Quota.ConcatAdds` | internal/exec/l3.go:453-474 | The input of a copy is its chunks, end to end. |
| `Snapshots.SortByTimeDesc` | internal/driver/restic/restic.go:438-444 | In place: descending by time and a stable permutation, for any input. |
| `Snapshots.SwapKeeps` | internal/driver/restic/restic.go:438-444 | Swapping neighbours of different times keeps the contents and the order among equal times. |
| `Snapshots.ResolveNewest` | internal/exec/exec.go:433-445 | Unpinned, the resolved snapshot is one no other is newer than, the first listed among the newest; pinned, it is the pin; an empty repository resolves to none. |
| `Config.ValidateL1` | internal/config/drill.go:103-153 | Adds no error exactly when no field belongs to another source type, the subset and anomaly bounds hold, and some check can fail. |
| `Config.ValidateCheck` | internal/config/check.go:227-239 | Adds no error exactly when the kind may stand at the level and its payload is well formed, kind by kind. |
| `Config.ValidateChecks` | internal/config/drill.go:155-199 | Adds no error exactly when every check is valid. |
| `Config.ValidateL2` | internal/config/drill.go:155-199 | Adds no error exactly when the restore mode, scope and selection are consistent and every check is valid. |
| `Config.ValidateL3` | internal/config/drill.go:201-224 | Adds no error exactly when image, network, loader and extract path are acceptable, there is at least one check, and every check is valid. |
| `Verdicts.ValidL1PassIsNotVacuous` | internal/config/drill.go:147-153 | Under a validated configuration of any source type, a passing L1 has only passing evidence and at least one entry that is not weak. |
| `Verdicts.EngineL1SoundExactly` | internal/exec/exec.go:325-361 | For borg and restic, no pass is without proof exactly when some check can fail or the advisory size check is absent. |
| `Verdicts.EngineL1PassMeans` | internal/exec/exec.go:325-361 | A borg or restic L1 passes exactly when some check is configured, the engine's own check passes if asked for, the newest snapshot exists and is no older than allowed if its age is asked for, and the listing works if needed; it fails exactly when the engine's check fails or the newest snapshot is too old, and errs otherwise. |
| `Verdicts.EngineEntries` | internal/exec/exec.go:476-527 | The evidence entry by entry: native check, then the newest snapshot's age with its pass and fail conditions, then the weak size entry. |
| `Verdicts.DumpdirL1PassProves` | internal/exec/exec.go:218-275 | A passing dump-directory L1 carries one passing, non-weak entry per selected dump and configured check. |
| `Verdicts.RunDumpdirL1` | internal/exec/exec.go:218-258 | The L1 judges the newest listed dump, or with the window all of them in order, by exactly the configured checks, one entry each; it fails if some entry fails, passes if there are entries and all pass, and errs without a listing or without entries. |
| `Verdicts.DumpdirL1Judges` | internal/exec/exec.go:235-275 | The same of the function the method computes: which dump and which check each entry is about, from the three configuration fields. |
| `Verdicts.AggregateLoop` | internal/exec/exec.go:278-296 | The flag-folding loop answers fail exactly when some entry fails, error exactly when some entry errs and none fails, and pass otherwise. |
| `Verdicts.PassMeansAllPass` | internal/exec/exec.go:278-296 | A level aggregates to pass if and only if every evidence entry passes. |
| `Verdicts.L2PassMeans` | internal/exec/exec.go:809-839 | Every check that is not switched off, at its position and in order, contributes exactly one entry: its judgement, weak for canary files and entropy, or an error for a kind that cannot be built; L2 passes exactly when all entries pass and fails exactly when some fail. |
| `Verdicts.L2PassNeeds` | internal/exec/exec.go:841-883 | L2 passes exactly when each such check can be built and passes. |
| `Verdicts.L2SoundExactly` | internal/exec/exec.go:809-839 | L2 has no minimum-check rule: its passes carry proof if and only if some enabled check is more than a comfort check. |
| `Verdicts.EmptyL2Passes` | internal/exec/exec.go:278-296 | Without checks L2 passes on no evidence. |
| `Verdicts.FinishL2` | internal/exec/exec.go:809-839 | The loop with its two switched-off kinds and its unbuildable case computes the function `L2PassMeans` is about. |
| `Verdicts.ValidatedChecksAreBuildable` | internal/exec/exec.go:841-883 | Every check validation accepts at a level is one the executor can build there. |
| `Verdicts.ValidL3PassMeans` | internal/exec/l3.go:146-227 | A validated L3 passes exactly when the dump is not trapped, loads and every configured check passes, repeated checks judged one by one; there is at least one, and each contributes one entry in order behind the load's. |
| `Verdicts.L3PassMeans` | internal/exec/l3.go:146-227 | Validated or not: a trapped dump fails on that alone; else the load's entry comes first, every configured check adds exactly one in order, an error if it cannot be built, and the level passes exactly when all pass and fails exactly when some fail. |
| `Verdicts.LoadAndCheck` | internal/exec/l3.go:196-227 | The evidence loop behind the version trap and the load computes the function `ValidL3PassMeans` is about. |

## Left out

- Subprocesses, FUSE mounts, Docker sandboxes and their timeouts: an executor step is an arbitrary answer.
- The SQL engine, JSON and YAML decoding, compression, cron, regular expressions and `path.Match`: each appears only through the contract stated where it is used.
- HTTP server, authentication, metrics, reports, message rendering, the web UI, and the interactive commands: formatting and input/output.
- Floating-point checks (entropy, size anomaly, percentage tolerance) and the expect grammar: only their verdict appears.
- Evidence and artifact rows: only the failure of writing them is modelled; the reading queries of the store (list, latest, baseline, step listings) would only add easy members.
- The trigger and host fields of a run, and the texts of error messages and findings.
- Integer overflow: byte counts, ids and durations are unbounded.
- Strings are sequences of characters, not of bytes; lengths that the source counts in bytes order prefixes the same way.
- File changes inside one level: each level sees one state of the directory, and a link leads straight to its file.
- Pinning of borg and restic across levels: their snapshot ids are immutable, and an L1 with only `native_check` resolves no snapshot.
- The dispatch goroutine of the scheduler and its context handling: `Gate` and `Scheduler` meet only in the actions they share.
- A passing run clears its drill's stale flag, where `Alerter.PassLeavesFlagExactly` says it does, even when the headline level was skipped, so nothing is stated about one alert per SLA breach; episodes are counted by the flag.
- `Scheduler.Scheduler.Jitter`: allows the bound itself, because the product of a fraction below one and a large bound may round up to it.
- `Scheduler.DueProgress`: asks that jitter bounds lie below the clock reading, which no duration exceeds since the zero time is two thousand years back.
- `Digest.DigestOncePerSlot`: asks for a schedule that always has a next slot, which the program's constant weekly one does.
- `Pinning.OneBackupPerRun`: asks for a newest dump that is safe to pin and for pick newest; `Pinning.OneBackupExactly` and `Pinning.WindowIgnoresPin` show why. A file is told by its name and mtime, as the guard tells it: other content under the same name and mtime counts as the same backup.
- `Selection.SelectionMeaning`: is about the paths selected; an empty selection means the whole snapshot to the restore driver, which is not part of this model.
- `Sorting.Sort` stands for the standard library's sorts, and the replacer's ordering loop for the sort by length; only their contracts matter.
