# Agentum: models and proofs of its stateful cores

Agentum runs coding agents on local and remote hosts. This project models the parts of
it where state, retries, caches and replays meet, and proves what they promise. Outcomes
of scripts, agents, SSH, tmux, the clock and the disk are left open: a model that needs
one takes any answer.

| file | what it models |
|---|---|
| `Harness.dfy`, `Backlog.dfy` | the harness driver: role phases around a feature loop around a two-gate retry loop |
| `PhaseLog.dfy` | the decision log a run's phase is rebuilt from after a restart |
| `SettleWait.dfy` | the timed wait for an agent to finish its turn |
| `CopyTree.dfy` | the worklist copy of a directory tree |
| `RuntimeLease.dfy` | the cross-process lease made of mkdir, an owner record and rename |
| `LockRegistry.dfy`, `LockOrder.dfy` | per-host locks behind weak references, and the order locks are taken in |
| `TunnelCache.dfy` | armed reverse forwards against the masters that really have them |
| `HostBrowser.dfy` | browsers on hosts: a registry keyed by slug, leases, changing host rows |
| `Transcript.dfy`, `TaskRecords.dfy`, `TodoRows.dfy` | plan, todos and tasks folded from a session transcript, and what each of them says about it |
| `Redaction.dfy`, `RedactionOutput.dfy`, `RedactionLimits.dfy`, `RedactionLists.dfy` | redacting secrets from startup diagnostics, what is shown, and what that cannot hide |
| `FileProbe.dfy`, `TmuxPanes.dfy`, `InputFrames.dfy` | the text protocols of remote hosts |
| `Basics.dfy`, `Text.dfy`, `Decimal.dfy` | `u32` wrap-around and the standard library's string operations |

Code that works in place is modelled in place: classes whose methods are proved against
functions or step relations, and loops with their invariants. Concurrent protocols are
step systems; their theorems hold in every reachable state of every run.

## Findings

Where a promise fails in a corner, the model keeps the code's behaviour, and a lemma says
exactly when the promise holds.

- **A role gate can retry for ever.** A feature blocks at `attempts >= max_retries`, a
  role gate at `attempt > max_retries`. With `max_retries` at the top of `u32` the second
  test never holds (`RetriesEndIff`); `Drive` says that a drive can go on without end in
  that case only, and what holds while it does. A feature's counter can wrap instead of
  blocking (`FailuresLeftIs`).
- **A finished run need not have finished every feature.** The next feature is sought
  among the pending ones, so a feature that was in flight before a drive is passed over:
  all features are done exactly when there was none, or role phases rebuilt the backlog
  (`AllDoneIff`).
- **A gate summary can rewrite the phase.** The agent's own text goes into the log. A
  summary that is the marker and a slug is read as that phase (`GateSummaryIsRead`), and
  makes a restart resume there (`GateSummaryRewritesPhase`); `StepAgreesIff` is the exact
  condition for every operation. A write that fails half way leaves an unfinished line,
  which the next transition is glued to. A restart right after a torn transition resumes
  rightly exactly when the slug was written (`TornResumeIff`); `TransitionIsReadIff` says
  when the transition after it is still read back, `TornTransitionSwallowsNext` gives a
  case where it is not.
- **The settle wait can outlast its timeout.** An event at exactly the timeout leaves zero
  time, not none, and the bus is polled again: the wait goes on exactly as long as the
  clock stands at the timeout and nothing ends it (`PastTimeoutIff`, `OutlastsTimeout`).
- **The runtime lease needs its stale check and rename to be one step.** They are not.
  A rename on a check that no longer holds can lead to two holders exactly when a live
  attempt is between `mkdir` and release at that moment (`LateRenameBreaksIff`), and two
  attempts that find one stale directory come to that (`LateRenameIsReachable`). The steps
  of `drop` may be parted.
- **Two destinations on one listen port wedge a host.** Once a host desires both they are
  never both on its master until its forwards are dropped (`ConflictPersists`); all that
  is desired can come to be on one master exactly when there is no such pair
  (`ArmableIff`). A reconcile may still report success, because it judges the generation
  it probed: that happens only when the probed master died meanwhile
  (`ConflictReconciledOnDead`, `ReconcileMayReport`, `ReportedWithConflict`). A clash with
  a forward that is on the master needs a replacement of the master before the second is armed (`NewForwardIff`);
  the pair can be reached from the start (`ConflictReachable`).
- **A create is deduplicated only until it is settled**: by its result, by a rewrite of the
  list, or by a clearing text (`AwaitsIff`, `CreateRepeatsIff`). One result read twice can
  end a subagent that shares its id with a create (`ApplyTwiceIff`, `SharedIdReadTwice`);
  without shared ids it cannot (`ApplyTwiceAfter`).
- **Redaction hides less than it seems to.** The loop can show a secret exactly when the
  secret shares text with the mark (`LoopShowsIff`): a part of `[REDACTED]`, a value that
  holds the mark, one that begins with an end of it, such as `]x`, or ends with a start of
  it, such as `x[`. The filter then puts
  together what control characters in the output had taken apart, after the loop is over:
  of the secrets that fit, the diagnostic can show all but those with a control character
  of their own and single characters outside the mark (`SplitSecretIff`,
  `DiagnosticShowsIff`). Which other secrets stand beside it makes a difference for one
  list: a value is also hidden when one of its characters is a secret by itself, unless
  that character is one of the mark's, which a mark can put back: with `x[` and `[` as
  secrets, `x[` is shown (`BracketComesBack`, `FilteredShowsIff`, `ExposedPlainlyIff`, `DiagnosticListIff`).
- **A truncated file probe can read as a missing file** when its content holds that marker
  (`TruncatedReadsMissingIff`).

## What the theorems rely on

- Runtime lease: process id and start time together are unique; a live process is not
  held up for 30 seconds between mkdir and its record, or between removing the record and
  the directory. `AtMostOneHolder` further takes what a claim renames to be still stale.
  One observation stands for the reads of the owner file and of the directory's age.
- Tunnels: a replacement master has a new generation; a listen port is bound at most once
  on one master; nothing but a master's death takes a reverse forward away.
- Browsers: start and host changes hold the host's lease; saved hosts have distinct
  destinations; the local host's row does not change; rows change only through the host
  routes, after their bridges were retired.
- Locks: a mutex is granted to one task at a time, and a new mutex is never an old one.
- Settle wait: the clock does not go back; a timer does not fire early.

## Model

| member | source | states |
|---|---|---|
| Harness.HarnessRun.Drive | crates/agentum-server/src/harness.rs:1876-2106 | one whole drive, whatever scripts, agents, verdicts and disk answer. At every step at most one feature is in flight (apart, in the backlog it found, from those in flight before; in the backlog that role phases put in its place without exception). A prompt leads to the unit gate, a green unit gate to the QA gate, a red gate back to a prompt, a green QA gate to the end of the feature, or with HITL-at-QA to nothing more; so with that flag no feature is finished and Done means that none was pending. A feature is taken only when the pending ones before it are done. Gates run within their bounds; blocked features start over; without HITL flags nothing is parked. An end without an error had a green init script and is one of three: Done, with every pending feature finished and, with role phases on, the phases entered in order and the three role gates passed; a role gate out of retries, blocked, or with hitl_on_block waiting for a human; a feature whose last gate was red with its retries used up, or green at QA and waiting for a human. An error has a cause: something outside failed, the spec gave no feature, or a role gate can never run out of retries. The log and the phase stay in step; the drive ends and gives the driver slot back unless role phases are on with max_retries at the top of u32 |
| Harness.HarnessRun.Conclude | crates/agentum-server/src/harness.rs:1896-2106 | what a drive comes to, from how it ended before or after entering the feature loop: an end without an error is Done with every feature done exactly when role phases rebuilt the backlog or no feature was in flight before, or says at which gate it stopped |
| Harness.HarnessRun.AllDoneIff | crates/agentum-server/src/harness.rs:1424-1432 | a finished drive leaves all features done exactly when none was in flight before it, because the next feature is only ever sought among the pending ones |
| Harness.NothingFinishes | crates/agentum-server/src/harness.rs:2069-2078 | with HITL-at-QA a drive finishes no feature |
| Harness.HarnessRun.NothingToConfirm | crates/agentum-server/src/harness.rs:2069-2078 | so with HITL-at-QA only a backlog without pending features is completed |
| Harness.HarnessRun.DurableResumes | crates/agentum-server/src/harness.rs:1630-1653 | if every log write of a drive landed and no entry held the marker, a restart resumes in the phase the drive left |
| Harness.HarnessRun.DriveInner | crates/agentum-server/src/harness.rs:1896-2106 | the drive between taking and releasing the driver slot |
| Harness.HarnessRun.WorkThrough | crates/agentum-server/src/harness.rs:1940-2106 | feature loop, then review gate: Done means completed, a halt names its gate, an error has a cause |
| Harness.HarnessRun.RunFeatureLoop | crates/agentum-server/src/harness.rs:1941-2105 | ends; takes pending features in backlog order until none is left or one halts the run; unit-gate runs of each feature stay within what its counter allows |
| Harness.HarnessRun.TakeFeature | crates/agentum-server/src/harness.rs:1961-2104 | one feature taken: the set of pending features shrinks, others are untouched |
| Harness.HarnessRun.DriveFeature | crates/agentum-server/src/harness.rs:1974-2104 | the retry loop ends after at most `FailuresLeft` unit-gate runs; only this feature changes |
| Harness.HarnessRun.GateRound | crates/agentum-server/src/harness.rs:2012-2100 | one pass: unit gate, then QA gate, then done, parked, blocked or round again with one more attempt |
| Harness.HarnessRun.QaStage | crates/agentum-server/src/harness.rs:2033-2097 | the second half of a pass, after a green unit gate: a green QA gate finishes the feature, or with HITL-at-QA parks it and the run; a red one prompts again or blocks; an error has a cause |
| Harness.HarnessRun.HandleGateFailure | crates/agentum-server/src/harness.rs:2114-2153 | a red gate uses up one attempt; it halts exactly with the feature blocked at the limit, else prompts the agent again |
| Harness.HarnessRun.RunVerifyOnce | crates/agentum-server/src/harness.rs:1186-1243 | right after a prompt: the feature is verifying, one unit verdict is recorded; an error records none |
| Harness.HarnessRun.RunQaGate | crates/agentum-server/src/harness.rs:1247-1280 | the feature is ready to test, one QA verdict is recorded: green exactly without a script, with a script that exits with zero, or with a verdict file that says so; a missing or unreadable file is red |
| Harness.HarnessRun.MarkFeatureDone | crates/agentum-server/src/harness.rs:1283-1314 | only reached with this feature's green QA gate as the newest event, itself right after its green unit gate |
| Harness.HarnessRun.AwaitConfirm | crates/agentum-server/src/harness.rs:1324-1330 | parks the feature and the run |
| Harness.HarnessRun.RecordFeatureFailure | crates/agentum-server/src/harness.rs:1363-1402 | counts the failure with `u32` wrap-around and blocks at `attempts >= max_retries` |
| Harness.HarnessRun.ResetBlockedFeatures | crates/agentum-server/src/harness.rs:1490-1517 | every blocked feature is pending with a fresh budget, all others are as before |
| Harness.HarnessRun.SetFeatureState | crates/agentum-server/src/harness.rs:1599-1623 | changes the state of the one feature with that id |
| Harness.HarnessRun.SetPhase | crates/agentum-server/src/harness.rs:1630-1653 | enters the phase, clears the gate counter, and notes exactly this transition |
| Harness.HarnessRun.EnterPhase | crates/agentum-server/src/harness.rs:1630-1653 | memory and log after a transition are those of the specification's step |
| Harness.HarnessRun.AppendDecision | crates/agentum-server/src/harness.rs:1061-1073 | the log after an entry is that of the specification's step; a write that fails leaves any beginning of the line |
| Harness.HarnessRun.RunRoleGate | crates/agentum-server/src/harness.rs:2436-2597 | never more agent runs than max_retries + 1 while max_retries is below the top of u32, and it holds the run for lack of retries only after exactly that many; it can go on without end only at the top |
| Harness.HarnessRun.RunRoleOnce | crates/agentum-server/src/harness.rs:2477-2596 | one agent run and its decision: advance exactly when the verdict file says passed, so not when it is missing or unreadable; otherwise retry within the limit, at the top of u32 always, and out of retries blocked, or with hitl_on_block waiting for a human |
| Harness.HarnessRun.ActOn | crates/agentum-server/src/harness.rs:2524-2594 | advance logs and passes the role, block and await hold the run, retry changes nothing |
| Harness.HarnessRun.RunPreFeaturePhases | crates/agentum-server/src/harness.rs:2602-2640 | authoring gate, architecture gate, decompose, executing, in this order; executing means a non-empty fresh backlog of the criteria of the spec that was read |
| Harness.HarnessRun.PlanFeatures | crates/agentum-server/src/harness.rs:2618-2639 | between the gates and the feature loop |
| Harness.HarnessRun.RunReviewPhase | crates/agentum-server/src/harness.rs:2645-2658 | done only through a passed review gate |
| Harness.HarnessRun.Finish | crates/agentum-server/src/harness.rs:1942-1957 | no pending feature: review gate if any, then Done |
| Harness.HarnessRun.Prepare | crates/agentum-server/src/harness.rs:1899-1938 | init script, reset of blocked features, role phases: what the feature loop starts from |
| Harness.HarnessRun.Start | crates/agentum-server/src/harness.rs:1103-1137 | a registered run is idle in the phase its log records |
| Harness.RetriesEndIff | crates/agentum-server/src/harness.rs:435-453 | a role gate's retries can end exactly when max_retries is below the counter's top value |
| Backlog.FailuresLeftIs | crates/agentum-server/src/harness.rs:1363-1402 | failures until a feature blocks: max(1, max_retries - attempts), except that a counter at its top wraps |
| Backlog.DeriveBacklog | crates/agentum-server/src/harness.rs:884-925 | the features are, in order, those of the lines that are blanks, a box, and a name between blanks: numbered from 1, of that name, not tried, Done exactly when the box is checked; no other line gives one |
| Backlog.CriterionIff | crates/agentum-server/src/harness.rs:886-900 | the parser takes a line for a criterion of that name and state exactly when it is blanks, a box of six characters, and a non-empty name between blanks |
| Backlog.RoundTrip | crates/agentum-server/src/harness.rs:884-925 | criteria written one a line and read back give the same names and states in order |
| Backlog.DerivedIsFresh | crates/agentum-server/src/harness.rs:901-915 | derived features have distinct ids, no attempts, and are pending or done |
| PhaseLog.SlugRoundTrip | crates/agentum-server/src/harness.rs:342-370 | reading back a phase's slug gives the phase |
| PhaseLog.ResumesWhere | crates/agentum-server/src/harness.rs:375-383 | a run resumes in the phase of the last line that records one |
| PhaseLog.ResumesInLoop | crates/agentum-server/src/harness.rs:1107-1111 | and from a log without the marker in Executing |
| PhaseLog.EnteredEntryPhase | crates/agentum-server/src/harness.rs:375-383 | the log entry of a transition is read back as the phase entered |
| PhaseLog.RebuildAfterAppend | crates/agentum-server/src/harness.rs:375-383 | appending to a newline-terminated log: the entry's phase if it records one, else the old result |
| PhaseLog.EntryWithoutMarker | crates/agentum-server/src/harness.rs:375-383 | an entry without the marker leaves the rebuilt phase alone |
| PhaseLog.StepAgreesIff | crates/agentum-server/src/harness.rs:1630-1653 | log and memory still agree after a step exactly when a transition's line lands whole and what is written of any other entry is whole lines that record no other phase |
| PhaseLog.RunAgrees | crates/agentum-server/src/harness.rs:1630-1653 | log and memory agree after every faithful run |
| PhaseLog.DurableRunAgrees | crates/agentum-server/src/harness.rs:1061-1073 | writes that land and entries without the marker are enough |
| PhaseLog.DurableRunResumes | crates/agentum-server/src/harness.rs:1103-1137 | after such a run a re-registered run is in the same phase |
| PhaseLog.TextAgreesIff | crates/agentum-server/src/harness.rs:375-383 | whatever text is appended to a complete log: agreement with a phase afterwards exactly when the text is whole lines and its last recorded phase, or else the log's, is that phase |
| PhaseLog.GateSummaryIsRead | crates/agentum-server/src/harness.rs:2524-2558 | a gate entry whose summary is the marker and a slug is read as that phase, whatever the gate and its outcome |
| PhaseLog.GateSummaryRewritesPhase | crates/agentum-server/src/harness.rs:2524-2558 | written in another phase, such an entry makes a restart resume in the summary's phase |
| PhaseLog.TransitionAfterFragment | crates/agentum-server/src/harness.rs:375-383 | after any unfinished last line: the transition is read back if the line has no marker, else the phase the line had already closed, or that of the complete lines |
| PhaseLog.TransitionIsReadIff | crates/agentum-server/src/harness.rs:375-383 | the exact condition for a transition after an unfinished line to be read back |
| PhaseLog.TornResumeIff | crates/agentum-server/src/harness.rs:1061-1073 | a restart right after a torn transition resumes in the phase entered exactly when the write got to the end of its slug |
| PhaseLog.TornTransitionSwallowsNext | crates/agentum-server/src/harness.rs:1061-1073 | a transition torn right after its slug makes the next transition unreadable as well |
| SettleWait.WaitForSettle | crates/agentum-server/src/harness.rs:2777-2836 | on events and clock readings alone: the loop returns at the first round in which an earlier settle is waiting at or past grace, the clock is past the timeout, a timer fires at it, an own settle comes at or past grace, the own session is gone or the bus is closed, with the time and cause of that round; otherwise it waits on |
| SettleWait.WaitsIff | crates/agentum-server/src/harness.rs:2777-2836 | a wait is still on after some rounds exactly when none of them ends it |
| SettleWait.ReturnsIff | crates/agentum-server/src/harness.rs:2777-2836 | the return of the loop is that of the first round that ends it, with its time and cause |
| SettleWait.WaitIsToDeadline | crates/agentum-server/src/harness.rs:2793-2800 | the time waited for never reaches beyond the timeout, nor beyond grace once settled |
| SettleWait.OneReturn | crates/agentum-server/src/harness.rs:2777-2836 | there is at most one return |
| SettleWait.EarlyReturn | crates/agentum-server/src/harness.rs:2788-2835 | a return before min(grace, timeout) is a crash or stop of the own session, or a closed bus |
| SettleWait.ForeignEventsAreNoise | crates/agentum-server/src/harness.rs:2808-2828 | events of other sessions change no state and no return |
| SettleWait.EarlySettle | crates/agentum-server/src/harness.rs:2789-2822 | after a settle inside grace the wait is over by the round after the first wake-up at or past grace, before another event is looked at |
| SettleWait.TimeoutEnds | crates/agentum-server/src/harness.rs:2793-2807 | a wake-up past the timeout, or a timer at it, ends the wait |
| SettleWait.ExpiryEnds | crates/agentum-server/src/harness.rs:2799-2807 | a timer that fires ends the wait by the next round |
| SettleWait.PastTimeoutIff | crates/agentum-server/src/harness.rs:2793-2822 | after a wake-up at or past the timeout the wait is still on at any later round exactly when every round since read the clock at exactly the timeout, had no settle waiting for grace, and received nothing that ends the wait |
| SettleWait.OutlastsTimeout | crates/agentum-server/src/harness.rs:2793-2807 | a wait that goes on after a wake-up at the timeout |
| CopyTree.CopyDirContents | crates/agentum-server/src/harness.rs:795-818 | ends; succeeds exactly when no file stands above the destination, no file stands where a directory of the listing goes or the other way round, and no operation on one of its paths is broken; then looking a relative path up in the listing says what is at it below the destination, file content included, everything the listing does not name is as before, the missing directories above the destination are made, and the labels written are those of exactly the files |
| CopyTree.FailsIsRefused | crates/agentum-server/src/harness.rs:801-812 | some operation of the recursive copy has to fail exactly when some path of the listing is refused |
| CopyTree.ShownIsCopied | crates/agentum-server/src/harness.rs:795-818 | a disk that shows what the recursive copy makes has every object of the listing with its content, and nothing else new |
| CopyTree.LabelsPermute | crates/agentum-server/src/harness.rs:806-812 | the labels of the worklist order are a permutation of those of the recursive order |
| CopyTree.CopyInto | crates/agentum-server/src/harness.rs:795-818 | the worklist loop, from a destination whose parents are there |
| CopyTree.CopyItem | crates/agentum-server/src/harness.rs:800-816 | one directory of the worklist: it is made, its files are copied, its directories are pushed |
| CopyTree.CopyEntry | crates/agentum-server/src/harness.rs:803-815 | one entry, with the worklist's load going down |
| CopyTree.Perform | crates/agentum-server/src/harness.rs:801-812 | one object: fails exactly on a broken path or a clash, else the disk shows it and nothing else changed |
| CopyTree.TreeDistinct | crates/agentum-server/src/harness.rs:795-818 | the recursive copy writes no path twice |
| CopyTree.NextIsNew | crates/agentum-server/src/harness.rs:795-818 | what is still to do has a path not yet written |
| RuntimeLease.AtMostOneHolder | crates/agentum-server/src/lib.rs:251-331 | in every run of any processes, crashes and stale recovery included, at most one live attempt is between mkdir and release |
| RuntimeLease.RemovesOnlyItsOwn | crates/agentum-server/src/lib.rs:317-331 | a release or clean-up that changes the path finds its own directory there, never a successor's |
| RuntimeLease.ClaimsOnlyTheDead | crates/agentum-server/src/lib.rs:301-307 | a claim never takes a live attempt's directory |
| RuntimeLease.StepKeepsInv | crates/agentum-server/src/lib.rs:251-370 | every step keeps: each live occupant made the directory that is there, and it is recorded or young |
| RuntimeLease.OccupiedIsNotStale | crates/agentum-server/src/lib.rs:340-370 | a directory with a live occupant is never found stale |
| RuntimeLease.RecoversFromCrash | crates/agentum-server/src/lib.rs:278-308 | when the maker's process is dead, the grace period and five more steps give the lease to a newcomer |
| RuntimeLease.LateRenameBreaksIff | crates/agentum-server/src/lib.rs:289-307 | a rename carried out on an earlier stale check can lead to two holders, by steps none of which is late, exactly when a live attempt is between mkdir and release at that moment |
| RuntimeLease.LateRenameIsReachable | crates/agentum-server/src/lib.rs:289-307 | two attempts that both find a directory stale reach a state in which one is about to rename and the other holds the lease |
| RuntimeLease.CrashLeavesStale | crates/agentum-server/src/lib.rs:340-370 | a directory whose maker died before recording itself is found stale by two later attempts |
| RuntimeLease.CrashWhileMaking | crates/agentum-server/src/lib.rs:278-279 | such a directory is reached |
| RuntimeLease.OthersKeepMyDir | crates/agentum-server/src/lib.rs:251-331 | while an attempt occupies the path no step of anybody else changes what is there |
| RuntimeLease.Machine.AcquireAt | crates/agentum-server/src/lib.rs:251-315 | among any rivals, who may act between any two steps: acquired means held and recorded; a refusal names a live owner or a directory younger than the grace; a failure is reported exactly when a system call of the attempt failed or the directory vanished under it, and leaves nothing behind unless a removal failed too; contended means four stale directories were claimed; the one other outcome is a rename on a stale check that no longer held |
| RuntimeLease.Machine.Pass | crates/agentum-server/src/lib.rs:278-308 | one pass of the loop: a free path is taken or the attempt fails with a cause, an existing directory is refused or got out of the way |
| RuntimeLease.Machine.WriteOwner | crates/agentum-server/src/lib.rs:278-285 | the record is in place, or the attempt is over and cleaned up |
| RuntimeLease.Machine.ClaimStale | crates/agentum-server/src/lib.rs:287-308 | an existing directory: refusal, error with its cause, or the path is free again, unless the stale check no longer held at the rename |
| RuntimeLease.Machine.RenameClaimed | crates/agentum-server/src/lib.rs:289-307 | the rename after the check, with rivals in between: in time it keeps everybody else's lease, late it is reported as such |
| RuntimeLease.Machine.Drop | crates/agentum-server/src/lib.rs:317-331 | the directory is gone unless a removal failed or it was not ours |
| RuntimeLease.Machine.RemoveAll | crates/agentum-server/src/lib.rs:281-282 | record, then directory |
| LockRegistry.OneLockPerHost | crates/agentum-server/src/host_runtime.rs:1787-1804 | in every run what a task waits for or holds is the registry's lock of its host; two tasks have the same lock exactly when they are at one host, and one of them holds it at most |
| LockRegistry.OnlyLiveEntries | crates/agentum-server/src/host_runtime.rs:1793-1799 | after a call the registry has exactly the hosts somebody waits at or holds |
| LockRegistry.FreeHostIsGranted | crates/agentum-server/src/host_runtime.rs:1780-1804 | a task whose host nobody holds is not kept waiting by other hosts |
| LockRegistry.StepKeepsInv | crates/agentum-server/src/host_runtime.rs:1787-1804 | calls, grants and drops keep the registry and the references in agreement |
| LockRegistry.WarmLocks.WarmLock | crates/agentum-server/src/host_runtime.rs:1787-1800 | the in-place retain, upgrade and insert is the specified step, and gives everybody at the host the same lock |
| LockOrder.NoDeadlock | crates/agentum-server/src/host_runtime.rs:1806-2402 | with any number of operations at any hosts, while one is unfinished one can take its next step |
| LockOrder.ProgramOrdered | crates/agentum-server/src/host_runtime.rs:1806-2402 | every operation takes its lease before the tunnel lock, re-takes neither, gives both back |
| LockOrder.HolderMoves | crates/agentum-server/src/host_runtime.rs:1802-1824 | whoever holds a lock can go on, or waits for somebody who can |
| LockOrder.AdvanceUsesUp | crates/agentum-server/src/host_runtime.rs:2114-2203 | each step uses up one of the finitely many left |
| LockOrder.ScheduleUsesUp | crates/agentum-server/src/host_runtime.rs:1806-2402 | whoever is scheduled in whatever order, steps taken and steps left are constant in sum, and no step can be taken exactly when every operation is finished |
| LockOrder.AllCanFinish | crates/agentum-server/src/host_runtime.rs:1806-2402 | from every reachable state all operations can be brought to their end by nothing but their own steps, with every lock given back |
| LockOrder.StepKeepsInv | crates/agentum-server/src/host_runtime.rs:1802-1804 | starting, stepping and leaving keep the order and the exclusion of locks |
| TunnelCache.CacheIsReal | crates/agentum-server/src/host_runtime.rs:1731-1773 | over every interleaving a cached key with the live generation is a forward of that very master, and no forward is cached under two generations |
| TunnelCache.StepKeepsInv | crates/agentum-server/src/host_runtime.rs:1910-2203 | every operation step, and every death and replacement of a master, keeps the cache true |
| TunnelCache.DesiredChanges | crates/agentum-server/src/host_runtime.rs:2154-2203 | only a drop by the holder of that host's lease removes desired forwards, only remembering adds one |
| TunnelCache.RememberedDesired | crates/agentum-server/src/host_runtime.rs:1754-1759 | remembering changes the generation of one forward, or adds it |
| TunnelCache.DropIsFinal | crates/agentum-server/src/host_runtime.rs:2154-2191 | when a host's forwards are dropped nobody is about to put one back |
| TunnelCache.ConflictNeverArmed | crates/agentum-server/src/host_runtime.rs:1910-1957 | two desired forwards on one listen port are never both armed on the live master |
| TunnelCache.ConflictPersists | crates/agentum-server/src/host_runtime.rs:1910-1957 | until they are dropped they are never both on the host's master, in any run |
| TunnelCache.ArmableIff | crates/agentum-server/src/host_runtime.rs:1910-1957 | in any state, inside operations included, the desired forwards of a host can all come to be on one master, without dropping any, exactly when no two of them share a listen port |
| TunnelCache.ReconciledIsArmedIff | crates/agentum-server/src/host_runtime.rs:1910-1957 | a reconcile that succeeds, which is judged on the generation it probed, has armed the host's master exactly when that master is still the probed one |
| TunnelCache.ConflictReconciledOnDead | crates/agentum-server/src/host_runtime.rs:1910-1957 | with two desired forwards on one listen port success means that the probed master is gone |
| TunnelCache.ReconcileMayReport | crates/agentum-server/src/host_runtime.rs:1910-1957 | from any state some run makes a reconcile report success, whatever is desired, with its master replaced meanwhile |
| TunnelCache.RememberConflictsIff | crates/agentum-server/src/host_runtime.rs:1754-1759 | remembering makes a conflict exactly when there was one or the new forward clashes with a desired one |
| TunnelCache.NewForwardIff | crates/agentum-server/src/host_runtime.rs:2298-2352 | a forward not desired yet can come to be desired, while the host keeps its master, exactly when that master has no other destination on its listen port; for any desired set and any table |
| TunnelCache.ConflictReachable | crates/agentum-server/src/host_runtime.rs:2298-2352 | any two forwards on one listen port can come to be desired together, from the start, with every lock free |
| TunnelCache.ReportedWithConflict | crates/agentum-server/src/host_runtime.rs:1910-1957 | and from the start a reconcile can report success over such a pair |
| TunnelCache.TunnelControl.Reconcile | crates/agentum-server/src/host_runtime.rs:1910-1957 | never changes what any host desires; succeeds unless no master was found or a forward was not bound; success means every desired forward is cached, and real, for the probed generation |
| TunnelCache.TunnelControl.EnsureReverse | crates/agentum-server/src/host_runtime.rs:2305-2352 | succeeds unless no master was found or the forward was not bound; success means the forward is cached and real for the probed generation and is the one addition to what is desired |
| TunnelCache.TunnelControl.Remember | crates/agentum-server/src/host_runtime.rs:1754-1759 | replaces the same forward's older key, leaves other forwards |
| TunnelCache.TunnelControl.ArmForward | crates/agentum-server/src/host_runtime.rs:1933-1953 | a bound forward is real for every generation probed before |
| TunnelCache.TunnelControl.Forget | crates/agentum-server/src/host_runtime.rs:2154-2169 | success: masters gone, this host's keys and legacy mark gone, other hosts' kept; failure: bookkeeping unchanged |
| TunnelCache.TunnelControl.Discard | crates/agentum-server/src/host_runtime.rs:2180-2187 | drops this host's keys and legacy mark only |
| TunnelCache.TunnelControl.Invalidate | crates/agentum-server/src/host_runtime.rs:2195-2203 | masters gone, what is desired kept |
| TunnelCache.TunnelControl.RetireLegacyOnce | crates/agentum-server/src/host_runtime.rs:1806-1824 | a host not marked with this revision of its record loses its legacy masters and is marked, or the closing failed and it stays unmarked; a marked one is left alone |
| TunnelCache.Sorted | crates/agentum-server/src/host_runtime.rs:1913-1920 | the desired forwards, each once, in ascending order |
| HostBrowser.TouchesOnlyItsOwn | crates/agentum-server/src/host_browser.rs:544-655 | in every interleaving each kill and probe made for an entry goes to that entry's own destination, where no later start has registered a browser for the slug |
| HostBrowser.RegistryIsCurrent | crates/agentum-server/src/host_browser.rs:571-609 | the registry never holds a bridge whose host is gone or moved, so what a stale request forgets, after it gave the lease back and whatever was registered since, is nothing |
| HostBrowser.RetiredBeforeCommit | crates/agentum-server/src/host_browser.rs:637-655 | when a host's row changes no bridge of that host is registered |
| HostBrowser.RetireSparesOthers | crates/agentum-server/src/host_browser.rs:710-719 | retiring removes nobody else's bridge, even one that took over the slug |
| HostBrowser.StopKillsIff | crates/agentum-server/src/host_browser.rs:605-627 | a stop that holds the lease gets as far as its kill exactly when its entry is still the registered launch and is store-backed or local; then the bridge is forgotten and its own destination gets the kill |
| HostBrowser.ProbeIff | crates/agentum-server/src/host_browser.rs:544-602 | any other request gets as far as its probe under exactly that condition, at the bridge's own destination, and the registry stays |
| HostBrowser.StepKeepsInv | crates/agentum-server/src/host_browser.rs:479-719 | every step of every request keeps the registry, the leases and all copies of entries in order |
| HostBrowser.Bridges.Retire | crates/agentum-server/src/host_browser.rs:637-655 | the loop over the snapshot, among others: it succeeds exactly when no kill failed; then every bridge of the host at its own destination was killed and no bridge of the host is left; kills go to that destination only, and only its own bridges are taken out |
| HostBrowser.Bridges.RetireOne | crates/agentum-server/src/host_browser.rs:648-653 | one bridge: kill where the destination matches, then forget if it is still the same launch |
| HostBrowser.Bridges.ForgetIfSame | crates/agentum-server/src/host_browser.rs:710-719 | removes the entry exactly when its generation is the expected one |
| HostBrowser.Bridges.Register | crates/agentum-server/src/host_browser.rs:492-504 | a new registration is never taken for an older copy: nothing that compares with an entry made before forgets it |
| Transcript.FoldCoupled | crates/agentum-core/src/transcript.rs:251-590 | after any blocks: distinct task ids; pending starts are exactly the running tasks' start times; durations exactly for ended tasks; distinct create ids; no todo has both a create id and a task id |
| Transcript.ApplyCoupled | crates/agentum-core/src/transcript.rs:305-590 | every block keeps that coupling |
| Transcript.ApplyTwiceIff | crates/agentum-core/src/transcript.rs:344-590 | a block read twice in a row is a block read once, exactly when it is not the result of an id that is both an unanswered create and a running subagent |
| Transcript.FoldComesFrom | crates/agentum-core/src/transcript.rs:344-590 | after any transcript what awaits its result was created in it, and what runs was dispatched in it |
| Transcript.ApplyTwiceAfter | crates/agentum-core/src/transcript.rs:344-590 | so after any transcript in which no id is both created and dispatched, every block may be read twice |
| Transcript.SharedIdReadTwice | crates/agentum-core/src/transcript.rs:533-590 | with a shared id, a transcript after which one result read twice ends the subagent that the first reading left running |
| Transcript.ReplayIff | crates/agentum-core/src/transcript.rs:344-618 | reading a dispatch and result transcript again, at whatever times, changes nothing exactly when each id with both has a result after a dispatch |
| Transcript.ReplayOrdered | crates/agentum-core/src/transcript.rs:344-618 | in particular when no result precedes its dispatch |
| Transcript.AwaitsIff | crates/agentum-core/src/transcript.rs:352-590 | after any transcript a create awaits its result exactly when the transcript has that create and, after it, no result of it, no rewrite of the list and no clearing text |
| Transcript.CreateRepeatsIff | crates/agentum-core/src/transcript.rs:357-388 | after any transcript a create changes nothing exactly when an earlier one of its id is unsettled in that sense; otherwise it adds a row |
| Transcript.ReplayAfterClear | crates/agentum-core/src/transcript.rs:251-330 | a transcript with a clearing text, of whatever blocks, gives the same state whatever was read before, itself included |
| Transcript.CreateAgainAfterResult | crates/agentum-core/src/transcript.rs:357-388 | after its result the same create adds its row again |
| Transcript.FoldAppend | crates/agentum-core/src/transcript.rs:608-618 | reading a transcript in pieces is reading it whole |
| Transcript.FoldKnows | crates/agentum-core/src/transcript.rs:501-590 | which tasks a dispatch and result transcript leaves known and running |
| Transcript.ParseFile | crates/agentum-core/src/transcript.rs:608-618 | the parser's state is the fold of all blocks of the file, about which the lemmas speak, with the coupling kept |
| TaskRecords.RecordIff | crates/agentum-core/src/transcript.rs:501-590 | after any transcript the list holds exactly these records: of each id dispatched since the last clear the first such dispatch, with its description, type and time; ended by the first later result that no create took, failed exactly when that result was an error, with the whole milliseconds in between; running without one |
| TaskRecords.RecordsOrdered | crates/agentum-core/src/transcript.rs:501-528 | the records stand in the order of their dispatches |
| TodoRows.PlanIff | crates/agentum-core/src/transcript.rs:494-498 | after any transcript the plan is that of the last plan block since the context was last cleared |
| TodoRows.ClearsIff | crates/agentum-core/src/transcript.rs:305-345 | a text clears the context exactly when its first command envelope holds, between blanks, slashes and the word clear or compact in any case |
| TodoRows.CreatedThenNumbered | crates/agentum-core/src/transcript.rs:357-388 | a create adds one row at the end, with its texts or (task), pending; its answer gives that row the number after Task # and no other row anything |
| TodoRows.CreatedThenAnswered | crates/agentum-core/src/transcript.rs:533-570 | an answer without a number ends the waiting all the same and leaves the row without one |
| TodoRows.UpdateRevises | crates/agentum-core/src/transcript.rs:396-454 | an update revises the first row of its number field by field, the status by its literal names, and no other row; deleted drops all rows of the number |
| TodoRows.UpdateMisses | crates/agentum-core/src/transcript.rs:396-445 | an update of a number that no row has changes nothing |
| TodoRows.RewriteKeeps | crates/agentum-core/src/transcript.rs:460-493 | a rewrite leaves, in order, a row for each item with a content and a status, with those values and no others |
| Transcript.AgentTaskState.ApplyLine | crates/agentum-core/src/transcript.rs:251-289 | a line applies its blocks in order |
| Transcript.AgentTaskState.ApplyBlock | crates/agentum-core/src/transcript.rs:280-288 | the in-place update is the specified step |
| Transcript.AgentTaskState.ApplyText | crates/agentum-core/src/transcript.rs:305-330 | clear and compact empty the state and the pending starts, other text does nothing |
| Transcript.AgentTaskState.UpdateTodo | crates/agentum-core/src/transcript.rs:396-454 | patches the first row with that task id, or drops all of them |
| Transcript.AgentTaskState.RewriteTodos | crates/agentum-core/src/transcript.rs:460-493 | the latest rewrite replaces the list by its well-formed rows |
| Transcript.AgentTaskState.DispatchTask | crates/agentum-core/src/transcript.rs:501-528 | one running task per id, with its start pending |
| Transcript.AgentTaskState.ApplyToolResult | crates/agentum-core/src/transcript.rs:533-590 | binds an awaiting create, else ends a running task: the specified step, which `TaskRecords.RecordIff` describes |
| Redaction.RedactStartupOutput | crates/agentum-server/src/host_runtime.rs:1131-1154 | the sort by byte length, dedup and replacement loop computes the diagnostic for the non-empty secrets, longest first; for an output without control characters it shows none that shares no text with the mark or the ellipsis |
| Redaction.RedactRemoves | crates/agentum-server/src/host_runtime.rs:1145-1149 | a secret that shares no text with the mark (no part of it, not holding it, not beginning with an end or ending with a start of it) does not occur after the loop, whatever the other secrets are |
| Redaction.ReplaceKeepsAbsent | crates/agentum-server/src/host_runtime.rs:1147-1149 | a later replacement creates no occurrence of such a secret |
| RedactionLimits.LoopShowsIff | crates/agentum-server/src/host_runtime.rs:1131-1149 | for every non-empty secret: the loop shows it, for some list it is in and some output, exactly when it shares text with the mark |
| Redaction.DiagnosticIsSafe | crates/agentum-server/src/host_runtime.rs:1131-1154 | the finished diagnostic, filtered, trimmed and bounded, of an output without control characters shows no such secret |
| RedactionOutput.DiagnosticFinishes | crates/agentum-server/src/host_runtime.rs:1150-1154 | what happens after the replacements: line feeds, tabs and what is no control character stay, in order; the blanks at both ends go; of more than 8192 bytes the longest prefix on a character boundary stays, with an ellipsis |
| RedactionOutput.HarmlessIsShown | crates/agentum-server/src/host_runtime.rs:1131-1154 | output without a secret, control characters or blanks at its ends that fits the bound is shown as it is |
| RedactionOutput.OccurrenceIsMarked | crates/agentum-server/src/host_runtime.rs:1147-1149 | from left to right each occurrence of a secret becomes [REDACTED] |
| RedactionLimits.BracketComesBack | crates/agentum-server/src/host_runtime.rs:1145-1153 | a value that ends in a bracket is shown although the bracket is a secret by itself: the mark puts it back |
| RedactionLimits.DiagnosticShowsIff | crates/agentum-server/src/host_runtime.rs:1131-1154 | for every non-empty secret: the finished diagnostic shows it, for some list it is in and some output, exactly when it fits the bound, has no control character, and is no single character but one of the mark or the ellipsis |
| RedactionLists.FilteredShowsIff | crates/agentum-server/src/host_runtime.rs:1131-1153 | for every list that leaves a control character unused, and every value: some output shows the value after the filter exactly when it is part of a row of pieces, each a character that no longer secret replaces or what the single bytes among the secrets make of one |
| RedactionLists.ExposedPlainlyIff | crates/agentum-server/src/host_runtime.rs:1131-1153 | when none of the value's characters is both of the mark and a secret by itself, that is exactly when it has no control character and none of its characters is a secret |
| RedactionLists.DiagnosticListIff | crates/agentum-server/src/host_runtime.rs:1131-1154 | for such a list and a value without blanks at its ends and without an ellipsis: the same of the finished diagnostic, where the bound must reach the value from the start of its piece |
| RedactionLimits.SplitSecretIff | crates/agentum-server/src/host_runtime.rs:1145-1153 | for every non-empty secret: shown after the filter, for some list it is in and some output, exactly when it has no control character and is no single character outside the mark; being the only secret makes no difference |
| FileProbe.RoundTrip | crates/agentum-server/src/host_runtime.rs:2500-2525 | noise, header, content and trailer give exactly the content, whatever bytes it holds |
| FileProbe.FramedOutput | crates/agentum-server/src/host_runtime.rs:2500-2525 | with fewer bytes than announced only the MISSING marker decides |
| FileProbe.NoStraddle | crates/agentum-server/src/host_runtime.rs:2503-2509 | a marker whose last byte occurs once is found first right after noise that has none |
| FileProbe.PaddedSizeParses | crates/agentum-server/src/host_runtime.rs:2512-2516 | a printed size with blanks around it is read back |
| FileProbe.TruncatedReadsMissingIff | crates/agentum-server/src/host_runtime.rs:2517-2524 | cut-off output reads as a missing file exactly when it holds the MISSING marker |
| FileProbe.MissingOutput | crates/agentum-server/src/host_runtime.rs:2524-2524 | without the PRESENT marker the MISSING marker says missing |
| FileProbe.MalformedHeader | crates/agentum-server/src/host_runtime.rs:2503-2523 | a header that does not end, or whose size holds a character no number has, gives nothing, whatever else the output holds |
| TmuxPanes.ParseTmuxPanesAll | crates/agentum-server/src/host_runtime.rs:3364-3396 | sessions in first-seen order, state from a name's first line, panes from all its lines in order |
| TmuxPanes.AddLine | crates/agentum-server/src/host_runtime.rs:3364-3396 | one line into the sessions found so far: blank and short lines change nothing |
| TmuxPanes.ParseTmuxPanesFiltered | crates/agentum-server/src/host_runtime.rs:3454-3491 | filtering the lines gives what filtering all sessions by the prefix gives |
| TmuxPanes.FilteringCommutes | crates/agentum-server/src/host_runtime.rs:3454-3491 | grouping commutes with filtering, for all rows |
| TmuxPanes.AddedRow | crates/agentum-server/src/host_runtime.rs:3380-3393 | one more row adds a pane to its session or a session at the end, and nothing else |
| TmuxPanes.EveryRowOnePane | crates/agentum-server/src/host_runtime.rs:3364-3396 | every well-formed line contributes exactly one pane |
| TmuxPanes.ReadIff | crates/agentum-server/src/host_runtime.rs:3367-3376 | a line is read exactly when it has four tabs or more |
| TmuxPanes.ReturnsIgnored | crates/agentum-server/src/host_runtime.rs:3367-3370 | carriage returns at its end, however many, make no difference |
| TmuxPanes.LineRoundTrip | crates/agentum-server/src/host_runtime.rs:3371-3379 | a line in the discovery format is read back whole, tabs in the directory included |
| TmuxPanes.PrintedRoundTrip | crates/agentum-server/src/host_runtime.rs:3371-3393 | a printed line is read back: attached exactly with at least one client, the creation time as a number |
| TmuxPanes.UnreadableNumber | crates/agentum-server/src/host_runtime.rs:3385-3390 | a count or time with a character no number has reads as detached, or as no time |
| InputFrames.RoundTrip | crates/agentum-server/src/host_runtime.rs:3282-3294 | decoding the frames gives the input back |
| InputFrames.LinesAreBounded | crates/agentum-server/src/host_runtime.rs:3282-3294 | ceil(n / 64) lines, each with 1 to 64 bytes |
| InputFrames.LineAt | crates/agentum-server/src/host_runtime.rs:3285-3290 | each byte of a line is its two lower-case hexadecimal digits, with one space in between |
| InputFrames.EncodedLength | crates/agentum-server/src/host_runtime.rs:3282-3294 | three characters a byte |
| InputFrames.FramesDecode | crates/agentum-server/src/host_runtime.rs:3284-3292 | each line decodes to its own chunk |
| InputFrames.EncodeRemoteInputLines | crates/agentum-server/src/host_runtime.rs:3282-3294 | the nested loops write the specified frames |

## Left out

- Harness.HarnessRun.Drive: says nothing about liveness when role phases are on with max_retries at the top of `u32`: a red role gate then never ends, and the method stands for the drive up to any of its rounds.
- Harness.HarnessRun.RunRoleGate: likewise; `RetriesEndIff` is the exact condition.
- RuntimeLease.Machine.AcquireAt: after a rename on a stale check that no longer held it says only that this happened; what can follow is the subject of `LateRenameBreaksIff`. The reads of the record and of the directory's age are one observation.
- RuntimeLease.Machine.Drop: removals that fail leave the directory, as in the source, and the contract says so.
- Harness.HarnessRun.SetState: cannot fail here; in the source it fails, like every engine call, once the run was removed, and the drive ends with that error.
- Harness.HarnessRun.SetPhase: likewise.
- RedactionLists.FilteredShowsIff: asks for one control character that no secret of the list has; values that pass through the launch environment have no NUL, so that one serves.
- RedactionLists.DiagnosticListIff: likewise, and leaves out values with a blank at an end or an ellipsis, whose fate depends on what is around them; `DiagnosticShowsIff` covers every value.
- FileProbe.ParseSize: a size field with non-ASCII blanks around the digits is refused here, while the source would trim them.
- Changes of `feature_list.json` on disk during a drive, and the manual verify and confirm endpoints running beside it: they write outside the driver's lock.
- Concurrent drives of one run: the driver slot that rules them out is a single compare and set.
- The text of shell scripts, SSH and tmux command lines, prompts and event payloads.
- JSON, TOML and timestamp parsing: blocks, verdicts and backlogs are taken as parsed.
- CopyTree.CopyDirContents: which paths an operation fails at is an input, the set `broken`; an operation does not fail at one time and succeed at another.
- Symbolic links, permissions and validation of the lock path, and directories removed or listed differently while they are copied.
- Forward (`-L`) tunnels: their port scan keeps no state; only their place in the lock order is modelled.
- Which program answers on a Mac port a bridge forwards: a probe stands for what is sent to the resolved host.
- The observer and streaming masters: their loss does not touch reverse forwards.
- Classification of probe errors, zombie sweeps, port derivation and adapters: one-branch facts.
