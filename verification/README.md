# Verification of the agentflow executor and of al-sem's sequential core

This Dafny project models the parts of the repository where a mistake is expensive and hard to
see, and proves what their code and documentation promise. `dafny verify dfyconfig.toml` checks all
of it.

**The executor** (`scripts/agentflow`). Many sessions share one `.agent` directory and one
`master`. Each public entry point is one atomic step of a transition system, at the granularity of
the mutex it holds; steps of any number of runs interleave freely and a process may die between
any two of them.

| file | what it models |
|---|---|
| `Leases.dfy` | lease files, merge lane and loop counter, as a class whose methods are proved against functions on the registry |
| `MergeProtocol.dfy` | claim, merge, post-merge, finish and recover as steps over the registry, `master` and each run's program counter |
| `MergeSafety.dfy`, `MergeTheorems.dfy`, `MergeIds.dfy` | the inductive invariant, serialised merges over whole runs, and which reuse of run ids they survive |
| `MergeOvertaking.dfy`, `MergeRecovery.dfy`, `MergeAccounting.dfy` | when a merge lands over an unverified one, what stealing and handing over promise, and the slot and loop accounts |
| `MergeScript.dfy` | the commands' scripts told from the steps alone, when a run gives the lane up, and what a merge and a post-merge put down |
| `LeaseProtection.dfy` | how long a lease is safe from other runs, from heartbeats and the clock alone |
| `MergeWitnesses.dfy` | reachable runs in which these promises fail |
| `Discoveries.dfy` | crash-safe filing of discoveries, and the code that takes its steps |
| `GateSemaphore.dfy` | the gate slots, taken one lock at a time under interference |
| `Incidents.dfy` | the automaton of one merge's obligation |
| `Identity.dfy`, `GateCommands.dfy`, `SkipSoundness.dfy` | the check that lets post-merge skip its gates, and when skipping is right |
| `CycleFinder.dfy`, `Eligibility.dfy` | the iterative cycle search against reachability, and the ranking's split of the issues |

**The sequential core** (`src`, `scripts/trace_summary.py`).

| file | what it models |
|---|---|
| `WatchEvents.dfy`, `WatchMeaning.dfy`, `Watcher.dfy` | the mapping of raw file events, what each path means, and the watch registrations against a backend that may refuse any call and whose watches may die |
| `StableSort.dfy`, `Versions.dfy`, `DependencyLoader.dfy`, `LoaderRanking.dfy`, `LoaderReport.dfy`, `LoaderOrder.dfy`, `CacheListing.dfy` | version order, grouping, fallback, and what depends on hash-map and directory order |
| `TraceSummary.dfy`, `TraceTrees.dfy` | self and inclusive time of spans on per-thread stacks, and a whole trace as its call tree |
| `FileUri.dfy` | `file:` URIs, with UTF-8 and percent coding written out |
| `AppImage.dfy` | package images behind short positional reads |

`Wrappers.dfy` and `Text.dfy` hold the types and string operations that the others share.

## What is assumed

- One command runs at a time per run id, and the configuration does not change during a run.
- Only the flow moves `master`. `beat` and `release` take no mutex and are one step each. The
  fence check and the remote write it guards are one step.
- The no-merge branch of a recovery is its protocol effect: the lease is dropped, then the dead
  run's lane is freed.
- The marker search sees every issue the flow created (the listing's limit of 500 is not reached),
  and nobody edits or deletes such an issue.
- A gate's child process dies with the process that holds its slots.
- A gate's verdict depends on its command (the interpreter by file name), on the files it reads in
  its checkout, the grammar and (for `cdo-gate`) the CDO workspace, tracked or not, on the CDO's
  packages and on the compiler. Trees and commits stand for what they hold: hashes are injective.
- The URI parser takes every `file:` URI whose path is an absolute path of RFC 3986.
- A backend's `unwatch` ends the native watch even when it reports an error. The file system does
  not change within one step of the watch thread. The updater's channel closes after some number
  of sends, whichever, and stays closed.
- Trace times are exact reals; the package image is shorter than 2^64 bytes.

## Where the code does not meet its own words

- **Merges are serialised on one base** holds while no revert is pushed from outside the lane
  (`MergesAreSerialised`, `StrayRevertBreaksSerialisation`) and no recovery frees the lane of a
  living merge. Nothing in the code refuses an old `--run-id`; the second happens only when one is
  used again while a recovery that names it is under way (`SerialisedUnlessReusedInRecovery`,
  `ReusedRunIdBreaksSerialisation`), and then two merges can land on one base
  (`FreedLiveLaneBreaksSerialisation`).
- **No second merge lands while the first is unverified** (a comment in `cmd_merge`): exactly while
  the first run holds the lane (`OvertakenExactlyWhenNotHeld`). `cmd_merge` itself gives the lane up
  when a merge that landed is reported as failed (`UnverifiedMergeIsOvertaken`); `finish` gives it up
  whether or not a post-merge verified the merge; and a post-merge of an attestation for another
  issue retakes it under an issue its run has no lease for, which leaves it free (`HoldGoesOn` lists
  every such step).
- **Every other exit keeps the lane** (a comment at the end of `cmd_post_merge`), and a merge whose
  commit GitHub did not name keeps it too: so they do (`LeavesExactlyAfterAVerdict`,
  `StoppedCommandKeepsTheLane`). But a later `merge` of the same run retakes its own lane and,
  when its re-check refuses, frees it, whatever is unverified (`SecondMergeFreesTheLane`; after a
  red verdict HALT must be lifted first, `RedVerdictStopsWork`). `LeavesUnverifiedOnlyExcused` lists
  every way a run may free the lane over its own unverified merge.
- **A second session gets `lock-live` and leaves the lease alone** (a comment in `cmd_recover`): true
  of every steal (`StolenExactlyWhenStale`). But a recovery that fell asleep for half an hour and
  was outbid may still drop the lease that is live again, because the drop asks only for the dead
  run's id (`LiveLeaseTakenExactlyBy`, `OutbidRecoveryDropsLiveLease`).
- **The issue never has no lease** (a comment at `handover`): but for the dead run itself, which may
  wake and finish under the lease it still is named by (`SleeperUnleasesRecoveredIssue`), and for
  the drop of a recovery.
- **A crash never files a discovery twice**: true while each create call lands at most once and dies
  with its caller (`FiledOnceWhenCreatesLandOnce`). The transport retries `gh issue create` on HTTP
  403, 429 and 5xx, also when the failed attempt had landed, and a killed run's call may still land.
- **The merge is provably the tree the gates passed, built in the same environment**: the check
  compares the CDO workspace's dirt flag, so two dirty workspaces at one commit pass although their
  files may differ; and clean means that `git diff HEAD` lists nothing, which no untracked file
  changes, though the gates read workspaces by walking folders
  (`SkipRightExactlyWhenNothingIsHidden`, `AllowedSkipsThatAreWrong`).
- **`registered` and `failed` never share a path**: not when a source folder is listed twice, or is
  a walked folder, and the backend refuses the second call (`DisjointExactlyWhenPlannedOnce`).
- **The loader's result is independent of hash order**: true of the loaded list. The reported drops
  and unreadable apps are the same ones, but their sequence follows the hash map once two GUIDs have
  some (`DropOrderFixedExactly`, `UnreadableOrderFixedExactly`).

## Model

| member | source | states |
|---|---|---|
| `Leases.LeaseStore.Own` | scripts/agentflow/lock.py:96-119 | the run's own lease is the first in issue order that names it (the legacy file before an issue file); None exactly when no lease names the run |
| `Leases.LeaseStore.CheckFence` | scripts/agentflow/lock.py:272-288 | the fence passes exactly when the run has a lease and, when an issue is given, that lease is for it |
| `Leases.LeaseStore.Acquire` | scripts/agentflow/lock.py:173-269 | a claim is accepted exactly when the run names no lease, the issue has none, the loop has a unit and (if it takes a slot) a slot and the disk reserve are there; it then adds exactly the new lease and charges exactly one loop unit; a refusal changes nothing and names the first reason |
| `Leases.LeaseStore.Beat` | scripts/agentflow/lock.py:291-295 | only the own lease's heartbeat moves; a run without a lease is refused |
| `Leases.LeaseStore.Release` | scripts/agentflow/lock.py:298-301 | exactly the own lease goes |
| `Leases.LeaseStore.StealForRecovery` | scripts/agentflow/lock.py:304-333 | the steal succeeds exactly when the thief has no lease, the lease still names the dead run and its heartbeat is more than 1800 seconds old; it keeps its run id, becomes live and names the recovering run; every refusal changes nothing |
| `Leases.LeaseStore.Handover` | scripts/agentflow/lock.py:336-364 | only the run recovering the lease hands it over; the new lease, field by field, names it, a legacy file goes, and a lane the dead run held follows |
| `Leases.LeaseStore.TakeLane` | scripts/agentflow/lock.py:380-411 | the lane is taken exactly when free or already the run's, keeping its acquisition date when retaken |
| `Leases.LeaseStore.ReleaseLane` | scripts/agentflow/lock.py:414-422 | only the named run's lane is freed |
| `Leases.LeaseStore.Drop` | scripts/agentflow/lock.py:425-434 | a lease goes only while it names the expected run |
| `Leases.LeaseStore.LoopTick` | scripts/agentflow/budget.py:138-149 | the counter rises by one exactly while it is below the limit |
| `Leases.LeaseStore.LoopRefund` | scripts/agentflow/budget.py:161-165 | one unit is given back, never below zero |
| `Leases.LeaseStore.LoopReset` | scripts/agentflow/budget.py:134-135 | only the loop counter is set to zero |
| `LeaseProtection.StolenExactlyWhenStale` | scripts/agentflow/lock.py:304-333 | in the protocol a lease is stolen exactly when the thief has none, the lease names the run seen dead and its heartbeat is more than 1800 seconds old |
| `LeaseProtection.StealMarksOneLease` | scripts/agentflow/lock.py:328-333 | a steal writes the mark and the heartbeat, on that lease only |
| `LeaseProtection.LiveLeaseTakenExactlyBy` | scripts/agentflow/lock.py:304-434 | a step of another run changes or removes a lease whose heartbeat is at most 1800 seconds old if and only if it is the drop of a recovery that had stolen it from that run, or the handover by the recovery its issue is marked for |
| `LeaseProtection.HeartbeatIsTheClock` | scripts/agentflow/lock.py:291-295 | a heartbeat that changes is the clock of the claim, beat, steal or handover that wrote it |
| `LeaseProtection.HalfAnHour` | scripts/agentflow/lock.py:304-364 | over every run, an issue's lease stands for 1800 seconds after a claim, beat, steal or handover set its heartbeat: it names the same run and the same recovery whatever other runs do, until its own run gives it up or a recovery that was already under way ends |
| `MergeSafety.RunsKeepLeases` | scripts/agentflow/lock.py:96-434 | every interleaving, whatever run ids are used, keeps one lease per run, file names that match their issues and recovery marks only on the lease that is recovered |
| `MergeSafety.RunsKeepInv` | scripts/agentflow/cli.py:1156-1192 | every interleaving of any number of runs, with crashes between any two steps and run ids used again, in which no recovery frees a lane a merge is in, keeps the invariant: a merge past its re-check whose fence passes holds the lane, and `master` is still its base unless a stray revert came |
| `MergeSafety.OnlyTheLaneMovesMaster` | scripts/agentflow/cli.py:1160-1165 | in every invariant state: while a fenced run is past its re-check, only a revert pushed from outside the lane can move `master` under it |
| `MergeSafety.OthersLeaveTheLane` | scripts/agentflow/lock.py:380-422 | no other run moves a lane whose owner keeps its lease, but for a recovery that frees it in its name |
| `MergeScript.CommandsFollowTheirScripts` | scripts/agentflow/cli.py:1156-1250 | over every run from the start, told from the steps alone: no act without the one its command puts before it, and no command begun before the last one ended or crashed |
| `MergeScript.LeavesExactlyAfterAVerdict` | scripts/agentflow/cli.py:1529-1533 | a run can free the lane as the end of a merge or a post-merge exactly when its last act was a refused re-check, a failed merge, a merge reported as failed or a passed verification: not after a post-merge that stopped or reverted, nor after a merge whose commit was not named |
| `MergeScript.LeavesUnverifiedOnlyExcused` | scripts/agentflow/cli.py:1178-1184 | over every run, when a run is about to free the lane while a merge it landed is unverified, that merge had just been reported as failed, or the run has asked for the lane again with a later merge command, or it has just verified a record that names another merge |
| `MergeScript.StoppedCommandKeepsTheLane` | scripts/agentflow/cli.py:1229-1240 | after a post-merge that stopped or reverted, a merge whose commit was not named or a merge that wrote its record, the lane is held through every continuation until the run's next such verdict, its own finish or release, a retake for another issue, or a recovery of its lease |
| `MergeScript.WrittenRecordIsTheLanding` | scripts/agentflow/cli.py:1185-1192 | over every run, the record a merge writes names the commit the run landed last, for the attested issue |
| `MergeScript.PostMergeTakesTheLane` | scripts/agentflow/cli.py:1226-1236 | a post-merge can pass only in the lane, taken for its record's issue and merge; refused, it changes nothing |
| `MergeScript.RevertsOnlyTheTip` | scripts/agentflow/recovery.py:277-284 | over every run, a revert is pushed only while the merge of the run's record is the tip of `master` |
| `MergeScript.RedVerdictStopsWork` | scripts/agentflow/lock.py:543-546 | after a post-merge that stopped or reverted, no run begins a merge or a slot-counted claim until HALT is lifted |
| `MergeScript.FollowThroughVerifies` | scripts/agentflow/cli.py:500-519 | a recovery that hands over holds a record of the dead run's merge, passes the fence of its own post-merge, and verifies in a lane that was free or the dead run's |
| `MergeTheorems.MergesAreSerialised` | scripts/agentflow/cli.py:1156-1192 | over every run in which no recovery frees a lane a merge is in, a merge lands on its attested base exactly when no stray revert came since its re-check, and two merges attested on one base never both land on it |
| `MergeTheorems.GuardedRevertsSerialise` | scripts/agentflow/mergeops.py:144-178 | when besides every revert is pushed from the lane, each merge lands on its attested base and no two merges share a base |
| `MergeIds.NoReuseFreesNoLiveLane` | scripts/agentflow/cli.py:454-500 | a recovery frees no live lane as long as no claim or recovery starts under an id that a recovery under way names as its dead run |
| `MergeIds.SerialisedUnlessReusedInRecovery` | scripts/agentflow/cli.py:454-530 | merges are serialised over every run in which an id is used again, any number of times, only while no recovery under way names it |
| `MergeIds.FreedLiveLaneBreaksSerialisation` | scripts/agentflow/cli.py:482-485 | once a recovery frees the lane under a re-checked merge while another run passes the fence, some continuation lands two merges on one base without a stray revert: from every invariant state |
| `MergeOvertaking.NoSecondMergeWhileHeld` | scripts/agentflow/cli.py:1160-1164 | as long as the first merge's run keeps its hold of the lane, every merge that lands is its own |
| `MergeTheorems.HoldGoesOn` | scripts/agentflow/lock.py:367-422 | a hold of the lane ends by a listed step and by each of them: its owner's release, finish, lost lease or retake for another issue, or a recovery that drops its lease, hands it over or frees its lane |
| `MergeOvertaking.OvertakenOnlyAfterALostHold` | scripts/agentflow/cli.py:1160-1192 | over every run, a merge lands over another run's unverified one only after a step ended the first run's hold while its merge was unverified |
| `MergeOvertaking.OvertakenExactlyWhenNotHeld` | scripts/agentflow/cli.py:1160-1192 | in every invariant state with an unverified merge and another run that passes the fence: some continuation lands another run's merge over it, the first run losing no hold on the way, if and only if the first run does not hold the lane |
| `MergeOvertaking.VerifiedStaysVerified` | scripts/agentflow/cli.py:1195-1250 | no merge ever lands over a merge that was verified or reverted before |
| `MergeRecovery.DeposedForever` | scripts/agentflow/lock.py:272-288 | a run that lost its lease passes the fence again only after a claim or a recovery under its own id |
| `MergeRecovery.OutbidForever` | scripts/agentflow/lock.py:336-353 | a run that no lease of the issue names as recovering hands it over only after stealing it again |
| `MergeRecovery.StealOutbids` | scripts/agentflow/lock.py:304-333 | a second steal takes the recovery from the first; the dead run's id stays on the lease |
| `MergeRecovery.HandoverDeposes` | scripts/agentflow/lock.py:336-364 | a completed handover deposes the dead run, outbids every recovery of that lease, and moves the dead run's lane to the follow-through |
| `MergeRecovery.HandoverIsFinal` | scripts/agentflow/lock.py:272-364 | over any continuation of a completed handover the dead run passes no fence unless it claims or recovers anew, and no stealer hands the lease over unless it steals anew |
| `MergeRecovery.OnlyTheseUnlease` | scripts/agentflow/lock.py:298-434 | only the release by the lease's own run or the drop of that very lease takes an issue's lease away |
| `MergeRecovery.TheseUnlease` | scripts/agentflow/lock.py:298-434 | and each of these does when the issue has no second lease |
| `MergeRecovery.RecoveredIssueStaysLeased` | scripts/agentflow/lock.py:336-344 | from steal to handover, a torn handover included, the issue has a lease at every moment, unless the run the lease names releases it or a recovery drops it (`SleeperUnleasesRecoveredIssue` shows the first) |
| `MergeRecovery.StepKeepsOneLeasePerIssue` | scripts/agentflow/lock.py:355-364 | a step leaves at most one lease per issue if and only if it does not tear a handover of the legacy lease |
| `MergeRecovery.OneLeaseEach` | scripts/agentflow/lock.py:173-269 | every reachable lease set has at most one lease per run, and per issue unless a handover of the legacy lease was cut short |
| `MergeAccounting.AccountsAlwaysBalance` | scripts/agentflow/budget.py:134-165 | at most `slots` slot-counted leases; without a reset the loop counter is what was charged plus ticked minus what was given back; it never passes the largest budget given, and no more is given back than was charged |
| `MergeAccounting.StepKeepsSlots` | scripts/agentflow/lock.py:217-242 | each step keeps the slot-counted leases within `slots` |
| `MergeAccounting.CountedMeans` | scripts/agentflow/lock.py:217-228 | what counts against the slots: the issues claimed with one, each as long as it stays leased |
| `MergeWitnesses.StrayRevertBreaksSerialisation` | scripts/agentflow/cli.py:1195-1250 | a reachable run in which a revert pushed after the lane was handed over moves `master` under another run's re-checked merge |
| `MergeWitnesses.ReusedRunIdBreaksSerialisation` | scripts/agentflow/cli.py:454-500 | a reachable run in which an id claims again while a recovery that names it is under way: the recovery frees the new lane and two merges land on one base |
| `MergeWitnesses.UnverifiedMergeIsOvertaken` | scripts/agentflow/cli.py:1181-1184 | a reachable run in which a merge lands although its call reports an error, the lane is given up, and another run's whole merge lands over the unverified one |
| `MergeWitnesses.SleeperUnleasesRecoveredIssue` | scripts/agentflow/lock.py:298-301 | a reachable run in which the dead run wakes and finishes while its lease is being recovered: the issue then has no lease |
| `MergeWitnesses.SecondMergeFreesTheLane` | scripts/agentflow/cli.py:1168-1171 | a reachable run in which a merge whose commit was not named keeps the lane, a second merge of the same run is refused, and the lane is freed with the first unverified |
| `MergeWitnesses.OutbidRecoveryDropsLiveLease` | scripts/agentflow/lock.py:425-434 | a reachable state in which a recovery that was outbid drops the lease that the second recovery has just made live |
| `CycleFinder.SearchFrom` | scripts/agentflow/eligibility.py:52-71 | one search reports its start exactly when the start lies on a cycle, and reports nothing that does not |
| `CycleFinder.CycleMembers` | scripts/agentflow/eligibility.py:52-71 | the iterative search returns exactly the nodes on some cycle, for every finite graph |
| `Eligibility.Eligible` | scripts/agentflow/eligibility.py:74-94 | every issue lands in exactly one list, in input order, with the first test it fails |
| `Eligibility.VerdictMeans` | scripts/agentflow/eligibility.py:74-94 | accepted is exactly an issue by an allowed author, without an excluded label, with acceptance criteria or asked as a question, and with no open dependency; each reason is named exactly when it applies and no earlier one does, the least label or dependency first |
| `Eligibility.AcceptedDependsOnNothingOpen` | scripts/agentflow/eligibility.py:74-94 | an accepted issue depends on no open issue |
| `Eligibility.CyclicHasOpenDependency` | scripts/agentflow/eligibility.py:88-91 | an issue on a cycle would be refused without the cycle test as well |
| `Identity.FrozenLooksTheSame` | scripts/agentflow/mergeops.py:65-66 | no freeze violation means: the two trees agree on every path but the two evidence files and gate-inert prose, and conversely; so they look the same to every gate |
| `Identity.LatestRecords` | scripts/agentflow/identity.py:202-223 | the last record of each gate name |
| `Identity.IdentityRefusals` | scripts/agentflow/identity.py:134-199 | every refusal in order, checks that raise included; the list is empty exactly when merge record, incident, attestation, trees and every gate's latest record allow the skip, the condition being stated without the functions that make the checks |
| `Identity.NothingRefusedMeansAllowed` | scripts/agentflow/identity.py:134-199 | no refusal at all if and only if the skip condition, stated apart from the checks, holds |
| `Identity.EvidenceExactly` | scripts/agentflow/protect.py:24-25 | the evidence files are the ledger and the register in the folder named by the issue's decimal numeral |
| `Identity.InertExactly` | scripts/agentflow/protect.py:35-41 | gate-inert are the change log and exactly the Markdown files under `docs/`, slashes of either kind |
| `GateCommands.SameCommandMeansSameScript` | scripts/agentflow/identity.py:124-131 | a recorded command is accepted if and only if it has the same length, the same arguments one by one, and an interpreter of the same file name up to case and one `.exe` |
| `GateCommands.FileNameIsTheName` | scripts/agentflow/identity.py:127-128 | the file name of `folder/name` is `name` whatever the folder, and slashes and dots behind a path change nothing |
| `SkipSoundness.MergeLooksLikeH` | scripts/agentflow/identity.py:169-172 | an allowed skip's merge looks to every gate like the attested head `H`, and its parent is the attested base |
| `SkipSoundness.PassesOnMerge` | scripts/agentflow/identity.py:101-113 | a gate whose recorded run was truthful passes on the merge too, when neither run had an untracked file it could read and the CDO workspace is clean where the gate reads it |
| `SkipSoundness.SkipRightExactlyWhenNothingIsHidden` | scripts/agentflow/identity.py:40-86 | for every verdict that depends only on command (same arguments, same program), gate-read files (tracked or not) and environment, an allowed skip of some gate agrees with re-running every gate if and only if no gate could read an untracked file, then or now, and `cdo-gate` is not among them or the CDO workspace is clean |
| `SkipSoundness.AllowedSkipsThatAreWrong` | scripts/agentflow/identity.py:40-86 | two concrete inputs that the check lets through: one wrong because the CDO workspace is dirty, one wrong because of an untracked file in the recorded run or on the merge |
| `Discoveries.FiledNamesAMarkedIssue` | scripts/agentflow/discoveries.py:86-109 | over every run of any number of processes, crashing anywhere, a `filed` entry names an existing issue that carries the marker |
| `Discoveries.FiledForGood` | scripts/agentflow/discoveries.py:137-145 | over every run, a discovery once filed keeps its number and is never searched for or created again |
| `Discoveries.FiledOnceWhenCreatesLandOnce` | scripts/agentflow/discoveries.py:137-179 | any number of runs, crashing between any two steps, beside strangers who file what they like, never file a discovery twice while each create call lands at most once and dies with its caller |
| `Discoveries.TwiceFiledExactlyWhenLandedAgain` | scripts/agentflow/discoveries.py:137-179 | a discovery ends with two issues made by the flow exactly when some create landed again: a retry after a landed attempt, or a create that outlived its killed caller |
| `Discoveries.RetriedCreateFilesTwice` | scripts/agentflow/gh.py:60-76 | a concrete run: the transport retries a create whose first attempt had landed |
| `Discoveries.OrphanedCreateFilesTwice` | scripts/agentflow/discoveries.py:170-179 | a concrete run: a create in flight when its run is killed lands after the next run's search |
| `Discoveries.Filing.CreateIssue` | scripts/agentflow/gh.py:60-76 | up to three attempts, each a step of the protocol, whatever others create in between; it succeeds exactly when an attempt is accepted before one fails for good, the number is that of the accepted attempt's issue, and as many issues are made as attempts landed |
| `Discoveries.Filing.FileOne` | scripts/agentflow/discoveries.py:137-179 | what the code does, with orphaned creates landing and strangers filing between any two of its steps, is a run of the protocol; its status is decided exactly by the index, by what a search during the call finds and by the replies, it makes as many issues as attempts landed, and the index says what the status says |
| `Discoveries.Filing.ReconcilePending` | scripts/agentflow/discoveries.py:86-109 | under the same interference: creates nothing and moves pending entries only, to `filed` with an issue that carries the marker; undisturbed, exactly those with one hit, to that hit |
| `Incidents.IncidentStore.OpenIncident` | scripts/agentflow/incidents.py:110-177 | the record opened or reopened for one merge, all others untouched |
| `Incidents.IncidentStore.RecordOutcome` | scripts/agentflow/incidents.py:180-202 | an existing record becomes open and terminal; an unknown merge is refused |
| `Incidents.IncidentStore.MarkVerified` | scripts/agentflow/incidents.py:205-236 | refused on a red gate or a revert that did not land; else the record is resolved |
| `Incidents.IncidentStore.Resolve` | scripts/agentflow/incidents.py:239-289 | only an operator, only an unresolved record |
| `Incidents.OpeningMeans` | scripts/agentflow/incidents.py:110-177 | an opened record is unresolved, and verifying only if asked for and not open before; a reopened one forgets who closed it; evidence and first date stay |
| `Incidents.ClosesMeans` | scripts/agentflow/incidents.py:205-289 | a closing call leaves a resolved record in the name of who closed it, with that caller's note, and touches no evidence |
| `Incidents.OnlyClosesResolve` | scripts/agentflow/incidents.py:110-289 | nothing but a closing call (an operator's, or a verification without evidence against it) resolves a record, and no call touches another merge's |
| `Incidents.RedWhenReportedRed` | scripts/agentflow/incidents.py:110-177 | over every sequence of calls `gate_red` is set exactly when some opening said so |
| `Incidents.CloserHasClosed` | scripts/agentflow/incidents.py:205-289 | over every sequence of calls, whoever a resolved record names made a closing call on it, an operator by leave |
| `Incidents.EvidenceNeverRegresses` | scripts/agentflow/incidents.py:110-289 | over every sequence of operations no record disappears and `gate_red`, `terminal` and `opened_at` never go back |
| `Incidents.OpenUntilClosed` | scripts/agentflow/incidents.py:205-289 | an `open` record leaves `open` only by a successful close |
| `Incidents.RedIsClosedByHumansOnly` | scripts/agentflow/incidents.py:205-236 | once a gate was red on a merge no automated close ever succeeds, so whoever closed the record later was a human |
| `Incidents.AutomatedCloseMeansNeverRed` | scripts/agentflow/incidents.py:205-236 | a record closed by a post-merge run never had a red gate |
| `GateSemaphore.RunsKeepInv` | scripts/agentflow/cli.py:233-281 | in every interleaving the locks a process holds are exactly those its program counter says |
| `GateSemaphore.GatesMean` | scripts/agentflow/cli.py:200-232 | exactly the listed names and every `-on-revert` take slots, and exactly three of them take all |
| `GateSemaphore.ExclusiveRunsAlone` | scripts/agentflow/cli.py:206-214 | an exclusive gate never runs beside another heavy gate |
| `GateSemaphore.AtMostNRun` | scripts/agentflow/cli.py:200-205 | at most `heavy_gates` heavy gates run at once, one when it is 0 |
| `GateSemaphore.SleepersHoldNothing` | scripts/agentflow/cli.py:250-281 | a process asleep in the queue holds no slot |
| `GateSemaphore.FreeKeysAreTaken` | scripts/agentflow/cli.py:233-247 | a process whose keys are free and that nobody crosses gets its whole list |
| `GateSemaphore.Mutexes.TryLock` | scripts/agentflow/state.py:279-312 | one lock attempt while others run freely: it fails exactly when another process holds the slot |
| `GateSemaphore.Mutexes.TakeSlots` | scripts/agentflow/cli.py:233-247 | under any interference: every key of the round or none of them; undisturbed, all exactly when all are free |
| `GateSemaphore.Mutexes.GateSlot` | scripts/agentflow/cli.py:250-281 | under any interference it returns with one whole round of keys, or with nothing after exactly the polls it was given were all in vain; undisturbed it gets the first free round, and fails exactly when none is free |
| `GateSemaphore.Mutexes.Release` | scripts/agentflow/cli.py:289-296 | after the gate nothing is held |
| `WatchEvents.PackageCacheScope` | src/dependencies.rs:392-419 | the walk visits the nearest ancestors in order, stopping after one with `.git`, after eight or at the file-system root; one candidate each, the root's own first |
| `WatchEvents.ComputeScope` | src/watcher.rs:77-83 | the root is not a walked folder, no folder is walked twice, every candidate is a `.alpackages` |
| `WatchEvents.MapEvent` | src/watcher.rs:122-196 | the changes of one raw event, path by path |
| `WatchMeaning.MapPathMeans` | src/watcher.rs:135-196 | one path yields a change if and only if it means it, each change's meaning stated by itself: names, places and kind of event, without the order of the rules |
| `WatchMeaning.EventMeans` | src/watcher.rs:122-134 | lost events say one `Overflow`, an access nothing, any other event what its paths mean, path after path |
| `WatchMeaning.VisitedMeans` | src/dependencies.rs:392-419 | how far the ancestor walk goes: to the first folder with `.git`, the eighth or the file-system root, and no less |
| `WatchEvents.ConfigChangesMean` | src/watcher.rs:135-142 | `ConfigChanged` exactly for the two workspace configs at the root |
| `WatchEvents.PackageChangesMean` | src/watcher.rs:158-162 | a package in a cache folder rebuilds the dependencies whatever the kind of event |
| `WatchEvents.ChangesMean` | src/watcher.rs:163-193 | `Overflow` only for a structural event on the root; `PathChanged` only for that path, strictly inside the root and outside `.git`; a path outside root, source folders and caches never maps |
| `WatchEvents.SourceChangesAreSeen` | src/watcher.rs:122-196 | a source file strictly inside the root, in an event that is no access, yields a change exactly when no `.git` component hides it |
| `Watcher.WatchState.Register` | src/watcher.rs:235-248 | an accepted path is registered and off the retry list, a refused one is on it |
| `Watcher.WatchState.Rearm` | src/watcher.rs:329-336 | a registered path is watched afresh in its own mode |
| `Watcher.RearmedMeans` | src/watcher.rs:329-336 | one call; accepted, the path is watched in the mode it had; refused, it waits for a retry in that mode; no other path changes |
| `Watcher.WatchState.Resync` | src/watcher.rs:341-359 | the books after re-stating every outside candidate; true exactly when some existence changed |
| `Watcher.WatchState.Start` | src/watcher.rs:223-233 | the books after the planned registrations in order and one resync |
| `Watcher.StartWatches` | src/watcher.rs:223-233 | cache folders apart, `start` watches or retries exactly the root and the source folders, with all below, and the walked folders without |
| `Watcher.ResyncKeeps` | src/watcher.rs:341-359 | after a resync every existing candidate is watched or retried and every absent one neither; a registered existing path and every other path are untouched |
| `Watcher.StartIsSound` | src/watcher.rs:223-233 | after `start`, whatever is refused: the root is watched or retried and recursive, the backend watches exactly what is registered, the candidates are in sync |
| `Watcher.DisjointExactlyWhenPlannedOnce` | src/watcher.rs:223-248 | no path is both registered and retried for every backend if and only if none is planned twice, absent candidates aside |
| `Watcher.WatchState.HandleRaw` | src/watcher.rs:254-325 | the books afterwards, exactly, and what went out, exactly: the event's changes in order, `DepsChanged` before them when a cache folder changed, as far as the updater took them; each `DepsChanged` and `Overflow` in sync and each `ConfigChanged` right after a reload; a replaced cache folder and, after lost events, the root and all cache folders have live watches or wait for a retry |
| `Watcher.AnsweringMeans` | src/watcher.rs:296-320 | lost events are answered by `ConfigChanged` and `Overflow`, an access by nothing, and no `Overflow` goes out but right behind a `ConfigChanged` |
| `Watcher.WatchState.RetryFailed` | src/watcher.rs:365-393 | one `watch` call for each failed path in its own mode, in some order; silent exactly when every answer was a refusal; else one resync, then `Overflow` behind a reload when the root came back, `DepsChanged` otherwise |
| `Watcher.RetriedMeans` | src/watcher.rs:365-393 | as many calls as failed paths; a path whose call was accepted is registered in its mode and off the retry list (on neither when it is a cache folder gone by then), a refused one waits in its mode |
| `Watcher.WatchState.Loop` | src/watcher.rs:399-433 | each turn is a raw event and then, when due, a retry pass, each as proved, until a send finds the updater gone; over any turns the books stay sound and, if no watch ever died, the backend watches exactly what is registered |
| `Versions.CompareIsPadded` | src/dependencies.rs:565-581 | the order is lexicographic over numeric parts with missing parts zero |
| `Versions.VersionsArePreordered` | src/dependencies.rs:565-581 | a total preorder on strings |
| `Versions.ParsePartMeans` | src/dependencies.rs:534-539 | a part is the number `n` exactly when it is digits spelling `n`, perhaps behind one `+`, and `n` fits 64 bits |
| `Versions.JunkIsSkipped` | src/dependencies.rs:534-539 | a part that is no number does not count at all |
| `Versions.DottedParts` | src/dependencies.rs:534-539 | the parts of a version are what stands between its dots |
| `Versions.CompatibleIsPadded` | src/dependencies.rs:543-562 | compatible exactly when the padded (major, minor) pair is not below the required one |
| `Versions.CompatibleUpward` | src/dependencies.rs:543-581 | a version that ranks at least as high as a compatible one is compatible |
| `Versions.FindMatchingApp` | src/dependencies.rs:585-623 | None exactly when no file is eligible; else an eligible file that no file of the dependency outranks, compatible or not |
| `StableSort.SortIsStable` | src/dependencies.rs:850-862 | the library sort the loader relies on keeps the order of elements that compare equal |
| `StableSort.SortedIsUnique` | src/dependencies.rs:845-862 | a stably sorted list is determined by its classes of equal elements |
| `DependencyLoader.AppsArePreordered` | src/dependencies.rs:214-217 | both comparators handed to `sort_by` are total preorders |
| `LoaderRanking.RankMeans` | src/dependencies.rs:217-220 | of two copies one ranks at least as high exactly when its version outranks the other's, or the versions are the same and its path, component by component, comes first or is equal |
| `LoaderRanking.KeysMean` | src/dependencies.rs:850-862 | the final sort's order: by GUID, name and publisher as texts, then by the version's numbers as listed |
| `LoaderRanking.RankedBestFirst` | src/dependencies.rs:213-225 | each group comes best copy first, goodness being stated without the comparator |
| `DependencyLoader.GroupByGuid` | src/dependencies.rs:201-225 | one ranked group per non-empty GUID and one per GUID-less app, for some order of the hash map |
| `DependencyLoader.LoadGroup` | src/dependencies.rs:753-838 | the first copy that loads is kept, those behind it are drops, and a group with none is reported by its best copy |
| `DependencyLoader.Load` | src/dependencies.rs:740-871 | grouping, loading and sorting: the report is that of some order of the hash map, and the loaded list is that of every order |
| `DependencyLoader.KeptIgnoresHashOrder` | src/dependencies.rs:840-871 | the loaded list is the same for every order of the hash map |
| `LoaderRanking.LoadedListIsSorted` | src/dependencies.rs:840-871 | in the loaded list no app that should come before another comes after it |
| `LoaderReport.BestCopyKept` | src/dependencies.rs:740-795 | each non-empty GUID keeps at most one copy, one exactly when some copy loads: one whose version no loadable copy's outranks and whose path comes first among equal versions |
| `LoaderReport.EveryAppAccountedFor` | src/dependencies.rs:740-838 | the discovered apps are exactly the kept, the reported drops, the copies that failed above a winner and the copies of groups with none, each counted once |
| `LoaderOrder.DropsIgnoreHashOrder` | src/dependencies.rs:822-838 | the same drops are reported for every order of the hash map |
| `LoaderOrder.DropOrderFixedExactly` | src/dependencies.rs:213-225 | and in one sequence for all orders if and only if at most one GUID has a copy behind its best loadable one |
| `LoaderOrder.UnreadableNamesTheBest` | src/dependencies.rs:789-820 | of each GUID exactly one copy is reported as unreadable when none loads, none when some does: the one with the highest version and, among equal versions, the first path |
| `LoaderOrder.UnreadableCount` | src/dependencies.rs:789-820 | how often each app is reported as unreadable: without a GUID, as often as it was found if it does not load; else once at most, as the best copy of its GUID |
| `LoaderOrder.UnreadableIgnoresHashOrder` | src/dependencies.rs:789-820 | the same apps are reported as unreadable for every order of the hash map |
| `LoaderOrder.UnreadableOrderFixedExactly` | src/dependencies.rs:213-225 | and in one sequence for all orders if and only if at most one GUID has no loadable copy |
| `LoaderOrder.ReportFollowsHashOrder` | src/dependencies.rs:213-225 | two copies of each of two apps: an input on which both lists follow the hash order |
| `CacheListing.KeepFirstByName` | src/dependencies.rs:514-524 | the files in name order, each real file once; the seen set grows by exactly the listed files |
| `CacheListing.ListingOrderIsIgnored` | src/dependencies.rs:507-524 | the directory's own order does not matter |
| `CacheListing.KeptUnderFirstName` | src/dependencies.rs:507-524 | kept is exactly each real file not seen before, once, under its alphabetically first name, and the list is in the order of names |
| `TraceSummary.Agg` | scripts/trace_summary.py:27-51 | the four columns are what the closed spans sum to, and the self column's total is the spans' total |
| `TraceSummary.SelfTimeIsConserved` | scripts/trace_summary.py:27-51 | for every trace: summed self time is the durations of spans closed with an empty stack beneath plus the child time held in open spans |
| `TraceTrees.WholeTraceIsItsCallTree` | scripts/trace_summary.py:27-51 | a trace recorded whole is reported as its call tree: one span a call, with its own name, duration and peak and the time of its direct calls, and nothing left open |
| `TraceTrees.CountAndPeakMean` | scripts/trace_summary.py:45-50 | the count is the number of spans of the name, the peak the largest of all, or 0 |
| `TraceSummary.SelfTimeNotNegative` | scripts/trace_summary.py:27-51 | with per-thread timestamps in order no self time is negative |
| `TraceSummary.ThreadsDoNotMix` | scripts/trace_summary.py:27-51 | however threads interleave, each closes the spans its own events close alone |
| `FileUri.RoundTripExactlyForAbsolute` | src/protocol.rs:44-109 | the path comes back if and only if it is absolute; any other path gives None when the URI parser takes its URI, and `/unknown` through the fallback when it does not |
| `FileUri.UriIsWellFormed` | src/protocol.rs:71-109 | behind the scheme there are only `/`, `pchar` and two-digit escapes (sections 2.1 and 3.3 of RFC 3986), in the fallback too; no absolute path falls back |
| `FileUri.EscapedExactlyWhenNotPchar` | src/protocol.rs:12-27 | the escape set is the complement of `pchar` and `/` |
| `FileUri.SegmentwiseIsWhole` | src/protocol.rs:84-89 | encoding segment by segment is encoding the whole path |
| `FileUri.Utf8RoundTrip` | src/protocol.rs:51-53 | decoding UTF-8 undoes encoding it |
| `FileUri.EscapesDecode` | src/protocol.rs:44-60 | two hex digits of either case behind a `%` are read as one byte, whoever wrote them; a `%` without them stands for itself |
| `FileUri.HexValueMeans` | src/protocol.rs:44-60 | a byte has a hex value exactly when it is that hex digit in either case |
| `FileUri.OnlyEncodingsDecode` | src/protocol.rs:51-53 | the decoder accepts nothing but encodings: no overlong form, no surrogate |
| `AppImage.ReadAt` | src/app_image.rs:212-229 | the bytes at the offset, never past the end; from memory as many as fit; from the private copy exactly what its one read answers, short or failing |
| `AppImage.ReadRange` | src/app_image.rs:195-209 | None exactly when the range leaves the image, a 64-bit overflow included; else exactly the slice, however short the reads, or an error that a read of the private copy explains |
| `AppImage.HashedBytes` | src/app_image.rs:244-263 | what is hashed is a prefix of the image, and all of it when it is in memory; it falls short only when a private read returned nothing early, and fails only when one failed |
| `AppImage.ImageReader.ReadInto` | src/app_image.rs:294-300 | the bytes at the reader's position, which moves by what was read |
| `AppImage.ImageReader.SeekTo` | src/app_image.rs:302-323 | the one place the seek names (from the front, the end or the cursor) when 64 bits can say it; else an error that leaves the position alone |
| `AppImage.Drive` | src/app_image.rs:186-191 | any sequence of reads and seeks on independent readers answers as plain sequences with one cursor each |
| `AppImage.ReadersAreIndependent` | src/app_image.rs:288-323 | each reader's replies are those it would give alone |
| `AppImage.ReadsGiveOneSlice` | src/app_image.rs:294-300 | reads in a row, however short, give one unbroken slice |
| `AppImage.SeekThenRead` | src/app_image.rs:286-323 | a reader that seeks back from the end and reads gets the tail of the image, wherever it was |
| `AppImage.CheckConsistent` | src/app_image.rs:405-434 | passes exactly when the three observations are the same list; else names the first listed package that differs, or the first entry when only the order does |

## Left out

- Real I/O, subprocesses and the network: `git`, `gh`, cargo gates, disk probes, file locking, notify, temp files and parsing are abstract state or nondeterministic results.
- The branch, tree and worktree handling of `cmd_post_merge` and the validation of a revert; only its lane, incident, identity and `master` steps are modelled.
- `scripts/agentflow/recovery.py` and `scripts/agentflow/worktrees.py` beyond their effect on leases, lane and `master`.
- Labels, comments, telemetry, report printing, the `--compare` mode of the trace summary and other human-facing text.
- Per-key budgets (`charge`, `grant`, deadlines): counters with caps that would only add easy members; the shared loop counter is modelled.
- The comment scanner and the forbidden-addition patterns of `scripts/agentflow/protect.py`; only the gate-inert and evidence paths the identity proof uses are modelled.
- The batch check of `kind` in `file_all`, the text of a filed issue and its fingerprint: fingerprints are opaque and distinct.
- `merge_gate`'s head, issue-text and CI reasons: a re-check may fail for any reason, and it passes only when `master` is the attested base.
- The Windows branches of path normalisation and of the URI conversions.
- The U+FFFD substitution for bytes that are not UTF-8: a parameter of `UriToPath`.
- Phase 1 of the loader: an app whose manifest cannot be read is reported there and never reaches the groups.
- The resolver, the LSP snapshot, the updater, diagnostics and analysis engines, configuration overlays and the smaller helpers.
- Leases.LeaseStore.Beat: one step, as is Release; a `beat` or `release` that races another entry point between its read and its write, and the temp-file-and-replace write behind each update, are not modelled.
- Leases.LeaseStore.Acquire: one step; a process killed between writing the lease and the loop counter (a lease without its unit), and the retry when an unreadable lease file is in the way, are not modelled.
- Identity.IdentityRefusals: `Exe` lowers ASCII letters only; `str.lower` also lowers others.
- SkipSoundness.PassesOnMerge: one direction, from the records to the verdict; the exact condition is `SkipRightExactlyWhenNothingIsHidden`.
- MergeIds.NoReuseFreesNoLiveLane: one direction; that a live lane freed breaks serialisation is `FreedLiveLaneBreaksSerialisation`, and a reuse under recovery that takes no lane before the recovery ends does no harm.
- Watcher.WatchState.HandleRaw: after an overflow the walked folders and the source folders are not re-armed by the code either, so nothing is claimed of their native watches.
- AppImage.HashedBytes: from a private copy only a prefix is promised, because the code reads a zero-byte reply as the end.
