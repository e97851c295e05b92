# Gauntlet deployment and publishing core, in Dafny

Gauntlet is a merge-queue daemon that also deploys: every environment has a *desired* ref and
an *observed* ref, a reconcile pass moves tracked desired refs to their sources' tips, and one
lane per environment runs the revision's own graph of deploy nodes until the two refs agree.
This project models that deployment core and a few self-contained algorithms beside it, and
proves what they promise.

How the pieces fit:

- `Graphs`, `Picks`, `CycleSearch`, `DeploySpec`, `Environments`: the `after` and `source env=` graphs,
  the tri-colour search that refuses cycles, load-time validation, and the selection of the
  subgraph one environment runs.
- `GraphScheduler` is one graph run as a transition system: Run's loop, the node goroutines, the
  result channel, slots and cancellation, interleaved freely. `GraphVerdict` proves what a
  verdict means and that there always is one, `GraphDrain` that no result that arrived is lost to
  a failure beside it, `UnnamedNode` for exactly which names the verdict is exact.
  `SchedulerRun` is Run written as the loop it is, with the goroutines free to act between any
  two of its steps, and shown to be such a run.
- `SlotPool`: the execution slots with their reserve and their wake-up channel, as a transition
  system of any number of clients and as the object whose calls are shown to be such a run.
- `Tracker` is the whole deployment system as a transition system: reconcile pass, lanes, any
  number of embedded graph runs, shared slots, daemon restarts, remote refs and a mirror that may
  show any past value. `LaneSafety`, `LaneProgress`, `LaneMemory`, `Promotion`, `Attempts`
  and `Drift` prove its theorems. `LaneRunner` is the daemon as an object with fields and methods, shown to
  be such a run, with the theorems restated for its fields.
- `Notes`: publishing git notes by fetch / check / add / compare-and-swap from many clones.
- `LineDiff`, `Hunks`, `UnifiedDiff`: the line diff behind `gauntlet fmt -d`.
- `Retries`, `TokenCache`, `ServiceKey`: bounded re-execution and its budgets, the single-flight
  token cache, and the canonical encoding behind service cache keys.

Commands, policy answers, classifier answers, transport failures and human pushes are arbitrary:
they are steps or values chosen freely, so every theorem holds whatever they are. A push may be
lost on the way, and it may be taken by the remote while its answer is lost: the daemon then sees
a failure although the ref has moved. Clocks appear only as free choices (whether a cached token
is still current).

Places where the code says something its comments do not: `validateAcyclic` is described as
iterative and is recursive; a node may take a slot after its context died, because the first
attempt is made without looking at the context; and the scheduler reads an empty culprit as "no
culprit", so for a hand-built graph with a nameless node a failure can be reported as green.
`UnnamedNode.ExactExactlyWhenAwaited` gives the exact condition on the graph; deploy graphs meet
it because validation refuses empty names. The model follows the code.

## Model

| member | source | states |
|---|---|---|
| CycleSearch.Search.Visit | internal/config/checks.go:690-704 | one visit of the tri-colour search: without an error the gray path is restored and the black names form a topological order; a reported edge lies on a cycle |
| CycleSearch.FindCycle | internal/config/checks.go:797-832 | no error exactly when the graph has no cycle, and a reported edge really is on one |
| Environments.ValidateDeployEnvAcyclic | internal/config/daemon.go:1135-1172 | accepts exactly the configurations without a ring of environments each sourced from the next, tracked or not; a reported edge is on such a ring |
| Environments.SourceOf | internal/config/daemon.go:1136-1141 | an environment's edges are its own source and nothing else |
| DeploySpec.ValidateDeployAcyclic | internal/config/checks.go:678-713 | the same for the deploy nodes' `after` graph |
| DeploySpec.CheckNames | internal/config/checks.go:630-648 | accepts exactly distinct, non-empty, unreserved names; an error names a defect that is there |
| DeploySpec.CheckAfter | internal/config/checks.go:654-670 | accepts exactly declared, repetition-free, non-self `after` lists; an error names a defect that is there |
| DeploySpec.ValidateDeploys | internal/config/checks.go:626-673 | accepts exactly the specs that meet every rule, acyclicity included, and every rejection is justified |
| DeploySpec.Closure.Pull | internal/config/checks.go:740-755 | pulling a name adds only reachable declared names, leaves only open names unclosed, and fails only on a reachable undeclared name; terminates on cycles |
| DeploySpec.SelectDeployNodes | internal/config/checks.go:730-768 | returns in declaration order exactly the least closed set around the request (all for an empty one), and fails exactly when a reachable name is undeclared |
| DeploySpec.SelectionIsSchedulable | internal/config/checks.go:716-729 | any closed part of an accepted spec has distinct names, no dangling edge and no cycle |
| DeploySpec.AcceptedSelectionIsSchedulable | internal/deploy/run.go:555-575 | whatever an environment selects from an accepted spec is a graph the scheduler can finish |
| GraphScheduler.InvStep | internal/deploy/graph.go:129-309 | on every graph, whatever its names and edges, every step of Run, of a node goroutine or of the context keeps the scheduler's invariant (what it says of stored results is said for distinct names, since results are kept by name) |
| GraphScheduler.EveryRunKeepsInv | internal/deploy/graph.go:129-309 | so does every run, under every interleaving |
| GraphScheduler.ResultsOnlyGrow | internal/deploy/graph.go:159-167 | a recorded result is never overwritten or dropped |
| GraphVerdict.CommandsFollowGreenDependencies | internal/deploy/graph.go:169-198 | with distinct names, a command executes only while all its `after` nodes have stored green results, at most max(MaxParallel, 1) nodes are in flight, and a stored result is what that node's command reported; never a failed slot wait, if all nodes have names |
| GraphVerdict.StartsAllItMay | internal/deploy/graph.go:173-198 | when Run blocks for a result unconcluded, its cap is used up or every unstarted node waits for one not green; and a node is started only after all startable nodes before it in spec order |
| GraphDrain.NothingArrivedIsLost | internal/deploy/graph.go:204-231 | a node whose result had arrived, in the channel or received, when the run turned to culling without a conclusion has its own report as its row, never a blocked one |
| GraphVerdict.RowsWithoutCulprit | internal/deploy/graph.go:323-347 | without a culprit the rows are exactly the recorded results in spec order |
| GraphVerdict.NothingRunsAfterReturn | internal/deploy/graph.go:204-222 | when Run has returned no command is executing or waiting; at most slot releases are outstanding |
| GraphVerdict.GreenReturn | internal/deploy/graph.go:247-264 | ("", nil) means one green row per node, in spec order, numbered from 1, each as its command reported it; on every graph, repeated names and cycles included, in which nameless nodes are awaited |
| GraphVerdict.RedReturn | internal/deploy/graph.go:233-244 | a culprit is the first red finished node in spec order; every unfinished node is Blocked by exactly its prerequisites that did not turn green, in their order, or by the culprit if there are none |
| GraphVerdict.ExactVerdict | internal/deploy/graph.go:105-265 | all of that for every finished run of a graph with distinct names whose nameless nodes are awaited, with any completion order and any cancellation; cancelled exactly when the error says so, and then no culprit |
| GraphVerdict.FailFast | internal/deploy/graph.go:151-172 | once concluded nothing more is recorded, and once there is a culprit, or a cancellation outside the start loop, nothing more is started, to the end of the run |
| GraphVerdict.RunsAreBounded | internal/deploy/graph.go:169-245 | every run, cancelled or not, is at most as long as a bound computed from the graph |
| GraphVerdict.NeverStuck | internal/deploy/graph.go:204-231 | until Run returns, some step other than a cancellation or a slot wait given up is possible, granted a slot; and every node whose command is done can send |
| GraphVerdict.ConcludedNeedsNoSlot | internal/deploy/graph.go:287-301 | a run with a culprit or a cancellation can go on without anybody getting a slot |
| GraphVerdict.SchedulableIsSatisfiable | internal/deploy/graph.go:254-262 | the "unsatisfiable after edges" error is unreachable for a schedulable graph |
| GraphVerdict.AcceptedGraphsGetAVerdict | internal/deploy/graph.go:169-262 | validation, selection and scheduling together: an uncancelled run that can go no further has returned with a culprit or with every selected node green, within the bound |
| UnnamedNode.UnnamedNodeHidesItsFailure | internal/deploy/graph.go:236-264 | every orderly graph with a nameless node nobody waits for has a run that ends without culprit and without error although that node failed |
| UnnamedNode.NamelessNode | internal/deploy/graph.go:157-157 | such a graph exists: one nameless node |
| UnnamedNode.ExactExactlyWhenAwaited | internal/deploy/graph.go:105-265 | over graphs with distinct names, inner edges and no cycle: every finished run's verdict is exact if and only if some node waits for each nameless one |
| SchedulerRun.Scheduler.Run | internal/deploy/graph.go:129-265 | the loop itself, on every graph: it terminates and is a run of the transition system; with distinct names whatever had arrived when it turned to culling is in its rows; ("", nil) means all green when nameless nodes are awaited, and its verdict is exact when names are distinct too; never unsatisfiable for a schedulable graph |
| SchedulerRun.Scheduler.StartIfReady | internal/deploy/graph.go:173-197 | one turn of the start loop is the transition system's |
| SchedulerRun.Scheduler.ReceiveOne | internal/deploy/graph.go:220-222 | one receive is the transition system's: kept while nothing has concluded, else discarded |
| SchedulerRun.Scheduler.CullFirstRed | internal/deploy/graph.go:236-244 | the cull is the transition system's |
| SchedulerRun.Scheduler.Materialize | internal/deploy/graph.go:323-347 | the row loop computes the rows the verdict theorems speak of |
| SchedulerRun.Scheduler.Advance | internal/deploy/graph.go:278-309 | one action of a node goroutine: slot, command, send, release, in that order |
| GraphVerdict.SendFits | internal/deploy/graph.go:142-145 | the channel's buffer always has room for a node that has not sent |
| SlotPool.Slots.TryAcquirePriority | internal/core/slots.go:27-46 | succeeds exactly below the limit, or for ordinary work below the limit less the reserve; it is the client system's step and touches no other client |
| SlotPool.Slots.AcquireTurn | internal/core/slots.go:52-63 | one locked turn: gives up exactly on a dead context, acquires exactly below the ordinary limit, else notes the current channel while capacity is full |
| SlotPool.Slots.Acquire | internal/core/slots.go:48-70 | the blocking loop with any other clients at work: a run of the client system that ends holding an ordinary slot or none |
| SlotPool.Slots.Release | internal/core/slots.go:72-84 | a holder's release finds the counter above zero, frees one slot and replaces the channel |
| SlotPool.Slots.Saturated | internal/core/slots.go:96-103 | true exactly when an ordinary client that looks now is put to sleep; if false, everybody asleep has been woken; if true, somebody holds a slot to release |
| SlotPool.InvStep | internal/core/slots.go:27-84 | every client step keeps the counts and the sleepers' justification |
| SlotPool.SlotsAreSafe | internal/core/slots.go:27-84 | over whole runs: ordinary holders stay within limit less reserve, urgent requests are granted while fewer urgent slots are out than reserved, no wake-up is lost, no release finds the counter at zero |
| LaneSafety.InvStep | internal/deploy/run.go:149-539 | every step of the deployment system keeps the lanes, the runs and the slot pool in order |
| LaneSafety.NoOverlap | internal/deploy/run.go:149-274 | in every reachable state one environment never has two runs' commands executing, every run belongs to a configured environment and has no more nodes in flight than that environment's max-parallel (at least 1), and all executing deploy commands fit in limit less reserve |
| LaneProgress.NoSlotDeadlock | internal/deploy/graph.go:278-309 | in every reachable state a graph that has not returned can step, or the shared pool is full and one of its holders can move |
| LaneProgress.GraphWorkIsBounded | internal/deploy/graph.go:129-265 | whatever everyone else does, cancellations and restarts included, a graph takes at most as many steps as its own bound |
| LaneProgress.QuietMeansVerdicts | internal/deploy/run.go:399-401 | with scarce shared slots: once no graph, slot holder or other tenant has a step left, every graph ever started has an exact verdict (cancelled, culprit or all green) and has given its slots back |
| LaneSafety.CancellationHasACause | internal/deploy/run.go:167-183 | a run's context dies only by the operator, with the daemon, or because its environment cancels on a moved desired ref |
| LaneSafety.CancellationWorks | internal/deploy/run.go:167-183 | and it does die then, whichever of the three reasons is given, and with it the graph's context unless Run has returned |
| LaneSafety.ShutdownIsFinal | internal/deploy/run.go:240-253 | after the daemon's context ended every run still going, started before or after, has a dead context |
| LaneMemory.TerminalMapping | internal/deploy/run.go:399-442 | a run goes on to publish only when all nodes are green, and exactly when Run returned no culprit and no error; it is skipped exactly when it was cancelled, its nodes green or not; it is an error or a rejection exactly as its first red node carries an Err or not |
| LaneMemory.FinishingIsRemembered | internal/deploy/run.go:486-539 | a landed run is remembered as synced and unparks; a skipped one leaves no trace; an erred one is unparked and its retry spent if automatic retries are on, unspent and the daemon not draining; any other parks at its revision; no other lane changes |
| LaneMemory.PassUnparks | internal/deploy/run.go:159-164 | a pass clears a park at any revision but the wanted one, and only that |
| LaneMemory.LanesAreTruthful | internal/deploy/run.go:486-539 | in every reachable state a lane is synced only to a landed revision, parked only at a rejected or erred one, and has spent its automatic retry only on an erred one |
| Promotion.PromotionProvenance | internal/deploy/deploy.go:350-400 | what a tracked environment has deployed, its source environment deployed all-green strictly earlier, whatever the mirror lag, lost answers and daemon restarts in between |
| Promotion.BranchProvenance | internal/deploy/deploy.go:350-396 | what an environment tracking a branch has deployed was that branch's value strictly earlier |
| Promotion.PromotionHappens | internal/deploy/deploy.go:364-396 | a pass promotes exactly when the environment is tracked, the mirror shows a tip at its branch or source environment that differs from the shown desired value, and the push reaches a remote still holding that value; to that tip, going on with it exactly if answered |
| Promotion.PublishingIsExact | internal/deploy/run.go:423-441 | a permitted push that reaches a remote still holding the run's starting value writes its revision, and lands the run exactly if answered; refusal rejects, anything else errs |
| Promotion.ChainProvenance | internal/deploy/deploy.go:350-400 | and so for every environment up a chain of tracked sources, one write earlier per link at least |
| Promotion.ChainFromBranch | internal/deploy/deploy.go:350-400 | a chain whose far end tracks a branch deploys only what that branch held before |
| Promotion.RingNeverDeploys | internal/config/daemon.go:1130-1134 | tracked environments sourced in a ring can never deploy anything |
| Promotion.RingIsRefused | internal/config/daemon.go:1130-1172 | such a ring is a ring of sources, so validation rejects the configuration |
| Promotion.ObservedMeansGreen | internal/deploy/run.go:423-441 | every observed-ref write, acknowledged or not, was made by a run of that environment and revision whose non-empty graph finished all green |
| Promotion.WritesReplaceWhatWasRead | internal/deploy/run.go:428-440 | every write the daemon makes replaces exactly the value it had read; an observed ref is a linked list of green runs |
| Attempts.AtMostTwoAttempts | internal/deploy/run.go:486-539 | while the desired revision stays put, unretried and uncancelled, at most two runs of it are started (one without automatic retry), whatever the outcomes, mirror lag and policy answers |
| Attempts.AttemptsOnRecord | internal/deploy/run.go:486-539 | the same counted in the runs on record |
| Attempts.StartIsJustified | internal/deploy/run.go:192-232 | a run is started only for a revision that was put on the desired ref, is neither what the pass saw deployed nor what the lane deployed last, on an unparked lane whose earlier runs are all over, by a daemon that runs things and is not draining |
| Drift.DriftIsDeployed | internal/deploy/run.go:184-232 | from any moment an idle, unparked lane has not deployed a revision last: once a pass wants it and sees another one deployed, and the policy then allows, a run of it has been started |
| Drift.AnotherAttemptFollows | internal/deploy/run.go:505-539 | so an attempt that erred with its automatic retry unspent, or was cancelled, is followed by another one |
| Attempts.SettledLaneStaysQuiet | internal/deploy/run.go:215-232 | a lane parked at or synced to the desired revision starts no run of it |
| Attempts.DrainStopsStarts | internal/deploy/run.go:704-716 | once draining, no run is started again until a restart |
| LaneRunner.DeployGraph | internal/deploy/run.go:542-587 | a graph comes back exactly when the spec is accepted, the selection resolves to at least one node and all its executor profiles are known; it is that selection, and schedulable |
| LaneRunner.Daemon.Prepare | internal/deploy/run.go:297-336 | what a run does before its graph: pin and export failures err, a revision with nothing deployable here or forbidden by policy is rejected, in that order, and otherwise exactly the deployable selection starts |
| LaneRunner.Daemon.NeverOverlaps | internal/deploy/run.go:149-274 | of the daemon's fields at any time: no overlap, each environment's configured cap, the pool's reserve |
| LaneRunner.Daemon.ObservedIsGreen | internal/deploy/run.go:423-441 | of the daemon's fields at any time: what was written to an observed ref was deployed green |
| LaneRunner.Daemon.AttemptsAreBounded | internal/deploy/run.go:486-539 | of the daemon's fields at any time: at most two runs of a steadily desired revision |
| LaneRunner.Daemon.ReconcileOnce | internal/deploy/deploy.go:330-346 | a pass that cannot list refs changes nothing; otherwise, with everyone else acting in between, it promotes only tracked environments, each from the value it read to the tip it read at the branch or environment it is sourced from, starts at most one run per environment, and whatever reached an observed ref meanwhile was deployed green |
| LaneRunner.Daemon.PromoteTip | internal/deploy/deploy.go:364-396 | promotes exactly when `Promotion.PromotionHappens` says, and goes on with what it then holds desired |
| LaneRunner.Daemon.StepLaneUntilPolicy | internal/deploy/run.go:149-191 | the locked half before the policy call is the system's |
| LaneRunner.Daemon.StartIfAllowed | internal/deploy/run.go:192-253 | the locked half after it, admission re-tested, is the system's |
| LaneRunner.Daemon.MapVerdict | internal/deploy/run.go:403-424 | the run's outcome is what `LaneMemory.TerminalMapping` says of its rows, culprit and cancellation |
| LaneRunner.Daemon.PublishObserved | internal/deploy/run.go:425-441 | writes the observed ref only if it still holds the value the run started from, and lands only if it wrote |
| LaneRunner.Daemon.FinishGraph | internal/deploy/run.go:486-539 | the lane remembers the outcome: synced, no trace, retry spent and unparked, or parked, as each outcome requires; other lanes are untouched |
| LaneRunner.Daemon.Retry | internal/deploy/run.go:661-673 | clears this lane's park and nothing else, reporting whether there was one |
| LaneRunner.Daemon.CancelCurrent | internal/deploy/run.go:686-702 | reports whether the lane has a run; if so cancels that run and marks that lane, and no other; if not changes nothing |
| LaneRunner.Daemon.Drain | internal/deploy/run.go:709-716 | closes admission |
| Notes.NotesAreNeverLost | internal/gitx/notes.go:210-263 | for every interleaving a note on the remote stays there unchanged, and every remote update adds exactly one note to a sha that had none |
| Notes.AnswersAreTrue | internal/gitx/notes.go:210-253 | Published only if this call landed the update; a call that landed it says Published, or a transport error if the answer was lost; EmptyPayload exactly for an empty one; AlreadyPublished: the same payload is there; Conflict: another payload is there; Exhausted: four updates by others; in these four this call changed nothing |
| Notes.FourPublishersAllSucceed | internal/gitx/notes.go:178-186 | up to four concurrent publishers of distinct new shas never fail each other, and when nothing but failing is left to do all of them have published |
| Notes.ExhaustionNeedsFiveCalls | internal/gitx/notes.go:261-262 | a call that gave up landed nothing, and at least four different other calls did |
| Notes.RunsAreBounded | internal/gitx/notes.go:186-260 | every call finishes: at most thirteen steps each, three for each of four attempts |
| Notes.PublishNote | internal/gitx/notes.go:210-263 | the loop itself against any interference, counted on the remote's history: Published means exactly one own update, any other answer but a transport error none; an own update only ever adds a note to a sha that had none; it gives up only after four updates by others |
| LineDiff.MakeOp | cmd/gauntlet/difflines.go:102-107 | an op stands for exactly the split line it was made from, and is marked exactly when that line is tagged |
| LineDiff.LcsIsLongest | cmd/gauntlet/difflines.go:85-100 | no common subsequence is longer than the recurrence's value |
| LineDiff.FillTable | cmd/gauntlet/difflines.go:85-100 | each cell holds the recurrence's value for its two prefixes |
| LineDiff.ScriptMatches | cmd/gauntlet/difflines.go:108-130 | a script's equal lines are a common subsequence of its two files |
| LineDiff.DiffLines | cmd/gauntlet/difflines.go:83-130 | dropping insertions gives a, dropping deletions gives b, no common subsequence is longer than the equal lines, no script between a and b is shorter, and within a run of changes deletions come before insertions |
| Hunks.FindRegions | cmd/gauntlet/difflines.go:146-159 | exactly the maximal runs of changed lines, in order |
| Hunks.MergeWindows | cmd/gauntlet/difflines.go:173-183 | merging leaves separated windows covering exactly the same lines |
| Hunks.LineNumbers | cmd/gauntlet/difflines.go:185-201 | the 1-based old and new line number before every op |
| Hunks.HunksPatch | cmd/gauntlet/difflines.go:203-211 | any separated windows that leave no change out make hunks that patch the old file into the new, with fitting line numbers on both sides |
| Hunks.BuildHunks | cmd/gauntlet/difflines.go:145-212 | the hunks are separated, cover exactly the lines within the context of a change, and patch old into new |
| Hunks.EmptyMeansUnchanged | cmd/gauntlet/difflines.go:160-162 | there are no hunks exactly when nothing changed |
| Hunks.HeaderCounts | cmd/gauntlet/difflines.go:217-230 | the header's counts are the hunk's old and new line counts |
| UnifiedDiff.SplitLinesKeepingNone | cmd/gauntlet/difflines.go:61-73 | the lines of the file, the last one tagged if unterminated, none of them holding a newline |
| UnifiedDiff.LinesHoldNoNewline | cmd/gauntlet/difflines.go:61-73 | splitting leaves no newline inside a line |
| UnifiedDiff.SplitRoundTrip | cmd/gauntlet/difflines.go:61-78 | joining the lines gives the file back exactly when it does not end in NUL newline |
| UnifiedDiff.NulFreeRoundTrip | cmd/gauntlet/difflines.go:61-78 | in particular always for contents without NUL |
| UnifiedDiff.TagCollision | cmd/gauntlet/difflines.go:75-78 | two different files that split into the same lines |
| UnifiedDiff.Diff | cmd/gauntlet/difflines.go:39-52 | the hunks show exactly the script lines within three lines of a change, patch the old lines into the new ones, byte for byte after joining, and there are none exactly when the files are equal |
| Retries.History.Reserve | internal/flaky/history.go:73-83 | charges the run exactly when the upsert lets it |
| Retries.History.ReserveEvidence | internal/flaky/history.go:87-110 | charges both budgets or neither |
| Retries.BudgetsHold | internal/flaky/history.go:73-110 | for any interleaving of checks, grants per run stay within the run limit and per verification identity within its own across all runs |
| Retries.GrantedExactlyBelow | internal/flaky/history.go:73-110 | a charge is granted exactly while run and identity are both below their limits |
| Retries.History.Run | internal/flaky/retry.go:39-205 | with any other checks charging the same store meanwhile: bounded re-executions, each after full agreement and each charged to this run and identity, at most one charge more (taken without an answer); a failure is left standing only if the context died, somebody disagreed or the retries are used up; Passed is reported only if the last execution passed; a failure never becomes a skip |
| Retries.KnownFlake | internal/flaky/history.go:164-204 | known exactly when two distinct other runs recovered with no failed retry since the older of them |
| TokenCache.InvStep | internal/ghauth/ghauth.go:158-222 | every step of every caller keeps the protocol's invariant |
| TokenCache.OneExchangeAtATime | internal/ghauth/ghauth.go:166-202 | at most one exchange is ever in flight |
| TokenCache.InvalidatedNeverReturns | internal/ghauth/ghauth.go:210-222 | a token received and invalidated is never returned by a call that starts later |
| TokenCache.TokenStaysCached | internal/ghauth/ghauth.go:158-222 | the cached token stays until it is itself invalidated or another is installed; invalidating an older one leaves it alone |
| TokenCache.InstalledIsCached | internal/ghauth/ghauth.go:185-200 | what an exchange brings is cached; a failed exchange leaves the cached token |
| TokenCache.LockServes | internal/ghauth/ghauth.go:158-184 | a caller with a current token in the cache gets it without an exchange, one that finds an exchange under way joins it, and only otherwise one is started |
| TokenCache.WaitersShare | internal/ghauth/ghauth.go:166-202 | everybody who took part in an exchange ends with what it brought |
| ServiceKey.StreamInjective | internal/config/servicekey.go:45-76 | equal streams come from equal remotes, equal services and equal sorted environments |
| ServiceKey.ReorderingKeepsStream | internal/config/servicekey.go:52-60 | with distinct names, reordering the environment leaves the stream unchanged |
| ServiceKey.StrSplits | internal/config/servicekey.go:81-89 | a length-prefixed string can be read back off the front of any stream |
| ServiceKey.BigEndianSpells | internal/config/servicekey.go:91-95 | read most significant first, the written bytes spell the value |
| ServiceKey.BigEndianInjective | internal/config/servicekey.go:91-95 | fixed-width big-endian words determine their value |
| ServiceKey.SortByName | internal/config/servicekey.go:59-60 | a sorted permutation of the environment |
| ServiceKey.KeyStream | internal/config/servicekey.go:45-76 | writing field by field produces the canonical stream of the service over some name-sorted permutation of its environment |

## Left out

- The merge queue, dashboard, channels, executors, command line and KDL parsing: other components, or single-branch mappings that would only add easy members.
- Git itself: refs, fetch and compare-and-swap behave as their interface says; two pushes of one identical commit, which git answers "up to date", are not distinguished.
- Pin, Unpin, tree export and mtimes: they appear only as ways a run can fail before its graph starts.
- A changed configuration across a restart: a restarted daemon has the same environments, and its predecessor's commands died with it.
- Convergence of a whole chain in a counted number of passes: promotion and deployment of each link are exact (`Promotion.PromotionHappens`, `Drift.DriftIsDeployed`), their composition over rounds is not stated.
- Events, snapshots, run ids, log paths, timestamps, durations and `Waited`: observability only.
- Policy, classifier, test-report merging, SQLite, pruning after 30 days, SHA-256, JWT and RSA: free choices, counters or nothing.
- validateDeploy's field-by-field checks other than distinct names and acyclic sources: easy single-branch facts.
- validateAcyclic for checks has no member of its own: it is `CycleSearch.FindCycle` over the checks' names.
- The diff's rendered text: hunks are values with header numbers and ops; `writeTo`'s formatting is not modelled beyond its counts.
- A nil Slots or nil Tracker: no slots is `Unlimited` in `Tracker`; nil receivers are not modelled.
- GraphVerdict.RedReturn: takes names to be distinct, as validation makes them; results are kept by name, so two nodes of one name would share a row.
- GraphVerdict.NeverStuck: takes a slot to be obtainable; `LaneProgress.NoSlotDeadlock` is the statement for scarce shared slots.
- GraphVerdict.AcceptedGraphsGetAVerdict: takes a slot to be obtainable; `LaneProgress.QuietMeansVerdicts` is the statement for scarce shared slots.
- ServiceKey.SortByName: sorts by insertion; the source's sort is unstable and its order of equal names is unspecified, which `ServiceKey.ReorderingKeepsStream` covers by quantifying over all sorted orders.
- SlotPool.Slots.Acquire: is for a context that dies after some number of wake-ups, as large as one likes; a waiter that loses every race for ever is not modelled.
- LaneRunner.Daemon.ReconcileOnce: the two listings are one mirror snapshot that succeeds or fails as a whole.
- Retries.BudgetsHold: takes both limits to be at least one, as they are whenever a charge is attempted, and run ids that do not start with "inputs:".
- TokenCache.InvalidatedNeverReturns: takes the issuer never to repeat a token; expiry is a free choice at each lock.
