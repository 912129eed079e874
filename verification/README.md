# Vykar in Dafny

Vykar is a deduplicating backup tool. This project models the parts of it whose correctness is hardest to see
from the code, and proves what they promise:

- **The SFTP connection pool** (`ConnPool`): any number of threads around one mutex and one condition variable,
  as a step relation. Over every interleaving, connections are conserved and reused, no two guards share one, and
  capacity is never stranded while a thread waits.
- **Retention** (`Retention`, `RetentionLaws`, `KeeperSlots`, `RetentionByLabel`): seven rules run over one shared
  `kept` set and `reasons` map. The loops compute a closed form that does not depend on the order of the rules; pruning is
  monotone, idempotent, and separate for each label.
- **The restore tree** (`TreeLinks`, `TreeChecks`, `TreeCover`, `TreeRows`, `TreeOrder`, `FileTreeBuild`,
  `FileTree`): an arena of nodes built from flat paths, with tri-state check boxes, a row index and a selection.
  Each parent agrees with its children after every sequence of clicks, the rows are the preorder of the exposed
  nodes and the only such listing, and the selection is exact and as small as possible.
- **What a selection restores** (`Selection`): the paths handed on restore exactly the checked nodes if and only if
  no listed file shares its path.
- **The scheduler** (`Scheduler`): a thread that waits outside its mutex and is woken through a one-slot channel
  that drops tokens. No wake-up is lost, a due backup fires, and backups are neither closer together nor further
  apart than the schedule says.
- **The S3 backend** (`SoftDelete`): a store that deletes by overwriting with zero bytes cannot be told from a
  plain map.
- **Hooks and the backup cycle** (`Hooks`, `HookLaws`, `Cycle`, `FullCycle`): separately written drivers around
  an action all follow one lifecycle, and the cycle of backup, prune, compact and check is a function of the
  history whose records have one block of events for each admitted step.
- **The SFTP directory cache** (`DirCache`): it never names a directory that is missing, so skipping the creation
  of a parent is safe.
- **Retries, rate limiting and key-derivation data** (`Retry`, `RateLimiter`, `KdfAad`).

`Wrappers`, `MachineTypes`, `Sequences` and `Paths` hold what the others share: options and results, bytes and
integer ranges, filtering and stable sorting, and slash-separated strings.

Objects that change in place are classes, loops are methods. Each such method is proved equal to a function of
the old state, and the laws are lemmas about those functions. The network, the shell, the clock, the server and
random draws are parameters: functions that may answer anything, or steps that may happen at any time.

## Where the code and its description differ

- `crates/vykar-core/src/prune.rs:84-86` says that a snapshot an earlier rule kept does not use up a slot of a
  bucket rule. Lines 106-112 do count it, and so does the model: a bucket counts whether or not its newest
  snapshot was already kept. This is what makes the order of the rules irrelevant. `KeeperSlots.CommentHoldsIff`
  says exactly when the two agree, and `KeeperSlots.CommentFails` gives an input on which they do not.
- A bucket rule with limit 0 keeps nothing, but still adds a reason to the newest snapshot if an earlier rule kept
  it (`Retention.TagIff`, `KeeperSlots.LimitZeroTags`). The kept set is not affected.
- In soft-delete mode a range read looks for the object first, so a range that does not fit `u64` on a missing key
  is "missing", not an overflow. `SoftDelete.RangeReadsAgree` gives the exact condition and
  `SoftDelete.RangeReadsDiffer` an input.
- Writing zero bytes in soft-delete mode is a deletion (`SoftDelete.EmptyPutIsDelete`), and an object under the
  empty key below a root is stored but never listed (`SoftDelete.EmptyKeyIsHidden`).
- Toggling a check box twice restores the tree exactly when the box was not partial (`TreeChecks.ToggleTwice`);
  `FileTreeBuild.TwoFilesForget` is a tree in which it does not.
- A file that shares its path with another file or with a directory is restored along with it, checked or not
  (`Selection.SelectionIsExactIff`, `Selection.FileAndDirectoryClash`).
- `crates/vykar-core/src/app/operations.rs:492-493` says a step hands on its value only on success. Line 558 hands
  it on whenever the action returned one, also when it is then judged a failure, as for a check that finds errors.
  `FullCycle.ValueWithoutSuccessIff` says exactly when this happens and `FullCycle.FailedCheckHandsOn` gives two
  inputs.
- The first delay of `retry_http` is not capped. Doubling and jitter are plain `u64` arithmetic, which a release
  build wraps around: `Retry.HttpBackoffIff` and `Retry.OpBackoffIff` say for exactly which settings the sleeps
  are what they are meant to be, and `Retry.HttpBackoffExample` and `Retry.OpBackoffExample` give settings for
  which they are not.

## Model

| member | source | states |
|---|---|---|
| `ConnPool.Pool.constructor` | crates/vykar-storage/src/sftp_backend.rs:120-124 | a new pool is empty |
| `ConnPool.StepKeepsCounts` | crates/vykar-storage/src/sftp_backend.rs:154-192 | every step keeps `total` = idle + held + being opened, at most the maximum, and keeps free capacity covered by wake-ups under way |
| `ConnPool.StepKeepsExclusive` | crates/vykar-storage/src/sftp_backend.rs:154-192 | no step puts a connection in two places |
| `ConnPool.StepKeepsInv` | crates/vykar-storage/src/sftp_backend.rs:306-365 | every enabled step of every thread keeps the whole pool invariant |
| `ConnPool.ReachableInv` | crates/vykar-storage/src/sftp_backend.rs:154-192 | the invariant holds after every interleaving of any number of threads, including failed connects, drops, timeouts and spurious wake-ups |
| `ConnPool.ReleasesNeverUnderflow` | crates/vykar-storage/src/sftp_backend.rs:358-365 | the `total > 0` test never hides an underflow: each release frees exactly one unit |
| `ConnPool.GuardsAreExclusive` | crates/vykar-storage/src/sftp_backend.rs:154-192 | two guards never share a connection, and an owned one is never idle |
| `ConnPool.FreeCapacityIsBeingHandedOut` | crates/vykar-storage/src/sftp_backend.rs:306-365 | a thread waiting beside free capacity has a wake-up on its way, and a notified thread rechecks before it can give up |
| `ConnPool.QuietWaitersFaceAFullPool` | crates/vykar-storage/src/sftp_backend.rs:306-365 | with no wake-up in flight, a waiter faces a pool with every slot in use |
| `ConnPool.HandOffProgresses` | crates/vykar-storage/src/sftp_backend.rs:306-365 | each hand-off step brings the wake-ups under way closer to their end |
| `ConnPool.HandOffCompletes` | crates/vykar-storage/src/sftp_backend.rs:306-365 | any schedule of hand-off steps ends within a fixed number of them, and then waiting means a full pool |
| `ConnPool.IdleIsReused` | crates/vykar-storage/src/sftp_backend.rs:306-349 | a thread that finds idle connections takes the one released last and opens none |
| `ConnPool.ReleasedIsNext` | crates/vykar-storage/src/sftp_backend.rs:351-356 | a released connection is the next to be handed out |
| `ConnPool.ClaimsWhatItCan` | crates/vykar-storage/src/sftp_backend.rs:306-349 | a connection is opened exactly when none is idle and the pool is not full; a thread waits or gives up exactly when the pool is used up, and gives up only when its time is up |
| `ConnPool.NoMoreConnectionsThanThreads` | crates/vykar-storage/src/sftp_backend.rs:306-365 | in every run there are at most as many connections as threads, and while none is discarded no more were ever made |
| `ConnPool.OneThreadMakesOne` | crates/vykar-storage/src/sftp_backend.rs:306-365 | one thread that acquires and releases any number of times makes one connection |
| `Retention.BucketCountIsSize` | crates/vykar-core/src/prune.rs:96-125 | the running count is the number of distinct buckets seen |
| `Retention.TagIff` | crates/vykar-core/src/prune.rs:106-120 | a rule leaves a reason exactly where it keeps, or, with limit 0, on the newest snapshot if it was kept before |
| `Retention.NewestFirstProps` | crates/vykar-core/src/prune.rs:136-144 | the ranking is a duplicate-free listing of all snapshots, newest first |
| `Retention.ReasonsIffKept` | crates/vykar-core/src/prune.rs:96-125 | a snapshot has a reason exactly when some rule keeps it: `kept` is the key set of `reasons` |
| `Retention.VisitBucket` | crates/vykar-core/src/prune.rs:102-122 | one snapshot that opens a bucket, already kept or not |
| `Retention.ApplyBucketRule` | crates/vykar-core/src/prune.rs:87-126 | the loop adds to `kept` and `reasons` exactly what the rule gives in closed form |
| `Retention.ApplyWithin` | crates/vykar-core/src/prune.rs:149-158 | the same for the time window |
| `Retention.ApplyLast` | crates/vykar-core/src/prune.rs:161-172 | the same for the newest n |
| `Retention.ApplyBucketLimit` | crates/vykar-core/src/prune.rs:175-229 | an absent limit changes nothing, a present one applies its bucket rule |
| `Retention.ApplyRules` | crates/vykar-core/src/prune.rs:149-229 | all seven rules in sequence leave the state of the closed form |
| `Retention.Decide` | crates/vykar-core/src/prune.rs:240-254 | one entry per snapshot in ranking order, kept exactly when it has a reason |
| `Retention.ApplyPolicy` | crates/vykar-core/src/prune.rs:130-257 | the whole function equals the closed form, including the empty input, the malformed span and the refusal to prune everything |
| `RetentionLaws.RulesOfHas` | crates/vykar-core/src/prune.rs:149-229 | the rules in force are exactly the configured ones |
| `RetentionLaws.ClosedForm` | crates/vykar-core/src/prune.rs:96-125 | a snapshot is kept exactly when some configured rule keeps it on its own |
| `RetentionLaws.RuleOrderIrrelevant` | crates/vykar-core/src/prune.rs:149-229 | running the rules in another order keeps the same snapshots |
| `RetentionLaws.HasAnyRuleIff` | crates/vykar-core/src/config/types.rs:66-77 | a policy has a rule exactly when some rule is in force or its window is malformed |
| `RetentionLaws.FailsIff` | crates/vykar-core/src/prune.rs:130-237 | pruning fails exactly for a malformed window, or when no configured rule keeps any snapshot |
| `RetentionLaws.WindowAndNewest` | crates/vykar-core/src/prune.rs:149-172 | every snapshot in the window and every one of the newest n is kept, whatever other rules there are |
| `RetentionLaws.WindowOnly` | crates/vykar-core/src/prune.rs:149-158 | a window on its own keeps nothing else |
| `RetentionLaws.NewestOnly` | crates/vykar-core/src/prune.rs:161-172 | nor does the newest-n rule |
| `RetentionLaws.ReasonNumbers` | crates/vykar-core/src/prune.rs:106-172 | the number in a reason is the rank, or the number of buckets up to and including this one |
| `RetentionLaws.OnePerBucket` | crates/vykar-core/src/prune.rs:87-126 | a bucket rule keeps one snapshot for each of the first n buckets |
| `RetentionLaws.KeptIsNewestOfBucket` | crates/vykar-core/src/prune.rs:87-126 | the one it keeps is the newest of its bucket |
| `KeeperSlots.CommentKeepsMore` | crates/vykar-core/src/prune.rs:84-126 | a rule in which kept snapshots take no slot would never keep less than the code |
| `KeeperSlots.CommentHoldsIff` | crates/vykar-core/src/prune.rs:84-126 | the two keep the same if and only if no kept snapshot opens one of the first n buckets or every snapshot opening a later one is kept |
| `KeeperSlots.CommentFails` | crates/vykar-core/src/prune.rs:84-126 | two snapshots on two days under "last 1, daily 1": the described rule keeps both, the code one |
| `KeeperSlots.LimitZeroTags` | crates/vykar-core/src/prune.rs:106-112 | under "last 1, daily 0" the newest snapshot gets a reason from a rule that keeps nothing |
| `RetentionLaws.KeptStaysKept` | crates/vykar-core/src/prune.rs:130-257 | what a policy keeps, a looser policy keeps |
| `RetentionLaws.Monotone` | crates/vykar-core/src/prune.rs:130-257 | raising a count or reaching further back never prunes more and never turns success into an error |
| `RetentionLaws.OutcomeIsSortedInput` | crates/vykar-core/src/prune.rs:240-254 | the entries are the input, newest first, equal times in input order |
| `RetentionLaws.KeepsSomething` | crates/vykar-core/src/prune.rs:231-237 | a successful run on any snapshots keeps one |
| `RetentionLaws.SurvivesIffKept` | crates/vykar-core/src/prune.rs:240-254 | a snapshot survives exactly when its entry is a keep |
| `RetentionLaws.SurvivorsAreTheKept` | crates/vykar-core/src/prune.rs:240-254 | the survivors, newest first, are the kept entries of the result |
| `RetentionLaws.RankingOfSurvivors` | crates/vykar-core/src/prune.rs:130-257 | ranking the survivors is striking out the pruned from the ranking |
| `RetentionLaws.SurvivorOrigin` | crates/vykar-core/src/prune.rs:130-257 | a survivor only moves up, and nothing new gets ahead of it |
| `RetentionLaws.KeepsMovedUp` | crates/vykar-core/src/prune.rs:87-126 | a rule still keeps a snapshot that moved up |
| `RetentionLaws.Idempotent` | crates/vykar-core/src/prune.rs:130-257 | pruning the survivors again at the same time keeps all of them, for any mix of rules and any bucket functions |
| `RetentionByLabel.GroupByLabel` | crates/vykar-core/src/prune.rs:272-278 | the groups have exactly the labels in use, each with its snapshots in input order |
| `RetentionByLabel.ApplyPolicyByLabel` | crates/vykar-core/src/prune.rs:265-310 | the loop equals the merged verdicts of all labels, or the first error |
| `RetentionByLabel.FailsIffSomeLabelFails` | crates/vykar-core/src/prune.rs:280-302 | the whole fails exactly when the verdict on some label fails |
| `RetentionByLabel.OwnPolicyDecides` | crates/vykar-core/src/prune.rs:280-302 | the result has the verdict of a label's own override, or of the default if it has none; without a rule in that policy all its snapshots are kept |
| `RetentionByLabel.OverrideIsLocal` | crates/vykar-core/src/prune.rs:280-302 | changing the override of one label changes the entries of that label only |
| `RetentionByLabel.CollectIsolates` | crates/vykar-core/src/prune.rs:280-302 | removing one label's snapshots removes exactly the verdict on them |
| `RetentionByLabel.LabelIsolation` | crates/vykar-core/src/prune.rs:265-310 | the same for the sorted result: no label's decisions depend on another's snapshots |
| `RetentionByLabel.CollectPermutes` | crates/vykar-core/src/prune.rs:280-302 | every snapshot gets exactly one entry |
| `RetentionByLabel.ResultIsSortedPermutation` | crates/vykar-core/src/prune.rs:304-310 | the result is a permutation of the input, newest first |
| `RetentionByLabel.EveryLabelKeepsOne` | crates/vykar-core/src/prune.rs:231-310 | every label with snapshots has a kept entry of its own |
| `RetentionByLabel.IdempotentByLabel` | crates/vykar-core/src/prune.rs:265-310 | pruning by label what pruning by label left keeps all of it, in whatever order the labels are merged |
| `TreeChecks.ToggleSettles` | crates/vykar-gui/src/file_tree.rs:232-280 | marking a subtree and recalculating upwards leaves every parent equal to the aggregate of its children |
| `TreeChecks.AlwaysSettled` | crates/vykar-gui/src/file_tree.rs:232-292 | so does every sequence of toggles, select-alls and deselect-alls on a built tree; no childless node is partial |
| `TreeChecks.SettledIsUniformBelow` | crates/vykar-gui/src/file_tree.rs:253-280 | a checked or unchecked node speaks for everything below it |
| `TreeChecks.LeavesDecide` | crates/vykar-gui/src/file_tree.rs:261-280 | a node whose childless descendants agree has their state |
| `TreeChecks.SettledIsUnique` | crates/vykar-gui/src/file_tree.rs:261-280 | the childless nodes determine the whole tree |
| `TreeChecks.ToggleEffect` | crates/vykar-gui/src/file_tree.rs:232-251 | a toggle checks an unchecked node and the childless nodes below it, unchecks those of a checked or partial one, and touches no other childless node |
| `TreeChecks.UncheckedIff` | crates/vykar-gui/src/file_tree.rs:253-280 | a node is unchecked exactly when nothing childless below it is checked |
| `TreeChecks.ClickOnLeaves` | crates/vykar-gui/src/file_tree.rs:232-251 | in terms of the childless nodes alone: a click clears a subtree in which anything is checked, fills one in which nothing is, and touches nothing outside |
| `TreeChecks.ToggleTwice` | crates/vykar-gui/src/file_tree.rs:232-251 | toggling twice restores every state if and only if the node was not partial |
| `TreeChecks.TogglingTwiceForgets` | crates/vykar-gui/src/file_tree.rs:232-251 | in every tree, checking one of two childless siblings makes their parent partial, and toggling it twice then does not restore the tree |
| `FileTreeBuild.TwoFilesForget` | crates/vykar-gui/src/file_tree.rs:232-251 | so it happens in the tree built from two files of one directory |
| `TreeCover.CoverIsTopChecked` | crates/vykar-gui/src/file_tree.rs:304-335 | the emitted nodes are, each once, the checked nodes whose parent is not checked |
| `TreeCover.CoverIsAntichain` | crates/vykar-gui/src/file_tree.rs:304-335 | no emitted node lies below another |
| `TreeCover.CoverIsExact` | crates/vykar-gui/src/file_tree.rs:304-335 | a childless node lies under exactly one emitted node if checked and under none otherwise |
| `TreeCover.CoverIsMinimal` | crates/vykar-gui/src/file_tree.rs:304-335 | no selection of fewer nodes covers the same childless nodes |
| `TreeRows.RowsAreExposed` | crates/vykar-gui/src/file_tree.rs:189-205 | the rows are, each once, exactly the nodes all of whose ancestors are expanded |
| `TreeRows.AllOpenShowsAll` | crates/vykar-gui/src/file_tree.rs:214-221 | with every parent open the rows are a permutation of the arena |
| `TreeOrder.RowsArePreorder` | crates/vykar-gui/src/file_tree.rs:189-205 | a listing of the exposed nodes is the row index if and only if it is in preorder |
| `TreeOrder.PreorderIsStrict` | crates/vykar-gui/src/file_tree.rs:197-205 | preorder on a forest never places two nodes both ways |
| `FileTreeBuild.AddDirectories` | crates/vykar-gui/src/file_tree.rs:50-109 | the inner loop of the first pass adds the missing leading directories of one item |
| `FileTreeBuild.AddAllDirectories` | crates/vykar-gui/src/file_tree.rs:48-110 | the first pass does so for every item in order |
| `FileTreeBuild.AddAllDirsBuilt` | crates/vykar-gui/src/file_tree.rs:48-110 | after it the arena is a labelled forest of directories, one for every path listed as a directory or above something listed |
| `FileTreeBuild.AddAllFiles` | crates/vykar-gui/src/file_tree.rs:113-157 | the second pass attaches one node for each other item |
| `FileTreeBuild.AddFilesBuilt` | crates/vykar-gui/src/file_tree.rs:113-157 | after it the forest is still labelled and holds the listed files in order |
| `FileTreeBuild.SortAll` | crates/vykar-gui/src/file_tree.rs:160-178 | each child list and the roots are sorted in place of themselves and nothing else changes |
| `FileTreeBuild.BuildArena` | crates/vykar-gui/src/file_tree.rs:40-187 | the result is a forest, each depth one more than the parent's, each path the parent's and the name; directories are distinct and exactly the mentioned ones; files are exactly the listed ones; every list is in display order |
| `FileTree.FileTree.BuildFromItems` | crates/vykar-gui/src/file_tree.rs:40-187 | the built tree is valid, its rows are current and nothing is checked |
| `FileTree.FileTree.DfsVisible` | crates/vykar-gui/src/file_tree.rs:197-205 | appends the rows of one subtree |
| `FileTree.FileTree.DfsChildren` | crates/vykar-gui/src/file_tree.rs:197-205 | appends the rows below one expanded directory |
| `FileTree.FileTree.RebuildVisible` | crates/vykar-gui/src/file_tree.rs:189-195 | the row index equals the rows of the tree |
| `FileTree.FileTree.ToggleExpanded` | crates/vykar-gui/src/file_tree.rs:207-212 | flips one directory and keeps the tree valid, rows included |
| `FileTree.FileTree.SetExpandedEverywhere` | crates/vykar-gui/src/file_tree.rs:214-230 | sets every directory and nothing else |
| `FileTree.FileTree.ExpandAll` | crates/vykar-gui/src/file_tree.rs:214-221 | afterwards the rows are a permutation of the arena |
| `FileTree.FileTree.CollapseAll` | crates/vykar-gui/src/file_tree.rs:223-230 | afterwards the rows are the roots |
| `FileTree.FileTree.SetCheckRecursive` | crates/vykar-gui/src/file_tree.rs:253-259 | the recursion marks exactly the nodes under the given one |
| `FileTree.FileTree.RecalcParentCheck` | crates/vykar-gui/src/file_tree.rs:261-280 | one parent gets the aggregate of its children |
| `FileTree.FileTree.ToggleCheck` | crates/vykar-gui/src/file_tree.rs:232-251 | one click has the effect of `Toggled` and keeps the tree valid; an index out of range changes nothing |
| `FileTree.FileTree.SelectAll` | crates/vykar-gui/src/file_tree.rs:282-286 | checks everything and keeps the tree valid |
| `FileTree.FileTree.DeselectAll` | crates/vykar-gui/src/file_tree.rs:288-292 | unchecks everything and keeps the tree valid |
| `FileTree.FileTree.CollectCheckedNode` | crates/vykar-gui/src/file_tree.rs:318-335 | appends the paths that stand for one subtree |
| `FileTree.FileTree.CollectCheckedPaths` | crates/vykar-gui/src/file_tree.rs:304-316 | the paths of the minimal cover, in order |
| `Selection.PathMatchesSelection` | crates/vykar-core/src/commands/restore.rs:1081-1094 | cutting the path at its slashes from the right finds a selected path exactly when the path or one above it is selected |
| `Selection.CheckedIsMatched` | crates/vykar-core/src/commands/restore.rs:1081-1094 | every checked node is restored by the paths handed on |
| `Selection.DistinctPathsIff` | crates/vykar-gui/src/file_tree.rs:40-187 | the nodes of a built tree have different paths exactly when no listed file shares its path with another or with a directory |
| `Selection.SelectionIsExactIff` | crates/vykar-core/src/commands/restore.rs:1081-1094 | exactly the checked nodes are restored, after any clicks, if and only if no listed file shares its path |
| `Selection.FileAndDirectoryClash` | crates/vykar-core/src/commands/restore.rs:1081-1094 | with a file and a directory of one path, some click restores what is not checked |
| `Scheduler.SchedulerState.PlanWait` | crates/vykar-gui/src/scheduler.rs:54-111 | the locked section at the top of the loop: what it decides and the state it leaves |
| `Scheduler.SchedulerState.Recheck` | crates/vykar-gui/src/scheduler.rs:129-156 | the locked section after the wait: whether to run, and the next planned time |
| `Scheduler.StepKeepsInv` | crates/vykar-gui/src/scheduler.rs:53-165 | every step of the scheduler, a writer or the clock keeps the wake-up invariant |
| `Scheduler.ReachableInv` | crates/vykar-gui/src/scheduler.rs:53-165 | it holds after every interleaving |
| `Scheduler.NoLostWakeUp` | crates/vykar-gui/src/worker.rs:29-38 | waiting on an outdated view means a token is in the slot or a writer has yet to send, so dropped sends are harmless |
| `Scheduler.QuietWaitIsRight` | crates/vykar-gui/src/scheduler.rs:53-127 | with nothing in flight the scheduler waits for what is true now |
| `Scheduler.AlwaysSomethingPlanned` | crates/vykar-gui/src/scheduler.rs:88-111 | the branch that blocks for want of a planned run is never taken |
| `Scheduler.DueBackupFires` | crates/vykar-gui/src/scheduler.rs:53-165 | once the writers have sent, one of the next three steps of the scheduler fires a due backup, wherever it waited |
| `Scheduler.FiringsAreApart` | crates/vykar-gui/src/scheduler.rs:129-156 | over every run without a new configuration two backups are fired at least the computed delay apart, and none after a delay that could not be computed |
| `Scheduler.PlansTheNextRun` | crates/vykar-gui/src/scheduler.rs:129-156 | after a firing the schedule stays active and planned for exactly the computed delay later, until the next firing or a new configuration |
| `Scheduler.FiringsAreOnTime` | crates/vykar-gui/src/scheduler.rs:53-165 | as soon as that delay has passed, no backup runs and the writers have sent, one of the next three steps of the scheduler fires |
| `Scheduler.AppliedPlan` | crates/vykar-gui/src/config_helpers.rs:66-79 | a new configuration is planned for exactly the wait it came with, until it fires or is replaced |
| `Scheduler.UnplannedIsPlanned` | crates/vykar-gui/src/scheduler.rs:54-111 | an active schedule without a plan gets one for exactly the computed delay later, or is paused if there is none |
| `Scheduler.NeverSpins` | crates/vykar-gui/src/scheduler.rs:53-165 | left alone with no token to take, the scheduler fires or comes to rest within four steps, also while a backup runs past the planned time |
| `SoftDelete.S3Backend.List` | crates/vykar-storage/src/s3_backend.rs:262-332 | the page loop depends only on the pages joined together |
| `SoftDelete.FullKeyInjective` | crates/vykar-storage/src/s3_backend.rs:83-89 | different keys have different full keys |
| `SoftDelete.OpKeepsShows` | crates/vykar-storage/src/s3_backend.rs:176-196 | a put, a deletion or a directory marker does to what the bucket shows what it does to a map, in both modes |
| `SoftDelete.RunShows` | crates/vykar-storage/src/s3_backend.rs:416-474 | after any operations on any keys the bucket shows what a map would hold in which an empty write in soft mode is a deletion |
| `SoftDelete.ModesAreOneMap` | crates/vykar-storage/src/s3_backend.rs:136-196 | away from directory markers hard mode answers like a map without modes, and soft mode does if nothing empty is written |
| `SoftDelete.PointReadsAgree` | crates/vykar-storage/src/s3_backend.rs:136-260 | `get`, `exists` and `size` answer like the map, for every key and both modes |
| `SoftDelete.RangeReadsAgree` | crates/vykar-storage/src/s3_backend.rs:334-414 | range reads do if and only if it is not soft mode with a missing key and a range beyond `u64` |
| `SoftDelete.RangeReadsDiffer` | crates/vykar-storage/src/s3_backend.rs:334-414 | an input on which the two modes answer differently |
| `SoftDelete.EmptyPutIsDelete` | crates/vykar-storage/src/s3_backend.rs:136-166 | a write can be read back unless it is empty and in soft mode |
| `SoftDelete.ListingAgrees` | crates/vykar-storage/src/s3_backend.rs:262-332 | however the answer is cut into pages, the listing has each key of the map under the prefix once, except those whose full key ends in a slash |
| `SoftDelete.EmptyKeyIsHidden` | crates/vykar-storage/src/s3_backend.rs:262-332 | that exception occurs for every root and every non-empty object |
| `Hooks.RunHookList` | crates/vykar-core/src/hooks.rs:131-136 | commands run in order up to and including the first that fails |
| `Hooks.RunBefore` | crates/vykar-core/src/hooks.rs:29-40 | four lists inwards, the first failure ends it |
| `Hooks.RunAndLog` | crates/vykar-core/src/hooks.rs:271-277 | a failure of a later list only leaves a warning |
| `Hooks.RunAfterOrFailed` | crates/vykar-core/src/hooks.rs:47-67 | exactly one phase, in the mirror order of the before lists |
| `Hooks.RunFinally` | crates/vykar-core/src/hooks.rs:72-78 | the last phase, in the mirror order |
| `Hooks.RunWithHooks` | crates/vykar-core/src/hooks.rs:90-129 | first driver: the lifecycle for hookable commands, the bare action for others |
| `Hooks.RunSourceHooks` | crates/vykar-core/src/hooks.rs:234-269 | the same lifecycle with the hooks of one source |
| `HookLaws.ListTrace` | crates/vykar-core/src/hooks.rs:131-136 | what ran is a leading part, all but the last succeeded, and the last failed exactly if there is a failure |
| `HookLaws.BeforeTrace` | crates/vykar-core/src/hooks.rs:29-40 | the commands of all before lists run in order, all of them with success, or up to the first that fails, whose message is the failure |
| `HookLaws.PassesIff` | crates/vykar-core/src/hooks.rs:29-40 | a failure is returned exactly when not every before command succeeds |
| `HookLaws.LoggedTrace` | crates/vykar-core/src/hooks.rs:47-78 | later hooks attempt every list whatever failed before, with one warning per failure, and never touch the error |
| `HookLaws.LifecycleShape` | crates/vykar-core/src/hooks.rs:90-129 | the action runs exactly when every before command succeeds; one of after and failed, then finally; the result is the action's or the message of the first before command that failed; the error is set exactly when the failed phase runs |
| `HookLaws.PlanOfKeys` | crates/vykar-core/src/hooks.rs:29-78 | which configuration keys make up each phase of a command, and in which order |
| `HookLaws.RepoLifecycle` | crates/vykar-core/src/hooks.rs:90-129 | the whole run of a command by configuration key: before hooks from the outside in, exactly the "after" hooks on success and the "failed" hooks on failure, then the "finally" hooks, from the inside out; nothing configured only for the other outcome runs |
| `HookLaws.SourceLifecycle` | crates/vykar-core/src/hooks.rs:234-269 | the same for the four lists of one source |
| `HookLaws.NoHooksIsBareAction` | crates/vykar-core/src/app/operations.rs:255-269 | without hooks the lifecycle is the action, so skipping it is sound |
| `HookLaws.NoSourceHooksIsBareAction` | crates/vykar-core/src/app/operations.rs:190-213 | nor does a source without hooks need it |
| `Cycle.RunBackupSources` | crates/vykar-core/src/app/operations.rs:141-240 | sources run in order to the first failure, each inside its hooks; the listener gets every source-level warning with its source |
| `Cycle.SourcesStopAtFailure` | crates/vykar-core/src/app/operations.rs:141-224 | sources run in order up to the first that fails, whose error is the result; if none fails the report has one line per source, in order, with its own error count |
| `Cycle.RunBackupSelection` | crates/vykar-core/src/app/operations.rs:246-314 | second driver: the same lifecycle; the listener gets each repository-level warning once |
| `Cycle.DrainCycleWarnings` | crates/vykar-core/src/app/operations.rs:573-585 | each warning becomes one event of the step and none is left |
| `Cycle.RunHookedStep` | crates/vykar-core/src/app/operations.rs:494-559 | third driver: the same lifecycle around the judged action, the value, the recorded outcome and all events in order |
| `Cycle.WarningsOnce` | crates/vykar-core/src/app/operations.rs:494-585 | a step reports every repository-level warning of its hooks once, in order, and no other |
| `Cycle.EmitSkipped` | crates/vykar-core/src/app/operations.rs:561-571 | a skipped step is recorded and has a start and a finish |
| `FullCycle.RunFullCycle` | crates/vykar-core/src/app/operations.rs:344-490 | history, records, events and results are those of the four turns in sequence |
| `FullCycle.StepIsBlock` | crates/vykar-core/src/app/operations.rs:494-559 | a step starts once, finishes once with the recorded outcome, and only its own reports lie between; a success comes with the value it was judged by |
| `FullCycle.ValueIff` | crates/vykar-core/src/app/operations.rs:494-559 | a step hands on a value exactly when every before command succeeds and the action returns one; its outcome is how that value is judged |
| `FullCycle.ValueWithoutSuccessIff` | crates/vykar-core/src/app/operations.rs:492-559 | it hands on a value without a success exactly when the value is judged failed or skipped |
| `FullCycle.EveryTurnHappens` | crates/vykar-core/src/app/operations.rs:344-490 | for each of the four turns, at its own point of the history: when it is absent, when it is skipped and why, when it runs, what it hands on and what outcome is recorded |
| `FullCycle.FailedCheckHandsOn` | crates/vykar-core/src/app/operations.rs:453-481 | in a repository without hooks a check with one error is recorded as failed and a skipped one as skipped, and both results are handed on |
| `FullCycle.CycleIsRecorded` | crates/vykar-core/src/app/operations.rs:344-490 | exactly the steps not stopped by a shutdown are recorded, in order, with one block of events each |
| `FullCycle.MaintenanceNeedsABackup` | crates/vykar-core/src/app/operations.rs:393-451 | prune or compact results exist only after a successful backup with its report, prune results only with a retention rule |
| `FullCycle.StickyShutdownGivesPrefix` | crates/vykar-core/src/app/operations.rs:344-490 | with a flag that stays set, the steps a cycle records are a leading part of backup, prune, compact, check |
| `DirCache.FullPathIsRooted` | crates/vykar-storage/src/sftp_backend.rs:505-543 | every path the backend builds has exactly one slash in front |
| `Paths.TrimStartDrops` | crates/vykar-storage/src/sftp_backend.rs:526-539 | trimming at the front drops slashes only |
| `Paths.TrimEndDrops` | crates/vykar-storage/src/sftp_backend.rs:526-539 | so does trimming at the end |
| `DirCache.FullPathParts` | crates/vykar-storage/src/sftp_backend.rs:505-543 | the components of a full path are those of the trimmed root followed by those of the key |
| `DirCache.FullPathInjective` | crates/vykar-storage/src/sftp_backend.rs:505-543 | different keys without a leading slash have different paths |
| `DirCache.DirCache.MarkKnown` | crates/vykar-storage/src/sftp_backend.rs:284-300 | adds the directory and all those above it, and nothing else |
| `DirCache.MkdirP` | crates/vykar-storage/src/sftp_backend.rs:750-796 | succeeds exactly when every component is created or there, and then all of them exist |
| `DirCache.AboveIsClosed` | crates/vykar-storage/src/sftp_backend.rs:284-300 | what is above a directory above a path is above the path |
| `DirCache.AboveIff` | crates/vykar-storage/src/sftp_backend.rs:284-300 | the directories marked for a path are exactly its leading parts that end in a component |
| `DirCache.StepKeepsInv` | crates/vykar-storage/src/sftp_backend.rs:881-929 | every step of a put or a directory creation, with retries, keeps the cache sound |
| `DirCache.ReachableInv` | crates/vykar-storage/src/sftp_backend.rs:1019-1078 | so does every interleaving |
| `DirCache.CacheIsSound` | crates/vykar-storage/src/sftp_backend.rs:277-300 | every cached path is an existing directory, and so is everything above it |
| `DirCache.PutHasItsParent` | crates/vykar-storage/src/sftp_backend.rs:881-929 | no file is opened while its parent or a directory above it is missing, whether or not the creation was skipped |
| `DirCache.MadeDirIsThere` | crates/vykar-storage/src/sftp_backend.rs:1019-1029 | when a directory creation has succeeded, or is answered from the cache, the directory and everything above it are there |
| `DirCache.KnownParentIsSkipped` | crates/vykar-storage/src/sftp_backend.rs:881-929 | a put into a known directory opens its file without asking the server for directories |
| `DirCache.PutMakesParentKnown` | crates/vykar-storage/src/sftp_backend.rs:881-929 | after a put that was not skipped its parent is known |
| `Retry.ClassifyStatus` | crates/vykar-storage/src/retry.rs:79-87 | an error from 400 on; worth a retry exactly for 429 and from 500 on |
| `Retry.RetryHttp` | crates/vykar-storage/src/retry.rs:28-73 | at most `max_retries + 1` calls, none after a success or a permanent error; the last answer is returned; the trailing unwrap is unreachable; every sleep |
| `Retry.RetryableAt` | crates/vykar-storage/src/retry.rs:111-143 | every call but the last failed, and not with a permanent error or an I/O error other than a broken connection |
| `Retry.GivesUpOn` | crates/vykar-storage/src/retry.rs:28-73 | only a permanent error or another I/O error ends the attempts early |
| `Retry.BaseClosedForm` | crates/vykar-storage/src/retry.rs:35-43 | the k-th base is the smaller of the cap and 2^(k-1) times the first |
| `Retry.BaseSumBounds` | crates/vykar-storage/src/retry.rs:35-43 | the bases add up to no more than the cap or plain doubling allows |
| `Retry.TotalSleep` | crates/vykar-storage/src/retry.rs:35-43 | jitter at most doubles that |
| `Retry.HttpBackoffIff` | crates/vykar-storage/src/retry.rs:35-43 | the sleeps are base plus jitter for every draw if and only if the delay and the cap are small enough for `u64`, in closed form |
| `Retry.HttpFitsIff` | crates/vykar-storage/src/retry.rs:35-43 | that closed form says that no base wraps around when jittered or doubled |
| `Retry.HttpBackoffExample` | crates/vykar-storage/src/retry.rs:35-43 | a first delay just above half of `u64` can become one millisecond |
| `Retry.HttpSleepBound` | crates/vykar-storage/src/retry.rs:28-73 | a closed bound on the time until it gives up |
| `Retry.RetryOp` | crates/vykar-storage/src/sftp_backend.rs:447-501 | the same for SFTP; each connection obtained is given back once, discarded exactly if its attempt failed in a way worth a retry; the end of the function is unreachable |
| `Retry.RetriedAt` | crates/vykar-storage/src/sftp_backend.rs:447-501 | every attempt but the last got no connection, or failed, in a way worth another try |
| `Retry.OpBaseIsBase` | crates/vykar-storage/src/sftp_backend.rs:450-458 | saturation never shows in the bases |
| `Retry.OpBackoffIff` | crates/vykar-storage/src/sftp_backend.rs:450-458 | the sleeps are base plus jitter for every draw if and only if the delay and the cap are small enough, in closed form |
| `Retry.OpFitsIff` | crates/vykar-storage/src/sftp_backend.rs:450-458 | that closed form says that twice each base fits |
| `Retry.OpBackoffExample` | crates/vykar-storage/src/sftp_backend.rs:450-458 | a first delay just above half of `u64` can become one millisecond |
| `Retry.OpSleepBound` | crates/vykar-storage/src/sftp_backend.rs:447-501 | a closed bound on the time until an SFTP operation gives up |
| `RateLimiter.ByteRateLimiter.Consume` | crates/vykar-core/src/limits.rs:55-80 | the call returns at the first moment the total is within the rate, at once if it is already |
| `RateLimiter.StepKeepsInv` | crates/vykar-core/src/limits.rs:55-80 | no call is due before everything counted up to it fits the rate |
| `RateLimiter.RateIsRespected` | crates/vykar-core/src/limits.rs:55-80 | for every interleaving, the bytes of all calls that have returned are at most the rate times the time since the start |
| `RateLimiter.ReturnsWhenItFits` | crates/vykar-core/src/limits.rs:55-80 | a call may return exactly from the moment everything counted up to it fits the rate |
| `KdfAad.KdfParamsAadV1` | crates/vykar-crypto/src/key.rs:237-252 | the appended bytes are the layout that the decoder reads |
| `KdfAad.Layout` | crates/vykar-crypto/src/key.rs:237-252 | where the prefix, the lengths, the algorithm, the costs and the salt stand |
| `KdfAad.LittleEndianRoundTrip` | crates/vykar-crypto/src/key.rs:237-252 | four bytes hold a `u32` without loss |
| `KdfAad.DecodeEncode` | crates/vykar-crypto/src/key.rs:237-252 | decoding inverts encoding |
| `KdfAad.EncodeInjective` | crates/vykar-crypto/src/key.rs:237-252 | different parameters with lengths below 2^32 never share their associated data |
| `KdfAad.EncodeDecode` | crates/vykar-crypto/src/key.rs:237-252 | the decoder accepts nothing but encodings |
| `KdfAad.ValidParamsAreBound` | crates/vykar-crypto/src/key.rs:52-69 | parameters that pass validation are bound one to one |

## Left out

- SSH, SFTP, HTTP, the shell and the clock themselves: their answers are parameters or steps that may happen at any time.
- Encryption, key derivation, compression, chunking, the index and pack files, locks and the server: not part of this model.
- The calendar functions behind the bucket rules and `parse_timespan`: the bucket of a time is any function, and a window is a cutoff or malformed.
- RetentionByLabel.ApplyPolicyByLabel: the order in which the groups are visited is a parameter, any listing of the labels, of which the alphabetical order of the code is one; groups hold snapshots in place of indices.
- FileTreeBuild.SortAll: the display order is any ranking of directory flag and name, so case folding is not modelled.
- Sizes, times and display strings of tree nodes, the selection counter and its text: only carried along or derived.
- The computation of the next scheduled run from an interval or cron expression: any delay or an error.
- Percent-decoding, XML, signatures and checksums of the S3 backend: listings arrive decoded, and a continuation token is just the next page.
- DirCache.CacheIsSound: directories are never removed from the server in the model; a cache that outlives a removal is wrong by design.
- RateLimiter.ByteRateLimiter.Consume: exact reals in place of `f64`, and an unbounded counter in place of the saturating `u128`.
- Retry.RetryHttp: integers wrap as in a release build; a debug build would stop instead.
- Cycle.RunHookedStep: reports that an action makes while it runs are one list before its hooks conclude, and source-level warnings are among them.
- Reading items from a snapshot and writing them back: a restore is the filter it applies to paths.
- The message texts of errors, except those the cycle records itself.
