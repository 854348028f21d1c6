# Flashy Factory: verified model

Flashy Factory supervises coding agents. It admits work fairly across repositories, polls
ticket sources under backoff and shared rate limits, gives each task a Git workspace or a
sandbox, and cleans these up again across crashes. This project models its state machines
and its byte and string algorithms, and proves what they are relied on for.

`dafny verify dfyconfig.toml` checks everything.

## How it is organised

| file | what it holds |
|---|---|
| `CleanupProtocol.dfy` | workspace lifecycle as a transition system, with crashes between any two steps and edits while the process is down; safety over all runs |
| `WorkspaceCleanup.dfy` | finalization, startup reconciliation and operator cleanup as methods over ledger and directories; each durable write or removal is one protocol step; whole passes end exactly where a per-workspace function says |
| `SandboxProtocol.dfy`, `SandboxCleanup.dfy` | the same two layers for the sandbox of a run |
| `SharedWorkspace.dfy` | all runs' sandboxes, interleaved in any way, as a run of the workspaces that they share |
| `LeftoverSandboxes.dfy` | what a sandbox that outlived its run can still do to that workspace |
| `Worktrees.dfy`, `WorkspaceManager.dfy`, `WorktreeListing.dfy` | the workspace manager over an abstract Git whose commands may fail half-way; the parser of Git's worktree listing |
| `Admission.dfy`, `Dispatch.dfy` | the round-robin semaphore and the worker counters of all fleet members |
| `Health.dfy`, `HostQueries.dfy`, `Polling.dfy`, `Schedules.dfy` | backoff and rate limits, the coordinator of host queries, the poller's grid, the schedule scan |
| `LineFraming.dfy`, `BoundedBuffers.dfy`, `Utf8Cuts.dfy` | streaming algorithms against specifications on the whole stream |
| `Strings.dfy`, `Remotes.dfy`, `RemoteForms.dfy`, `ChangeRequests.dfy` | remote URLs, repository identities and change-request links; every accepted spelling of a remote |
| `Outcomes.dfy` | shared result types |

Methods that take `faults` may fail or crash at every action when it is true; when it is
false nothing but the code's own error branches can stop them. `Supervisor`, `SandboxRun`
and `Manager` keep a ghost `run`: each of their methods proves that what it did extends that
run by legal steps, so the theorems about all runs speak about the methods. The calls of
`Dispatcher` return the legal fleet events that they amount to. The ledger is a durable map
in which each call is one atomic write; Git, sandboxes and hosts answer arbitrarily within
the effects stated.

## What the proofs found

- Work in a sandbox can be lost. `recover_sandbox` and the error path of `execute` ignore a
  failed `stop`. An agent that survives it may work between the snapshot and the removal,
  and that work goes with the sandbox. `SandboxProtocol.WorkCanBeLost` gives the run;
  `SandboxProtocol.SafeExactlyWhenTheStopHalts` gives the exact condition.
- Recovery writes over clones. At every start, a sandbox that is left and not recorded as
  retained is snapshotted again and the clone of its task is hard reset to that snapshot,
  whatever became of the task and of the clone. An edit made while the daemon was down
  goes although nobody released the delivery (`LeftoverSandboxes.EditIsLost`), and the
  reset can even turn a clone that would be retained into one that is removed
  (`WorkspaceCleanup.EditOfPublishedCloneGoes`). All runs of a task share the clone, so an
  older sandbox puts its commit over a newer run's
  (`LeftoverSandboxes.OlderSandboxOverwrites`). The exact conditions are
  `LeftoverSandboxes.UnfinishedDeliverySurvivesExactlyWhen` and
  `LeftoverSandboxes.PreservedWorkStaysExactlyWhen`.
- The waiting flag of the admission queue is sticky. A waiting repository that neither
  tries again nor cancels caps the permits that the whole fleet can still take, whatever is
  free, and the cap is reached (`Admission.SilentRepositoryStallsTheFleet`,
  `Admission.StallIsReached`).
- A rate limit does not stop all queries. The slot is freed before the shared pause is
  written, and the pause is read before the operation starts, on threads that run in
  parallel. Inside a published pause a query starts exactly if it had read the pause
  before; at most two can (`HostQueries.CanStartInsideExactlyWhen`,
  `HostQueries.AtMostTwoStartInside`, `HostQueries.StartInsideAPause`). Between the host's
  answer and its publication there is no bound (`HostQueries.StartsBeforePublication`).
- A repository failure can bring a pending retry instant forward, exactly when the instant
  comes from a rate limit that lasts longer than the new delay
  (`Health.FailureShortensExactlyWhen`, `Health.FailureCanShortenARateLimit`).
- Two issues can be given one directory. The later preparation takes the first issue's
  directory, if it is there, exactly if it has the second branch, and if it is gone,
  exactly if it is the second issue's own and its branch is nowhere
  (`WorkspaceManager.SharedExactlyWhen`). While the manager keeps the directory registered,
  that needs somebody else who takes the first branch away from it
  (`WorkspaceManager.SharedTogetherExactlyWhen`, `WorkspaceManager.SwitchedDirectoryIsShared`);
  once the manager has dropped it, it can happen without anybody else
  (`WorkspaceManager.RemovedDirectoryIsUsedAgain`).
- One reconciliation pass does not settle a proposal clone whose Git metadata is gone; the
  next pass removes it (`WorkspaceCleanup.ProposalCloneGetsStuck`). The only other kind is
  a delivery clone that has to be compared while no token is configured
  (`WorkspaceCleanup.UncomparedDeliveryGetsStuck`); the check of the execution mode keeps
  a starting daemon from reconciling one (`WorkspaceCleanup.Supervisor.StartUp`).
- The three-hour scan repairs a schedule only inside its window. A minute is missed exactly
  when the cron library itself jumps over it further out
  (`Schedules.SkippedExactlyWhenJumpedOver`, `Schedules.MinuteCanBeMissed`).
- A repository name such as `b.GIT` parses, but its lower-cased identity does not
  (`Remotes.IdentityRoundTripExactlyWhen`, `Remotes.IdentityCanBeRefused`).
- The start delay of a poll is cast to 64 bits and keeps its phase exactly when the wait
  fits (`Polling.DelayIsOnTheGridExactlyWhenItFits`, `Polling.DelayCanMissTheGrid`).

## Model

| member | source | states |
|---|---|---|
| `CleanupProtocol.InvAlongRun` | src/daemon.rs:1994-2159 | every reachable state, from any interleaving of crashes, edits while down, finalization, recovery and operator cleanup, keeps ledger and disk consistent: cleaned means absent, a removal under way has its authority, a confirmed reason has a confirmation |
| `CleanupProtocol.ConfirmationWasRecorded` | src/main.rs:1044-1065 | a workspace counts as confirmed only if an operator's intent was written earlier in the run and no agent was given the workspace since |
| `CleanupProtocol.DeliveryRemovalIsJustified` | src/daemon.rs:2829-2960 | in every run, whenever a delivery directory goes, either an operator confirmed it earlier or the task succeeded and the tree at that moment is a clean checkout with HEAD at the base or, on a branch, at the commit that the remote has for it |
| `CleanupProtocol.CleanedMeansAbsent` | src/daemon.rs:2011-2076 | in every reachable state a workspace recorded as cleaned is gone from disk |
| `LeftoverSandboxes.OnlyRestoresTouchUnreleased` | src/daemon.rs:1861-1961 | in every run, a step other than an edit changes the files of a delivery whose task has not succeeded and whose cleanup nobody confirmed only by restoring a leftover sandbox that threatens them |
| `LeftoverSandboxes.UnfinishedDeliverySurvivesExactlyWhen` | src/daemon.rs:1883-1961 | whatever the daemon is doing, up or down: without edits or release, such files can change in some continuation if and only if a run of the task has left a sandbox, not recorded as retained, that holds or may get something else than the clone |
| `LeftoverSandboxes.PreservedWorkStaysExactlyWhen` | src/sandbox.rs:401-417 | however often the daemon dies and recovers, the commit at the head of a clone can be replaced if and only if such a sandbox with another commit, or with an agent still at work, is left |
| `LeftoverSandboxes.EditIsLost` | src/sandbox.rs:410-415 | a run that resets an edit of an unreleased delivery |
| `LeftoverSandboxes.OlderSandboxOverwrites` | src/daemon.rs:1904-1908 | a run in which the first run's sandbox replaces the second run's preserved commit, which no sandbox has any more |
| `SharedWorkspace.SandboxStepIsWorkspaceStep` | src/sandbox.rs:401-417 | every step of a run's sandbox is a step of the shared workspace; a preservation moves the clone's head to the snapshot, nothing else touches a directory, and no other run's sandbox changes |
| `SharedWorkspace.WholeRunIsWorkspaceRun` | src/daemon.rs:1861-1961 | any interleaving of any number of runs' sandboxes with each other, with crashes of the whole daemon and with all else is a run of the workspace lifecycle that shows every sandbox as it is |
| `SharedWorkspace.CrashIsSeen` | src/daemon.rs:1861-1961 | a crash of the daemon is a crash for all runs at once, and lets nobody into a sandbox any more |
| `WorkspaceCleanup.PassConverges` | src/daemon.rs:2011-2159 | from any ledger and disk state, one faultless pass leaves an owned terminal workspace cleaned or retained if and only if it is not one of the two stuck kinds |
| `WorkspaceCleanup.ProposalCloneGetsStuck` | src/daemon.rs:2856-2874 | a run that ends with an owned terminal proposal clone which one pass does not settle |
| `WorkspaceCleanup.UncomparedDeliveryGetsStuck` | src/daemon.rs:2906-2933 | the same for a delivery clone reconciled without a token, in a mode that the daemon refuses |
| `WorkspaceCleanup.Supervisor.StartUp` | src/daemon.rs:1391-1410 | the daemon refuses to start exactly over active work of the other mode; otherwise every workspace ends where a pass, with the tasks as run recovery leaves them, takes what sandbox recovery made of it; an owned one that no sandbox threatens where the pass takes it as it was, every owned terminal one settled except an unrecognised proposal clone, and every sandbox still there retained |
| `WorkspaceCleanup.Supervisor.CheckAndRecover` | src/daemon.rs:1391-1398 | the part before the pass: foreign workspaces are at most retained, owned ones keep their records, and only threatened clones change |
| `WorkspaceCleanup.Supervisor.RecoverSandboxes` | src/daemon.rs:1861-1961 | the loop over all sandboxes: only threatened clones of the owner change; without faults a clone with an unretained sandbox ends with the snapshot of one of them and every sandbox still there is retained |
| `WorkspaceCleanup.Supervisor.RecoverSandbox` | src/daemon.rs:1883-1961 | one sandbox: a foreign one is retained, a retained one stays, any other is preserved into the clone and removed, or retained when the directory takes no snapshot |
| `WorkspaceCleanup.EditOfPublishedCloneGoes` | src/sandbox.rs:410-415 | a run from the start in which an edited clone, that a pass would retain, is reset at the next start, after which the pass removes it |
| `WorkspaceCleanup.Supervisor.RecoverRuns` | src/storage.rs:3173-3293 | in one transaction, exactly the running tasks of the owner whose run has no live daemon and names the owner too end: cancelled if that was asked for, queued again after fewer than two recoveries, failed after two; no other task and no workspace changes |
| `WorkspaceCleanup.Supervisor.ValidateWorkspaceBackends` | src/daemon.rs:1969-1992 | passes only if every active owned workspace has the backend of the configured mode |
| `WorkspaceCleanup.SecondPassIsIdle` | src/daemon.rs:2123-2159 | a third pass changes nothing, and a second one changes a workspace exactly when it is a proposal clone that the first could not inspect |
| `WorkspaceCleanup.PassKeepsFiles` | src/daemon.rs:1994-2159 | a pass discards files only of proposals, confirmed cleanups and published work that waits for no continuation (or whose removal had begun), and does to another repository's workspace nothing but mark it retained |
| `WorkspaceCleanup.FinalizedDelivery` | src/daemon.rs:2883-2960 | a present delivery ends absent if and only if its task succeeded and waits for no continuation, and its tree is clean with HEAD at the base or, on a branch, at the remote tip, for a clone also only with a token; otherwise its files stay and it is retained, unless it could not be compared |
| `WorkspaceCleanup.FinalizedOther` | src/daemon.rs:2854-2890 | proposals and absent workspaces end absent and cleaned, except a proposal clone that is no repository, which stays pending |
| `WorkspaceCleanup.PassRemovesExactlyWhen` | src/daemon.rs:1994-2159 | for every workspace, task and owner the exact condition under which a faultless pass removes the directory; in all other cases the directory is as it was |
| `WorkspaceCleanup.PassStages` | src/daemon.rs:1994-2159 | for every workspace exactly when a faultless pass leaves it cleaned, pending or untouched; no other recorded fact changes |
| `WorkspaceCleanup.Supervisor.ReconcileWorkspaces` | src/daemon.rs:1839-1859 | a whole pass over a mixed ledger from any crash state puts every workspace exactly where the per-workspace function says; whatever fails, other owners are spared, and no removal begins of a delivery whose task failed or waits for a continuation or whose tree is dirty or unpublished: its files stay |
| `WorkspaceCleanup.Supervisor.RetainUnresolvableWorkspaces` | src/daemon.rs:2173-2178 | exactly the active workspaces of other owners become retained |
| `WorkspaceCleanup.Supervisor.ReconcilePendingCleanup` | src/daemon.rs:1994-2076 | interrupted cleanups end where recovery says, all other workspaces are untouched, foreign ones at most retained even with faults |
| `WorkspaceCleanup.Supervisor.RecoverCleanup` | src/daemon.rs:2011-2076 | one interrupted cleanup: absent directories are recorded, proposals and confirmed cleanups removed, automatic ones removed only if still safe, the rest retained |
| `WorkspaceCleanup.Supervisor.AutomaticCleanupIsStillSafe` | src/daemon.rs:2080-2121 | answers yes only for a succeeded task with a clean published tree as it is now, and always then unless a command fails or a token is missing |
| `WorkspaceCleanup.Supervisor.ReconcileTerminalWorkspaces` | src/daemon.rs:2123-2159 | every active terminal workspace is settled; pending and retained ones are left alone |
| `WorkspaceCleanup.Supervisor.SweepTerminal` | src/daemon.rs:2129-2159 | one iteration: skip, mark foreign or runless ones retained, otherwise finalize |
| `WorkspaceCleanup.Supervisor.WorkspaceOwnerIsResolved` | src/daemon.rs:2180-2201 | true exactly when task and workspace record both name the owner; otherwise the workspace becomes retained |
| `WorkspaceCleanup.Supervisor.FinalizeTaskWorkspace` | src/daemon.rs:2829-2960 | only the one workspace changes; a live task's not at all; a foreign one becomes retained; an owned terminal one ends where the settling function says; a delivery that the check does not release keeps its files whatever fails; without faults an error is reported exactly for unknown, foreign, unrecognised and uncomparable workspaces |
| `WorkspaceCleanup.Supervisor.DeliveryIsPublished` | src/daemon.rs:2906-2933 | reports whether HEAD is the base or the pushed tip; a remote that cannot be asked leads to retention |
| `WorkspaceCleanup.Supervisor.RemoveWorkspace` | src/daemon.rs:2936-2952 | intent, removal, result: afterwards the directory is gone and recorded as cleaned; interrupted anywhere, also with files half deleted, it leaves a protocol state |
| `WorkspaceCleanup.Supervisor.CleanupRun` | src/main.rs:960-1072 | without faults it succeeds exactly if the run is known, the repositories match, and the workspace is cleaned already or can be inspected and, when confirmed, its task is succeeded, failed or cancelled; then, with confirmation, it ends cleaned and absent, and in every other case nothing changes |
| `SandboxProtocol.InvAlongRun` | src/daemon.rs:3002-3199 | every reachable state relates the point of the process, the durable record and the sandbox |
| `SandboxProtocol.RecordsAgreeWithReality` | src/sandbox.rs:172-225 | a removal mark means the sandbox is gone; an agent is let in only after `created` was durable; a sandbox that holds work is recorded beyond `creating` |
| `SandboxProtocol.WorkIsNeverLost` | src/daemon.rs:1883-1961 | over every run with crashes, while ignored stops do halt the agent, no sandbox is removed before its work reached the clone and a `removing` record never covers any other |
| `SandboxProtocol.WorkCanBeLost` | src/sandbox.rs:376-388 | a concrete run in which a failed stop during recovery loses work |
| `SandboxProtocol.SafeExactlyWhenTheStopHalts` | src/sandbox.rs:376-388 | after any run that lost nothing and ends in an ignored stop on the way to a removal: no continuation whose later stops halt loses work if and only if that stop halted the agent |
| `SandboxCleanup.SandboxRun.RunSandbox` | src/sandbox.rs:172-256 | persist, create, persist, execute in that order; each early end leaves the record that the caller branches on |
| `SandboxCleanup.SandboxRun.Execute` | src/sandbox.rs:258-343 | the agent runs only on a recorded sandbox; a returned outcome means that it was stopped, and is the one that belongs to how the wait ended |
| `SandboxCleanup.SandboxRun.PreserveOrRetain` | src/daemon.rs:3086-3108 | success puts all work of the stopped sandbox into the host clone; failure keeps the sandbox and records it as retained |
| `SandboxCleanup.SandboxRun.RemoveBox` | src/daemon.rs:3110-3128 | `removing` is durable before the removal, the mark only after it |
| `SandboxCleanup.SandboxRun.ExecuteSandboxTask` | src/daemon.rs:3002-3213 | without faults the sandbox ends removed and marked, recorded as exited, timed out or cancelled exactly as the wait for the agent ended; with faults every early end is a protocol state |
| `SandboxCleanup.SandboxRun.CleanUpBroken` | src/daemon.rs:3141-3212 | the run fails in any case; once `created` was recorded the sandbox goes only after the work it held when execution broke is in the host clone, and before that nothing is copied; without faults it ends removed and recorded as an error |
| `SandboxCleanup.SandboxRun.RecoverSandbox` | src/daemon.rs:1861-1961 | recovery from any crash state: a missing sandbox that was being removed gets its mark and any other record stays, a foreign one is retained untouched, an owned one ends preserved and gone or retained |
| `Worktrees.NamesAreDistinct` | src/workspace.rs:89-93 | distinct issues have distinct branches and directories that the retention limit counts; proposal directories are never counted |
| `Worktrees.DeliveryNamesAre` | src/workspace.rs:360-376 | a name counts as a delivery exactly if it is "issue-" and a decimal number |
| `Worktrees.BranchesNeverMove` | src/workspace.rs:111-244 | over any sequence of manager operations, completed or interrupted, a branch that exists stays at its commit unless somebody else moves it |
| `Worktrees.OnlyManagedPlacesChange` | src/workspace.rs:402-415 | over any such sequence nothing that is not a direct child of the managed root changes, the primary checkout included |
| `Worktrees.RetentionIsBounded` | src/workspace.rs:444-452 | creation never takes the number of `issue-N` directories above ten |
| `Worktrees.HeldUntilUnregistered` | src/workspace.rs:111-324 | over any run, a directory keeps its branch unless somebody else switches it or the manager drops its registration |
| `WorkspaceManager.PathIsKnownBefore` | src/workspace.rs:111-189 | where a preparation puts an issue, told from the state before the call: its own directory if no worktree has the branch, else where the branch is |
| `WorkspaceManager.SharedExactlyWhen` | src/workspace.rs:111-189 | for deliveries of distinct issues in a run: the later call takes the first directory, if it is there, exactly if it has the later branch, and if it is gone, exactly if it is the later issue's own and its branch is nowhere; either way somebody else took the first branch from it, or the manager dropped it, or it is gone |
| `WorkspaceManager.SharedTogetherExactlyWhen` | src/workspace.rs:111-189 | a directory that the manager kept is shared exactly if somebody else took the first branch from it in between and it has the later one |
| `WorkspaceManager.DeliveriesAreSeparate` | src/workspace.rs:111-189 | over any operations in between, they have distinct directories as long as nobody else switches the first one and the manager does not drop its registration |
| `WorkspaceManager.DeliveredAtExactlyWhen` | src/workspace.rs:111-189 | under every policy, a preparation succeeds and puts an issue at a path exactly if the path is the issue's own free directory within the retention limit and the branch is nowhere and fits, or the path alone holds the branch and may be adopted |
| `WorkspaceManager.PolicyForFreeBranch` | src/workspace.rs:147-189 | for a branch in no worktree: prepared exactly if the target is free, fewer than ten deliveries are retained, and the branch is absent, or reuse is owned, or the exact base is asked for and the branch is there |
| `WorkspaceManager.PolicyForHeldBranch` | src/workspace.rs:111-146 | for a branch in a worktree: adopted exactly if that is the only one, it is managed, and reuse is owned, or the exact base is asked for and the tree is clean and there |
| `WorkspaceManager.BranchIsKept` | src/workspace.rs:152-189 | a prepared delivery has its own branch checked out, an existing one at its own commit and a new one at the base |
| `WorkspaceManager.RemovalUndoesCreation` | src/workspace.rs:147-309 | what was created can be removed as clean, and that restores every directory and registration, keeping the branch |
| `WorkspaceManager.SwitchedDirectoryIsShared` | src/workspace.rs:111-189 | two successful preparations beside the primary checkout, of which the second adopts the directory of the first after somebody switched it |
| `WorkspaceManager.RemovedDirectoryIsUsedAgain` | src/workspace.rs:111-189 | two successful preparations beside the primary checkout, with a removal by the manager between them and nobody else, that give one directory to two issues |
| `WorkspaceManager.NewTaskCannotAdopt` | src/workspace.rs:153-157 | once an issue has a branch, no later fresh preparation of that issue succeeds while others leave the branch alone |
| `WorkspaceManager.Manager.Open` | src/workspace.rs:59-84 | a manager exists exactly when neither directory contains the other and the repository is Git's primary checkout |
| `WorkspaceManager.Manager.PrepareDelivery` | src/workspace.rs:111-189 | succeeds without faults exactly when the policy, the limit and the free target allow it; Reject yields only new branches and directories, ExactBase only clean checkouts at the base; half-way failures add at most the branch and the directory |
| `WorkspaceManager.Manager.CreateDelivery` | src/workspace.rs:147-189 | the branch at the base if it is new, as it was if it exists, checked out in a directory that did not exist |
| `WorkspaceManager.Manager.PrepareProposal` | src/workspace.rs:191-244 | the same for detached proposal checkouts; no branch is touched |
| `WorkspaceManager.PolicyForProposals` | src/workspace.rs:191-244 | a proposal is prepared exactly if its target is free, or is a managed detached worktree and reuse is owned, or the exact base is asked for and it is clean and there |
| `WorkspaceManager.Manager.PreviewCleanup` | src/workspace.rs:246-260 | reports branch and dirtiness of a managed registered directory and refuses everything else |
| `WorkspaceManager.Manager.Cleanup` | src/workspace.rs:262-289 | without confirmation nothing changes; with it exactly the one path goes, registered or orphaned, and branches stay |
| `WorkspaceManager.Manager.CleanupClean` | src/workspace.rs:291-309 | never removes a checkout with local changes, whatever fails |
| `WorkspaceManager.Manager.CleanupDisposable` | src/workspace.rs:311-324 | removes whatever is at a managed path and nothing else |
| `WorkspaceManager.Manager.RemoveOrphaned` | src/workspace.rs:330-349 | a directory that Git does not know goes; a plain file is refused; a failure touches that path only |
| `WorkspaceManager.RemovableExactlyWhen` | src/workspace.rs:246-349 | at a managed path every directory can be removed, registered or not, and nothing that is a plain file or only a registration |
| `WorkspaceManager.Manager.RetainedCount` | src/workspace.rs:360-376 | the number of `issue-N` directories under the root, in whatever order the entries come |
| `WorkspaceManager.Manager.WorktreeForBranch` | src/workspace.rs:378-388 | the only worktree on the branch, none if there is none, an error if there are several |
| `WorkspaceManager.Manager.RegisteredWorktree` | src/workspace.rs:390-396 | the registration at a path, with its branch |
| `WorkspaceManager.Manager.EnsureManaged` | src/workspace.rs:402-415 | accepts exactly the direct children of the root without `..`, and never the primary checkout |
| `WorkspaceManager.ManagedAreChildren` | src/workspace.rs:402-415 | managed are exactly the children of the root under a name other than ".." |
| `WorkspaceManager.Manager.RequireCleanExactBase` | src/workspace.rs:428-443 | accepts exactly a clean directory whose HEAD is the base |
| `WorkspaceManager.Manager.Prune` | src/workspace.rs:499-502 | drops exactly the registrations whose directories are gone; stopped half-way it has dropped no other |
| `WorktreeListing.ParseWorktrees` | src/workspace.rs:527-549 | the line loop computes the meaning of the listing, an empty one being an error |
| `WorktreeListing.ParseOfPrinted` | src/workspace.rs:527-549 | parsing what Git prints gives back every worktree in order with its own branch, with or without a final empty line |
| `Admission.NextIsNearest` | src/daemon.rs:531-535 | the scan picks exactly the waiting repository nearest to the cursor |
| `Admission.ExactlyOneWinner` | src/daemon.rs:481-502 | when a permit is free and someone waits, exactly one waiting repository's attempt succeeds |
| `Admission.GrantedExactlyWhen` | src/daemon.rs:481-535 | a try is granted if and only if a permit is free and no waiting repository is nearer to the cursor, the distance being the number of slots to go round |
| `Admission.TryEffect` | src/daemon.rs:481-502 | a refused repository waits and all else is as before; a granted one does not wait, the cursor stands right behind it and one permit moves; no other flag changes |
| `Admission.PermitsAreConserved` | src/daemon.rs:424-431 | over any run, free plus held permits stay the same |
| `Admission.ForeignGrant` | src/daemon.rs:481-502 | a grant to another repository brings the cursor strictly closer to a waiting one, by the distance it skips |
| `Admission.BoundedOvertaking` | src/daemon.rs:481-535 | while a repository waits, the grants of any run go to different repositories in cursor order and are at most its distance |
| `Admission.OvertakenAtMostOncePerRepository` | tests/fleet_supervisor.rs:8-32 | at most n - 1 grants pass a waiting repository, at most one for each other |
| `Admission.OvertakenAfterATry` | src/daemon.rs:481-502 | from any try on, whoever waited before, until that repository is granted or cancels, every other repository is granted at most once |
| `Admission.OnlyTriersAreGranted` | src/daemon.rs:481-502 | nobody gets a permit without trying |
| `Admission.SilentRepositoryStallsTheFleet` | src/daemon.rs:481-517 | a waiting repository that falls silent bounds all further grants of the fleet |
| `Admission.StallIsReached` | src/daemon.rs:481-517 | with permits enough there is a run that attains the bound, after which nothing more is ever granted |
| `Admission.FleetAdmission.New` | src/daemon.rs:434-460 | refuses exactly an empty fleet, a zero limit and duplicates |
| `Admission.FleetAdmission.TryAcquire` | src/daemon.rs:481-502 | a refused try sets the one waiting flag and nothing else; a granted one clears it, puts the cursor right behind it and takes a permit; unknown repositories are refused unchanged |
| `Admission.FleetAdmission.CancelWait` | src/daemon.rs:504-517 | clears the one waiting flag |
| `Dispatch.StartKeepsCounted` | src/daemon.rs:2310-2376 | launching within the limits keeps every counter equal to its repository's workers |
| `Dispatch.JoinKeepsCounted` | src/daemon.rs:4471-4478 | joining keeps the counters exact; the decrement never underflows and no zero stays |
| `Dispatch.FleetLimitsHold` | src/daemon.rs:2253-2376 | over every run from an empty fleet, counters are exact and within both member limits, and workers across the fleet never exceed the fleet limit |
| `Dispatch.WorkerHoldsPermit` | src/daemon.rs:424-431 | a worker at work holds a permit, so its end can always give one back |
| `Dispatch.Dispatcher.Available` | src/daemon.rs:2254-2258 | exactly the targets below the repository limit |
| `Dispatch.Dispatcher.DispatchAvailable` | src/daemon.rs:2253-2376 | it launches exactly what the ledger offered, on targets, each under its own permit; no permit leaks on any exit; the cancellation is looked at before every launch; why it stopped is justified: the limit is reached, every target is at its own, a target that waits would be refused a permit, or the ledger's last answer was nothing or an error; and the whole call is a sequence of legal dispatch events of the fleet |
| `Dispatch.Dispatcher.DecrementActive` | src/daemon.rs:4471-4478 | lowers a counter and drops it at zero |
| `Health.BackoffIsUncapped` | src/fleet.rs:114-123 | the capped exponent gives the uncapped formula for every count |
| `Health.BackoffDoubles` | src/fleet.rs:114-123 | five seconds after the first failure, twice the last delay after each further one, never more than fifteen minutes |
| `Health.RateLimitDelay` | src/fleet.rs:159-167 | a positive delay that ends at the host's future instant, or a minute |
| `Health.InvAlongRun` | src/daemon.rs:1056-1171 | over every run of events, a saved state exists exactly while rate limited, failures since the last recovery are counted, and the retry instant is at least the last failure plus its backoff |
| `Health.StepKeepsInv` | src/daemon.rs:1056-1171 | healthy is entered only by a recovery at or after the retry instant; a rate limit never shortens it |
| `Health.BackoffIsServed` | src/daemon.rs:1056-1129 | whatever happens during the delay after a failure, the repository stays unhealthy and may not be retried before its end |
| `Health.FailureShortensExactlyWhen` | src/daemon.rs:1091-1171 | over every run, a failure brings a pending retry instant forward if and only if the repository is rate limited for longer than the new delay; an earlier failure's delay is never shortened |
| `Health.FailureCanShortenARateLimit` | src/daemon.rs:1091-1129 | an hour's rate limit becomes five seconds after one failure |
| `Health.RecoveryMeans` | src/daemon.rs:1056-1089 | a recovery makes the record healthy, without failures and retry, exactly unless a retry instant of a waiting state lies ahead |
| `Health.FailureMeans` | src/daemon.rs:1091-1129 | a failure is counted up to the largest number and the retry instant lies ahead by the delay of the new count, between five seconds and fifteen minutes |
| `Health.LimitMeans` | src/daemon.rs:1137-1171 | a usable record becomes rate limited until the later of both instants, keeps its failures and remembers the state before the first limit; an unusable one stays |
| `Health.FleetHealth.SetRepositoryHealthy` | src/daemon.rs:1056-1089 | recovers exactly one known record, and not before its retry instant |
| `Health.FleetHealth.SetRepositoryFailure` | src/daemon.rs:1091-1129 | counts up with saturation and sets the retry instant |
| `Health.FleetHealth.SetFleetRateLimited` | src/daemon.rs:1137-1171 | limits every record that is in use, in any order |
| `HostQueries.AtMostTwoInFlight` | src/daemon.rs:369-414 | in every interleaving of threads at most two operations are in flight |
| `HostQueries.TwoRunTogether` | src/daemon.rs:364-414 | a run in which two operations are in flight |
| `HostQueries.StarterHasOperation` | src/daemon.rs:374-395 | a query that is about to start has its operation, so taking it never fails |
| `HostQueries.OperationRunsAtMostOnce` | src/daemon.rs:369-414 | no query starts twice in any run |
| `HostQueries.PauseOnlyMovesLater` | src/daemon.rs:401-408 | over any run the shared pause never moves back and never disappears |
| `HostQueries.PublishedPauseIsTheLater` | src/daemon.rs:401-408 | a publication leaves the later of the two instants |
| `HostQueries.StartInsideReadBefore` | src/daemon.rs:375-408 | a start after a publication falls inside the published pause exactly when its query read the pause before the publication and the end has not come; later readers always wait |
| `HostQueries.CanStartInsideExactlyWhen` | src/daemon.rs:387-408 | at a publication, a query can still start inside the pause in some continuation if and only if the pause is not over and the query had read an earlier, shorter pause |
| `HostQueries.AtMostTwoStartInside` | src/daemon.rs:364-408 | at most two operations start inside one published pause |
| `HostQueries.PauseServesTheLimit` | src/daemon.rs:396-408 | a published pause lasts until the host's instant or until the fallback has passed since the answer |
| `HostQueries.LateReadersServeTheLimit` | src/daemon.rs:375-408 | a query that reads the pause after the publication starts no earlier than the host asked |
| `HostQueries.StartInsideAPause` | src/daemon.rs:387-408 | a reachable run with a start inside a published pause |
| `HostQueries.StartsBeforePublication` | src/daemon.rs:396-408 | for every n a run with n starts between a limit's return and its publication |
| `Polling.WaitHitsTheGrid` | src/fleet.rs:125-157 | the wait lies in (0, interval] and ends in the residue class fixed by the hash |
| `Polling.StaggerIsTheRemainder` | src/fleet.rs:125-134 | the stagger of any hash is its remainder by the interval |
| `Polling.DelayExistsExactlyWhen` | src/fleet.rs:136-157 | a delay exists exactly for a positive interval and a clock past the epoch, and is the wait modulo 2^64 |
| `Polling.DelayIsOnTheGridExactlyWhenItFits` | src/fleet.rs:136-157 | the same for the delay as cast, exactly when the wait fits 64 bits |
| `Polling.DelayCanMissTheGrid` | src/fleet.rs:136-157 | for every hash an interval and a start whose wait is cast to nothing |
| `Polling.RestartKeepsPhase` | src/fleet.rs:125-157 | any two starts of a target poll in the same residue class when both waits fit the cast, as they do below 2^64 ms |
| `Polling.NextTickIsLeast` | src/daemon.rs:1025-1032 | no earlier grid point after now exists, so missed ticks are skipped |
| `Polling.NextTickKeepsPhase` | src/daemon.rs:1025-1032 | advancing keeps the residue class |
| `Polling.NextTickExactlyWhen` | src/daemon.rs:1025-1032 | the next tick is exactly the least grid point after now |
| `Polling.EffectiveDueIsTheGate` | src/daemon.rs:1034-1046 | a target is due exactly when its own time, its repository's retry and the shared pause have all passed |
| `Polling.Poller.AdvancePollDue` | src/daemon.rs:1025-1032 | terminates at the next grid point after now and changes one target |
| `Polling.Poller.NextTarget` | src/daemon.rs:868-875 | with retries and pause re-read at every evaluation: the target taken was seen due, none means that each was seen not due, and among unchanged values it is the first with the earliest effective due time |
| `Polling.Poller.DispatchDue` | src/daemon.rs:863-888 | at most two polls are active; every poll started was seen due in this pass, none twice; afterwards the slots are full or each target was seen not due; among unchanged values they start in the order of their due times, before all others |
| `Polling.Poller.FinishPoll` | src/daemon.rs:896-926 | frees a slot; a failure moves that target's due time to its retry instant |
| `Schedules.NextIsLaterAndUnique` | src/daemon.rs:3872-3898 | the next occurrence is unique, strictly later and at most the candidate |
| `Schedules.NextOccurrence` | src/daemon.rs:3872-3898 | the first included whole minute within three hours and before the candidate, else the candidate |
| `Schedules.SkippedExactlyWhenJumpedOver` | src/daemon.rs:3816-3898 | catching up skips an included minute if and only if it lies beyond the scan window after the occurrence before it and the library jumped over it |
| `Schedules.MinuteCanBeMissed` | src/daemon.rs:3816-3898 | a schedule and a chain that miss a minute |
| `Schedules.ChainCoversEveryDueMinute` | src/daemon.rs:3816-3898 | every included minute up to the end is met exactly if the chain's own steps did not jump over it, and nothing is met twice |
| `Schedules.ScheduledTarget.EvaluateSchedule` | src/daemon.rs:3856-3870 | enqueues the present occurrence and returns the next; an error enqueues nothing |
| `Schedules.ScheduledTarget.EvaluateSchedules` | src/daemon.rs:3816-3835 | terminates, enqueues exactly the chain up to the bound or the first refused write, and without an error ends past the bound |
| `LineFraming.SegmentsAreTheSplit` | src/runtime.rs:760-804 | the specification: pieces join to the stream and hold no newline |
| `LineFraming.SplitOfJoin` | src/runtime.rs:760-804 | it is the only such cut |
| `LineFraming.LinesOfTerminated` | src/runtime.rs:760-804 | what was written as lines is read as those lines, and bytes after the last newline are one more |
| `LineFraming.EveryStreamIsTerminated` | src/runtime.rs:760-804 | every stream was written so |
| `LineFraming.SelectionOfOne` | src/sandbox.rs:684-693 | which line is within the limit, and which is blank, by its bytes |
| `LineFraming.FittingIsByLine` | src/runtime.rs:768-791 | the captured lines keep their order, each judged by itself |
| `LineFraming.NonBlankIsByLine` | src/sandbox.rs:684-693 | so do the lines that are not blank |
| `LineFraming.FirstProblemIsFirst` | src/sandbox.rs:694-706 | the complaint is that of the first line that has one |
| `LineFraming.HostIsContentExactlyWhen` | src/runtime.rs:768-804 | the host reader has no complaint if and only if every line is within the limit and has no problem |
| `LineFraming.SandboxIsContentExactlyWhen` | src/sandbox.rs:684-706 | the sandbox reader has none if and only if every line is within the limit and blank or without a problem |
| `LineFraming.ConcatIsTheStream` | src/runtime.rs:760-771 | the stream is its reads one after the other |
| `LineFraming.ReadStdout` | src/runtime.rs:760-804 | for any split into reads, count, captured lines and complaint are those of the whole stream |
| `LineFraming.CaptureJsonActivity` | src/sandbox.rs:630-706 | the same lines with blank ones skipped and the first complaint kept |
| `LineFraming.HostReader.Feed` | src/runtime.rs:768-791 | one byte keeps the reader equal to the framing of everything seen |
| `LineFraming.SandboxReader.RecordLine` | src/sandbox.rs:684-706 | one finished line is skipped, counted, refused or parsed as the specification says |
| `BoundedBuffers.ByteBuffer.AppendThenDrain` | src/sandbox.rs:743-748 | keeps the last bytes of buffer and chunk |
| `BoundedBuffers.ByteBuffer.DrainThenAppend` | src/runtime.rs:1115-1129 | keeps the very same bytes, and the buffer is never longer than the limit on the way |
| `BoundedBuffers.HostReadBounded` | src/runtime.rs:1099-1129 | folding over any reads keeps the last bytes of the stream |
| `BoundedBuffers.SandboxReadBounded` | src/sandbox.rs:743-761 | the other implementation computes the same |
| `BoundedBuffers.EndsMean` | src/source.rs:445-478 | the kept bytes are an end, or a beginning, of the stream, as long as limit and stream allow |
| `BoundedBuffers.ReadBounded` | src/source.rs:445-478 | exact prefix or suffix; with reads of at most 8192 bytes and a larger limit, as both callers have, truncated exactly if the stream is longer than the limit; for any limit the exact meaning of the flag |
| `Utf8Cuts.CutIsCleanExactlyAtBoundaries` | src/sandbox.rs:763-783 | on valid UTF-8 a cut splits no character exactly when it is at a boundary |
| `Utf8Cuts.BoundaryIsNear` | src/sandbox.rs:763-783 | a boundary lies at most three bytes away on either side |
| `Utf8Cuts.ValidExactlyWhenEncoded` | src/sandbox.rs:763-783 | the texts taken as valid are exactly the encodings of Unicode scalar values by the table of section 3 of RFC 3629 |
| `Utf8Cuts.TruncateTail` | src/sandbox.rs:763-772 | also the cut at src/runtime.rs:1005-1012: the longest valid suffix within the limit, at most three bytes short of it |
| `Utf8Cuts.TruncateHead` | src/sandbox.rs:774-784 | the longest valid prefix within the limit, at most three bytes short of it |
| `Utf8Cuts.BoundedContext` | src/daemon.rs:3558-3568 | short text unchanged; otherwise the marker and a valid tail |
| `Remotes.ParsedIsCanonical` | src/repository.rs:107-156 | whatever parses has segments that are non-empty, not dots and not ending in ".git", the provider's number of them and the provider's host |
| `Remotes.CanonicalExactlyWhenParsed` | src/repository.rs:107-203 | these are exactly the values that some remote parses to |
| `RemoteForms.ParsedExactlyWhenSpelled` | src/repository.rs:107-203 | a remote parses to a repository if and only if the repository is canonical and the remote is one of its spellings: scp, ssh or https, host in any case, the permitted users and ports, with or without ".git" and trailing slashes |
| `RemoteForms.RecommendedForms` | src/repository.rs:6-10 | the forms that the error text recommends all parse to the repository they name |
| `Remotes.IdentityMeans` | src/repository.rs:42-51 | the identity is the path in lower case, on GitLab behind the host |
| `Remotes.PrintParseRoundTrip` | src/repository.rs:107-203 | printing a parsed remote as an https URL and parsing it gives the same value |
| `Remotes.IdentityPrintsLowered` | src/repository.rs:42-51 | the identity stands for the remote with namespace and name in lower case |
| `Remotes.IdentityRoundTripExactlyWhen` | src/repository.rs:42-51 | the round trip through the identity holds exactly when no segment ends in ".git" ignoring case, and fails otherwise |
| `Remotes.IdentityCanBeRefused` | src/repository.rs:126-136 | a parsed repository whose identity does not parse |
| `ChangeRequests.RecognizedExactlyWhenPrinted` | src/repository.rs:54-105 | a link is recognised exactly when it has the printed shape of a change request of that project, letters in any case, and is returned unchanged |
| `Strings.EqIgnoreCaseMeans` | src/repository.rs:54-105 | two texts count as the same exactly if they differ in the case of ASCII letters only |
| `ChangeRequests.OneOwner` | src/repository.rs:54-105 | a link recognised for two identities means one provider and identities equal ignoring case |
| `ChangeRequests.OneOwnerAmongParsedRemotes` | src/repository.rs:42-105 | two parsed repositories that own one link have the same identity, namespace and name up to case |
| `ChangeRequests.OwnLinksAreRecognized` | src/repository.rs:42-105 | every change-request link of a parsed repository is recognised for its identity |

## Left out

- SandboxProtocol.WorkIsNeverLost: does not hold for a stop that fails, because the daemon ignores that failure, and says nothing of the clone afterwards; the exact conditions are `SandboxProtocol.SafeExactlyWhenTheStopHalts` and `LeftoverSandboxes.PreservedWorkStaysExactlyWhen`.
- LeftoverSandboxes.PreservedWorkStaysExactlyWhen: speaks of the clone's head; a commit that lost its place there may still be in the object store.
- Two finalizers at work on one task at the same moment, and edits between a check and the removal within one life of the process: one actor is modelled, and people edit while it is down.
- Several workspaces in one directory: a candidate path carries the task's id, so each task has its own.
- SandboxCleanup.SandboxRun.Execute: an `sbx exec` that exits is taken as the end of the agent's work, because the daemon treats it so.
- Locked worktrees and worktrees whose directory is present without its Git link: pruning is modelled by absence of the directory.
- The validity of names that Git checks, and the resolution of a base expression to a commit: parameters of the two preparations.
- `CloneManager`: its preparation; of its cleanup, only that it inspects and then removes without a second look.
- Clocks that disagree: the wall clock of a host's retry instant and the monotonic clock of the pause advance together.
- Wake-ups of a waiting `acquire`: the claims are about attempts, because a grant notifies nobody.
- Ledger SQL (claiming, what counts as a live daemon, schedule cursors, event claims): every call is one atomic write, and a claimed task's repository is among those offered.
- JSON, thread ids and activity summaries: what is wrong with a line is an arbitrary function of the line.
- The instant arithmetic of clocks that overflow, and the conversion errors of schedule cursors outside the supported range.
- Cron expressions, time zones, SHA-256, TOML and redaction: library code; a schedule is a predicate with a candidate, a hash is a number, context is already sanitised.
- `update_observation`: its counting and duplicate checks are field comparisons; its cut of the kept activity is `TruncateTail`.
- `evaluate_schedules_once`: one iteration of the modelled loop.
- Git, `gh`, `glab`, `sbx`, Asana and agent processes: success or failure with the stated effect.
- Command line, tables, prompts, scaffolding, configuration checks and health persistence: formatting or single checks.
