/** Finalization, startup reconciliation and operator cleanup, written over one
    durable ledger and one set of directories. Every durable or external action goes
    through a method that may also fail or stop the process, and every action is
    recorded as a step of `CleanupProtocol`. */
module WorkspaceCleanup {
  import opened Outcomes
  import opened CleanupProtocol
  import opened LeftoverSandboxes
  import S = SandboxProtocol

  predicate Active(record: Record) {
    !record.stage.Cleaned?
  }

  /** Asking the remote about a clone's branch needs a token. */
  predicate NeedsToken(w: Workspace) {
    w.record.backend == Clone && w.dir.Checkout? && w.dir.tree.head != w.record.base && w.dir.tree.onBranch
  }

  /** Time passes for a sandbox: only its agent changes its commit, and none comes back. */
  predicate Aged(before: Sandbox, after: Sandbox) {
    after.task == before.task && (after.active ==> before.active) && (after.head != before.head ==> before.active)
  }

  /** Time passes for all sandboxes, and the daemon recovers `r` among them. */
  predicate AllAged(before: map<RunId, Sandbox>, after: map<RunId, Sandbox>, r: RunId) {
    && (forall q <- before :: q in after || q == r)
    && (forall q <- after ::
          q in before && Aged(before[q], after[q]) && (q != r ==> after[q].stage == before[q].stage))
  }

  lemma AgedTwice(a: map<RunId, Sandbox>, b: map<RunId, Sandbox>, c: map<RunId, Sandbox>, r: RunId)
    requires AllAged(a, b, r) && AllAged(b, c, r)
    ensures AllAged(a, c, r)
  {
  }

  lemma NothingAged(boxes: map<RunId, Sandbox>, r: RunId)
    ensures AllAged(boxes, boxes, r)
  {
  }

  /** A threat was there before its sandbox aged. */
  lemma ThreatWasThere(before: State, after: State, r: RunId, t: TaskId)
    requires Threatens(after, r, t) && AllAged(before.boxes, after.boxes, r)
    requires before.tasks == after.tasks && before.spaces == after.spaces
    requires r in before.boxes && before.boxes[r].stage != S.Retained
    ensures Threatens(before, r, t)
  {
  }

  lemma SameThreats(before: State, after: State, r: RunId, t: TaskId)
    requires before.tasks == after.tasks && before.spaces == after.spaces && before.boxes == after.boxes
    ensures Threatens(before, r, t) <==> Threatens(after, r, t)
  {
  }

  lemma DifferenceThreatens(s: State, r: RunId, t: TaskId)
    requires r in s.boxes && s.boxes[r].task == t && s.boxes[r].stage != S.Retained && Known(s, t)
    requires s.tasks[t].repository == s.spaces[t].record.repository && s.spaces[t].dir.Checkout?
    requires s.boxes[r].head != s.spaces[t].dir.tree.head || s.spaces[t].dir.tree.dirty
    ensures Threatens(s, r, t)
  {
  }

  lemma AgedAt(before: map<RunId, Sandbox>, after: map<RunId, Sandbox>, r: RunId)
    requires AllAged(before, after, r) && r in after
    ensures r in before && Aged(before[r], after[r])
  {
  }

  /** A directory that the preservation of `box` changed was and is a checkout, and it had
      something that the snapshot has not. */
  predicate Rewritten(box: Sandbox, before: Dir, after: Dir) {
    after != before ==> before.Checkout? && after.Checkout? && (box.head != before.tree.head || before.tree.dirty)
  }

  /** A faultless preservation of `box`: a clone takes its snapshot, anything else stays. */
  predicate Preserved(box: Sandbox, before: Dir, after: Dir) {
    if box.stage == S.Retained || !before.Checkout? then after == before
    else
      && after.Checkout?
      && after.tree == before.tree.(head := after.tree.head, dirty := after.tree.dirty)
      && (after.tree.dirty ==> before.tree.dirty)
      && (box.active || after.tree.head == box.head)
  }

  /** From `before` to `after` only sandbox `r` of `t` was recovered. */
  ghost predicate RecoversOne(before: State, after: State, r: RunId, t: TaskId) {
    var was, now := before.spaces, after.spaces;
    && t in now && t in was
    && now == was[t := was[t].At(now[t].record.stage).(dir := now[t].dir)]
    && AllAged(before.boxes, after.boxes, r)
    && (now[t].dir != was[t].dir ==> now[t].dir.Checkout? && Threatens(before, r, t))
  }

  /** The backend that the configured execution mode uses. */
  function BackendOf(sandboxMode: bool): Backend {
    if sandboxMode then Clone else Worktree
  }

  function Gone(w: Workspace): Workspace {
    w.At(Cleaned).(dir := Absent)
  }

  /** Where finalization leaves an owned terminal workspace when no command fails. */
  function Settled(task: Task, w: Workspace, hasToken: bool): Workspace {
    if w.record.kind == Proposal then
      if w.record.backend == Clone && w.dir.Unregistered? then w.At(CleanupPending(OtherReason)) else Gone(w)
    else if w.dir.Absent? then
      Gone(w)
    else if NeedsToken(w) && !hasToken then
      w
    else if SafeToDiscard(task, w) && !task.continues then
      Gone(w)
    else
      w.At(Retained)
  }

  /** Where recovery of an interrupted cleanup leaves an owned workspace. */
  function Recovered(task: Task, w: Workspace, hasToken: bool): Workspace {
    if !w.record.stage.CleanupPending? then
      w
    else if w.dir.Absent? || w.record.kind == Proposal || w.record.stage.reason == OperatorConfirmed then
      Gone(w)
    else if w.record.stage.reason == AutomaticDelivery && SafeToDiscard(task, w) && (NeedsToken(w) ==> hasToken) then
      Gone(w)
    else
      w.At(Retained)
  }

  /** Where the ownership check leaves a workspace. */
  function Screened(task: Task, w: Workspace, owner: string): Workspace {
    if Active(w.record) && !Owned(task, w.record, owner) then w.At(Retained) else w
  }

  /** Where the loop over pending workspaces leaves any workspace. */
  function AfterPending(task: Task, w: Workspace, owner: string, hasToken: bool): Workspace {
    if w.record.stage.CleanupPending? then Recovered(task, Screened(task, w, owner), hasToken) else w
  }

  lemma ScreenedOnce(task: Task, w: Workspace, owner: string, hasToken: bool)
    ensures Screened(task, Screened(task, w, owner), owner) == Screened(task, w, owner)
    ensures AfterPending(task, Screened(task, w, owner), owner, hasToken)
            == Recovered(task, Screened(task, w, owner), hasToken)
  {
  }

  /** One step of the loop over terminal workspaces. */
  function Swept(task: Task, w: Workspace, owner: string, hasToken: bool): Workspace {
    if w.record.stage.CleanupPending? || w.record.stage.Retained? || !Active(w.record) then w
    else if !Owned(task, w.record, owner) then w.At(Retained)
    else if !task.state.Terminal() then w
    else if !task.hasRun then w.At(Retained)
    else Settled(task, w, hasToken)
  }

  lemma InactiveIsNotSwept(owner: string, hasToken: bool)
    ensures forall task: Task, w: Workspace | !Active(w.record) :: Swept(task, w, owner, hasToken) == w
  {
  }

  /** One whole reconciliation pass, seen from one workspace. */
  function Reconciled(task: Task, w: Workspace, owner: string, hasToken: bool): Workspace {
    var screened := Screened(task, w, owner);
    Swept(task, Recovered(task, screened, hasToken), owner, hasToken)
  }

  // ----- What a pass achieves -----

  /** The only workspaces that one faultless pass leaves unsettled: a proposal clone
      whose Git metadata is gone, and a delivery clone whose branch cannot be compared
      because no token is configured. */
  predicate Stuck(task: Task, w: Workspace, hasToken: bool) {
    && (w.record.stage.Preparing? || w.record.stage.Ready?)
    && task.hasRun
    && (if w.record.kind == Proposal then w.record.backend == Clone && w.dir.Unregistered?
        else NeedsToken(w) && !hasToken)
  }

  /** From any state at all, one pass settles an owned terminal workspace unless it is
      stuck. */
  lemma PassConverges(task: Task, w: Workspace, owner: string, hasToken: bool)
    requires Owned(task, w.record, owner) && task.state.Terminal()
    ensures var stage := Reconciled(task, w, owner, hasToken).record.stage;
            (stage.Cleaned? || stage.Retained?) <==> !Stuck(task, w, hasToken)
  {
  }

  /** The kind of stuck workspace that the daemon can meet. */
  predicate StuckProposal(task: Task, w: Workspace) {
    && (w.record.stage.Preparing? || w.record.stage.Ready?)
    && task.hasRun && w.record.kind == Proposal && w.record.backend == Clone && w.dir.Unregistered?
  }

  lemma ValidatedIsStuckOnlyAsProposal(task: Task, w: Workspace, hasToken: bool)
    requires w.record.stage.Cleaned? || w.record.backend == BackendOf(hasToken)
    ensures Stuck(task, w, hasToken) <==> StuckProposal(task, w)
  {
  }

  /** A run in which an agent gets a clean checkout of the base, leaves the workspace as
      `dir` and the task comes to its end. */
  lemma ReachPrepared(t: TaskId, task: Task, record: Record, dir: Dir) returns (run: Run)
    requires record.stage.Preparing?
    ensures FromStart(run) && run.states != []
    ensures Last(run) == State(Idle, map[t := task], map[t := Workspace(record.(stage := Ready), dir)], {}, map[])
  {
    hide FromStart;
    var running, base := task.(state := Running), Checkout(Tree(false, record.base, true, None));
    run := ReachRunning(t, running, record, base);
    var worked := Last(run).(spaces := map[t := Workspace(record.(stage := Ready), dir)]);
    run := Reach(run, AgentWorks(t, dir), worked);
    run := Reach(run, TaskMoves(t, task), worked.(tasks := map[t := task]));
  }

  /** A reachable state in which a pass does not settle a workspace: the Git metadata of a
      proposal clone was lost while the daemon was down. */
  lemma ProposalCloneGetsStuck(owner: string, hasToken: bool) returns (run: Run, t: TaskId)
    ensures FromStart(run) && Last(run).phase.Idle? && Known(Last(run), t)
    ensures var task, w := Last(run).tasks[t], Last(run).spaces[t];
            && Owned(task, w.record, owner) && task.state.Terminal() && StuckProposal(task, w)
            && var stage := Reconciled(task, w, owner, hasToken).record.stage;
               !stage.Cleaned? && !stage.Retained?
  {
    hide FromStart;
    t := 1;
    var task := Task(Failed, owner, false, true);
    var record := Record(Proposal, Clone, owner, 0, Preparing);
    run := ReachPrepared(t, task, record, Checkout(Tree(false, 0, false, None)));
    run := Reach(run, Crash, Last(run).(phase := Down));
    var lost := Last(run).(spaces := map[t := Workspace(record.(stage := Ready), Unregistered)]);
    run := Reach(run, EditWhileDown(t, Unregistered), lost);
    run := Reach(run, Restart, lost.(phase := Idle));
    PassConverges(task, lost.spaces[t], owner, hasToken);
  }

  /** The other kind is reachable in the ledger, though not past the backend check: a
      delivery clone with a commit of its own, reconciled without a token. */
  lemma UncomparedDeliveryGetsStuck(owner: string) returns (run: Run, t: TaskId)
    ensures FromStart(run) && Last(run).phase.Idle? && Known(Last(run), t)
    ensures var task, w := Last(run).tasks[t], Last(run).spaces[t];
            && Owned(task, w.record, owner) && task.state.Terminal()
            && w.record.kind == Delivery && w.record.backend != BackendOf(false) && Stuck(task, w, false)
            && var stage := Reconciled(task, w, owner, false).record.stage;
               !stage.Cleaned? && !stage.Retained?
  {
    hide FromStart;
    t := 1;
    var task := Task(Succeeded, owner, false, true);
    var record := Record(Delivery, Clone, owner, 0, Preparing);
    var dir := Checkout(Tree(false, 1, true, None));
    run := ReachPrepared(t, task, record, dir);
    PassConverges(task, Workspace(record.(stage := Ready), dir), owner, false);
  }

  /** A second pass changes nothing, except that it removes the proposal clones that
      the first one could not inspect. */
  lemma SecondPassIsIdle(task: Task, w: Workspace, owner: string, hasToken: bool)
    requires w.record.stage.Cleaned? ==> w.dir.Absent?
    ensures var once := Reconciled(task, w, owner, hasToken);
            var twice := Reconciled(task, once, owner, hasToken);
            && Reconciled(task, twice, owner, hasToken) == twice
            && (twice == once <==>
                  !(&& Owned(task, w.record, owner) && task.state.Terminal()
                    && Stuck(task, w, hasToken) && w.record.kind == Proposal))
  {
  }

  /** Finalization of a delivery that is there. Its directory goes exactly if the task
      succeeded, waits for no continuation, and the tree is clean with HEAD at the base or,
      on a branch, at the commit that the remote has for it; asking the remote about a clone
      takes a token. In all other cases the files stay, and the workspace is retained,
      unless the question could not be asked. */
  lemma FinalizedDelivery(task: Task, w: Workspace, hasToken: bool)
    requires w.record.kind == Delivery && !w.dir.Absent?
    ensures var w', base := Settled(task, w, hasToken), w.record.base;
            && (w'.dir.Absent? || w'.dir == w.dir)
            && (w.record.backend == Worktree ==>
                  (w'.dir.Absent? <==>
                     && task.state == Succeeded && !task.continues && w.dir.Checkout? && !w.dir.tree.dirty
                     && (w.dir.tree.head == base
                         || (w.dir.tree.onBranch && w.dir.tree.remoteTip == Some(w.dir.tree.head)))))
            && (w.record.backend == Clone ==>
                  (w'.dir.Absent? <==>
                     && task.state == Succeeded && !task.continues && w.dir.Checkout? && !w.dir.tree.dirty
                     && (w.dir.tree.head == base
                         || (w.dir.tree.onBranch && hasToken && w.dir.tree.remoteTip == Some(w.dir.tree.head)))))
    ensures var w' := Settled(task, w, hasToken);
            w'.record == w.record.(stage :=
              if w'.dir.Absent? then Cleaned
              else if w.record.backend == Clone && w.dir.Checkout? && w.dir.tree.head != w.record.base
                      && w.dir.tree.onBranch && !hasToken then w.record.stage
              else CleanupProtocol.Stage.Retained)
  {
  }

  /** Finalization of a proposal removes it, unless it is a clone that is no repository. A
      workspace that is gone already is recorded as cleaned. */
  lemma FinalizedOther(task: Task, w: Workspace, hasToken: bool)
    requires w.record.kind == Proposal || w.dir.Absent?
    ensures var w' := Settled(task, w, hasToken);
            if w.record.backend == Clone && w.dir.Unregistered?
            then w' == w.(record := w.record.(stage := CleanupPending(OtherReason)))
            else w' == w.(dir := Absent, record := w.record.(stage := Cleaned))
  {
  }

  /** Exactly which files a faultless pass removes, for every workspace, task and owner. */
  lemma PassRemovesExactlyWhen(task: Task, w: Workspace, owner: string, hasToken: bool)
    ensures var w' := Reconciled(task, w, owner, hasToken);
            var published := && task.state == Succeeded && w.dir.Checkout? && !w.dir.tree.dirty
                             && (|| w.dir.tree.head == w.record.base
                                 || (&& w.dir.tree.onBranch && w.dir.tree.remoteTip == Some(w.dir.tree.head)
                                     && (w.record.backend == Clone ==> hasToken)));
            var goes := && !w.dir.Absent? && task.repository == owner && w.record.repository == owner
                        && match w.record.stage
                           case CleanupPending(reason) =>
                             || w.record.kind == Proposal || reason == OperatorConfirmed
                             || (reason == AutomaticDelivery && published)
                           case Retained => false
                           case Cleaned => false
                           case _ =>
                             && (task.state == Succeeded || task.state == Failed || task.state == Cancelled)
                             && task.hasRun
                             && (if w.record.kind == Proposal then !(w.record.backend == Clone && w.dir.Unregistered?)
                                 else published && !task.continues);
            w'.dir == if goes then Absent else w.dir
  {
  }

  /** The stages in which a faultless pass leaves workspaces. */
  lemma PassStages(task: Task, w: Workspace, owner: string, hasToken: bool)
    ensures var w' := Reconciled(task, w, owner, hasToken);
            var owned := task.repository == owner && w.record.repository == owner;
            var isNew := w.record.stage.Preparing? || w.record.stage.Ready?;
            var ended := (task.state == Succeeded || task.state == Failed || task.state == Cancelled);
            && w'.record == w.record.(stage := w'.record.stage)
            && (w'.record.stage.Cleaned? <==>
                  || w.record.stage.Cleaned? || w'.dir != w.dir
                  || (owned && w.dir.Absent? && (w.record.stage.CleanupPending? || (isNew && ended && task.hasRun))))
            && (w'.record.stage.CleanupPending? <==>
                  && owned && isNew && ended && task.hasRun
                  && w.record.kind == Proposal && w.record.backend == Clone && w.dir.Unregistered?)
            && (w'.record.stage.Preparing? || w'.record.stage.Ready? <==>
                  && owned && isNew && w'.record.stage == w.record.stage
                  && (!ended || (&& task.hasRun && w.record.kind == Delivery && w.record.backend == Clone
                                 && w.dir.Checkout? && w.dir.tree.head != w.record.base && w.dir.tree.onBranch
                                 && !hasToken)))
  {
  }

  /** A pass discards files only of proposals, of confirmed cleanups and of published
      work that waits for no continuation, or whose removal had begun; and it never turns
      a foreign workspace into anything but a retained one. */
  lemma PassKeepsFiles(task: Task, w: Workspace, owner: string, hasToken: bool)
    ensures var w' := Reconciled(task, w, owner, hasToken);
            && (!Owned(task, w.record, owner) ==> w' == w || w' == w.At(Retained))
            && (w'.dir != w.dir ==>
                  || w.record.kind == Proposal
                  || w.record.stage == CleanupPending(OperatorConfirmed)
                  || (SafeToDiscard(task, w)
                      && (task.continues ==> w.record.stage == CleanupPending(AutomaticDelivery))))
  {
  }

  // ----- Recovery of all sandboxes -----

  /** Where recovery may leave the workspace of `t`: another owner's is at most marked as
      retained, and an owned one keeps its record and, unless it is threatened, its files. */
  ghost predicate Recovers(start: State, t: TaskId, after: Workspace, owner: string) {
    && Known(start, t)
    && (if Owned(start.tasks[t], start.spaces[t].record, owner)
        then after == start.spaces[t].(dir := after.dir)
        else after == start.spaces[t] || after == start.spaces[t].At(Retained))
    && (after.dir != start.spaces[t].dir ==> after.dir.Checkout? && exists r :: Threatens(start, r, t))
  }

  ghost predicate RecoveredAll(start: State, after: map<TaskId, Workspace>, owner: string) {
    forall t <- after :: Recovers(start, t, after[t], owner)
  }

  /** The sandboxes outside `done` only aged. */
  ghost predicate AgedBut(before: map<RunId, Sandbox>, after: map<RunId, Sandbox>, done: set<RunId>) {
    && (forall q <- before :: q in after || q in done)
    && (forall q <- after ::
          q in before && Aged(before[q], after[q]) && (q !in done ==> after[q].stage == before[q].stage))
  }

  predicate Left(start: State, r: RunId, t: TaskId) {
    r in start.boxes && start.boxes[r].task == t && start.boxes[r].stage != S.Retained
  }

  /** Sandbox `r` is one that `dir` can have its head from. */
  predicate Source(start: State, r: RunId, t: TaskId, dir: Dir) {
    Left(start, r, t) && dir.Checkout? && (start.boxes[r].active || dir.tree.head == start.boxes[r].head)
  }

  /** Once an unretained sandbox of `t` was handled, its clone has the snapshot of one. */
  ghost predicate Filled(start: State, done: set<RunId>, t: TaskId, dir: Dir, owner: string) {
    Known(start, t) && Owned(start.tasks[t], start.spaces[t].record, owner) && start.spaces[t].dir.Checkout?
    && (exists r <- done :: Left(start, r, t)) ==>
      exists r <- done :: Source(start, r, t, dir)
  }

  /** There is active owned work of the other execution mode. */
  ghost predicate OtherMode(s: State, owner: string, sandboxMode: bool) {
    exists t :: Known(s, t) && Active(s.spaces[t].record) && Owned(s.tasks[t], s.spaces[t].record, owner)
                && s.spaces[t].record.backend != BackendOf(sandboxMode)
  }

  /** The ownership passes recover nothing, but they do no more either. */
  lemma SparedIsRecovered(before: State, after: State, owner: string)
    requires ScreenedSome(before.tasks, before.spaces, after.spaces, owner)
    requires before.spaces.Keys == after.spaces.Keys && before.tasks == after.tasks
    ensures RecoveredAll(before, after.spaces, owner)
    ensures forall t <- before.spaces :: t in after.spaces && after.spaces[t].dir == before.spaces[t].dir
    ensures forall sandboxMode :: OtherMode(before, owner, sandboxMode) <==> OtherMode(after, owner, sandboxMode)
  {
  }

  lemma RecoveredTwice(a: State, b: State, c: map<TaskId, Workspace>, owner: string)
    requires RecoveredAll(a, b.spaces, owner) && RecoveredAll(b, c, owner) && a.spaces.Keys == b.spaces.Keys == c.Keys
    requires a.tasks == b.tasks && a.boxes == b.boxes
    requires forall t <- a.spaces :: t in b.spaces && b.spaces[t].dir == a.spaces[t].dir
    ensures RecoveredAll(a, c, owner)
  {
    forall t <- c
      ensures Recovers(a, t, c[t], owner)
    {
      assert Recovers(a, t, b.spaces[t], owner) && Recovers(b, t, c[t], owner);
      if c[t].dir != a.spaces[t].dir {
        var r :| Threatens(b, r, t);
        assert Threatens(a, r, t);
      }
    }
  }

  lemma RecoveredIsSpared(start: State, after: map<TaskId, Workspace>, owner: string)
    requires RecoveredAll(start, after, owner)
    ensures OutsidersSpared(start.tasks, start.spaces, after, owner)
  {
    forall t | t in after && t in start.spaces && t in start.tasks
      ensures after[t] == start.spaces[t].At(after[t].record.stage).(dir := after[t].dir)
      ensures Owned(start.tasks[t], start.spaces[t].record, owner)
              || after[t] == start.spaces[t] || after[t] == start.spaces[t].At(Retained)
    {
      assert Recovers(start, t, after[t], owner);
    }
  }

  lemma StartConverges(start: State, recovered: map<TaskId, Workspace>, t: TaskId, owner: string, sandboxMode: bool)
    requires RecoveredAll(start, recovered, owner) && t in recovered && t in start.spaces && t in start.tasks
    requires Owned(start.tasks[t], start.spaces[t].record, owner) && !OtherMode(start, owner, sandboxMode)
    ensures (forall q :: !Threatens(start, q, t)) ==> recovered[t] == start.spaces[t]
    ensures start.tasks[t].state.Terminal() ==>
              var stage := Reconciled(start.tasks[t], recovered[t], owner, sandboxMode).record.stage;
              (stage.Cleaned? || stage.Retained? <==> !StuckProposal(start.tasks[t], start.spaces[t]))
  {
    hide Reconciled;
    assert Recovers(start, t, recovered[t], owner);
    assert Known(start, t);
    if start.tasks[t].state.Terminal() {
      PassConverges(start.tasks[t], recovered[t], owner, sandboxMode);
      ValidatedIsStuckOnlyAsProposal(start.tasks[t], recovered[t], sandboxMode);
    }
  }

  const MAX_RECOVERY_ATTEMPTS := 2

  /** A run that the ledger still has as running: whether its daemon is alive, the repository
      it was recorded for, whether its cancellation was asked for, and how many recoveries
      led to it. */
  datatype ActiveRun = ActiveRun(live: bool, repository: string, cancelled: bool, attempt: nat)

  /** What the recovery of interrupted runs makes of a task. */
  function AfterRecovery(task: Task, active: map<TaskId, ActiveRun>, t: TaskId, owner: string): Task {
    if t !in active || active[t].live || active[t].repository != owner || task.repository != owner then task
    else if task.state != Running then task
    else if active[t].cancelled then task.(state := Cancelled)
    else if active[t].attempt < MAX_RECOVERY_ATTEMPTS then task.(state := Queued)
    else task.(state := Failed)
  }

  /** What the recovery of interrupted runs may make of a task. */
  predicate Interrupted(before: Task, after: Task, owner: string) {
    || after == before
    || (&& before.state == Running && before.repository == owner && after == before.(state := after.state)
        && (after.state.Queued? || after.state.Failed? || after.state.Cancelled?))
  }

  ghost predicate AllInterrupted(before: map<TaskId, Task>, after: map<TaskId, Task>, owner: string) {
    after.Keys == before.Keys && forall t <- after :: t in before && Interrupted(before[t], after[t], owner)
  }

  /** Exactly the running tasks of the owner whose run has no live daemon and names the owner
      too are ended: as cancelled if that was asked for, queued again after fewer than two
      recoveries, and as failed after two. */
  ghost predicate RunsRecovered(
    before: map<TaskId, Task>, after: map<TaskId, Task>, active: map<TaskId, ActiveRun>, owner: string) {
    after.Keys == before.Keys && forall t <- after ::
      && t in before
      && after[t] == before[t].(state := after[t].state)
      && var interrupted := && before[t].state == Running && before[t].repository == owner
                            && t in active && !active[t].live && active[t].repository == owner;
         && (!interrupted ==> after[t].state == before[t].state)
         && (interrupted && active[t].cancelled ==> after[t].state == Cancelled)
         && (interrupted && !active[t].cancelled && active[t].attempt < 2 ==> after[t].state == Queued)
         && (interrupted && !active[t].cancelled && active[t].attempt >= 2 ==> after[t].state == Failed)
  }

  lemma RecoveredAreInterrupted(
    before: map<TaskId, Task>, after: map<TaskId, Task>, active: map<TaskId, ActiveRun>, owner: string)
    requires RunsRecovered(before, after, active, owner)
    ensures AllInterrupted(before, after, owner)
  {
  }

  lemma NothingInterrupted(tasks: map<TaskId, Task>, owner: string)
    ensures AllInterrupted(tasks, tasks, owner)
  {
  }

  /** Tasks that keep their repositories keep their workspaces' owners and threats. */
  lemma SameOwners(before: State, after: State, recovered: map<TaskId, Workspace>, owner: string)
    requires AllInterrupted(before.tasks, after.tasks, owner) && after == before.(tasks := after.tasks)
    requires RecoveredAll(before, recovered, owner)
    ensures RecoveredAll(after, recovered, owner)
    ensures forall r, t :: Threatens(before, r, t) <==> Threatens(after, r, t)
    ensures forall sandboxMode :: OtherMode(before, owner, sandboxMode) <==> OtherMode(after, owner, sandboxMode)
  {
    assert forall t | t in before.tasks :: t in after.tasks && after.tasks[t].repository == before.tasks[t].repository;
    forall r, t
      ensures Threatens(before, r, t) <==> Threatens(after, r, t)
    {
    }
    forall t <- recovered
      ensures Recovers(after, t, recovered[t], owner)
    {
      assert Recovers(before, t, recovered[t], owner);
    }
  }

  /** A pass keeps an edited clone of a published delivery, but removes it once a leftover
      sandbox with the published commit has reset it. */
  lemma ResetDecides(task: Task, w: Workspace, owner: string)
    requires Owned(task, w.record, owner) && task.state == Succeeded && task.hasRun && !task.continues
    requires w.record.kind == Delivery && w.record.backend == Clone && w.record.stage == Ready
    requires w.dir.Checkout? && w.dir.tree.dirty && Published(w.dir.tree, w.record.base)
    ensures Reconciled(task, w, owner, true) == w.At(Retained)
    ensures Reconciled(task, w.(dir := Checkout(w.dir.tree.(dirty := false))), owner, true) == Gone(w)
  {
  }

  /** A run from the start in which that happens: the task succeeds without a change of its
      own, the daemon dies before it removed the sandbox, somebody edits the clone while it
      is down, and the next start resets the clone. */
  lemma EditOfPublishedCloneGoes(owner: string) returns (run: Run, i: nat)
    ensures FromStart(run) && i + 3 == |run.events|
    ensures run.events[i] == EditWhileDown(TASK, Checked(0, true)) && run.events[i + 2].Restore?
    ensures Known(run.states[i + 2], TASK) && Known(Last(run), TASK)
    ensures var task, before, after := Last(run).tasks[TASK], run.states[i + 2].spaces[TASK], Last(run).spaces[TASK];
            && run.states[i + 2].tasks[TASK] == task
            && before.dir == Checked(0, true) && Threatens(run.states[i + 2], run.events[i + 2].r, TASK)
            && Reconciled(task, before, owner, true) == before.At(Retained)
            && Reconciled(task, after, owner, true) == Gone(before)
  {
    var boxes := map[1 := Sandbox(TASK, S.Removing, false, 0)];
    var left := ReachUnchanged(owner);
    var task := Task(Succeeded, owner, false, true);
    var done := Clones(Idle, owner, Succeeded, Checked(0, false), boxes);
    var a := Reach(left, TaskMoves(TASK, task), done);
    var b := Reach(a, Crash, done.(phase := Down));
    i := |b.events|;
    var edited := Clones(Idle, owner, Succeeded, Checked(0, true), boxes);
    var c := Reach(b, EditWhileDown(TASK, Checked(0, true)), edited.(phase := Down));
    var d := Reach(c, Restart, edited);
    run := Reach(d, Restore(1, Tree(false, 0, false, None)), done);
    ResetDecides(task, edited.spaces[TASK], owner);
  }

  lemma ReachUnchanged(owner: string) returns (run: Run)
    ensures FromStart(run) && run.states != []
    ensures Last(run)
            == Clones(Idle, owner, Running, Checked(0, false), map[1 := Sandbox(TASK, S.Removing, false, 0)])
  {
    hide FromStart;
    var record := Record(Delivery, Clone, owner, 0, Preparing);
    run := ReachRunning(TASK, Task(Running, owner, false, true), record, Checked(0, false));
    run := RunInSandbox(run, owner, 0, map[], 1, 0);
    NotEmpty(run);
    assert map[][1 := Sandbox(TASK, S.Removing, false, 0)] == map[1 := Sandbox(TASK, S.Removing, false, 0)];
  }

  lemma NothingRecovered(s: State, owner: string)
    requires s.spaces.Keys <= s.tasks.Keys
    ensures RecoveredAll(s, s.spaces, owner) && AgedBut(s.boxes, s.boxes, {})
    ensures forall t <- s.spaces :: Filled(s, {}, t, s.spaces[t].dir, owner)
  {
  }

  lemma AgedButAt(before: map<RunId, Sandbox>, after: map<RunId, Sandbox>, done: set<RunId>, r: RunId)
    requires AgedBut(before, after, done) && r in before && r !in done
    ensures r in after && Aged(before[r], after[r]) && after[r].stage == before[r].stage
  {
  }

  lemma AgedButKeys(before: map<RunId, Sandbox>, after: map<RunId, Sandbox>, done: set<RunId>)
    requires AgedBut(before, after, done)
    ensures after.Keys <= before.Keys
  {
  }

  lemma AllAgedStages(before: map<RunId, Sandbox>, after: map<RunId, Sandbox>, r: RunId)
    requires AllAged(before, after, r)
    ensures forall q <- after | q != r :: q in before && after[q].stage == before[q].stage
  {
  }

  lemma RecoveredAllAt(start: State, spaces: map<TaskId, Workspace>, t: TaskId, owner: string)
    requires RecoveredAll(start, spaces, owner) && t in spaces
    ensures Known(start, t) && start.spaces[t].record.repository == spaces[t].record.repository
  {
    assert Recovers(start, t, spaces[t], owner);
  }

  lemma OneMoreAged(a: map<RunId, Sandbox>, b: map<RunId, Sandbox>, c: map<RunId, Sandbox>, done: set<RunId>, r: RunId)
    requires AgedBut(a, b, done) && AllAged(b, c, r)
    ensures AgedBut(a, c, done + {r})
  {
  }

  lemma ThreatSinceStart(start: State, now: State, r: RunId, t: TaskId)
    requires Threatens(now, r, t) && start.tasks == now.tasks && Known(start, t)
    requires r in start.boxes && Aged(start.boxes[r], now.boxes[r]) && now.boxes[r].stage == start.boxes[r].stage
    requires start.spaces[t].dir == now.spaces[t].dir
    requires start.spaces[t].record.repository == now.spaces[t].record.repository
    ensures Threatens(start, r, t)
  {
  }

  lemma OneMoreRecovered(
    start: State, before: State, after: State, done: set<RunId>, r: RunId, t: TaskId, owner: string)
    requires RecoveredAll(start, before.spaces, owner) && AgedBut(start.boxes, before.boxes, done)
    requires start.tasks == before.tasks && RecoversOne(before, after, r, t)
    requires r in start.boxes && r !in done && r in before.boxes
    requires if Known(start, t) && Owned(start.tasks[t], before.spaces[t].record, owner)
             then after.spaces[t].record == before.spaces[t].record
             else after.spaces[t] == before.spaces[t] || after.spaces[t] == before.spaces[t].At(Retained)
    ensures RecoveredAll(start, after.spaces, owner) && AgedBut(start.boxes, after.boxes, done + {r})
  {
    hide AgedBut, AllAged, Threatens, Aged;
    OneMoreAged(start.boxes, before.boxes, after.boxes, done, r);
    AgedButAt(start.boxes, before.boxes, done, r);
    assert Recovers(start, t, before.spaces[t], owner);
    if before.spaces[t].dir == start.spaces[t].dir && after.spaces[t].dir != before.spaces[t].dir {
      ThreatSinceStart(start, before, r, t);
    }
    forall u <- after.spaces
      ensures Recovers(start, u, after.spaces[u], owner)
    {
      assert Recovers(start, u, before.spaces[u], owner);
    }
  }

  lemma OneMoreFilled(
    start: State, before: State, after: State, done: set<RunId>, r: RunId, t: TaskId, owner: string)
    requires RecoveredAll(start, before.spaces, owner) && AgedBut(start.boxes, before.boxes, done)
    requires start.tasks == before.tasks && RecoversOne(before, after, r, t)
    requires r in start.boxes && r !in done && r in before.boxes && before.boxes[r].task == t
    requires forall u <- before.spaces :: Filled(start, done, u, before.spaces[u].dir, owner)
    requires t in before.tasks && Owned(before.tasks[t], before.spaces[t].record, owner) ==>
               Preserved(before.boxes[r], before.spaces[t].dir, after.spaces[t].dir)
    ensures forall u <- after.spaces :: Filled(start, done + {r}, u, after.spaces[u].dir, owner)
  {
    hide AgedBut, AllAged, Threatens;
    AgedButAt(start.boxes, before.boxes, done, r);
    assert Recovers(start, t, before.spaces[t], owner);
    forall u <- after.spaces
      ensures Filled(start, done + {r}, u, after.spaces[u].dir, owner)
    {
      assert Filled(start, done, u, before.spaces[u].dir, owner);
      assert forall q | Source(start, q, u, before.spaces[u].dir) && q in done :: q in done + {r};
      if u == t && Left(start, r, t) && Owned(before.tasks[t], before.spaces[t].record, owner)
         && start.spaces[t].dir.Checkout? {
        assert Source(start, r, t, after.spaces[t].dir);
      }
    }
  }

  // ----- Whole ledgers -----

  /** A delivery whose removal has not begun, and that the check does not release: its task
      waits for a continuation or did not succeed, its tree is dirty or no checkout, or its
      commit is neither the base nor pushed. */
  predicate Withheld(task: Task, w: Workspace) {
    && w.record.kind == Delivery && !w.record.stage.CleanupPending?
    && (|| task.continues || task.state != Succeeded || !w.dir.Checkout? || w.dir.tree.dirty
        || (&& w.dir.tree.head != w.record.base
            && !(w.dir.tree.onBranch && w.dir.tree.remoteTip == Some(w.dir.tree.head))))
  }

  /** Such a delivery keeps its files, and no removal of it begins. */
  predicate StaysWithheld(task: Task, before: Workspace, after: Workspace) {
    Withheld(task, before) ==> after.dir == before.dir && !after.record.stage.CleanupPending?
  }

  /** Workspaces that name another repository keep their files and are at most marked as
      retained; recorded facts other than the stage never change. */
  ghost predicate OutsidersSpared(
    tasks: map<TaskId, Task>, before: map<TaskId, Workspace>, after: map<TaskId, Workspace>, owner: string) {
    forall t | t in after && t in before && t in tasks ::
      && after[t] == before[t].At(after[t].record.stage).(dir := after[t].dir)
      && (|| Owned(tasks[t], before[t].record, owner)
          || after[t] == before[t] || after[t] == before[t].At(Retained))
  }

  /** Outsiders are spared and withheld deliveries stay, whatever fails. */
  ghost predicate Spared(
    tasks: map<TaskId, Task>, before: map<TaskId, Workspace>, after: map<TaskId, Workspace>, owner: string) {
    && OutsidersSpared(tasks, before, after, owner)
    && forall t | t in after && t in before && t in tasks :: StaysWithheld(tasks[t], before[t], after[t])
  }

  lemma OutsidersSparedByAll(
    tasks: map<TaskId, Task>, a: map<TaskId, Workspace>, b: map<TaskId, Workspace>, c: map<TaskId, Workspace>,
    owner: string)
    requires a.Keys == b.Keys == c.Keys
    requires OutsidersSpared(tasks, a, b, owner) && OutsidersSpared(tasks, b, c, owner)
    ensures OutsidersSpared(tasks, a, c, owner)
  {
    forall t | t in c && t in a && t in tasks
      ensures c[t] == a[t].At(c[t].record.stage).(dir := c[t].dir)
      ensures Owned(tasks[t], a[t].record, owner) || c[t] == a[t] || c[t] == a[t].At(Retained)
    {
      assert b[t] == a[t].At(b[t].record.stage).(dir := b[t].dir);
    }
  }

  lemma SparedByAll(
    tasks: map<TaskId, Task>, a: map<TaskId, Workspace>, b: map<TaskId, Workspace>, c: map<TaskId, Workspace>,
    owner: string)
    requires a.Keys == b.Keys == c.Keys
    requires Spared(tasks, a, b, owner) && Spared(tasks, b, c, owner)
    ensures Spared(tasks, a, c, owner)
  {
    OutsidersSparedByAll(tasks, a, b, c, owner);
    forall t | t in c && t in a && t in tasks
      ensures StaysWithheld(tasks[t], a[t], c[t])
    {
      assert b[t] == a[t].At(b[t].record.stage).(dir := b[t].dir);
    }
  }

  lemma SparedIsForOutsiders(
    tasks: map<TaskId, Task>, before: map<TaskId, Workspace>, after: map<TaskId, Workspace>, owner: string)
    requires Spared(tasks, before, after, owner)
    ensures OutsidersSpared(tasks, before, after, owner)
  {
  }

  lemma SparedByOne(
    tasks: map<TaskId, Task>, before: map<TaskId, Workspace>, after: map<TaskId, Workspace>, t: TaskId,
    owner: string)
    requires t in before && t in after && t in tasks
    requires after == before[t := before[t].At(after[t].record.stage).(dir := after[t].dir)]
    requires Owned(tasks[t], before[t].record, owner) || after[t] == before[t] || after[t] == before[t].At(Retained)
    requires StaysWithheld(tasks[t], before[t], after[t])
    ensures Spared(tasks, before, after, owner)
  {
  }

  /** The ledger after the ownership check over `ids`. */
  function ScreenedAll(tasks: map<TaskId, Task>, spaces: map<TaskId, Workspace>, ids: seq<TaskId>, owner: string)
    : map<TaskId, Workspace>
    requires spaces.Keys <= tasks.Keys
  {
    map t <- spaces :: if t in ids then Screened(tasks[t], spaces[t], owner) else spaces[t]
  }

  /** Some of the workspaces went through the ownership check. */
  ghost predicate ScreenedSome(
    tasks: map<TaskId, Task>, before: map<TaskId, Workspace>, after: map<TaskId, Workspace>, owner: string) {
    forall t <- after :: t in before && t in tasks &&
      (after[t] == before[t] || after[t] == Screened(tasks[t], before[t], owner))
  }

  lemma NothingScreened(tasks: map<TaskId, Task>, spaces: map<TaskId, Workspace>, owner: string)
    requires spaces.Keys <= tasks.Keys
    ensures ScreenedAll(tasks, spaces, [], owner) == spaces
    ensures Spared(tasks, spaces, spaces, owner) && ScreenedSome(tasks, spaces, spaces, owner)
  {
  }

  lemma OneMoreScreened(
    tasks: map<TaskId, Task>, spaces: map<TaskId, Workspace>, ids: seq<TaskId>, t: TaskId, owner: string)
    requires spaces.Keys <= tasks.Keys && t in spaces && t !in ids && Active(spaces[t].record)
    ensures var before, after := ScreenedAll(tasks, spaces, ids, owner), ScreenedAll(tasks, spaces, ids + [t], owner);
            && t in before && before[t] == spaces[t] && before.Keys == spaces.Keys
            && after == (if Owned(tasks[t], spaces[t].record, owner) then before
                         else before[t := before[t].At(Retained)])
            && Spared(tasks, spaces, before, owner) && Spared(tasks, spaces, after, owner)
            && ScreenedSome(tasks, spaces, after, owner)
  {
  }

  class Supervisor {
    var tasks: map<TaskId, Task>
    var spaces: map<TaskId, Workspace>
    var boxes: map<RunId, Sandbox>
    const hasToken: bool

    ghost var phase: Phase
    ghost var confirmed: set<TaskId>
    ghost var run: Run

    ghost function Now(): State
      reads this
    {
      State(phase, tasks, spaces, confirmed, boxes)
    }

    ghost predicate Valid()
      reads this
    {
      && FromStart(run) && Last(run) == Now() && Inv(Now())
      && spaces.Keys <= tasks.Keys
    }

    /** What every action keeps, whatever its outcome; only the recovery of sandboxes
        changes sandboxes. */
    twostate predicate Kept(crashed: bool)
      reads this
    {
      KeptTasks(crashed) && boxes == old(boxes)
    }

    twostate predicate KeptTasks(crashed: bool)
      reads this
    {
      && Valid() && Continues(old(run), run)
      && tasks == old(tasks) && spaces.Keys == old(spaces).Keys
      && (crashed <==> phase.Down?)
    }

    /** Only the stage and the directory of `t` may have changed. */
    twostate predicate OnlyTouches(t: TaskId)
      reads this
    {
      t in spaces && t in old(spaces) &&
      spaces == old(spaces)[t := old(spaces)[t].At(spaces[t].record.stage).(dir := spaces[t].dir)]
    }

    constructor (hasToken: bool)
      ensures Valid() && spaces == map[] && phase.Down? && this.hasToken == hasToken
    {
      this.hasToken := hasToken;
      tasks, spaces, boxes := map[], map[], map[];
      phase, confirmed := Down, {};
      run := Run([State(Down, map[], map[], {}, map[])], []);
    }

    ghost method Advance(before: State, e: Event)
      requires FromStart(run) && Last(run) == before && Inv(before) && Next(before, e, Now())
      modifies `run
      ensures Valid() && run == Extend(old(run), e, Now())
    {
      StepKeepsInv(before, e, Now());
      run := Extend(run, e, Now());
    }

    ghost method Die()
      requires Valid() && !phase.Down?
      modifies `phase, `run
      ensures Valid() && phase.Down? && Continues(old(run), run)
    {
      var before := Now();
      phase := Down;
      Advance(before, Crash);
    }

    ghost method GiveUp()
      requires Valid() && !phase.Down?
      modifies `phase, `run
      ensures Valid() && phase.Idle? && Continues(old(run), run)
    {
      var before := Now();
      phase := Idle;
      Advance(before, Abandon);
    }

    /** A step of somebody else: an edit while the process is down, a restart, the task
        queue, a reservation, a preparation, an agent or the execution of a sandbox. */
    method Outside(e: Event, s: State)
      requires Valid() && Next(Now(), e, s)
      requires || e.Restart? || e.EditWhileDown? || e.TaskMoves? || e.Reserve? || e.Prepare? || e.AgentWorks?
               || OfSandbox(e)
      modifies this
      ensures Valid() && Now() == s && run == Extend(old(run), e, s)
    {
      ghost var before := Now();
      tasks, spaces := s.tasks, s.spaces;
      phase, confirmed, boxes := s.phase, s.confirmed, s.boxes;
      Advance(before, e);
    }

    // ----- Single actions -----

    /** One durable write of a workspace state. */
    method UpdateState(t: TaskId, stage: Stage, faults: bool, ghost e: Event, ghost after: State)
      returns (r: Outcome<()>)
      requires Valid() && !phase.Down? && t in spaces
      requires after.tasks == tasks && after.spaces == spaces[t := spaces[t].At(stage)] && after.boxes == boxes
      requires !after.phase.Down? && Next(Now(), e, after)
      modifies this
      ensures Kept(r.Crashed?)
      ensures r.Done? ==> Now() == after
      ensures !r.Done? ==> faults && spaces == old(spaces)
      ensures r.Error? ==> phase.Idle?
    {
      hide FromStart;
      var crash: bool, fail: bool := *, *;
      if faults && crash {
        Die();
        return Crashed;
      }
      if faults && fail {
        GiveUp();
        return Error;
      }
      ghost var before := Now();
      spaces := spaces[t := spaces[t].At(stage)];
      phase, confirmed := after.phase, after.confirmed;
      Advance(before, e);
      return Done(());
    }

    /** A command that changes nothing here but may fail: opening the managers, pruning,
        resolving HEAD, asking the remote. */
    method Probe(faults: bool) returns (r: Outcome<()>)
      requires Valid() && !phase.Down?
      modifies this
      ensures Kept(r.Crashed?) && spaces == old(spaces)
      ensures r.Done? ==> phase == old(phase)
      ensures !r.Done? ==> faults
      ensures r.Error? ==> phase.Idle?
    {
      hide FromStart;
      var crash: bool, fail: bool := *, *;
      if faults && crash {
        Die();
        return Crashed;
      }
      if faults && fail {
        GiveUp();
        return Error;
      }
      return Done(());
    }

    /** `preview_cleanup`: the tree of a directory that Git recognises. */
    method Preview(t: TaskId, faults: bool) returns (r: Outcome<Tree>)
      requires Valid() && !phase.Down? && t in spaces
      modifies this
      ensures Kept(r.Crashed?) && spaces == old(spaces)
      ensures r.Done? ==> phase == old(phase) && spaces[t].dir == Checkout(r.value)
      ensures !r.Done? ==> faults || !spaces[t].dir.Checkout?
      ensures r.Crashed? ==> faults
      ensures r.Error? ==> phase.Idle?
    {
      hide FromStart;
      var probe := Probe(faults);
      if !probe.Done? {
        return probe.PropagateFailure();
      }
      if !spaces[t].dir.Checkout? {
        GiveUp();
        return Error;
      }
      return Done(spaces[t].dir.tree);
    }

    /** A removal that was interrupted leaves something behind. */
    method LeaveDebris(t: TaskId)
      requires Valid() && phase.Removing? && phase.task == t && t in spaces && !spaces[t].dir.Absent?
      modifies this
      ensures Kept(false) && phase.Idle?
      ensures spaces == old(spaces)[t := old(spaces)[t].(dir := spaces[t].dir)]
    {
      hide FromStart;
      var known: bool := *;
      ghost var before := Now();
      var dir := spaces[t].dir;
      dir := if known && dir.Checkout? then Checkout(dir.tree.(dirty := true)) else Unregistered;
      spaces := spaces[t := spaces[t].(dir := dir)];
      phase := Idle;
      Advance(before, Remove(t, dir));
    }

    /** Removal of a workspace directory. It may stop half-way and leave files that Git
        no longer knows or a checkout with files missing; with `refuseDirty` it refuses a
        checkout with local changes. */
    method RemoveDirectory(t: TaskId, refuseDirty: bool, faults: bool) returns (r: Outcome<()>)
      requires Valid() && phase.Removing? && phase.task == t && t in spaces
      modifies this
      ensures Kept(r.Crashed?)
      ensures spaces == old(spaces)[t := old(spaces)[t].(dir := spaces[t].dir)]
      ensures r.Done? ==> phase == Marking(t) && spaces[t].dir == Absent
      ensures !r.Done? ==> faults || (refuseDirty && old(spaces)[t].dir.Checkout? && old(spaces)[t].dir.tree.dirty)
      ensures r.Crashed? ==> faults
      ensures r.Error? ==> phase.Idle?
    {
      hide FromStart;
      var crash: bool, fail: bool, partial: bool := *, *, *;
      ghost var before := Now();
      if refuseDirty && spaces[t].dir.Checkout? && spaces[t].dir.tree.dirty {
        GiveUp();
        return Error;
      }
      if faults && (crash || fail) {
        if partial && !spaces[t].dir.Absent? {
          LeaveDebris(t);
        }
        if crash {
          Die();
          return Crashed;
        }
        GiveUp();
        return Error;
      }
      spaces := spaces[t := spaces[t].(dir := Absent)];
      phase := Marking(t);
      Advance(before, Remove(t, Absent));
      return Done(());
    }

    method Retain(t: TaskId, faults: bool) returns (r: Outcome<()>)
      requires Valid() && phase.Idle? && t in spaces
      modifies this
      ensures Kept(r.Crashed?)
      ensures !r.Crashed? ==> phase.Idle?
      ensures r.Done? ==> spaces == old(spaces)[t := old(spaces)[t].At(Retained)]
      ensures !r.Done? ==> faults && spaces == old(spaces)
    {
      r := UpdateState(t, Retained, faults, CleanupProtocol.Retain(t), Staged(Now(), t, Retained));
    }

    method FoundAbsent(t: TaskId, faults: bool) returns (r: Outcome<()>)
      requires Valid() && phase.Idle? && t in spaces && spaces[t].dir.Absent?
      modifies this
      ensures Kept(r.Crashed?)
      ensures !r.Crashed? ==> phase.Idle?
      ensures r.Done? ==> spaces == old(spaces)[t := old(spaces)[t].At(Cleaned)]
      ensures !r.Done? ==> faults && spaces == old(spaces)
    {
      r := UpdateState(t, Cleaned, faults, FindAbsent(t), Staged(Now(), t, Cleaned));
    }

    method FinishRemoval(t: TaskId, faults: bool) returns (r: Outcome<()>)
      requires Valid() && phase == Marking(t) && t in spaces
      modifies this
      ensures Kept(r.Crashed?)
      ensures !r.Crashed? ==> phase.Idle?
      ensures r.Done? ==> spaces == old(spaces)[t := old(spaces)[t].At(Cleaned)]
      ensures !r.Done? ==> faults && spaces == old(spaces)
    {
      r := UpdateState(t, Cleaned, faults, MarkCleaned(t), Staged(Now(), t, Cleaned).(phase := Idle));
    }

    method BeginRemoval(t: TaskId, authority: Authority, faults: bool) returns (r: Outcome<()>)
      requires Valid() && phase.Idle? && t in spaces && Entitled(Now(), t, authority)
      modifies this
      ensures Kept(r.Crashed?)
      ensures r.Done? ==>
                && phase == Removing(t, authority)
                && spaces == old(spaces)[t := old(spaces)[t].At(CleanupPending(ReasonFor(authority)))]
      ensures !r.Done? ==> faults && spaces == old(spaces)
      ensures r.Error? ==> phase.Idle?
    {
      ghost var after := Staged(Now(), t, CleanupPending(ReasonFor(authority))).(
        phase := Removing(t, authority),
        confirmed := if authority.ByOperator? then confirmed + {t} else confirmed);
      r := UpdateState(t, CleanupPending(ReasonFor(authority)), faults, Intend(t, authority), after);
    }

    ghost method TakeOver(t: TaskId, authority: Authority)
      requires Valid() && phase.Idle? && t in spaces && Entitled(Now(), t, authority)
      requires spaces[t].record.stage.CleanupPending?
      requires authority.ByProposal? || spaces[t].record.stage.reason == ReasonFor(authority)
      modifies `phase, `run
      ensures Valid() && phase == Removing(t, authority) && Continues(old(run), run)
    {
      var before := Now();
      phase := Removing(t, authority);
      Advance(before, Resume(t, authority));
    }

    /** Remove the directory of a pending workspace, then write the result. */
    method CompleteRemoval(t: TaskId, refuseDirty: bool, faults: bool) returns (r: Outcome<()>)
      requires Valid() && phase.Removing? && phase.task == t && t in spaces
      requires refuseDirty && spaces[t].dir.Checkout? ==> !spaces[t].dir.tree.dirty
      modifies this
      ensures Kept(r.Crashed?) && OnlyTouches(t)
      ensures !r.Crashed? ==> phase.Idle?
      ensures r.Done? ==> spaces[t] == Gone(old(spaces)[t])
      ensures !r.Done? ==> faults
    {
      hide FromStart, Inv;
      var _ :- RemoveDirectory(t, refuseDirty, faults);
      r := FinishRemoval(t, faults);
    }

    /** The directory of a pending workspace turned out to be gone already. */
    method FinishAbsent(t: TaskId, faults: bool) returns (r: Outcome<()>)
      requires Valid() && phase.Removing? && phase.task == t && t in spaces && spaces[t].dir.Absent?
      modifies this
      ensures Kept(r.Crashed?) && OnlyTouches(t)
      ensures !r.Crashed? ==> phase.Idle?
      ensures r.Done? ==> spaces[t] == Gone(old(spaces)[t])
      ensures !r.Done? ==> faults
    {
      hide FromStart;
      ghost var before := Now();
      phase := Marking(t);
      assert spaces == spaces[t := spaces[t].(dir := Absent)];
      Advance(before, Remove(t, Absent));
      r := FinishRemoval(t, faults);
    }

    /** The whole protocol: write the intent, remove, write the result. */
    method RemoveWorkspace(t: TaskId, authority: Authority, refuseDirty: bool, faults: bool)
      returns (r: Outcome<()>)
      requires Valid() && phase.Idle? && t in spaces && Entitled(Now(), t, authority)
      requires refuseDirty && spaces[t].dir.Checkout? ==> !spaces[t].dir.tree.dirty
      modifies this
      ensures Kept(r.Crashed?) && OnlyTouches(t)
      ensures !r.Crashed? ==> phase.Idle?
      ensures r.Done? ==> spaces[t] == Gone(old(spaces)[t])
      ensures !r.Done? ==> faults
    {
      hide FromStart, Inv;
      var _ :- BeginRemoval(t, authority, faults);
      r := CompleteRemoval(t, refuseDirty, faults);
    }

    // ----- Finalization -----

    /** Marks a foreign workspace as retained and reports whether it was ours. */
    method WorkspaceOwnerIsResolved(t: TaskId, owner: string, faults: bool) returns (r: Outcome<bool>)
      requires Valid() && phase.Idle? && t in spaces
      modifies this
      ensures Kept(r.Crashed?)
      ensures !r.Crashed? ==> phase.Idle?
      ensures r.Done? ==> r.value == Owned(tasks[t], old(spaces)[t].record, owner)
      ensures r.Done? ==>
                spaces == if r.value then old(spaces) else old(spaces)[t := old(spaces)[t].At(Retained)]
      ensures !r.Done? ==> faults && spaces == old(spaces)
    {
      if Owned(tasks[t], spaces[t].record, owner) {
        return Done(true);
      }
      var _ :- Retain(t, faults);
      return Done(false);
    }

    /** When finalization reports an error though nothing fails: an unknown or foreign
        workspace, one that is there but no repository, and a clone that cannot be compared. */
    twostate predicate Unfinalized(t: TaskId, owner: string)
      reads this
    {
      t !in tasks || t !in old(spaces) ||
      var w := old(spaces)[t];
      && (tasks[t].state == Succeeded || tasks[t].state == Failed || tasks[t].state == Cancelled)
      && (|| tasks[t].repository != owner || w.record.repository != owner
          || (w.dir.Unregistered? && (w.record.kind == Delivery || w.record.backend == Clone))
          || (&& w.record.kind == Delivery && w.record.backend == Clone && w.dir.Checkout?
              && w.dir.tree.head != w.record.base && w.dir.tree.onBranch && !hasToken))
    }

    /** Finalization of one task, with every branch of the daemon's. An outsider's
        workspace is at most retained; an owned terminal one ends as `Settled` says. */
    method FinalizeTaskWorkspace(t: TaskId, owner: string, faults: bool) returns (r: Outcome<()>)
      requires Valid() && phase.Idle?
      modifies this
      ensures Kept(r.Crashed?) && (if t in spaces then OnlyTouches(t) else spaces == old(spaces))
      ensures !r.Crashed? ==> phase.Idle?
      ensures r.Crashed? ==> faults
      ensures t in spaces && !tasks[t].state.Terminal() ==> spaces == old(spaces)
      ensures t in spaces && !Owned(tasks[t], old(spaces)[t].record, owner) ==>
                spaces == old(spaces) || spaces[t] == old(spaces)[t].At(Retained)
      ensures t in spaces ==> StaysWithheld(tasks[t], old(spaces)[t], spaces[t])
      ensures (r.Done? || !faults) && t in spaces && tasks[t].state.Terminal()
              && Owned(tasks[t], old(spaces)[t].record, owner) ==>
                spaces[t] == Settled(tasks[t], old(spaces)[t], hasToken)
      ensures !faults ==> (r.Error? <==> Unfinalized(t, owner))
      ensures !faults && t in spaces && tasks[t].state.Terminal()
              && !Owned(tasks[t], old(spaces)[t].record, owner) ==>
                spaces[t] == old(spaces)[t].At(Retained)
    {
      hide FromStart, Inv;
      if t !in tasks || t !in spaces {
        return Error;
      }
      if !tasks[t].state.Terminal() {
        return Done(());
      }
      var resolved :- WorkspaceOwnerIsResolved(t, owner, faults);
      if !resolved {
        return Error;
      }
      var _ :- Probe(faults);
      if spaces[t].record.kind == Proposal {
        r := FinalizeProposal(t, faults);
      } else {
        r := FinalizeDelivery(t, faults);
      }
    }

    method FinalizeProposal(t: TaskId, faults: bool) returns (r: Outcome<()>)
      requires Valid() && phase.Idle? && t in spaces && spaces[t].record.kind == Proposal
      modifies this
      ensures Kept(r.Crashed?) && OnlyTouches(t)
      ensures !r.Crashed? ==> phase.Idle?
      ensures r.Crashed? ==> faults
      ensures r.Done? || !faults ==> spaces[t] == Settled(tasks[t], old(spaces)[t], hasToken)
      ensures !faults ==> (r.Error? <==> old(spaces)[t].record.backend == Clone && old(spaces)[t].dir.Unregistered?)
    {
      hide FromStart, Inv;
      var _ :- BeginRemoval(t, ByProposal, faults);
      if spaces[t].dir.Absent? {
        r := FinishAbsent(t, faults);
        return;
      }
      if spaces[t].record.backend == Clone {
        var _ :- Preview(t, faults);
      }
      r := CompleteRemoval(t, false, faults);
    }

    method FinalizeDelivery(t: TaskId, faults: bool) returns (r: Outcome<()>)
      requires Valid() && phase.Idle? && t in spaces && spaces[t].record.kind == Delivery
      modifies this
      ensures Kept(r.Crashed?) && OnlyTouches(t)
      ensures StaysWithheld(tasks[t], old(spaces)[t], spaces[t])
      ensures !r.Crashed? ==> phase.Idle?
      ensures r.Crashed? ==> faults
      ensures r.Done? || !faults ==> spaces[t] == Settled(tasks[t], old(spaces)[t], hasToken)
      ensures !faults ==>
                (r.Error? <==> old(spaces)[t].dir.Unregistered? || (NeedsToken(old(spaces)[t]) && !hasToken))
    {
      hide FromStart, Inv;
      var task, workspace := tasks[t], spaces[t];
      if workspace.dir.Absent? {
        r := FoundAbsent(t, faults);
        return;
      }
      var inspected := Preview(t, faults);
      if inspected.Error? {
        var _ :- Retain(t, faults);
        return Error;
      }
      var preview :- inspected;
      var published :- DeliveryIsPublished(t, preview, faults);
      if task.state == Succeeded && !preview.dirty && published && !task.continues {
        r := RemoveWorkspace(t, ByCheck, workspace.record.backend == Worktree, faults);
      } else {
        r := Retain(t, faults);
      }
    }

    /** Whether the inspected tree is at its base or at the pushed tip of its branch. */
    method DeliveryIsPublished(t: TaskId, preview: Tree, faults: bool) returns (r: Outcome<bool>)
      requires Valid() && phase.Idle? && t in spaces && spaces[t].dir == Checkout(preview)
      modifies this
      ensures Kept(r.Crashed?)
      ensures spaces == old(spaces) || spaces == old(spaces)[t := old(spaces)[t].At(Retained)]
      ensures !r.Crashed? ==> phase.Idle?
      ensures r.Crashed? ==> faults
      ensures r.Done? ==> spaces == old(spaces) && r.value == Published(preview, spaces[t].record.base)
      ensures !faults ==> spaces == old(spaces) && (r.Done? || (NeedsToken(spaces[t]) && !hasToken))
      ensures NeedsToken(old(spaces)[t]) && !hasToken ==> !r.Done?
    {
      hide FromStart, Inv;
      var record := spaces[t].record;
      var _ :- Probe(faults);
      if preview.head == record.base {
        return Done(true);
      }
      if !preview.onBranch {
        return Done(false);
      }
      if record.backend == Clone && !hasToken {
        return Error;
      }
      var asked := Probe(faults);
      if asked.Error? {
        var _ :- Retain(t, faults);
        return Error;
      }
      var _ :- asked;
      return Done(preview.remoteTip == Some(preview.head));
    }

    // ----- Recovery of interrupted cleanups -----

    method AutomaticCleanupIsStillSafe(t: TaskId, faults: bool) returns (r: Outcome<bool>)
      requires Valid() && phase.Idle? && t in spaces
      modifies this
      ensures Kept(r.Crashed?) && spaces == old(spaces)
      ensures !r.Crashed? ==> phase.Idle?
      ensures r.Crashed? ==> faults
      ensures r.Done? && r.value ==> SafeToDiscard(tasks[t], spaces[t]) && (NeedsToken(spaces[t]) ==> hasToken)
      ensures !faults && SafeToDiscard(tasks[t], spaces[t]) && (NeedsToken(spaces[t]) ==> hasToken) ==>
                r == Done(true)
    {
      hide FromStart, Inv;
      if tasks[t].state != Succeeded {
        return Done(false);
      }
      var preview :- Preview(t, faults);
      if preview.dirty {
        return Done(false);
      }
      var _ :- Probe(faults);
      if preview.head == spaces[t].record.base {
        return Done(true);
      }
      if !preview.onBranch {
        return Done(false);
      }
      if spaces[t].record.backend == Clone && !hasToken {
        return Error;
      }
      var _ :- Probe(faults);
      return Done(preview.remoteTip == Some(preview.head));
    }

    /** Remove a workspace whose cleanup was interrupted; a removal that fails is only
        reported and stays pending. */
    method ResumeRemoval(t: TaskId, authority: Authority, refuseDirty: bool, faults: bool)
      returns (r: Outcome<()>)
      requires Valid() && phase.Idle? && t in spaces && Entitled(Now(), t, authority)
      requires spaces[t].record.stage.CleanupPending?
      requires authority.ByProposal? || spaces[t].record.stage.reason == ReasonFor(authority)
      requires refuseDirty && spaces[t].dir.Checkout? ==> !spaces[t].dir.tree.dirty
      modifies this
      ensures Kept(r.Crashed?) && OnlyTouches(t)
      ensures !r.Crashed? ==> phase.Idle?
      ensures !faults ==> r.Done? && spaces[t] == Gone(old(spaces)[t])
    {
      hide FromStart, Inv;
      TakeOver(t, authority);
      var removed := RemoveDirectory(t, refuseDirty, faults);
      if removed.Error? {
        return Done(());
      }
      var _ :- removed;
      r := FinishRemoval(t, faults);
    }

    method RecoverCleanup(t: TaskId, faults: bool) returns (r: Outcome<()>)
      requires Valid() && phase.Idle? && t in spaces && spaces[t].record.stage.CleanupPending?
      modifies this
      ensures Kept(r.Crashed?) && OnlyTouches(t)
      ensures !r.Crashed? ==> phase.Idle?
      ensures !faults ==> r.Done? && spaces[t] == Recovered(tasks[t], old(spaces)[t], hasToken)
    {
      hide FromStart, Inv;
      var record := spaces[t].record;
      if spaces[t].dir.Absent? {
        r := FoundAbsent(t, faults);
      } else if record.kind == Proposal {
        r := ResumeRemoval(t, ByProposal, false, faults);
      } else if record.stage.reason == OperatorConfirmed {
        r := ResumeRemoval(t, ByOperator, false, faults);
      } else if record.stage.reason == AutomaticDelivery {
        var safe := AutomaticCleanupIsStillSafe(t, faults);
        if safe.Crashed? {
          return Crashed;
        }
        if safe.Done? && safe.value {
          r := ResumeRemoval(t, ByCheck, record.backend == Worktree, faults);
        } else {
          r := Retain(t, faults);
        }
      } else {
        r := Retain(t, faults);
      }
    }

    // ----- Whole passes -----

    twostate predicate ForeignSpared(owner: string)
      reads this
    {
      Spared(tasks, old(spaces), spaces, owner)
    }

    /** The durable queries behind the loops: the workspaces that are pending, or all
        that are not cleaned. */
    method ListWorkspaces(pendingOnly: bool) returns (ids: seq<TaskId>)
      ensures forall i, j | 0 <= i < j < |ids| :: ids[i] != ids[j]
      ensures forall t :: t in ids <==>
                t in spaces && (if pendingOnly then spaces[t].record.stage.CleanupPending?
                    else Active(spaces[t].record))
    {
      var rest := set t | t in spaces && (if pendingOnly then spaces[t].record.stage.CleanupPending?
          else Active(spaces[t].record));
      ghost var all := rest;
      ids := [];
      while rest != {}
        invariant rest <= all
        invariant forall i, j | 0 <= i < j < |ids| :: ids[i] != ids[j]
        invariant forall t :: t in ids <==> t in all && t !in rest
      {
        var t :| t in rest;
        rest := rest - {t};
        ids := ids + [t];
      }
    }

    /** The ownership check over a list of workspaces; returns the owned ones. */
    method ScreenAll(ids: seq<TaskId>, owner: string, faults: bool) returns (r: Outcome<seq<TaskId>>)
      requires Valid() && phase.Idle?
      requires forall i, j | 0 <= i < j < |ids| :: ids[i] != ids[j]
      requires forall t <- ids :: t in spaces && Active(spaces[t].record)
      modifies this
      ensures Kept(r.Crashed?) && ForeignSpared(owner)
      ensures !r.Crashed? ==> phase.Idle?
      ensures !r.Done? ==> faults
      ensures ScreenedSome(tasks, old(spaces), spaces, owner)
      ensures r.Done? ==> old(spaces).Keys <= tasks.Keys && spaces == ScreenedAll(tasks, old(spaces), ids, owner)
      ensures r.Done? ==> forall i, j | 0 <= i < j < |r.value| :: r.value[i] != r.value[j]
      ensures r.Done? ==> forall t :: t in r.value <==>
                t in ids && t in old(spaces) && t in tasks && Owned(tasks[t], old(spaces)[t].record, owner)
    {
      hide FromStart, Inv, Owned, Screened, ScreenedAll, ScreenedSome, Spared;
      var owned: seq<TaskId> := [];
      NothingScreened(tasks, spaces, owner);
      for i := 0 to |ids|
        invariant Kept(false) && phase.Idle? && ForeignSpared(owner)
        invariant spaces == ScreenedAll(tasks, old(spaces), ids[..i], owner)
        invariant ScreenedSome(tasks, old(spaces), spaces, owner)
        invariant forall j, k | 0 <= j < k < |owned| :: owned[j] != owned[k]
        invariant forall t :: t in owned <==>
                    t in ids[..i] && t in old(spaces) && t in tasks && Owned(tasks[t], old(spaces)[t].record, owner)
      {
        assert ids[i] in ids && ids[i] !in ids[..i] && ids[..i + 1] == ids[..i] + [ids[i]];
        OneMoreScreened(tasks, old(spaces), ids[..i], ids[i], owner);
        var resolved :- WorkspaceOwnerIsResolved(ids[i], owner, faults);
        if resolved {
          owned := owned + [ids[i]];
        }
      }
      assert ids[..|ids|] == ids;
      return Done(owned);
    }

    method RetainUnresolvableWorkspaces(owner: string, faults: bool) returns (r: Outcome<()>)
      requires Valid() && phase.Idle?
      modifies this
      ensures Kept(r.Crashed?) && ForeignSpared(owner)
      ensures !r.Crashed? ==> phase.Idle?
      ensures ScreenedSome(tasks, old(spaces), spaces, owner)
      ensures !r.Done? ==> faults
      ensures r.Done? ==> forall t | t in spaces && t in old(spaces) && t in tasks ::
                spaces[t] == Screened(tasks[t], old(spaces)[t], owner)
    {
      hide FromStart, Inv, Spared, Owned, ScreenedSome;
      var ids := ListWorkspaces(false);
      var _ :- ScreenAll(ids, owner, faults);
      return Done(());
    }

    /** The ownership check over the pending workspaces; returns the owned ones. */
    method ScreenPending(owner: string, faults: bool) returns (r: Outcome<seq<TaskId>>)
      requires Valid() && phase.Idle?
      modifies this
      ensures Kept(r.Crashed?) && ForeignSpared(owner)
      ensures !r.Crashed? ==> phase.Idle?
      ensures !r.Done? ==> faults
      ensures r.Done? ==> forall i, j | 0 <= i < j < |r.value| :: r.value[i] != r.value[j]
      ensures r.Done? ==> forall t | t in spaces && t in old(spaces) && t in tasks ::
                && spaces[t] == (if old(spaces)[t].record.stage.CleanupPending?
                                 then Screened(tasks[t], old(spaces)[t], owner)
                                 else old(spaces)[t])
                && (t in r.value <==> spaces[t].record.stage.CleanupPending?)
      ensures r.Done? ==> forall t <- r.value :: t in spaces && t in tasks && Owned(tasks[t], spaces[t].record, owner)
    {
      hide FromStart, Inv, Spared, Owned;
      var ids := ListWorkspaces(true);
      r := ScreenAll(ids, owner, faults);
    }

    /** `validate_workspace_backends`: refuses to start over active work of the other
        execution mode. A token is configured exactly in sandbox mode. */
    method ValidateWorkspaceBackends(owner: string, faults: bool) returns (r: Outcome<()>)
      requires Valid() && phase.Idle?
      modifies this
      ensures Kept(r.Crashed?) && ForeignSpared(owner)
      ensures !r.Crashed? ==> phase.Idle?
      ensures r.Crashed? ==> faults
      ensures r.Done? || !faults ==> forall t | t in spaces && t in old(spaces) && t in tasks ::
                spaces[t] == Screened(tasks[t], old(spaces)[t], owner)
      ensures ScreenedSome(tasks, old(spaces), spaces, owner)
      ensures r.Done? ==> !OtherMode(old(Now()), owner, hasToken)
      ensures !faults && r.Error? ==> OtherMode(old(Now()), owner, hasToken)
    {
      hide FromStart, Inv, Spared, Owned, ScreenedSome;
      var ids := ListWorkspaces(false);
      var owned :- ScreenAll(ids, owner, faults);
      for i := 0 to |owned|
        invariant forall j | 0 <= j < i :: old(spaces)[owned[j]].record.backend == BackendOf(hasToken)
      {
        assert owned[i] in owned;
        if spaces[owned[i]].record.backend != BackendOf(hasToken) {
          return Error;
        }
      }
      return Done(());
    }

    method ReconcilePendingCleanup(owner: string, faults: bool) returns (r: Outcome<()>)
      requires Valid() && phase.Idle?
      modifies this
      ensures Kept(r.Crashed?) && ForeignSpared(owner)
      ensures !r.Crashed? ==> phase.Idle?
      ensures !faults ==> r.Done?
      ensures !faults ==> forall t | t in spaces && t in old(spaces) && t in tasks ::
                spaces[t] == AfterPending(tasks[t], old(spaces)[t], owner, hasToken)
    {
      hide FromStart, Inv, Spared;
      var owned :- ScreenPending(owner, faults);
      if owned == [] {
        return Done(());
      }
      var _ :- Probe(faults);
      ghost var screened := spaces;
      r := RecoverAll(owned, owner, faults);
      SparedByAll(tasks, old(spaces), screened, spaces, owner);
    }

    method RecoverAll(owned: seq<TaskId>, owner: string, faults: bool) returns (r: Outcome<()>)
      requires Valid() && phase.Idle?
      requires forall i, j | 0 <= i < j < |owned| :: owned[i] != owned[j]
      requires forall t <- owned :: t in spaces && t in tasks && Owned(tasks[t], spaces[t].record, owner)
      requires forall t <- owned :: spaces[t].record.stage.CleanupPending?
      modifies this
      ensures Kept(r.Crashed?) && ForeignSpared(owner)
      ensures !r.Crashed? ==> phase.Idle?
      ensures !faults ==> r.Done?
      ensures !faults ==> forall t | t in spaces && t in old(spaces) && t in tasks ::
                spaces[t] == if t in owned then Recovered(tasks[t], old(spaces)[t], hasToken) else old(spaces)[t]
    {
      hide FromStart, Inv, Recovered, Spared;
      NothingScreened(tasks, spaces, owner);
      for i := 0 to |owned|
        invariant Kept(false) && phase.Idle? && ForeignSpared(owner)
        invariant forall t | t in spaces && t in old(spaces) && t in tasks && t !in owned[..i] ::
            spaces[t] == old(spaces)[t]
        invariant !faults ==> forall t | t in owned[..i] && t in spaces && t in old(spaces) && t in tasks ::
                    spaces[t] == Recovered(tasks[t], old(spaces)[t], hasToken)
      {
        assert owned[i] !in owned[..i] && owned[..i + 1] == owned[..i] + [owned[i]];
        ghost var before := spaces;
        var recovered := RecoverCleanup(owned[i], faults);
        SparedByOne(tasks, before, spaces, owned[i], owner);
        SparedByAll(tasks, old(spaces), before, spaces, owner);
        var _ :- recovered;
      }
      assert owned[..|owned|] == owned;
      return Done(());
    }

    /** One iteration of the loop over terminal workspaces. */
    method SweepTerminal(t: TaskId, owner: string, faults: bool) returns (r: Outcome<()>)
      requires Valid() && phase.Idle? && t in spaces && Active(spaces[t].record)
      modifies this
      ensures Kept(r.Crashed?) && OnlyTouches(t)
      ensures !r.Crashed? ==> phase.Idle?
      ensures !Owned(tasks[t], old(spaces)[t].record, owner) ==>
                spaces[t] == old(spaces)[t] || spaces[t] == old(spaces)[t].At(Retained)
      ensures StaysWithheld(tasks[t], old(spaces)[t], spaces[t])
      ensures !faults ==> r.Done? && spaces[t] == Swept(tasks[t], old(spaces)[t], owner, hasToken)
    {
      hide FromStart, Inv, Settled;
      if spaces[t].record.stage.CleanupPending? || spaces[t].record.stage.Retained? {
        return Done(());
      }
      var resolved :- WorkspaceOwnerIsResolved(t, owner, faults);
      if !resolved || !tasks[t].state.Terminal() {
        return Done(());
      }
      if !tasks[t].hasRun {
        r := Retain(t, faults);
        return;
      }
      var finalized := FinalizeTaskWorkspace(t, owner, faults);
      if finalized.Crashed? {
        return Crashed;
      }
      return Done(());
    }

    method ReconcileTerminalWorkspaces(owner: string, faults: bool) returns (r: Outcome<()>)
      requires Valid() && phase.Idle?
      modifies this
      ensures Kept(r.Crashed?) && ForeignSpared(owner)
      ensures !r.Crashed? ==> phase.Idle?
      ensures !faults ==> r.Done?
      ensures !faults ==> forall t | t in spaces && t in old(spaces) && t in tasks ::
                spaces[t] == Swept(tasks[t], old(spaces)[t], owner, hasToken)
    {
      hide FromStart, Inv, Swept, Spared;
      NothingScreened(tasks, spaces, owner);
      InactiveIsNotSwept(owner, hasToken);
      var ids := ListWorkspaces(false);
      for i := 0 to |ids|
        invariant Kept(false) && phase.Idle? && ForeignSpared(owner)
        invariant forall t | t in spaces && t in old(spaces) && t in tasks && t !in ids[..i] ::
            spaces[t] == old(spaces)[t]
        invariant !faults ==> forall t | t in ids[..i] && t in spaces && t in old(spaces) && t in tasks ::
                    spaces[t] == Swept(tasks[t], old(spaces)[t], owner, hasToken)
      {
        assert ids[i] !in ids[..i] && ids[..i + 1] == ids[..i] + [ids[i]];
        ghost var before := spaces;
        var swept := SweepTerminal(ids[i], owner, faults);
        SparedByOne(tasks, before, spaces, ids[i], owner);
        SparedByAll(tasks, old(spaces), before, spaces, owner);
        var _ :- swept;
      }
      assert ids[..|ids|] == ids;
      return Done(());
    }

    /** The destructive part of `reconcile_recovery_state`: every workspace, on any mix
        of owners and from any crash state, ends exactly where `Reconciled` says when no
        command fails; outsiders are spared in every case. */
    method ReconcileWorkspaces(owner: string, faults: bool) returns (r: Outcome<()>)
      requires Valid() && phase.Idle?
      modifies this
      ensures Kept(r.Crashed?) && ForeignSpared(owner)
      ensures !r.Crashed? ==> phase.Idle?
      ensures !faults ==> r.Done?
      ensures !faults ==> forall t | t in spaces && t in old(spaces) && t in tasks ::
                spaces[t] == Reconciled(tasks[t], old(spaces)[t], owner, hasToken)
    {
      hide FromStart, Inv, Swept, AfterPending, Recovered, Screened, Spared;
      forall task, w
        ensures AfterPending(task, Screened(task, w, owner), owner, hasToken)
                == Recovered(task, Screened(task, w, owner), hasToken)
      {
        ScreenedOnce(task, w, owner, hasToken);
      }
      var _ :- RetainUnresolvableWorkspaces(owner, faults);
      ghost var screened := spaces;
      var recovered := ReconcilePendingCleanup(owner, faults);
      SparedByAll(tasks, old(spaces), screened, spaces, owner);
      var _ :- recovered;
      ghost var settled := spaces;
      r := ReconcileTerminalWorkspaces(owner, faults);
      SparedByAll(tasks, old(spaces), settled, spaces, owner);
    }

    // ----- Recovery of sandboxes -----

    method MoveSandbox(r: RunId, after: Option<Sandbox>)
      requires Valid() && r in boxes && MayMove(boxes[r], after, !phase.Down?)
      modifies this
      ensures KeptTasks(phase.Down?) && phase == old(phase) && spaces == old(spaces)
      ensures boxes == if after.Some? then old(boxes)[r := after.value] else old(boxes) - {r}
      ensures AllAged(old(boxes), boxes, r)
    {
      hide FromStart, Inv;
      ghost var before := Now();
      boxes := if after.Some? then boxes[r := after.value] else boxes - {r};
      Advance(before, SandboxMoves(r, after));
    }

    /** Agents in sandboxes that nobody stopped go on working, and may end. */
    method AgentsWork(ghost r: RunId)
      requires Valid() && !phase.Down?
      modifies this
      ensures KeptTasks(false) && phase == old(phase) && spaces == old(spaces)
      ensures AllAged(old(boxes), boxes, r) && boxes.Keys == old(boxes).Keys
      ensures r in boxes ==> boxes[r].stage == old(boxes)[r].stage
    {
      hide FromStart, Inv;
      var rounds: nat :| true;
      for i := 0 to rounds
        invariant KeptTasks(false) && phase == old(phase) && spaces == old(spaces)
        invariant AllAged(old(boxes), boxes, r) && boxes.Keys == old(boxes).Keys
        invariant r in boxes ==> boxes[r].stage == old(boxes)[r].stage
      {
        if boxes != map[] {
          var q: RunId :| q in boxes;
          if boxes[q].active {
            var head: Sha, active: bool :| true;
            MoveSandbox(q, Some(boxes[q].(head := head, active := active)));
          }
        }
      }
    }

    /** One durable write of a sandbox record. */
    method StageSandbox(r: RunId, stage: S.Stage, faults: bool) returns (o: Outcome<()>)
      requires Valid() && phase.Idle? && r in boxes && (boxes[r].stage == S.Retained ==> stage == S.Retained)
      modifies this
      ensures KeptTasks(o.Crashed?) && spaces == old(spaces)
      ensures !o.Crashed? ==> phase.Idle?
      ensures AllAged(old(boxes), boxes, r) && r in boxes
      ensures boxes[r] == if o.Done? then old(boxes)[r].(stage := stage) else old(boxes)[r]
      ensures !o.Done? ==> faults
    {
      hide FromStart, Inv;
      var _ :- Probe(faults);
      MoveSandbox(r, Some(boxes[r].(stage := stage)));
      return Done(());
    }

    /** One write of Git into the clone of a task, from sandbox `r`. */
    method ResetClone(r: RunId, tree: Tree)
      requires Valid() && phase.Idle? && r in boxes && Restorable(Now(), r, boxes[r].task)
      requires Resets(spaces[boxes[r].task].dir.tree, boxes[r].head, tree)
      modifies this
      ensures Kept(false) && phase.Idle?
      ensures var t := boxes[r].task; spaces == old(spaces)[t := old(spaces)[t].(dir := Checkout(tree))]
    {
      hide FromStart, Inv;
      ghost var before := Now();
      var t := boxes[r].task;
      spaces := spaces[t := spaces[t].(dir := Checkout(tree))];
      Advance(before, Restore(r, tree));
    }

    /** `preserve_workspace` in recovery: snapshot, fetch, hard reset. It fails when the
        directory is no repository, and a reset may stop half-way. */
    method RestoreClone(r: RunId, t: TaskId, faults: bool) returns (o: Outcome<bool>)
      requires Valid() && phase.Idle? && r in boxes && boxes[r].task == t && boxes[r].stage != S.Retained
      requires t in spaces && tasks[t].repository == spaces[t].record.repository
      modifies this
      ensures Kept(o.Crashed?) && !o.Error?
      ensures !o.Crashed? ==> phase.Idle?
      ensures spaces == old(spaces)[t := old(spaces)[t].(dir := spaces[t].dir)]
      ensures Rewritten(boxes[r], old(spaces)[t].dir, spaces[t].dir)
      ensures o == Done(true) ==> Preserved(boxes[r], old(spaces)[t].dir, spaces[t].dir)
      ensures !faults ==> o == Done(old(spaces)[t].dir.Checkout?)
      ensures !faults && o == Done(false) ==> spaces == old(spaces)
    {
      hide FromStart, Inv;
      if !spaces[t].dir.Checkout? {
        var failed := Probe(faults);
        return if failed.Crashed? then Crashed else Done(false);
      }
      o := ResetSomehow(r, t, faults);
    }

    method ResetSomehow(r: RunId, t: TaskId, faults: bool) returns (o: Outcome<bool>)
      requires Valid() && phase.Idle? && r in boxes && boxes[r].task == t && boxes[r].stage != S.Retained
      requires t in spaces && tasks[t].repository == spaces[t].record.repository && spaces[t].dir.Checkout?
      modifies this
      ensures Kept(o.Crashed?) && !o.Error?
      ensures !o.Crashed? ==> phase.Idle?
      ensures spaces == old(spaces)[t := old(spaces)[t].(dir := spaces[t].dir)]
      ensures Rewritten(boxes[r], old(spaces)[t].dir, spaces[t].dir)
      ensures o == Done(true) ==> Preserved(boxes[r], old(spaces)[t].dir, spaces[t].dir)
      ensures !faults ==> o == Done(true)
    {
      hide FromStart, Inv;
      var tree := spaces[t].dir.tree;
      var partial: bool, untracked: bool := *, *;
      if faults && partial {
        if tree.head != boxes[r].head {
          ResetClone(r, tree.(dirty := true));
        }
        var failed := Probe(faults);
        return if failed.Crashed? then Crashed else Done(false);
      }
      ResetClone(r, tree.(head := boxes[r].head, dirty := tree.dirty && untracked));
      return Done(true);
    }

    /** What the recovery of sandbox `r` of task `t` keeps: all else, and the clone unless
        that sandbox threatens it. */
    twostate predicate OnlyRecovers(r: RunId, t: TaskId)
      reads this
    {
      RecoversOne(old(Now()), Now(), r, t)
    }

    /** One sandbox of the recovery loop. */
    method RecoverSandbox(r: RunId, t: TaskId, owner: string, faults: bool) returns (o: Outcome<()>)
      requires Valid() && phase.Idle? && r in boxes && boxes[r].task == t && t in spaces
      modifies this
      ensures KeptTasks(o.Crashed?) && OnlyRecovers(r, t)
      ensures !o.Crashed? ==> phase.Idle?
      ensures !faults ==> o.Done?
      ensures if Owned(tasks[t], old(spaces)[t].record, owner)
              then spaces[t].record == old(spaces)[t].record
              else spaces[t] == old(spaces)[t] || spaces[t] == old(spaces)[t].At(Retained)
      ensures !faults ==> (r in boxes ==> boxes[r].stage == S.Retained)
      ensures !faults && Owned(tasks[t], old(spaces)[t].record, owner) ==>
                Preserved(old(boxes)[r], old(spaces)[t].dir, spaces[t].dir)
    {
      hide FromStart, Inv, AllAged, Aged, Threatens;
      NothingAged(boxes, r);
      var resolved :- WorkspaceOwnerIsResolved(t, owner, faults);
      if !resolved {
        o := StageSandbox(r, S.Retained, faults);
        return;
      }
      SameThreats(old(Now()), Now(), r, t);
      o := RecoverOwned(r, t, faults);
    }

    method RecoverOwned(r: RunId, t: TaskId, faults: bool) returns (o: Outcome<()>)
      requires Valid() && phase.Idle? && r in boxes && boxes[r].task == t
      requires t in spaces && tasks[t].repository == spaces[t].record.repository
      modifies this
      ensures KeptTasks(o.Crashed?) && OnlyRecovers(r, t)
      ensures !o.Crashed? ==> phase.Idle?
      ensures !faults ==> o.Done?
      ensures spaces[t].record == old(spaces)[t].record
      ensures !faults ==> (r in boxes ==> boxes[r].stage == S.Retained)
      ensures !faults ==> Preserved(old(boxes)[r], old(spaces)[t].dir, spaces[t].dir)
    {
      hide FromStart, Inv, AllAged, Threatens;
      ghost var start := boxes;
      AgentsWork(r);
      var halted: bool := *;
      ghost var worked := boxes;
      AgedAt(start, boxes, r);
      if halted || !faults {
        MoveSandbox(r, Some(boxes[r].(active := false)));
        AgedTwice(start, worked, boxes, r);
      }
      if boxes[r].stage == S.Retained {
        return Done(());
      }
      ghost var stopped := Now();
      AgedAt(start, boxes, r);
      o := PreserveSandbox(r, t, faults);
      AgedTwice(start, stopped.boxes, boxes, r);
      if Threatens(stopped, r, t) {
        ThreatWasThere(old(Now()), stopped, r, t);
      }
    }

    /** The rest, once the stop was tried: record, preserve, remove. */
    method PreserveSandbox(r: RunId, t: TaskId, faults: bool) returns (o: Outcome<()>)
      requires Valid() && phase.Idle? && r in boxes && boxes[r].task == t && boxes[r].stage != S.Retained
      requires t in spaces && tasks[t].repository == spaces[t].record.repository
      modifies this
      ensures KeptTasks(o.Crashed?) && OnlyRecovers(r, t)
      ensures !o.Crashed? ==> phase.Idle?
      ensures !faults ==> o.Done?
      ensures spaces[t].record == old(spaces)[t].record
      ensures !faults ==> (r in boxes ==> boxes[r].stage == S.Retained)
      ensures !faults ==> Preserved(old(boxes)[r], old(spaces)[t].dir, spaces[t].dir)
    {
      hide FromStart, Inv, AllAged, Threatens, Preserved;
      ghost var start := boxes;
      var preserved :- SaveSandbox(r, t, faults);
      ghost var saved := boxes;
      if preserved {
        o := DropSandbox(r, faults);
      } else {
        o := StageSandbox(r, S.Retained, faults);
      }
      AgedTwice(start, saved, boxes, r);
    }

    /** Record the recovery and put the snapshot into the clone, if the clone takes it. */
    method SaveSandbox(r: RunId, t: TaskId, faults: bool) returns (o: Outcome<bool>)
      requires Valid() && phase.Idle? && r in boxes && boxes[r].task == t && boxes[r].stage != S.Retained
      requires t in spaces && tasks[t].repository == spaces[t].record.repository
      modifies this
      ensures KeptTasks(o.Crashed?) && OnlyRecovers(r, t)
      ensures !o.Crashed? ==> phase.Idle?
      ensures o.Done? ==> r in boxes && boxes[r].stage != S.Retained
      ensures !faults ==> o.Done?
      ensures spaces[t].record == old(spaces)[t].record
      ensures !faults ==> Preserved(old(boxes)[r], old(spaces)[t].dir, spaces[t].dir)
    {
      hide FromStart, Inv, AllAged, Threatens;
      ghost var start := boxes;
      NothingAged(boxes, r);
      var _ :- Probe(faults);
      var _ :- StageSandbox(r, S.Recovered, faults);
      ghost var staged := boxes;
      AgentsWork(r);
      AgedTwice(start, staged, boxes, r);
      AgedAt(start, boxes, r);
      ghost var ready := Now();
      o := RestoreClone(r, t, faults);
      if spaces[t].dir != ready.spaces[t].dir {
        DifferenceThreatens(ready, r, t);
        ThreatWasThere(old(Now()), ready, r, t);
      }
    }

    /** Persist `removing`, remove, persist the mark. */
    method DropSandbox(r: RunId, faults: bool) returns (o: Outcome<()>)
      requires Valid() && phase.Idle? && r in boxes && boxes[r].stage != S.Retained
      modifies this
      ensures KeptTasks(o.Crashed?) && spaces == old(spaces) && AllAged(old(boxes), boxes, r)
      ensures !o.Crashed? ==> phase.Idle?
      ensures !faults ==> o.Done? && r !in boxes
    {
      hide FromStart, Inv, AllAged;
      ghost var start := boxes;
      AgentsWork(r);
      ghost var worked := boxes;
      var removing := StageSandbox(r, S.Removing, faults);
      AgedTwice(start, worked, boxes, r);
      var _ :- removing;
      ghost var staged := boxes;
      o := Delete(r, faults);
      AgedTwice(start, staged, boxes, r);
    }

    method Delete(r: RunId, faults: bool) returns (o: Outcome<()>)
      requires Valid() && phase.Idle? && r in boxes && boxes[r].stage != S.Retained
      modifies this
      ensures KeptTasks(o.Crashed?) && spaces == old(spaces) && AllAged(old(boxes), boxes, r)
      ensures !o.Crashed? ==> phase.Idle?
      ensures !faults ==> o.Done? && r !in boxes
    {
      hide FromStart, Inv, AllAged;
      NothingAged(boxes, r);
      var removed := Probe(faults);
      var gone: bool := *;
      if removed.Done? || (removed.Error? && gone) {
        MoveSandbox(r, None);
      }
      var _ :- removed;
      o := Probe(faults);
    }

    /** `owned_sandboxes`, in any order. */
    method ListSandboxes() returns (ids: seq<RunId>)
      ensures forall i, j | 0 <= i < j < |ids| :: ids[i] != ids[j]
      ensures forall r :: r in ids <==> r in boxes
    {
      var rest := boxes.Keys;
      ids := [];
      while rest != {}
        invariant rest <= boxes.Keys
        invariant forall i, j | 0 <= i < j < |ids| :: ids[i] != ids[j]
        invariant forall r :: r in ids <==> r in boxes && r !in rest
      {
        var r :| r in rest;
        rest := rest - {r};
        ids := ids + [r];
      }
    }

    /** The loop over all sandboxes at startup. Only threatened clones change, and no file of
        another owner; without faults a clone with an unretained sandbox takes the snapshot
        of one of them, and every sandbox that is left is retained. */
    method RecoverSandboxes(owner: string, faults: bool) returns (o: Outcome<()>)
      requires Valid() && phase.Idle?
      modifies this
      ensures KeptTasks(o.Crashed?)
      ensures !o.Crashed? ==> phase.Idle?
      ensures RecoveredAll(old(Now()), spaces, owner)
      ensures !faults ==> o.Done?
      ensures !faults ==> forall r <- boxes :: boxes[r].stage == S.Retained
      ensures !faults ==> forall t <- spaces :: Filled(old(Now()), old(Now()).boxes.Keys, t, spaces[t].dir, owner)
    {
      hide FromStart, Inv, AgedBut, RecoveredAll, Filled;
      NothingRecovered(Now(), owner);
      var _ :- Probe(faults);
      var ids := ListSandboxes();
      ghost var start := old(Now());
      ghost var done: set<RunId> := {};
      for i := 0 to |ids|
        invariant KeptTasks(false) && phase.Idle?
        invariant forall r :: r in done <==> r in ids[..i]
        invariant AgedBut(start.boxes, boxes, done) && RecoveredAll(start, spaces, owner)
        invariant !faults ==> forall r <- boxes :: r in done ==> boxes[r].stage == S.Retained
        invariant !faults ==> forall t <- spaces :: Filled(start, done, t, spaces[t].dir, owner)
      {
        assert ids[..i + 1] == ids[..i] + [ids[i]] && ids[i] !in ids[..i] && ids[i] in ids;
        var _ :- RecoverNext(start, done, ids[i], owner, faults);
        done := done + {ids[i]};
      }
      assert ids[..|ids|] == ids;
      AgedButKeys(start.boxes, boxes, done);
      assert done == start.boxes.Keys;
      return Done(());
    }

    /** One iteration, after those of `done`. */
    method RecoverNext(ghost start: State, ghost done: set<RunId>, r: RunId, owner: string, faults: bool)
      returns (o: Outcome<()>)
      requires Valid() && phase.Idle? && start.tasks == tasks && r in start.boxes && r !in done
      requires AgedBut(start.boxes, boxes, done) && RecoveredAll(start, spaces, owner)
      requires !faults ==> forall q <- boxes :: q in done ==> boxes[q].stage == S.Retained
      requires !faults ==> forall t <- spaces :: Filled(start, done, t, spaces[t].dir, owner)
      modifies this
      ensures KeptTasks(o.Crashed?)
      ensures !o.Crashed? ==> phase.Idle?
      ensures !faults ==> o.Done?
      ensures AgedBut(start.boxes, boxes, done + {r}) && RecoveredAll(start, spaces, owner)
      ensures !faults ==> forall q <- boxes :: q in done + {r} ==> boxes[q].stage == S.Retained
      ensures !faults ==> forall t <- spaces :: Filled(start, done + {r}, t, spaces[t].dir, owner)
    {
      hide FromStart, Inv, AgedBut, RecoveredAll, Filled, Preserved, Owned, AllAged, Threatens;
      ghost var before := Now();
      AgedButAt(start.boxes, boxes, done, r);
      BoxesAreKnown();
      var t := boxes[r].task;
      RecoveredAllAt(start, spaces, t, owner);
      o := RecoverSandbox(r, t, owner, faults);
      OneMoreRecovered(start, before, Now(), done, r, t, owner);
      if !faults {
        OneMoreFilled(start, before, Now(), done, r, t, owner);
        AllAgedStages(before.boxes, boxes, r);
      }
    }

    lemma BoxesAreKnown()
      requires Valid()
      ensures forall r <- boxes :: boxes[r].task in spaces
    {
    }

    /** The ownership pass, the check of the execution mode and, in sandbox mode, the recovery
        of sandboxes. The check refuses exactly active work of the other mode. */
    method CheckAndRecover(owner: string, faults: bool) returns (r: Outcome<()>)
      requires Valid() && phase.Idle?
      modifies this
      ensures KeptTasks(r.Crashed?)
      ensures !r.Crashed? ==> phase.Idle?
      ensures RecoveredAll(old(Now()), spaces, owner)
      ensures !faults ==> !r.Crashed? && (r.Error? <==> OtherMode(old(Now()), owner, hasToken))
      ensures r.Done? ==> !OtherMode(old(Now()), owner, hasToken)
      ensures !faults && r.Done? && hasToken ==> forall q <- boxes :: boxes[q].stage == S.Retained
    {
      hide FromStart, Inv, Spared, RecoveredAll, Screened, ScreenedSome, OtherMode, Owned, Active;
      NothingRecovered(Now(), owner);
      var retained := RetainUnresolvableWorkspaces(owner, faults);
      SparedIsRecovered(old(Now()), Now(), owner);
      var _ :- retained;
      ghost var before := Now();
      var validated := ValidateWorkspaceBackends(owner, faults);
      SparedIsRecovered(before, Now(), owner);
      RecoveredTwice(old(Now()), before, spaces, owner);
      var _ :- validated;
      if !hasToken {
        return Done(());
      }
      ghost var checked := Now();
      r := RecoverSandboxes(owner, faults);
      RecoveredTwice(old(Now()), checked, spaces, owner);
    }

    /** `recover_orphaned_runs_for_repository`, one transaction: interrupted tasks of the owner
        are queued again, failed or cancelled; those of a live daemon stay. */
    method RecoverRuns(active: map<TaskId, ActiveRun>, owner: string, faults: bool) returns (r: Outcome<()>)
      requires Valid() && phase.Idle?
      modifies this
      ensures Valid() && Continues(old(run), run) && (r.Crashed? <==> phase.Down?)
      ensures spaces == old(spaces) && boxes == old(boxes)
      ensures !r.Crashed? ==> phase.Idle?
      ensures !r.Done? ==> faults && tasks == old(tasks)
      ensures r.Done? ==> RunsRecovered(old(tasks), tasks, active, owner)
    {
      hide FromStart, Inv;
      var _ :- Probe(faults);
      var left := tasks.Keys;
      while left != {}
        invariant Valid() && Continues(old(run), run) && phase.Idle?
        invariant spaces == old(spaces) && boxes == old(boxes) && left <= tasks.Keys == old(tasks).Keys
        invariant forall t <- tasks ::
                    tasks[t] == if t in left then old(tasks)[t] else AfterRecovery(old(tasks)[t], active, t, owner)
      {
        var t :| t in left;
        left := left - {t};
        var task := AfterRecovery(tasks[t], active, t, owner);
        if tasks[t] != task {
          ghost var before := Now();
          tasks := tasks[t := task];
          Advance(before, TaskMoves(t, task));
        }
      }
      return Done(());
    }

    /** What the daemon does to workspaces when it starts, and whether it does start. Without
        faults every workspace ends where a reconciliation pass, with the tasks as the
        recovery of interrupted runs leaves them, takes what the recovery of sandboxes made
        of it. For an owned workspace that is what the pass makes of the workspace as it
        was, unless a sandbox threatens it; and an owned terminal one ends cleaned or
        retained, except a proposal clone that Git no longer recognises. */
    method StartUp(active: map<TaskId, ActiveRun>, owner: string, faults: bool)
      returns (r: Outcome<()>, ghost recovered: map<TaskId, Workspace>)
      requires Valid() && phase.Idle?
      modifies this
      ensures Valid() && Continues(old(run), run) && (r.Crashed? <==> phase.Down?)
      ensures spaces.Keys == old(spaces).Keys && AllInterrupted(old(tasks), tasks, owner)
      ensures tasks == old(tasks) || RunsRecovered(old(tasks), tasks, active, owner)
      ensures r.Done? ==> RunsRecovered(old(tasks), tasks, active, owner)
      ensures !faults && r.Done? && hasToken ==> forall q <- boxes :: boxes[q].stage == S.Retained
      ensures !r.Crashed? ==> phase.Idle?
      ensures !faults ==> !r.Crashed? && (r.Error? <==> OtherMode(old(Now()), owner, hasToken))
      ensures OutsidersSpared(tasks, old(spaces), spaces, owner)
      ensures RecoveredAll(old(Now()), recovered, owner) && recovered.Keys == spaces.Keys
      ensures Spared(tasks, recovered, spaces, owner)
      ensures !faults && r.Done? ==> forall t <- spaces ::
                t in recovered && t in tasks && t in old(spaces)
                && spaces[t] == Reconciled(tasks[t], recovered[t], owner, hasToken)
      ensures !faults && r.Done? ==> forall t | t in spaces && Owned(tasks[t], old(spaces)[t].record, owner) ::
                && ((forall q :: !Threatens(old(Now()), q, t)) ==>
                      spaces[t] == Reconciled(tasks[t], old(spaces)[t], owner, hasToken))
                && (tasks[t].state.Terminal() ==>
                      (spaces[t].record.stage.Cleaned? || spaces[t].record.stage.Retained?
                       <==> !StuckProposal(tasks[t], old(spaces)[t])))
    {
      hide FromStart, Inv, Spared, OutsidersSpared, RecoveredAll, Reconciled, StuckProposal, Owned;
      hide AllInterrupted, RunsRecovered, OtherMode, Threatens;
      recovered := spaces;
      NothingRecovered(Now(), owner);
      NothingInterrupted(tasks, owner);
      RecoveredIsSpared(old(Now()), spaces, owner);
      r := CheckAndRecover(owner, faults);
      recovered := spaces;
      RecoveredIsSpared(old(Now()), spaces, owner);
      NothingScreened(tasks, spaces, owner);
      if !r.Done? {
        return;
      }
      r := RecoverRuns(active, owner, faults);
      if r.Done? {
        RecoveredAreInterrupted(old(tasks), tasks, active, owner);
      }
      ghost var start := old(Now()).(tasks := tasks);
      SameOwners(old(Now()), start, recovered, owner);
      RecoveredIsSpared(start, recovered, owner);
      NothingScreened(tasks, spaces, owner);
      if !r.Done? {
        return;
      }
      r := ReconcileWorkspaces(owner, faults);
      SparedIsForOutsiders(tasks, recovered, spaces, owner);
      OutsidersSparedByAll(tasks, old(spaces), recovered, spaces, owner);
      if !faults {
        forall t | t in spaces && Owned(tasks[t], old(spaces)[t].record, owner)
          ensures (forall q :: !Threatens(old(Now()), q, t)) ==> recovered[t] == old(spaces)[t]
          ensures tasks[t].state.Terminal() ==>
                    (spaces[t].record.stage.Cleaned? || spaces[t].record.stage.Retained?
                     <==> !StuckProposal(tasks[t], old(spaces)[t]))
        {
          StartConverges(start, recovered, t, owner, hasToken);
        }
      }
    }

    /** The operator command. Without `confirm` it changes nothing; with it the
        confirmation is durable before the first file goes, and a live task is refused. */
    method CleanupRun(t: TaskId, confirm: bool, runRepository: string, expected: Option<string>, faults: bool)
      returns (r: Outcome<()>)
      requires Valid() && phase.Idle?
      modifies this
      ensures Kept(r.Crashed?) && (if t in spaces then OnlyTouches(t) else spaces == old(spaces))
      ensures !r.Crashed? ==> phase.Idle?
      ensures !confirm ==> spaces == old(spaces)
      ensures t in spaces && !tasks[t].state.Terminal() ==> spaces == old(spaces)
      ensures t in spaces && expected.Some? &&
              !(runRepository == expected.value && Owned(tasks[t], old(spaces)[t].record, expected.value)) ==>
                spaces == old(spaces)
      ensures r.Done? && confirm && t in spaces ==> spaces[t] == Gone(old(spaces)[t])
      ensures !faults && r.Error? ==> spaces == old(spaces)
      ensures !faults ==>
                (r.Done? <==>
                   && t in tasks && t in spaces
                   && (expected.Some? ==>
                         && runRepository == expected.value && tasks[t].repository == expected.value
                         && old(spaces)[t].record.repository == expected.value)
                   && (|| old(spaces)[t].record.stage == Cleaned
                       || (&& !(old(spaces)[t].record.backend == Clone && old(spaces)[t].dir.Unregistered?)
                           && (confirm ==>
                                 || tasks[t].state == Succeeded || tasks[t].state == Failed
                                 || tasks[t].state == Cancelled))))
    {
      hide FromStart;
      if t !in tasks || t !in spaces {
        return Error;
      }
      var task, workspace := tasks[t], spaces[t];
      if expected.Some? && !(runRepository == expected.value && Owned(task, workspace.record, expected.value)) {
        return Error;
      }
      if workspace.record.stage == Cleaned {
        return Done(());
      }
      var _ :- Probe(faults);
      if workspace.dir.Absent? {
        if !confirm {
          return Done(());
        }
        if !task.state.Terminal() {
          return Error;
        }
        r := FoundAbsent(t, faults);
        return;
      }
      if workspace.record.backend == Clone || !workspace.dir.Unregistered? {
        var _ :- Preview(t, faults);
      }
      if !confirm {
        return Done(());
      }
      if !task.state.Terminal() {
        return Error;
      }
      r := RemoveWorkspace(t, ByOperator, false, faults);
    }
  }
}
