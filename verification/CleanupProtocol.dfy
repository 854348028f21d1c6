/** The workspace lifecycle as a transition system: every durable write and every
    removal is one step, the process may stop between any two steps, and people may
    edit the trees while it is down. Sandboxes of earlier runs are part of the state,
    because recovering one writes into the workspace of its task. */
module CleanupProtocol {
  import opened Outcomes
  import S = SandboxProtocol

  type TaskId = nat
  type Sha = nat

  datatype TaskState = Queued | Running | Succeeded | Failed | Cancelled {
    predicate Terminal() {
      Succeeded? || Failed? || Cancelled?
    }
  }

  /** `continues` says that the task is an implementation with a recorded change
      request; `hasRun` that its run history is not empty. */
  datatype Task = Task(state: TaskState, repository: string, continues: bool, hasRun: bool)

  datatype Kind = Delivery | Proposal
  datatype Backend = Worktree | Clone

  /** The recorded reason of a pending cleanup. */
  datatype Reason = OperatorConfirmed | AutomaticDelivery | OtherReason

  datatype Stage = Preparing | Ready | Retained | CleanupPending(reason: Reason) | Cleaned

  datatype Record = Record(kind: Kind, backend: Backend, repository: string, base: Sha, stage: Stage)

  /** A checked-out tree; `remoteTip` is the commit that the remote advertises for
      the tree's branch. */
  datatype Tree = Tree(dirty: bool, head: Sha, onBranch: bool, remoteTip: Option<Sha>)

  /** A workspace directory: gone, present but unknown to Git, or a checkout. */
  datatype Dir = Absent | Unregistered | Checkout(tree: Tree)

  /** What the ledger says about a workspace and what is on disk. Both survive a crash. */
  datatype Workspace = Workspace(record: Record, dir: Dir) {
    function At(stage: Stage): Workspace {
      this.(record := record.(stage := stage))
    }
  }

  type RunId = nat

  /** A sandbox that exists: its task, its recorded stage and the commit that a snapshot of
      it has. `active` says that an agent works in it or is about to be let in. */
  datatype Sandbox = Sandbox(task: TaskId, stage: S.Stage, active: bool, head: Sha)

  datatype Authority = ByOperator | ByCheck | ByProposal

  datatype Phase = Down | Idle | Removing(task: TaskId, authority: Authority) | Marking(task: TaskId)

  /** `confirmed` holds the tasks whose cleanup an operator confirmed since the
      workspace was last prepared for an agent. */
  datatype State = State(
    phase: Phase,
    tasks: map<TaskId, Task>,
    spaces: map<TaskId, Workspace>,
    confirmed: set<TaskId>,
    boxes: map<RunId, Sandbox>)

  datatype Event =
    | Crash
    | Restart
    | Abandon
    | EditWhileDown(t: TaskId, dir: Dir)
    | TaskMoves(t: TaskId, task: Task)
    | Reserve(t: TaskId, record: Record)
    | Prepare(t: TaskId, dir: Dir)
    | AgentWorks(t: TaskId, dir: Dir)
    | Retain(t: TaskId)
    | FindAbsent(t: TaskId)
    | Intend(t: TaskId, authority: Authority)
    | Resume(t: TaskId, authority: Authority)
    | Remove(t: TaskId, dir: Dir)
    | MarkCleaned(t: TaskId)
    | SandboxStarts(r: RunId, box: Sandbox)
    | SandboxMoves(r: RunId, after: Option<Sandbox>)
    | Restore(r: RunId, tree: Tree)

  /** HEAD is the base commit or the tip that was pushed. */
  predicate Published(tree: Tree, base: Sha) {
    tree.head == base || (tree.onBranch && tree.remoteTip == Some(tree.head))
  }

  /** The only situation in which a delivery may go without an operator. */
  predicate SafeToDiscard(task: Task, w: Workspace) {
    && task.state == Succeeded
    && w.dir.Checkout?
    && !w.dir.tree.dirty
    && Published(w.dir.tree, w.record.base)
  }

  predicate Owned(task: Task, record: Record, owner: string) {
    task.repository == owner && record.repository == owner
  }

  ghost predicate Known(s: State, t: TaskId) {
    t in s.tasks && t in s.spaces
  }

  function ReasonFor(authority: Authority): Reason {
    match authority
    case ByOperator => OperatorConfirmed
    case ByCheck => AutomaticDelivery
    case ByProposal => OtherReason
  }

  function Staged(s: State, t: TaskId, stage: Stage): State
    requires t in s.spaces
  {
    s.(spaces := s.spaces[t := s.spaces[t].At(stage)])
  }

  function Placed(s: State, t: TaskId, dir: Dir): State
    requires t in s.spaces
  {
    s.(spaces := s.spaces[t := s.spaces[t].(dir := dir)])
  }

  /** What an actor must have seen before it starts to remove a workspace. */
  ghost predicate Entitled(s: State, t: TaskId, authority: Authority)
    requires Known(s, t)
  {
    match authority
    case ByOperator => true
    case ByCheck => SafeToDiscard(s.tasks[t], s.spaces[t])
    case ByProposal => s.spaces[t].record.kind == Proposal
  }

  /** No cleanup of `t` is under way; other tasks may be in the middle of theirs. */
  ghost predicate Undisputed(s: State, t: TaskId) {
    s.phase.Removing? || s.phase.Marking? ==> s.phase.task != t
  }

  /** What a removal can leave: nothing, or, when it stops half-way, files that Git no
      longer knows or a checkout in which files are missing. */
  predicate MayLeave(before: Dir, after: Dir) {
    || after.Absent?
    || (after.Unregistered? && !before.Absent?)
    || (before.Checkout? && after == Checkout(before.tree.(dirty := true)))
  }

  /** How a sandbox can change: only work in it moves its commit, no agent comes back, and a
      process has to be up for its record to change or for it to go. A retained sandbox
      stays, with its record. */
  predicate MayMove(before: Sandbox, after: Option<Sandbox>, up: bool) {
    match after
    case None => up && before.stage != S.Retained
    case Some(box) =>
      && box.task == before.task
      && (box.active ==> before.active)
      && (box.head != before.head ==> before.active)
      && (box.stage != before.stage ==> up && before.stage != S.Retained)
  }

  /** `git reset --hard` to a fetched commit. Untracked files stay, so a dirty tree may
      remain dirty; interrupted, it leaves files rewritten under the old commit. */
  predicate Resets(before: Tree, head: Sha, after: Tree) {
    || (after == before.(head := head, dirty := after.dirty) && (after.dirty ==> before.dirty))
    || (after == before.(dirty := true) && before.head != head)
  }

  /** The clone of `t` can take the snapshot of sandbox `r`. */
  ghost predicate Restorable(s: State, r: RunId, t: TaskId) {
    && Known(s, t) && r in s.boxes && s.boxes[r].task == t && s.boxes[r].stage != S.Retained
    && s.tasks[t].repository == s.spaces[t].record.repository
    && s.spaces[t].dir.Checkout?
  }

  ghost predicate Next(s: State, e: Event, s': State) {
    match e
    case Crash =>
      !s.phase.Down? && s' == s.(phase := Down)
    case Restart =>
      s.phase.Down? && s' == s.(phase := Idle)
    case Abandon =>
      !s.phase.Down? && s' == s.(phase := Idle)
    case EditWhileDown(t, dir) =>
      s.phase.Down? && Known(s, t) && !s.spaces[t].dir.Absent? && s' == Placed(s, t, dir)
    case TaskMoves(t, task) =>
      && Undisputed(s, t) && (t in s.tasks ==> task.repository == s.tasks[t].repository)
      && s' == s.(tasks := s.tasks[t := task])
    case Reserve(t, record) =>
      && !s.phase.Down? && t in s.tasks && t !in s.spaces && record.stage == Preparing
      && s' == s.(spaces := s.spaces[t := Workspace(record, Absent)])
    case Prepare(t, dir) =>
      && !s.phase.Down? && Undisputed(s, t) && Known(s, t)
      && !s.tasks[t].state.Terminal() && !s.spaces[t].record.stage.Cleaned?
      && s' == Placed(Staged(s, t, Ready), t, dir).(confirmed := s.confirmed - {t})
    case AgentWorks(t, dir) =>
      && !s.phase.Down? && Undisputed(s, t) && Known(s, t)
      && s.tasks[t].state == Running && s.spaces[t].record.stage == Ready
      && s' == Placed(s, t, dir)
    case Retain(t) =>
      s.phase.Idle? && Known(s, t) && s' == Staged(s, t, Retained)
    case FindAbsent(t) =>
      s.phase.Idle? && Known(s, t) && s.spaces[t].dir.Absent? && s' == Staged(s, t, Cleaned)
    case Intend(t, authority) =>
      && s.phase.Idle? && Known(s, t) && Entitled(s, t, authority)
      && s' == Staged(s, t, CleanupPending(ReasonFor(authority))).(
                 phase := Removing(t, authority),
                 confirmed := if authority.ByOperator? then s.confirmed + {t} else s.confirmed)
    case Resume(t, authority) =>
      && s.phase.Idle? && Known(s, t) && s.spaces[t].record.stage.CleanupPending? && Entitled(s, t, authority)
      && (authority.ByProposal? || s.spaces[t].record.stage.reason == ReasonFor(authority))
      && s' == s.(phase := Removing(t, authority))
    case Remove(t, dir) =>
      && s.phase.Removing? && s.phase.task == t && Known(s, t)
      && MayLeave(s.spaces[t].dir, dir)
      && s' == Placed(s, t, dir).(phase := if dir.Absent? then Marking(t) else Idle)
    case MarkCleaned(t) =>
      && s.phase == Marking(t) && Known(s, t)
      && s' == Staged(s, t, Cleaned).(phase := Idle)
    case SandboxStarts(r, box) =>
      && !s.phase.Down? && Undisputed(s, box.task) && Known(s, box.task) && r !in s.boxes
      && s.tasks[box.task].state == Running && s.spaces[box.task].record.stage == Ready
      && s.spaces[box.task].record.backend == Clone
      && s.spaces[box.task].dir.Checkout? && box.head == s.spaces[box.task].dir.tree.head
      && box.stage == S.Creating && s' == s.(boxes := s.boxes[r := box])
    case SandboxMoves(r, after) =>
      && r in s.boxes && MayMove(s.boxes[r], after, !s.phase.Down?)
      && s' == s.(boxes := if after.Some? then s.boxes[r := after.value] else s.boxes - {r})
    case Restore(r, tree) =>
      && !s.phase.Down? && r in s.boxes && Restorable(s, r, s.boxes[r].task) && Undisputed(s, s.boxes[r].task)
      && Resets(s.spaces[s.boxes[r].task].dir.tree, s.boxes[r].head, tree)
      && s' == Placed(s, s.boxes[r].task, Checkout(tree))
  }

  // ----- The invariant -----

  ghost predicate Inv(s: State) {
    && s.spaces.Keys <= s.tasks.Keys
    && (forall r <- s.boxes :: s.boxes[r].task in s.spaces)
    && (forall t <- s.spaces :: s.spaces[t].record.stage.Cleaned? ==> s.spaces[t].dir.Absent?)
    && (forall t <- s.spaces :: s.spaces[t].record.stage == CleanupPending(OperatorConfirmed) ==> t in s.confirmed)
    && (s.phase.Removing? ==>
          && Known(s, s.phase.task)
          && s.spaces[s.phase.task].record.stage.CleanupPending?
          && Entitled(s, s.phase.task, s.phase.authority)
          && (s.phase.authority.ByOperator? ==> s.phase.task in s.confirmed))
    && (s.phase.Marking? ==> Known(s, s.phase.task) && s.spaces[s.phase.task].dir.Absent?)
  }

  predicate OfSandbox(e: Event) {
    e.SandboxStarts? || e.SandboxMoves? || e.Restore?
  }

  lemma SandboxStepKeepsInv(s: State, e: Event, s': State)
    requires Inv(s) && Next(s, e, s') && OfSandbox(e)
    ensures Inv(s')
  {
  }

  lemma WorkspaceStepKeepsInv(s: State, e: Event, s': State)
    requires Inv(s) && Next(s, e, s') && !OfSandbox(e)
    ensures Inv(s')
  {
  }

  lemma StepKeepsInv(s: State, e: Event, s': State)
    requires Inv(s) && Next(s, e, s')
    ensures Inv(s')
  {
    hide Inv, Next;
    if OfSandbox(e) {
      SandboxStepKeepsInv(s, e, s');
    } else {
      WorkspaceStepKeepsInv(s, e, s');
    }
  }

  // ----- Runs -----

  datatype Run = Run(states: seq<State>, events: seq<Event>)

  ghost predicate IsRun(run: Run) {
    && |run.states| == |run.events| + 1
    && (forall i | 0 <= i < |run.events| :: Next(run.states[i], run.events[i], run.states[i + 1]))
  }

  /** Every run starts with an empty ledger. */
  ghost predicate FromStart(run: Run) {
    && IsRun(run)
    && run.states[0].spaces == map[] && run.states[0].confirmed == {} && run.states[0].boxes == map[]
    && run.states[0].phase == Down
  }

  function Last(run: Run): State
    requires run.states != []
  {
    run.states[|run.states| - 1]
  }

  function Extend(run: Run, e: Event, s: State): Run {
    Run(run.states + [s], run.events + [e])
  }

  ghost predicate Continues(before: Run, after: Run) {
    before.states <= after.states && before.events <= after.events
  }

  lemma {:induction false} InvAlongRun(run: Run, i: nat)
    requires FromStart(run) && i < |run.states|
    ensures Inv(run.states[i])
  {
    if i > 0 {
      InvAlongRun(run, i - 1);
      StepKeepsInv(run.states[i - 1], run.events[i - 1], run.states[i]);
    }
  }

  /** An operator confirmed the cleanup of `t` before step `i`, and no agent was given
      the workspace in between. */
  ghost predicate ConfirmedBefore(run: Run, i: nat, t: TaskId)
    requires i <= |run.events|
  {
    exists j | 0 <= j < i :: run.events[j] == Intend(t, ByOperator) && UndisturbedFrom(run, j + 1, i, t)
  }

  ghost predicate UndisturbedFrom(run: Run, from: nat, to: nat, t: TaskId)
    requires to <= |run.events|
  {
    forall k | from <= k < to :: !(run.events[k].Prepare? && run.events[k].t == t)
  }

  lemma {:induction false} ConfirmationWasRecorded(run: Run, i: nat, t: TaskId)
    requires FromStart(run) && i < |run.states| && t in run.states[i].confirmed
    ensures ConfirmedBefore(run, i, t)
  {
    if i > 0 {
      var e := run.events[i - 1];
      assert Next(run.states[i - 1], e, run.states[i]);
      if e == Intend(t, ByOperator) {
        assert UndisturbedFrom(run, i, i, t);
      } else {
        ConfirmationWasRecorded(run, i - 1, t);
        var j :| 0 <= j < i - 1 && run.events[j] == Intend(t, ByOperator) && UndisturbedFrom(run, j + 1, i - 1, t);
        assert UndisturbedFrom(run, j + 1, i, t);
      }
    }
  }

  /** No delivery is ever removed on weaker grounds: in every run, with crashes and
      edits anywhere, at the moment of a removal either an operator confirmed this
      workspace earlier, or the task succeeded and the tree as it is at that very
      moment is clean with HEAD at the base or at the pushed tip. */
  lemma DeliveryRemovalIsJustified(run: Run, i: nat)
    requires FromStart(run) && i < |run.events| && run.events[i].Remove?
    ensures var s, t := run.states[i], run.events[i].t;
            && Known(s, t)
            && (s.spaces[t].record.kind == Delivery && !ConfirmedBefore(run, i, t) ==>
                  && s.tasks[t].state == Succeeded && s.spaces[t].dir.Checkout?
                  && var tree, base := s.spaces[t].dir.tree, s.spaces[t].record.base;
                     && !tree.dirty
                     && (tree.head == base || (tree.onBranch && tree.remoteTip == Some(tree.head))))
  {
    InvAlongRun(run, i);
    assert Next(run.states[i], run.events[i], run.states[i + 1]);
    if run.states[i].phase.authority.ByOperator? {
      ConfirmationWasRecorded(run, i, run.events[i].t);
    }
  }

  /** In every reachable state a workspace recorded as cleaned is gone from disk. */
  lemma CleanedMeansAbsent(run: Run, i: nat, t: TaskId)
    requires FromStart(run) && i < |run.states| && t in run.states[i].spaces
    ensures run.states[i].spaces[t].record.stage.Cleaned? ==> run.states[i].spaces[t].dir.Absent?
  {
    InvAlongRun(run, i);
  }

  /** The steps in which someone is meant to change the files of `t`. */
  predicate Edits(e: Event, t: TaskId) {
    (e.Prepare? || e.AgentWorks? || e.EditWhileDown?) && e.t == t
  }

  // ----- Reaching states -----

  lemma StepOn(run: Run, e: Event, s: State)
    requires FromStart(run) && Next(Last(run), e, s)
    ensures FromStart(Extend(run, e, s)) && Continues(run, Extend(run, e, s)) && Last(Extend(run, e, s)) == s
  {
  }

  lemma Reach(run: Run, e: Event, s: State) returns (more: Run)
    requires FromStart(run) && Next(Last(run), e, s)
    ensures FromStart(more) && more.states != [] && more == Extend(run, e, s) && Last(more) == s
  {
    hide Next;
    StepOn(run, e, s);
    more := Extend(run, e, s);
  }

  lemma NotEmpty(run: Run)
    requires FromStart(run)
    ensures run.states != []
  {
  }

  lemma EmptyRun(down: State)
    requires down == State(Down, map[], map[], {}, map[])
    ensures FromStart(Run([down], []))
  {
  }

  lemma ReachReserved(t: TaskId, task: Task, record: Record) returns (run: Run)
    requires record.stage.Preparing?
    ensures FromStart(run) && run.states != []
    ensures Last(run) == State(Idle, map[t := task], map[t := Workspace(record, Absent)], {}, map[])
  {
    hide FromStart;
    var down := State(Down, map[], map[], {}, map[]);
    run := Run([down], []);
    assert FromStart(run) by {
      EmptyRun(down);
    }
    run := Reach(run, Restart, down.(phase := Idle));
    var moved := Last(run).(tasks := map[t := task]);
    run := Reach(run, TaskMoves(t, task), moved);
    run := Reach(run, Reserve(t, record), moved.(spaces := map[t := Workspace(record, Absent)]));
  }

  /** A run in which a task runs and has its workspace prepared as `dir`. */
  lemma ReachRunning(t: TaskId, task: Task, record: Record, dir: Dir) returns (run: Run)
    requires record.stage.Preparing? && task.state == Running
    ensures FromStart(run) && run.states != []
    ensures Last(run) == State(Idle, map[t := task], map[t := Workspace(record.(stage := Ready), dir)], {}, map[])
  {
    hide FromStart;
    run := ReachReserved(t, task, record);
    var prepared := Last(run).(spaces := map[t := Workspace(record.(stage := Ready), dir)]);
    run := Reach(run, Prepare(t, dir), prepared);
  }
}
