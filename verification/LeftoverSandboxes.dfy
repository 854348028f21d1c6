/** What sandboxes that outlived their runs can still do to the workspace of their task.
    Recovery at startup writes the snapshot of each of them over the clone, whatever
    became of the task and whatever was done to the clone since. */
module LeftoverSandboxes {
  import opened Outcomes
  import opened CleanupProtocol
  import S = SandboxProtocol

  /** Nobody has released `t`: it is a delivery whose task has not succeeded and whose
      cleanup no operator confirmed. */
  ghost predicate Unreleased(s: State, t: TaskId) {
    && Known(s, t) && s.spaces[t].record.kind == Delivery
    && s.tasks[t].state != Succeeded && t !in s.confirmed
  }

  /** A leftover sandbox that recovery would write over the clone: it may still get ahead of
      the clone, or the clone has something that the snapshot does not have. */
  ghost predicate Threatens(s: State, r: RunId, t: TaskId) {
    && Restorable(s, r, t)
    && (s.boxes[r].active || s.boxes[r].head != s.spaces[t].dir.tree.head || s.spaces[t].dir.tree.dirty)
  }

  /** In every run, the only step of the supervisor that changes the files of an unreleased
      delivery is the restoration of a leftover sandbox. */
  lemma OnlyRestoresTouchUnreleased(run: Run, i: nat, t: TaskId)
    requires FromStart(run) && i < |run.events| && Unreleased(run.states[i], t) && !Edits(run.events[i], t)
    ensures t in run.states[i + 1].spaces
    ensures run.states[i + 1].spaces[t].dir != run.states[i].spaces[t].dir ==>
              && run.events[i].Restore? && Threatens(run.states[i], run.events[i].r, t)
  {
    InvAlongRun(run, i);
    assert Next(run.states[i], run.events[i], run.states[i + 1]);
  }

  /** A step that neither gives the workspace to anybody nor releases it. */
  predicate Quiet(e: Event, t: TaskId) {
    && !Edits(e, t) && e != Intend(t, ByOperator)
    && !(e.SandboxStarts? && e.box.task == t)
    && (e.TaskMoves? && e.t == t ==> e.task.state != Succeeded)
  }

  ghost predicate QuietFrom(run: Run, from: nat, t: TaskId) {
    forall i | from <= i < |run.events| :: Quiet(run.events[i], t)
  }

  lemma QuietStepKeepsFiles(s: State, e: Event, s': State, t: TaskId)
    requires Inv(s) && Next(s, e, s') && Unreleased(s, t) && Quiet(e, t)
    requires forall r :: !Threatens(s, r, t)
    ensures Unreleased(s', t) && s'.spaces[t].dir == s.spaces[t].dir
    ensures s'.tasks[t].repository == s.tasks[t].repository
    ensures s'.spaces[t].record.repository == s.spaces[t].record.repository
  {
    hide Inv;
    if e.Restore? {
      assert !Threatens(s, e.r, t);
    } else if e.Remove? {
      RemovalIsReleased(s, e, s');
    }
  }

  /** Only proposals and released deliveries are ever removed. */
  lemma RemovalIsReleased(s: State, e: Event, s': State)
    requires Inv(s) && Next(s, e, s') && e.Remove?
    ensures !Unreleased(s, e.t)
  {
  }

  /** Steps that do not start one leave the sandboxes of `t` no more dangerous. */
  lemma StepOfSandboxes(s: State, e: Event, s': State, r: RunId, t: TaskId)
    requires Next(s, e, s') && !(e.SandboxStarts? && e.box.task == t)
    requires r in s'.boxes && s'.boxes[r].task == t && s'.boxes[r].stage != S.Retained
    ensures r in s.boxes && s.boxes[r].task == t && s.boxes[r].stage != S.Retained
    ensures s.boxes[r].active || (!s'.boxes[r].active && s'.boxes[r].head == s.boxes[r].head)
  {
  }

  lemma QuietStartsNone(e: Event, t: TaskId)
    requires Quiet(e, t)
    ensures !(e.SandboxStarts? && e.box.task == t)
  {
  }

  lemma QuietStep(s: State, e: Event, s': State, t: TaskId)
    requires Inv(s) && Next(s, e, s') && Unreleased(s, t) && Quiet(e, t)
    requires forall r :: !Threatens(s, r, t)
    ensures Unreleased(s', t) && s'.spaces[t].dir == s.spaces[t].dir
    ensures forall r :: !Threatens(s', r, t)
  {
    hide Inv, Next, Quiet;
    QuietStepKeepsFiles(s, e, s', t);
    forall r
      ensures !Threatens(s', r, t)
    {
      assert !Threatens(s, r, t);
      if r in s'.boxes && s'.boxes[r].task == t && s'.boxes[r].stage != S.Retained {
        QuietStartsNone(e, t);
        StepOfSandboxes(s, e, s', r, t);
      }
    }
  }

  lemma {:induction false} QuietRun(run: Run, from: nat, i: nat, t: TaskId)
    requires FromStart(run) && from <= i < |run.states| && QuietFrom(run, from, t)
    requires Unreleased(run.states[from], t) && forall r :: !Threatens(run.states[from], r, t)
    ensures Unreleased(run.states[i], t) && run.states[i].spaces[t].dir == run.states[from].spaces[t].dir
    ensures forall r :: !Threatens(run.states[i], r, t)
  {
    hide Unreleased, Threatens, Inv, Next, Quiet;
    if from < i {
      QuietRun(run, from, i - 1, t);
      InvAlongRun(run, i - 1);
      QuietStep(run.states[i - 1], run.events[i - 1], run.states[i], t);
    }
  }

  /** Whatever the daemon is doing, it may die and start again. */
  lemma ComesUpAgain(run: Run) returns (more: Run)
    requires FromStart(run)
    ensures FromStart(more) && Continues(run, more) && Last(more) == Last(run).(phase := Idle)
    ensures forall i | |run.events| <= i < |more.events| :: more.events[i].Crash? || more.events[i].Restart?
  {
    hide FromStart;
    more := run;
    assert run.states != [] by {
      NotEmpty(run);
    }
    var s := Last(run);
    if !s.phase.Down? {
      more := Reach(run, Crash, s.(phase := Down));
    }
    more := Reach(more, Restart, s.(phase := Idle));
  }

  /** A leftover sandbox that threatens `t` is recovered at the next start: if need be its
      agent commits once more, and its snapshot replaces what the clone has. */
  lemma ThreatIsCarriedOut(run: Run, r: RunId, t: TaskId) returns (more: Run)
    requires FromStart(run) && Threatens(Last(run), r, t)
    ensures FromStart(more) && Continues(run, more) && QuietFrom(more, |run.events|, t)
    ensures RecoveryFrom(more, |run.events|)
    ensures Known(Last(more), t) && Last(more).spaces[t].dir != Last(run).spaces[t].dir
    ensures Last(run).boxes[r].active || Last(run).boxes[r].head != Last(run).spaces[t].dir.tree.head ==>
              && Last(more).spaces[t].dir.Checkout?
              && Last(more).spaces[t].dir.tree.head != Last(run).spaces[t].dir.tree.head
  {
    hide Inv;
    more := ComesUpAgain(run);
    var up := more;
    var s := Last(more);
    var tree := s.spaces[t].dir.tree;
    if s.boxes[r].head == tree.head && s.boxes[r].active {
      var box := s.boxes[r].(head := tree.head + 1);
      StepOn(more, SandboxMoves(r, Some(box)), s.(boxes := s.boxes[r := box]));
      more := Extend(more, SandboxMoves(r, Some(box)), s.(boxes := s.boxes[r := box]));
    }
    var now := Last(more);
    var reset := tree.(head := now.boxes[r].head, dirty := false);
    StepOn(more, Restore(r, reset), Placed(now, t, Checkout(reset)));
    more := Extend(more, Restore(r, reset), Placed(now, t, Checkout(reset)));
    assert forall i | 0 <= i < |up.events| :: more.events[i] == up.events[i];
    assert forall i | |run.events| <= i < |more.events| :: OfRecovery(more.events[i]);
    RecoveryIsQuiet(more, |run.events|, t);
  }

  lemma RecoveryIsQuiet(run: Run, from: nat, t: TaskId)
    requires RecoveryFrom(run, from)
    ensures QuietFrom(run, from, t)
  {
    forall i | from <= i < |run.events|
      ensures Quiet(run.events[i], t)
    {
      assert OfRecovery(run.events[i]);
    }
  }

  /** Exactly when an unreleased delivery is exposed. Without anybody editing it, being given
      it or releasing it, its files can change in some continuation if and only if a
      sandbox of one of its runs is left that is not recorded as retained and that has
      not just what the clone has. */
  lemma UnfinishedDeliverySurvivesExactlyWhen(run: Run, t: TaskId)
    requires FromStart(run) && Unreleased(Last(run), t)
    ensures (exists more ::
               && FromStart(more) && Continues(run, more) && QuietFrom(more, |run.events|, t)
               && Known(Last(more), t) && Last(more).spaces[t].dir != Last(run).spaces[t].dir)
            <==> exists r :: Threatens(Last(run), r, t)
  {
    hide Threatens, Inv;
    if exists r :: Threatens(Last(run), r, t) {
      var r :| Threatens(Last(run), r, t);
      var more := ThreatIsCarriedOut(run, r, t);
    }
    if forall r :: !Threatens(Last(run), r, t) {
      forall more | FromStart(more) && Continues(run, more) && QuietFrom(more, |run.events|, t)
                    && Known(Last(more), t)
        ensures Last(more).spaces[t].dir == Last(run).spaces[t].dir
      {
        assert more.states[|run.events|] == Last(run);
        QuietRun(more, |run.events|, |more.events|, t);
      }
    }
  }

  // ----- Work that an earlier run preserved -----

  /** What happens to a workspace while sandboxes are recovered, at any number of starts. */
  predicate OfRecovery(e: Event) {
    e.Crash? || e.Restart? || e.SandboxMoves? || e.Restore?
  }

  ghost predicate RecoveryFrom(run: Run, from: nat) {
    forall i | from <= i < |run.events| :: OfRecovery(run.events[i])
  }

  /** A leftover sandbox whose snapshot is, or may become, another commit than the clone's. */
  ghost predicate Replaces(s: State, r: RunId, t: TaskId) {
    Restorable(s, r, t) && (s.boxes[r].active || s.boxes[r].head != s.spaces[t].dir.tree.head)
  }

  lemma RecoveryStepKeepsHead(s: State, e: Event, s': State, t: TaskId)
    requires Next(s, e, s') && OfRecovery(e) && Known(s, t) && s.spaces[t].dir.Checkout?
    requires forall r :: !Replaces(s, r, t)
    ensures Known(s', t) && s'.spaces[t].dir.Checkout?
    ensures s'.spaces[t].dir.tree.head == s.spaces[t].dir.tree.head
    ensures s'.tasks == s.tasks && s'.spaces[t].record == s.spaces[t].record
  {
    if e.Restore? {
      assert !Replaces(s, e.r, t);
    }
  }

  lemma RecoveryStep(s: State, e: Event, s': State, t: TaskId)
    requires Next(s, e, s') && OfRecovery(e) && Known(s, t) && s.spaces[t].dir.Checkout?
    requires forall r :: !Replaces(s, r, t)
    ensures Known(s', t) && s'.spaces[t].dir.Checkout?
    ensures s'.spaces[t].dir.tree.head == s.spaces[t].dir.tree.head
    ensures forall r :: !Replaces(s', r, t)
  {
    hide Next;
    RecoveryStepKeepsHead(s, e, s', t);
    forall r
      ensures !Replaces(s', r, t)
    {
      assert !Replaces(s, r, t);
      if r in s'.boxes && s'.boxes[r].task == t && s'.boxes[r].stage != S.Retained {
        StepOfSandboxes(s, e, s', r, t);
      }
    }
  }

  lemma {:induction false} RecoveryKeepsHead(run: Run, from: nat, i: nat, t: TaskId)
    requires IsRun(run) && from <= i < |run.states| && RecoveryFrom(run, from)
    requires Known(run.states[from], t) && run.states[from].spaces[t].dir.Checkout?
    requires forall r :: !Replaces(run.states[from], r, t)
    ensures Known(run.states[i], t) && run.states[i].spaces[t].dir.Checkout?
    ensures run.states[i].spaces[t].dir.tree.head == run.states[from].spaces[t].dir.tree.head
    ensures forall r :: !Replaces(run.states[i], r, t)
  {
    hide Replaces, Next, OfRecovery;
    if from < i {
      RecoveryKeepsHead(run, from, i - 1, t);
      RecoveryStep(run.states[i - 1], run.events[i - 1], run.states[i], t);
    }
  }

  /** Exactly when the work at the head of a clone stays there, however often the daemon
      dies and starts again: all runs of a task share the clone, and recovery can put
      another commit there if and only if some run has left a sandbox that is not
      recorded as retained and whose snapshot is not that very commit. */
  lemma PreservedWorkStaysExactlyWhen(run: Run, t: TaskId)
    requires FromStart(run) && Known(Last(run), t) && Last(run).spaces[t].dir.Checkout?
    ensures (exists more ::
               && FromStart(more) && Continues(run, more) && RecoveryFrom(more, |run.events|)
               && Known(Last(more), t)
               && !(Last(more).spaces[t].dir.Checkout?
                    && Last(more).spaces[t].dir.tree.head == Last(run).spaces[t].dir.tree.head))
            <==> exists r :: Replaces(Last(run), r, t)
  {
    hide Inv;
    if exists r :: Replaces(Last(run), r, t) {
      var r :| Replaces(Last(run), r, t);
      var more := ThreatIsCarriedOut(run, r, t);
    }
    if forall r :: !Replaces(Last(run), r, t) {
      hide Replaces;
      forall more | FromStart(more) && Continues(run, more) && RecoveryFrom(more, |run.events|) && Known(Last(more), t)
        ensures Last(more).spaces[t].dir.Checkout?
        ensures Last(more).spaces[t].dir.tree.head == Last(run).spaces[t].dir.tree.head
      {
        assert more.states[|run.events|] == Last(run);
        RecoveryKeepsHead(more, |run.events|, |more.events|, t);
      }
    }
  }

  // ----- Runs that lose something -----

  const TASK: TaskId := 1

  function Checked(head: Sha, dirty: bool): Dir {
    Checkout(Tree(dirty, head, false, None))
  }

  /** A clone delivery of `owner`, as it is while its task is in `state`. */
  function Clones(phase: Phase, owner: string, state: TaskState, dir: Dir, boxes: map<RunId, Sandbox>): State {
    State(phase, map[TASK := Task(state, owner, false, true)],
          map[TASK := Workspace(Record(Delivery, Clone, owner, 0, Ready), dir)], {}, boxes)
  }

  lemma Start(run: Run, owner: string, dir: Dir, boxes: map<RunId, Sandbox>, r: RunId, box: Sandbox)
    returns (more: Run)
    requires FromStart(run) && r !in boxes && Last(run) == Clones(Idle, owner, Running, dir, boxes)
    requires dir.Checkout? && box.task == TASK && box.stage == S.Creating && box.head == dir.tree.head
    ensures FromStart(more) && Last(more) == Clones(Idle, owner, Running, dir, boxes[r := box])
  {
    more := Reach(run, SandboxStarts(r, box), Clones(Idle, owner, Running, dir, boxes[r := box]));
  }

  lemma Move(run: Run, owner: string, dir: Dir, boxes: map<RunId, Sandbox>, r: RunId, box: Sandbox, after: Sandbox)
    returns (more: Run)
    requires FromStart(run) && Last(run) == Clones(Idle, owner, Running, dir, boxes[r := box])
    requires MayMove(box, Some(after), true)
    ensures FromStart(more) && Last(more) == Clones(Idle, owner, Running, dir, boxes[r := after])
  {
    assert boxes[r := box][r := after] == boxes[r := after];
    more := Reach(run, SandboxMoves(r, Some(after)), Clones(Idle, owner, Running, dir, boxes[r := after]));
  }

  /** Sandbox `r` starts on the clone, its agent commits `head` and ends, the work is
      preserved, and the removal is about to begin. */
  lemma RunInSandbox(run: Run, owner: string, from: Sha, boxes: map<RunId, Sandbox>, r: RunId, head: Sha)
    returns (more: Run)
    requires FromStart(run) && Last(run) == Clones(Idle, owner, Running, Checked(from, false), boxes) && r !in boxes
    ensures FromStart(more)
    ensures Last(more)
            == Clones(Idle, owner, Running, Checked(head, false), boxes[r := Sandbox(TASK, S.Removing, false, head)])
  {
    hide FromStart, Next, Clones;
    var box := Sandbox(TASK, S.Creating, true, from);
    var created, ended := box.(stage := S.Created), Sandbox(TASK, S.Exited, false, head);
    var worked := created.(head := head);
    more := Start(run, owner, Checked(from, false), boxes, r, box);
    more := Move(more, owner, Checked(from, false), boxes, r, box, created);
    more := Move(more, owner, Checked(from, false), boxes, r, created, worked);
    more := Move(more, owner, Checked(from, false), boxes, r, worked, ended);
    more := Save(more, owner, Checked(from, false), boxes, r, ended);
    more := Move(more, owner, Checked(head, false), boxes, r, ended, ended.(stage := S.Removing));
  }

  lemma Save(run: Run, owner: string, dir: Dir, boxes: map<RunId, Sandbox>, r: RunId, box: Sandbox)
    returns (more: Run)
    requires FromStart(run) && Last(run) == Clones(Idle, owner, Running, dir, boxes[r := box])
    requires dir.Checkout? && dir == Checked(dir.tree.head, false) && box.task == TASK && box.stage != S.Retained
    ensures FromStart(more)
    ensures Last(more) == Clones(Idle, owner, Running, Checked(box.head, false), boxes[r := box])
  {
    more := Reach(run, Restore(r, Tree(false, box.head, false, None)),
                  Clones(Idle, owner, Running, Checked(box.head, false), boxes[r := box]));
  }

  lemma ReachLeftover(owner: string) returns (run: Run)
    ensures FromStart(run) && run.states != []
    ensures Last(run)
            == Clones(Idle, owner, Running, Checked(1, false), map[1 := Sandbox(TASK, S.Removing, false, 1)])
  {
    hide FromStart;
    var record := Record(Delivery, Clone, owner, 0, Preparing);
    run := ReachRunning(TASK, Task(Running, owner, false, true), record, Checked(0, false));
    run := RunInSandbox(run, owner, 0, map[], 1, 1);
    NotEmpty(run);
    assert map[][1 := Sandbox(TASK, S.Removing, false, 1)] == map[1 := Sandbox(TASK, S.Removing, false, 1)];
  }

  /** A run fails, the daemon dies before it removed the sandbox, somebody edits the clone
      while the daemon is down, and the next start resets the clone: the edit is gone
      although nobody released the delivery. */
  lemma EditIsLost(owner: string) returns (run: Run, i: nat)
    ensures FromStart(run) && i + 2 < |run.events|
    ensures run.events[i] == EditWhileDown(TASK, Checked(1, true)) && run.events[i + 2].Restore?
    ensures forall k | i < k <= i + 2 :: Unreleased(run.states[k], TASK) && !Edits(run.events[k], TASK)
    ensures run.states[i + 1].spaces[TASK].dir == Checked(1, true)
    ensures Known(Last(run), TASK) && Last(run).spaces[TASK].dir == Checked(1, false)
  {
    var boxes := map[1 := Sandbox(TASK, S.Removing, false, 1)];
    var left := ReachLeftover(owner);
    var failed := Clones(Idle, owner, Failed, Checked(1, false), boxes);
    var a := Reach(left, TaskMoves(TASK, Task(Failed, owner, false, true)), failed);
    var b := Reach(a, Crash, failed.(phase := Down));
    i := |b.events|;
    var edited := Clones(Down, owner, Failed, Checked(1, true), boxes);
    var c := Reach(b, EditWhileDown(TASK, Checked(1, true)), edited);
    var d := Reach(c, Restart, edited.(phase := Idle));
    run := Reach(d, Restore(1, Tree(false, 1, false, None)), failed);
  }

  /** A sandbox whose removal failed outlives a second run of the same task, whose work is
      preserved and whose sandbox goes; the next start puts the first run's commit back
      at the head of the clone, and no sandbox has the second one. */
  lemma OlderSandboxOverwrites(owner: string) returns (run: Run, i: nat)
    ensures FromStart(run) && i < |run.states| && Known(run.states[i], TASK)
    ensures run.states[i].spaces[TASK].dir == Checked(2, false)
    ensures forall k | i <= k < |run.events| :: OfRecovery(run.events[k])
    ensures Known(Last(run), TASK) && Last(run).spaces[TASK].dir == Checked(1, false)
    ensures forall r <- Last(run).boxes :: Last(run).boxes[r].head != 2
  {
    var leftover := Sandbox(TASK, S.Removing, false, 1);
    var left := ReachLeftover(owner);
    var again := Clones(Idle, owner, Running, Checked(0, false), map[1 := leftover]);
    var a := Reach(left, Prepare(TASK, Checked(0, false)), again);
    var b := RunInSandbox(a, owner, 0, map[1 := leftover], 2, 2);
    var second := Clones(Idle, owner, Running, Checked(2, false), map[1 := leftover]);
    var c := Reach(b, SandboxMoves(2, None), second);
    i := |c.events|;
    var d := Reach(c, Crash, second.(phase := Down));
    var e := Reach(d, Restart, second);
    run := Reach(e, Restore(1, Tree(false, 1, false, None)),
                 Clones(Idle, owner, Running, Checked(1, false), map[1 := leftover]));
  }
}
