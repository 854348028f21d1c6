/** The lifecycle of one run's sandbox: its durable record, the sandbox itself and how
    much of the agent's work has reached the host clone. The process may stop between
    any two steps; the agent inside the sandbox keeps working until something stops
    it. */
module SandboxProtocol {

  datatype Stage = Creating | Created | Exited | TimedOut | Cancelled | Errored | Recovered | Removing | Retained | Gone

  /** `removed` is the durable removal mark. */
  datatype Record = Unrecorded | Recorded(stage: Stage, removed: bool)

  /** `work` counts what the agent did inside; `running` says that it may do more. */
  datatype Box = Missing | Present(running: bool, work: nat)

  /** Where the process stands with this run. */
  datatype Point =
    | Down
    | Idle
    | Starting
    | Made
    | Unwinding
    | Launching
    | Executing
    | Finishing(outcome: Stage)
    | Broken
    | Recovering
    | Preserving
    | Keeping
    | Cleared
    | Deleting
    | Marking

  /** `host` is the amount of work that the host clone holds. */
  datatype State = State(point: Point, record: Record, box: Box, host: nat)

  datatype Event =
    | Crash
    | Restart
    | Abandon
    | AgentWorks
    | AgentEnds
    | PersistCreating
    | CreateBox(ok: bool, box: Box)
    | PersistCreated(ok: bool)
    | Unwind(box: Box)
    | Launch
    | Return(outcome: Stage)
    | Break(stopped: bool)
    | WriteOutcome
    | WriteError
    | BeginRecovery(stopped: bool)
    | RetainForeign
    | WriteRecovered
    | Preserve(ok: bool)
    | WriteRetained(stopped: bool)
    | WriteRemoving
    | DeleteBox(ok: bool, box: Box)
    | MarkRemoved(stage: Stage)
    | MarkGone

  predicate Up(s: State) {
    !s.point.Down?
  }

  function Halted(box: Box, stopped: bool): Box {
    if box.Present? && stopped then box.(running := false) else box
  }

  /** How an execution can end. */
  predicate IsOutcome(stage: Stage) {
    stage.Exited? || stage.TimedOut? || stage.Cancelled?
  }

  /** A box before any agent was let into it. */
  predicate Untouched(box: Box) {
    box.Missing? || box == Present(false, 0)
  }

  function At(s: State, stage: Stage, point: Point): State {
    s.(record := Recorded(stage, false), point := point)
  }

  ghost predicate Next(s: State, e: Event, s': State) {
    match e
    case Crash => Up(s) && s' == s.(point := Down)
    case Restart => s.point.Down? && s' == s.(point := Idle)
    case Abandon => Up(s) && s' == s.(point := Idle)
    case AgentWorks =>
      s.box.Present? && s.box.running && s' == s.(box := s.box.(work := s.box.work + 1))
    case AgentEnds =>
      s.box.Present? && s.box.running && s' == s.(box := s.box.(running := false))
    case PersistCreating =>
      s.point.Idle? && s.record.Unrecorded? && s' == At(s, Creating, Starting)
    case CreateBox(ok, box) =>
      && s.point.Starting? && Untouched(box) && (ok ==> box.Present?)
      && s' == s.(box := box, point := if ok then Made else Broken)
    case PersistCreated(ok) =>
      && s.point.Made?
      && s' == if ok then At(s, Created, Launching) else s.(point := Unwinding)
    case Unwind(box) =>
      s.point.Unwinding? && (box.Missing? || box == s.box) && s' == s.(box := box, point := Broken)
    case Launch =>
      && s.point.Launching? && s.box.Present?
      && s' == s.(box := s.box.(running := true), point := Executing)
    case Return(outcome) =>
      && s.point.Executing? && IsOutcome(outcome)
      && s' == s.(box := Halted(s.box, true), point := Finishing(outcome))
    case Break(stopped) =>
      && (s.point.Launching? || s.point.Executing?)
      && s' == s.(box := Halted(s.box, stopped), point := Broken)
    case WriteOutcome =>
      s.point.Finishing? && s.record.Recorded? && s' == At(s, s.point.outcome, Preserving)
    case WriteError =>
      && s.point.Broken? && s.record.Recorded?
      && s' == At(s, Errored, if s.record.stage == Created then Preserving else Cleared)
    case BeginRecovery(stopped) =>
      && s.point.Idle? && s.record.Recorded? && s.box.Present?
      && s' == s.(box := Halted(s.box, stopped), point := if s.record.stage == Retained then Idle else Recovering)
    case RetainForeign =>
      s.point.Idle? && s.record.Recorded? && s.box.Present? && s' == At(s, Retained, Idle)
    case WriteRecovered =>
      s.point.Recovering? && s' == At(s, Recovered, Preserving)
    case Preserve(ok) =>
      && s.point.Preserving? && (ok ==> s.box.Present?)
      && s' == if ok then s.(host := s.box.work, point := Cleared) else s.(point := Keeping)
    case WriteRetained(stopped) =>
      s.point.Keeping? && s' == At(s, Retained, Idle).(box := Halted(s.box, stopped))
    case WriteRemoving =>
      s.point.Cleared? && s' == At(s, Removing, Deleting)
    case DeleteBox(ok, box) =>
      && s.point.Deleting? && (box.Missing? || (!ok && box == s.box))
      && s' == s.(box := box, point := if ok then Marking else Idle)
    case MarkRemoved(stage) =>
      && s.point.Marking? && (IsOutcome(stage) || stage.Errored? || stage.Recovered?)
      && s' == s.(record := Recorded(stage, true), point := Idle)
    case MarkGone =>
      && s.point.Idle? && s.record == Recorded(Removing, false) && s.box.Missing?
      && s' == s.(record := Recorded(Gone, true))
  }

  const START: State := State(Idle, Unrecorded, Missing, 0)

  datatype Run = Run(states: seq<State>, events: seq<Event>)

  ghost predicate IsPath(run: Run) {
    && |run.states| == |run.events| + 1
    && (forall i | 0 <= i < |run.events| :: Next(run.states[i], run.events[i], run.states[i + 1]))
  }

  ghost predicate IsRun(run: Run) {
    IsPath(run) && run.states[0] == START
  }

  function Last(run: Run): State
    requires run.states != []
  {
    run.states[|run.states| - 1]
  }

  function Extend(run: Run, e: Event, s: State): Run {
    Run(run.states + [s], run.events + [e])
  }

  ghost predicate Continues(before: Run, after: Run) {
    before.states <= after.states && before.events <= after.events
  }

  /** Step `e` destroys a sandbox that holds work the host clone does not. */
  predicate LosesWork(s: State, e: Event) {
    (e.DeleteBox? || e.Unwind?) && e.box.Missing? && s.box.Present? && s.host < s.box.work
  }

  ghost predicate RunLosesWork(run: Run)
    requires IsPath(run)
  {
    exists i | 0 <= i < |run.events| :: LosesWork(run.states[i], run.events[i])
  }

  // ----- What holds in every run -----

  ghost predicate Inv(s: State) {
    && (s.record.Unrecorded? ==> s.box.Missing? && (s.point.Down? || s.point.Idle?))
    && (s.record.Recorded? && s.record.removed ==> s.box.Missing?)
    && (s.record.Unrecorded? || s.record.stage == Creating ==> Untouched(s.box) && s.host == 0)
    && (s.point.Starting? || s.point.Made? || s.point.Unwinding? ==> s.record == Recorded(Creating, false))
    && (s.point.Starting? ==> s.box.Missing?)
    && (s.point.Launching? || s.point.Executing? || s.point.Finishing? ==> s.record == Recorded(Created, false))
    && (s.point.Broken? ==> s.record == Recorded(Creating, false) || s.record == Recorded(Created, false))
    && (s.point.Recovering? ==> s.record.Recorded? && !s.record.removed && s.record.stage != Retained)
    && (s.point.Preserving? || s.point.Keeping? || s.point.Cleared? || s.point.Deleting? ==>
          s.record.Recorded? && !s.record.removed && s.record.stage != Creating && s.record.stage != Retained)
    && (s.point.Finishing? ==> IsOutcome(s.point.outcome) && (s.box.Present? ==> !s.box.running))
    && (s.point.Marking? ==> s.record.Recorded? && s.record.stage != Creating && s.box.Missing?)
    && (s.box.Present? ==> s.host <= s.box.work)
  }

  lemma StepKeepsInv(s: State, e: Event, s': State)
    requires Inv(s) && Next(s, e, s')
    ensures Inv(s')
  {
  }

  lemma {:induction false} InvAlongRun(run: Run, i: nat)
    requires IsRun(run) && i < |run.states|
    ensures Inv(run.states[i])
  {
    if i > 0 {
      InvAlongRun(run, i - 1);
      StepKeepsInv(run.states[i - 1], run.events[i - 1], run.states[i]);
    }
  }

  /** A removal mark means that the sandbox is gone, and an agent is let in only after
      `created` was durable. */
  lemma RecordsAgreeWithReality(run: Run, i: nat)
    requires IsRun(run) && i < |run.states|
    ensures run.states[i].record.Recorded? && run.states[i].record.removed ==> run.states[i].box.Missing?
    ensures i < |run.events| && run.events[i].Launch? ==> run.states[i].record == Recorded(Created, false)
    ensures run.states[i].box.Present? && 0 < run.states[i].box.work ==>
              run.states[i].record.Recorded? && run.states[i].record.stage != Creating
  {
    InvAlongRun(run, i);
    assert i < |run.events| ==> Next(run.states[i], run.events[i], run.states[i + 1]);
  }

  // ----- When no work is lost -----

  /** The two stops whose failure the daemon ignores on the way to a removal. */
  predicate IgnoredStop(e: Event) {
    e.Break? || e.BeginRecovery?
  }

  predicate AgentRuns(s: State) {
    s.box.Present? && s.box.running
  }

  /** Such a stop left the agent at work and the process goes on towards a removal. */
  predicate LeavesAgent(e: Event, s': State) {
    IgnoredStop(e) && !s'.point.Idle? && AgentRuns(s')
  }

  /** From step `from` on, each of those stops did halt the agent. */
  ghost predicate StopsHalt(run: Run, from: nat)
    requires |run.states| == |run.events| + 1
  {
    forall i | from <= i < |run.events| :: !LeavesAgent(run.events[i], run.states[i + 1])
  }

  predicate Saved(s: State) {
    s.box.Present? ==> !s.box.running && s.host == s.box.work
  }

  /** Between a stop and the removal no agent runs, and from the snapshot to the removal
      all work is saved. */
  ghost predicate Calm(s: State) {
    && Inv(s)
    && (s.point.Broken? || s.point.Recovering? || s.point.Preserving? || s.point.Keeping? ==> !AgentRuns(s))
    && (s.point.Cleared? || s.point.Deleting? ==> Saved(s))
  }

  /** Moreover, a record that says `removing` never covers unsaved work. */
  ghost predicate Guarded(s: State) {
    Calm(s) && (s.record.Recorded? && s.record.stage == Removing ==> Saved(s))
  }

  lemma StepKeepsCalm(s: State, e: Event, s': State)
    requires Calm(s) && Next(s, e, s') && !LeavesAgent(e, s')
    ensures Calm(s') && !LosesWork(s, e)
    ensures Guarded(s) ==> Guarded(s')
  {
    hide Inv;
    assert Inv(s') by {
      StepKeepsInv(s, e, s');
    }
    InvFacts(s);
  }

  /** Whatever stood before it, an ignored stop that halts the agent leaves a calm state. */
  lemma HaltCalms(s: State, e: Event, s': State)
    requires Inv(s) && Next(s, e, s') && IgnoredStop(e) && !AgentRuns(s')
    ensures Calm(s')
  {
    StepKeepsInv(s, e, s');
  }

  lemma InvFacts(s: State)
    requires Inv(s)
    ensures s.record.Unrecorded? || s.record.stage == Creating ==> Untouched(s.box) && s.host == 0
    ensures s.point.Broken? ==> s.record == Recorded(Creating, false) || s.record == Recorded(Created, false)
    ensures s.point.Starting? || s.point.Made? || s.point.Unwinding? ==> s.record == Recorded(Creating, false)
    ensures s.point.Launching? || s.point.Executing? || s.point.Finishing? ==> s.record == Recorded(Created, false)
    ensures s.point.Finishing? ==> IsOutcome(s.point.outcome) && (s.box.Present? ==> !s.box.running)
  {
  }

  lemma {:induction false} CalmAlongRun(run: Run, from: nat, i: nat)
    requires IsPath(run) && from <= i < |run.states| && Calm(run.states[from]) && StopsHalt(run, from)
    ensures Calm(run.states[i])
    ensures Guarded(run.states[from]) ==> Guarded(run.states[i])
    ensures forall k | from <= k < i :: !LosesWork(run.states[k], run.events[k])
  {
    hide Calm, Guarded, LosesWork, Next, LeavesAgent;
    if from < i {
      CalmAlongRun(run, from, i - 1);
      StepKeepsCalm(run.states[i - 1], run.events[i - 1], run.states[i]);
    }
  }

  /** Over every run with crashes anywhere: while the stops whose failure is ignored do
      halt the agent, no sandbox is removed before all its work reached the host clone,
      and a record that says `removing` covers no unsaved work. */
  lemma WorkIsNeverLost(run: Run, i: nat)
    requires IsRun(run) && StopsHalt(run, 0) && i < |run.states|
    ensures !RunLosesWork(run)
    ensures run.states[i].record.Recorded? && run.states[i].record.stage == Removing ==> Saved(run.states[i])
  {
    CalmAlongRun(run, 0, |run.events|);
    CalmAlongRun(run, 0, i);
  }

  lemma OneMore(run: Run, e: Event, s: State, from: nat)
    requires IsRun(run) && Next(Last(run), e, s)
    requires StopsHalt(run, from) && !LeavesAgent(e, s)
    ensures var more := Extend(run, e, s);
            IsRun(more) && Continues(run, more) && StopsHalt(more, from) && Last(more) == s
  {
  }

  /** An agent that is still at work after the snapshot loses what it does next. */
  lemma LateWorkIsLost(run: Run, from: nat) returns (more: Run)
    requires IsRun(run) && AgentRuns(Last(run)) && Last(run).point.Preserving? && StopsHalt(run, from)
    ensures IsRun(more) && Continues(run, more) && StopsHalt(more, from) && RunLosesWork(more)
  {
    var s := Last(run);
    var saved := s.(host := s.box.work, point := Cleared);
    var worked := saved.(box := s.box.(work := s.box.work + 1));
    var intended := At(worked, Removing, Deleting);
    OneMore(run, Preserve(true), saved, from);
    more := Extend(run, Preserve(true), saved);
    OneMore(more, AgentWorks, worked, from);
    more := Extend(more, AgentWorks, worked);
    OneMore(more, WriteRemoving, intended, from);
    more := Extend(more, WriteRemoving, intended);
    var lossy := intended.(box := Missing, point := Marking);
    OneMore(more, DeleteBox(true, Missing), lossy, from);
    more := Extend(more, DeleteBox(true, Missing), lossy);
    assert LosesWork(more.states[|more.events| - 1], more.events[|more.events| - 1]);
  }

  /** The continuation in which an agent that survived its stop works between the
      snapshot and the removal. */
  lemma SurvivorLosesWork(run: Run) returns (more: Run)
    requires IsRun(run) && AgentRuns(Last(run))
    requires Last(run).point.Recovering? || (Last(run).point.Broken? && Last(run).record == Recorded(Created, false))
    ensures IsRun(more) && Continues(run, more) && RunLosesWork(more) && StopsHalt(more, |run.events|)
  {
    var recovering := Last(run).point.Recovering?;
    var e := if recovering then WriteRecovered else WriteError;
    var next := At(Last(run), if recovering then Recovered else Errored, Preserving);
    OneMore(run, e, next, |run.events|);
    more := LateWorkIsLost(Extend(run, e, next), |run.events|);
  }

  lemma StepOn(run: Run, e: Event, s: State)
    requires IsRun(run) && Next(Last(run), e, s)
    ensures IsRun(Extend(run, e, s)) && Last(Extend(run, e, s)) == s
  {
  }

  /** The condition is needed: the daemon dies while the agent works, recovery fails to
      stop the sandbox, and what the agent does after the snapshot goes with it. */
  lemma WorkCanBeLost() returns (run: Run)
    ensures IsRun(run) && RunLosesWork(run)
  {
    var created := State(Launching, Recorded(Created, false), Present(false, 0), 0);
    var working := created.(point := Executing, box := Present(true, 0));
    run := Run([START], []);
    StepOn(run, PersistCreating, At(START, Creating, Starting));
    run := Extend(run, PersistCreating, At(START, Creating, Starting));
    var made := Last(run).(box := Present(false, 0), point := Made);
    StepOn(run, CreateBox(true, Present(false, 0)), made);
    run := Extend(run, CreateBox(true, Present(false, 0)), made);
    StepOn(run, PersistCreated(true), created);
    run := Extend(run, PersistCreated(true), created);
    StepOn(run, Launch, working);
    run := Extend(run, Launch, working);
    StepOn(run, Crash, working.(point := Down));
    run := Extend(run, Crash, working.(point := Down));
    StepOn(run, Restart, working.(point := Idle));
    run := Extend(run, Restart, working.(point := Idle));
    StepOn(run, BeginRecovery(false), working.(point := Recovering));
    run := Extend(run, BeginRecovery(false), working.(point := Recovering));
    run := SurvivorLosesWork(run);
  }

  /** Exactly when an ignored stop is safe. Take any run that has lost nothing so far,
      whatever its earlier stops did, and has just made such a stop on the way to a
      removal: no continuation whose later stops halt can lose work if and only if this
      stop halted the agent. */
  lemma SafeExactlyWhenTheStopHalts(run: Run)
    requires IsRun(run) && run.events != [] && IgnoredStop(run.events[|run.events| - 1])
    requires !Last(run).point.Idle? && !RunLosesWork(run)
    ensures (forall more: Run :: IsRun(more) && Continues(run, more) && StopsHalt(more, |run.events|) ==>
        !RunLosesWork(more))
            <==> !AgentRuns(Last(run))
  {
    var n := |run.events|;
    InvAlongRun(run, n - 1);
    assert Next(run.states[n - 1], run.events[n - 1], run.states[n]);
    if AgentRuns(Last(run)) {
      var more := SurvivorLosesWork(run);
    } else {
      HaltCalms(run.states[n - 1], run.events[n - 1], run.states[n]);
      forall more: Run | IsRun(more) && Continues(run, more) && StopsHalt(more, n)
        ensures !RunLosesWork(more)
      {
        CalmAlongRun(more, n, |more.events|);
        forall i | 0 <= i < |more.events|
          ensures !LosesWork(more.states[i], more.events[i])
        {
          assert i < n ==> more.states[i] == run.states[i] && more.events[i] == run.events[i];
        }
      }
    }
  }
}
