/** Execution and recovery of one run's sandbox, as ordered durable writes and external
    effects. Each of them may fail or stop the process, and each is recorded as a step
    of `SandboxProtocol`. */
module SandboxCleanup {
  import opened Outcomes
  import opened SandboxProtocol

  /** How `SandboxWorker::run` ends. */
  datatype RunResult = Returned(outcome: Stage) | Unstarted | Broke | Stopped

  /** What the wait for the agent sees first. */
  datatype Ending = AgentIsDone | DeadlineIsOver | CancellationIsAsked

  /** The outcome under which an ending is recorded. */
  predicate Reported(ending: Ending, outcome: Stage) {
    && (outcome.Exited? <==> ending.AgentIsDone?)
    && (outcome.TimedOut? <==> ending.DeadlineIsOver?)
    && (outcome.Cancelled? <==> ending.CancellationIsAsked?)
  }

  class SandboxRun {
    var record: Record
    var box: Box
    var host: nat

    ghost var point: Point
    ghost var run: Run

    ghost function Now(): State
      reads this
    {
      State(point, record, box, host)
    }

    ghost predicate Valid()
      reads this
    {
      IsRun(run) && Last(run) == Now() && Inv(Now())
    }

    /** What every action keeps. With `halts`, a stop whose failure the code ignores
        does halt the agent. */
    twostate predicate Kept(crashed: bool, halts: bool)
      reads this
    {
      && Valid() && Continues(old(run), run)
      && (crashed <==> point.Down?)
      && (halts && old(Valid() && StopsHalt(run, 0)) ==> StopsHalt(run, 0))
    }

    constructor ()
      ensures Valid() && Now() == START && run == Run([START], [])
    {
      record, box, host := Unrecorded, Missing, 0;
      point := Idle;
      run := Run([START], []);
    }

    ghost method Advance(before: State, e: Event)
      requires IsRun(run) && Last(run) == before && Inv(before) && Next(before, e, Now())
      modifies `run
      ensures Valid() && run == Extend(old(run), e, Now())
      ensures old(StopsHalt(run, 0)) && !LeavesAgent(e, Now()) ==> StopsHalt(run, 0)
    {
      StepKeepsInv(before, e, Now());
      run := Extend(run, e, Now());
    }

    // ----- Single actions -----

    /** Decides whether an action happens: the process may stop here, or the action may
        report an error. */
    method Attempt(faults: bool) returns (r: Outcome<()>)
      requires Valid() && Up(Now())
      modifies `point, `run
      ensures Kept(r.Crashed?, true)
      ensures !r.Crashed? ==> point == old(point) && run == old(run)
      ensures !r.Done? ==> faults
    {
      hide Inv, IsRun, StopsHalt;
      var crash: bool, fail: bool := *, *;
      if faults && crash {
        ghost var before := Now();
        point := Down;
        Advance(before, Crash);
        return Crashed;
      }
      return if faults && fail then Error else Done(());
    }

    ghost method GiveUp()
      requires Valid() && Up(Now())
      modifies `point, `run
      ensures Kept(false, true) && point.Idle?
    {
      var before := Now();
      point := Idle;
      Advance(before, Abandon);
    }

    /** One durable write; a failed one ends the operation. */
    method Write(written: Record, faults: bool, ghost e: Event, ghost after: State) returns (r: Outcome<()>)
      requires Valid() && Up(Now()) && Up(after) && !IgnoredStop(e)
      requires after.record == written && after.box == box && after.host == host && Next(Now(), e, after)
      modifies this
      ensures Kept(r.Crashed?, true) && box == old(box) && host == old(host)
      ensures r.Done? ==> Now() == after
      ensures !r.Done? ==> faults && record == old(record)
      ensures r.Error? ==> point.Idle?
    {
      hide Inv, IsRun, StopsHalt;
      r := Attempt(faults);
      if r.Error? {
        GiveUp();
      } else if r.Done? {
        ghost var before := Now();
        record := written;
        point := after.point;
        Advance(before, e);
      }
    }

    /** One effect on the sandbox or the host clone, with the result the environment
        chose. */
    method Effect(b: Box, h: nat, ghost e: Event, ghost after: State)
      requires Valid() && Up(after) && Next(Now(), e, after)
      requires after.record == record && after.box == b && after.host == h
      modifies this
      ensures Kept(false, !LeavesAgent(e, after)) && Now() == after
    {
      hide Inv, IsRun, StopsHalt;
      ghost var before := Now();
      box, host := b, h;
      point := after.point;
      Advance(before, e);
    }

    /** The agent does any amount of work and perhaps ends by itself. */
    method AgentActs()
      requires Valid() && Up(Now()) && AgentRuns(Now())
      modifies this
      ensures Kept(false, true) && point == old(point) && record == old(record) && host == old(host)
      ensures box.Present? && old(box).work <= box.work
    {
      hide Inv, IsRun, StopsHalt;
      var rounds: nat, ends: bool := *, *;
      for i := 0 to rounds
        invariant Kept(false, true) && point == old(point) && record == old(record) && host == old(host)
        invariant AgentRuns(Now()) && old(box).work <= box.work
      {
        var b := box.(work := box.work + 1);
        Effect(b, host, AgentWorks, Now().(box := b));
      }
      if ends {
        var b := box.(running := false);
        Effect(b, host, AgentEnds, Now().(box := b));
      }
    }

    method AgentMayAct()
      requires Valid() && Up(Now())
      modifies this
      ensures Kept(false, true) && point == old(point) && record == old(record) && host == old(host)
      ensures box.Present? <==> old(box).Present?
      ensures !old(AgentRuns(Now())) ==> box == old(box)
      ensures box.Present? ==> old(box).work <= box.work
    {
      hide Inv, IsRun, StopsHalt;
      if box.Present? && box.running {
        AgentActs();
      }
    }

    // ----- Execution -----

    /** Persist `creating`, create, persist `created`, execute. */
    method RunSandbox(ending: Ending, halts: bool, faults: bool) returns (r: RunResult)
      requires Valid() && point.Idle? && record.Unrecorded? && box.Missing?
      modifies this
      ensures Kept(r.Stopped?, halts)
      ensures r.Returned? ==> Reported(ending, r.outcome)
      ensures r.Returned? ==> IsOutcome(r.outcome) && point == Finishing(r.outcome) && record.Recorded? && box.Present?
      ensures r.Unstarted? ==> point.Idle? && record.Unrecorded? && box.Missing?
      ensures r.Broke? ==> point.Broken? && record.Recorded? && (record.stage == Created ==> box.Present?)
      ensures !faults ==> r.Returned?
    {
      hide Inv, IsRun, StopsHalt;
      var version := Attempt(faults);
      if !version.Done? {
        return if version.Crashed? then Stopped else Unstarted;
      }
      var creating := Write(Recorded(Creating, false), faults, PersistCreating, At(Now(), Creating, Starting));
      if !creating.Done? {
        return if creating.Crashed? then Stopped else Unstarted;
      }
      var created := Attempt(faults);
      if created.Crashed? {
        return Stopped;
      }
      if created.Error? {
        var leftover: bool := *;
        var b := if leftover then Present(false, 0) else Missing;
        Effect(b, host, CreateBox(false, b), Now().(box := b, point := Broken));
        return Broke;
      }
      Effect(Present(false, 0), host, CreateBox(true, Present(false, 0)),
          Now().(box := Present(false, 0), point := Made));
      r := PersistAndExecute(ending, halts, faults);
    }

    method PersistAndExecute(ending: Ending, halts: bool, faults: bool) returns (r: RunResult)
      requires Valid() && point.Made? && record == Recorded(Creating, false) && box == Present(false, 0)
      modifies this
      ensures Kept(r.Stopped?, halts)
      ensures r.Returned? ==> Reported(ending, r.outcome)
      ensures r.Returned? ==> IsOutcome(r.outcome) && point == Finishing(r.outcome) && record.Recorded? && box.Present?
      ensures r.Broke? ==> point.Broken? && record.Recorded? && (record.stage == Created ==> box.Present?)
      ensures !r.Unstarted? && (!faults ==> r.Returned?)
    {
      hide Inv, IsRun, StopsHalt;
      var persisted := Attempt(faults);
      if persisted.Crashed? {
        return Stopped;
      }
      ghost var before := Now();
      if persisted.Error? {
        Effect(box, host, PersistCreated(false), before.(point := Unwinding));
        var gone: bool := *;
        var b := if gone then Missing else box;
        Effect(b, host, Unwind(b), Now().(box := b, point := Broken));
        return Broke;
      }
      record := Recorded(Created, false);
      point := Launching;
      Advance(before, PersistCreated(true));
      r := Execute(ending, halts, faults);
    }

    method Execute(ending: Ending, halts: bool, faults: bool) returns (r: RunResult)
      requires Valid() && point.Launching? && record == Recorded(Created, false) && box == Present(false, 0)
      modifies this
      ensures Kept(r.Stopped?, halts) && record == old(record)
      ensures r.Returned? ==> Reported(ending, r.outcome)
      ensures r.Returned? ==> IsOutcome(r.outcome) && point == Finishing(r.outcome) && box.Present?
      ensures r.Broke? ==> point.Broken? && box.Present?
      ensures !r.Unstarted? && (!faults ==> r.Returned?)
    {
      hide Inv, IsRun, StopsHalt;
      var stopped: bool := *;
      var spawned := Attempt(faults);
      if spawned.Crashed? {
        return Stopped;
      }
      if spawned.Error? {
        Effect(Halted(box, stopped), host, Break(stopped), Now().(box := Halted(box, stopped), point := Broken));
        return Broke;
      }
      var started := box.(running := true);
      Effect(started, host, Launch, Now().(box := started, point := Executing));
      AgentActs();
      var waited := Attempt(faults);
      if waited.Crashed? {
        return Stopped;
      }
      if waited.Error? {
        var b := Halted(box, halts || stopped);
        Effect(b, host, Break(halts || stopped), Now().(box := b, point := Broken));
        return Broke;
      }
      var outcome :=
        match ending
        case AgentIsDone => Exited
        case DeadlineIsOver => TimedOut
        case CancellationIsAsked => Cancelled;
      var b := Halted(box, true);
      Effect(b, host, Return(outcome), Now().(box := b, point := Finishing(outcome)));
      return Returned(outcome);
    }

    // ----- Preservation and removal -----

    /** Snapshot and fetch the work; when that fails the sandbox is stopped and retained. */
    method PreserveOrRetain(faults: bool) returns (r: Outcome<bool>)
      requires Valid() && point.Preserving? && box.Present?
      modifies this
      ensures Kept(r.Crashed?, true) && box.Present?
      ensures r == Done(true) ==> point.Cleared? && host == old(box).work && box == old(box) && record == old(record)
      ensures r == Done(false) ==> faults && point.Idle? && record == Recorded(Retained, false)
      ensures r.Error? ==> point.Idle?
      ensures !r.Done? ==> faults
    {
      hide Inv, IsRun, StopsHalt;
      var preserved := Attempt(faults);
      if preserved.Crashed? {
        return Crashed;
      }
      if preserved.Done? {
        Effect(box, box.work, Preserve(true), Now().(host := box.work, point := Cleared));
        return Done(true);
      }
      Effect(box, host, Preserve(false), Now().(point := Keeping));
      var stopped: bool := *;
      var written := Attempt(faults);
      if written.Crashed? {
        return Crashed;
      }
      if written.Error? {
        GiveUp();
        return Error;
      }
      ghost var before := Now();
      record, box, point := Recorded(Retained, false), Halted(box, stopped), Idle;
      Advance(before, WriteRetained(stopped));
      return Done(false);
    }

    /** Persist `removing`, remove, persist the removal mark. */
    method RemoveBox(stage: Stage, faults: bool) returns (r: Outcome<()>)
      requires Valid() && point.Cleared? && (IsOutcome(stage) || stage.Errored? || stage.Recovered?)
      modifies this
      ensures Kept(r.Crashed?, true) && host == old(host)
      ensures r.Done? ==> point.Idle? && record == Recorded(stage, true) && box.Missing?
      ensures r.Error? ==> point.Idle?
      ensures !r.Done? ==> faults
    {
      hide Inv, IsRun, StopsHalt;
      AgentMayAct();
      var _ :- Write(Recorded(Removing, false), faults, WriteRemoving, At(Now(), Removing, Deleting));
      AgentMayAct();
      r := DeleteAndMark(stage, faults);
    }

    method DeleteAndMark(stage: Stage, faults: bool) returns (r: Outcome<()>)
      requires Valid() && point.Deleting? && (IsOutcome(stage) || stage.Errored? || stage.Recovered?)
      modifies this
      ensures Kept(r.Crashed?, true) && host == old(host)
      ensures r.Done? ==> point.Idle? && record == Recorded(stage, true) && box.Missing?
      ensures r.Error? ==> point.Idle?
      ensures !r.Done? ==> faults
    {
      hide Inv, IsRun, StopsHalt;
      var deleted := Attempt(faults);
      if deleted.Crashed? {
        return Crashed;
      }
      if deleted.Error? {
        var gone: bool := *;
        var b := if gone then Missing else box;
        Effect(b, host, DeleteBox(false, b), Now().(box := b, point := Idle));
        return Error;
      }
      Effect(Missing, host, DeleteBox(true, Missing), Now().(box := Missing, point := Marking));
      r := Mark(stage, faults);
    }

    method Mark(stage: Stage, faults: bool) returns (r: Outcome<()>)
      requires Valid() && point.Marking? && (IsOutcome(stage) || stage.Errored? || stage.Recovered?)
      modifies this
      ensures Kept(r.Crashed?, true) && host == old(host) && box == old(box)
      ensures r.Done? ==> point.Idle? && record == Recorded(stage, true)
      ensures r.Error? ==> point.Idle?
      ensures !r.Done? ==> faults
    {
      hide Inv, IsRun, StopsHalt;
      r := Write(Recorded(stage, true), faults, MarkRemoved(stage),
          Now().(record := Recorded(stage, true), point := Idle));
    }

    // ----- The two operations -----

    method ExecuteSandboxTask(ending: Ending, halts: bool, faults: bool) returns (r: Outcome<()>)
      requires Valid() && point.Idle? && record.Unrecorded? && box.Missing?
      modifies this
      ensures Kept(r.Crashed?, halts)
      ensures !r.Crashed? ==> point.Idle?
      ensures !faults ==> r.Done?
      ensures r.Done? ==> record.Recorded? && Reported(ending, record.stage) && record.removed && box.Missing?
    {
      hide Inv, IsRun, StopsHalt;
      var execution := RunSandbox(ending, halts, faults);
      match execution
      case Stopped => return Crashed;
      case Unstarted => return Error;
      case Broke => r := CleanUpBroken(faults);
      case Returned(outcome) =>
        var _ :- Write(Recorded(outcome, false), faults, WriteOutcome, At(Now(), outcome, Preserving));
        var preserved :- PreserveOrRetain(faults);
        if !preserved {
          return Error;
        }
        var recorded := Attempt(faults);
        if recorded.Error? {
          GiveUp();
        }
        var _ :- recorded;
        r := RemoveBox(outcome, faults);
    }

    /** The error branch of execution, which fails the run in any case. Once `created` was
        recorded, the sandbox goes only after the work it held when execution broke is in
        the host clone; before that there is nothing to preserve and the clone stays. */
    method CleanUpBroken(faults: bool) returns (r: Outcome<()>)
      requires Valid() && point.Broken? && record.Recorded? && (record.stage == Created ==> box.Present?)
      modifies this
      ensures Kept(r.Crashed?, true)
      ensures !r.Done? && (r.Error? ==> point.Idle?)
      ensures old(record).stage == Created && box.Missing? ==> old(box).work <= host
      ensures old(record).stage != Created ==> host == old(host)
      ensures !faults ==> record == Recorded(Errored, true) && box.Missing?
    {
      hide Inv, IsRun, StopsHalt;
      AgentMayAct();
      var created := record.stage == Created;
      var _ :- Write(Recorded(Errored, false), faults, WriteError,
          At(Now(), Errored, if created then Preserving else Cleared));
      if created {
        var preserved :- PreserveOrRetain(faults);
        if !preserved {
          return Error;
        }
      }
      var removed := RemoveBox(Errored, faults);
      return if removed.Crashed? then Crashed else Error;
    }

    /** One sandbox in startup recovery. A faultless pass, from whatever point the process
        had stopped at, ends with the sandbox gone and marked or with it retained. */
    method RecoverSandbox(resolved: bool, halts: bool, faults: bool) returns (r: Outcome<()>)
      requires Valid() && point.Idle?
      modifies this
      ensures Kept(r.Crashed?, halts)
      ensures !r.Crashed? ==> point.Idle?
      ensures !faults ==> r.Done?
      ensures r.Done? && old(box).Missing? ==>
                && box.Missing? && host == old(host)
                && record == if old(record) == Recorded(Removing, false) then Recorded(Gone, true) else old(record)
      ensures r.Done? && old(box).Present? && !resolved ==> box == old(box) && record == Recorded(Retained, false)
      ensures r.Done? && old(box).Present? && resolved ==>
                if old(record).stage == Retained then record == old(record) && box.Present?
                else || (record == Recorded(Recovered, true) && box.Missing?)
                     || (faults && record == Recorded(Retained, false) && box.Present?)
    {
      RecordOfPresent(Now());
      hide Inv, IsRun, StopsHalt;
      if box.Missing? {
        if record == Recorded(Removing, false) {
          r := Write(Recorded(Gone, true), faults, MarkGone, Now().(record := Recorded(Gone, true)));
          return;
        }
        return Done(());
      }
      if !resolved {
        r := Write(Recorded(Retained, false), faults, RetainForeign, At(Now(), Retained, Idle));
        return;
      }
      var stopped: bool := *;
      var wasRetained := record.stage == Retained;
      var b := Halted(box, halts || stopped);
      Effect(b, host, BeginRecovery(halts || stopped),
          Now().(box := b, point := if wasRetained then Idle else Recovering));
      if wasRetained {
        return Done(());
      }
      r := PreserveRecovered(faults);
    }

    /** The rest of recovery, once the stop was tried: record, preserve, remove. */
    method PreserveRecovered(faults: bool) returns (r: Outcome<()>)
      requires Valid() && point.Recovering? && box.Present?
      modifies this
      ensures Kept(r.Crashed?, true)
      ensures !r.Crashed? ==> point.Idle?
      ensures !faults ==> r.Done?
      ensures r.Done? ==>
                || (record == Recorded(Recovered, true) && box.Missing?)
                || (faults && record == Recorded(Retained, false) && box.Present?)
    {
      hide Inv, IsRun, StopsHalt;
      AgentMayAct();
      var observed := Attempt(faults);
      if observed.Error? {
        GiveUp();
      }
      var _ :- observed;
      var _ :- Write(Recorded(Recovered, false), faults, WriteRecovered, At(Now(), Recovered, Preserving));
      var preserved :- PreserveOrRetain(faults);
      if !preserved {
        return Done(());
      }
      r := RemoveBox(Recovered, faults);
    }
  }

  lemma RecordOfPresent(s: State)
    requires Inv(s)
    ensures s.box.Present? ==> s.record.Recorded? && !s.record.removed
  {
  }
}
