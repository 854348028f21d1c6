/** The sandboxes of all runs in the workspaces that they share: every interleaving of
    `SandboxProtocol` runs with the rest of the daemon is a run of `CleanupProtocol`, and
    the host clone of the former is the directory of the latter. */
module SharedWorkspace {
  import opened Outcomes
  import opened CleanupProtocol
  import S = SandboxProtocol

  /** The names of the snapshots: the commit after so much work in the sandbox of a run. */
  type Commits = (RunId, nat) -> Sha

  /** What the workspace lifecycle sees of a run's sandbox. */
  function View(s: S.State, r: RunId, t: TaskId, commit: Commits): Option<Sandbox> {
    if s.box.Missing? || s.record.Unrecorded? then None
    else Some(Sandbox(t, s.record.stage, s.box.running || s.point.Made? || s.point.Launching?, commit(r, s.box.work)))
  }

  lemma StepIsSeen(s: S.State, e: S.Event, s': S.State, r: RunId, t: TaskId, commit: Commits)
    requires S.Inv(s) && S.Next(s, e, s')
    ensures View(s, r, t, commit).None? && View(s', r, t, commit).Some? ==>
              && e.CreateBox? && View(s', r, t, commit).value.stage == S.Creating
              && View(s', r, t, commit).value.head == commit(r, 0)
    ensures View(s, r, t, commit).Some? ==>
              MayMove(View(s, r, t, commit).value, View(s', r, t, commit), S.Up(s))
  {
  }

  /** The host clone is written only by a preservation, which needs a sandbox that is
      present and not recorded as retained, and puts its snapshot there. */
  lemma HostIsWrittenByPreserve(s: S.State, e: S.Event, s': S.State, r: RunId, t: TaskId, commit: Commits)
    requires S.Inv(s) && S.Next(s, e, s')
    ensures s'.host != s.host ==> e == S.Preserve(true)
    ensures e == S.Preserve(true) ==>
              && View(s, r, t, commit).Some? && View(s, r, t, commit).value.stage != S.Retained
              && View(s', r, t, commit) == View(s, r, t, commit)
              && commit(r, s'.host) == View(s, r, t, commit).value.head
  {
  }

  lemma DownOnlyByCrash(s: S.State, e: S.Event, s': S.State)
    requires S.Next(s, e, s') && !e.Crash? && !e.Restart?
    ensures s'.point.Down? <==> s.point.Down?
    ensures e.CreateBox? || e == S.Preserve(true) ==> S.Up(s)
  {
  }

  /** The workspace state `c` shows run `r` of `t` as it is. */
  ghost predicate Shows(c: State, r: RunId, t: TaskId, s: S.State, commit: Commits) {
    && (c.phase.Down? <==> s.point.Down?)
    && (match View(s, r, t, commit)
        case None => r !in c.boxes
        case Some(box) => r in c.boxes && c.boxes[r] == box)
  }

  /** The clone of `t` is there for sandboxes of its runs. */
  ghost predicate Serves(c: State, t: TaskId) {
    && Known(c, t) && Undisputed(c, t) && c.spaces[t].dir.Checkout?
    && c.tasks[t].repository == c.spaces[t].record.repository
  }

  /** What a sandbox is made from, and what a preservation writes to, has to be there. */
  ghost predicate Admits(c: State, r: RunId, t: TaskId, e: S.Event, commit: Commits) {
    && (e == S.Preserve(true) ==> Serves(c, t))
    && (e.CreateBox? ==>
          && Serves(c, t) && c.tasks[t].state == Running && c.spaces[t].record.stage == Ready
          && c.spaces[t].record.backend == Clone && c.spaces[t].dir.tree.head == commit(r, 0))
  }

  /** The workspace after a step of run `r` that leaves its sandbox as `after`: a
      preservation resets the clone, anything else shows in the sandbox alone. */
  ghost function Seen(c: State, r: RunId, t: TaskId, after: Option<Sandbox>, e: S.Event, untracked: bool): State
    requires e == S.Preserve(true) ==> Serves(c, t) && after.Some?
  {
    if e == S.Preserve(true) then
      var tree := c.spaces[t].dir.tree;
      Placed(c, t, Checkout(tree.(head := after.value.head, dirty := tree.dirty && untracked)))
    else
      c.(boxes := if after.Some? then c.boxes[r := after.value] else c.boxes - {r})
  }

  /** One run's step in the shared workspace. A preservation moves the clone's head to the
      snapshot; no other step changes a directory, and none another run's sandbox. */
  lemma SandboxStepIsWorkspaceStep(
    c: State, r: RunId, t: TaskId, s: S.State, e: S.Event, s': S.State, untracked: bool, commit: Commits)
    returns (f: Event, c': State)
    requires S.Inv(s) && S.Next(s, e, s') && Shows(c, r, t, s, commit) && !e.Crash? && !e.Restart?
    requires Admits(c, r, t, e, commit)
    ensures e == S.Preserve(true) ==> View(s', r, t, commit).Some?
    ensures c' == Seen(c, r, t, View(s', r, t, commit), e, untracked)
    ensures c' == c || Next(c, f, c')
    ensures Shows(c', r, t, s', commit) && c'.boxes - {r} == c.boxes - {r}
    ensures c'.phase == c.phase && c'.tasks == c.tasks && c'.confirmed == c.confirmed
    ensures e == S.Preserve(true) ==>
              && f.Restore? && c'.spaces[t].dir.Checkout? && c'.spaces[t].dir.tree.head == commit(r, s'.host)
              && c' == Placed(c, t, c'.spaces[t].dir)
    ensures e != S.Preserve(true) ==> c'.spaces == c.spaces
  {
    hide S.Inv, S.Next;
    StepIsSeen(s, e, s', r, t, commit);
    HostIsWrittenByPreserve(s, e, s', r, t, commit);
    DownOnlyByCrash(s, e, s');
    var before, after := View(s, r, t, commit), View(s', r, t, commit);
    c' := Seen(c, r, t, after, e, untracked);
    if e == S.Preserve(true) {
      f := Restore(r, c'.spaces[t].dir.tree);
    } else if before.Some? {
      f := SandboxMoves(r, after);
    } else if after.Some? {
      f := SandboxStarts(r, after.value);
    } else {
      f := Crash;
      assert c.boxes - {r} == c.boxes;
    }
  }

  // ----- Whole runs -----

  datatype Local = Local(task: TaskId, state: S.State)

  /** The workspaces, and where every run stands with its sandbox. */
  datatype Whole = Whole(c: State, runs: map<RunId, Local>)

  datatype Act =
    | NewRun(r: RunId, t: TaskId)
    | Inside(r: RunId, e: S.Event, untracked: bool)
    | CrashAll
    | RestartAll
    | Elsewhere(f: Event)

  ghost predicate Step(w: Whole, a: Act, w': Whole, commit: Commits) {
    match a
    case NewRun(r, t) =>
      !w.c.phase.Down? && r !in w.runs && w' == w.(runs := w.runs[r := Local(t, S.START)])
    case Inside(r, e, untracked) =>
      && r in w.runs && r in w'.runs && !e.Crash? && !e.Restart?
      && var t, s, s' := w.runs[r].task, w.runs[r].state, w'.runs[r].state;
         && w'.runs == w.runs[r := Local(t, s')] && S.Next(s, e, s') && Admits(w.c, r, t, e, commit)
         && (e == S.Preserve(true) ==> View(s', r, t, commit).Some?)
         && w'.c == Seen(w.c, r, t, View(s', r, t, commit), e, untracked)
    case CrashAll =>
      && !w.c.phase.Down?
      && w'.runs == (map r <- w.runs :: w.runs[r].(state := w.runs[r].state.(point := S.Down)))
      && w'.c == w.c.(phase := Down, boxes := w'.c.boxes) && w'.c.boxes.Keys == w.c.boxes.Keys
      && forall r <- w.c.boxes :: r in w'.runs && Shows(w'.c, r, w'.runs[r].task, w'.runs[r].state, commit)
    case RestartAll =>
      && w.c.phase.Down? && w'.c == w.c.(phase := Idle)
      && w'.runs == (map r <- w.runs :: w.runs[r].(state := w.runs[r].state.(point := S.Idle)))
    case Elsewhere(e) =>
      !OfSandbox(e) && !e.Crash? && !e.Restart? && w'.runs == w.runs && Next(w.c, e, w'.c)
  }

  /** Every run is as the workspaces show it, and they show no other sandbox. */
  ghost predicate AllShown(w: Whole, commit: Commits) {
    && w.c.boxes.Keys <= w.runs.Keys
    && forall r <- w.runs :: S.Inv(w.runs[r].state) && Shows(w.c, r, w.runs[r].task, w.runs[r].state, commit)
  }

  /** Sandboxes that only age, one after the other, while the daemon is down. */
  lemma {:induction false} MoveAll(run: Run, target: map<RunId, Sandbox>, keys: set<RunId>) returns (more: Run)
    requires FromStart(run) && Last(run).phase.Down? && Last(run).boxes.Keys == target.Keys && keys <= target.Keys
    requires forall r <- target | r !in keys :: Last(run).boxes[r] == target[r]
    requires forall r <- keys :: MayMove(Last(run).boxes[r], Some(target[r]), false)
    ensures FromStart(more) && Last(more) == Last(run).(boxes := target)
    decreases |keys|
  {
    hide FromStart, MayMove;
    NotEmpty(run);
    if keys == {} {
      more := run;
      assert Last(run).boxes == target;
    } else {
      var r :| r in keys;
      var moved := Last(run).(boxes := Last(run).boxes[r := target[r]]);
      more := Reach(run, SandboxMoves(r, Some(target[r])), moved);
      more := MoveAll(more, target, keys - {r});
    }
  }

  lemma CrashIsSeen(w: Whole, w': Whole, commit: Commits, run: Run) returns (more: Run)
    requires AllShown(w, commit) && Step(w, CrashAll, w', commit) && FromStart(run) && Last(run) == w.c
    ensures FromStart(more) && Last(more) == w'.c && AllShown(w', commit)
  {
    forall r <- w.runs
      ensures S.Inv(w'.runs[r].state) && Shows(w'.c, r, w'.runs[r].task, w'.runs[r].state, commit)
      ensures r in w.c.boxes ==> MayMove(w.c.boxes[r], Some(w'.c.boxes[r]), false)
    {
      OneCrash(w, w', r, commit);
    }
    hide FromStart, Step, AllShown, Shows, S.Inv, MayMove;
    more := Reach(run, Crash, w.c.(phase := Down));
    more := MoveAll(more, w'.c.boxes, w'.c.boxes.Keys);
  }

  lemma OneCrash(w: Whole, w': Whole, r: RunId, commit: Commits)
    requires AllShown(w, commit) && Step(w, CrashAll, w', commit) && r in w.runs
    ensures r in w'.runs && S.Inv(w'.runs[r].state)
    ensures Shows(w'.c, r, w'.runs[r].task, w'.runs[r].state, commit)
    ensures r in w.c.boxes ==> r in w'.c.boxes && MayMove(w.c.boxes[r], Some(w'.c.boxes[r]), false)
    ensures w'.c.boxes.Keys == w.c.boxes.Keys && w.c.boxes.Keys <= w.runs.Keys && w'.runs.Keys == w.runs.Keys
    ensures w'.c == w.c.(phase := Down, boxes := w'.c.boxes)
  {
    var s := w.runs[r].state;
    S.StepKeepsInv(s, S.Crash, s.(point := S.Down));
  }

  lemma RestartIsSeen(w: Whole, w': Whole, commit: Commits)
    requires AllShown(w, commit) && Step(w, RestartAll, w', commit)
    ensures AllShown(w', commit) && Next(w.c, Restart, w'.c)
  {
    forall r <- w.runs
      ensures S.Inv(w'.runs[r].state) && Shows(w'.c, r, w'.runs[r].task, w'.runs[r].state, commit)
    {
      var s := w.runs[r].state;
      S.StepKeepsInv(s, S.Restart, s.(point := S.Idle));
    }
  }

  lemma InsideIsSeen(w: Whole, a: Act, w': Whole, commit: Commits, run: Run) returns (more: Run)
    requires AllShown(w, commit) && a.Inside? && Step(w, a, w', commit) && FromStart(run) && Last(run) == w.c
    ensures FromStart(more) && Last(more) == w'.c && AllShown(w', commit)
  {
    hide FromStart, S.Inv, S.Next;
    var r := a.r;
    var t, s, s' := w.runs[r].task, w.runs[r].state, w'.runs[r].state;
    var f, c' := SandboxStepIsWorkspaceStep(w.c, r, t, s, a.e, s', a.untracked, commit);
    S.StepKeepsInv(s, a.e, s');
    OthersAreShown(w, w', r, commit);
    if w'.c == w.c {
      more := run;
    } else {
      more := Reach(run, f, w'.c);
    }
  }

  lemma OthersAreShown(w: Whole, w': Whole, r: RunId, commit: Commits)
    requires AllShown(w, commit) && r in w.runs && r in w'.runs && w'.runs == w.runs[r := w'.runs[r]]
    requires w'.c.boxes - {r} == w.c.boxes - {r} && w'.c.phase == w.c.phase
    requires S.Inv(w'.runs[r].state) && Shows(w'.c, r, w'.runs[r].task, w'.runs[r].state, commit)
    ensures AllShown(w', commit)
  {
    hide S.Inv;
    forall q <- w'.runs
      ensures S.Inv(w'.runs[q].state) && Shows(w'.c, q, w'.runs[q].task, w'.runs[q].state, commit)
    {
      if q != r {
        assert q in w'.c.boxes <==> q in w'.c.boxes - {r};
        assert q in w.c.boxes <==> q in w.c.boxes - {r};
        assert q in w.c.boxes ==> (w.c.boxes - {r})[q] == w.c.boxes[q];
        assert q in w'.c.boxes ==> (w'.c.boxes - {r})[q] == w'.c.boxes[q];
      }
    }
    assert forall q <- w'.c.boxes | q != r :: q in w'.c.boxes - {r};
  }

  lemma NewRunIsShown(w: Whole, a: Act, w': Whole, commit: Commits)
    requires AllShown(w, commit) && a.NewRun? && Step(w, a, w', commit)
    ensures AllShown(w', commit) && w'.c == w.c
  {
  }

  lemma ElsewhereKeepsSandboxes(c: State, e: Event, c': State)
    requires Next(c, e, c') && !OfSandbox(e) && !e.Crash? && !e.Restart?
    ensures c'.boxes == c.boxes && (c'.phase.Down? <==> c.phase.Down?)
  {
  }

  lemma StepIsSeenInWorkspaces(w: Whole, a: Act, w': Whole, commit: Commits, run: Run) returns (more: Run)
    requires AllShown(w, commit) && Step(w, a, w', commit) && FromStart(run) && Last(run) == w.c
    ensures FromStart(more) && Last(more) == w'.c && AllShown(w', commit)
  {
    hide FromStart, AllShown;
    match a
    case NewRun(_, _) =>
      NewRunIsShown(w, a, w', commit);
      more := run;
    case Inside(_, _, _) => more := InsideIsSeen(w, a, w', commit, run);
    case CrashAll => more := CrashIsSeen(w, w', commit, run);
    case RestartAll =>
      RestartIsSeen(w, w', commit);
      more := Reach(run, Restart, w'.c);
    case Elsewhere(e) =>
      ElsewhereIsShown(w, a, w', commit);
      more := Reach(run, e, w'.c);
  }

  lemma ElsewhereIsShown(w: Whole, a: Act, w': Whole, commit: Commits)
    requires AllShown(w, commit) && a.Elsewhere? && Step(w, a, w', commit)
    ensures AllShown(w', commit)
  {
    ElsewhereKeepsSandboxes(w.c, a.f, w'.c);
    hide S.Inv, Next;
  }

  /** Any number of runs, each with its own sandbox protocol, interleaved in any way with
      each other, with crashes and with everything else that happens to workspaces: what
      the workspaces go through is a run of the workspace lifecycle, and it always shows
      every sandbox as it is. So all theorems about those runs hold here. */
  lemma {:induction false} WholeRunIsWorkspaceRun(ws: seq<Whole>, acts: seq<Act>, commit: Commits) returns (run: Run)
    requires |ws| == |acts| + 1 && ws[0].runs == map[]
    requires ws[0].c == State(Down, ws[0].c.tasks, map[], {}, map[])
    requires forall i | 0 <= i < |acts| :: Step(ws[i], acts[i], ws[i + 1], commit)
    ensures FromStart(run) && Last(run) == ws[|acts|].c && AllShown(ws[|acts|], commit)
    decreases |acts|
  {
    hide FromStart, AllShown, Step;
    var n := |acts|;
    if n == 0 {
      run := Run([ws[0].c], []);
      NothingRuns(ws[0], commit);
    } else {
      assert forall i | 0 <= i < n :: ws[..n][i] == ws[i];
      var before := WholeRunIsWorkspaceRun(ws[..n], acts[..n - 1], commit);
      run := StepIsSeenInWorkspaces(ws[n - 1], acts[n - 1], ws[n], commit, before);
    }
  }

  lemma NothingRuns(w: Whole, commit: Commits)
    requires w.runs == map[] && w.c == State(Down, w.c.tasks, map[], {}, map[])
    ensures AllShown(w, commit) && FromStart(Run([w.c], []))
  {
  }
}
