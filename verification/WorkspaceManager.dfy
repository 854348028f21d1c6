/** The operations that create, reuse and remove the workspaces of one repository.
    Every Git command may fail, and may fail half-way. */
module WorkspaceManager {
  import opened Outcomes
  import opened Worktrees

  datatype Reuse = Reject | ExactBase | Owned

  datatype Disposition = Created | Reused

  datatype Workspace = Workspace(path: Path, branch: Option<string>, base: Commit, disposition: Disposition)

  datatype Registered = Registered(path: Path, branch: Option<string>)

  datatype Preview = Preview(path: Path, branch: Option<string>, dirty: bool)

  predicate Listed(items: seq<Registered>, path: Path) {
    exists i: nat :: i < |items| && items[i].path == path
  }

  // ----- When an operation succeeds -----

  /** A worktree that already has the branch may be adopted. */
  predicate MayAdopt(layout: Layout, git: Git, path: Path, base: Commit, reuse: Reuse) {
    && reuse != Reject && layout.Managed(path)
    && (reuse == ExactBase ==> CleanAt(git, path, base))
  }

  predicate MayCheckOut(git: Git, branch: string, base: Commit, reuse: Reuse) {
    branch in git.branches ==> reuse != Reject && (reuse == ExactBase ==> git.branches[branch] == base)
  }

  predicate SingleHolder(git: Git, path: Path, branch: string) {
    Holds(git, path, branch) && forall other <- git.worktrees :: Holds(git, other, branch) ==> other == path
  }

  /** Exactly when a delivery can be prepared in a pruned repository. */
  ghost predicate MayDeliver(layout: Layout, git: Git, issue: nat, base: Commit, reuse: Reuse) {
    var branch, target := DeliveryBranch(issue), layout.root.Child(DeliveryName(issue));
    && git.worktrees != map[]
    && if Free(git, branch) then
      && |Retained(layout, git)| < MAX_RETAINED_WORKSPACES
      && target !in git.nodes && MayCheckOut(git, branch, base, reuse)
    else
      exists path :: SingleHolder(git, path, branch) && MayAdopt(layout, git, path, base, reuse)
  }

  ghost predicate MayPropose(layout: Layout, git: Git, id: nat, base: Commit, reuse: Reuse) {
    var target := layout.root.Child(ProposalName(id));
    && git.worktrees != map[]
    && if target in git.worktrees then MayAdopt(layout, git, target, base, reuse) && git.worktrees[target].Detached?
    else target !in git.nodes
  }

  /** What can be removed: a checkout, or a directory that Git does not know. */
  predicate Removable(layout: Layout, git: Git, path: Path) {
    && layout.Managed(path) && git.worktrees != map[]
    && (path in git.worktrees ==> path in git.nodes)
    && (path in git.nodes ==> git.nodes[path].Folder?)
  }

  predicate Dirty(git: Git, path: Path) {
    path in git.worktrees && path in git.nodes && git.nodes[path] == Folder(true)
  }

  function PreviewOf(git: Git, path: Path): Preview {
    Preview(path, if path in git.worktrees then BranchOf(git.worktrees[path]) else None, Dirty(git, path))
  }

  lemma ChildIsManaged(layout: Layout, name: string)
    requires layout.Disjoint() && name != ".."
    ensures layout.Managed(layout.root.Child(name))
  {
    var child := layout.root.Child(name);
    assert child.parts[..|child.parts| - 1] == layout.root.parts;
    assert child.Under(layout.root);
  }

  /** `git` with a fresh clean checkout at `path`. */
  function Added(git: Git, path: Path, checkout: Checkout): Git {
    git.(nodes := git.nodes[path := Folder(false)], worktrees := git.worktrees[path := checkout])
  }

  function WithBranch(git: Git, branch: string, base: Commit): Git {
    if branch in git.branches then git else git.(branches := git.branches[branch := base])
  }

  /** What a prepared delivery promises: its branch is checked out in a managed
      directory, and how much of it can come from earlier work depends on `reuse`. */
  ghost predicate Delivered(layout: Layout, before: Git, after: Git, issue: nat, reuse: Reuse, w: Workspace) {
    var branch := DeliveryBranch(issue);
    && w.branch == Some(branch) && layout.Managed(w.path) && SingleHolder(after, w.path, branch)
    && (w.disposition.Created? ==>
          && w.path == layout.root.Child(DeliveryName(issue)) && w.path !in before.nodes
          && Free(before, branch)
          && after == Added(WithBranch(before, branch, w.base), w.path, OnBranch(branch)))
    && (w.disposition.Reused? ==> after == before && reuse != Reject)
    && (reuse == Reject ==> branch !in before.branches)
    && (reuse != Owned ==> CleanAt(after, w.path, w.base))
  }

  lemma CreatedIsDelivered(layout: Layout, git: Git, issue: nat, base: Commit, reuse: Reuse)
    requires layout.Disjoint() && Free(git, DeliveryBranch(issue))
    requires layout.root.Child(DeliveryName(issue)) !in git.nodes
    requires MayCheckOut(git, DeliveryBranch(issue), base, reuse)
    ensures var branch, path := DeliveryBranch(issue), layout.root.Child(DeliveryName(issue));
            Delivered(layout, git, Added(WithBranch(git, branch, base), path, OnBranch(branch)), issue, reuse,
                      Workspace(path, Some(branch), base, Created))
  {
    hide DeliveryBranch;
    ChildIsManaged(layout, DeliveryName(issue));
  }

  ghost predicate Proposed(layout: Layout, before: Git, after: Git, id: nat, reuse: Reuse, w: Workspace) {
    && w.branch.None? && w.path == layout.root.Child(ProposalName(id)) && layout.Managed(w.path)
    && w.path in after.worktrees && after.worktrees[w.path].Detached?
    && (w.disposition.Created? ==> w.path !in before.nodes && after == Added(before, w.path, Detached(w.base)))
    && (w.disposition.Reused? ==> after == before && reuse != Reject)
    && (reuse != Owned ==> CleanAt(after, w.path, w.base))
  }

  /** The policy, for a branch that no worktree has and a free target: a new branch is always
      fine; an existing one is what an owned preparation expects, and what one that wants
      the exact base takes if the branch is there. */
  lemma PolicyForFreeBranch(layout: Layout, git: Git, issue: nat, base: Commit, reuse: Reuse)
    requires forall path <- git.worktrees :: git.worktrees[path] != OnBranch(DeliveryBranch(issue))
    ensures MayDeliver(layout, git, issue, base, reuse)
            <==> && git.worktrees != map[] && layout.root.Child(DeliveryName(issue)) !in git.nodes
                 && |Retained(layout, git)| < 10
                 && (|| DeliveryBranch(issue) !in git.branches || reuse == Owned
                     || (reuse == ExactBase && git.branches[DeliveryBranch(issue)] == base))
  {
  }

  /** The policy for a branch that is checked out: exactly one worktree may have it, a managed
      one, for an owned preparation as it is and for one that wants the exact base if it is
      clean and there. */
  lemma PolicyForHeldBranch(layout: Layout, git: Git, issue: nat, base: Commit, reuse: Reuse, path: Path)
    requires path in git.worktrees && git.worktrees[path] == OnBranch(DeliveryBranch(issue))
    ensures var branch := DeliveryBranch(issue);
            MayDeliver(layout, git, issue, base, reuse)
            <==> && (forall other <- git.worktrees :: git.worktrees[other] == OnBranch(branch) ==> other == path)
                 && layout.Managed(path)
                 && (|| reuse == Owned
                     || (&& reuse == ExactBase && path in git.nodes && git.nodes[path] == Folder(false)
                         && branch in git.branches && git.branches[branch] == base))
  {
    hide DeliveryBranch;
    var branch := DeliveryBranch(issue);
    assert Holds(git, path, branch) && !Free(git, branch);
    if forall other <- git.worktrees :: git.worktrees[other] == OnBranch(branch) ==> other == path {
      assert SingleHolder(git, path, branch);
    }
  }

  /** A delivery has its own branch checked out: an existing one at its own commit, exactly as
      it was, a new one at the base. */
  lemma BranchIsKept(layout: Layout, before: Git, after: Git, issue: nat, reuse: Reuse, w: Workspace)
    requires Delivered(layout, before, after, issue, reuse, w)
    ensures var branch := DeliveryBranch(issue);
            && w.path in after.worktrees && after.worktrees[w.path] == OnBranch(branch)
            && (branch in before.branches ==> after.branches == before.branches)
            && (branch !in before.branches && w.disposition.Created? ==>
                  after.branches == before.branches[branch := w.base])
            && (w.disposition.Created? ==> w.path in after.nodes && after.nodes[w.path] == Folder(false))
            && (w.disposition.Reused? ==> after == before)
  {
    hide DeliveryBranch;
  }

  /** The policy for proposals: a free target, or a detached worktree at it. */
  lemma PolicyForProposals(layout: Layout, git: Git, id: nat, base: Commit, reuse: Reuse)
    ensures var target := layout.root.Child(ProposalName(id));
            MayPropose(layout, git, id, base, reuse)
            <==> git.worktrees != map[] &&
                 if target in git.worktrees then
                   && layout.Managed(target) && git.worktrees[target].Detached?
                   && (|| reuse == Owned
                       || (&& reuse == ExactBase && target in git.nodes && git.nodes[target] == Folder(false)
                           && git.worktrees[target].commit == base))
                 else target !in git.nodes
  {
    hide ProposalName;
  }

  /** Managed are exactly the direct children of the root under an ordinary name. */
  lemma ManagedAreChildren(layout: Layout, path: Path)
    requires layout.Disjoint()
    ensures layout.Managed(path) <==> exists name :: name != ".." && path == layout.root.Child(name)
  {
    if layout.Managed(path) {
      var name := path.parts[|path.parts| - 1];
      assert path.parts == path.parts[..|path.parts| - 1] + [name] && name in path.parts;
      assert path == layout.root.Child(name);
    }
    forall name | name != ".." && path == layout.root.Child(name)
      ensures layout.Managed(path)
    {
      ChildIsManaged(layout, name);
    }
  }

  /** A created delivery can be removed again, and that undoes it, but for its branch. */
  lemma RemovalUndoesCreation(layout: Layout, before: Git, after: Git, issue: nat, reuse: Reuse, w: Workspace)
    requires Delivered(layout, before, after, issue, reuse, w) && w.disposition.Created? && before == Pruned(before)
    ensures Removable(layout, after, w.path) && !Dirty(after, w.path)
    ensures PreviewOf(after, w.path) == Preview(w.path, Some(DeliveryBranch(issue)), false)
    ensures Without(after, w.path).nodes == before.nodes && Without(after, w.path).worktrees == before.worktrees
    ensures Without(after, w.path).branches == after.branches && DeliveryBranch(issue) in after.branches
  {
    hide DeliveryBranch, DeliveryName;
    assert w.path !in before.worktrees;
    assert w.path in after.worktrees;
    assert after.nodes - {w.path} == before.nodes;
    assert after.worktrees - {w.path} == before.worktrees;
  }

  /** What can be removed: any managed directory, whether Git knows it or not, and nothing that
      is only registered or only a file. */
  lemma RemovableExactlyWhen(layout: Layout, git: Git, path: Path)
    requires layout.Managed(path) && git.worktrees != map[]
    ensures path in git.nodes ==> (Removable(layout, git, path) <==> git.nodes[path] != File)
    ensures path !in git.nodes ==> (Removable(layout, git, path) <==> path !in git.worktrees)
    ensures Dirty(git, path) <==> path in git.worktrees && path in git.nodes && git.nodes[path] == Folder(true)
  {
  }

  /** Where a preparation puts an issue can be told from the state before the call: in the
      issue's own directory when no worktree has its branch, else where the branch is. */
  lemma PathIsKnownBefore(layout: Layout, before: Git, after: Git, issue: nat, r: Reuse, w: Workspace, path: Path)
    requires layout.Disjoint() && Delivered(layout, before, after, issue, r, w)
    ensures path == w.path <==>
            if Free(before, DeliveryBranch(issue)) then path == layout.root.Child(DeliveryName(issue))
            else Holds(before, path, DeliveryBranch(issue))
  {
    hide DeliveryBranch, DeliveryName;
    assert w.disposition.Reused? ==> Holds(before, w.path, DeliveryBranch(issue));
  }

  /** Step `k` was somebody else's, and it took `branch` away from the directory. */
  ghost predicate Taken(run: Run, k: nat, path: Path, branch: string)
    requires k < |run.effects| && |run.states| == |run.effects| + 1
  {
    run.effects[k].Others? && Holds(run.states[k], path, branch) && !Holds(run.states[k + 1], path, branch)
  }

  ghost predicate TakenBetween(run: Run, a: nat, c: nat, path: Path, branch: string)
    requires c <= |run.effects| && |run.states| == |run.effects| + 1
  {
    exists k | a <= k < c :: Taken(run, k, path, branch)
  }

  ghost predicate UnregisteredBetween(run: Run, a: nat, c: nat, path: Path)
    requires c <= |run.effects|
  {
    exists k | a <= k < c :: run.effects[k] == Unregister(path)
  }

  /** When two issues get one directory. `v` was delivered at step `a`; the later call finds
      the repository as it is at step `c`. If the first directory is there, the call takes
      it exactly if it has the second issue's branch; if it is gone, exactly if it is the
      second issue's own directory and its branch is nowhere. Either way the first issue
      had lost it: somebody else took its branch away from it, or the manager dropped its
      registration, or it is gone. */
  lemma SharedExactlyWhen(
    layout: Layout, run: Run, a: nat, c: nat, b: nat, i: nat, j: nat,
    before: Git, r: Reuse, v: Workspace, r': Reuse, w: Workspace)
    requires layout.Disjoint() && IsRun(layout, run) && a <= c <= b < |run.states| && i != j
    requires Delivered(layout, before, run.states[a], i, r, v)
    requires Delivered(layout, Pruned(run.states[c]), run.states[b], j, r', w)
    ensures v.branch != w.branch
    ensures v.path in run.states[c].nodes ==> (v.path == w.path <==> Holds(run.states[c], v.path, DeliveryBranch(j)))
    ensures v.path !in run.states[c].nodes ==>
              (v.path == w.path <==>
                 v.path == layout.root.Child(DeliveryName(j)) && Free(Pruned(run.states[c]), DeliveryBranch(j)))
    ensures v.path == w.path ==>
              || v.path !in run.states[c].nodes
              || UnregisteredBetween(run, a, c, v.path)
              || TakenBetween(run, a, c, v.path, DeliveryBranch(i))
  {
    NamesAreDistinct(i, j);
    hide DeliveryBranch, DeliveryName, Pruned, Next;
    PathFoundAt(layout, run.states[c], run.states[b], j, r', w, v.path);
    if v.path == w.path && v.path in run.states[c].nodes && !UnregisteredBetween(run, a, c, v.path) {
      LostByTaking(layout, run, a, c, v.path, DeliveryBranch(i));
    }
  }

  lemma PathFoundAt(layout: Layout, git: Git, after: Git, issue: nat, r: Reuse, w: Workspace, path: Path)
    requires layout.Disjoint() && Delivered(layout, Pruned(git), after, issue, r, w)
    ensures w.branch == Some(DeliveryBranch(issue))
    ensures path in git.nodes ==> (path == w.path <==> Holds(git, path, DeliveryBranch(issue)))
    ensures path !in git.nodes ==>
              (path == w.path <==>
                 path == layout.root.Child(DeliveryName(issue)) && Free(Pruned(git), DeliveryBranch(issue)))
  {
    hide DeliveryBranch, DeliveryName;
    PathIsKnownBefore(layout, Pruned(git), after, issue, r, w, path);
    if Free(Pruned(git), DeliveryBranch(issue)) {
      PathWasFree(layout, Pruned(git), after, issue, r, w);
      if path in git.nodes {
        assert path in git.worktrees ==> path in Pruned(git).worktrees;
      }
    }
  }

  lemma PathWasFree(layout: Layout, before: Git, after: Git, issue: nat, r: Reuse, w: Workspace)
    requires Delivered(layout, before, after, issue, r, w) && Free(before, DeliveryBranch(issue))
    ensures w.path !in before.nodes
  {
    hide DeliveryBranch;
    assert w.disposition.Reused? ==> Holds(before, w.path, DeliveryBranch(issue));
  }

  /** A directory that lost its branch without the manager's doing lost it to somebody. */
  lemma LostByTaking(layout: Layout, run: Run, a: nat, c: nat, path: Path, branch: string)
    requires IsRun(layout, run) && a <= c < |run.states|
    requires Holds(run.states[a], path, branch) && !Holds(run.states[c], path, branch)
    requires !UnregisteredBetween(run, a, c, path)
    ensures TakenBetween(run, a, c, path, branch)
  {
    hide Next;
    if OthersKeepHold(run, a, c, path, branch) {
      HeldUntilUnregistered(layout, run, a, c, path, branch);
    } else {
      var k :| a <= k < c && run.effects[k].Others? && Holds(run.states[k], path, branch)
               && !Holds(run.states[k + 1], path, branch);
      assert Taken(run, k, path, branch);
    }
  }

  /** The same seen from a directory that stayed: two issues have it together only because
      somebody else switched it from the first branch to the second. */
  lemma SharedTogetherExactlyWhen(
    layout: Layout, run: Run, a: nat, c: nat, b: nat, i: nat, j: nat,
    before: Git, r: Reuse, v: Workspace, r': Reuse, w: Workspace)
    requires layout.Disjoint() && IsRun(layout, run) && a <= c <= b < |run.states| && i != j
    requires Delivered(layout, before, run.states[a], i, r, v)
    requires Delivered(layout, Pruned(run.states[c]), run.states[b], j, r', w)
    requires v.path in run.states[c].nodes && !UnregisteredBetween(run, a, c, v.path)
    ensures v.path == w.path
            <==> TakenBetween(run, a, c, v.path, DeliveryBranch(i)) && Holds(run.states[c], v.path, DeliveryBranch(j))
  {
    hide DeliveryName, DeliveryBranch, IsRun, Delivered, TakenBetween, UnregisteredBetween;
    SharedExactlyWhen(layout, run, a, c, b, i, j, before, r, v, r', w);
  }

  /** Deliveries of distinct issues never share a branch or a directory, as long as nobody
      else switches the first directory to another branch and the manager does not
      remove it: over any sequence of operations in between. */
  lemma DeliveriesAreSeparate(
    layout: Layout, run: Run, a: nat, b: nat, i: nat, j: nat,
    before: Git, r: Reuse, v: Workspace, before': Git, r': Reuse, w: Workspace)
    requires IsRun(layout, run) && a <= b < |run.states| && i != j
    requires Delivered(layout, before, run.states[a], i, r, v)
    requires Delivered(layout, before', run.states[b], j, r', w)
    requires OthersKeepHold(run, a, b, v.path, DeliveryBranch(i))
    requires forall k | a <= k < b :: run.effects[k] != Unregister(v.path)
    ensures v.path != w.path && v.branch != w.branch
  {
    HeldUntilUnregistered(layout, run, a, b, v.path, DeliveryBranch(i));
    NamesAreDistinct(i, j);
  }

  /** Exactly where a preparation that succeeds puts an issue, seen from the state it finds
      and under every policy: by creation within the retention limit, or by adoption. */
  lemma DeliveredAtExactlyWhen(layout: Layout, git: Git, path: Path, issue: nat, base: Commit, reuse: Reuse)
    requires layout.Disjoint()
    ensures var branch := DeliveryBranch(issue);
            (&& MayDeliver(layout, git, issue, base, reuse)
             && exists after, w :: Delivered(layout, git, after, issue, reuse, w) && w.base == base && w.path == path)
            <==> git.worktrees != map[] &&
                 if Free(git, branch) then
                   && path == layout.root.Child(DeliveryName(issue)) && path !in git.nodes
                   && |Retained(layout, git)| < MAX_RETAINED_WORKSPACES && MayCheckOut(git, branch, base, reuse)
                 else SingleHolder(git, path, branch) && MayAdopt(layout, git, path, base, reuse)
  {
    hide DeliveryBranch, DeliveryName, Retained;
    var branch := DeliveryBranch(issue);
    if Free(git, branch) {
      if path == layout.root.Child(DeliveryName(issue)) && path !in git.nodes && MayCheckOut(git, branch, base, reuse) {
        CreatedIsDelivered(layout, git, issue, base, reuse);
        var w := Workspace(path, Some(branch), base, Created);
        assert Delivered(layout, git, Added(WithBranch(git, branch, base), path, OnBranch(branch)), issue, reuse, w);
      }
      forall after, w | Delivered(layout, git, after, issue, reuse, w)
        ensures w.path == layout.root.Child(DeliveryName(issue)) && w.path !in git.nodes
      {
        PathIsKnownBefore(layout, git, after, issue, reuse, w, w.path);
        PathWasFree(layout, git, after, issue, reuse, w);
      }
    } else if SingleHolder(git, path, branch) && MayAdopt(layout, git, path, base, reuse) {
      FoundIsDelivered(layout, git, issue, base, reuse, Workspace(path, Some(branch), base, Reused));
    }
  }

  lemma FoundIsDelivered(layout: Layout, git: Git, issue: nat, base: Commit, reuse: Reuse, w: Workspace)
    requires w == Workspace(w.path, Some(DeliveryBranch(issue)), base, Reused)
    requires SingleHolder(git, w.path, DeliveryBranch(issue)) && MayAdopt(layout, git, w.path, base, reuse)
    requires reuse != Reject
    ensures Delivered(layout, git, git, issue, reuse, w)
  {
    hide DeliveryBranch;
  }

  // ----- Two issues in one directory -----

  const MAIN := "main"

  /** A repository with its primary checkout, and with the branches of `more`. */
  function Primary(layout: Layout, more: map<string, Commit>): Git {
    Git(more + map[MAIN := "c"], map[layout.repository := OnBranch(MAIN)], map[layout.repository := Folder(false)])
  }

  /** Issue `issue` is prepared from nothing in such a repository, step by step. */
  lemma FreshSteps(layout: Layout, more: map<string, Commit>, issue: nat)
    requires layout.Disjoint() && DeliveryBranch(issue) !in more
    ensures var git, branch := Primary(layout, more), DeliveryBranch(issue);
            var path := layout.root.Child(DeliveryName(issue));
            var g := git.(branches := git.branches[branch := "c"]);
            var h := g.(nodes := g.nodes[path := Folder(false)]);
            var done := Added(WithBranch(git, branch, "c"), path, OnBranch(branch));
            && Pruned(git) == git && MayDeliver(layout, git, issue, "c", Reject)
            && Next(layout, git, CreateBranch(branch, "c"), g) && Next(layout, g, MakeFolder(path), h)
            && Next(layout, h, Register(path, OnBranch(branch)), done)
            && Delivered(layout, git, done, issue, Reject, Workspace(path, Some(branch), "c", Created))
  {
    var git, path := Primary(layout, more), layout.root.Child(DeliveryName(issue));
    assert DeliveryBranch(issue)[0] == 'f' && MAIN[0] == 'm';
    assert DeliveryBranch(issue) != MAIN;
    hide DeliveryBranch, DeliveryName, IsDeliveryPath;
    RepositoryIsElsewhere(layout, more, DeliveryName(issue));
    ChildIsManaged(layout, DeliveryName(issue));
    CreatedIsDelivered(layout, git, issue, "c", Reject);
    assert layout.repository in git.worktrees;
  }

  lemma RepositoryIsElsewhere(layout: Layout, more: map<string, Commit>, name: string)
    requires layout.Disjoint()
    ensures layout.root.Child(name) != layout.repository
    ensures Retained(layout, Primary(layout, more)) == {}
    ensures forall branches :: Retained(layout, Primary(layout, more).(branches := branches)) == {}
  {
  }

  lemma RemovalSteps(layout: Layout, git: Git, path: Path)
    requires layout.Managed(path) && path in git.worktrees && path in git.nodes
    ensures var g := git.(worktrees := git.worktrees - {path});
            Next(layout, git, Unregister(path), g)
            && Next(layout, g, Erase(path), g.(nodes := g.nodes - {path}))
  {
  }

  /** `git` with `branch` checked out in a clean directory at `path`. */
  function Holding(git: Git, path: Path, branch: string): Git {
    Added(WithBranch(git, branch, "c"), path, OnBranch(branch))
  }

  /** An owned preparation finds such a directory and takes it. */
  lemma HeldIsAdopted(layout: Layout, more: map<string, Commit>, path: Path, issue: nat)
    requires layout.Managed(path)
    ensures var git := Holding(Primary(layout, more), path, DeliveryBranch(issue));
            && Pruned(git) == git && MayDeliver(layout, git, issue, "c", Owned)
            && Delivered(layout, git, git, issue, Owned, Workspace(path, Some(DeliveryBranch(issue)), "c", Reused))
  {
    assert DeliveryBranch(issue)[0] == 'f' && MAIN[0] == 'm';
    assert DeliveryBranch(issue) != MAIN;
    hide DeliveryBranch;
    var git := Holding(Primary(layout, more), path, DeliveryBranch(issue));
    assert SingleHolder(git, path, DeliveryBranch(issue)) && layout.repository in git.worktrees;
    FoundIsDelivered(layout, git, issue, "c", Owned, Workspace(path, Some(DeliveryBranch(issue)), "c", Reused));
  }

  /** No one is switched: issue 1 was found in the directory `issue-2`, the manager removes
      it there, and a fresh preparation of issue 2 makes that directory anew. */
  lemma RemovedDirectoryIsUsedAgain(layout: Layout) returns (run: Run, v: Workspace, w: Workspace)
    requires layout.Disjoint()
    ensures IsRun(layout, run) && |run.states| == 6 && forall e <- run.effects :: !e.Others?
    ensures MayDeliver(layout, Pruned(run.states[0]), 1, "c", Owned)
    ensures Delivered(layout, Pruned(run.states[0]), run.states[0], 1, Owned, v)
    ensures MayDeliver(layout, Pruned(run.states[2]), 2, "c", Reject)
    ensures Delivered(layout, Pruned(run.states[2]), run.states[5], 2, Reject, w)
    ensures v.path == w.path && v.path !in run.states[2].nodes
  {
    TwoNames();
    hide DeliveryBranch, DeliveryName, IsDeliveryName, IsDeliveryPath, Retained, Delivered, MayDeliver, Holding;
    hide Primary, Added, WithBranch, Pruned, IsRun;
    var path, one, two := layout.root.Child(DeliveryName(2)), DeliveryBranch(1), DeliveryBranch(2);
    ChildIsManaged(layout, DeliveryName(2));
    HeldIsAdopted(layout, map[], path, 1);
    WithoutHolding(layout, path, one);
    var removal := RemovalRun(layout, Holding(Primary(layout, map[]), path, one), path);
    var anew := FreshRun(layout, map[one := "c"], 2);
    run := Run(removal.states + anew.states[1..], removal.effects + anew.effects);
    JoinedRuns(layout, removal, anew);
    v, w := Workspace(path, Some(one), "c", Reused), Workspace(path, Some(two), "c", Created);
  }

  lemma TwoNames()
    ensures DeliveryBranch(1) != DeliveryBranch(2) && DeliveryBranch(1) != MAIN && DeliveryName(2) != ".."
  {
    NamesAreDistinct(1, 2);
    assert DeliveryBranch(1)[0] == 'f' && MAIN[0] == 'm' && DeliveryName(2)[0] == 'i';
  }

  lemma RemovalRun(layout: Layout, git: Git, path: Path) returns (run: Run)
    requires layout.Managed(path) && path in git.worktrees && path in git.nodes
    ensures IsRun(layout, run) && |run.states| == 3 && run.states[0] == git
    ensures run.states[2] == git.(worktrees := git.worktrees - {path}, nodes := git.nodes - {path})
    ensures forall e <- run.effects :: !e.Others?
  {
    RemovalSteps(layout, git, path);
    hide Next;
    var g := git.(worktrees := git.worktrees - {path});
    run := Run([git, g, g.(nodes := g.nodes - {path})], [Unregister(path), Erase(path)]);
  }

  lemma FreshRun(layout: Layout, more: map<string, Commit>, issue: nat) returns (run: Run)
    requires layout.Disjoint() && DeliveryBranch(issue) !in more
    ensures var branch, path := DeliveryBranch(issue), layout.root.Child(DeliveryName(issue));
            && IsRun(layout, run) && |run.states| == 4 && run.states[0] == Primary(layout, more)
            && Pruned(run.states[0]) == run.states[0] && MayDeliver(layout, run.states[0], issue, "c", Reject)
            && Delivered(layout, run.states[0], run.states[3], issue, Reject,
                         Workspace(path, Some(branch), "c", Created))
    ensures run.states[3] == Added(WithBranch(run.states[0], DeliveryBranch(issue), "c"),
                                   layout.root.Child(DeliveryName(issue)), OnBranch(DeliveryBranch(issue)))
    ensures forall e <- run.effects :: !e.Others?
  {
    FreshSteps(layout, more, issue);
    hide DeliveryBranch, DeliveryName, Next, Delivered, MayDeliver, Primary, Added, WithBranch, Pruned;
    var git, branch, path := Primary(layout, more), DeliveryBranch(issue), layout.root.Child(DeliveryName(issue));
    var g := git.(branches := git.branches[branch := "c"]);
    var done := Added(WithBranch(git, branch, "c"), path, OnBranch(branch));
    run := Run([git, g, g.(nodes := g.nodes[path := Folder(false)]), done],
               [CreateBranch(branch, "c"), MakeFolder(path), Register(path, OnBranch(branch))]);
  }

  lemma JoinedRuns(layout: Layout, a: Run, b: Run)
    requires IsRun(layout, a) && IsRun(layout, b) && Last(a) == b.states[0]
    ensures IsRun(layout, Run(a.states + b.states[1..], a.effects + b.effects))
  {
    hide Next;
    var run, n := Run(a.states + b.states[1..], a.effects + b.effects), |a.effects|;
    forall i | 0 <= i < |run.effects|
      ensures Next(layout, run.states[i], run.effects[i], run.states[i + 1])
    {
      if i >= n {
        assert Next(layout, b.states[i - n], b.effects[i - n], b.states[i - n + 1]);
      }
    }
  }

  lemma WithoutHolding(layout: Layout, path: Path, branch: string)
    requires layout.Managed(path) && branch != MAIN
    ensures var git := Holding(Primary(layout, map[]), path, branch);
            && path in git.worktrees && path in git.nodes
            && git.(worktrees := git.worktrees - {path}, nodes := git.nodes - {path})
               == Primary(layout, map[branch := "c"])
    ensures path !in Primary(layout, map[branch := "c"]).nodes
  {
    var git := Holding(Primary(layout, map[]), path, branch);
    assert git.branches == map[branch := "c"] + map[MAIN := "c"];
    assert git.nodes - {path} == map[layout.repository := Folder(false)];
    assert git.worktrees - {path} == map[layout.repository := OnBranch(MAIN)];
  }

  /** Somebody checks out the branch of issue 2 inside the directory of issue 1, and an
      owned preparation of issue 2 adopts that directory. */
  lemma SwitchedDirectoryIsShared(layout: Layout) returns (run: Run, v: Workspace, w: Workspace)
    requires layout.Disjoint()
    ensures IsRun(layout, run) && |run.states| == 5
    ensures MayDeliver(layout, Pruned(run.states[0]), 1, "c", Reject)
    ensures Delivered(layout, Pruned(run.states[0]), run.states[3], 1, Reject, v)
    ensures MayDeliver(layout, Pruned(run.states[4]), 2, "c", Owned)
    ensures Delivered(layout, Pruned(run.states[4]), run.states[4], 2, Owned, w)
    ensures v.path == w.path
  {
    hide DeliveryBranch, IsDeliveryName, IsDeliveryPath, Retained, Next, Delivered, MayDeliver, Holding;
    var path, one, two := layout.root.Child(DeliveryName(1)), DeliveryBranch(1), DeliveryBranch(2);
    ChildIsManaged(layout, DeliveryName(1));
    var anew := FreshRun(layout, map[], 1);
    var switched := Holding(Primary(layout, map[one := "c"]), path, two);
    HeldIsAdopted(layout, map[one := "c"], path, 2);
    OthersMayDoAnything(layout, anew.states[3], switched);
    run := Run(anew.states + [switched], anew.effects + [Others(switched)]);
    v, w := Workspace(path, Some(one), "c", Created), Workspace(path, Some(two), "c", Reused);
  }

  lemma OthersMayDoAnything(layout: Layout, git: Git, after: Git)
    ensures Next(layout, git, Others(after), after)
  {
  }

  /** A new task never adopts earlier work: once an issue has a branch, and while
      nobody else moves it, no later fresh preparation of that issue can succeed. */
  lemma NewTaskCannotAdopt(layout: Layout, run: Run, i: nat, j: nat, issue: nat, after: Git, w: Workspace)
    requires IsRun(layout, run) && i <= j < |run.states|
    requires DeliveryBranch(issue) in run.states[i].branches && OthersKeepBranch(run, i, j, DeliveryBranch(issue))
    ensures !Delivered(layout, Pruned(run.states[j]), after, issue, Reject, w)
  {
    BranchesNeverMove(layout, run, i, j, DeliveryBranch(issue));
  }

  /** The half-way states of a preparation: at most a new branch and a new directory. */
  ghost predicate OnlyAdds(before: Git, after: Git, path: Path, branch: string) {
    && after.nodes - {path} == before.nodes - {path} && (path in before.nodes ==> after.nodes == before.nodes)
    && after.branches - {branch} == before.branches - {branch}
    && (branch in before.branches ==> after.branches == before.branches)
  }

  /** The half-way states of an operation on `path`: what it added or removed there. */
  ghost predicate OnlyAt(before: Git, after: Git, path: Path) {
    && after.branches == before.branches
    && after.nodes - {path} == before.nodes - {path}
    && after.worktrees - {path} == before.worktrees - {path}
  }

  function Without(git: Git, path: Path): Git {
    git.(nodes := git.nodes - {path}, worktrees := git.worktrees - {path})
  }

  class Manager {
    const layout: Layout
    var git: Git
    ghost var run: Run

    ghost predicate Valid()
      reads this
    {
      layout.Disjoint() && IsRun(layout, run) && Last(run) == git
    }

    /** Only the manager acted since the old state. */
    twostate predicate Kept()
      reads this
    {
      && Valid() && Continues(old(run), run)
      && forall k | |old(run).effects| <= k < |run.effects| :: !run.effects[k].Others?
    }

    constructor (layout: Layout, git: Git)
      requires layout.Disjoint()
      ensures Valid() && this.layout == layout && this.git == git && run == Run([git], [])
    {
      this.layout := layout;
      this.git := git;
      run := Run([git], []);
    }

    /** The manager is refused when one directory lies inside the other, and when Git says
        that the repository is not a primary checkout; `toplevel` is what Git reports. */
    static method Open(repository: Path, root: Path, toplevel: Option<Path>, git: Git, faults: bool)
      returns (r: Result<Manager>)
      requires repository.Lexical() && root.Lexical()
      ensures r.Success? ==> fresh(r.value) && r.value.Valid() && r.value.git == git
      ensures r.Success? ==> r.value.layout == Layout(repository, root)
      ensures r.Success? ==> toplevel == Some(repository)
      ensures !faults ==>
                (r.Success? <==> !repository.Under(root) && !root.Under(repository) && toplevel == Some(repository))
    {
      var fail: bool := *;
      if repository == root || repository.Under(root) || root.Under(repository) || (faults && fail) {
        return Failure;
      }
      if toplevel != Some(repository) {
        return Failure;
      }
      var manager := new Manager(Layout(repository, root), git);
      return Success(manager);
    }

    method Do(e: Effect, after: Git)
      requires Valid() && Next(layout, git, e, after) && !e.Others?
      modifies this
      ensures Kept() && git == after && run == Extend(old(run), e, after)
    {
      git := after;
      run := Extend(run, e, after);
    }

    /** Agents and operators act between operations. */
    method OthersAct(after: Git)
      requires Valid()
      modifies this
      ensures Valid() && git == after && run == Extend(old(run), Others(after), after)
    {
      git := after;
      run := Extend(run, Others(after), after);
    }

    /** A command that only reads; it may fail. */
    method Ask(faults: bool) returns (r: Result<()>)
      ensures !faults ==> r.Success?
    {
      var fail: bool := *;
      return if faults && fail then Failure else Success(());
    }

    // ----- Commands that read -----

    /** `git worktree list`, in any order. */
    method ListWorktrees(faults: bool) returns (r: Result<seq<Registered>>)
      ensures r.Success? ==> forall item <- r.value ::
                item.path in git.worktrees && item.branch == BranchOf(git.worktrees[item.path])
      ensures r.Success? ==> forall path <- git.worktrees :: Listed(r.value, path)
      ensures r.Success? ==> forall i: nat, j: nat | i < j < |r.value| :: r.value[i].path != r.value[j].path
      ensures r.Success? ==> git.worktrees != map[]
      ensures !faults && git.worktrees != map[] ==> r.Success?
    {
      var _ :- Ask(faults);
      var left: set<Path>, items: seq<Registered> := git.worktrees.Keys, [];
      while left != {}
        invariant left <= git.worktrees.Keys
        invariant forall item <- items ::
            item.path in git.worktrees && item.branch == BranchOf(git.worktrees[item.path]) && item.path !in left
        invariant forall path <- git.worktrees :: path in left || Listed(items, path)
        invariant forall i: nat, j: nat | i < j < |items| :: items[i].path != items[j].path
        invariant git.worktrees.Keys == {} ==> items == []
      {
        var path :| path in left;
        left := left - {path};
        ghost var before := items;
        items := items + [Registered(path, BranchOf(git.worktrees[path]))];
        assert items[|before|].path == path;
        forall other | Listed(before, other)
          ensures Listed(items, other)
        {
          var i: nat :| i < |before| && before[i].path == other;
          assert items[i].path == other;
        }
      }
      assert items == [] ==> forall path :: !Listed(items, path);
      return if items == [] then Failure else Success(items);
    }

    /** The worktree that has `branch`; more than one is an error. */
    method WorktreeForBranch(branch: string, faults: bool) returns (r: Result<Option<Path>>)
      ensures r.Success? ==> git.worktrees != map[]
      ensures r.Success? && r.value.None? ==> Free(git, branch)
      ensures r.Success? && r.value.Some? ==> SingleHolder(git, r.value.value, branch)
      ensures !faults && git.worktrees != map[] ==>
                (r.Success? <==> Free(git, branch) || exists path :: SingleHolder(git, path, branch))
    {
      var items :- ListWorktrees(faults);
      var found: Option<Path> := None;
      for i := 0 to |items|
        invariant found.None? ==> forall j: nat | j < i :: items[j].branch != Some(branch)
        invariant found.Some? ==>
            exists k: nat :: k < i && items[k] == Registered(found.value, Some(branch))
                             && forall j: nat | j < i :: items[j].branch == Some(branch) ==> j == k
      {
        if items[i].branch == Some(branch) {
          if found.Some? {
            ghost var k: nat :| k < i && items[k] == Registered(found.value, Some(branch));
            assert items[k] in items && items[i] in items;
            assert Holds(git, items[k].path, branch) && Holds(git, items[i].path, branch);
            return Failure;
          }
          found := Some(items[i].path);
        }
      }
      forall path <- git.worktrees | Holds(git, path, branch)
        ensures found == Some(path)
      {
        var i: nat :| i < |items| && items[i].path == path;
        assert items[i] in items;
      }
      if found.Some? {
        ghost var k: nat :| k < |items| && items[k] == Registered(found.value, Some(branch));
        assert items[k] in items && SingleHolder(git, found.value, branch);
      }
      return Success(found);
    }

    method RegisteredWorktree(path: Path, faults: bool) returns (r: Result<Option<Registered>>)
      ensures r.Success? ==> git.worktrees != map[] && path.Lexical()
      ensures r.Success? ==> (r.value.Some? <==> path in git.worktrees)
      ensures r.Success? && r.value.Some? ==> r.value.value == Registered(path, BranchOf(git.worktrees[path]))
      ensures !faults && git.worktrees != map[] && path.Lexical() ==> r.Success?
    {
      if !path.Lexical() {
        return Failure;
      }
      var items :- ListWorktrees(faults);
      for i := 0 to |items|
        invariant forall j: nat | j < i :: items[j].path != path
      {
        if items[i].path == path {
          assert items[i] in items;
          return Success(Some(items[i]));
        }
      }
      return Success(None);
    }

    /** `read_dir`: what is directly under the root, in any order. */
    method ReadRoot(faults: bool) returns (r: Result<seq<Path>>)
      ensures r.Success? ==> forall path :: path in r.value <==> path in git.nodes && path.ChildOf(layout.root)
      ensures r.Success? ==> forall i: nat, j: nat | i < j < |r.value| :: r.value[i] != r.value[j]
      ensures !faults ==> r.Success?
    {
      var _ :- Ask(faults);
      var left, entries := set path <- git.nodes.Keys | path.ChildOf(layout.root), [];
      ghost var all := left;
      while left != {}
        invariant left <= all
        invariant forall path :: path in entries <==> path in all - left
        invariant forall i: nat, j: nat | i < j < |entries| :: entries[i] != entries[j]
      {
        var path :| path in left;
        left := left - {path};
        assert path !in entries;
        entries := entries + [path];
      }
      return Success(entries);
    }

    /** How many `issue-N` directories there are. */
    method RetainedCount(faults: bool) returns (r: Result<nat>)
      requires layout.Disjoint()
      ensures r.Success? ==> r.value == |Retained(layout, git)|
      ensures !faults ==> r.Success?
    {
      hide IsDeliveryPath, Path.ChildOf, Layout.Disjoint;
      var entries :- ReadRoot(faults);
      var count := 0;
      ghost var seen: set<Path> := {};
      for i := 0 to |entries|
        invariant count == |seen|
        invariant forall path :: path in seen <==> path in entries[..i] && IsRetained(layout, git, path)
      {
        var path := entries[i];
        assert path in entries;
        assert entries[..i + 1] == entries[..i] + [path];
        if IsDeliveryPath(path) && git.nodes[path].Folder? {
          assert path !in entries[..i];
          count, seen := count + 1, seen + {path};
        }
      }
      assert entries[..|entries|] == entries;
      assert seen == Retained(layout, git);
      return Success(count);
    }

    method RequireCapacity(faults: bool) returns (r: Result<()>)
      requires layout.Disjoint()
      ensures r.Success? ==> |Retained(layout, git)| < MAX_RETAINED_WORKSPACES
      ensures !faults ==> (r.Success? <==> |Retained(layout, git)| < MAX_RETAINED_WORKSPACES)
    {
      var retained :- RetainedCount(faults);
      return if retained >= MAX_RETAINED_WORKSPACES then Failure else Success(());
    }

    method EnsureManaged(path: Path) returns (r: Result<()>)
      ensures r.Success? <==> layout.Managed(path)
    {
      if !path.Lexical() || path == layout.repository || !path.ChildOf(layout.root) {
        return Failure;
      }
      return Success(());
    }

    method EnsureAvailable(path: Path) returns (r: Result<()>)
      ensures r.Success? <==> layout.Managed(path) && path !in git.nodes
    {
      var _ :- EnsureManaged(path);
      return if path in git.nodes then Failure else Success(());
    }

    /** A status or HEAD is only known inside a directory. */
    method RequireCleanExactBase(path: Path, base: Commit, faults: bool) returns (r: Result<()>)
      ensures r.Success? ==> CleanAt(git, path, base)
      ensures !faults ==> (r.Success? <==> CleanAt(git, path, base))
    {
      var _ :- Ask(faults);
      if path !in git.nodes || !git.nodes[path].Folder? || HeadOf(git, path).None? {
        return Failure;
      }
      if HeadOf(git, path).value != base || git.nodes[path].dirty {
        return Failure;
      }
      return Success(());
    }

    // ----- Commands that change something -----

    /** `git worktree prune`, which may stop after some of its work. */
    method Prune(faults: bool) returns (r: Result<()>)
      requires Valid()
      modifies this
      ensures Kept()
      ensures git.branches == old(git).branches && git.nodes == old(git).nodes
      ensures forall path :: path in git.worktrees ==>
          path in old(git).worktrees && git.worktrees[path] == old(git).worktrees[path]
      ensures forall path <- old(git).worktrees :: path in git.nodes ==> path in git.worktrees
      ensures r.Success? ==> git == Pruned(old(git))
      ensures r.Success? ==> forall path :: path in git.worktrees <==> path in old(git).worktrees && path in git.nodes
      ensures !faults ==> r.Success?
    {
      hide IsRun;
      var stale := set path <- git.worktrees.Keys | path !in git.nodes;
      while stale != {}
        invariant Kept()
        invariant git.branches == old(git).branches && git.nodes == old(git).nodes
        invariant stale == set path <- git.worktrees.Keys | path !in git.nodes
        invariant forall path :: path in git.worktrees ==>
            path in old(git).worktrees && git.worktrees[path] == old(git).worktrees[path]
        invariant forall path <- old(git).worktrees :: path in git.nodes ==> path in git.worktrees
        decreases |stale|
      {
        var _ :- Ask(faults);
        var path :| path in stale;
        Do(Unregister(path), git.(worktrees := git.worktrees - {path}));
        stale := stale - {path};
      }
      forall path <- git.worktrees
        ensures path in git.nodes
      {
        assert path !in stale;
      }
      assert git.worktrees == Pruned(old(git)).worktrees;
      return Success(());
    }

    /** The part of `git worktree add` that makes the directory and registers it. */
    method Place(path: Path, checkout: Checkout, faults: bool) returns (r: Result<()>)
      requires Valid() && layout.Managed(path) && path !in git.nodes && path !in git.worktrees
      requires IsDeliveryPath(path) ==> |Retained(layout, git)| < MAX_RETAINED_WORKSPACES
      requires checkout.OnBranch? ==> checkout.branch in git.branches && Free(git, checkout.branch)
      modifies this
      ensures Kept()
      ensures r.Success? ==> git == Added(old(git), path, checkout)
      ensures r.Failure? ==> faults && OnlyAt(old(git), git, path)
    {
      hide IsRun;
      var _ :- Ask(faults);
      Do(MakeFolder(path), git.(nodes := git.nodes[path := Folder(false)]));
      var _ :- Ask(faults);
      Do(Register(path, checkout), git.(worktrees := git.worktrees[path := checkout]));
      return Success(());
    }

    /** `git worktree add`, with or without `-b`. */
    method AddDelivery(path: Path, branch: string, base: Commit, faults: bool) returns (r: Result<()>)
      requires Valid() && layout.Managed(path) && path !in git.nodes && path !in git.worktrees
      requires IsDeliveryPath(path) ==> |Retained(layout, git)| < MAX_RETAINED_WORKSPACES
      requires Free(git, branch)
      modifies this
      ensures Kept()
      ensures r.Success? ==> git == Added(WithBranch(old(git), branch, base), path, OnBranch(branch))
      ensures r.Failure? ==> faults
      ensures OnlyAdds(old(git), git, path, branch)
      ensures r.Failure? ==> OnlyAt(old(git), git, path) || OnlyAt(WithBranch(old(git), branch, base), git, path)
    {
      hide IsRun;
      if branch !in git.branches {
        var _ :- Ask(faults);
        Do(CreateBranch(branch, base), git.(branches := git.branches[branch := base]));
        assert Retained(layout, git) == Retained(layout, old(git));
      }
      r := Place(path, OnBranch(branch), faults);
    }

    /** The deletion of the files in a directory, which may stop after some of them. */
    method DeleteFiles(path: Path, faults: bool) returns (r: Result<()>)
      requires Valid() && layout.Managed(path) && path in git.nodes
      modifies this
      ensures Kept()
      ensures r.Success? ==> git == old(git)
      ensures r.Failure? ==> faults
      ensures r.Failure? ==>
                git == old(git) || (old(git).nodes[path].Folder?
                                    && git == old(git).(nodes := old(git).nodes[path := Folder(true)]))
    {
      hide IsRun;
      r := Ask(faults);
      var damaged: bool := *;
      if r.Failure? && damaged && git.nodes[path].Folder? {
        Do(Damage(path), git.(nodes := git.nodes[path := Folder(true)]));
      }
    }

    /** `git worktree remove`: without force a dirty tree is refused; otherwise the
        directory and the registration go, in either order. It may stop between, or
        before that with some files gone and the directory still registered. */
    method RemoveWorktree(path: Path, force: bool, faults: bool) returns (r: Result<()>)
      requires Valid() && layout.Managed(path) && path in git.nodes && path in git.worktrees
      modifies this
      ensures Kept()
      ensures r.Success? ==> git == Without(old(git), path)
      ensures r.Failure? ==> OnlyAt(old(git), git, path)
      ensures !force && Dirty(old(git), path) ==> r.Failure? && git == old(git)
      ensures !faults ==> (r.Failure? <==> !force && Dirty(old(git), path))
    {
      hide IsRun;
      if !force && Dirty(git, path) {
        return Failure;
      }
      var _ :- DeleteFiles(path, faults);
      var registrationFirst: bool := *;
      if registrationFirst {
        Do(Unregister(path), git.(worktrees := git.worktrees - {path}));
        var _ :- Ask(faults);
        Do(Erase(path), git.(nodes := git.nodes - {path}));
      } else {
        Do(Erase(path), git.(nodes := git.nodes - {path}));
        var _ :- Ask(faults);
        Do(Unregister(path), git.(worktrees := git.worktrees - {path}));
      }
      return Success(());
    }

    // ----- Preparation -----

    /** Give `issue` a checkout of its branch: an existing one if the policy allows,
        otherwise a new one within the retention limit. `base` is the commit that the
        requested base names, if any. */
    method PrepareDelivery(issue: nat, validBranch: bool, base: Option<Commit>, reuse: Reuse, faults: bool)
      returns (r: Result<Workspace>)
      requires Valid()
      modifies this
      ensures Kept()
      ensures OnlyAdds(old(git), git, layout.root.Child(DeliveryName(issue)), DeliveryBranch(issue))
      ensures r.Success? ==> base == Some(r.value.base)
      ensures r.Success? ==> Delivered(layout, Pruned(old(git)), git, issue, reuse, r.value)
      ensures !faults ==>
                (r.Success? <==> issue > 0 && validBranch && base.Some?
                                 && MayDeliver(layout, Pruned(old(git)), issue, base.value, reuse))
    {
      hide IsRun, Retained, DeliveryName, DeliveryBranch;
      if issue == 0 || !validBranch || base.None? {
        return Failure;
      }
      var _ :- Prune(faults);
      r := DeliverPruned(issue, base.value, reuse, faults);
    }

    method DeliverPruned(issue: nat, base: Commit, reuse: Reuse, faults: bool) returns (r: Result<Workspace>)
      requires Valid() && git == Pruned(git)
      modifies this
      ensures Kept()
      ensures OnlyAdds(old(git), git, layout.root.Child(DeliveryName(issue)), DeliveryBranch(issue))
      ensures r.Success? ==> base == r.value.base && Delivered(layout, old(git), git, issue, reuse, r.value)
      ensures !faults ==> (r.Success? <==> MayDeliver(layout, old(git), issue, base, reuse))
    {
      hide IsRun, Retained, DeliveryName, DeliveryBranch;
      var branch := DeliveryBranch(issue);
      var found :- WorktreeForBranch(branch, faults);
      if found.Some? {
        if reuse == Reject {
          return Failure;
        }
        var _ :- EnsureManaged(found.value);
        if reuse == ExactBase {
          var _ :- RequireCleanExactBase(found.value, base, faults);
        }
        return Success(Workspace(found.value, Some(branch), base, Reused));
      }
      r := CreateDelivery(issue, base, reuse, faults);
    }

    method CreateDelivery(issue: nat, base: Commit, reuse: Reuse, faults: bool) returns (r: Result<Workspace>)
      requires Valid() && git == Pruned(git) && git.worktrees != map[] && Free(git, DeliveryBranch(issue))
      modifies this
      ensures Kept()
      ensures OnlyAdds(old(git), git, layout.root.Child(DeliveryName(issue)), DeliveryBranch(issue))
      ensures r.Success? ==> r.value.disposition.Created? && base == r.value.base
      ensures r.Success? ==> Delivered(layout, old(git), git, issue, reuse, r.value)
      ensures !faults ==> (r.Success? <==> MayDeliver(layout, old(git), issue, base, reuse))
    {
      hide IsRun, Retained, DeliveryBranch, IsDeliveryName, Delivered, Added;
      var branch := DeliveryBranch(issue);
      var _ :- RequireCapacity(faults);
      var path := layout.root.Child(DeliveryName(issue));
      ChildIsManaged(layout, DeliveryName(issue));
      var _ :- EnsureAvailable(path);
      var _ :- Ask(faults);
      if branch in git.branches {
        if reuse == Reject {
          return Failure;
        }
        if reuse == ExactBase && git.branches[branch] != base {
          return Failure;
        }
      }
      CreatedIsDelivered(layout, git, issue, base, reuse);
      var _ :- AddDelivery(path, branch, base, faults);
      return Success(Workspace(path, Some(branch), base, Created));
    }

    /** Give a proposal a detached checkout of `base`. */
    method PrepareProposal(id: int, validBranch: bool, base: Option<Commit>, reuse: Reuse, faults: bool)
      returns (r: Result<Workspace>)
      requires Valid()
      modifies this
      ensures Kept()
      ensures git.branches == old(git).branches
      ensures id > 0 ==> OnlyAdds(old(git), git, layout.root.Child(ProposalName(id)), "")
      ensures id <= 0 ==> git == old(git)
      ensures r.Success? ==> id > 0 && base == Some(r.value.base)
      ensures r.Success? ==> Proposed(layout, Pruned(old(git)), git, id, reuse, r.value)
      ensures !faults ==>
                (r.Success? <==> id > 0 && validBranch && base.Some?
                                 && MayPropose(layout, Pruned(old(git)), id, base.value, reuse))
    {
      hide IsRun, Retained, ProposalName;
      if id <= 0 || !validBranch || base.None? {
        return Failure;
      }
      var _ :- Prune(faults);
      r := ProposePruned(id, base.value, reuse, faults);
    }

    method ProposePruned(id: nat, base: Commit, reuse: Reuse, faults: bool) returns (r: Result<Workspace>)
      requires Valid() && git == Pruned(git)
      modifies this
      ensures Kept()
      ensures git.branches == old(git).branches
      ensures OnlyAdds(old(git), git, layout.root.Child(ProposalName(id)), "")
      ensures r.Success? ==> base == r.value.base && Proposed(layout, old(git), git, id, reuse, r.value)
      ensures !faults ==> (r.Success? <==> MayPropose(layout, old(git), id, base, reuse))
    {
      hide IsRun, Retained, IsDeliveryName;
      var path := layout.root.Child(ProposalName(id));
      var existing :- RegisteredWorktree(path, faults);
      if existing.Some? {
        if reuse == Reject || existing.value.branch.Some? {
          return Failure;
        }
        // The path is under the root by construction, so `EnsureManaged` would accept it.
        ChildIsManaged(layout, ProposalName(id));
        assert layout.Managed(existing.value.path);
        if reuse == ExactBase {
          var _ :- RequireCleanExactBase(existing.value.path, base, faults);
        }
        return Success(Workspace(existing.value.path, None, base, Reused));
      }
      ChildIsManaged(layout, ProposalName(id));
      NamesAreDistinct(id, id);
      var _ :- EnsureAvailable(path);
      var _ :- Place(path, Detached(base), faults);
      return Success(Workspace(path, None, base, Created));
    }

    // ----- Removal -----

    method PreviewCleanup(path: Path, faults: bool) returns (r: Result<Preview>)
      ensures r.Success? ==> Removable(layout, git, path) && path in git.worktrees && r.value == PreviewOf(git, path)
      ensures !faults ==> (r.Success? <==> Removable(layout, git, path) && path in git.worktrees)
    {
      var _ :- EnsureManaged(path);
      var registered :- RegisteredWorktree(path, faults);
      if registered.None? {
        return Failure;
      }
      var _ :- Ask(faults);
      if path !in git.nodes || !git.nodes[path].Folder? {
        return Failure;
      }
      return Success(Preview(path, registered.value.branch, git.nodes[path].dirty));
    }

    /** Removal of a managed directory that Git does not recognise. */
    method RemoveOrphaned(path: Path, faults: bool) returns (r: Result<Preview>)
      requires Valid() && layout.Managed(path) && path !in git.worktrees
      modifies this
      ensures Kept()
      ensures r.Success? ==> git == Without(old(git), path) && r.value == PreviewOf(old(git), path)
      ensures r.Success? ==> path in old(git).nodes ==> old(git).nodes[path].Folder?
      ensures OnlyAt(old(git), git, path)
      ensures path in old(git).nodes && !old(git).nodes[path].Folder? ==> r.Failure? && git == old(git)
      ensures !faults ==> (r.Failure? <==> path in old(git).nodes && !old(git).nodes[path].Folder?)
    {
      hide IsRun;
      if path in git.nodes {
        if !git.nodes[path].Folder? {
          return Failure;
        }
        var _ :- DeleteFiles(path, faults);
        Do(Erase(path), git.(nodes := git.nodes - {path}));
      }
      assert git == Without(old(git), path);
      return Success(Preview(path, None, false));
    }

    /** Operator cleanup: a preview, or with confirmation the removal of whatever is
        there, local changes included. */
    method Cleanup(path: Path, confirm: bool, faults: bool) returns (r: Result<Preview>)
      requires Valid()
      modifies this
      ensures Kept()
      ensures r.Success? ==> layout.Managed(path) && r.value == PreviewOf(old(git), path)
      ensures r.Success? && confirm ==> Removable(layout, old(git), path) && git == Without(old(git), path)
      ensures !confirm || !layout.Managed(path) ==> git == old(git)
      ensures OnlyAt(old(git), git, path)
      ensures !faults && confirm ==> (r.Success? <==> Removable(layout, old(git), path))
    {
      hide IsRun;
      var _ :- EnsureManaged(path);
      var registered :- RegisteredWorktree(path, faults);
      if registered.None? {
        if !confirm {
          return Success(Preview(path, None, false));
        }
        r := RemoveOrphaned(path, faults);
        return;
      }
      var preview :- PreviewCleanup(path, faults);
      if confirm {
        var _ :- RemoveWorktree(path, preview.dirty, faults);
      }
      return Success(preview);
    }

    /** Automatic cleanup of a delivery: never a checkout with local changes. */
    method CleanupClean(path: Path, faults: bool) returns (r: Result<Preview>)
      requires Valid()
      modifies this
      ensures Kept()
      ensures r.Success? ==> Removable(layout, old(git), path) && git == Without(old(git), path)
      ensures r.Success? ==> r.value == PreviewOf(old(git), path) && !r.value.dirty
      ensures Dirty(old(git), path) || !layout.Managed(path) ==> r.Failure? && git == old(git)
      ensures OnlyAt(old(git), git, path)
      ensures !faults ==> (r.Success? <==> Removable(layout, old(git), path) && !Dirty(old(git), path))
    {
      hide IsRun;
      var _ :- EnsureManaged(path);
      var registered :- RegisteredWorktree(path, faults);
      if registered.None? {
        r := RemoveOrphaned(path, faults);
        return;
      }
      var preview :- PreviewCleanup(path, faults);
      if preview.dirty {
        return Failure;
      }
      var _ :- RemoveWorktree(path, false, faults);
      return Success(preview);
    }

    /** Cleanup of a proposal: whatever is there goes. */
    method CleanupDisposable(path: Path, faults: bool) returns (r: Result<Preview>)
      requires Valid()
      modifies this
      ensures Kept()
      ensures r.Success? ==> Removable(layout, old(git), path) && git == Without(old(git), path)
      ensures r.Success? ==> r.value == PreviewOf(old(git), path)
      ensures !layout.Managed(path) ==> r.Failure? && git == old(git)
      ensures OnlyAt(old(git), git, path)
      ensures !faults ==> (r.Success? <==> Removable(layout, old(git), path))
    {
      hide IsRun;
      var _ :- EnsureManaged(path);
      var registered :- RegisteredWorktree(path, faults);
      if registered.None? {
        r := RemoveOrphaned(path, faults);
        return;
      }
      var preview :- PreviewCleanup(path, faults);
      var _ :- RemoveWorktree(path, true, faults);
      return Success(preview);
    }
  }
}
