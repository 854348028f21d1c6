/** Branches, registered worktrees and directories, and the single effects that Git
    commands and the workspace manager have on them. */
module Worktrees {
  import opened Outcomes
  import opened Strings

  const MAX_RETAINED_WORKSPACES: nat := 10

  type Commit = string

  datatype Path = Path(absolute: bool, parts: seq<string>) {
    predicate Lexical() {
      absolute && ".." !in parts
    }

    predicate ChildOf(parent: Path) {
      parts != [] && this.(parts := parts[..|parts| - 1]) == parent
    }

    function Child(name: string): (child: Path)
      ensures child.ChildOf(this) && child.parts[|child.parts| - 1] == name
    {
      this.(parts := parts + [name])
    }

    predicate Under(ancestor: Path) {
      absolute == ancestor.absolute && ancestor.parts <= parts
    }
  }

  /** Where the primary checkout is and where workspaces are kept. */
  datatype Layout = Layout(repository: Path, root: Path) {
    predicate Disjoint() {
      && repository.Lexical() && root.Lexical()
      && !repository.Under(root) && !root.Under(repository)
    }

    predicate Managed(path: Path) {
      path.Lexical() && path != repository && path.ChildOf(root)
    }
  }

  datatype Node = File | Folder(dirty: bool)

  datatype Checkout = OnBranch(branch: string) | Detached(commit: Commit)

  datatype Git = Git(branches: map<string, Commit>, worktrees: map<Path, Checkout>, nodes: map<Path, Node>)

  // ----- Names -----

  function Digit(n: nat): char
    requires n < 10
  {
    (n + '0' as int) as char
  }

  function Decimal(n: nat): (text: string)
    ensures text != []
  {
    if n < 10 then [Digit(n)] else Decimal(n / 10) + [Digit(n % 10)]
  }

  function DeliveryBranch(issue: nat): string {
    "factory/" + Decimal(issue)
  }

  function DeliveryName(issue: nat): string {
    "issue-" + Decimal(issue)
  }

  function ProposalName(id: nat): string {
    "proposal-" + Decimal(id)
  }

  predicate IsDeliveryName(name: string) {
    "issue-" <= name && Digits(name[|"issue-"|..])
  }

  predicate IsDeliveryPath(path: Path) {
    path.parts != [] && IsDeliveryName(path.parts[|path.parts| - 1])
  }

  lemma {:induction false} DecimalIsDigits(n: nat)
    ensures Digits(Decimal(n))
  {
    if n >= 10 {
      DecimalIsDigits(n / 10);
    }
  }

  lemma {:induction false} DecimalIsInjective(m: nat, n: nat)
    requires Decimal(m) == Decimal(n)
    ensures m == n
  {
    var a, b := Decimal(m), Decimal(n);
    assert a[|a| - 1] == Digit(m % 10) && b[|b| - 1] == Digit(n % 10);
    if m >= 10 && n >= 10 {
      assert a[..|a| - 1] == Decimal(m / 10) && b[..|b| - 1] == Decimal(n / 10);
      DecimalIsInjective(m / 10, n / 10);
    } else {
      assert m >= 10 ==> |a| > 1;
      assert n >= 10 ==> |b| > 1;
    }
  }

  /** Distinct issues have distinct branches and directories, all of them counted by
      the retention limit; proposals have directories of their own. */
  lemma NamesAreDistinct(issue: nat, other: nat)
    ensures IsDeliveryName(DeliveryName(issue)) && !IsDeliveryName(ProposalName(other))
    ensures issue != other ==>
              && DeliveryBranch(issue) != DeliveryBranch(other)
              && DeliveryName(issue) != DeliveryName(other)
              && ProposalName(issue) != ProposalName(other)
  {
    DecimalIsDigits(issue);
    var a, b := Decimal(issue), Decimal(other);
    assert DeliveryName(issue)[6..] == a && DeliveryName(other)[6..] == b;
    assert DeliveryBranch(issue)[8..] == a && DeliveryBranch(other)[8..] == b;
    assert ProposalName(issue)[9..] == a && ProposalName(other)[9..] == b;
    assert ProposalName(other)[0] == 'p';
    if issue != other && a == b {
      DecimalIsInjective(issue, other);
    }
  }

  /** A name counts as a delivery's exactly if it is "issue-" and a decimal number. */
  lemma DeliveryNamesAre(name: string)
    ensures IsDeliveryName(name) <==>
            exists digits: string :: name == "issue-" + digits && digits != "" && forall c <- digits :: '0' <= c <= '9'
    ensures DeliveryBranch(39) == "factory/39" && DeliveryName(40) == "issue-40" && ProposalName(91) == "proposal-91"
  {
    if IsDeliveryName(name) {
      assert name == "issue-" + name[6..];
    }
    forall digits: string | name == "issue-" + digits && digits != "" && forall c <- digits :: '0' <= c <= '9'
      ensures IsDeliveryName(name)
    {
      assert name[6..] == digits;
    }
    assert Decimal(39) == Decimal(3) + [Digit(9)] && Decimal(40) == Decimal(4) + [Digit(0)];
    assert Decimal(91) == Decimal(9) + [Digit(1)];
  }

  // ----- What a state shows -----

  function BranchOf(checkout: Checkout): Option<string> {
    if checkout.OnBranch? then Some(checkout.branch) else None
  }

  /** The commit that a worktree has checked out. */
  function HeadOf(git: Git, path: Path): Option<Commit> {
    if path !in git.worktrees then None
    else match git.worktrees[path]
      case Detached(commit) => Some(commit)
      case OnBranch(branch) => if branch in git.branches then Some(git.branches[branch]) else None
  }

  predicate CleanAt(git: Git, path: Path, base: Commit) {
    path in git.nodes && git.nodes[path] == Folder(false) && HeadOf(git, path) == Some(base)
  }

  predicate Holds(git: Git, path: Path, branch: string) {
    path in git.worktrees && git.worktrees[path] == OnBranch(branch)
  }

  predicate Free(git: Git, branch: string) {
    forall path <- git.worktrees :: git.worktrees[path] != OnBranch(branch)
  }

  /** The `issue-N` directories under the root. */
  function Retained(layout: Layout, git: Git): set<Path> {
    set path <- git.nodes.Keys | IsRetained(layout, git, path)
  }

  predicate IsRetained(layout: Layout, git: Git, path: Path) {
    path in git.nodes && git.nodes[path].Folder? && path.ChildOf(layout.root) && IsDeliveryPath(path)
  }

  /** `git worktree prune`: registrations of directories that are gone are dropped. */
  function Pruned(git: Git): Git {
    git.(worktrees := map path <- git.worktrees | path in git.nodes :: git.worktrees[path])
  }

  // ----- Effects -----

  datatype Effect =
    | CreateBranch(branch: string, commit: Commit)
    | MakeFolder(path: Path)
    | Register(path: Path, checkout: Checkout)
    | Unregister(path: Path)
    | Erase(path: Path)
    | Damage(path: Path)
    | Others(after: Git)

  /** One effect of the manager, with what its checks must have established, or any
      change by agents and operators. `Damage` is a removal that stopped after it had
      deleted some files. */
  ghost predicate Next(layout: Layout, git: Git, e: Effect, git': Git) {
    match e
    case CreateBranch(branch, commit) =>
      branch !in git.branches && git' == git.(branches := git.branches[branch := commit])
    case MakeFolder(path) =>
      && layout.Managed(path) && path !in git.nodes
      && (IsDeliveryPath(path) ==> |Retained(layout, git)| < MAX_RETAINED_WORKSPACES)
      && git' == git.(nodes := git.nodes[path := Folder(false)])
    case Register(path, checkout) =>
      && layout.Managed(path) && path in git.nodes && path !in git.worktrees
      && (checkout.OnBranch? ==> checkout.branch in git.branches && Free(git, checkout.branch))
      && git' == git.(worktrees := git.worktrees[path := checkout])
    case Unregister(path) =>
      && path in git.worktrees && (layout.Managed(path) || path !in git.nodes)
      && git' == git.(worktrees := git.worktrees - {path})
    case Erase(path) =>
      && layout.Managed(path) && path in git.nodes
      && git' == git.(nodes := git.nodes - {path})
    case Damage(path) =>
      && layout.Managed(path) && path in git.nodes && git.nodes[path].Folder?
      && git' == git.(nodes := git.nodes[path := Folder(true)])
    case Others(after) =>
      git' == after
  }

  // ----- Runs -----

  datatype Run = Run(states: seq<Git>, effects: seq<Effect>)

  ghost predicate IsRun(layout: Layout, run: Run) {
    && |run.states| == |run.effects| + 1
    && (forall i | 0 <= i < |run.effects| :: Next(layout, run.states[i], run.effects[i], run.states[i + 1]))
  }

  function Last(run: Run): Git
    requires run.states != []
  {
    run.states[|run.states| - 1]
  }

  function Extend(run: Run, e: Effect, git: Git): Run {
    Run(run.states + [git], run.effects + [e])
  }

  ghost predicate Continues(before: Run, after: Run) {
    before.states <= after.states && before.effects <= after.effects
  }

  predicate SameBranch(git: Git, git': Git, branch: string) {
    branch in git.branches && branch in git'.branches && git'.branches[branch] == git.branches[branch]
  }

  /** Nobody else moved or deleted `branch` in the steps from `i` to `j`. */
  ghost predicate OthersKeepBranch(run: Run, i: nat, j: nat, branch: string)
    requires j <= |run.effects| && |run.states| == |run.effects| + 1
  {
    forall k | i <= k < j && run.effects[k].Others? :: SameBranch(run.states[k], run.states[k + 1], branch)
  }

  /** No sequence of manager operations moves or deletes a branch that exists. */
  lemma {:induction false} BranchesNeverMove(layout: Layout, run: Run, i: nat, j: nat, branch: string)
    requires IsRun(layout, run) && i <= j < |run.states|
    requires branch in run.states[i].branches && OthersKeepBranch(run, i, j, branch)
    ensures SameBranch(run.states[i], run.states[j], branch)
  {
    if i < j {
      BranchesNeverMove(layout, run, i, j - 1, branch);
      assert Next(layout, run.states[j - 1], run.effects[j - 1], run.states[j]);
    }
  }

  /** A directory that exists at `path`, with what it holds and how Git knows it. */
  predicate SamePlace(git: Git, git': Git, path: Path) {
    && path in git.nodes && path in git'.nodes && git'.nodes[path] == git.nodes[path]
    && (path in git'.worktrees <==> path in git.worktrees)
    && (path in git.worktrees ==> git'.worktrees[path] == git.worktrees[path])
  }

  ghost predicate OthersKeepPlace(run: Run, i: nat, j: nat, path: Path)
    requires j <= |run.effects| && |run.states| == |run.effects| + 1
  {
    forall k | i <= k < j && run.effects[k].Others? :: SamePlace(run.states[k], run.states[k + 1], path)
  }

  /** Nothing outside the managed root is changed, the primary checkout included. */
  lemma {:induction false} OnlyManagedPlacesChange(layout: Layout, run: Run, i: nat, j: nat, path: Path)
    requires IsRun(layout, run) && i <= j < |run.states|
    requires !layout.Managed(path) && path in run.states[i].nodes && OthersKeepPlace(run, i, j, path)
    ensures SamePlace(run.states[i], run.states[j], path)
  {
    if i < j {
      OnlyManagedPlacesChange(layout, run, i, j - 1, path);
      assert Next(layout, run.states[j - 1], run.effects[j - 1], run.states[j]);
    }
  }

  ghost predicate OthersAddNoDelivery(layout: Layout, run: Run, i: nat)
    requires i <= |run.effects| && |run.states| == |run.effects| + 1
  {
    forall k | 0 <= k < i && run.effects[k].Others? ::
      Retained(layout, run.states[k + 1]) <= Retained(layout, run.states[k])
  }

  ghost predicate OthersKeepHold(run: Run, i: nat, j: nat, path: Path, branch: string)
    requires j <= |run.effects| && |run.states| == |run.effects| + 1
  {
    forall k | i <= k < j && run.effects[k].Others? && Holds(run.states[k], path, branch) ::
      Holds(run.states[k + 1], path, branch)
  }

  /** The manager itself takes a branch away from a directory only by dropping the
      registration of that very path. */
  lemma {:induction false} HeldUntilUnregistered(layout: Layout, run: Run, i: nat, j: nat, path: Path, branch: string)
    requires IsRun(layout, run) && i <= j < |run.states|
    requires Holds(run.states[i], path, branch) && OthersKeepHold(run, i, j, path, branch)
    requires forall k | i <= k < j :: run.effects[k] != Unregister(path)
    ensures Holds(run.states[j], path, branch)
  {
    if i < j {
      HeldUntilUnregistered(layout, run, i, j - 1, path, branch);
      assert Next(layout, run.states[j - 1], run.effects[j - 1], run.states[j]);
    }
  }

  lemma CardinalityOfSubset<T>(a: set<T>, b: set<T>)
    requires a <= b
    ensures |a| <= |b|
  {
    assert b == a + (b - a);
  }

  lemma StepKeepsBound(layout: Layout, git: Git, e: Effect, git': Git, bound: nat)
    requires Next(layout, git, e, git') && |Retained(layout, git)| <= bound && bound >= MAX_RETAINED_WORKSPACES
    requires e.Others? ==> Retained(layout, git') <= Retained(layout, git)
    ensures |Retained(layout, git')| <= bound
  {
    if e.MakeFolder? {
      if IsDeliveryPath(e.path) {
        assert Retained(layout, git') <= Retained(layout, git) + {e.path};
        CardinalityOfSubset(Retained(layout, git'), Retained(layout, git) + {e.path});
      } else {
        assert Retained(layout, git') <= Retained(layout, git);
        CardinalityOfSubset(Retained(layout, git'), Retained(layout, git));
      }
    } else {
      assert Retained(layout, git') <= Retained(layout, git);
      CardinalityOfSubset(Retained(layout, git'), Retained(layout, git));
    }
  }

  /** Creation never takes the number of `issue-N` directories above ten: a run that
      starts within the limit stays there. */
  lemma {:induction false} RetentionIsBounded(layout: Layout, run: Run, i: nat, bound: nat)
    requires IsRun(layout, run) && i < |run.states| && OthersAddNoDelivery(layout, run, i)
    requires |Retained(layout, run.states[0])| <= bound && bound >= 10
    ensures |Retained(layout, run.states[i])| <= bound
  {
    if i > 0 {
      RetentionIsBounded(layout, run, i - 1, bound);
      StepKeepsBound(layout, run.states[i - 1], run.effects[i - 1], run.states[i], bound);
    }
  }
}
