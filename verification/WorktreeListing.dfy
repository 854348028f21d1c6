/** Reading `git worktree list --porcelain`. */
module WorktreeListing {
  import opened Outcomes
  import opened Strings

  datatype Worktree = Worktree(path: string, branch: Option<string>)

  const WORKTREE := "worktree "
  const BRANCH := "branch refs/heads/"

  /** What has been read so far: the finished worktrees and the one in progress. */
  datatype Progress = Progress(done: seq<Worktree>, path: Option<string>, branch: Option<string>) {
    function Read(line: string): Progress {
      if line == "" then
        if path.Some? then Progress(done + [Worktree(path.value, branch)], None, None) else this
      else if StripPrefix(line, WORKTREE).Some? then this.(path := StripPrefix(line, WORKTREE))
      else if StripPrefix(line, BRANCH).Some? then this.(branch := StripPrefix(line, BRANCH))
      else this
    }
  }

  const NOTHING_READ := Progress([], None, None)

  function ReadAll(p: Progress, lines: seq<string>): Progress
    decreases |lines|
  {
    if lines == [] then p else ReadAll(p.Read(lines[0]), lines[1..])
  }

  lemma {:induction false} ReadAllConcat(p: Progress, a: seq<string>, b: seq<string>)
    decreases |a|
    ensures ReadAll(p, a + b) == ReadAll(ReadAll(p, a), b)
  {
    if a == [] {
      assert a + b == b;
    } else {
      assert (a + b)[1..] == a[1..] + b;
      ReadAllConcat(p.Read(a[0]), a[1..], b);
    }
  }

  // ----- The printed form -----

  /** Git prints a worktree as a block of lines closed by an empty one: its path first,
      then attributes, of which only a branch matters here. */
  datatype Block = Block(path: string, before: seq<string>, branch: Option<string>, after: seq<string>) {
    predicate WellFormed() {
      && (forall line <- before :: Neutral(line))
      && (forall line <- after :: Neutral(line))
    }

    function Print(): seq<string> {
      ["worktree " + path] + before + (if branch.Some? then ["branch refs/heads/" + branch.value] else []) + after
        + [""]
    }
  }

  /** A line that says nothing about paths or branches, such as HEAD or "detached". */
  predicate Neutral(line: string) {
    line != "" && !("worktree " <= line) && !("branch refs/heads/" <= line)
  }

  function PrintAll(blocks: seq<Block>): seq<string> {
    if blocks == [] then [] else blocks[0].Print() + PrintAll(blocks[1..])
  }

  function WorktreesOf(blocks: seq<Block>): (worktrees: seq<Worktree>)
    ensures |worktrees| == |blocks|
    ensures forall i | 0 <= i < |blocks| :: worktrees[i] == Worktree(blocks[i].path, blocks[i].branch)
  {
    seq(|blocks|, i requires 0 <= i < |blocks| => Worktree(blocks[i].path, blocks[i].branch))
  }

  lemma {:induction false} NeutralLinesAreSkipped(p: Progress, lines: seq<string>)
    requires forall line <- lines :: Neutral(line)
    ensures ReadAll(p, lines) == p
  {
    if lines != [] {
      assert Neutral(lines[0]);
      assert forall line <- lines[1..] :: line in lines;
      NeutralLinesAreSkipped(p, lines[1..]);
    }
  }

  lemma ReadPrefixed(p: Progress, value: string)
    ensures p.Read(WORKTREE + value) == p.(path := Some(value))
    ensures p.Read(BRANCH + value) == p.(branch := Some(value))
  {
    assert (WORKTREE + value)[|WORKTREE|..] == value;
    assert (BRANCH + value)[|BRANCH|..] == value;
    assert (BRANCH + value)[0] == 'b';
  }

  lemma ReadOne(p: Progress, line: string)
    ensures ReadAll(p, [line]) == p.Read(line)
  {
    assert ReadAll(p.Read(line), [line][1..]) == p.Read(line);
  }

  lemma ReadBlock(done: seq<Worktree>, block: Block)
    requires block.WellFormed()
    ensures ReadAll(Progress(done, None, None), block.Print())
            == Progress(done + [Worktree(block.path, block.branch)], None, None)
  {
    hide Neutral;
    var branch := if block.branch.Some? then [BRANCH + block.branch.value] else [];
    var head, start := [WORKTREE + block.path], Progress(done, None, None);
    var named := start.(path := Some(block.path));
    var whole := named.(branch := block.branch);
    ReadPrefixed(start, block.path);
    ReadOne(start, head[0]);
    NeutralLinesAreSkipped(named, block.before);
    if block.branch.Some? {
      ReadPrefixed(named, block.branch.value);
      ReadOne(named, branch[0]);
    }
    NeutralLinesAreSkipped(whole, block.after);
    ReadOne(whole, "");
    ReadAllConcat(start, head, block.before);
    ReadAllConcat(start, head + block.before, branch);
    ReadAllConcat(start, head + block.before + branch, block.after);
    ReadAllConcat(start, head + block.before + branch + block.after, [""]);
  }

  lemma {:induction false} ReadBlocks(done: seq<Worktree>, blocks: seq<Block>)
    requires forall block <- blocks :: block.WellFormed()
    ensures ReadAll(Progress(done, None, None), PrintAll(blocks)) == Progress(done + WorktreesOf(blocks), None, None)
    decreases |blocks|
  {
    hide Block.WellFormed, Block.Print;
    if blocks == [] {
      assert done + WorktreesOf(blocks) == done;
    } else {
      var first := Worktree(blocks[0].path, blocks[0].branch);
      assert forall block <- blocks[1..] :: block in blocks;
      ReadBlock(done, blocks[0]);
      ReadBlocks(done + [first], blocks[1..]);
      ReadAllConcat(Progress(done, None, None), blocks[0].Print(), PrintAll(blocks[1..]));
      assert done + WorktreesOf(blocks) == (done + [first]) + WorktreesOf(blocks[1..]);
    }
  }

  /** What the lines of one listing mean; a listing without worktrees is an error. */
  function Parse(lines: seq<string>): Result<seq<Worktree>> {
    var worktrees := ReadAll(NOTHING_READ, lines + [""]).done;
    if worktrees == [] then Failure else Success(worktrees)
  }

  /** Parsing what Git prints gives back every worktree, in order, with its own branch
      and no other; the closing empty line of the last block may be missing. */
  lemma ParseOfPrinted(blocks: seq<Block>)
    requires blocks != [] && forall block <- blocks :: block.WellFormed()
    ensures Parse(PrintAll(blocks)) == Success(WorktreesOf(blocks))
    ensures forall lines | lines + [""] == PrintAll(blocks) :: Parse(lines) == Success(WorktreesOf(blocks))
  {
    hide Block.WellFormed, Block.Print;
    ReadBlocks([], blocks);
    ReadAllConcat(NOTHING_READ, PrintAll(blocks), [""]);
    ReadOne(ReadAll(NOTHING_READ, PrintAll(blocks)), "");
    assert [] + WorktreesOf(blocks) == WorktreesOf(blocks);
  }

  method ParseWorktrees(lines: seq<string>) returns (r: Result<seq<Worktree>>)
    ensures r == Parse(lines)
  {
    var result: seq<Worktree>, path: Option<string>, branch: Option<string> := [], None, None;
    var all := lines + [""];
    for i := 0 to |all|
      invariant ReadAll(NOTHING_READ, all) == ReadAll(Progress(result, path, branch), all[i..])
    {
      var line := all[i];
      assert all[i..][1..] == all[i + 1..];
      if line == "" {
        if path.Some? {
          result, path, branch := result + [Worktree(path.value, branch)], None, None;
        }
      } else if WORKTREE <= line {
        path := Some(line[|WORKTREE|..]);
      } else if BRANCH <= line {
        branch := Some(line[|BRANCH|..]);
      }
    }
    assert all[|all|..] == [];
    return if result == [] then Failure else Success(result);
  }
}
