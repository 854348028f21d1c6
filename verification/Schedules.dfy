/** Schedule stepping: the minute scan that repairs occurrences which the cron library
    skips around a clock change, and the catch-up loop. Instants are UTC milliseconds;
    the schedule and its time zone appear as a predicate on instants. */
module Schedules {
  import opened Outcomes

  const MINUTE: nat := 60_000
  const SCAN: nat := 3 * 60 * MINUTE

  /** `includes` is the schedule seen through its time zone; `candidate(a)` is the
      library's next occurrence after `a`, if it finds one. */
  datatype Schedule = Schedule(includes: int -> bool, candidate: int -> Option<int>)

  ghost predicate Honest(s: Schedule) {
    forall a :: s.candidate(a).Some? ==> a < s.candidate(a).value
  }

  predicate WholeMinute(t: int) {
    t % 60_000 == 0
  }

  function Min(a: int, b: int): int {
    if a < b then a else b
  }

  /** The first whole minute after an instant. */
  function NextMinute(t: int): int {
    (t / MINUTE + 1) * MINUTE
  }

  lemma NextMinuteIsNext(t: int)
    ensures WholeMinute(NextMinute(t)) && t < NextMinute(t) <= t + MINUTE
    ensures forall m | t < m && WholeMinute(m) :: NextMinute(t) <= m
  {
  }

  /** An included whole minute that the scan after `after` has to look at. */
  ghost predicate Overlooked(s: Schedule, after: int, candidate: int, m: int) {
    after < m <= Min(candidate, after + SCAN) && WholeMinute(m) && s.includes(m)
  }

  /** What `next_occurrence` promises: an instant strictly later, which is the first
      included whole minute of the scan if there is one and the candidate otherwise. */
  ghost predicate IsNext(s: Schedule, after: int, candidate: int, next: int) {
    if exists m :: Overlooked(s, after, candidate, m)
    then Overlooked(s, after, candidate, next) && forall m | Overlooked(s, after, candidate, m) :: next <= m
    else next == candidate
  }

  lemma NextIsLaterAndUnique(s: Schedule, after: int, candidate: int, a: int, b: int)
    requires after < candidate && IsNext(s, after, candidate, a) && IsNext(s, after, candidate, b)
    ensures a == b && after < a <= candidate
  {
  }

  method NextOccurrence(s: Schedule, after: int) returns (r: Result<int>)
    requires Honest(s)
    ensures r.Failure? <==> s.candidate(after).None?
    ensures r.Success? ==> after < r.value && IsNext(s, after, s.candidate(after).value, r.value)
  {
    var found := s.candidate(after);
    if found.None? {
      return Failure;
    }
    var candidate := found.value;
    var scanUntil := Min(candidate, after + SCAN);
    var probe := NextMinute(after);
    NextMinuteIsNext(after);
    while probe <= scanUntil
      invariant WholeMinute(probe) && after < probe
      invariant forall m | Overlooked(s, after, candidate, m) :: probe <= m
      decreases scanUntil - probe
    {
      if s.includes(probe) {
        assert Overlooked(s, after, candidate, probe);
        return Success(probe);
      }
      probe := probe + MINUTE;
    }
    return Success(candidate);
  }

  // ----- Catching up -----

  /** `chain` starts at `due`, every element but the last is due, and each one follows
      from the one before. */
  ghost predicate IsChain(s: Schedule, due: int, chain: seq<int>) {
    && chain != [] && chain[0] == due
    && (forall i | 0 <= i < |chain| - 1 ::
          s.candidate(chain[i]).Some? && IsNext(s, chain[i], s.candidate(chain[i]).value, chain[i + 1]))
  }

  lemma {:induction false} ChainIncreases(s: Schedule, due: int, chain: seq<int>, i: nat, j: nat)
    requires Honest(s) && IsChain(s, due, chain) && i < j < |chain|
    ensures chain[i] < chain[j]
    decreases j
  {
    NextIsLaterAndUnique(s, chain[j - 1], s.candidate(chain[j - 1]).value, chain[j], chain[j]);
    if i < j - 1 {
      ChainIncreases(s, due, chain, i, j - 1);
    }
  }

  /** The library jumped over `m` after an element of the chain, and `m` lay beyond the
      window that the scan repairs. */
  ghost predicate JumpedOver(s: Schedule, chain: seq<int>, m: int) {
    exists i: nat :: JumpsAt(s, chain, i, m)
  }

  predicate JumpsAt(s: Schedule, chain: seq<int>, i: nat, m: int) {
    && i + 1 < |chain|
    && chain[i] + 10_800_000 < m && s.candidate(chain[i]).Some? && m < s.candidate(chain[i]).value == chain[i + 1]
  }

  /** The catch-up chain skips an included whole minute exactly when the library jumped
      over it and it lies beyond the scan window. */
  lemma SkippedExactlyWhenJumpedOver(s: Schedule, due: int, chain: seq<int>, m: int)
    requires Honest(s) && IsChain(s, due, chain)
    requires due < m < chain[|chain| - 1] && WholeMinute(m) && s.includes(m)
    ensures m !in chain <==> JumpedOver(s, chain, m)
  {
    if m !in chain {
      var i := LastBefore(chain, m);
      var candidate := s.candidate(chain[i]).value;
      NextIsLaterAndUnique(s, chain[i], candidate, chain[i + 1], chain[i + 1]);
      assert chain[i + 1] in chain;
      assert !Overlooked(s, chain[i], candidate, m);
      assert JumpsAt(s, chain, i, m);
    }
    if JumpedOver(s, chain, m) && m in chain {
      var i: nat :| JumpsAt(s, chain, i, m);
      var j :| 0 <= j < |chain| && chain[j] == m;
      if j < i {
        ChainIncreases(s, due, chain, j, i);
      } else if i + 1 < j {
        ChainIncreases(s, due, chain, i + 1, j);
      }
    }
  }

  /** Such a schedule: it includes minutes at four and at five hours, and the library goes
      from midnight straight to the later one. */
  lemma MinuteCanBeMissed() returns (s: Schedule, chain: seq<int>, m: int)
    ensures Honest(s) && IsChain(s, 0, chain) && JumpedOver(s, chain, m)
    ensures 0 < m < chain[|chain| - 1] && WholeMinute(m) && s.includes(m) && m !in chain
  {
    var four, five := 240 * MINUTE, 300 * MINUTE;
    s := Schedule(t => t == four || t == five, a => if a < five then Some(five) else None);
    chain, m := [0, five], four;
    assert forall t :: !Overlooked(s, 0, five, t);
    assert JumpsAt(s, chain, 0, m);
    SkippedExactlyWhenJumpedOver(s, 0, chain, m);
  }

  /** The last element below `m` of a chain that starts below and ends above it. */
  lemma LastBefore(chain: seq<int>, m: int) returns (i: nat)
    requires chain != [] && chain[0] < m < chain[|chain| - 1]
    ensures i < |chain| - 1 && chain[i] < m <= chain[i + 1]
  {
    i := 0;
    while chain[i + 1] < m
      invariant i < |chain| - 1 && chain[i] < m
      decreases |chain| - i
    {
      i := i + 1;
    }
  }

  /** The chain meets an included minute up to its end exactly when the library did not
      jump over that minute beyond the window, and nothing twice. */
  lemma ChainCoversEveryDueMinute(s: Schedule, due: int, chain: seq<int>, m: int)
    requires Honest(s) && IsChain(s, due, chain)
    requires due < m <= chain[|chain| - 1] && WholeMinute(m) && s.includes(m)
    ensures m in chain <==> !JumpedOver(s, chain, m)
    ensures forall i, j | 0 <= i < j < |chain| :: chain[i] != chain[j]
  {
    var last := |chain| - 1;
    if m < chain[last] {
      SkippedExactlyWhenJumpedOver(s, due, chain, m);
    } else {
      assert chain[last] in chain;
      if JumpedOver(s, chain, m) {
        var i: nat :| JumpsAt(s, chain, i, m);
        ChainIncreases(s, due, chain, i + 1, last);
      }
    }
    forall i, j | 0 <= i < j < |chain|
      ensures chain[i] != chain[j]
    {
      ChainIncreases(s, due, chain, i, j);
    }
  }

  class ScheduledTarget {
    const schedule: Schedule
    var due: int
    var enqueued: seq<int>

    constructor (schedule: Schedule, due: int)
      ensures this.schedule == schedule && this.due == due && enqueued == []
    {
      this.schedule, this.due, this.enqueued := schedule, due, [];
    }

    /** One occurrence: compute the next instant, then enqueue the present one; a refused
        write leaves everything as it was. */
    method EvaluateSchedule(accepted: bool) returns (r: Result<int>)
      requires Honest(schedule)
      modifies `enqueued
      ensures r.Success? <==> accepted && schedule.candidate(due).Some?
      ensures r.Success? ==>
                && due < r.value && IsNext(schedule, due, schedule.candidate(due).value, r.value)
                && enqueued == old(enqueued) + [due]
      ensures r.Failure? ==> enqueued == old(enqueued)
    {
      var next :- NextOccurrence(schedule, due);
      if !accepted {
        return Failure;
      }
      enqueued := enqueued + [due];
      return Success(next);
    }

    /** The catch-up loop ends, enqueues exactly the chain that leads from the first due
        instant to the new one, all of it at or before the bound, and without an error
        leaves the due time past the bound. */
    method EvaluateSchedules(through: int, refuseAt: Option<int>) returns (failed: bool)
      requires Honest(schedule)
      modifies this
      ensures exists chain: seq<int> ::
                && IsChain(schedule, old(due), chain + [due])
                && enqueued == old(enqueued) + chain
                && (forall t <- chain :: t <= through && refuseAt != Some(t))
      ensures if failed then due <= through && (refuseAt == Some(due) || schedule.candidate(due).None?)
          else through < due
    {
      ghost var chain: seq<int> := [];
      failed := false;
      while due <= through
        invariant IsChain(schedule, old(due), chain + [due])
        invariant enqueued == old(enqueued) + chain
        invariant forall t <- chain :: t <= through && refuseAt != Some(t)
        decreases through - due
      {
        var next := EvaluateSchedule(refuseAt != Some(due));
        if next.Failure? {
          failed := true;
          break;
        }
        ghost var longer := chain + [due];
        assert (longer + [next.value])[..|longer|] == longer;
        chain := longer;
        due := next.value;
      }
    }
  }
}
