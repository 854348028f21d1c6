/** The fleet poller: when a target is due, how its due time advances and where its
    first poll falls. Instants and intervals are in milliseconds. */
module Polling {
  import opened Outcomes
  import opened Health

  const ACTIVE_POLLS: nat := 2
  const U64: nat := 0x1_0000_0000_0000_0000

  datatype Target = Target(identity: string, interval: nat, due: int)

  // ----- The first poll -----

  /** `polling_stagger` for a 64-bit hash. */
  function Stagger(hash: nat, interval: nat): (offset: nat)
    ensures 0 < interval ==> offset < interval
  {
    if interval == 0 then 0 else hash % interval
  }

  /** The wait until the next instant of the target's residue class. */
  function Wait(hash: nat, interval: nat, now: nat): nat
    requires 0 < interval
  {
    var due := now - now % interval + Stagger(hash, interval);
    if due <= now then due + interval - now else due - now
  }

  /** `delay_to_next_poll`; the result is cast to 64 bits. */
  function DelayToNextPoll(hash: nat, interval: nat, now: int): Result<nat> {
    if interval == 0 || now < 0 then Failure else Success(Wait(hash, interval, now) % U64)
  }

  lemma Ordered(x: int, y: int, m: nat)
    requires x < y
    ensures x * m + m <= y * m
  {
    assert (y - x - 1) * m >= 0;
    assert y * m == (y - x - 1) * m + x * m + m;
  }

  lemma Remainder(a: int, q: int, r: int, m: nat)
    requires 0 < m && a == q * m + r && 0 <= r < m
    ensures a % m == r
  {
    var p := a / m;
    assert a == p * m + a % m;
    if p < q {
      Ordered(p, q, m);
    } else if q < p {
      Ordered(q, p, m);
    }
  }

  lemma SmallRemainder(a: nat, m: nat)
    requires a < m
    ensures a % m == a
  {
  }

  lemma ModAddMultiple(a: int, k: int, m: nat)
    requires 0 < m
    ensures (a + k * m) % m == a % m
  {
    var q := a / m;
    assert a == q * m + a % m;
    assert (q + k) * m == q * m + k * m;
    Remainder(a + k * m, q + k, a % m, m);
  }

  /** Adding at most one period to an instant wraps its residue at most once. */
  lemma ModShift(a: nat, d: nat, m: nat)
    requires 0 < m && d <= m
    ensures (a + d) % m == if a % m + d < m then a % m + d else a % m + d - m
  {
    var q, r := a / m, a % m;
    assert a == q * m + r;
    if r + d < m {
      Remainder(a + d, q, r + d, m);
    } else {
      assert (q + 1) * m == q * m + m;
      Remainder(a + d, q + 1, r + d - m, m);
    }
  }

  /** The wait is positive, at most one interval, and ends in the residue class that the
      hash fixes. */
  lemma WaitHitsTheGrid(hash: nat, interval: nat, now: nat)
    requires 0 < interval
    ensures 0 < Wait(hash, interval, now) <= interval
    ensures (now + Wait(hash, interval, now)) % interval == hash % interval == Stagger(hash, interval)
  {
    ModShift(now, Wait(hash, interval, now), interval);
  }

  /** The stagger is the remainder of the hash, so it is the hash itself below the interval;
      without an interval there is none. */
  lemma StaggerIsTheRemainder(hash: nat, k: nat, interval: nat)
    requires hash < interval
    ensures Stagger(hash + k * interval, interval) == hash
    ensures Stagger(hash, 0) == 0
  {
    ModAddMultiple(hash, k, interval);
    SmallRemainder(hash, interval);
  }

  /** There is a delay exactly for a positive interval and a clock not before the epoch; it
      fits 64 bits and differs from the wait by a multiple of 2^64. */
  lemma DelayExistsExactlyWhen(hash: nat, interval: nat, now: int)
    ensures DelayToNextPoll(hash, interval, now).Success? <==> 0 < interval && 0 <= now
    ensures 0 < interval && 0 <= now ==>
              var delay, wait := DelayToNextPoll(hash, interval, now).value, Wait(hash, interval, now);
              0 <= delay < 18_446_744_073_709_551_616 && (wait - delay) % 18_446_744_073_709_551_616 == 0
  {
  }

  /** The start delay lies in (0, interval] and lands in the target's residue class, at
      every start, exactly when the wait fits the 64-bit cast. */
  lemma DelayIsOnTheGridExactlyWhenItFits(hash: nat, interval: nat, now: nat)
    requires 0 < interval
    ensures var delay := DelayToNextPoll(hash, interval, now).value;
            (0 < delay <= interval && (now + delay) % interval == hash % interval)
            <==> Wait(hash, interval, now) < 18_446_744_073_709_551_616
  {
    hide Wait;
    var w := Wait(hash, interval, now);
    var delay := w % U64;
    WaitHitsTheGrid(hash, interval, now);
    if w < U64 {
      SmallRemainder(w, U64);
    } else {
      assert delay < w;
      if 0 < delay {
        ModShift(now, delay, interval);
        ModShift(now, w, interval);
      }
    }
  }

  /** For every hash: with an interval of 2^65 ms, a target that starts right at its residue
      has a whole interval to wait, which is cast to nothing. */
  lemma DelayCanMissTheGrid(hash: nat) returns (interval: nat, now: nat)
    requires hash < U64
    ensures 0 < interval && Wait(hash, interval, now) == interval
    ensures DelayToNextPoll(hash, interval, now) == Success(0)
  {
    interval, now := 2 * U64, hash;
    SmallRemainder(hash, interval);
  }

  /** Every restart keeps the phase of a target whose waits fit the cast; below 2^64 ms all
      of them do. */
  lemma RestartKeepsPhase(hash: nat, interval: nat, before: nat, after: nat)
    requires 0 < interval
    ensures interval < U64 ==> Wait(hash, interval, before) < U64 && Wait(hash, interval, after) < U64
    ensures Wait(hash, interval, before) < U64 && Wait(hash, interval, after) < U64 ==>
              (before + DelayToNextPoll(hash, interval, before).value) % interval
              == (after + DelayToNextPoll(hash, interval, after).value) % interval
  {
    hide Wait, Stagger;
    WaitHitsTheGrid(hash, interval, before);
    WaitHitsTheGrid(hash, interval, after);
    if Wait(hash, interval, before) < U64 && Wait(hash, interval, after) < U64 {
      SmallRemainder(Wait(hash, interval, before), U64);
      SmallRemainder(Wait(hash, interval, after), U64);
    }
  }

  // ----- Due times -----

  /** `r` is the first point of the grid `due + k * interval`, `k >= 1`, after `now`. */
  ghost predicate IsNextTick(r: int, due: int, interval: nat, now: int) {
    now < r && (r - interval <= now || r - interval == due) && exists k: nat :: 1 <= k && r == due + k * interval
  }

  lemma NextTickIsLeast(r: int, due: int, interval: nat, now: int, k: nat)
    requires 0 < interval && IsNextTick(r, due, interval, now)
    requires 1 <= k && now < due + k * interval
    ensures r <= due + k * interval
  {
    var j: nat :| 1 <= j && r == due + j * interval;
    if k < j {
      Ordered(k, j, interval);
      Ordered(0, k, interval);
    }
  }

  lemma NextTickKeepsPhase(r: int, due: int, interval: nat, now: int)
    requires 0 < interval && IsNextTick(r, due, interval, now)
    ensures r % interval == due % interval
  {
    var k: nat :| 1 <= k && r == due + k * interval;
    ModAddMultiple(due, k, interval);
  }

  /** It is later than `now`, on the grid, and the least such point. */
  lemma NextTickExactlyWhen(r: int, due: int, interval: nat, now: int)
    requires 0 < interval
    ensures IsNextTick(r, due, interval, now) <==>
              && now < r
              && (exists k: nat :: 1 <= k && r == due + k * interval)
              && (forall k: nat | 1 <= k && now < due + k * interval :: r <= due + k * interval)
  {
    if IsNextTick(r, due, interval, now) {
      forall k: nat | 1 <= k && now < due + k * interval
        ensures r <= due + k * interval
      {
        NextTickIsLeast(r, due, interval, now, k);
      }
    } else if j: nat :| 1 <= j && r == due + j * interval {
      assert r - interval == due + (j - 1) * interval;
    }
  }

  /** What other threads write while the poller runs: the repositories' retry instants
      and the shared pause. */
  datatype View = View(retries: map<string, int>, pause: Option<int>)

  function RetryOf(view: View, identity: string): Option<int> {
    if identity in view.retries then Some(view.retries[identity]) else None
  }

  /** `effective_poll_due`: the latest of the target's own due time, its repository's
      retry and the shared pause. */
  function EffectiveDue(t: Target, view: View): int {
    var retry := RetryOf(view, t.identity);
    var own := if retry.Some? then Max(t.due, retry.value) else t.due;
    if view.pause.Some? then Max(own, view.pause.value) else own
  }

  predicate MayPoll(t: Target, view: View, now: int) {
    && t.due <= now
    && (t.identity in view.retries ==> view.retries[t.identity] <= now)
    && (view.pause.Some? ==> view.pause.value <= now)
  }

  lemma EffectiveDueIsTheGate(t: Target, view: View, now: int)
    ensures EffectiveDue(t, view) <= now <==>
              && t.due <= now
              && (t.identity in view.retries ==> view.retries[t.identity] <= now)
              && (view.pause == None || view.pause.value <= now)
    ensures MayPoll(t, view, now) <==> EffectiveDue(t, view) <= now
    ensures t.due <= EffectiveDue(t, view)
  {
  }

  /** Some evaluation since `from` found `t` due. */
  predicate SeenDue(seen: seq<View>, from: nat, t: Target, now: int) {
    exists k: nat :: from <= k < |seen| && MayPoll(t, seen[k], now)
  }

  predicate SeenNotDue(seen: seq<View>, from: nat, t: Target, now: int) {
    exists k: nat :: from <= k < |seen| && !MayPoll(t, seen[k], now)
  }

  /** Nobody wrote in between: all evaluations since `from` read the same. */
  predicate Steady(seen: seq<View>, from: nat, view: View) {
    forall k: nat | from <= k < |seen| :: seen[k] == view
  }

  /** The started targets come in the order of their effective due times, and no other
      target was due earlier. */
  ghost predicate InOrder(targets: seq<Target>, started: seq<nat>, view: View) {
    && (forall k | 0 <= k < |started| :: started[k] < |targets|)
    && (forall k, l | 0 <= k < l < |started| ::
          EffectiveDue(targets[started[k]], view) <= EffectiveDue(targets[started[l]], view))
    && (forall k, i: nat | 0 <= k < |started| && i < |targets| && i !in started ::
          EffectiveDue(targets[started[k]], view) <= EffectiveDue(targets[i], view))
  }

  lemma NothingInOrder(targets: seq<Target>, view: View)
    ensures InOrder(targets, [], view)
  {
  }

  lemma OneMoreInOrder(before: seq<Target>, now: seq<Target>, started: seq<nat>, next: nat, view: View)
    requires InOrder(before, started, view) && |now| == |before| && next < |before| && next !in started
    requires forall i: nat | i < |now| && i !in started :: now[i] == before[i]
    requires forall i: nat | i < |now| :: EffectiveDue(now[next], view) <= EffectiveDue(now[i], view)
    ensures InOrder(before, started + [next], view)
  {
    hide EffectiveDue;
    var more := started + [next];
    assert forall i | i !in more :: i !in started;
    forall k, i: nat | 0 <= k < |more| && i < |before| && i !in more
      ensures EffectiveDue(before[more[k]], view) <= EffectiveDue(before[i], view)
    {
      assert i !in started && now[i] == before[i] && now[next] == before[next];
      assert k < |started| ==> more[k] == started[k];
    }
  }

  lemma SeenLonger(before: seq<View>, after: seq<View>, start: nat)
    requires before <= after && start <= |before|
    ensures forall t, now | SeenDue(before, start, t, now) :: SeenDue(after, start, t, now)
    ensures forall t, now | SeenDue(after, |before|, t, now) :: SeenDue(after, start, t, now)
    ensures forall t, now | SeenNotDue(after, |before|, t, now) :: SeenNotDue(after, start, t, now)
    ensures forall view | Steady(after, start, view) :: Steady(before, start, view) && Steady(after, |before|, view)
  {
  }

  lemma NextTickIsLater(r: int, due: int, interval: nat, now: int)
    requires IsNextTick(r, due, interval, now)
    ensures now < r
  {
  }

  class Poller {
    var targets: seq<Target>
    var active: nat

    /** What the evaluations read, in order. */
    ghost var seen: seq<View>

    ghost predicate Valid()
      reads this
    {
      active <= ACTIVE_POLLS && forall t <- targets :: 0 < t.interval
    }

    constructor (targets: seq<Target>)
      requires forall t <- targets :: 0 < t.interval
      ensures Valid() && this.targets == targets && active == 0 && seen == []
    {
      this.targets := targets;
      active, seen := 0, [];
    }

    method AdvancePollDue(i: nat, now: int)
      requires Valid() && i < |targets|
      modifies `targets
      ensures Valid() && |targets| == |old(targets)|
      ensures targets == old(targets)[i := old(targets)[i].(due := targets[i].due)]
      ensures IsNextTick(targets[i].due, old(targets)[i].due, targets[i].interval, now)
    {
      var due, interval := targets[i].due, targets[i].interval;
      var next := due + interval;
      ghost var k: nat := 1;
      while next <= now
        invariant next == due + k * interval && 1 <= k
        invariant next - interval <= now || next - interval == due
        decreases now - next
      {
        next := next + interval;
        k := k + 1;
      }
      targets := targets[i := targets[i].(due := next)];
    }

    /** One evaluation of a target's effective due time, with the values of that moment. */
    method Evaluate(i: nat) returns (due: int)
      requires i < |targets|
      modifies `seen
      ensures |seen| == |old(seen)| + 1 && old(seen) <= seen
      ensures due == EffectiveDue(targets[i], seen[|old(seen)|])
    {
      var view: View := *;
      seen := seen + [view];
      due := EffectiveDue(targets[i], view);
    }

    /** The first of the targets that are due, by effective due time. Each target is
        evaluated once to filter it and, if it is due, again for its key. */
    method NextTarget(now: int, ghost view: View) returns (r: Option<nat>)
      modifies `seen
      ensures old(seen) <= seen
      ensures r.None? ==> forall i: nat | i < |targets| :: SeenNotDue(seen, |old(seen)|, targets[i], now)
      ensures r.Some? ==> r.value < |targets| && SeenDue(seen, |old(seen)|, targets[r.value], now)
      ensures r.Some? ==> targets[r.value].due <= now
      ensures Steady(seen, |old(seen)|, view) && r.Some? ==> forall i: nat | i < |targets| ::
                && EffectiveDue(targets[r.value], view) <= EffectiveDue(targets[i], view)
                && (i < r.value ==> EffectiveDue(targets[r.value], view) < EffectiveDue(targets[i], view))
    {
      hide EffectiveDue, MayPoll;
      r := None;
      var least := 0;
      for i := 0 to |targets|
        invariant old(seen) <= seen
        invariant r.None? ==> forall j: nat | j < i :: SeenNotDue(seen, |old(seen)|, targets[j], now)
        invariant r.Some? ==> r.value < i && SeenDue(seen, |old(seen)|, targets[r.value], now)
        invariant r.Some? ==> targets[r.value].due <= now
        invariant Steady(seen, |old(seen)|, view) && r.Some? ==>
                    least == EffectiveDue(targets[r.value], view) && least <= now
        invariant Steady(seen, |old(seen)|, view) ==> forall j: nat | j < i ::
                    if r.Some?
                    then && least <= EffectiveDue(targets[j], view)
                         && (j < r.value ==> least < EffectiveDue(targets[j], view))
                    else now < EffectiveDue(targets[j], view)
      {
        ghost var before := seen;
        var due := Evaluate(i);
        EffectiveDueIsTheGate(targets[i], seen[|before|], now);
        if due <= now {
          var key := Evaluate(i);
          if r.None? || key < least {
            r, least := Some(i), key;
          }
        }
      }
    }

    /** Fills the free poll slots with the earliest targets that are due. Each of them
        had its own due time, its repository's retry and the shared pause behind it at
        some moment of the pass, none is taken twice, and afterwards both slots are busy
        or every target was found not due. If nobody writes meanwhile, the targets start
        in the order of their effective due times, before all others. */
    method DispatchDue(now: int, ghost view: View) returns (started: seq<nat>)
      requires Valid()
      modifies this
      ensures Valid() && active == old(active) + |started|
      ensures |targets| == |old(targets)| && old(seen) <= seen
      ensures forall k | 0 <= k < |started| ::
                started[k] < |targets| && SeenDue(seen, |old(seen)|, old(targets)[started[k]], now)
      ensures forall k, l | 0 <= k < l < |started| :: started[k] != started[l]
      ensures forall i | 0 <= i < |targets| ::
                if i in started
                then targets[i] == old(targets)[i].(due := targets[i].due)
                     && IsNextTick(targets[i].due, old(targets)[i].due, targets[i].interval, now)
                else targets[i] == old(targets)[i]
      ensures active <= 2
      ensures active == 2 || forall t <- targets :: SeenNotDue(seen, |old(seen)|, t, now)
      ensures Steady(seen, |old(seen)|, view) ==> InOrder(old(targets), started, view)
    {
      hide EffectiveDue, IsNextTick, InOrder, SeenDue, SeenNotDue, Steady;
      started := [];
      NothingInOrder(targets, view);
      while active < ACTIVE_POLLS
        invariant Valid() && active == old(active) + |started|
        invariant |targets| == |old(targets)| && old(seen) <= seen
        invariant forall k | 0 <= k < |started| ::
                    started[k] < |targets| && SeenDue(seen, |old(seen)|, old(targets)[started[k]], now)
        invariant forall k, l | 0 <= k < l < |started| :: started[k] != started[l]
        invariant forall i | 0 <= i < |targets| ::
          if i in started
          then targets[i] == old(targets)[i].(due := targets[i].due)
               && IsNextTick(targets[i].due, old(targets)[i].due, targets[i].interval, now)
          else targets[i] == old(targets)[i]
        invariant forall i <- started :: now < targets[i].due
        invariant Steady(seen, |old(seen)|, view) ==> InOrder(old(targets), started, view)
        decreases ACTIVE_POLLS - active
      {
        ghost var before := seen;
        var next := NextTarget(now, view);
        SeenLonger(before, seen, |old(seen)|);
        if next.None? {
          break;
        }
        assert next.value !in started;
        if Steady(seen, |old(seen)|, view) {
          OneMoreInOrder(old(targets), targets, started, next.value, view);
        }
        AdvancePollDue(next.value, now);
        NextTickIsLater(targets[next.value].due, old(targets)[next.value].due, targets[next.value].interval, now);
        active := active + 1;
        started := started + [next.value];
      }
    }

    /** A poll came back; a failure that is not a rate limit moves the due time to the
        repository's retry instant. */
    method FinishPoll(i: nat, retryAt: Option<int>)
      requires Valid() && i < |targets| && 0 < active
      modifies this
      ensures Valid() && active == old(active) - 1 < 2
      ensures targets == if retryAt.Some? then old(targets)[i := old(targets)[i].(due := retryAt.value)]
          else old(targets)
    {
      active := active - 1;
      if retryAt.Some? {
        targets := targets[i := targets[i].(due := retryAt.value)];
      }
    }
  }
}
