/** The coordinator of host queries: two slots and one shared pause, used by any number
    of queries on any number of threads. One step is one access to the semaphore, to the
    lock of the pause or to the clock, so threads may interleave between any two. */
module HostQueries {
  import opened Outcomes
  import opened Health

  const SLOTS: nat := 2

  /** Where a query stands. `Looked` holds the pause it read; `Returned` the host's answer,
      in which `Some(retryAt)` is a rate limit whose own retry instant is optional. */
  datatype Point =
    | Entering
    | Sleeping(until: int)
    | Queued
    | Holding
    | Looked(seen: Option<int>)
    | Refused
    | Cleared
    | Running
    | Returned(limit: Option<Option<int>>)
    | Limited(retryAt: Option<int>)
    | Delayed(delay: nat)
    | Publishing(until: int)
    | Ended

  /** `operation` says that the query still has its operation. */
  datatype Query = Query(point: Point, operation: bool)

  datatype State = State(clock: int, slots: nat, pause: Option<int>, queries: seq<Query>)

  const NO_QUERIES: State := State(0, SLOTS, None, [])

  datatype Event =
    | Tick(elapsed: nat)
    | Arrive
    | Enter(q: nat)
    | Wake(q: nat)
    | Acquire(q: nat)
    | Read(q: nat)
    | Compare(q: nat)
    | Release(q: nat)
    | Start(q: nat)
    | Return(q: nat, limit: Option<Option<int>>)
    | Free(q: nat)
    | Measure(q: nat)
    | Schedule(q: nat)
    | Publish(q: nat)
    | Cancel(q: nat)

  predicate HoldsSlot(point: Point) {
    point.Holding? || point.Looked? || point.Refused? || point.Cleared? || point.Running? || point.Returned?
  }

  /** The operation has not been taken yet. */
  predicate Unstarted(point: Point) {
    point.Entering? || point.Sleeping? || point.Queued? || point.Holding? || point.Looked? || point.Refused?
    || point.Cleared?
  }

  predicate Before(clock: int, instant: Option<int>) {
    instant.Some? && clock < instant.value
  }

  predicate Legal(s: State, e: Event) {
    if e.Tick? || e.Arrive? then true
    else
      && e.q < |s.queries|
      && var point := s.queries[e.q].point;
         match e
         case Enter(_) => point.Entering?
         case Wake(_) => point.Sleeping? && point.until <= s.clock
         case Acquire(_) => point.Queued? && 0 < s.slots
         case Read(_) => point.Holding?
         case Compare(_) => point.Looked?
         case Release(_) => point.Refused?
         case Start(_) => point.Cleared?
         case Return(_, _) => point.Running?
         case Free(_) => point.Returned?
         case Measure(_) => point.Limited?
         case Schedule(_) => point.Delayed?
         case Publish(_) => point.Publishing?
         case Cancel(_) => point.Sleeping? || point.Queued? || point.Running?
  }

  function Moved(s: State, q: nat, point: Point): State
    requires q < |s.queries|
  {
    s.(queries := s.queries[q := s.queries[q].(point := point)])
  }

  /** The later of the pause so far and the new one. */
  function Later(pause: Option<int>, until: int): int {
    if pause.Some? then Max(pause.value, until) else until
  }

  function Apply(s: State, e: Event): State
    requires Legal(s, e)
  {
    match e
    case Tick(elapsed) => s.(clock := s.clock + elapsed)
    case Arrive => s.(queries := s.queries + [Query(Entering, true)])
    case Enter(q) => Moved(s, q, if s.pause.Some? then Sleeping(s.pause.value) else Queued)
    case Wake(q) => Moved(s, q, Queued)
    case Acquire(q) => Moved(s, q, Holding).(slots := s.slots - 1)
    case Read(q) => Moved(s, q, Looked(s.pause))
    case Compare(q) => Moved(s, q, if Before(s.clock, s.queries[q].point.seen) then Refused else Cleared)
    case Release(q) => Moved(s, q, Entering).(slots := s.slots + 1)
    case Start(q) => s.(queries := s.queries[q := Query(Running, false)])
    case Return(q, limit) => Moved(s, q, Returned(limit))
    case Free(q) =>
      var limit := s.queries[q].point.limit;
      Moved(s, q, if limit.Some? then Limited(limit.value) else Ended).(slots := s.slots + 1)
    case Measure(q) => Moved(s, q, Delayed(RateLimitDelay(s.queries[q].point.retryAt, s.clock)))
    case Schedule(q) => Moved(s, q, Publishing(s.clock + s.queries[q].point.delay))
    case Publish(q) => Moved(s, q, Ended).(pause := Some(Later(s.pause, s.queries[q].point.until)))
    case Cancel(q) => Moved(s, q, Ended).(slots := if s.queries[q].point.Running? then s.slots + 1 else s.slots)
  }

  // ----- Runs -----

  datatype Run = Run(states: seq<State>, events: seq<Event>)

  ghost predicate Next(s: State, e: Event, s': State) {
    Legal(s, e) && s' == Apply(s, e)
  }

  ghost predicate IsRun(run: Run) {
    && |run.states| == |run.events| + 1 && run.states[0] == NO_QUERIES
    && (forall i | 0 <= i < |run.events| :: Next(run.states[i], run.events[i], run.states[i + 1]))
  }

  ghost predicate Continues(before: Run, after: Run) {
    before.states <= after.states && before.events <= after.events
  }

  function Last(run: Run): State
    requires run.states != []
  {
    run.states[|run.states| - 1]
  }

  function Extend(run: Run, e: Event): Run
    requires run.states != [] && Legal(Last(run), e)
  {
    Run(run.states + [Apply(Last(run), e)], run.events + [e])
  }

  lemma ExtendIsRun(run: Run, e: Event)
    requires IsRun(run) && Legal(Last(run), e)
    ensures IsRun(Extend(run, e)) && Continues(run, Extend(run, e))
    ensures Last(Extend(run, e)) == Apply(Last(run), e) && Extend(run, e).events[|run.events|] == e
  {
    hide Apply;
  }

  // ----- Slots -----

  function Holders(queries: seq<Query>): set<nat> {
    set q: nat | q < |queries| && HoldsSlot(queries[q].point)
  }

  /** A query that may still start has its operation; one that started has spent it. */
  predicate Sound(query: Query) {
    if Unstarted(query.point) then query.operation else query.point.Ended? || !query.operation
  }

  /** The slots account for the queries that hold one. */
  ghost predicate Inv(s: State) {
    && s.slots + |Holders(s.queries)| == SLOTS
    && (forall q: nat | q < |s.queries| :: Sound(s.queries[q]))
  }

  function SlotsOf(query: Query): nat {
    if HoldsSlot(query.point) then 1 else 0
  }

  lemma HoldersAfter(queries: seq<Query>, q: nat, after: Query)
    requires q < |queries|
    ensures |Holders(queries[q := after])| + SlotsOf(queries[q]) == |Holders(queries)| + SlotsOf(after)
  {
    var rest := Holders(queries) - {q};
    assert Holders(queries) == if HoldsSlot(queries[q].point) then rest + {q} else rest;
    assert Holders(queries[q := after]) == if HoldsSlot(after.point) then rest + {q} else rest;
  }

  /** A step of a query changes that query alone and keeps the books. */
  lemma StepOfQuery(s: State, e: Event)
    requires Legal(s, e) && !e.Tick? && !e.Arrive?
    ensures |Apply(s, e).queries| == |s.queries|
    ensures Apply(s, e).queries == s.queries[e.q := Apply(s, e).queries[e.q]]
    ensures Apply(s, e).slots + SlotsOf(Apply(s, e).queries[e.q]) == s.slots + SlotsOf(s.queries[e.q])
    ensures Sound(s.queries[e.q]) ==> Sound(Apply(s, e).queries[e.q])
  {
  }

  lemma StepKeepsInv(s: State, e: Event)
    requires Inv(s) && Legal(s, e)
    ensures Inv(Apply(s, e))
  {
    var s' := Apply(s, e);
    if e.Arrive? {
      assert Holders(s'.queries) == Holders(s.queries);
    } else if !e.Tick? {
      StepOfQuery(s, e);
      hide Apply, Legal, Sound, HoldsSlot, Holders;
      HoldersAfter(s.queries, e.q, s'.queries[e.q]);
    }
  }

  lemma {:induction false} InvAlongRun(run: Run, i: nat)
    requires IsRun(run) && i < |run.states|
    ensures Inv(run.states[i])
  {
    hide Inv, Apply;
    if i > 0 {
      InvAlongRun(run, i - 1);
      assert Next(run.states[i - 1], run.events[i - 1], run.states[i]);
      StepKeepsInv(run.states[i - 1], run.events[i - 1]);
    } else {
      NoQueriesIsSound();
    }
  }

  lemma NoQueriesIsSound()
    ensures Inv(NO_QUERIES)
  {
    assert Holders([]) == {};
  }

  /** In every interleaving at most two operations are in flight. */
  lemma AtMostTwoInFlight(run: Run, i: nat)
    requires IsRun(run) && i < |run.states|
    ensures |set q: nat | q < |run.states[i].queries| && run.states[i].queries[q].point.Running?| <= 2
  {
    InvAlongRun(run, i);
    var queries := run.states[i].queries;
    SubsetIsSmaller((set q: nat | q < |queries| && queries[q].point.Running?), Holders(queries));
  }

  /** A query that is about to start has its operation. */
  lemma StarterHasOperation(run: Run, k: nat)
    requires IsRun(run) && k < |run.events| && run.events[k].Start?
    ensures var q := run.events[k].q; q < |run.states[k].queries| && run.states[k].queries[q].operation
  {
    InvAlongRun(run, k);
    assert Next(run.states[k], run.events[k], run.states[k + 1]);
  }

  lemma SubsetIsSmaller<T>(a: set<T>, b: set<T>)
    requires a <= b
    ensures |a| <= |b|
  {
    assert b == a + (b - a);
  }

  lemma StepKeepsSpent(s: State, e: Event, q: nat)
    requires Legal(s, e) && q < |s.queries| && !s.queries[q].operation
    ensures q < |Apply(s, e).queries| && !Apply(s, e).queries[q].operation
  {
  }

  lemma {:induction false} SpentStaysSpent(run: Run, i: nat, j: nat, q: nat)
    requires IsRun(run) && i <= j < |run.states|
    requires q < |run.states[i].queries| && !run.states[i].queries[q].operation
    ensures q < |run.states[j].queries| && !run.states[j].queries[q].operation
  {
    hide Apply;
    if i < j {
      SpentStaysSpent(run, i, j - 1, q);
      assert Next(run.states[j - 1], run.events[j - 1], run.states[j]);
      StepKeepsSpent(run.states[j - 1], run.events[j - 1], q);
    }
  }

  lemma StartSpends(s: State, e: Event)
    requires Legal(s, e) && e.Start?
    ensures e.q < |Apply(s, e).queries| && !Apply(s, e).queries[e.q].operation
  {
  }

  /** Every operation is consumed at most once: no query starts twice in any run. */
  lemma OperationRunsAtMostOnce(run: Run, i: nat, j: nat)
    requires IsRun(run) && i < j < |run.events| && run.events[i].Start? && run.events[j].Start?
    ensures run.events[i].q != run.events[j].q
  {
    hide Apply;
    assert Next(run.states[i], run.events[i], run.states[i + 1]);
    StartSpends(run.states[i], run.events[i]);
    if run.events[i].q == run.events[j].q {
      SpentStaysSpent(run, i + 1, j, run.events[i].q);
      StarterHasOperation(run, j);
    }
  }

  // ----- The pause -----

  lemma StepKeepsTime(s: State, e: Event)
    requires Legal(s, e)
    ensures s.clock <= Apply(s, e).clock
    ensures s.pause.Some? ==> Apply(s, e).pause.Some? && s.pause.value <= Apply(s, e).pause.value
  {
  }

  /** Neither the clock nor the pause ever moves back. */
  lemma {:induction false} PauseOnlyMovesLater(run: Run, i: nat, j: nat)
    requires IsRun(run) && i <= j < |run.states|
    ensures run.states[i].clock <= run.states[j].clock
    ensures run.states[i].pause.Some? ==>
              run.states[j].pause.Some? && run.states[i].pause.value <= run.states[j].pause.value
  {
    hide Apply;
    if i < j {
      PauseOnlyMovesLater(run, i, j - 1);
      assert Next(run.states[j - 1], run.events[j - 1], run.states[j]);
      StepKeepsTime(run.states[j - 1], run.events[j - 1]);
    }
  }

  /** `point` is what a query may be at after it read `seen` and before it starts. */
  predicate Admitted(point: Point, seen: Option<int>, clock: int) {
    point == Looked(seen) || (point.Cleared? && !Before(clock, seen))
  }

  predicate HasLooked(point: Point) {
    point.Looked? || point.Cleared?
  }

  /** The step before a query that has looked: it read just now, or it had looked then. */
  lemma LookedBack(s: State, e: Event, q: nat)
    requires Legal(s, e) && q < |Apply(s, e).queries| && HasLooked(Apply(s, e).queries[q].point)
    ensures if e == Read(q) then Apply(s, e).queries[q].point == Looked(s.pause)
            else q < |s.queries| && HasLooked(s.queries[q].point)
    ensures e != Read(q) ==> forall seen |
              Admitted(s.queries[q].point, seen, s.clock) ::
              Admitted(Apply(s, e).queries[q].point, seen, Apply(s, e).clock)
  {
  }

  /** Every query that has looked at the pause did so at some step, and from then on was
      let through by exactly what it saw there. */
  lemma {:induction false} LastRead(run: Run, q: nat, k: nat) returns (r: nat)
    requires IsRun(run) && k < |run.states|
    requires q < |run.states[k].queries| && HasLooked(run.states[k].queries[q].point)
    ensures r < k && run.events[r] == Read(q)
    ensures forall i | r < i <= k ::
              && q < |run.states[i].queries|
              && Admitted(run.states[i].queries[q].point, run.states[r].pause, run.states[i].clock)
  {
    hide Apply, Admitted, HasLooked;
    assert run.states[k].queries != [] && run.states[0].queries == [];
    LookedBack(run.states[k - 1], run.events[k - 1], q);
    if run.events[k - 1] == Read(q) {
      r := k - 1;
      LookedIsAdmitted(run.states[k].queries[q].point, run.states[r].pause, run.states[k].clock);
    } else {
      r := LastRead(run, q, k - 1);
    }
  }

  lemma LookedIsAdmitted(point: Point, seen: Option<int>, clock: int)
    requires point == Looked(seen)
    ensures Admitted(point, seen, clock)
  {
  }

  // ----- Starts inside a pause -----

  /** Step `k` starts an operation before the end of the pause that step `p` published. */
  ghost predicate StartsInside(run: Run, p: nat, k: nat)
    requires IsRun(run) && p < |run.events| && run.events[p].Publish?
  {
    && p < k < |run.events| && run.events[k].Start?
    && Before(run.states[k].clock, run.states[p + 1].pause)
  }

  lemma PublishSetsPause(run: Run, p: nat)
    requires IsRun(run) && p < |run.events| && run.events[p].Publish?
    ensures run.states[p + 1].pause.Some?
  {
    assert Next(run.states[p], run.events[p], run.states[p + 1]);
  }

  lemma StartIsLegal(run: Run, k: nat)
    requires IsRun(run) && k < |run.events| && run.events[k].Start?
    ensures run.events[k].q < |run.states[k].queries| && run.states[k].queries[run.events[k].q].point.Cleared?
  {
    assert Next(run.states[k], run.events[k], run.states[k + 1]);
  }

  /** A start after a publication falls inside the published pause exactly when the query
      had read the pause before the publication and the clock has not reached its end; a
      query that reads it afterwards always waits. At the moment of the publication such
      an early reader is already past its reading. */
  lemma StartInsideReadBefore(run: Run, p: nat, k: nat) returns (r: nat)
    requires IsRun(run) && p < |run.events| && run.events[p].Publish?
    requires p < k < |run.events| && run.events[k].Start?
    ensures r < k && r != p && run.events[r] == Read(run.events[k].q)
    ensures forall i | r < i < k :: run.events[i] != Read(run.events[k].q)
    ensures StartsInside(run, p, k) <==> r < p && Before(run.states[k].clock, run.states[p + 1].pause)
    ensures StartsInside(run, p, k) ==> MayStartBefore(run.states[p + 1], run.events[k].q)
  {
    hide Apply;
    var q := run.events[k].q;
    StartIsLegal(run, k);
    r := LastRead(run, q, k);
    forall i | r < i < k
      ensures run.events[i] != Read(q)
    {
      if run.events[i] == Read(q) {
        ReadNeedsHolding(run, i);
      }
    }
    PublishSetsPause(run, p);
    if p < r {
      PauseOnlyMovesLater(run, p + 1, r);
    } else if StartsInside(run, p, k) {
      PauseOnlyMovesLater(run, p + 1, k);
    }
  }

  lemma ReadNeedsHolding(run: Run, i: nat)
    requires IsRun(run) && i < |run.events| && run.events[i].Read?
    ensures run.events[i].q < |run.states[i].queries| && run.states[i].queries[run.events[i].q].point.Holding?
  {
    assert Next(run.states[i], run.events[i], run.states[i + 1]);
  }

  /** A query that got past its reading of the pause, and that what it read does not keep
      until the end of the present one. */
  predicate MayStartBefore(s: State, q: nat) {
    && q < |s.queries|
    && var point := s.queries[q].point;
       || point.Cleared?
       || (point.Looked? && (point.seen.Some? && s.pause.Some? ==> point.seen.value < s.pause.value))
  }

  /** Exactly which queries can still start inside a pause that was just published: the
      pause is not over, and the query had read an earlier, shorter pause by then. */
  lemma CanStartInsideExactlyWhen(run: Run, q: nat)
    requires IsRun(run) && run.events != [] && run.events[|run.events| - 1].Publish?
    ensures (exists more, k :: IsRun(more) && Continues(run, more) && |run.events| <= k < |more.events|
                               && more.events[k] == Start(q) && StartsInside(more, |run.events| - 1, k))
            <==> Before(Last(run).clock, Last(run).pause) && MayStartBefore(Last(run), q)
  {
    hide StartsInside, MayStartBefore, Next;
    var p := |run.events| - 1;
    forall more, k | IsRun(more) && Continues(run, more) && |run.events| <= k < |more.events|
                     && more.events[k] == Start(q) && StartsInside(more, p, k)
      ensures Before(Last(run).clock, Last(run).pause) && MayStartBefore(Last(run), q)
    {
      InsideMeans(run, more, q, k);
    }
    if Before(Last(run).clock, Last(run).pause) && MayStartBefore(Last(run), q) {
      var more, k := StartEarly(run, q);
    }
  }

  lemma InsideMeans(run: Run, more: Run, q: nat, k: nat)
    requires IsRun(run) && run.events != [] && run.events[|run.events| - 1].Publish?
    requires IsRun(more) && Continues(run, more) && |run.events| <= k < |more.events|
    requires more.events[k] == Start(q) && StartsInside(more, |run.events| - 1, k)
    ensures Before(Last(run).clock, Last(run).pause) && MayStartBefore(Last(run), q)
  {
    hide Next, MayStartBefore;
    var p := |run.events| - 1;
    var r := StartInsideReadBefore(more, p, k);
    assert more.states[p + 1] == Last(run);
    PauseOnlyMovesLater(more, p + 1, k);
  }

  /** Such a query waits for what it read, compares and starts. */
  lemma StartEarly(run: Run, q: nat) returns (more: Run, k: nat)
    requires IsRun(run) && run.events != [] && run.events[|run.events| - 1].Publish?
    requires Before(Last(run).clock, Last(run).pause) && MayStartBefore(Last(run), q)
    ensures IsRun(more) && Continues(run, more) && |run.events| <= k < |more.events|
    ensures more.events[k] == Start(q) && StartsInside(more, |run.events| - 1, k)
  {
    hide Next;
    more := run;
    var point := Last(run).queries[q].point;
    if point.Looked? {
      var wait := if Before(Last(run).clock, point.seen) then point.seen.value - Last(run).clock else 0;
      ExtendIsRun(more, Tick(wait));
      more := Extend(more, Tick(wait));
      ExtendIsRun(more, Compare(q));
      more := Extend(more, Compare(q));
    }
    ExtendIsRun(more, Start(q));
    k := |more.events|;
    more := Extend(more, Start(q));
    assert more.states[k].clock < Last(run).pause.value;
  }

  lemma {:induction false} DistinctElements(s: seq<nat>, all: set<nat>)
    requires forall i | 0 <= i < |s| :: s[i] in all
    requires forall i, j | 0 <= i < j < |s| :: s[i] != s[j]
    ensures |s| <= |all|
  {
    if s != [] {
      DistinctElements(s[1..], all - {s[0]});
    }
  }

  /** However the threads run, at most two operations start inside a published pause. */
  lemma AtMostTwoStartInside(run: Run, p: nat, ks: seq<nat>)
    requires IsRun(run) && p < |run.events| && run.events[p].Publish?
    requires forall i, j | 0 <= i < j < |ks| :: ks[i] < ks[j]
    requires forall i | 0 <= i < |ks| :: StartsInside(run, p, ks[i])
    ensures |ks| <= 2
  {
    hide Inv, Next;
    var queries := run.states[p + 1].queries;
    var qs: seq<nat> := seq(|ks|, i requires 0 <= i < |ks| => run.events[ks[i]].q);
    forall i | 0 <= i < |ks|
      ensures qs[i] in Holders(queries)
    {
      var r := StartInsideReadBefore(run, p, ks[i]);
    }
    forall i, j | 0 <= i < j < |ks|
      ensures qs[i] != qs[j]
    {
      OperationRunsAtMostOnce(run, ks[i], ks[j]);
    }
    DistinctElements(qs, Holders(queries));
    HoldersAreFew(run, p + 1);
  }

  lemma HoldersAreFew(run: Run, i: nat)
    requires IsRun(run) && i < |run.states|
    ensures |Holders(run.states[i].queries)| <= 2
  {
    InvAlongRun(run, i);
  }

  // ----- From the limit to the pause -----

  /** The instant that a limit asks for, or the fallback, counted from `clock`. */
  function Asked(retryAt: Option<int>, clock: int): (asked: int)
    ensures asked == if retryAt.Some? && clock < retryAt.value then retryAt.value else clock + 60_000
  {
    clock + RateLimitDelay(retryAt, clock)
  }

  predicate OwesPause(point: Point) {
    (point.Returned? && point.limit.Some?) || point.Limited? || point.Delayed? || point.Publishing?
  }

  /** What stands at `point` will publish a pause of at least `asked`, if it is the answer
      `retryAt` on its way there. */
  predicate WillServe(point: Point, retryAt: Option<int>, asked: int, clock: int) {
    match point
    case Returned(limit) => limit == Some(retryAt)
    case Limited(r) => r == retryAt
    case Delayed(delay) => asked <= clock + delay
    case Publishing(until) => asked <= until
    case _ => false
  }

  lemma OwesBack(s: State, e: Event, q: nat)
    requires Legal(s, e) && q < |Apply(s, e).queries| && OwesPause(Apply(s, e).queries[q].point)
    ensures if e.Return? && e.q == q then e.limit.Some? && Apply(s, e).queries[q].point == Returned(e.limit)
            else q < |s.queries| && OwesPause(s.queries[q].point)
    ensures !(e.Return? && e.q == q) ==> forall retryAt, from |
              from <= s.clock && WillServe(s.queries[q].point, retryAt, Asked(retryAt, from), s.clock) ::
              WillServe(Apply(s, e).queries[q].point, retryAt, Asked(retryAt, from), Apply(s, e).clock)
  {
  }

  /** The rate limit behind a pause that is about to be published. */
  lemma {:induction false} LimitBehind(run: Run, q: nat, k: nat) returns (m: nat)
    requires IsRun(run) && k < |run.states|
    requires q < |run.states[k].queries| && OwesPause(run.states[k].queries[q].point)
    ensures m < k && run.events[m].Return? && run.events[m].q == q && run.events[m].limit.Some?
    ensures var retryAt := run.events[m].limit.value;
            WillServe(run.states[k].queries[q].point, retryAt, Asked(retryAt, run.states[m].clock), run.states[k].clock)
  {
    hide Apply, OwesPause, WillServe, Asked;
    assert run.states[k].queries != [] && run.states[0].queries == [];
    var s, e := run.states[k - 1], run.events[k - 1];
    assert Next(s, e, run.states[k]);
    OwesBack(s, e, q);
    if e.Return? && e.q == q {
      m := k - 1;
      ReturnWillServe(e.limit.value, Asked(e.limit.value, s.clock), run.states[k].clock);
    } else {
      m := LimitBehind(run, q, k - 1);
      PauseOnlyMovesLater(run, m, k - 1);
    }
  }

  lemma ReturnWillServe(retryAt: Option<int>, asked: int, clock: int)
    ensures WillServe(Returned(Some(retryAt)), retryAt, asked, clock)
  {
  }

  /** A published pause lasts until the host's instant or, when the host named none that
      was still to come, until the fallback has passed since the answer. */
  lemma PauseServesTheLimit(run: Run, p: nat) returns (m: nat)
    requires IsRun(run) && p < |run.events| && run.events[p].Publish?
    ensures m < p && run.events[m].Return? && run.events[m].q == run.events[p].q && run.events[m].limit.Some?
    ensures run.states[p + 1].pause.Some?
    ensures Asked(run.events[m].limit.value, run.states[m].clock) <= run.states[p + 1].pause.value
  {
    hide Asked;
    assert Next(run.states[p], run.events[p], run.states[p + 1]);
    m := LimitBehind(run, run.events[p].q, p);
  }

  /** A query that reads the pause after a limit was published starts no earlier than the
      host asked. */
  lemma LateReadersServeTheLimit(run: Run, p: nat, r: nat, k: nat) returns (m: nat)
    requires IsRun(run) && p < r < k < |run.events| && run.events[p].Publish?
    requires run.events[k].Start? && run.events[r] == Read(run.events[k].q)
    ensures m < p && run.events[m].Return? && run.events[m].q == run.events[p].q && run.events[m].limit.Some?
    ensures Asked(run.events[m].limit.value, run.states[m].clock) <= run.states[k].clock
  {
    hide Asked, Next;
    m := PauseServesTheLimit(run, p);
    var last := StartInsideReadBefore(run, p, k);
  }

  // ----- Runs in which a limit comes too late -----

  lemma Take(run: Run, e: Event) returns (more: Run)
    requires IsRun(run) && Legal(Last(run), e)
    ensures IsRun(more) && Continues(run, more) && more.events == run.events + [e]
    ensures Last(more) == Apply(Last(run), e)
  {
    ExtendIsRun(run, e);
    more := Extend(run, e);
  }

  /** A new query gets a slot and is let through. */
  lemma Admit(run: Run) returns (more: Run)
    requires IsRun(run) && Last(run).pause.None? && 0 < Last(run).slots
    ensures IsRun(more) && Continues(run, more)
    ensures var s := Last(run);
            Last(more) == s.(slots := s.slots - 1, queries := s.queries + [Query(Cleared, true)])
  {
    hide Next;
    var q := |Last(run).queries|;
    more := Take(run, Arrive);
    more := Take(more, Enter(q));
    more := Take(more, Acquire(q));
    more := Take(more, Read(q));
    more := Take(more, Compare(q));
    assert Last(more).queries == Last(run).queries + [Query(Cleared, true)];
  }

  /** A query is told to wait without a retry instant and gives its slot back. */
  lemma GetLimited() returns (run: Run, m: nat)
    ensures IsRun(run) && m < |run.events| && run.events[m] == Return(0, Some(None))
    ensures Last(run) == State(0, SLOTS, None, [Query(Limited(None), false)])
  {
    hide Next;
    run := Run([NO_QUERIES], []);
    assert IsRun(run) by {
      EmptyRun();
    }
    run := Admit(run);
    assert Last(run).queries == [Query(Cleared, true)];
    run := Take(run, Start(0));
    m := |run.events|;
    run := Take(run, Return(0, Some(None)));
    run := Take(run, Free(0));
  }

  lemma EmptyRun()
    ensures IsRun(Run([NO_QUERIES], []))
  {
  }

  /** Two operations do run at the same time in some run. */
  lemma TwoRunTogether() returns (run: Run)
    ensures IsRun(run) && Last(run).queries == [Query(Running, false), Query(Running, false)]
  {
    hide Next;
    EmptyRun();
    run := Admit(Run([NO_QUERIES], []));
    run := Take(run, Start(0));
    run := Admit(run);
    run := Take(run, Start(1));
    assert Last(run).queries == [Query(Running, false), Query(Running, false)];
  }

  /** A publication leaves the later of the two instants, whoever published the other. */
  lemma PublishedPauseIsTheLater(s: State, q: nat)
    requires Legal(s, Publish(q))
    ensures var until, pause := s.queries[q].point.until, Apply(s, Publish(q)).pause;
            && pause.Some? && until <= pause.value && (s.pause.Some? ==> s.pause.value <= pause.value)
            && (pause.value == until || pause == s.pause)
  {
  }

  lemma GetPublished(run: Run) returns (more: Run)
    requires IsRun(run)
    requires Last(run) == State(0, 1, None, [Query(Limited(None), false), Query(Cleared, true)])
    ensures IsRun(more) && more.events != [] && more.events[|more.events| - 1] == Publish(0)
    ensures Last(more) == State(0, 1, Some(RATE_LIMIT_FALLBACK), [Query(Ended, false), Query(Cleared, true)])
  {
    hide Next;
    more := Take(run, Measure(0));
    more := Take(more, Schedule(0));
    more := Take(more, Publish(0));
  }

  /** A reachable run in which an operation starts inside a published pause: it read the
      pause just before the publication. */
  lemma StartInsideAPause() returns (run: Run, p: nat, k: nat)
    ensures IsRun(run) && p < |run.events| && run.events[p].Publish? && StartsInside(run, p, k)
  {
    hide Next, Apply, Legal;
    var limited, m := GetLimited();
    var admitted := Admit(limited);
    assert Last(admitted).queries == [Query(Limited(None), false), Query(Cleared, true)];
    var published := GetPublished(admitted);
    p := |published.events| - 1;
    run, k := StartEarly(published, 1);
  }

  /** Between the host's answer and its publication there is no bound: for every `n` a run
      in which `n` operations start after a limit came back and before it is published. */
  lemma {:induction false} StartsBeforePublication(n: nat) returns (run: Run, m: nat, ks: seq<nat>)
    ensures IsRun(run) && m < |run.events| && run.events[m] == Return(0, Some(None))
    ensures Last(run).pause.None? && Last(run).slots == SLOTS
    ensures Last(run).queries != [] && Last(run).queries[0].point == Limited(None)
    ensures |ks| == n && forall i, j | 0 <= i < j < n :: ks[i] < ks[j]
    ensures forall i | 0 <= i < n :: m < ks[i] < |run.events| && run.events[ks[i]].Start?
  {
    hide Next;
    if n == 0 {
      run, m := GetLimited();
      ks := [];
    } else {
      var before: Run, earlier: seq<nat>;
      before, m, earlier := StartsBeforePublication(n - 1);
      var q := |Last(before).queries|;
      run := Admit(before);
      var k := |run.events|;
      run := Take(run, Start(q));
      run := Take(run, Return(q, None));
      run := Take(run, Free(q));
      ks := earlier + [k];
    }
  }
}
