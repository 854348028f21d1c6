/** The fleet-wide admission semaphore: a counting semaphore whose permits go round
    robin over the repositories that wait. */
module Admission {
  import opened Outcomes

  /** `waiting[i]` is the sticky flag of repository `i`; `cursor` is where the next scan
      starts. */
  datatype Queue = Queue(available: nat, cursor: nat, waiting: seq<bool>)

  predicate WellFormed(q: Queue) {
    q.cursor < |q.waiting|
  }

  function Slot(q: Queue, offset: nat): (i: nat)
    requires WellFormed(q)
    ensures i < |q.waiting|
  {
    (q.cursor + offset) % |q.waiting|
  }

  function ScanFrom(q: Queue, offset: nat): Option<nat>
    requires WellFormed(q) && offset <= |q.waiting|
    decreases |q.waiting| - offset
  {
    if offset == |q.waiting| then None
    else if q.waiting[Slot(q, offset)] then Some(Slot(q, offset))
    else ScanFrom(q, offset + 1)
  }

  /** The first waiting repository at or after the cursor. */
  function NextWaiting(q: Queue): Option<nat>
    requires WellFormed(q)
  {
    ScanFrom(q, 0)
  }

  /** How many slots the cursor has to pass before it reaches `i`. */
  function Distance(q: Queue, i: nat): (d: nat)
    requires WellFormed(q) && i < |q.waiting|
    ensures d < |q.waiting|
  {
    if q.cursor <= i then i - q.cursor else i + |q.waiting| - q.cursor
  }

  lemma SlotDistance(q: Queue, offset: nat)
    requires WellFormed(q) && offset < |q.waiting|
    ensures Distance(q, Slot(q, offset)) == offset
  {
    Wrap(q.cursor + offset, |q.waiting|);
  }

  lemma Wrap(i: nat, n: nat)
    requires i < 2 * n
    ensures i % n == if i < n then i else i - n
  {
  }

  lemma DistanceSlot(q: Queue, i: nat)
    requires WellFormed(q) && i < |q.waiting|
    ensures Slot(q, Distance(q, i)) == i
  {
    Wrap(q.cursor + Distance(q, i), |q.waiting|);
  }

  lemma {:induction false} ScanFindsNearest(q: Queue, offset: nat)
    requires WellFormed(q) && offset <= |q.waiting|
    ensures match ScanFrom(q, offset)
            case None => forall j: nat | j < |q.waiting| && q.waiting[j] :: Distance(q, j) < offset
            case Some(i) =>
              && i < |q.waiting| && q.waiting[i] && offset <= Distance(q, i)
              && (forall j: nat | j < |q.waiting| && q.waiting[j] && offset <= Distance(q, j)
                  :: Distance(q, i) <= Distance(q, j))
    decreases |q.waiting| - offset
  {
    if offset < |q.waiting| {
      SlotDistance(q, offset);
      if !q.waiting[Slot(q, offset)] {
        ScanFindsNearest(q, offset + 1);
        forall j: nat | j < |q.waiting| && q.waiting[j] && offset <= Distance(q, j)
          ensures offset + 1 <= Distance(q, j)
        {
          DistanceSlot(q, j);
        }
      }
    }
  }

  /** The scan picks the waiting repository that is nearest to the cursor, and finds
      nobody only when nobody waits. */
  lemma NextIsNearest(q: Queue, i: nat)
    requires WellFormed(q) && i < |q.waiting|
    ensures NextWaiting(q) == Some(i) <==>
            q.waiting[i] && forall j: nat | j < |q.waiting| && q.waiting[j] :: Distance(q, i) <= Distance(q, j)
  {
    ScanFindsNearest(q, 0);
    var next := NextWaiting(q);
    if q.waiting[i] && next.Some? && next.value != i {
      DistanceSlot(q, i);
      DistanceSlot(q, next.value);
    }
  }

  function Registered(q: Queue, i: nat): Queue
    requires i < |q.waiting|
  {
    q.(waiting := q.waiting[i := true])
  }

  predicate Grants(q: Queue, i: nat)
    requires WellFormed(q) && i < |q.waiting|
  {
    0 < q.available && NextWaiting(Registered(q, i)) == Some(i)
  }

  function Tried(q: Queue, i: nat): (q': Queue)
    requires WellFormed(q) && i < |q.waiting|
    ensures WellFormed(q') && |q'.waiting| == |q.waiting|
  {
    if Grants(q, i)
    then Queue(q.available - 1, (i + 1) % |q.waiting|, q.waiting[i := false])
    else Registered(q, i)
  }

  /** A try is granted exactly when a permit is free and nobody who waits is nearer to the
      cursor, which is `d` slots before `i`. */
  lemma GrantedExactlyWhen(q: Queue, i: nat)
    requires WellFormed(q) && i < |q.waiting|
    ensures Distance(q, i) < |q.waiting| && (q.cursor + Distance(q, i)) % |q.waiting| == i
    ensures Grants(q, i) <==>
            0 < q.available && forall j: nat | j < |q.waiting| && q.waiting[j] :: Distance(q, i) <= Distance(q, j)
  {
    DistanceSlot(q, i);
    var with := Registered(q, i);
    NextIsNearest(with, i);
    assert forall j: nat | j < |q.waiting| :: Distance(with, j) == Distance(q, j);
    assert forall j: nat | j < |q.waiting| :: with.waiting[j] <==> q.waiting[j] || j == i;
  }

  /** What a try leaves behind: who is refused waits from then on; who is granted does not,
      and the cursor stands right behind it. Nobody else's flag changes. */
  lemma TryEffect(f: Fleet, i: nat)
    requires WellFormed(f.queue) && i < |f.queue.waiting|
    ensures Legal(f, Try(i))
    ensures var f', granted := Apply(f, Try(i)), Granted(f, [Try(i)]) == [i];
            && (granted <==> Grants(f.queue, i))
            && |f'.queue.waiting| == |f.queue.waiting| && f'.queue.waiting[i] == !granted
            && (forall j: nat | j < |f.queue.waiting| && j != i :: f'.queue.waiting[j] == f.queue.waiting[j])
            && f'.queue.cursor
               == (if !granted then f.queue.cursor else if i + 1 == |f.queue.waiting| then 0 else i + 1)
            && f'.queue.available == (if granted then f.queue.available - 1 else f.queue.available)
            && f'.held == (if granted then f.held + 1 else f.held)
  {
    NextSlot(i, |f.queue.waiting|);
    assert [Try(i)][1..] == [];
    assert Granted(Apply(f, Try(i)), []) == [];
  }

  /** When a permit is free and somebody waits, exactly one of the waiting repositories
      can take it. */
  lemma ExactlyOneWinner(q: Queue)
    requires WellFormed(q) && 0 < q.available
    requires exists i :: 0 <= i < |q.waiting| && q.waiting[i]
    ensures exists i :: 0 <= i < |q.waiting| && q.waiting[i] && Grants(q, i)
    ensures forall i, j | 0 <= i < |q.waiting| && 0 <= j < |q.waiting| && q.waiting[i] && q.waiting[j] ::
              Grants(q, i) && Grants(q, j) ==> i == j
  {
    ScanFindsNearest(q, 0);
    assert forall i | 0 <= i < |q.waiting| && q.waiting[i] :: Registered(q, i) == q;
    var winner := NextWaiting(q).value;
    assert Grants(q, winner);
  }

  // ----- Runs -----

  datatype Step = Try(i: nat) | Cancel(i: nat) | Release

  /** The queue together with the number of permits that are out. */
  datatype Fleet = Fleet(queue: Queue, held: nat)

  predicate Legal(f: Fleet, s: Step) {
    WellFormed(f.queue) &&
    match s
    case Try(i) => i < |f.queue.waiting|
    case Cancel(i) => i < |f.queue.waiting|
    case Release => 0 < f.held
  }

  function Apply(f: Fleet, s: Step): (f': Fleet)
    requires Legal(f, s)
    ensures WellFormed(f'.queue) && |f'.queue.waiting| == |f.queue.waiting|
  {
    match s
    case Try(i) => Fleet(Tried(f.queue, i), if Grants(f.queue, i) then f.held + 1 else f.held)
    case Cancel(i) => f.(queue := f.queue.(waiting := f.queue.waiting[i := false]))
    case Release => Fleet(f.queue.(available := f.queue.available + 1), f.held - 1)
  }

  predicate AllLegal(f: Fleet, steps: seq<Step>)
    decreases |steps|
  {
    steps == [] || (Legal(f, steps[0]) && AllLegal(Apply(f, steps[0]), steps[1..]))
  }

  function After(f: Fleet, steps: seq<Step>): Fleet
    requires AllLegal(f, steps)
    decreases |steps|
  {
    if steps == [] then f else After(Apply(f, steps[0]), steps[1..])
  }

  /** The repositories that got a permit, in order. */
  function Granted(f: Fleet, steps: seq<Step>): seq<nat>
    requires AllLegal(f, steps)
    decreases |steps|
  {
    if steps == [] then []
    else if steps[0].Try? && Grants(f.queue, steps[0].i)
    then [steps[0].i] + Granted(Apply(f, steps[0]), steps[1..])
    else Granted(Apply(f, steps[0]), steps[1..])
  }

  /** No permit is ever created or destroyed. */
  lemma {:induction false} PermitsAreConserved(f: Fleet, steps: seq<Step>)
    requires AllLegal(f, steps)
    ensures var f' := After(f, steps); f'.queue.available + f'.held == f.queue.available + f.held
    decreases |steps|
  {
    if steps != [] {
      PermitsAreConserved(Apply(f, steps[0]), steps[1..]);
    }
  }

  lemma NextSlot(i: nat, n: nat)
    requires i < n
    ensures (i + 1) % n == if i + 1 == n then 0 else i + 1
  {
  }

  /** A grant to somebody else brings the cursor strictly closer to `r`. */
  lemma ForeignGrant(q: Queue, i: nat, r: nat)
    requires WellFormed(q) && i < |q.waiting| && r < |q.waiting| && i != r
    requires q.waiting[r] && Grants(q, i)
    ensures Distance(q, i) < Distance(q, r)
    ensures Tried(q, i).waiting[r]
    ensures Distance(Tried(q, i), r) == Distance(q, r) - Distance(q, i) - 1
    ensures forall x: nat | x < |q.waiting| && Distance(Tried(q, i), x) < Distance(Tried(q, i), r) ::
              Distance(q, x) == Distance(Tried(q, i), x) + Distance(q, i) + 1
  {
    assert Distance(q, i) < Distance(q, r) by {
      NextIsNearest(Registered(q, i), i);
      assert Registered(q, i).waiting[r];
      assert Distance(Registered(q, i), i) == Distance(q, i) && Distance(Registered(q, i), r) == Distance(q, r);
    }
    hide Slot, ScanFrom, NextWaiting, Grants, Registered;
    NextSlot(i, |q.waiting|);
  }

  /** A step without a grant moves no one. */
  lemma NoGrantKeepsDistances(f: Fleet, s: Step, r: nat)
    requires Legal(f, s) && r < |f.queue.waiting| && f.queue.waiting[r] && s != Cancel(r)
    requires s.Try? ==> !Grants(f.queue, s.i)
    ensures Apply(f, s).queue.waiting[r]
    ensures forall x: nat | x < |f.queue.waiting| :: Distance(Apply(f, s).queue, x) == Distance(f.queue, x)
  {
    hide Grants;
  }

  /** Overtaking is bounded: while `r` waits and neither gets a permit nor gives up, the
      permits of any run go to pairwise different repositories, in the order in which
      the cursor meets them, and there are at most `Distance` of them. */
  lemma {:induction false} BoundedOvertaking(f: Fleet, steps: seq<Step>, r: nat)
    requires AllLegal(f, steps) && WellFormed(f.queue)
    requires r < |f.queue.waiting| && f.queue.waiting[r]
    requires Cancel(r) !in steps && r !in Granted(f, steps)
    ensures var g := Granted(f, steps);
            && (forall k | 0 <= k < |g| :: g[k] < |f.queue.waiting| && Distance(f.queue, g[k]) < Distance(f.queue, r))
            && (forall k, l | 0 <= k < l < |g| :: Distance(f.queue, g[k]) < Distance(f.queue, g[l]))
            && |g| <= Distance(f.queue, r)
    decreases |steps|
  {
    hide Grants, Tried, Distance;
    if steps != [] {
      var s, f', g := steps[0], Apply(f, steps[0]), Granted(f, steps);
      var g' := Granted(f', steps[1..]);
      assert s in steps;
      if s.Try? && Grants(f.queue, s.i) {
        assert g == [s.i] + g' && s.i in g;
        ForeignGrant(f.queue, s.i, r);
        BoundedOvertaking(f', steps[1..], r);
        forall k | 1 <= k < |g|
          ensures g[k] < |f.queue.waiting|
          ensures Distance(f.queue, g[k]) == Distance(f'.queue, g'[k - 1]) + Distance(f.queue, s.i) + 1
        {
          assert g[k] == g'[k - 1];
        }
      } else {
        NoGrantKeepsDistances(f, s, r);
        BoundedOvertaking(f', steps[1..], r);
      }
    }
  }

  /** The bound of the round robin: at most one permit for each of the other
      repositories. */
  lemma OvertakenAtMostOncePerRepository(f: Fleet, steps: seq<Step>, r: nat)
    requires AllLegal(f, steps) && WellFormed(f.queue)
    requires r < |f.queue.waiting| && f.queue.waiting[r]
    requires Cancel(r) !in steps && r !in Granted(f, steps)
    ensures var g := Granted(f, steps);
            |g| <= |f.queue.waiting| - 1 && forall k, l | 0 <= k < l < |g| :: g[k] != g[l]
  {
    BoundedOvertaking(f, steps, r);
  }

  lemma GrantedFirst(f: Fleet, steps: seq<Step>, r: nat)
    requires WellFormed(f.queue) && r < |f.queue.waiting| && AllLegal(f, [Try(r)] + steps)
    ensures AllLegal(Apply(f, Try(r)), steps)
    ensures Granted(f, [Try(r)] + steps)
            == (if Grants(f.queue, r) then [r] else []) + Granted(Apply(f, Try(r)), steps)
    ensures Grants(f.queue, r) ==> r in Granted(f, [Try(r)] + steps)
  {
    var all := [Try(r)] + steps;
    assert all[0] == Try(r) && all[1..] == steps;
  }

  /** The bound from a repository's own point of view, whoever waits at the start: from its
      try on, until it gets a permit or cancels, every other repository gets at most one. */
  lemma OvertakenAfterATry(f: Fleet, steps: seq<Step>, r: nat)
    requires WellFormed(f.queue) && r < |f.queue.waiting|
    requires AllLegal(f, [Try(r)] + steps)
    requires Cancel(r) !in steps && r !in Granted(f, [Try(r)] + steps)
    ensures var g := Granted(f, [Try(r)] + steps);
            && |g| <= |f.queue.waiting| - 1
            && (forall k | 0 <= k < |g| :: g[k] < |f.queue.waiting| && g[k] != r)
            && (forall k, l | 0 <= k < l < |g| :: g[k] != g[l])
  {
    GrantedFirst(f, steps, r);
    TryEffect(f, r);
    BoundedOvertaking(Apply(f, Try(r)), steps, r);
  }

  lemma {:induction false} OnlyTriersAreGranted(f: Fleet, steps: seq<Step>, r: nat)
    requires AllLegal(f, steps) && Try(r) !in steps
    ensures r !in Granted(f, steps)
    decreases |steps|
  {
    if steps != [] {
      OnlyTriersAreGranted(Apply(f, steps[0]), steps[1..], r);
      assert steps[0] in steps;
    }
  }

  /** The price of the sticky flag: a waiting repository that neither tries again nor
      cancels lets the whole fleet take fewer permits than it has repositories, however
      long the run and however many permits are free. */
  lemma SilentRepositoryStallsTheFleet(f: Fleet, steps: seq<Step>, r: nat)
    requires AllLegal(f, steps) && WellFormed(f.queue)
    requires r < |f.queue.waiting| && f.queue.waiting[r]
    requires Try(r) !in steps && Cancel(r) !in steps
    ensures |Granted(f, steps)| <= Distance(f.queue, r) < |f.queue.waiting|
  {
    OnlyTriersAreGranted(f, steps, r);
    BoundedOvertaking(f, steps, r);
  }

  /** The stall is real: with permits enough, the repositories before `r` take the whole
      bound, one each, and from then on nobody gets anything while `r` is silent. */
  lemma {:induction false} StallIsReached(f: Fleet, r: nat) returns (steps: seq<Step>)
    requires WellFormed(f.queue) && r < |f.queue.waiting| && f.queue.waiting[r]
    requires Distance(f.queue, r) <= f.queue.available
    ensures AllLegal(f, steps) && Try(r) !in steps && Cancel(r) !in steps
    ensures |Granted(f, steps)| == Distance(f.queue, r)
    ensures var q := After(f, steps).queue;
            WellFormed(q) && |q.waiting| == |f.queue.waiting| && q.waiting[r] && Distance(q, r) == 0
    ensures forall more | AllLegal(After(f, steps), more) && Try(r) !in more && Cancel(r) !in more ::
              Granted(After(f, steps), more) == []
    decreases Distance(f.queue, r)
  {
    var q := f.queue;
    if Distance(q, r) == 0 {
      steps := [];
      forall more | AllLegal(f, more) && Try(r) !in more && Cancel(r) !in more
        ensures Granted(f, more) == []
      {
        SilentRepositoryStallsTheFleet(f, more, r);
      }
    } else {
      var s := Try(q.cursor);
      NextIsNearest(Registered(q, q.cursor), q.cursor);
      ForeignGrant(q, q.cursor, r);
      var rest := StallIsReached(Apply(f, s), r);
      steps := [s] + rest;
      assert steps[1..] == rest;
    }
  }

  // ----- The object -----

  class FleetAdmission {
    const repositories: seq<string>
    const limit: nat
    var available: nat
    var cursor: nat
    var waiting: seq<bool>
    ghost var held: nat

    ghost function Contents(): Fleet
      reads this
    {
      Fleet(Queue(available, cursor, waiting), held)
    }

    ghost predicate Valid()
      reads this
    {
      && |waiting| == |repositories| && cursor < |waiting|
      && (forall i, j | 0 <= i < j < |repositories| :: repositories[i] != repositories[j])
      && available + held == limit
    }

    constructor (repositories: seq<string>, limit: nat)
      requires repositories != []
      requires forall i, j | 0 <= i < j < |repositories| :: repositories[i] != repositories[j]
      ensures Valid() && this.repositories == repositories && this.limit == limit
      ensures Contents() == Fleet(Queue(limit, 0, seq(|repositories|, _ => false)), 0)
    {
      this.repositories, this.limit := repositories, limit;
      available, cursor, held := limit, 0, 0;
      waiting := seq(|repositories|, _ => false);
    }

    /** `FleetAdmission::new`: refuses an empty fleet, a zero limit and duplicates. */
    static method New(repositories: seq<string>, limit: nat) returns (r: Option<FleetAdmission>)
      ensures r.Some? <==>
              repositories != [] && 0 < limit &&
              forall i, j | 0 <= i < j < |repositories| :: repositories[i] != repositories[j]
      ensures r.Some? ==>
                && fresh(r.value) && r.value.Valid() && r.value.repositories == repositories
                && r.value.Contents() == Fleet(Queue(limit, 0, seq(|repositories|, _ => false)), 0)
    {
      if repositories == [] || limit == 0 {
        return None;
      }
      var unique: set<string> := {};
      for k := 0 to |repositories|
        invariant forall name :: name in unique <==> name in repositories[..k]
        invariant forall i, j | 0 <= i < j < k :: repositories[i] != repositories[j]
      {
        if repositories[k] in unique {
          return None;
        }
        unique := unique + {repositories[k]};
      }
      var admission := new FleetAdmission(repositories, limit);
      return Some(admission);
    }

    method Position(repository: string) returns (r: Option<nat>)
      ensures r.None? ==> repository !in repositories
      ensures r.Some? ==> r.value < |repositories| && repositories[r.value] == repository
    {
      for i := 0 to |repositories|
        invariant repository !in repositories[..i]
      {
        if repositories[i] == repository {
          return Some(i);
        }
      }
      return None;
    }

    method TryAcquire(repository: string) returns (r: Result<bool>)
      requires Valid()
      modifies this
      ensures Valid()
      ensures r.Failure? <==> repository !in repositories
      ensures r.Failure? ==> Contents() == old(Contents())
      ensures held == old(held) + if r == Success(true) then 1 else 0
      ensures available == old(available) - if r == Success(true) then 1 else 0
      ensures forall i: nat | i < |repositories| && repositories[i] == repository ::
                && waiting == old(waiting)[i := r == Success(false)]
                && cursor == (if r == Success(false) then old(cursor) else if i + 1 == |repositories| then 0 else i + 1)
      ensures forall i: nat | i < |repositories| && repositories[i] == repository ::
                && Contents() == old(Apply(Contents(), Try(i)))
                && r == Success(old(Grants(Contents().queue, i)))
    {
      var position := Position(repository);
      if position.None? {
        return Failure;
      }
      var index := position.value;
      assert forall i: nat | i < |repositories| && repositories[i] == repository :: i == index;
      if !waiting[index] {
        waiting := waiting[index := true];
      }
      assert waiting == old(waiting)[index := true];
      if 0 < available && NextWaiting(Queue(available, cursor, waiting)) == Some(index) {
        waiting := waiting[index := false];
        assert waiting == old(waiting)[index := false];
        available := available - 1;
        NextSlot(index, |waiting|);
        cursor := (index + 1) % |waiting|;
        held := held + 1;
        return Success(true);
      }
      return Success(false);
    }

    method CancelWait(repository: string)
      requires Valid()
      modifies this
      ensures Valid()
      ensures repository !in repositories ==> Contents() == old(Contents())
      ensures forall i: nat | i < |repositories| && repositories[i] == repository ::
                && Contents() == old(Apply(Contents(), Cancel(i))) && waiting == old(waiting)[i := false]
                && cursor == old(cursor) && available == old(available) && held == old(held)
    {
      var position := Position(repository);
      if position.Some? {
        assert forall i: nat | i < |repositories| && repositories[i] == repository :: i == position.value;
        waiting := waiting[position.value := false];
      }
    }

    /** A permit is dropped. */
    method ReleasePermit()
      requires Valid() && 0 < held
      modifies this
      ensures Valid() && Contents() == old(Apply(Contents(), Release)) && held == old(held) - 1
      ensures available == old(available) + 1 && waiting == old(waiting) && cursor == old(cursor)
    {
      available := available + 1;
      held := held - 1;
    }
  }
}
