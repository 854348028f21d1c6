/** Dispatch inside one fleet member and its composition with the fleet-wide
    admission. */
module Dispatch {
  import opened Outcomes
  import A = Admission

  /** A spawned worker; a finished one has dropped its permit but is not joined yet. */
  datatype Worker = Worker(repository: string, finished: bool)

  datatype Member = Member(limit: nat, repositoryLimit: nat, active: map<string, nat>, runs: seq<Worker>)

  function ActiveOf(active: map<string, nat>, repository: string): nat {
    if repository in active then active[repository] else 0
  }

  function Names(runs: seq<Worker>): seq<string> {
    seq(|runs|, i requires 0 <= i < |runs| => runs[i].repository)
  }

  function Unfinished(runs: seq<Worker>): nat {
    if runs == [] then 0 else (if runs[0].finished then 0 else 1) + Unfinished(runs[1..])
  }

  /** The counters are exactly the multiplicities of the workers, none of them is zero,
      and both limits hold. */
  ghost predicate Counted(m: Member) {
    && (forall r :: multiset(Names(m.runs))[r] == ActiveOf(m.active, r) <= m.repositoryLimit)
    && (forall r <- m.active :: 0 < m.active[r])
    && |m.runs| <= m.limit
  }

  function Started(m: Member, r: string): Member {
    m.(active := m.active[r := ActiveOf(m.active, r) + 1], runs := m.runs + [Worker(r, false)])
  }

  function Ended(m: Member, k: nat): Member
    requires k < |m.runs|
  {
    m.(runs := m.runs[k := m.runs[k].(finished := true)])
  }

  function Without<T>(s: seq<T>, k: nat): seq<T>
    requires k < |s|
  {
    s[..k] + s[k + 1..]
  }

  /** `decrement_active`; a zero counter would underflow. */
  function Decremented(active: map<string, nat>, r: string): map<string, nat>
    requires r in active ==> 0 < active[r]
  {
    if r !in active then active
    else if active[r] == 1 then active - {r}
    else active[r := active[r] - 1]
  }

  function Joined(m: Member, k: nat): Member
    requires k < |m.runs|
    requires m.runs[k].repository in m.active ==> 0 < m.active[m.runs[k].repository]
  {
    m.(active := Decremented(m.active, m.runs[k].repository), runs := Without(m.runs, k))
  }

  lemma NamesOfRest(runs: seq<Worker>, k: nat)
    requires k < |runs|
    ensures multiset(Names(runs)) == multiset(Names(Without(runs, k))) + multiset{runs[k].repository}
  {
    var names := Names(runs);
    assert names == names[..k] + [names[k]] + names[k + 1..];
    assert Names(Without(runs, k)) == names[..k] + names[k + 1..];
  }

  lemma StartKeepsCounted(m: Member, r: string)
    requires Counted(m) && |m.runs| < m.limit && ActiveOf(m.active, r) < m.repositoryLimit
    ensures Counted(Started(m, r))
  {
    assert Names(Started(m, r).runs) == Names(m.runs) + [r];
  }

  lemma EndKeepsCounted(m: Member, k: nat)
    requires Counted(m) && k < |m.runs|
    ensures Counted(Ended(m, k))
  {
    assert Names(Ended(m, k).runs) == Names(m.runs);
  }

  /** Joining a worker always finds a positive counter and keeps the counters exact. */
  lemma JoinKeepsCounted(m: Member, k: nat)
    requires Counted(m) && k < |m.runs|
    ensures m.runs[k].repository in m.active
    ensures Counted(Joined(m, k))
  {
    NamesOfRest(m.runs, k);
    var gone, m' := m.runs[k].repository, Joined(m, k);
    assert multiset(Names(m.runs))[gone] > 0;
    forall r
      ensures multiset(Names(m'.runs))[r] == ActiveOf(m'.active, r)
    {
      assert multiset(Names(m'.runs))[r] == multiset(Names(m.runs))[r] - (if r == gone then 1 else 0);
      assert multiset(Names(m.runs))[r] == ActiveOf(m.active, r);
    }
    forall r
      ensures ActiveOf(m'.active, r) <= m'.repositoryLimit
    {
      assert multiset(Names(m.runs))[r] == ActiveOf(m.active, r) <= m.repositoryLimit;
    }
  }

  lemma {:induction false} UnfinishedSplit(a: seq<Worker>, b: seq<Worker>)
    ensures Unfinished(a + b) == Unfinished(a) + Unfinished(b)
  {
    if a == [] {
      assert a + b == b;
    } else {
      assert (a + b)[1..] == a[1..] + b;
      UnfinishedSplit(a[1..], b);
    }
  }

  lemma UnfinishedAt(runs: seq<Worker>, k: nat, w: Worker)
    requires k < |runs|
    ensures Unfinished(runs) == Unfinished(Without(runs, k)) + (if runs[k].finished then 0 else 1)
    ensures Unfinished(runs[k := w]) == Unfinished(Without(runs, k)) + (if w.finished then 0 else 1)
  {
    assert runs == runs[..k] + ([runs[k]] + runs[k + 1..]);
    assert runs[k := w] == runs[..k] + ([w] + runs[k + 1..]);
    UnfinishedSplit(runs[..k], [runs[k]] + runs[k + 1..]);
    UnfinishedSplit(runs[..k], [w] + runs[k + 1..]);
    UnfinishedSplit(runs[..k], runs[k + 1..]);
  }

  // ----- The whole fleet -----

  datatype State = State(fleet: A.Fleet, members: seq<Member>)

  /** `Dispatch` is one iteration of a member's loop: it tries under queue slot `slot`
      and, given a permit, either claims work of `claimed` or gives the permit back. */
  datatype Event =
    | Dispatch(m: nat, slot: nat, claimed: Option<string>)
    | Finish(m: nat, k: nat)
    | Join(m: nat, k: nat)
    | Quit(slot: nat)

  function Total(members: seq<Member>): nat {
    if members == [] then 0 else Unfinished(members[0].runs) + Total(members[1..])
  }

  ghost predicate Inv(s: State, limit: nat) {
    && A.WellFormed(s.fleet.queue)
    && s.fleet.queue.available + s.fleet.held == limit
    && s.fleet.held == Total(s.members)
    && (forall m <- s.members :: Counted(m))
  }

  predicate Legal(s: State, e: Event) {
    A.WellFormed(s.fleet.queue) &&
    match e
    case Dispatch(m, slot, claimed) =>
      && m < |s.members| && slot < |s.fleet.queue.waiting| && |s.members[m].runs| < s.members[m].limit
      && (claimed.Some? ==> ActiveOf(s.members[m].active, claimed.value) < s.members[m].repositoryLimit)
    case Finish(m, k) =>
      m < |s.members| && k < |s.members[m].runs| && !s.members[m].runs[k].finished && 0 < s.fleet.held
    case Join(m, k) =>
      && m < |s.members| && k < |s.members[m].runs| && s.members[m].runs[k].finished
      && (forall r <- s.members[m].active :: 0 < s.members[m].active[r])
    case Quit(slot) => slot < |s.fleet.queue.waiting|
  }

  function Apply(s: State, e: Event): State
    requires Legal(s, e)
  {
    match e
    case Dispatch(m, slot, claimed) =>
      var tried := A.Apply(s.fleet, A.Try(slot));
      if !A.Grants(s.fleet.queue, slot) then State(tried, s.members)
      else if claimed.None? then State(A.Apply(tried, A.Release), s.members)
      else State(tried, s.members[m := Started(s.members[m], claimed.value)])
    case Finish(m, k) =>
      State(A.Apply(s.fleet, A.Release), s.members[m := Ended(s.members[m], k)])
    case Join(m, k) =>
      s.(members := s.members[m := Joined(s.members[m], k)])
    case Quit(slot) =>
      s.(fleet := A.Apply(s.fleet, A.Cancel(slot)))
  }

  lemma {:induction false} TotalAt(members: seq<Member>, m: nat, after: Member)
    requires m < |members|
    ensures Total(members[m := after]) + Unfinished(members[m].runs) == Total(members) + Unfinished(after.runs)
  {
    if m > 0 {
      assert members[m := after][1..] == members[1..][m - 1 := after];
      TotalAt(members[1..], m - 1, after);
    }
  }

  lemma StepKeepsInv(s: State, e: Event, limit: nat)
    requires Inv(s, limit) && Legal(s, e)
    ensures Inv(Apply(s, e), limit)
  {
    match e
    case Dispatch(m, slot, claimed) =>
      if A.Grants(s.fleet.queue, slot) && claimed.Some? {
        var after := Started(s.members[m], claimed.value);
        StartKeepsCounted(s.members[m], claimed.value);
        UnfinishedSplit(s.members[m].runs, [Worker(claimed.value, false)]);
        TotalAt(s.members, m, after);
      }
    case Finish(m, k) =>
      EndKeepsCounted(s.members[m], k);
      UnfinishedAt(s.members[m].runs, k, s.members[m].runs[k].(finished := true));
      TotalAt(s.members, m, Ended(s.members[m], k));
    case Join(m, k) =>
      JoinKeepsCounted(s.members[m], k);
      UnfinishedAt(s.members[m].runs, k, s.members[m].runs[k]);
      TotalAt(s.members, m, Joined(s.members[m], k));
    case Quit(slot) =>
  }

  /** A worker that is still at work holds a permit, so that giving it back at its end is
      always possible. */
  lemma WorkerHoldsPermit(s: State, m: nat, k: nat, limit: nat)
    requires Inv(s, limit) && m < |s.members| && k < |s.members[m].runs| && !s.members[m].runs[k].finished
    ensures 0 < s.fleet.held && Legal(s, Finish(m, k))
  {
    UnfinishedAt(s.members[m].runs, k, s.members[m].runs[k].(finished := true));
    TotalAt(s.members, m, Ended(s.members[m], k));
  }

  predicate AllLegal(s: State, events: seq<Event>)
    decreases |events|
  {
    events == [] || (Legal(s, events[0]) && AllLegal(Apply(s, events[0]), events[1..]))
  }

  function After(s: State, events: seq<Event>): State
    requires AllLegal(s, events)
    decreases |events|
  {
    if events == [] then s else After(Apply(s, events[0]), events[1..])
  }

  lemma {:induction false} InvAlongRun(s: State, events: seq<Event>, limit: nat)
    requires Inv(s, limit) && AllLegal(s, events)
    ensures Inv(After(s, events), limit)
    decreases |events|
  {
    if events != [] {
      StepKeepsInv(s, events[0], limit);
      InvAlongRun(Apply(s, events[0]), events[1..], limit);
    }
  }

  /** In every run of a fleet that started empty: every member's counters are exact and
      within both of its limits, and the workers at work across the fleet never exceed
      the fleet limit. */
  lemma FleetLimitsHold(s: State, events: seq<Event>)
    requires A.WellFormed(s.fleet.queue) && s.fleet.held == 0
    requires forall m <- s.members :: m.active == map[] && m.runs == []
    requires AllLegal(s, events)
    ensures var s' := After(s, events);
            && Total(s'.members) <= s.fleet.queue.available
            && (forall m <- s'.members :: Counted(m))
  {
    EmptyTotal(s.members);
    InvAlongRun(s, events, s.fleet.queue.available);
  }

  lemma {:induction false} EmptyTotal(members: seq<Member>)
    requires forall m <- members :: m.runs == []
    ensures Total(members) == 0
  {
    if members != [] {
      EmptyTotal(members[1..]);
    }
  }

  // ----- One member -----

  /** `events` are legal dispatches of member `m` that take the fleet from `s` to `s'`. */
  ghost predicate Leads(s: State, events: seq<Event>, s': State, m: nat) {
    && AllLegal(s, events) && After(s, events) == s'
    && (forall e <- events :: e.Dispatch? && e.m == m)
  }

  lemma LeadsNowhere(s: State, m: nat)
    ensures Leads(s, [], s, m)
  {
  }

  /** What one dispatch does to the fleet, step by step. */
  lemma LeadsByOne(fleet: A.Fleet, members: seq<Member>, m: nat, slot: nat, claimed: Option<string>)
    requires A.WellFormed(fleet.queue) && slot < |fleet.queue.waiting|
    requires m < |members| && |members[m].runs| < members[m].limit
    requires claimed.Some? ==> ActiveOf(members[m].active, claimed.value) < members[m].repositoryLimit
    ensures A.Legal(fleet, A.Try(slot))
    ensures var s, tried, event := State(fleet, members), A.Apply(fleet, A.Try(slot)), Dispatch(m, slot, claimed);
            if !A.Grants(fleet.queue, slot) then Leads(s, [event], State(tried, members), m)
            else if claimed.None? then
              A.Legal(tried, A.Release) && Leads(s, [event], State(A.Apply(tried, A.Release), members), m)
            else Leads(s, [event], State(tried, members[m := Started(members[m], claimed.value)]), m)
  {
    var s, event := State(fleet, members), Dispatch(m, slot, claimed);
    assert Legal(s, event);
    OneEvent(s, event);
  }

  lemma OneEvent(s: State, e: Event)
    requires Legal(s, e)
    ensures AllLegal(s, [e]) && After(s, [e]) == Apply(s, e)
  {
    hide Legal, Apply;
    assert [e][1..] == [];
    assert AllLegal(Apply(s, e), []) && After(Apply(s, e), []) == Apply(s, e);
  }

  lemma {:induction false} LeadsOn(a: State, first: seq<Event>, b: State, second: seq<Event>, c: State, m: nat)
    requires Leads(a, first, b, m) && Leads(b, second, c, m)
    ensures Leads(a, first + second, c, m)
    decreases |first|
  {
    hide Legal, Apply;
    if first == [] {
      assert first + second == second;
    } else {
      assert (first + second)[1..] == first[1..] + second;
      assert first[0] in first && forall e <- first[1..] :: e in first;
      LeadsOn(Apply(a, first[0]), first[1..], b, second, c, m);
    }
  }

  lemma WithinLimit(m: Member)
    requires Counted(m)
    ensures |m.runs| <= m.limit && forall r :: ActiveOf(m.active, r) <= m.repositoryLimit
  {
  }

  /** A refused repository waits and would be refused again. */
  lemma StillRefused(q: A.Queue, i: nat)
    requires A.WellFormed(q) && i < |q.waiting| && !A.Grants(q, i)
    ensures var q' := A.Registered(q, i); A.WellFormed(q') && q'.waiting[i] && !A.Grants(q', i)
  {
    assert A.Registered(A.Registered(q, i), i) == A.Registered(q, i);
  }

  /** Why dispatching stopped. */
  datatype Stop = AtLimit | WasCancelled | AllBusy | NoPermit | NothingQueued | Broke

  /** What the ledger answers when it is asked for work. */
  datatype Answer = Offered(repository: string) | Nothing | Failed

  /** The offers that led to `runs`. */
  function Offers(runs: seq<Worker>): (offers: seq<Answer>)
    ensures |offers| == |runs| && forall k | 0 <= k < |runs| :: offers[k] == Offered(runs[k].repository)
  {
    seq(|runs|, k requires 0 <= k < |runs| => Offered(runs[k].repository))
  }

  /** The workers of before, and then new ones that work on targets. */
  predicate Recruited(before: seq<Worker>, runs: seq<Worker>, targets: seq<string>) {
    && |before| <= |runs| && runs[..|before|] == before
    && forall k | |before| <= k < |runs| :: runs[k].repository in targets && !runs[k].finished
  }

  lemma NobodyRecruited(runs: seq<Worker>, targets: seq<string>)
    ensures Recruited(runs, runs, targets) && Offers(runs[|runs|..]) == []
  {
  }

  lemma OneMoreWorker(before: seq<Worker>, earlier: seq<Worker>, runs: seq<Worker>, targets: seq<string>)
    requires Recruited(before, earlier, targets)
    requires |runs| == |earlier| + 1 && runs[..|earlier|] == earlier
    requires runs[|earlier|].repository in targets && !runs[|earlier|].finished
    ensures Recruited(before, runs, targets)
    ensures Offers(runs[|before|..]) == Offers(earlier[|before|..]) + [Offered(runs[|earlier|].repository)]
  {
    assert forall k | 0 <= k < |earlier| :: runs[..|earlier|][k] == runs[k] && earlier[k] == runs[k];
  }

  class Dispatcher {
    const targets: seq<string>
    const limit: nat
    const repositoryLimit: nat
    const admission: A.FleetAdmission?
    var active: map<string, nat>
    var runs: seq<Worker>

    /** What the ledger answered, in order. */
    ghost var answers: seq<Answer>

    ghost function Contents(): Member
      reads this
    {
      Member(limit, repositoryLimit, active, runs)
    }

    ghost predicate Valid()
      reads this, admission
    {
      Counted(Contents()) && (admission != null ==> admission.Valid())
    }

    constructor (targets: seq<string>, limit: nat, repositoryLimit: nat, admission: A.FleetAdmission?)
      requires admission != null ==> admission.Valid()
      ensures Valid() && Contents() == Member(limit, repositoryLimit, map[], [])
      ensures this.targets == targets && this.admission == admission
    {
      this.targets, this.limit, this.repositoryLimit, this.admission := targets, limit, repositoryLimit, admission;
      active, runs, answers := map[], [], [];
      new;
      assert Names([]) == [];
    }

    /** The repositories that may take one more worker. */
    method Available() returns (available: seq<string>)
      ensures forall r :: r in available <==> r in targets && ActiveOf(active, r) < repositoryLimit
    {
      available := [];
      for i := 0 to |targets|
        invariant forall r :: r in available <==> r in targets[..i] && ActiveOf(active, r) < repositoryLimit
      {
        if ActiveOf(active, targets[i]) < repositoryLimit {
          available := available + [targets[i]];
        }
      }
    }

    /** The fleet around this dispatcher, which is member `m` of `members`. */
    ghost function Around(members: seq<Member>, m: nat): State
      requires admission != null && m < |members|
      reads this, admission
    {
      State(admission.Contents(), members[m := Contents()])
    }

    /** A target that waits for a permit and would not get one, though it could take a
        worker. */
    ghost predicate IsRefused()
      reads this, admission
      requires admission != null ==> admission.Valid()
    {
      admission != null && exists i: nat | i < |admission.repositories| ::
        && admission.repositories[i] in targets && ActiveOf(active, admission.repositories[i]) < repositoryLimit
        && admission.waiting[i] && !A.Grants(admission.Contents().queue, i)
    }

    /** A target that the fleet does not know. */
    ghost predicate IsUnknown()
      reads this
    {
      admission != null && exists t <- targets :: t !in admission.repositories
    }

    /** One iteration: claim work of an available target under a permit, or say why not.
        What it did to the fleet is at most one dispatch event. */
    method DispatchOne(ghost members: seq<Member>, ghost m: nat)
      returns (r: Option<Stop>, ghost events: seq<Event>)
      requires Valid() && |runs| < limit && m < |members|
      modifies this, admission
      ensures Valid()
      ensures r.None? ==> |runs| == |old(runs)| + 1 && runs[..|old(runs)|] == old(runs)
      ensures r.None? ==> runs[|old(runs)|].repository in targets && !runs[|old(runs)|].finished
      ensures r.Some? ==> Contents() == old(Contents())
      ensures admission != null ==> admission.held == old(admission.held) + |runs| - |old(runs)|
      ensures admission != null ==> Leads(old(Around(members, m)), events, Around(members, m), m)
      ensures old(answers) <= answers
      ensures r.None? ==> answers == old(answers) + [Offered(runs[|old(runs)|].repository)]
      ensures match r
              case None => true
              case Some(AllBusy) =>
                (forall t <- targets :: ActiveOf(active, t) == repositoryLimit) && answers == old(answers)
              case Some(NoPermit) => IsRefused() && answers == old(answers)
              case Some(NothingQueued) => answers == old(answers) + [Nothing]
              case Some(Broke) => answers == old(answers) + [Failed] || (IsUnknown() && answers == old(answers))
              case Some(_) => false
    {
      hide Counted, Leads, Legal, Apply;
      events := [];
      if admission != null {
        LeadsNowhere(Around(members, m), m);
      }
      var available := Available();
      if available == [] {
        assert forall t <- targets :: t !in available;
        WithinLimit(Contents());
        return Some(AllBusy), events;
      }
      assert available[0] in available;
      if admission != null {
        r, events := DispatchPermitted(available, members, m);
        return;
      }
      var broken, claimed := Claim(available);
      if broken || claimed.None? {
        return Some(if broken then Broke else NothingQueued), events;
      }
      Launch(claimed.value);
      return None, events;
    }

    /** The same under a permit, which goes back when nothing is launched. */
    method DispatchPermitted(available: seq<string>, ghost members: seq<Member>, ghost m: nat)
      returns (r: Option<Stop>, ghost events: seq<Event>)
      requires Valid() && |runs| < limit && m < |members| && admission != null && available != []
      requires forall t <- available :: t in targets && ActiveOf(active, t) < repositoryLimit
      modifies this, admission
      ensures Valid()
      ensures r.None? ==> |runs| == |old(runs)| + 1 && runs[..|old(runs)|] == old(runs)
      ensures r.None? ==> runs[|old(runs)|].repository in targets && !runs[|old(runs)|].finished
      ensures r.Some? ==> Contents() == old(Contents())
      ensures admission.held == old(admission.held) + |runs| - |old(runs)|
      ensures Leads(old(Around(members, m)), events, Around(members, m), m)
      ensures old(answers) <= answers
      ensures r.None? ==> answers == old(answers) + [Offered(runs[|old(runs)|].repository)]
      ensures match r
              case None => true
              case Some(NoPermit) => IsRefused() && answers == old(answers)
              case Some(NothingQueued) => answers == old(answers) + [Nothing]
              case Some(Broke) => answers == old(answers) + [Failed] || (IsUnknown() && answers == old(answers))
              case Some(_) => false
    {
      hide Counted, Leads, A.Apply, A.Grants;
      events := [];
      LeadsNowhere(Around(members, m), m);
      ghost var fleet, around := admission.Contents(), members[m := Contents()];
      var permit := admission.TryAcquire(available[0]);
      if permit.Failure? {
        return Some(Broke), events;
      }
      ghost var slot: nat :| slot < |admission.repositories| && admission.repositories[slot] == available[0];
      if !permit.value {
        StillRefused(fleet.queue, slot);
        LeadsByOne(fleet, around, m, slot, None);
        return Some(NoPermit), [Dispatch(m, slot, None)];
      }
      var broken, claimed := Claim(available);
      if broken || claimed.None? {
        LeadsByOne(fleet, around, m, slot, None);
        admission.ReleasePermit();
        return Some(if broken then Broke else NothingQueued), [Dispatch(m, slot, None)];
      }
      LeadsByOne(fleet, around, m, slot, claimed);
      Launch(claimed.value);
      assert around[m := Contents()] == members[m := Contents()];
      return None, [Dispatch(m, slot, claimed)];
    }

    /** The ledger offers work of an available repository, or none, or fails. */
    method Claim(available: seq<string>) returns (broken: bool, claimed: Option<string>)
      modifies `answers
      ensures claimed.Some? ==> claimed.value in available
      ensures answers == old(answers)
                         + [if broken then Failed else if claimed.None? then Nothing else Offered(claimed.value)]
    {
      broken := *;
      claimed :| claimed.None? || claimed.value in available;
      answers := answers + [if broken then Failed else if claimed.None? then Nothing else Offered(claimed.value)];
    }

    /** Launches workers until a limit, a cancellation, a refused permit or an empty queue
        stops it. The cancellation is looked at before every launch: `looks` holds what was
        seen. Every new worker belongs to a target and holds one permit of its own, and what
        the call did to the fleet is a sequence of legal dispatch events of this member. */
    method DispatchAvailable(ghost members: seq<Member>, ghost m: nat)
      returns (stop: Stop, ghost events: seq<Event>, ghost looks: seq<bool>)
      requires Valid() && m < |members|
      modifies this, admission
      ensures Valid() && |old(runs)| <= |runs| && Recruited(old(runs), runs, targets)
      ensures admission != null ==> admission.held == old(admission.held) + |runs| - |old(runs)|
      ensures admission != null ==> Leads(old(Around(members, m)), events, Around(members, m), m)
      ensures |looks| == |runs| - |old(runs)| + if stop.AtLimit? then 0 else 1
      ensures forall k | 0 <= k < |looks| :: looks[k] <==> stop.WasCancelled? && k == |looks| - 1
      ensures |runs| == |old(runs)| ==> Contents() == old(Contents())
      ensures var offered := old(answers) + Offers(runs[|old(runs)|..]);
              match stop
              case AtLimit => |runs| >= limit && answers == offered
              case WasCancelled => |runs| < limit && answers == offered
              case AllBusy =>
                |runs| < limit && answers == offered && forall t <- targets :: ActiveOf(active, t) == repositoryLimit
              case NoPermit => |runs| < limit && answers == offered && IsRefused()
              case NothingQueued => |runs| < limit && answers == offered + [Nothing]
              case Broke =>
                |runs| < limit && (answers == offered + [Failed] || (IsUnknown() && answers == offered))
    {
      NobodyRecruited(runs, targets);
      hide Counted, Leads, Legal, Apply, Offers, Recruited, IsRefused, IsUnknown;
      events, looks := [], [];
      if admission != null {
        LeadsNowhere(Around(members, m), m);
      }
      WithinLimit(Contents());
      while |runs| < limit
        invariant Valid() && |runs| <= limit
        invariant |old(runs)| <= |runs| && Recruited(old(runs), runs, targets)
        invariant |looks| == |runs| - |old(runs)| && forall k | 0 <= k < |looks| :: !looks[k]
        invariant |runs| == |old(runs)| ==> Contents() == old(Contents())
        invariant answers == old(answers) + Offers(runs[|old(runs)|..])
        invariant admission != null ==> admission.held == old(admission.held) + |runs| - |old(runs)|
        invariant admission != null ==> Leads(old(Around(members, m)), events, Around(members, m), m)
        decreases limit - |runs|
      {
        var cancelled: bool := *;
        looks := looks + [cancelled];
        if cancelled {
          return WasCancelled, events, looks;
        }
        ghost var before := if admission != null then Some(Around(members, m)) else None;
        ghost var earlier := runs;
        var reason, one := DispatchOne(members, m);
        if admission != null {
          LeadsOn(old(Around(members, m)), events, before.value, one, Around(members, m), m);
          events := events + one;
        }
        if reason.Some? {
          return reason.value, events, looks;
        }
        OneMoreWorker(old(runs), earlier, runs, targets);
        WithinLimit(Contents());
      }
      return AtLimit, events, looks;
    }

    method Launch(repository: string)
      requires Valid() && |runs| < limit && ActiveOf(active, repository) < repositoryLimit
      modifies this
      ensures Valid() && Contents() == Started(old(Contents()), repository) && answers == old(answers)
    {
      StartKeepsCounted(Contents(), repository);
      active := active[repository := ActiveOf(active, repository) + 1];
      runs := runs + [Worker(repository, false)];
    }

    /** A joined worker leaves, and its counter goes down without underflow. */
    method JoinNext(k: nat)
      requires Valid() && k < |runs|
      modifies this
      ensures Valid() && Contents() == Joined(old(Contents()), k)
      ensures runs == old(runs)[..k] + old(runs)[k + 1..]
    {
      JoinKeepsCounted(Contents(), k);
      var repository := runs[k].repository;
      runs := runs[..k] + runs[k + 1..];
      DecrementActive(repository);
    }

    method DecrementActive(repository: string)
      requires repository in active ==> 0 < active[repository]
      modifies this
      ensures active == Decremented(old(active), repository) && runs == old(runs)
    {
      if repository in active {
        var count := active[repository] - 1;
        active := active[repository := count];
        if count == 0 {
          active := active - {repository};
          assert active == old(active) - {repository};
        }
      }
    }
  }
}
