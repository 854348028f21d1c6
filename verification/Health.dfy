/** Repository health under failures, host rate limits and recoveries. Instants and
    durations are in milliseconds. */
module Health {
  import opened Outcomes

  const SECOND: nat := 1000
  const INITIAL_BACKOFF: nat := 5 * SECOND
  const MAX_BACKOFF: nat := 15 * 60 * SECOND
  const RATE_LIMIT_FALLBACK: nat := 60 * SECOND
  const U32_MAX: nat := 0xFFFF_FFFF

  datatype Status = Loading | Healthy | BackingOff | RateLimited | InvalidConfig | Unavailable | Disabled

  /** `preLimit` saves the state in which a rate limit found the repository. */
  datatype Record = Record(
    status: Status,
    failures: nat,
    retryAt: Option<int>,
    preLimit: Option<(Status, Option<int>)>)

  const FRESH: Record := Record(Loading, 0, None, None)

  function Min(a: int, b: int): int {
    if a < b then a else b
  }

  function Max(a: int, b: int): int {
    if a < b then b else a
  }

  function Pow2(n: nat): nat {
    if n == 0 then 1 else 2 * Pow2(n - 1)
  }

  /** `repository_backoff`: the exponent is capped before the shift. */
  function Backoff(failures: nat): nat {
    var exponent := Min(if failures == 0 then 0 else failures - 1, 31);
    Min(INITIAL_BACKOFF * Pow2(exponent), MAX_BACKOFF)
  }

  /** The same delay without the cap on the exponent. */
  function UncappedBackoff(failures: nat): nat {
    Min(INITIAL_BACKOFF * Pow2(if failures == 0 then 0 else failures - 1), MAX_BACKOFF)
  }

  lemma {:induction false} Pow2Grows(a: nat, b: nat)
    requires a <= b
    ensures Pow2(a) <= Pow2(b)
    decreases b
  {
    if a < b {
      Pow2Grows(a, b - 1);
    }
  }

  /** The cap on the exponent changes no delay. */
  lemma BackoffIsUncapped(failures: nat)
    ensures Backoff(failures) == UncappedBackoff(failures)
  {
    if 32 < failures {
      Pow2Grows(8, 31);
      Pow2Grows(8, failures - 1);
      assert Pow2(8) == 256;
    }
  }

  /** The delays: five seconds after the first failure, and twice the last one after every
      further failure, but never more than fifteen minutes. */
  lemma BackoffDoubles(failures: nat)
    requires 0 < failures
    ensures Backoff(0) == Backoff(1) == 5_000
    ensures Backoff(failures + 1) == (if 2 * Backoff(failures) <= 900_000 then 2 * Backoff(failures) else 900_000)
  {
    BackoffIsUncapped(failures);
    BackoffIsUncapped(failures + 1);
    assert Pow2(failures) == 2 * Pow2(failures - 1);
  }

  lemma BackoffGrows(a: nat, b: nat)
    requires a <= b
    ensures INITIAL_BACKOFF <= Backoff(a) <= Backoff(b) <= MAX_BACKOFF
  {
    BackoffIsUncapped(a);
    BackoffIsUncapped(b);
    Pow2Grows(if a == 0 then 0 else a - 1, if b == 0 then 0 else b - 1);
    Pow2Grows(0, if a == 0 then 0 else a - 1);
  }

  /** The host's answer if it lies in the future, else the fallback. */
  function RateLimitDelay(retryAt: Option<int>, observedAt: int): (delay: nat)
    ensures 0 < delay
    ensures retryAt.Some? && observedAt < retryAt.value ==> observedAt + delay == retryAt.value
    ensures !(retryAt.Some? && observedAt < retryAt.value) ==> delay == 60_000
  {
    if retryAt.Some? && observedAt < retryAt.value then retryAt.value - observedAt else RATE_LIMIT_FALLBACK
  }

  // ----- The three transitions -----

  predicate Waits(r: Record, now: int) {
    r.retryAt.Some? && now < r.retryAt.value && (r.status.BackingOff? || r.status.RateLimited? || r.status.Unavailable?)
  }

  function Recovered(r: Record, now: int): Record {
    if Waits(r, now) then r else Record(Healthy, 0, None, None)
  }

  function FailedAt(r: Record, now: int, status: Status): Record {
    var failures := if r.failures < U32_MAX then r.failures + 1 else U32_MAX;
    Record(status, failures, Some(now + Backoff(failures)), None)
  }

  function Limited(r: Record, retryAt: int): Record {
    if r.status.InvalidConfig? || r.status.Disabled? then r
    else Record(
           RateLimited,
           r.failures,
           Some(if r.retryAt.Some? then Max(r.retryAt.value, retryAt) else retryAt),
           if r.status.RateLimited? then r.preLimit else Some((r.status, r.retryAt)))
  }

  /** A recovery makes a repository healthy, with no failure and no retry left, unless it
      backs off, is rate limited or is unavailable with its retry instant ahead. */
  lemma RecoveryMeans(r: Record, now: int)
    ensures var waits := && r.retryAt.Some? && now < r.retryAt.value
                         && (r.status == BackingOff || r.status == RateLimited || r.status == Unavailable);
            && (waits ==> Recovered(r, now) == r)
            && (!waits ==> var r' := Recovered(r, now);
                           r'.status == Healthy && r'.failures == 0 && r'.retryAt == None && r'.preLimit == None)
  {
  }

  /** A failure is counted up to the largest number, and its retry instant lies ahead by the
      delay for the new count. */
  lemma FailureMeans(r: Record, now: int, status: Status)
    ensures var r' := FailedAt(r, now, status);
            && r'.status == status && r'.preLimit == None
            && (r.failures < 4_294_967_295 ==> r'.failures == r.failures + 1)
            && (r.failures >= 4_294_967_295 ==> r'.failures == 4_294_967_295)
            && r'.retryAt.Some? && r'.retryAt.value == now + Backoff(r'.failures)
            && now + 5_000 <= r'.retryAt.value <= now + 900_000
  {
    BackoffGrows(1, FailedAt(r, now, status).failures);
    BackoffDoubles(1);
  }

  /** A rate limit leaves unusable repositories alone. Any other keeps its failures, may not be
      asked before either instant, and remembers the state in which the first limit found it. */
  lemma LimitMeans(r: Record, retryAt: int)
    ensures var r', usable := Limited(r, retryAt), r.status != InvalidConfig && r.status != Disabled;
            && (!usable ==> r' == r)
            && (usable ==>
                  && r'.status == RateLimited && r'.failures == r.failures && r'.retryAt.Some?
                  && retryAt <= r'.retryAt.value && (r.retryAt.Some? ==> r.retryAt.value <= r'.retryAt.value)
                  && (r'.retryAt.value == retryAt || r'.retryAt == r.retryAt)
                  && (r.status == RateLimited ==> r'.preLimit == r.preLimit)
                  && (r.status != RateLimited ==> r'.preLimit == Some((r.status, r.retryAt))))
  {
  }

  // ----- Runs -----

  datatype Event = Recovers | Fails(status: Status) | Limits(retryAt: int)

  /** The record beside its history: the failures since the last recovery and when the
      last of them happened. */
  datatype Track = Track(record: Record, count: nat, lastFailure: int)

  predicate Possible(e: Event) {
    e.Fails? ==> e.status.BackingOff? || e.status.Unavailable?
  }

  function Apply(t: Track, now: int, e: Event): Track {
    match e
    case Recovers =>
      if Waits(t.record, now) then t else Track(Recovered(t.record, now), 0, t.lastFailure)
    case Fails(status) => Track(FailedAt(t.record, now, status), t.count + 1, now)
    case Limits(retryAt) => t.(record := Limited(t.record, retryAt))
  }

  ghost predicate Inv(t: Track) {
    && (t.record.status.RateLimited? <==> t.record.preLimit.Some?)
    && !t.record.status.InvalidConfig? && !t.record.status.Disabled?
    && t.record.failures == Min(t.count, U32_MAX)
    && (t.record.retryAt.Some? <==>
          t.record.status.BackingOff? || t.record.status.RateLimited? || t.record.status.Unavailable?)
    && (t.record.status.BackingOff? || t.record.status.Unavailable? ==>
          0 < t.count && t.record.retryAt == Some(t.lastFailure + UncappedBackoff(t.record.failures)))
    && (0 < t.count ==>
          t.record.retryAt.Some? && t.lastFailure + UncappedBackoff(t.record.failures) <= t.record.retryAt.value)
  }

  lemma StepKeepsInv(t: Track, now: int, e: Event)
    requires Inv(t) && Possible(e)
    ensures Inv(Apply(t, now, e))
    ensures var t' := Apply(t, now, e);
            && (t'.record.status.Healthy? && !t.record.status.Healthy? ==>
                  e.Recovers? && (t.record.retryAt.Some? ==> t.record.retryAt.value <= now))
            && (e.Limits? ==> t'.record.retryAt.Some? && e.retryAt <= t'.record.retryAt.value)
            && (e.Limits? && t.record.retryAt.Some? ==> t.record.retryAt.value <= t'.record.retryAt.value)
  {
    BackoffIsUncapped(Apply(t, now, e).record.failures);
  }

  /** Events with their instants; time never runs backwards. */
  datatype Stamped = Stamped(now: int, event: Event)

  ghost predicate Chronological(start: int, events: seq<Stamped>)
    decreases |events|
  {
    events == [] ||
    (start <= events[0].now && Possible(events[0].event) && Chronological(events[0].now, events[1..]))
  }

  function After(t: Track, events: seq<Stamped>): Track
    decreases |events|
  {
    if events == [] then t else After(Apply(t, events[0].now, events[0].event), events[1..])
  }

  lemma FreshIsSound(lastFailure: int)
    ensures Inv(Track(FRESH, 0, lastFailure))
  {
  }

  /** In every run: a state before the limit is saved exactly while rate limited, the
      failures since the last recovery are counted, and the retry instant respects the
      exponential delay of the last failure. */
  lemma {:induction false} InvAlongRun(t: Track, start: int, events: seq<Stamped>)
    requires Inv(t) && Chronological(start, events)
    ensures Inv(After(t, events))
    decreases |events|
  {
    if events != [] {
      StepKeepsInv(t, events[0].now, events[0].event);
      InvAlongRun(Apply(t, events[0].now, events[0].event), events[0].now, events[1..]);
    }
  }

  ghost predicate Blocked(r: Record, until: int) {
    r.retryAt.Some? && until <= r.retryAt.value
        && (r.status.BackingOff? || r.status.RateLimited? || r.status.Unavailable?)
  }

  lemma {:induction false} StaysBlocked(t: Track, failedAt: int, k: nat, start: int, events: seq<Stamped>)
    requires Inv(t) && Chronological(start, events) && failedAt <= start
    requires k <= t.record.failures && Blocked(t.record, failedAt + Backoff(k))
    requires forall s <- events :: s.now < failedAt + Backoff(k)
    ensures Blocked(After(t, events).record, failedAt + Backoff(k))
    decreases |events|
  {
    if events != [] {
      var s := events[0];
      var t' := Apply(t, s.now, s.event);
      assert s in events;
      StepKeepsInv(t, s.now, s.event);
      if s.event.Fails? {
        BackoffGrows(k, t'.record.failures);
      }
      StaysBlocked(t', failedAt, k, s.now, events[1..]);
    }
  }

  /** A back-off is served in full: whatever else fails, is limited or claims to have
      recovered during the delay after a failure, at every instant of it the repository
      is not healthy and may not be retried before the delay is over. */
  lemma BackoffIsServed(t: Track, failedAt: int, status: Status, events: seq<Stamped>)
    requires Inv(t) && Possible(Fails(status)) && Chronological(failedAt, events)
    requires forall s <- events :: s.now < failedAt + UncappedBackoff(Min(t.record.failures + 1, U32_MAX))
    ensures var r := After(Apply(t, failedAt, Fails(status)), events).record;
            && !r.status.Healthy? && r.retryAt.Some?
            && failedAt + UncappedBackoff(Min(t.record.failures + 1, U32_MAX)) <= r.retryAt.value
  {
    var t' := Apply(t, failedAt, Fails(status));
    BackoffIsUncapped(t'.record.failures);
    StepKeepsInv(t, failedAt, Fails(status));
    StaysBlocked(t', failedAt, t'.record.failures, failedAt, events);
  }

  function EndOf(start: int, events: seq<Stamped>): int {
    if events == [] then start else events[|events| - 1].now
  }

  lemma {:induction false} LastFailureLiesBack(t: Track, start: int, events: seq<Stamped>)
    requires Chronological(start, events) && t.lastFailure <= start
    ensures start <= EndOf(start, events) && After(t, events).lastFailure <= EndOf(start, events)
    decreases |events|
  {
    if events != [] {
      LastFailureLiesBack(Apply(t, events[0].now, events[0].event), events[0].now, events[1..]);
    }
  }

  /** Exactly when a failure brings a pending retry instant forward, in every run: the
      repository is rate limited, and the limit lasts longer than the new delay. The
      delay of an earlier failure is never shortened. */
  lemma FailureShortensExactlyWhen(start: int, events: seq<Stamped>, now: int, status: Status)
    requires Chronological(start, events) && EndOf(start, events) <= now && Possible(Fails(status))
    requires After(Track(FRESH, 0, start), events).record.retryAt.Some?
    ensures var t := After(Track(FRESH, 0, start), events);
            Apply(t, now, Fails(status)).record.retryAt.value < t.record.retryAt.value
            <==> t.record.status.RateLimited?
                 && now + UncappedBackoff(Min(t.record.failures + 1, U32_MAX)) < t.record.retryAt.value
  {
    hide Chronological, After, Backoff, UncappedBackoff;
    FreshIsSound(start);
    InvAlongRun(Track(FRESH, 0, start), start, events);
    LastFailureLiesBack(Track(FRESH, 0, start), start, events);
    var t := After(Track(FRESH, 0, start), events);
    BackoffIsUncapped(t.record.failures);
    BackoffIsUncapped(Min(t.record.failures + 1, U32_MAX));
    BackoffGrows(t.record.failures, Min(t.record.failures + 1, U32_MAX));
  }

  /** An hour's limit becomes five seconds. */
  lemma FailureCanShortenARateLimit()
    ensures var limited := Limited(FRESH, 3600 * SECOND);
            FailedAt(limited, 0, BackingOff).retryAt == Some(5 * SECOND)
  {
  }

  // ----- The shared records -----

  class FleetHealth {
    var records: map<string, Record>

    constructor (identities: seq<string>)
      ensures records == map identity | identity in identities :: FRESH
    {
      records := map identity | identity in identities :: FRESH;
    }

    method RetryAt(identity: string) returns (retryAt: Option<int>)
      ensures retryAt == if identity in records then records[identity].retryAt else None
    {
      return if identity in records then records[identity].retryAt else None;
    }

    method SetRepositoryHealthy(identity: string, now: int)
      modifies this
      ensures records == if identity in old(records)
                         then old(records)[identity := Recovered(old(records)[identity], now)]
                         else old(records)
    {
      if identity !in records {
        return;
      }
      var record := records[identity];
      if record.retryAt.Some? && now < record.retryAt.value
         && (record.status.BackingOff? || record.status.RateLimited? || record.status.Unavailable?) {
        return;
      }
      records := records[identity := Record(Healthy, 0, None, None)];
    }

    method SetRepositoryFailure(identity: string, status: Status, now: int) returns (retryAt: int)
      requires identity in records
      modifies this
      ensures records == old(records)[identity := FailedAt(old(records)[identity], now, status)]
      ensures records[identity].retryAt == Some(retryAt)
    {
      var record := records[identity];
      var failures := if record.failures < U32_MAX then record.failures + 1 else U32_MAX;
      retryAt := now + Backoff(failures);
      record := record.(failures := failures, status := status, preLimit := None, retryAt := Some(retryAt));
      records := records[identity := record];
    }

    /** One rate limit reaches every repository that is in use. */
    method SetFleetRateLimited(retryAt: int)
      modifies this
      ensures records == map identity | identity in old(records) :: Limited(old(records)[identity], retryAt)
    {
      var rest := records.Keys;
      while rest != {}
        invariant records.Keys == old(records).Keys && rest <= records.Keys
        invariant forall identity | identity in records ::
          records[identity] == if identity in rest then old(records)[identity]
              else Limited(old(records)[identity], retryAt)
      {
        var identity :| identity in rest;
        rest := rest - {identity};
        var record := records[identity];
        if record.status.InvalidConfig? || record.status.Disabled? {
          continue;
        }
        if !record.status.RateLimited? {
          record := record.(preLimit := Some((record.status, record.retryAt)));
        }
        var effective := if record.retryAt.Some? then Max(record.retryAt.value, retryAt) else retryAt;
        record := record.(status := RateLimited, retryAt := Some(effective));
        records := records[identity := record];
      }
    }
  }
}
