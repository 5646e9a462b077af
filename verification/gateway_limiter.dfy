/**
 The fixed-window counter of gateway/src/ratelimit_plugin.cpp.  Clock readings are milliseconds
 since the epoch.
 */
module WindowLimiting {
  import opened Options

  /** The counter's key: a prefix and a wall-clock second. */
  datatype WindowKey = WindowKey(prefix: string, second: nat)

  /** A Redis counter; Redis may drop it from its deadline on. */
  datatype Counter = Counter(count: nat, deadline: Option<nat>)

  /** How Redis answers INCR, and EXPIRE after it; `ran`: the unanswered INCR was executed. */
  datatype Answer = Answered(expirySet: bool) | Unanswered(ran: bool)

  type Counters = map<WindowKey, Counter>

  const WINDOW_TTL_MS := 2000

  function SecondOf(now: nat): nat { now / 1000 }

  predicate Present(cs: Counters, k: WindowKey, now: nat) {
    k in cs && !(cs[k].deadline.Some? && cs[k].deadline.value <= now)
  }

  /** What INCR makes of a counter at `now`. */
  function Bumped(cs: Counters, k: WindowKey, now: nat): nat {
    if Present(cs, k, now) then cs[k].count + 1 else 1
  }

  function WindowAfter(cs: Counters, k: WindowKey, now: nat, a: Answer): Counters {
    var n := Bumped(cs, k, now);
    var kept := if Present(cs, k, now) then cs[k].deadline else None;
    match a
    case Unanswered(ran) => if ran then cs[k := Counter(n, kept)] else cs
    case Answered(done) => cs[k := Counter(n, if n == 1 && done then Some(now + WINDOW_TTL_MS) else kept)]
  }

  /** An unanswered INCR counts as -1 and so lets the request through. */
  predicate WindowAllows(cs: Counters, k: WindowKey, now: nat, a: Answer, limit: int) {
    a.Unanswered? || Bumped(cs, k, now) <= limit
  }

  class CounterStore {
    var counters: Counters

    /** None stands for a reply that is missing or not an integer. */
    method Incr(k: WindowKey, now: nat, a: Answer) returns (count: int)
      modifies this
      ensures count == if a.Answered? then Bumped(old(counters), k, now) else -1
      ensures counters == WindowAfter(old(counters), k, now, if a.Answered? then Answered(false) else a)
    {
      if a == Unanswered(false) { return -1; }
      var n, deadline := 1, None;
      if Present(counters, k, now) {
        n, deadline := counters[k].count + 1, counters[k].deadline;
      }
      counters := counters[k := Counter(n, deadline)];
      return if a.Answered? then n else -1;
    }

    /** `done`: Redis executed the command and answered. */
    method Expire(k: WindowKey, now: nat, seconds: nat, done: bool) returns (ok: bool)
      modifies this
      ensures ok == (done && k in old(counters))
      ensures counters == if done && k in old(counters)
                          then old(counters)[k := old(counters)[k].(deadline := Some(now + 1000 * seconds))]
                          else old(counters)
    {
      ok := done && k in counters;
      if ok {
        counters := counters[k := counters[k].(deadline := Some(now + 1000 * seconds))];
      }
    }
  }

  class RateLimitPlugin {
    const redis: CounterStore

    constructor (redis: CounterStore)
      ensures this.redis == redis
    {
      this.redis := redis;
    }

    /** A limit that is not positive does not limit, and touches no counter. */
    method IsAllowed(keyPrefix: string, maxPerSecond: int, now: nat, a: Answer) returns (allowed: bool)
      modifies redis
      ensures maxPerSecond <= 0 ==> allowed && redis.counters == old(redis.counters)
      ensures maxPerSecond > 0 ==>
                var k := WindowKey(keyPrefix, SecondOf(now));
                && allowed == WindowAllows(old(redis.counters), k, now, a, maxPerSecond)
                && redis.counters == WindowAfter(old(redis.counters), k, now, a)
    {
      if maxPerSecond <= 0 { return true; }
      var k := WindowKey(keyPrefix, SecondOf(now));
      var count := redis.Incr(k, now, a);
      if count == 1 {
        var _ := redis.Expire(k, now, 2, a == Answered(true));
      }
      return count <= maxPerSecond;
    }
  }
}

/**
 The rate-limit decision of `Gateway::processApiRequest` for one route: the token bucket with
 capacity twice the limit, and the window counter for what the bucket refuses.  A request is one
 atomic step with one clock reading.
 */
module GatewayLimiting {
  import opened Options
  import opened TokenBuckets
  import opened DistributedLimiting
  import opened WindowLimiting

  /** A request at `now`: whether Redis dropped the bucket before it, and how Redis answers. */
  datatype Request = Request(now: nat, lost: bool, fault: Fault, answer: Answer)

  datatype Outcome = ByBucket | ByWindow | Refused

  datatype Route = Route(meter: Meter, counters: Counters)

  const NEW_ROUTE := Route(FRESH, map[])

  function RateOf(limit: int): Rate { Rate(2 * limit, limit) }

  predicate BucketAllows(m: Meter, limit: int, q: Request) {
    match q.fault
    case Fine => Script(if q.lost then None else m.key, RateOf(limit), q.now).1
    case ErrorReply => false
    case _ => true
  }

  function BucketAfter(m: Meter, limit: int, q: Request): Meter {
    if q.fault == Fine || q.fault == NoReply(true) then Step(m, RateOf(limit), Call(q.now, q.lost))
    else if q.lost then m.(key := None) else m
  }

  function Decide(s: Route, prefix: string, limit: int, q: Request): (Route, Outcome) {
    var m := BucketAfter(s.meter, limit, q);
    if BucketAllows(s.meter, limit, q) then (Route(m, s.counters), ByBucket)
    else
      var k := WindowKey(prefix, SecondOf(q.now));
      (Route(m, WindowAfter(s.counters, k, q.now, q.answer)),
       if WindowAllows(s.counters, k, q.now, q.answer, limit) then ByWindow else Refused)
  }

  function After(prefix: string, limit: int, qs: seq<Request>): Route
    decreases |qs|
  {
    if qs == [] then NEW_ROUTE
    else Decide(After(prefix, limit, qs[..|qs| - 1]), prefix, limit, qs[|qs| - 1]).0
  }

  /** The outcome of the request that comes after `qs`. */
  function OutcomeOf(prefix: string, limit: int, qs: seq<Request>, q: Request): Outcome {
    Decide(After(prefix, limit, qs), prefix, limit, q).1
  }

  /** How many requests of a run fall in a wall-clock second and have the given outcome. */
  function CountIn(prefix: string, limit: int, qs: seq<Request>, second: nat, o: Outcome): nat
    decreases |qs|
  {
    if qs == [] then 0
    else
      var before, q := qs[..|qs| - 1], qs[|qs| - 1];
      CountIn(prefix, limit, before, second, o)
      + if SecondOf(q.now) == second && OutcomeOf(prefix, limit, before, q) == o then 1 else 0
  }

  function RequestsIn(qs: seq<Request>, second: nat): nat
    decreases |qs|
  {
    if qs == [] then 0
    else RequestsIn(qs[..|qs| - 1], second) + if SecondOf(qs[|qs| - 1].now) == second then 1 else 0
  }

  // ----- the first requests of a second -----

  lemma {:induction false} CountsAddUp(prefix: string, limit: int, qs: seq<Request>, second: nat)
    ensures CountIn(prefix, limit, qs, second, ByBucket) + CountIn(prefix, limit, qs, second, ByWindow)
            + CountIn(prefix, limit, qs, second, Refused) == RequestsIn(qs, second)
    decreases |qs|
  {
    if qs != [] {
      CountsAddUp(prefix, limit, qs[..|qs| - 1], second);
    }
  }

  /** The counter of a second never runs ahead of the requests the bucket passed on in it. */
  lemma {:induction false} CounterBounded(prefix: string, limit: int, qs: seq<Request>, second: nat)
    ensures var k, cs := WindowKey(prefix, second), After(prefix, limit, qs).counters;
            k in cs ==> cs[k].count <= CountIn(prefix, limit, qs, second, ByWindow)
                                       + CountIn(prefix, limit, qs, second, Refused)
    decreases |qs|
  {
    if qs != [] {
      CounterBounded(prefix, limit, qs[..|qs| - 1], second);
    }
  }

  /** Whatever fails in Redis, and whatever the clock does, the first `limit` requests of any
      wall-clock second are admitted. */
  lemma FirstOfSecondAdmitted(prefix: string, limit: int, qs: seq<Request>, q: Request)
    requires limit > 0 && RequestsIn(qs, SecondOf(q.now)) < limit
    ensures OutcomeOf(prefix, limit, qs, q) != Refused
  {
    CounterBounded(prefix, limit, qs, SecondOf(q.now));
    CountsAddUp(prefix, limit, qs, SecondOf(q.now));
  }

  // ----- the exact share of the window -----

  ghost predicate CountersAnswered(qs: seq<Request>) {
    forall i :: 0 <= i < |qs| ==> qs[i].answer.Answered?
  }

  /** While INCR is answered, the counter of a second is exactly the number of bucket refusals in
      it: its expiry cannot reset it within its own second. */
  lemma {:induction false} CounterExact(prefix: string, limit: int, qs: seq<Request>, second: nat)
    requires CountersAnswered(qs)
    ensures var k, cs := WindowKey(prefix, second), After(prefix, limit, qs).counters;
            var passed := CountIn(prefix, limit, qs, second, ByWindow) + CountIn(prefix, limit, qs, second, Refused);
            && (k in cs <==> passed > 0)
            && (k in cs ==> cs[k].count == passed)
            && (k in cs && cs[k].deadline.Some? ==> cs[k].deadline.value >= 1000 * (second + 1))
    decreases |qs|
  {
    if qs != [] {
      CounterExact(prefix, limit, qs[..|qs| - 1], second);
    }
  }

  /** The window admits exactly the first `limit` of the requests the bucket refuses in a second. */
  lemma {:induction false} WindowShare(prefix: string, limit: int, qs: seq<Request>, second: nat)
    requires limit > 0 && CountersAnswered(qs)
    ensures CountIn(prefix, limit, qs, second, ByWindow)
         == Min(limit, RequestsIn(qs, second) - CountIn(prefix, limit, qs, second, ByBucket))
    decreases |qs|
  {
    CountsAddUp(prefix, limit, qs, second);
    if qs != [] {
      var before := qs[..|qs| - 1];
      WindowShare(prefix, limit, before, second);
      CountsAddUp(prefix, limit, before, second);
      CounterExact(prefix, limit, before, second);
    }
  }

  // ----- how much a second admits -----

  /** Redis answers every call, and drops a bucket only when its three seconds are over. */
  ghost predicate Healthy(t: nat, qs: seq<Request>)
    decreases |qs|
  {
    qs == [] || (var before, q := qs[..|qs| - 1], qs[|qs| - 1];
      && Healthy(t, before)
      && q.fault == Fine && q.answer.Answered?
      && (if before == [] then t else before[|before| - 1].now) <= q.now
      && (q.lost ==> q.now - (if before == [] then t else before[|before| - 1].now) >= TTL_MS))
  }

  function Latest(t: nat, qs: seq<Request>): nat {
    if qs == [] then t else qs[|qs| - 1].now
  }

  lemma {:induction false} HealthyAnswers(t: nat, qs: seq<Request>)
    requires Healthy(t, qs)
    ensures CountersAnswered(qs)
    ensures forall i :: 0 <= i < |qs| ==> qs[i].now <= Latest(t, qs)
    decreases |qs|
  {
    if qs != [] {
      HealthyAnswers(t, qs[..|qs| - 1]);
    }
  }

  lemma {:induction false} NoneBefore(prefix: string, limit: int, qs: seq<Request>, second: nat, o: Outcome)
    requires forall i :: 0 <= i < |qs| ==> SecondOf(qs[i].now) != second
    ensures CountIn(prefix, limit, qs, second, o) == 0
    decreases |qs|
  {
    if qs != [] {
      NoneBefore(prefix, limit, qs[..|qs| - 1], second, o);
    }
  }

  /** In a healthy run the bucket goes on as if its key were never dropped. */
  lemma {:induction false} BucketGoesOn(prefix: string, limit: int, t: nat, qs: seq<Request>)
    requires limit > 0 && Healthy(t, qs)
    ensures var m := After(prefix, limit, qs).meter;
            Dated(m.key, Latest(t, qs)) && Filled(m.key, RateOf(limit)) && (qs != [] ==> m.key.Some?)
    ensures qs != [] ==>
              var before, q := qs[..|qs| - 1], qs[|qs| - 1];
              var m := After(prefix, limit, before).meter;
              var m' := Step(m, RateOf(limit), Call(q.now, false));
              && After(prefix, limit, qs).meter == m'
              && (OutcomeOf(prefix, limit, before, q) == ByBucket <==> m'.admitted == m.admitted + 1)
    decreases |qs|
  {
    if qs != [] {
      var before, q := qs[..|qs| - 1], qs[|qs| - 1];
      BucketGoesOn(prefix, limit, t, before);
      var m, r := After(prefix, limit, before).meter, RateOf(limit);
      RefilledWhenLost(m, r, Latest(t, before), Call(q.now, q.lost));
    }
  }

  lemma NothingYet(prefix: string, limit: int, t: nat, qs: seq<Request>, second: nat)
    requires Healthy(t, qs) && (qs == [] || SecondOf(Latest(t, qs)) < second)
    ensures CountIn(prefix, limit, qs, second, ByBucket) == 0
  {
    HealthyAnswers(t, qs);
    forall i | 0 <= i < |qs| ensures SecondOf(qs[i].now) != second {
      assert qs[i].now <= Latest(t, qs);
    }
    NoneBefore(prefix, limit, qs, second, ByBucket);
  }

  /** The last request of a healthy run as a call of the bucket. */
  lemma LastCall(prefix: string, limit: int, t: nat, qs: seq<Request>, second: nat)
    requires limit > 0 && Healthy(t, qs) && qs != [] && SecondOf(Latest(t, qs)) == second
    ensures var before, q := qs[..|qs| - 1], qs[|qs| - 1];
            var m := After(prefix, limit, before).meter;
            var m' := Step(m, RateOf(limit), Call(q.now, false));
            && Dated(m.key, Latest(t, before)) && Filled(m.key, RateOf(limit)) && (before != [] ==> m.key.Some?)
            && Latest(t, before) <= q.now && After(prefix, limit, qs).meter == m'
            && CountIn(prefix, limit, qs, second, ByBucket)
               == CountIn(prefix, limit, before, second, ByBucket) + (m'.admitted - m.admitted)
  {
    BucketGoesOn(prefix, limit, t, qs);
    BucketGoesOn(prefix, limit, t, qs[..|qs| - 1]);
  }

  ghost predicate WithinShare(prefix: string, limit: int, t: nat, qs: seq<Request>, second: nat) {
    1000 * CountIn(prefix, limit, qs, second, ByBucket)
    + Worth(After(prefix, limit, qs).meter.key, RateOf(limit), Latest(t, qs))
    <= 2000 * limit + 1000 + (Latest(t, qs) - 1000 * second) * (limit + 1000)
  }

  lemma ShareBegins(prefix: string, limit: int, t: nat, qs: seq<Request>, second: nat)
    requires limit > 0 && Healthy(t, qs) && qs != [] && SecondOf(Latest(t, qs)) == second
    requires |qs| == 1 || SecondOf(Latest(t, qs[..|qs| - 1])) != second
    ensures WithinShare(prefix, limit, t, qs, second)
  {
    var before, q := qs[..|qs| - 1], qs[|qs| - 1];
    LastCall(prefix, limit, t, qs, second);
    NothingYet(prefix, limit, t, before, second);
    Products(1000 * second, q.now, q.now, limit + 1000);
  }

  lemma ShareGoesOn(prefix: string, limit: int, t: nat, qs: seq<Request>, second: nat)
    requires limit > 0 && Healthy(t, qs) && |qs| > 1 && SecondOf(Latest(t, qs)) == second
    requires WithinShare(prefix, limit, t, qs[..|qs| - 1], second)
    ensures WithinShare(prefix, limit, t, qs, second)
  {
    var before, q := qs[..|qs| - 1], qs[|qs| - 1];
    var last := Latest(t, before);
    LastCall(prefix, limit, t, qs, second);
    WorthStep(After(prefix, limit, before).meter, RateOf(limit), last, Call(q.now, false));
    Products(1000 * second, last, q.now, limit + 1000);
  }

  /**
   What the bucket has admitted in a second and is still worth: bounded by its capacity, one
   token more, and what (limit + 1000) a second brings since the second began.
   */
  lemma {:induction false} BucketInSecond(prefix: string, limit: int, t: nat, qs: seq<Request>, second: nat)
    requires limit > 0 && Healthy(t, qs) && qs != [] && SecondOf(Latest(t, qs)) == second
    ensures 1000 * CountIn(prefix, limit, qs, second, ByBucket)
            + Worth(After(prefix, limit, qs).meter.key, RateOf(limit), Latest(t, qs))
         <= 2000 * limit + 1000 + (Latest(t, qs) - 1000 * second) * (limit + 1000)
    decreases |qs|
  {
    var before := qs[..|qs| - 1];
    if before != [] && SecondOf(Latest(t, before)) == second {
      BucketInSecond(prefix, limit, t, before, second);
      ShareGoesOn(prefix, limit, t, qs, second);
    } else {
      ShareBegins(prefix, limit, t, qs, second);
    }
  }

  lemma {:induction false} BucketShare(prefix: string, limit: int, t: nat, qs: seq<Request>, second: nat)
    requires limit > 0 && Healthy(t, qs)
    ensures CountIn(prefix, limit, qs, second, ByBucket) <= 3 * limit + 1000
    decreases |qs|
  {
    if qs != [] {
      var q := qs[|qs| - 1];
      if SecondOf(q.now) == second {
        BucketInSecond(prefix, limit, t, qs, second);
        BucketGoesOn(prefix, limit, t, qs);
        WorthPositive(After(prefix, limit, qs).meter.key, RateOf(limit), q.now);
        WithinSecond(q.now - 1000 * second, limit + 1000);
      } else {
        BucketShare(prefix, limit, t, qs[..|qs| - 1], second);
      }
    }
  }

  lemma WithinSecond(ms: int, perSecond: int)
    requires ms <= 999 && perSecond >= 0
    ensures ms * perSecond <= 999 * perSecond
  {
    Products(ms, 999, 999, perSecond);
    Products(0, ms, 999, perSecond);
  }

  /**
   While Redis answers, no wall-clock second admits more than 4 * limit + 1000 requests: at most
   3 * limit + 1000 by the bucket and limit by the window.
   */
  lemma SecondBound(prefix: string, limit: int, t: nat, qs: seq<Request>, second: nat)
    requires limit > 0 && Healthy(t, qs)
    ensures CountIn(prefix, limit, qs, second, ByBucket) <= 3 * limit + 1000
    ensures CountIn(prefix, limit, qs, second, ByBucket) + CountIn(prefix, limit, qs, second, ByWindow)
         <= 4 * limit + 1000
  {
    HealthyAnswers(t, qs);
    WindowShare(prefix, limit, qs, second);
    BucketShare(prefix, limit, t, qs, second);
  }

  lemma WorthPositive(key: Option<Bucket>, r: Rate, t: int)
    requires r.perSecond >= 0 && r.capacity >= 0 && Dated(key, t) && Filled(key, r)
    ensures Worth(key, r, t) >= 0
  {
    if key.Some? {
      Products(key.value.last, t, t, r.perSecond);
    }
  }

  // ----- what single requests get -----

  /** Without Redis the bucket lets everything through; an error reply leaves it to the window; and
      a counter that does not answer lets through what is left to it. */
  lemma FaultsDecide(s: Route, prefix: string, limit: int, q: Request)
    ensures q.fault == NoPool || q.fault == NoConnection || q.fault.NoReply? ==>
              Decide(s, prefix, limit, q).1 == ByBucket
    ensures q.fault == ErrorReply ==> Decide(s, prefix, limit, q).1 != ByBucket
    ensures q.fault == ErrorReply && q.answer.Unanswered? ==> Decide(s, prefix, limit, q).1 == ByWindow
  {
  }

  /** The first request of a second that is left to the window opens a counter of two seconds. */
  lemma WindowOpens(cs: Counters, prefix: string, now: nat)
    requires WindowKey(prefix, now / 1000) !in cs
    ensures var k := WindowKey(prefix, SecondOf(now));
            && WindowAfter(cs, k, now, Answered(true)) == cs[k := Counter(1, Some(now + 2000))]
            && WindowAfter(cs, k, now, Answered(false)) == cs[k := Counter(1, None)]
            && forall limit :: limit > 0 ==> WindowAllows(cs, k, now, Answered(true), limit)
  {
  }

  /** A counter within its deadline counts every executed INCR, answered or not, and keeps its deadline;
      past it, Redis begins anew. */
  lemma WindowCounts(cs: Counters, prefix: string, now: nat, a: Answer, limit: int)
    requires WindowKey(prefix, now / 1000) in cs && a != Unanswered(false)
    ensures var k, was := WindowKey(prefix, SecondOf(now)), cs[WindowKey(prefix, now / 1000)];
            var live := was.deadline == None || now < was.deadline.value;
            && (live && was.count > 0 ==> WindowAfter(cs, k, now, a) == cs[k := Counter(was.count + 1, was.deadline)])
            && (!live ==> k in WindowAfter(cs, k, now, a) && WindowAfter(cs, k, now, a)[k].count == 1)
            && (live && a.Answered? ==> (WindowAllows(cs, k, now, a, limit) <==> was.count < limit))
            && WindowAfter(cs, k, now, Unanswered(false)) == cs
  {
  }

  /** A request whose script ran is charged to the bucket even if the answer got lost, and no other
      failure touches it. */
  lemma FaultsCost(m: Meter, limit: int, q: Request)
    requires !q.lost
    ensures q.fault == Fine || q.fault == NoReply(true) ==>
              BucketAfter(m, limit, q).key == Some(Script(m.key, Rate(2 * limit, limit), q.now).0)
    ensures q.fault != Fine && q.fault != NoReply(true) ==> BucketAfter(m, limit, q) == m
  {
  }

  /** `n` requests at one instant on a new route, Redis answering. */
  function Burst(now: nat, n: nat): seq<Request> {
    if n == 0 then [] else Burst(now, n - 1) + [Request(now, false, Fine, Answered(true))]
  }

  /** The route after such a burst: the bucket is used up first, and then the window counts. */
  function AfterBurst(prefix: string, limit: nat, now: nat, n: nat): Route {
    Route(if n == 0 then FRESH
          else if n <= 2 * limit then Meter(Some(Bucket(1000 * (2 * limit - n), now)), n)
          else Meter(Some(Bucket(0, now)), 2 * limit),
          if n <= 2 * limit then map[]
          else map[WindowKey(prefix, now / 1000) := Counter(n - 2 * limit, Some(now + 2000))])
  }

  lemma BurstByWindow(prefix: string, limit: nat, now: nat, n: nat)
    requires limit > 0 && n >= 2 * limit
    ensures Decide(AfterBurst(prefix, limit, now, n), prefix, limit, Request(now, false, Fine, Answered(true)))
         == (AfterBurst(prefix, limit, now, n + 1), if n < 3 * limit then ByWindow else Refused)
  {
    assert 0 * RateOf(limit).perSecond == 0;
    var s, k := AfterBurst(prefix, limit, now, n), WindowKey(prefix, now / 1000);
    assert Level(s.meter.key, RateOf(limit), now) == 0;
    assert Bumped(s.counters, k, now) == n + 1 - 2 * limit;
    assert WindowAfter(s.counters, k, now, Answered(true))
        == map[k := Counter(n + 1 - 2 * limit, Some(now + 2000))];
  }

  lemma BurstStep(prefix: string, limit: nat, now: nat, n: nat)
    requires limit > 0
    ensures Decide(AfterBurst(prefix, limit, now, n), prefix, limit, Request(now, false, Fine, Answered(true)))
         == (AfterBurst(prefix, limit, now, n + 1),
             if n < 2 * limit then ByBucket else if n < 3 * limit then ByWindow else Refused)
  {
    if n >= 2 * limit {
      BurstByWindow(prefix, limit, now, n);
    }
  }

  lemma {:induction false} BurstReaches(prefix: string, limit: nat, now: nat, n: nat)
    requires limit > 0
    ensures After(prefix, limit, Burst(now, n)) == AfterBurst(prefix, limit, now, n)
  {
    if n > 0 {
      BurstReaches(prefix, limit, now, n - 1);
      BurstStep(prefix, limit, now, n - 1);
    }
  }

  /** A full bucket admits 2 * R requests at once, the window R more, and the rest of the burst is refused. */
  lemma BurstExactly(prefix: string, limit: nat, now: nat, n: nat)
    requires limit > 0
    ensures OutcomeOf(prefix, limit, Burst(now, n), Request(now, false, Fine, Answered(true)))
         == if n < 2 * limit then ByBucket else if n < 3 * limit then ByWindow else Refused
  {
    BurstReaches(prefix, limit, now, n);
    BurstStep(prefix, limit, now, n);
  }

  lemma {:induction false} BurstLength(now: nat, n: nat)
    ensures |Burst(now, n)| == n
  {
    if n > 0 {
      BurstLength(now, n - 1);
    }
  }

  // ----- the code -----

  datatype RouteRule = RouteRule(pathPattern: string, rateLimit: int)

  class Gateway {
    const distributedLimiter: DistributedRateLimiter?
    const rateLimiter: RateLimitPlugin
    var rejectedLimit: nat

    constructor (distributedLimiter: DistributedRateLimiter?, rateLimiter: RateLimitPlugin)
      ensures this.distributedLimiter == distributedLimiter && this.rateLimiter == rateLimiter
      ensures rejectedLimit == 0
    {
      this.distributedLimiter, this.rateLimiter := distributedLimiter, rateLimiter;
      rejectedLimit := 0;
    }

    /** The bucket and the counters the two limiters hold for a route. */
    ghost function RouteState(rule: RouteRule, admitted: nat): Route
      reads this, distributedLimiter, rateLimiter
      reads if distributedLimiter == null then {} else {distributedLimiter.redis}
      reads rateLimiter.redis
    {
      Route(Meter(if distributedLimiter == null then None
                  else Stored(distributedLimiter.redis.entries, distributedLimiter.Key(rule.pathPattern)), admitted),
            rateLimiter.redis.counters)
    }

    /** Redis's deadline for the bucket of a route is over, or there is none. */
    ghost predicate Droppable(rule: RouteRule, now: nat)
      reads this, distributedLimiter
      reads if distributedLimiter == null then {} else {distributedLimiter.redis}
    {
      distributedLimiter != null ==>
        var key := distributedLimiter.Key(rule.pathPattern);
        key in distributedLimiter.redis.entries ==> distributedLimiter.redis.entries[key].deadline <= now
    }

    /** The bucket's decision; `answer` is what the request is about to hear from the counter. */
    method AskBucket(rule: RouteRule, now: nat, lost: bool, fault: Fault, ghost answer: Answer) returns (allowed: bool)
      requires distributedLimiter != null && rule.rateLimit > 0 && (lost ==> Droppable(rule, now))
      modifies distributedLimiter, distributedLimiter.redis
      ensures var m, q := old(RouteState(rule, 0)).meter, Request(now, lost, fault, answer);
              && allowed == BucketAllows(m, rule.rateLimit, q)
              && RouteState(rule, BucketAfter(m, rule.rateLimit, q).admitted).meter == BucketAfter(m, rule.rateLimit, q)
      ensures BucketBooked(rule, now, fault, old(distributedLimiter.redis.entries))
      ensures OthersKept(old(distributedLimiter.redis.entries), distributedLimiter.redis.entries,
                         distributedLimiter.keyPrefix, rule.pathPattern)
    {
      if lost { distributedLimiter.redis.Drop(distributedLimiter.Key(rule.pathPattern), now); }
      allowed := distributedLimiter.IsAllowed(rule.pathPattern, rule.rateLimit, rule.rateLimit * 2, now, fault);
      OneKeyChanged(old(distributedLimiter.redis.entries), distributedLimiter.redis.entries,
                    distributedLimiter.keyPrefix, rule.pathPattern);
    }

    /** No other route's bucket changed since `before`; this one has a new deadline if the script ran. */
    ghost predicate BucketBooked(rule: RouteRule, now: nat, fault: Fault, before: map<string, Entry>)
      requires distributedLimiter != null
      reads this, distributedLimiter, distributedLimiter.redis
    {
      var key, entries := distributedLimiter.Key(rule.pathPattern), distributedLimiter.redis.entries;
      && entries - {key} == before - {key}
      && (fault == Fine || fault == NoReply(true) ==> key in entries && entries[key].deadline == now + TTL_MS)
      && distributedLimiter.redisAvailable == (fault.Fine? || fault.ErrorReply?)
    }

    /**
     The rate-limit block of `processApiRequest`; false is the answer 429.  `lost`: Redis has
     dropped the route's bucket before the request.
     */
    method PassesRateLimit(rule: RouteRule, now: nat, lost: bool, fault: Fault, answer: Answer) returns (allowed: bool)
      requires lost ==> Droppable(rule, now)
      modifies this, rateLimiter.redis
      modifies if distributedLimiter == null then {} else {distributedLimiter, distributedLimiter.redis}
      ensures rule.rateLimit <= 0 ==> allowed && unchanged(this) && unchanged(rateLimiter.redis)
      ensures rule.rateLimit <= 0 && distributedLimiter != null ==>
                unchanged(distributedLimiter) && unchanged(distributedLimiter.redis)
      ensures rule.rateLimit > 0 && distributedLimiter != null ==>
                var decision := Decide(old(RouteState(rule, 0)), "rate:" + rule.pathPattern, rule.rateLimit,
                                       Request(now, lost, fault, answer));
                && allowed == (decision.1 != Refused)
                && RouteState(rule, decision.0.meter.admitted) == decision.0
                && OthersKept(old(distributedLimiter.redis.entries), distributedLimiter.redis.entries,
                              distributedLimiter.keyPrefix, rule.pathPattern)
                && rejectedLimit == old(rejectedLimit) + if allowed then 0 else 1
      ensures rule.rateLimit > 0 && distributedLimiter != null ==>
                BucketBooked(rule, now, fault, old(distributedLimiter.redis.entries))
      ensures rule.rateLimit > 0 && distributedLimiter == null ==>
                var k := WindowKey("rate:" + rule.pathPattern, SecondOf(now));
                && allowed == WindowAllows(old(rateLimiter.redis.counters), k, now, answer, rule.rateLimit)
                && rateLimiter.redis.counters == WindowAfter(old(rateLimiter.redis.counters), k, now, answer)
                && rejectedLimit == old(rejectedLimit) + if allowed then 0 else 1
    {
      if rule.rateLimit > 0 {
        allowed := false;
        if distributedLimiter != null {
          allowed := AskBucket(rule, now, lost, fault, answer);
        }
        if distributedLimiter == null || !allowed {
          allowed := rateLimiter.IsAllowed("rate:" + rule.pathPattern, rule.rateLimit, now, answer);
        }
        if !allowed {
          rejectedLimit := rejectedLimit + 1;
          return false;
        }
      }
      return true;
    }
  }
}
