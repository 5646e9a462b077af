/**
 The token bucket of gateway/src/distributed_rate_limiter.cpp: the script Redis runs, in
 thousandths of a token so that a millisecond refills exactly `rate`, and the limiter around it.

 On refusal the script keeps the old `last_time`, so the same time is credited again; the
 reference `ExactScript` differs from it in that one assignment.
 */
module TokenBuckets {
  import opened Options

  /** The stored hash: tokens in thousandths, and a time in milliseconds. */
  datatype Bucket = Bucket(tokens: int, last: int)

  /** How many tokens fit, and how many come back per second. */
  datatype Rate = Rate(capacity: int, perSecond: int) {
    function Full(): int { 1000 * capacity }
  }

  function Min(a: int, b: int): int { if a < b then a else b }

  /** The tokens a stored bucket is worth at `now`; a missing key is worth a full bucket. */
  function Level(key: Option<Bucket>, r: Rate, now: int): int {
    match key
    case None => r.Full()
    case Some(b) =>
      var elapsed := if now < b.last then 0 else now - b.last;
      Min(r.Full(), b.tokens + elapsed * r.perSecond)
  }

  function Script(key: Option<Bucket>, r: Rate, now: int): (Bucket, bool) {
    var tokens := Level(key, r, now);
    if tokens >= 1000 then (Bucket(tokens - 1000, now), true)
    else (Bucket(tokens, if key.None? then now else key.value.last), false)
  }

  /** The textbook bucket: a refusal uses up the time it has credited. */
  function ExactScript(key: Option<Bucket>, r: Rate, now: int): (Bucket, bool) {
    var tokens := Level(key, r, now);
    if tokens >= 1000 then (Bucket(tokens - 1000, now), true) else (Bucket(tokens, now), false)
  }

  // ----- runs on one key -----

  /** A call at `now`; `lost` when Redis had dropped the key before it. */
  datatype Call = Call(now: int, lost: bool)

  datatype Meter = Meter(key: Option<Bucket>, admitted: nat)

  const FRESH := Meter(None, 0)

  function Tally(m: Meter, result: (Bucket, bool)): Meter {
    Meter(Some(result.0), m.admitted + if result.1 then 1 else 0)
  }

  function Step(m: Meter, r: Rate, c: Call): Meter {
    Tally(m, Script(if c.lost then None else m.key, r, c.now))
  }

  function After(m: Meter, r: Rate, calls: seq<Call>): Meter
    decreases |calls|
  {
    if calls == [] then m else After(Step(m, r, calls[0]), r, calls[1..])
  }

  /** The reference never loses its key. */
  function ExactAfter(m: Meter, r: Rate, calls: seq<Call>): Meter
    decreases |calls|
  {
    if calls == [] then m
    else ExactAfter(Tally(m, ExactScript(m.key, r, calls[0].now)), r, calls[1..])
  }

  /** Calls at times that do not go back, all at `t` or later. */
  ghost predicate From(t: int, calls: seq<Call>)
    decreases |calls|
  {
    calls == [] || (t <= calls[0].now && From(calls[0].now, calls[1..]))
  }

  ghost predicate NoLosses(calls: seq<Call>) {
    forall i :: 0 <= i < |calls| ==> !calls[i].lost
  }

  /** How often a run finds the key gone. */
  function Losses(calls: seq<Call>): nat
    decreases |calls|
  {
    if calls == [] then 0 else (if calls[0].lost then 1 else 0) + Losses(calls[1..])
  }

  /** The stored time is not ahead of `t`. */
  ghost predicate Dated(key: Option<Bucket>, t: int) {
    key.Some? ==> key.value.last <= t
  }

  ghost predicate Filled(key: Option<Bucket>, r: Rate) {
    key.Some? ==> 0 <= key.value.tokens <= r.Full()
  }

  lemma Products(a: int, b: int, c: int, rate: int)
    ensures (c - a) * rate == (b - a) * rate + (c - b) * rate
    ensures rate >= 0 && a <= b ==> 0 <= (b - a) * rate
  {
    if rate >= 0 && a <= b {
      assert 0 <= (b - a) * rate;
    }
  }

  /** Between calls a bucket's level rises at the rate, up to the capacity. */
  lemma LevelRises(key: Option<Bucket>, r: Rate, t: int, now: int)
    requires r.perSecond >= 0 && Dated(key, t) && t <= now
    ensures Level(key, r, now) == Min(r.Full(), Level(key, r, t) + (now - t) * r.perSecond)
  {
    Products(t, now, now, r.perSecond);
    if key.Some? {
      Products(key.value.last, t, now, r.perSecond);
    }
  }

  /** A clock that went back neither refills a bucket nor drains it, and a refusal then changes nothing. */
  lemma ClockWentBack(b: Bucket, r: Rate, now: int)
    requires now <= b.last && 0 <= b.tokens <= r.Full()
    ensures Level(Some(b), r, now) == b.tokens
    ensures Script(Some(b), r, now) == if b.tokens >= 1000 then (Bucket(b.tokens - 1000, now), true) else (b, false)
  {
    var elapsed := if now < b.last then 0 else now - b.last;
    assert elapsed * r.perSecond == 0 * r.perSecond == 0;
  }

  // ----- never fewer admissions than the exact bucket -----

  /** What the code has admitted plus what it still holds is never behind the exact bucket. */
  ghost predicate Ahead(m: Meter, e: Meter, r: Rate, t: int) {
    && Dated(m.key, t) && Dated(e.key, t)
    && m.admitted >= e.admitted
    && 1000 * m.admitted + Level(m.key, r, t) >= 1000 * e.admitted + Level(e.key, r, t)
  }

  lemma AheadStep(m: Meter, e: Meter, r: Rate, t: int, c: Call)
    requires r.perSecond >= 0 && t <= c.now && Ahead(m, e, r, t)
    ensures Ahead(Step(m, r, c), Tally(e, ExactScript(e.key, r, c.now)), r, c.now)
  {
    var key := if c.lost then None else m.key;
    LevelRises(m.key, r, t, c.now);
    LevelRises(e.key, r, t, c.now);
  }

  lemma {:induction false} AheadRun(m: Meter, e: Meter, r: Rate, t: int, calls: seq<Call>)
    requires r.perSecond >= 0 && From(t, calls) && Ahead(m, e, r, t)
    ensures After(m, r, calls).admitted >= ExactAfter(e, r, calls).admitted
    decreases |calls|
  {
    if calls != [] {
      AheadStep(m, e, r, t, calls[0]);
      AheadRun(Step(m, r, calls[0]), Tally(e, ExactScript(e.key, r, calls[0].now)), r, calls[0].now, calls[1..]);
    }
  }

  /** At no point of a run has the script admitted less than the exact bucket, whatever keys expire. */
  lemma NeverUnderServes(r: Rate, t: int, calls: seq<Call>)
    requires r.perSecond >= 0 && From(t, calls)
    ensures After(FRESH, r, calls).admitted >= ExactAfter(FRESH, r, calls).admitted
  {
    AheadRun(FRESH, FRESH, r, t, calls);
  }

  // ----- how much can be admitted -----

  /** The time credited to a run: at every call that finds the key, the time since `last_time`. */
  function Credited(m: Meter, r: Rate, calls: seq<Call>): int
    decreases |calls|
  {
    if calls == [] then 0
    else (if m.key.Some? && !calls[0].lost then calls[0].now - m.key.value.last else 0)
         + Credited(Step(m, r, calls[0]), r, calls[1..])
  }

  /** The time credited after the first call of a stretch. */
  function CreditedLater(m: Meter, r: Rate, calls: seq<Call>): int
    requires calls != []
  {
    Credited(Step(m, r, calls[0]), r, calls[1..])
  }

  lemma {:induction false} RunCredit(m: Meter, r: Rate, t: int, calls: seq<Call>)
    requires r.perSecond >= 0 && r.capacity >= 0 && From(t, calls)
    requires m.key.Some? && Dated(m.key, t) && Filled(m.key, r)
    ensures After(m, r, calls).key.Some? && Filled(After(m, r, calls).key, r)
    ensures 1000 * (After(m, r, calls).admitted - m.admitted) + After(m, r, calls).key.value.tokens
         <= m.key.value.tokens + Credited(m, r, calls) * r.perSecond + Losses(calls) * r.Full()
    decreases |calls|
  {
    if calls != [] {
      var c, m' := calls[0], Step(m, r, calls[0]);
      RunCredit(m', r, c.now, calls[1..]);
      if c.lost {
        Products(0, 1, Losses(calls), r.Full());
      } else {
        Products(0, c.now - m.key.value.last, Credited(m, r, calls), r.perSecond);
      }
    }
  }

  /**
   In any stretch of any run, whatever state it starts in, admissions are paid for by one full
   bucket, the time credited after the first call, and another full bucket each time the key is
   found gone after it; the bucket stays within its bounds.
   */
  lemma AdmissionBound(m: Meter, r: Rate, t: int, calls: seq<Call>)
    requires r.perSecond >= 0 && r.capacity >= 0 && From(t, calls)
    requires calls != [] && Dated(m.key, t) && Filled(m.key, r)
    ensures Filled(After(m, r, calls).key, r)
    ensures 1000 * (After(m, r, calls).admitted - m.admitted)
         <= r.Full() + CreditedLater(m, r, calls) * r.perSecond + Losses(calls[1..]) * r.Full()
  {
    var m' := Step(m, r, calls[0]);
    RunCredit(m', r, calls[0].now, calls[1..]);
  }

  function LastTime(calls: seq<Call>): int
    requires calls != []
  {
    calls[|calls| - 1].now
  }

  /** The time that goes uncredited because the key is found gone. */
  function Forfeited(m: Meter, r: Rate, calls: seq<Call>): int
    decreases |calls|
  {
    if calls == [] then 0
    else (if m.key.Some? && calls[0].lost then calls[0].now - m.key.value.last else 0)
         + Forfeited(Step(m, r, calls[0]), r, calls[1..])
  }

  /** Without refusals the time credited and forfeited is just the length of the stretch. */
  lemma {:induction false} CreditTelescopes(m: Meter, r: Rate, calls: seq<Call>)
    requires m.key.Some?
    requires After(m, r, calls).admitted == m.admitted + |calls|
    ensures Credited(m, r, calls) + Forfeited(m, r, calls)
         == (if calls == [] then 0 else LastTime(calls) - m.key.value.last)
    ensures NoLosses(calls) ==> Forfeited(m, r, calls) == 0
    decreases |calls|
  {
    if calls != [] {
      AtMostOneEach(Step(m, r, calls[0]), r, calls[1..]);
      CreditTelescopes(Step(m, r, calls[0]), r, calls[1..]);
    }
  }

  lemma {:induction false} AtMostOneEach(m: Meter, r: Rate, calls: seq<Call>)
    ensures m.admitted <= After(m, r, calls).admitted <= m.admitted + |calls|
    decreases |calls|
  {
    if calls != [] {
      AtMostOneEach(Step(m, r, calls[0]), r, calls[1..]);
    }
  }

  lemma {:induction false} ExactCredit(m: Meter, r: Rate, calls: seq<Call>)
    requires r.perSecond >= 0 && m.key.Some? && From(m.key.value.last, calls)
    requires r.capacity >= 0 && Filled(m.key, r)
    ensures 1000 * (ExactAfter(m, r, calls).admitted - m.admitted)
         <= m.key.value.tokens
            + (if calls == [] then 0 else LastTime(calls) - m.key.value.last) * r.perSecond
    decreases |calls|
  {
    if calls != [] {
      var c := calls[0];
      var m' := Tally(m, ExactScript(m.key, r, c.now));
      Products(m.key.value.last, c.now, LastTime(calls), r.perSecond);
      ExactCredit(m', r, calls[1..]);
      assert (c.now - c.now) * r.perSecond == 0;
    }
  }

  /** The exact bucket keeps the textbook bound in every stretch of a run. */
  lemma ExactBound(m: Meter, r: Rate, t: int, calls: seq<Call>)
    requires r.perSecond >= 0 && r.capacity >= 0 && From(t, calls)
    requires calls != [] && Dated(m.key, t) && Filled(m.key, r)
    ensures 1000 * (ExactAfter(m, r, calls).admitted - m.admitted)
         <= r.Full() + (LastTime(calls) - calls[0].now) * r.perSecond
  {
    if m.key.Some? {
      Products(m.key.value.last, calls[0].now, calls[0].now, r.perSecond);
    }
    ExactCredit(Tally(m, ExactScript(m.key, r, calls[0].now)), r, calls[1..]);
  }

  /** Admissions never exceed the capacity plus what the rate brings back in the time elapsed. */
  ghost predicate TextbookBound(r: Rate, calls: seq<Call>)
    requires calls != []
  {
    1000 * After(FRESH, r, calls).admitted <= r.Full() + (LastTime(calls) - calls[0].now) * r.perSecond
  }

  /** From one token per millisecond on, the script is the exact bucket, as long as expiry does not show. */
  lemma {:induction false} FastIsExact(m: Meter, r: Rate, t: int, calls: seq<Call>)
    requires r.perSecond >= 1000 && r.capacity >= 1 && From(t, calls)
    requires NoLosses(calls) || (r.capacity <= 3 * r.perSecond && LossesLegal(t, calls))
    requires Dated(m.key, t) && Filled(m.key, r)
    ensures After(m, r, calls) == ExactAfter(m, r, calls)
    decreases |calls|
  {
    if calls != [] {
      var c := calls[0];
      if c.lost {
        RefilledWhenLost(m, r, t, c);
      }
      FastIsExact(Step(m, r, c), r, c.now, calls[1..]);
    }
  }

  function Repeat(n: nat, now: int): seq<Call> {
    if n == 0 then [] else [Call(now, false)] + Repeat(n - 1, now)
  }

  lemma {:induction false} AfterSplit(m: Meter, r: Rate, a: seq<Call>, b: seq<Call>)
    ensures After(m, r, a + b) == After(After(m, r, a), r, b)
    decreases |a|
  {
    if a == [] {
      assert a + b == b;
    } else {
      assert (a + b)[1..] == a[1..] + b;
      AfterSplit(Step(m, r, a[0]), r, a[1..], b);
    }
  }

  lemma {:induction false} RepeatFrom(n: nat, now: int, more: seq<Call>)
    requires From(now, more)
    ensures From(now, Repeat(n, now) + more)
    ensures NoLosses(more) ==> NoLosses(Repeat(n, now) + more)
  {
    if n > 0 {
      RepeatFrom(n - 1, now, more);
      var calls := Repeat(n, now) + more;
      assert calls == [Call(now, false)] + (Repeat(n - 1, now) + more);
      assert calls[1..] == Repeat(n - 1, now) + more;
    } else {
      assert Repeat(n, now) + more == more;
    }
  }

  /** Calls at one instant use up the tokens one by one. */
  lemma {:induction false} Drained(m: Meter, r: Rate, n: nat, now: int)
    requires m.key == Some(Bucket(1000 * n, now)) && n <= r.capacity
    ensures After(m, r, Repeat(n, now)) == Meter(Some(Bucket(0, now)), m.admitted + n)
    decreases n
  {
    if n > 0 {
      var m' := Step(m, r, Call(now, false));
      assert 0 * r.perSecond == 0;
      assert Repeat(n, now)[1..] == Repeat(n - 1, now);
      Drained(m', r, n - 1, now);
    }
  }

  lemma FreshDrained(r: Rate)
    requires r.capacity >= 1
    ensures After(FRESH, r, Repeat(r.capacity, 0)) == Meter(Some(Bucket(0, 0)), r.capacity)
  {
    assert Repeat(r.capacity, 0)[1..] == Repeat(r.capacity - 1, 0);
    Drained(Step(FRESH, r, Call(0, false)), r, r.capacity - 1, 0);
  }

  /** Refused calls at one instant, a millisecond after `last_time`, credit that millisecond again and again. */
  lemma {:induction false} RefusalsRefill(m: Meter, r: Rate, credit: nat) returns (polls: nat)
    requires 1 <= r.perSecond < 1000 && r.capacity >= 1
    requires m.key == Some(Bucket(credit, 0)) && credit < 1000
    ensures polls > 0 && After(m, r, Repeat(polls, 1)).admitted == m.admitted + 1
    decreases 1000 - credit
  {
    var m' := Step(m, r, Call(1, false));
    assert 1 * r.perSecond == r.perSecond;
    if credit + r.perSecond >= 1000 {
      polls := 1;
      assert Repeat(1, 1)[1..] == [];
      assert After(m', r, []) == m';
    } else {
      var more := RefusalsRefill(m', r, credit + r.perSecond);
      polls := more + 1;
      assert Repeat(polls, 1)[1..] == Repeat(more, 1);
    }
  }

  lemma {:induction false} RepeatEnds(n: nat, now: int)
    ensures |Repeat(n, now)| == n && forall i :: 0 <= i < n ==> Repeat(n, now)[i] == Call(now, false)
  {
    if n > 0 {
      RepeatEnds(n - 1, now);
    }
  }

  /** A run that breaks the textbook bound: a drained bucket, polled one millisecond later. */
  lemma Overserved(r: Rate) returns (t: int, calls: seq<Call>)
    requires r.capacity >= 1 && 1 <= r.perSecond < 1000
    ensures calls != [] && From(t, calls) && NoLosses(calls) && !TextbookBound(r, calls)
  {
    FreshDrained(r);
    var drained := Repeat(r.capacity, 0);
    var polls := RefusalsRefill(After(FRESH, r, drained), r, 0);
    t, calls := 0, drained + Repeat(polls, 1);
    AfterSplit(FRESH, r, drained, Repeat(polls, 1));
    RepeatEnds(r.capacity, 0);
    RepeatEnds(polls, 1);
    assert From(1, []);
    RepeatFrom(polls, 1, []);
    assert Repeat(polls, 1) + [] == Repeat(polls, 1);
    RepeatFrom(r.capacity, 0, Repeat(polls, 1));
    assert (1 - 0) * r.perSecond == r.perSecond;
  }

  lemma ZeroRateBound(r: Rate, t: int, calls: seq<Call>)
    requires r.perSecond == 0 && r.capacity >= 0 && calls != [] && From(t, calls) && NoLosses(calls)
    ensures TextbookBound(r, calls)
  {
    AdmissionBound(FRESH, r, t, calls);
    KeptIsLegal(t, calls[1..]);
  }

  lemma {:induction false} KeptIsLegal(t: int, calls: seq<Call>)
    requires NoLosses(calls)
    ensures LossesLegal(t, calls) && Losses(calls) == 0
    decreases |calls|
  {
    if calls != [] {
      KeptIsLegal(calls[0].now, calls[1..]);
    }
  }

  /** A drained bucket, and three seconds later, its key gone, drained again. */
  function TwoBursts(n: nat): seq<Call>
    requires n > 0
  {
    Repeat(n, 0) + ([Call(TTL_MS, true)] + Repeat(n - 1, TTL_MS))
  }

  lemma TwoBurstsLegal(n: nat)
    requires n > 0
    ensures var calls := TwoBursts(n);
            From(0, calls) && LossesLegal(0, calls)
            && calls != [] && calls[0].now == 0 && LastTime(calls) == TTL_MS
  {
    var again := Repeat(n - 1, TTL_MS);
    var second := [Call(TTL_MS, true)] + again;
    RepeatEnds(n, 0);
    RepeatEnds(n - 1, TTL_MS);
    RepeatFrom(n - 1, TTL_MS, []);
    assert again + [] == again && second[1..] == again;
    KeptIsLegal(TTL_MS, again);
    RepeatFrom(n, 0, second);
    RepeatLosses(n, second);
  }

  lemma TwoBurstsAdmitted(r: Rate)
    requires r.capacity >= 1
    ensures After(FRESH, r, TwoBursts(r.capacity)).admitted == 2 * r.capacity
  {
    var n := r.capacity - 1;
    var again := Repeat(n, TTL_MS);
    var second := [Call(TTL_MS, true)] + again;
    FreshDrained(r);
    AfterSplit(FRESH, r, Repeat(r.capacity, 0), second);
    assert second[1..] == again;
    Drained(Step(Meter(Some(Bucket(0, 0)), r.capacity), r, second[0]), r, n, TTL_MS);
  }

  /** A run that breaks the bound by expiry. */
  lemma BurstAgain(r: Rate) returns (t: int, calls: seq<Call>)
    requires r.capacity >= 1 && 0 <= 3 * r.perSecond < r.capacity
    ensures calls != [] && From(t, calls) && LossesLegal(t, calls) && !TextbookBound(r, calls)
  {
    t, calls := 0, TwoBursts(r.capacity);
    TwoBurstsLegal(r.capacity);
    TwoBurstsAdmitted(r);
  }

  /** Whenever the rate is below one token per millisecond, or three seconds do not refill the
      bucket, some run breaks the textbook bound. */
  lemma BoundBroken(r: Rate) returns (t: int, calls: seq<Call>)
    requires r.capacity >= 1 && r.perSecond >= 0
    requires r.perSecond < 1000 || 3 * r.perSecond < r.capacity
    ensures calls != [] && From(t, calls) && LossesLegal(t, calls) && !TextbookBound(r, calls)
  {
    if 3 * r.perSecond < r.capacity {
      t, calls := BurstAgain(r);
    } else {
      t, calls := Overserved(r);
      KeptIsLegal(t, calls);
    }
  }

  /**
   The textbook bound holds of every run exactly when a millisecond brings at least one token and
   three seconds refill the bucket; otherwise refused calls, or the expiry, buy admissions.
   */
  lemma TextbookBoundExactly(r: Rate)
    requires r.capacity >= 1 && r.perSecond >= 0
    ensures (forall t: int, calls: seq<Call> | calls != [] && From(t, calls) && LossesLegal(t, calls) ::
               TextbookBound(r, calls))
       <==> r.perSecond >= 1000 && r.capacity <= 3 * r.perSecond
  {
    if r.perSecond >= 1000 && r.capacity <= 3 * r.perSecond {
      forall t: int, calls: seq<Call> | calls != [] && From(t, calls) && LossesLegal(t, calls)
        ensures TextbookBound(r, calls)
      {
        FastIsExact(FRESH, r, t, calls);
        ExactBound(FRESH, r, t, calls);
      }
    } else {
      var t, calls := BoundBroken(r);
      assert exists t: int, calls: seq<Call> ::
          calls != [] && From(t, calls) && LossesLegal(t, calls) && !TextbookBound(r, calls);
    }
  }

  /** The same condition decides whether the script is the exact bucket in every run. */
  lemma ScriptIsExactExactly(r: Rate)
    requires r.capacity >= 1 && r.perSecond >= 0
    ensures (forall t: int, calls: seq<Call> | From(t, calls) && LossesLegal(t, calls) ::
               After(FRESH, r, calls) == ExactAfter(FRESH, r, calls))
       <==> r.perSecond >= 1000 && r.capacity <= 3 * r.perSecond
  {
    if r.perSecond >= 1000 && r.capacity <= 3 * r.perSecond {
      forall t: int, calls: seq<Call> | From(t, calls) && LossesLegal(t, calls)
        ensures After(FRESH, r, calls) == ExactAfter(FRESH, r, calls)
      {
        FastIsExact(FRESH, r, t, calls);
      }
    } else {
      var t, calls := BoundBroken(r);
      ExactBound(FRESH, r, t, calls);
      assert exists t: int, calls: seq<Call> ::
          From(t, calls) && LossesLegal(t, calls) && After(FRESH, r, calls) != ExactAfter(FRESH, r, calls);
    }
  }

  /** Of runs that never find the key gone, the textbook bound holds exactly at rate 0 and from one
      token per millisecond on. */
  lemma TextbookBoundWhileKept(r: Rate)
    requires r.capacity >= 1 && r.perSecond >= 0
    ensures (forall t: int, calls: seq<Call> | calls != [] && From(t, calls) && NoLosses(calls) ::
               TextbookBound(r, calls))
       <==> (r.perSecond == 0 || r.perSecond >= 1000)
  {
    if r.perSecond == 0 || r.perSecond >= 1000 {
      forall t: int, calls: seq<Call> | calls != [] && From(t, calls) && NoLosses(calls)
        ensures TextbookBound(r, calls)
      {
        if r.perSecond == 0 {
          ZeroRateBound(r, t, calls);
        } else {
          FastIsExact(FRESH, r, t, calls);
          ExactBound(FRESH, r, t, calls);
        }
      }
    } else {
      var t, calls := Overserved(r);
      assert exists t: int, calls: seq<Call> ::
          calls != [] && From(t, calls) && NoLosses(calls) && !TextbookBound(r, calls);
    }
  }

  // ----- how far refusals can be exploited -----

  /** What a bucket last called at `t` can still pay for at `t`, counting repeated refusals. */
  function Worth(key: Option<Bucket>, r: Rate, t: int): int {
    match key
    case None => r.Full()
    case Some(b) =>
      if b.last == t then b.tokens
      else (if b.tokens < 1000 then 1000 else b.tokens) + (t - b.last) * r.perSecond
  }

  lemma WorthStep(m: Meter, r: Rate, t: int, c: Call)
    requires r.perSecond >= 0 && r.capacity >= 0 && t <= c.now && !c.lost
    requires m.key.Some? && Dated(m.key, t) && Filled(m.key, r)
    ensures 1000 * (Step(m, r, c).admitted - m.admitted) + Worth(Step(m, r, c).key, r, c.now)
         <= Worth(m.key, r, t) + (c.now - t) * (r.perSecond + 1000)
  {
    var l := m.key.value.last;
    Products(l, t, c.now, r.perSecond);
    Products(t, c.now, c.now, r.perSecond);
    assert (c.now - t) * (r.perSecond + 1000) == (c.now - t) * r.perSecond + (c.now - t) * 1000;
  }

  /** A key found gone is worth a full bucket. */
  lemma WorthLost(m: Meter, r: Rate, t: int, c: Call)
    requires r.perSecond >= 0 && r.capacity >= 0 && t <= c.now && c.lost && Dated(m.key, t) && Filled(m.key, r)
    ensures 1000 * (Step(m, r, c).admitted - m.admitted) + Worth(Step(m, r, c).key, r, c.now) <= r.Full()
    ensures 0 <= Worth(m.key, r, t) && 0 <= (c.now - t) * (r.perSecond + 1000)
  {
    Products(t, c.now, c.now, r.perSecond + 1000);
    if m.key.Some? {
      Products(m.key.value.last, t, t, r.perSecond);
    }
  }

  lemma {:induction false} WorthRun(m: Meter, r: Rate, t: int, calls: seq<Call>)
    requires r.perSecond >= 0 && r.capacity >= 0 && From(t, calls)
    requires m.key.Some? && Dated(m.key, t) && Filled(m.key, r)
    ensures 1000 * (After(m, r, calls).admitted - m.admitted)
         <= Worth(m.key, r, t) + (if calls == [] then 0 else LastTime(calls) - t) * (r.perSecond + 1000)
            + Losses(calls) * r.Full()
    decreases |calls|
  {
    if calls == [] {
      Products(m.key.value.last, t, t, r.perSecond);
    } else {
      var c := calls[0];
      WorthRun(Step(m, r, c), r, c.now, calls[1..]);
      Products(t, c.now, LastTime(calls), r.perSecond + 1000);
      if c.lost {
        WorthLost(m, r, t, c);
        Products(0, 1, Losses(calls), r.Full());
      } else {
        WorthStep(m, r, t, c);
      }
    }
  }

  /**
   Refused calls buy at most one admission per millisecond, and a key found gone at most a full
   bucket: in any stretch of any run admissions stay within one token over the capacity,
   (rate + 1000) a second, and the capacity for each such loss after the first call.
   */
  lemma OverservingBounded(m: Meter, r: Rate, t: int, calls: seq<Call>)
    requires r.perSecond >= 0 && r.capacity >= 1 && From(t, calls)
    requires calls != [] && Dated(m.key, t) && Filled(m.key, r)
    ensures 1000 * (After(m, r, calls).admitted - m.admitted)
         <= r.Full() + 1000 + (LastTime(calls) - calls[0].now) * (r.perSecond + 1000)
            + Losses(calls[1..]) * r.Full()
  {
    var c, rest := calls[0], calls[1..];
    WorthRun(Step(m, r, c), r, c.now, rest);
    assert rest != [] ==> LastTime(rest) == LastTime(calls);
  }

  // ----- the three-second expiry -----

  const TTL_MS := 3000

  /** A key may be gone once three seconds have passed since the last call, at `t`, set its expiry. */
  ghost predicate LossesLegal(t: int, calls: seq<Call>)
    decreases |calls|
  {
    calls == [] || ((calls[0].lost ==> calls[0].now - t >= TTL_MS) && LossesLegal(calls[0].now, calls[1..]))
  }

  /** And so it is gone at most once in three seconds. */
  lemma {:induction false} LossesRare(t: int, calls: seq<Call>)
    requires From(t, calls) && LossesLegal(t, calls)
    ensures TTL_MS * Losses(calls) <= (if calls == [] then 0 else LastTime(calls) - t)
    decreases |calls|
  {
    if calls != [] {
      LossesRare(calls[0].now, calls[1..]);
    }
  }

  function WithoutLosses(calls: seq<Call>): seq<Call> {
    seq(|calls|, i requires 0 <= i < |calls| => Call(calls[i].now, false))
  }

  /** The expiry changes neither a decision nor the stored bucket. */
  ghost predicate LossesUnseen(r: Rate, calls: seq<Call>) {
    After(FRESH, r, calls) == After(FRESH, r, WithoutLosses(calls))
  }

  /** Three seconds refill a bucket whose capacity is at most three times the rate. */
  lemma RefilledBy(r: Rate, last: int, t: int, now: int)
    requires 1 <= r.capacity <= 3 * r.perSecond && last <= t && t + TTL_MS <= now
    ensures r.Full() <= (now - last) * r.perSecond
  {
    Products(last, now - TTL_MS, now, r.perSecond);
    assert (now - (now - TTL_MS)) * r.perSecond == 3000 * r.perSecond;
  }

  lemma RefilledWhenLost(m: Meter, r: Rate, t: int, c: Call)
    requires 1 <= r.capacity <= 3 * r.perSecond
    requires t <= c.now && Dated(m.key, t) && Filled(m.key, r) && (c.lost ==> c.now - t >= TTL_MS)
    ensures Step(m, r, c) == Step(m, r, Call(c.now, false))
  {
    if c.lost && m.key.Some? {
      RefilledBy(r, m.key.value.last, t, c.now);
      assert Level(m.key, r, c.now) == r.Full();
    }
  }

  lemma {:induction false} ExpiryUnseen(m: Meter, r: Rate, t: int, calls: seq<Call>)
    requires 1 <= r.capacity <= 3 * r.perSecond
    requires From(t, calls) && LossesLegal(t, calls) && Dated(m.key, t) && Filled(m.key, r)
    ensures After(m, r, calls) == After(m, r, WithoutLosses(calls))
    decreases |calls|
  {
    if calls != [] {
      var c := calls[0];
      RefilledWhenLost(m, r, t, c);
      assert WithoutLosses(calls)[1..] == WithoutLosses(calls[1..]);
      ExpiryUnseen(Step(m, r, c), r, c.now, calls[1..]);
    }
  }

  lemma {:induction false} LossesLeaveTimes(t: int, calls: seq<Call>)
    requires From(t, calls)
    ensures From(t, WithoutLosses(calls)) && NoLosses(WithoutLosses(calls))
    ensures calls != [] ==> LastTime(WithoutLosses(calls)) == LastTime(calls)
    decreases |calls|
  {
    if calls != [] {
      LossesLeaveTimes(calls[0].now, calls[1..]);
      assert WithoutLosses(calls)[1..] == WithoutLosses(calls[1..]);
    }
  }

  /** So many admissions are within the capacity and what the rate brings in the time credited. */
  ghost predicate WithinCredit(r: Rate, admitted: int, credited: int) {
    1000 * admitted <= r.Full() + credited * r.perSecond
  }

  /** So many admissions are within one token over the capacity and (rate + 1000) a second. */
  ghost predicate WithinElapsed(r: Rate, admitted: int, elapsed: int) {
    1000 * admitted <= r.Full() + 1000 + elapsed * (r.perSecond + 1000)
  }

  lemma NoneLost(r: Rate, calls: seq<Call>)
    requires NoLosses(calls)
    ensures Losses(calls) * r.Full() == 0
  {
    KeptIsLegal(0, calls);
  }

  lemma KeptCredit(m: Meter, r: Rate, t: int, kept: seq<Call>)
    requires r.perSecond >= 0 && r.capacity >= 1 && From(t, kept) && NoLosses(kept)
    requires kept != [] && Dated(m.key, t) && Filled(m.key, r)
    ensures Filled(After(m, r, kept).key, r)
    ensures WithinCredit(r, After(m, r, kept).admitted - m.admitted, CreditedLater(m, r, kept))
  {
    NoneLost(r, kept[1..]);
    AdmissionBound(m, r, t, kept);
  }

  lemma KeptElapsed(m: Meter, r: Rate, t: int, kept: seq<Call>)
    requires r.perSecond >= 0 && r.capacity >= 1 && From(t, kept) && NoLosses(kept)
    requires kept != [] && Dated(m.key, t) && Filled(m.key, r)
    ensures WithinElapsed(r, After(m, r, kept).admitted - m.admitted, LastTime(kept) - kept[0].now)
  {
    NoneLost(r, kept[1..]);
    OverservingBounded(m, r, t, kept);
  }

  /** With a bucket that three seconds refill, the two bounds hold through every expiry as if the
      key had never been gone. */
  lemma BoundsWithExpiry(m: Meter, r: Rate, t: int, calls: seq<Call>)
    requires 1 <= r.capacity <= 3 * r.perSecond && From(t, calls) && LossesLegal(t, calls)
    requires calls != [] && Dated(m.key, t) && Filled(m.key, r)
    ensures Filled(After(m, r, calls).key, r)
    ensures WithinCredit(r, After(m, r, calls).admitted - m.admitted, CreditedLater(m, r, WithoutLosses(calls)))
    ensures WithinElapsed(r, After(m, r, calls).admitted - m.admitted, LastTime(calls) - calls[0].now)
  {
    ExpiryUnseen(m, r, t, calls);
    LossesLeaveTimes(t, calls);
    KeptCredit(m, r, t, WithoutLosses(calls));
    KeptElapsed(m, r, t, WithoutLosses(calls));
  }

  lemma ExpirySeen(r: Rate) returns (t: int, calls: seq<Call>)
    requires r.capacity >= 1 && 0 <= 3 * r.perSecond < r.capacity
    ensures From(t, calls) && LossesLegal(t, calls)
    ensures !LossesUnseen(r, calls)
  {
    FreshDrained(r);
    var drained := Repeat(r.capacity, 0);
    var last := [Call(TTL_MS, true)];
    t, calls := 0, drained + last;
    RepeatEnds(r.capacity, 0);
    assert last[1..] == [] && From(0, last) && LossesLegal(0, last);
    RepeatFrom(r.capacity, 0, last);
    RepeatLosses(r.capacity, last);
    assert WithoutLosses(calls) == drained + [Call(TTL_MS, false)];
    AfterSplit(FRESH, r, drained, last);
    AfterSplit(FRESH, r, drained, [Call(TTL_MS, false)]);
    var m := After(FRESH, r, drained);
    assert After(m, r, last) == Step(m, r, last[0]);
    assert [Call(TTL_MS, false)][1..] == [];
    assert After(m, r, [Call(TTL_MS, false)]) == Step(m, r, Call(TTL_MS, false));
  }

  lemma {:induction false} RepeatLosses(n: nat, more: seq<Call>)
    requires LossesLegal(0, more)
    ensures LossesLegal(0, Repeat(n, 0) + more)
  {
    var calls := Repeat(n, 0) + more;
    if n > 0 {
      RepeatLosses(n - 1, more);
      assert calls == [Call(0, false)] + (Repeat(n - 1, 0) + more);
      assert calls[1..] == Repeat(n - 1, 0) + more;
    } else {
      assert calls == more;
    }
  }

  /** The expiry makes no difference to any run exactly when three seconds refill the bucket. */
  lemma ExpiryUnobservableExactly(r: Rate)
    requires r.capacity >= 1 && r.perSecond >= 0
    ensures (forall t: int, calls: seq<Call> | From(t, calls) && LossesLegal(t, calls) ::
               LossesUnseen(r, calls))
       <==> r.capacity <= 3 * r.perSecond
  {
    if r.capacity <= 3 * r.perSecond {
      forall t: int, calls: seq<Call> | From(t, calls) && LossesLegal(t, calls)
        ensures LossesUnseen(r, calls)
      {
        ExpiryUnseen(FRESH, r, t, calls);
      }
    } else {
      var t, calls := ExpirySeen(r);
      assert exists t: int, calls: seq<Call> :: From(t, calls) && LossesLegal(t, calls) && !LossesUnseen(r, calls);
    }
  }
}

/** `DistributedRateLimiter` and the Redis hashes its script works on. */
module DistributedLimiting {
  import opened Options
  import opened TokenBuckets

  /** A hash with the time at which Redis may drop it. */
  datatype Entry = Entry(bucket: Bucket, deadline: int)

  /** What can go wrong between the limiter and Redis; `ran`: the script was executed all the same. */
  datatype Fault = Fine | NoPool | NoConnection | NoReply(ran: bool) | ErrorReply

  function What(f: Fault): string {
    match f
    case Fine => ""
    case NoPool => "getPool() returned null"
    case NoConnection => "Failed to acquire Redis connection from pool"
    case NoReply(_) => "Redis command returned null reply"
    case ErrorReply => ""
  }

  lemma ErrorTexts(ran: bool)
    ensures What(NoPool) == "getPool() returned null"
    ensures What(NoConnection) == "Failed to acquire Redis connection from pool"
    ensures What(NoReply(ran)) == "Redis command returned null reply"
  {
  }

  function Stored(entries: map<string, Entry>, key: string): Option<Bucket> {
    if key in entries then Some(entries[key].bucket) else None
  }

  class Redis {
    var entries: map<string, Entry>

    /** Redis drops a key some time after its deadline. */
    method Drop(key: string, now: int)
      requires key in entries ==> entries[key].deadline <= now
      modifies this
      ensures entries == old(entries) - {key}
    {
      entries := entries - {key};
    }

    /** The script, run atomically. */
    method Eval(key: string, capacity: int, rate: int, now: int) returns (reply: int)
      modifies this
      ensures var result := Script(old(Stored(entries, key)), Rate(capacity, rate), now);
              && entries == old(entries)[key := Entry(result.0, now + TTL_MS)]
              && reply == if result.1 then 1 else 0
    {
      var tokens, lastTime;
      if key !in entries {
        tokens, lastTime := 1000 * capacity, now;
      } else {
        tokens, lastTime := entries[key].bucket.tokens, entries[key].bucket.last;
        var elapsed := if now - lastTime > 0 then now - lastTime else 0;
        var refill := elapsed * rate;
        tokens := if 1000 * capacity < tokens + refill then 1000 * capacity else tokens + refill;
      }
      if tokens >= 1000 {
        tokens := tokens - 1000;
        entries := entries[key := Entry(Bucket(tokens, now), now + TTL_MS)];
        return 1;
      } else {
        entries := entries[key := Entry(Bucket(tokens, lastTime), now + TTL_MS)];
        return 0;
      }
    }
  }

  /** The key of a path's bucket. */
  function KeyOf(keyPrefix: string, apiPath: string): (key: string)
    ensures key == keyPrefix + ":" + apiPath
  {
    keyPrefix + ":" + apiPath
  }

  /** Two paths never share a bucket. */
  lemma KeysDiffer(keyPrefix: string, p: string, q: string)
    ensures KeyOf(keyPrefix, p) == KeyOf(keyPrefix, q) <==> p == q
    ensures KeyOf(keyPrefix, p) == keyPrefix + ":" + p
  {
    var n := |keyPrefix| + 1;
    assert KeyOf(keyPrefix, p)[n..] == p && KeyOf(keyPrefix, q)[n..] == q;
  }

  /** Every other path's bucket is what it was. */
  ghost predicate OthersKept(before: map<string, Entry>, after: map<string, Entry>, keyPrefix: string,
                             apiPath: string)
  {
    forall q :: q != apiPath ==> Stored(after, KeyOf(keyPrefix, q)) == Stored(before, KeyOf(keyPrefix, q))
  }

  lemma OneKeyChanged(before: map<string, Entry>, after: map<string, Entry>, keyPrefix: string, apiPath: string)
    requires after - {KeyOf(keyPrefix, apiPath)} == before - {KeyOf(keyPrefix, apiPath)}
    ensures OthersKept(before, after, keyPrefix, apiPath)
  {
    var key := KeyOf(keyPrefix, apiPath);
    forall q | q != apiPath ensures Stored(after, KeyOf(keyPrefix, q)) == Stored(before, KeyOf(keyPrefix, q)) {
      KeysDiffer(keyPrefix, q, apiPath);
      var k := KeyOf(keyPrefix, q);
      assert k in after <==> k in after - {key};
      assert k in before <==> k in before - {key};
      assert k in after ==> after[k] == (after - {key})[k];
      assert k in before ==> before[k] == (before - {key})[k];
    }
  }

  class DistributedRateLimiter {
    const redis: Redis
    const keyPrefix: string
    var lastError: string
    var redisAvailable: bool

    constructor (redis: Redis, keyPrefix: string)
      ensures this.redis == redis && this.keyPrefix == keyPrefix && redisAvailable && lastError == ""
    {
      this.redis, this.keyPrefix := redis, keyPrefix;
      redisAvailable, lastError := true, "";
    }

    function Key(apiPath: string): string {
      KeyOf(keyPrefix, apiPath)
    }

    /** None stands for a thrown exception. */
    method AcquireToken(key: string, rate: int, capacity: int, now: int, fault: Fault)
      returns (allowed: Option<bool>)
      modifies redis
      ensures var result := Script(old(Stored(redis.entries, key)), Rate(capacity, rate), now);
              && (fault.Fine? ==> allowed == Some(result.1))
              && (fault.ErrorReply? ==> allowed == Some(false))
              && (fault.NoPool? || fault.NoConnection? || fault.NoReply? ==> allowed == None)
              && redis.entries == if fault.Fine? || fault == NoReply(true)
                                  then old(redis.entries)[key := Entry(result.0, now + TTL_MS)]
                                  else old(redis.entries)
    {
      if fault.NoPool? || fault.NoConnection? || fault == NoReply(false) { return None; }
      if fault.ErrorReply? { return Some(false); }
      var reply := redis.Eval(key, capacity, rate, now);
      if fault.NoReply? { return None; }
      return Some(reply == 1);
    }

    /**
     A capacity that is not positive stands for the rate.  The script decides on the path's own
     bucket while Redis answers; every exception lets the request through; an error reply refuses
     it.  No other path's bucket changes.
     */
    method IsAllowed(apiPath: string, rate: int, capacity: int, now: int, fault: Fault)
      returns (allowed: bool)
      modifies this, redis
      ensures var r := Rate(if capacity <= 0 then rate else capacity, rate);
              var key := KeyOf(keyPrefix, apiPath);
              var result := Script(old(Stored(redis.entries, key)), r, now);
              && (fault.Fine? ==> allowed == result.1 && redisAvailable && lastError == old(lastError))
              && (fault.ErrorReply? ==> !allowed && redisAvailable && lastError == old(lastError))
              && (!fault.Fine? && !fault.ErrorReply? ==> allowed && !redisAvailable)
              && redis.entries == if fault.Fine? || fault == NoReply(true)
                                  then old(redis.entries)[key := Entry(result.0, now + TTL_MS)]
                                  else old(redis.entries)
      ensures !fault.Fine? && !fault.ErrorReply? ==>
                lastError == "Redis error, fallback to allow: " + What(fault)
      ensures OthersKept(old(redis.entries), redis.entries, keyPrefix, apiPath)
    {
      var cap := capacity;
      if cap <= 0 { cap := rate; }
      var result := AcquireToken(Key(apiPath), rate, cap, now, fault);
      OneKeyChanged(old(redis.entries), redis.entries, keyPrefix, apiPath);
      if result.Some? {
        redisAvailable := true;
        return result.value;
      }
      lastError := "Redis error, fallback to allow: " + What(fault);
      redisAvailable := false;
      return true;
    }
  }
}
