/**
 The timer wheel of include/timer/timer.hpp: slots of ids with lazy cancellation, and beside it
 the plain map from id to expiry that it must agree with.  Callbacks are assumed not to call
 the wheel, and clock readings are parameters, free to run backwards.
 */
module TimerWheels {

  /** Which closure a timer runs. */
  type Callback = nat

  datatype Entry = Entry(expiration: int, cb: Callback)

  /** One run of a timer's closure. */
  datatype Call = Call(id: nat, cb: Callback)

  datatype Wheel = Wheel(tickMs: int, current: nat, slots: seq<seq<nat>>,
                         timers: map<nat, Entry>, nextId: nat)

  function Concat(slots: seq<seq<nat>>): seq<nat> {
    if slots == [] then [] else Concat(slots[..|slots| - 1]) + slots[|slots| - 1]
  }

  /** All slot entries, with how often each id occurs. */
  function Bag(slots: seq<seq<nat>>): multiset<nat> {
    if slots == [] then multiset{} else Bag(slots[..|slots| - 1]) + multiset(slots[|slots| - 1])
  }

  ghost predicate Sized(w: Wheel) {
    0 < w.tickMs && w.current < |w.slots|
  }

  /** Every live id is in exactly one slot, once; no id is in two places. */
  ghost predicate Valid(w: Wheel) {
    && Sized(w)
    && (forall id :: Bag(w.slots)[id] <= 1)
    && (forall id :: id in w.timers ==> id in Bag(w.slots))
    && (forall id :: id in Bag(w.slots) ==> id < w.nextId)
  }

  /** Slot entries of cancelled timers, not yet dropped. */
  ghost function Stale(w: Wheel): iset<nat> {
    iset id | id in Bag(w.slots) && id !in w.timers
  }

  // ----- the operations -----

  function SlotFor(w: Wheel, expires: int, now: int): (idx: nat)
    requires Sized(w)
    ensures idx < |w.slots|
  {
    var delay := if expires < now then 0 else expires - now;
    (w.current + delay / w.tickMs) % |w.slots|
  }

  /** `add_timer` reads the clock, and `schedule` reads it again. */
  function Added(w: Wheel, now: int, later: int, delay: int, cb: Callback): Wheel
    requires Sized(w)
  {
    var idx := SlotFor(w, now + delay, later);
    w.(timers := w.timers[w.nextId := Entry(now + delay, cb)],
       slots := w.slots[idx := w.slots[idx] + [w.nextId]],
       nextId := w.nextId + 1)
  }

  function Cancelled(w: Wheel, id: nat): Wheel {
    w.(timers := w.timers - {id})
  }

  /** The timers that have not expired at `now`. */
  function Later(timers: map<nat, Entry>, now: int): map<nat, Entry> {
    map id | id in timers && timers[id].expiration > now :: timers[id]
  }

  function Kept(ids: seq<nat>, live: map<nat, Entry>): seq<nat> {
    if ids == [] then []
    else
      var last := ids[|ids| - 1];
      Kept(ids[..|ids| - 1], live) + if last in live then [last] else []
  }

  function Ticked(w: Wheel, now: int): Wheel
    requires Sized(w)
  {
    var live := Later(w.timers, now);
    w.(timers := live,
       slots := seq(|w.slots|, k requires 0 <= k < |w.slots| => Kept(w.slots[k], live)),
       current := (w.current + 1) % |w.slots|)
  }

  /** The slots in the order `tick` visits them. */
  function Rotated(w: Wheel): (r: seq<seq<nat>>)
    requires Sized(w)
    ensures |r| == |w.slots|
  {
    w.slots[w.current..] + w.slots[..w.current]
  }

  /** The calls made for the ids of a list that are due. */
  function Calls(ids: seq<nat>, timers: map<nat, Entry>, now: int): seq<Call> {
    if ids == [] then []
    else
      var last := ids[|ids| - 1];
      Calls(ids[..|ids| - 1], timers, now)
      + if last in timers && timers[last].expiration <= now then [Call(last, timers[last].cb)] else []
  }

  function CallsOfTick(w: Wheel, now: int): seq<Call>
    requires Sized(w)
  {
    Calls(Concat(Rotated(w)), w.timers, now)
  }

  // ----- facts about slots -----

  lemma {:induction false} BagAppend(a: seq<seq<nat>>, b: seq<seq<nat>>)
    ensures Bag(a + b) == Bag(a) + Bag(b)
    decreases |b|
  {
    if b == [] {
      assert a + b == a;
    } else {
      BagAppend(a, b[..|b| - 1]);
      assert (a + b)[..|a + b| - 1] == a + b[..|b| - 1];
    }
  }

  lemma BagJoined(front: seq<seq<nat>>, slot: seq<nat>, back: seq<seq<nat>>)
    ensures Bag((front + [slot]) + back) == Bag(front) + multiset(slot) + Bag(back)
  {
    BagAppend(front + [slot], back);
  }

  lemma Reassembled(slots: seq<seq<nat>>, k: nat)
    requires k < |slots|
    ensures (slots[..k] + [slots[k]]) + slots[k + 1..] == slots
  {
  }

  lemma BagSplit(slots: seq<seq<nat>>, k: nat)
    requires k < |slots|
    ensures Bag(slots) == Bag(slots[..k]) + multiset(slots[k]) + Bag(slots[k + 1..])
  {
    Reassembled(slots, k);
    BagJoined(slots[..k], slots[k], slots[k + 1..]);
  }

  lemma {:induction false} ConcatBag(slots: seq<seq<nat>>)
    ensures multiset(Concat(slots)) == Bag(slots)
  {
    if slots != [] {
      ConcatBag(slots[..|slots| - 1]);
    }
  }

  lemma VisitOrderBag(w: Wheel)
    requires Sized(w)
    ensures multiset(Concat(Rotated(w))) == Bag(w.slots)
  {
    BagAppend(w.slots[w.current..], w.slots[..w.current]);
    BagAppend(w.slots[..w.current], w.slots[w.current..]);
    assert w.slots == w.slots[..w.current] + w.slots[w.current..];
    ConcatBag(Rotated(w));
  }

  /** Going through `slot` after `met`, no id comes a second time. */
  ghost predicate AllNew(met: seq<nat>, slot: seq<nat>)
    decreases |slot|
  {
    slot == [] || (slot[0] !in met && AllNew(met + [slot[0]], slot[1..]))
  }

  lemma {:induction false} CountedNew(met: seq<nat>, slot: seq<nat>)
    requires forall id :: multiset(met + slot)[id] <= 1
    ensures AllNew(met, slot)
    decreases |slot|
  {
    if slot != [] {
      assert met + slot == met + [slot[0]] + slot[1..];
      assert multiset(met + slot)[slot[0]] <= 1;
      CountedNew(met + [slot[0]], slot[1..]);
    }
  }

  /** An id met while sweeping was not met before in the same sweep. */
  lemma MetOnce(w: Wheel, i: nat)
    requires Valid(w) && i < |w.slots|
    ensures AllNew(Concat(Rotated(w)[..i]), Rotated(w)[i])
  {
    var r := Rotated(w);
    VisitOrderBag(w);
    ConcatBag(r);
    BagSplit(r, i);
    ConcatBag(r[..i]);
    forall id ensures multiset(Concat(r[..i]) + r[i])[id] <= 1 {
      assert Bag(w.slots)[id] <= 1;
    }
    CountedNew(Concat(r[..i]), r[i]);
  }

  lemma {:induction false} KeptCount(ids: seq<nat>, live: map<nat, Entry>, id: nat)
    ensures multiset(Kept(ids, live))[id] == if id in live then multiset(ids)[id] else 0
  {
    if ids != [] {
      KeptCount(ids[..|ids| - 1], live, id);
      assert ids == ids[..|ids| - 1] + [ids[|ids| - 1]];
    }
  }

  lemma {:induction false} BagKept(slots: seq<seq<nat>>, kept: seq<seq<nat>>, live: map<nat, Entry>, id: nat)
    requires |kept| == |slots| && forall k :: 0 <= k < |slots| ==> kept[k] == Kept(slots[k], live)
    ensures Bag(kept)[id] == if id in live then Bag(slots)[id] else 0
  {
    if slots != [] {
      var n := |slots| - 1;
      BagKept(slots[..n], kept[..n], live, id);
      KeptCount(slots[n], live, id);
    }
  }

  lemma {:induction false} CallsExact(ids: seq<nat>, timers: map<nat, Entry>, now: int, c: Call)
    ensures multiset(Calls(ids, timers, now))[c]
         == if c.id in timers && timers[c.id] == Entry(timers[c.id].expiration, c.cb)
               && timers[c.id].expiration <= now then multiset(ids)[c.id] else 0
  {
    if ids != [] {
      CallsExact(ids[..|ids| - 1], timers, now, c);
      assert ids == ids[..|ids| - 1] + [ids[|ids| - 1]];
    }
  }

  // ----- every operation keeps the index -----

  function Initial(tickMs: int, wheelSize: nat): Wheel {
    Wheel(tickMs, 0, seq(wheelSize, _ => []), map[], 1)
  }

  lemma {:induction false} EmptySlots(slots: seq<seq<nat>>)
    requires forall k :: 0 <= k < |slots| ==> slots[k] == []
    ensures Bag(slots) == multiset{}
  {
    if slots != [] {
      EmptySlots(slots[..|slots| - 1]);
    }
  }

  lemma InitialValid(tickMs: int, wheelSize: nat)
    requires tickMs > 0 && wheelSize > 0
    ensures Valid(Initial(tickMs, wheelSize)) && Stale(Initial(tickMs, wheelSize)) == iset{}
  {
    EmptySlots(Initial(tickMs, wheelSize).slots);
  }

  lemma PushBag(slots: seq<seq<nat>>, idx: nat, id: nat)
    requires idx < |slots|
    ensures Bag(slots[idx := slots[idx] + [id]]) == Bag(slots) + multiset{id}
  {
    var slots' := slots[idx := slots[idx] + [id]];
    BagSplit(slots, idx);
    BagSplit(slots', idx);
    assert slots'[..idx] == slots[..idx] && slots'[idx + 1..] == slots[idx + 1..];
  }

  /** A new timer gets one slot entry under an id never used before. */
  lemma AddedValid(w: Wheel, now: int, later: int, delay: int, cb: Callback)
    requires Valid(w)
    ensures Valid(Added(w, now, later, delay, cb))
    ensures Stale(Added(w, now, later, delay, cb)) == Stale(w)
  {
    var idx := SlotFor(w, now + delay, later);
    PushBag(w.slots, idx, w.nextId);
    assert Bag(Added(w, now, later, delay, cb).slots) == Bag(w.slots) + multiset{w.nextId};
  }

  lemma CancelledValid(w: Wheel, id: nat)
    requires Valid(w)
    ensures Valid(Cancelled(w, id))
    ensures Stale(Cancelled(w, id)) == Stale(w) + if id in w.timers then iset{id} else iset{}
  {
  }

  /** After a tick the slots together hold exactly the live ids, each once. */
  lemma TickedValid(w: Wheel, now: int)
    requires Valid(w)
    ensures Valid(Ticked(w, now)) && Stale(Ticked(w, now)) == iset{}
    ensures forall id :: Bag(Ticked(w, now).slots)[id] == if id in Ticked(w, now).timers then 1 else 0
  {
    var w' := Ticked(w, now);
    forall id ensures Bag(w'.slots)[id] == if id in w'.timers then Bag(w.slots)[id] else 0 {
      BagKept(w.slots, w'.slots, w'.timers, id);
    }
  }

  /** A tick calls exactly the timers that are due, each once, whatever slots they are in. */
  lemma TickFiresDue(w: Wheel, now: int, c: Call)
    requires Valid(w)
    ensures multiset(CallsOfTick(w, now))[c]
         == if c.id in w.timers && w.timers[c.id].cb == c.cb && w.timers[c.id].expiration <= now then 1 else 0
  {
    VisitOrderBag(w);
    CallsExact(Concat(Rotated(w)), w.timers, now, c);
  }

  // ----- runs -----

  datatype Event =
    | Add(now: int, later: int, delay: int, cb: Callback)
    | Cancel(id: nat)
    | Tick(now: int)

  /** A wheel and all the calls made so far. */
  datatype System = System(wheel: Wheel, calls: seq<Call>)

  function Next(s: System, e: Event): System
    requires Sized(s.wheel)
  {
    match e
    case Add(now, later, delay, cb) => s.(wheel := Added(s.wheel, now, later, delay, cb))
    case Cancel(id) => s.(wheel := Cancelled(s.wheel, id))
    case Tick(now) => System(Ticked(s.wheel, now), s.calls + CallsOfTick(s.wheel, now))
  }

  function Run(s: System, events: seq<Event>): (r: System)
    requires Sized(s.wheel)
    ensures Sized(r.wheel)
    decreases |events|
  {
    if events == [] then s
    else Next(Run(s, events[..|events| - 1]), events[|events| - 1])
  }

  /** The reference: a map from id to expiry and closure, with no wheel. */
  datatype Plain = Plain(timers: map<nat, Entry>, nextId: nat, calls: multiset<Call>)

  function Due(timers: map<nat, Entry>, now: int): set<Call> {
    set id | id in timers && timers[id].expiration <= now :: Call(id, timers[id].cb)
  }

  function PlainNext(m: Plain, e: Event): Plain {
    match e
    case Add(now, later, delay, cb) =>
      m.(timers := m.timers[m.nextId := Entry(now + delay, cb)], nextId := m.nextId + 1)
    case Cancel(id) => m.(timers := m.timers - {id})
    case Tick(now) =>
      m.(timers := Later(m.timers, now), calls := m.calls + multiset(Due(m.timers, now)))
  }

  function PlainRun(m: Plain, events: seq<Event>): Plain
    decreases |events|
  {
    if events == [] then m
    else PlainNext(PlainRun(m, events[..|events| - 1]), events[|events| - 1])
  }

  lemma TickCallsDue(w: Wheel, now: int)
    requires Valid(w)
    ensures multiset(CallsOfTick(w, now)) == multiset(Due(w.timers, now))
  {
    var calls, due := multiset(CallsOfTick(w, now)), multiset(Due(w.timers, now));
    forall c: Call ensures calls[c] == due[c] {
      TickFiresDue(w, now, c);
    }
  }

  ghost function Abs(s: System): Plain {
    Plain(s.wheel.timers, s.wheel.nextId, multiset(s.calls))
  }

  lemma TickRefines(s: System, now: int)
    requires Valid(s.wheel)
    ensures Abs(Next(s, Tick(now))) == PlainNext(Abs(s), Tick(now))
  {
    TickCallsDue(s.wheel, now);
    var w := s.wheel;
    assert multiset(s.calls + CallsOfTick(w, now)) == multiset(s.calls) + multiset(Due(w.timers, now));
  }

  lemma NextRefines(s: System, e: Event)
    requires Valid(s.wheel)
    ensures Valid(Next(s, e).wheel)
    ensures Abs(Next(s, e)) == PlainNext(Abs(s), e)
  {
    match e
    case Add(now, later, delay, cb) => AddedValid(s.wheel, now, later, delay, cb);
    case Cancel(id) => CancelledValid(s.wheel, id);
    case Tick(now) =>
      TickedValid(s.wheel, now);
      TickRefines(s, now);
  }

  /** Over every run the wheel makes the calls the plain map makes, tick by tick. */
  lemma {:induction false} WheelRefinesMap(s: System, events: seq<Event>)
    requires Valid(s.wheel)
    ensures Valid(Run(s, events).wheel)
    ensures Abs(Run(s, events)) == PlainRun(Abs(s), events)
    decreases |events|
  {
    if events != [] {
      WheelRefinesMap(s, events[..|events| - 1]);
      NextRefines(Run(s, events[..|events| - 1]), events[|events| - 1]);
    }
  }

  /** No timer is called twice in a run, and a timer that was called is no longer live. */
  ghost predicate CalledOnce(m: Plain) {
    && (forall c: Call :: m.calls[c] <= 1)
    && (forall c: Call, d: Call :: c in m.calls && d in m.calls && c.id == d.id ==> c == d)
    && (forall c: Call :: c in m.calls ==> c.id !in m.timers && c.id < m.nextId)
    && (forall id :: id in m.timers ==> id < m.nextId)
  }

  lemma {:induction false} NeverTwice(m: Plain, events: seq<Event>)
    requires CalledOnce(m)
    ensures CalledOnce(PlainRun(m, events))
    decreases |events|
  {
    if events != [] {
      var before := PlainRun(m, events[..|events| - 1]);
      NeverTwice(m, events[..|events| - 1]);
      var e := events[|events| - 1];
      if e.Tick? {
        var due := Due(before.timers, e.now);
        assert forall c :: c in due ==> c.id in before.timers;
      }
    }
  }

  /** A cancelled id makes no call after the cancellation, in any continuation of the run. */
  lemma {:induction false} NotAfterCancel(m: Plain, id: nat, events: seq<Event>, cb: Callback)
    requires id < m.nextId && id !in m.timers
    ensures id !in PlainRun(m, events).timers && id < PlainRun(m, events).nextId
    ensures PlainRun(m, events).calls[Call(id, cb)] == m.calls[Call(id, cb)]
    decreases |events|
  {
    if events != [] {
      NotAfterCancel(m, id, events[..|events| - 1], cb);
      var before := PlainRun(m, events[..|events| - 1]);
      var e := events[|events| - 1];
      if e.Tick? {
        assert Call(id, cb) !in Due(before.timers, e.now);
      }
    }
  }

  /** The ids that were live when they were cancelled, after the last tick of the run. */
  ghost function CancelledSinceTick(s: System, events: seq<Event>): iset<nat>
    requires Sized(s.wheel)
    decreases |events|
  {
    if events == [] then iset{}
    else
      var before, e := events[..|events| - 1], events[|events| - 1];
      match e
      case Add(_, _, _, _) => CancelledSinceTick(s, before)
      case Cancel(id) =>
        CancelledSinceTick(s, before) + if id in Run(s, before).wheel.timers then iset{id} else iset{}
      case Tick(_) => iset{}
  }

  /** In every reachable state the slot entries are the live ids and those cancelled since the last tick. */
  lemma {:induction false} SlotsAccountedFor(tickMs: int, wheelSize: nat, events: seq<Event>)
    requires tickMs > 0 && wheelSize > 0
    ensures var s := System(Initial(tickMs, wheelSize), []);
            && Valid(Run(s, events).wheel)
            && Stale(Run(s, events).wheel) == CancelledSinceTick(s, events)
    decreases |events|
  {
    InitialValid(tickMs, wheelSize);
    if events != [] {
      var s := System(Initial(tickMs, wheelSize), []);
      SlotsAccountedFor(tickMs, wheelSize, events[..|events| - 1]);
      var before := Run(s, events[..|events| - 1]);
      match events[|events| - 1]
      case Add(now, later, delay, cb) => AddedValid(before.wheel, now, later, delay, cb);
      case Cancel(id) => CancelledValid(before.wheel, id);
      case Tick(now) => TickedValid(before.wheel, now);
    }
  }

  /** From a new wheel on: the calls of any run are those of the plain map, none made twice. */
  lemma WheelRuns(tickMs: int, wheelSize: nat, events: seq<Event>)
    requires tickMs > 0 && wheelSize > 0
    ensures var r := Run(System(Initial(tickMs, wheelSize), []), events);
            && Abs(r) == PlainRun(Plain(map[], 1, multiset{}), events)
            && CalledOnce(Abs(r))
  {
    InitialValid(tickMs, wheelSize);
    WheelRefinesMap(System(Initial(tickMs, wheelSize), []), events);
    NeverTwice(Plain(map[], 1, multiset{}), events);
  }

  // ----- every timer, by the steps of the run -----

  function Adds(run: seq<Event>): nat
    decreases |run|
  {
    if run == [] then 0 else Adds(run[..|run| - 1]) + if run[|run| - 1].Add? then 1 else 0
  }

  /** The id of the timer that step `i` adds: they are numbered from 1. */
  function IdOf(run: seq<Event>, i: nat): nat
    requires i < |run|
  {
    1 + Adds(run[..i])
  }

  /** Step `j` is a tick at which the timer added by step `i` has expired. */
  predicate DueAt(run: seq<Event>, i: nat, j: nat) {
    i < j < |run| && run[i].Add? && run[j].Tick? && run[i].now + run[i].delay <= run[j].now
  }

  ghost predicate EverDue(run: seq<Event>, i: nat) {
    exists j: nat :: DueAt(run, i, j)
  }

  /** It expires at a tick before which nobody has cancelled it. */
  ghost predicate FiresAt(run: seq<Event>, i: nat, j: nat) {
    DueAt(run, i, j) && Cancel(IdOf(run, i)) !in run[i..j]
  }

  ghost predicate Fires(run: seq<Event>, i: nat) {
    exists j: nat :: FiresAt(run, i, j)
  }

  ghost predicate StillWaits(run: seq<Event>, i: nat)
    requires i < |run|
  {
    !EverDue(run, i) && Cancel(IdOf(run, i)) !in run[i..]
  }

  const NO_TIMERS := Plain(map[], 1, multiset{})

  lemma {:induction false} IdsCount(run: seq<Event>)
    ensures PlainRun(NO_TIMERS, run).nextId == 1 + Adds(run)
    decreases |run|
  {
    if run != [] {
      IdsCount(run[..|run| - 1]);
    }
  }

  /** What one more step changes about an earlier timer's history. */
  lemma HistorySnoc(before: seq<Event>, e: Event, i: nat)
    requires i < |before|
    ensures var run := before + [e];
            && run[i] == before[i] && IdOf(run, i) == IdOf(before, i)
            && run[i..] == before[i..] + [e]
            && (EverDue(run, i) <==> EverDue(before, i) || DueAt(run, i, |before|))
            && (Fires(run, i) <==> Fires(before, i) || FiresAt(run, i, |before|))
  {
    var run := before + [e];
    assert run[..i] == before[..i];
    forall j: nat | j < |before| ensures (DueAt(run, i, j) <==> DueAt(before, i, j))
                                      && (FiresAt(run, i, j) <==> FiresAt(before, i, j))
    {
      if i < j {
        assert run[i..j] == before[i..j];
      }
    }
    if EverDue(run, i) {
      var j: nat :| DueAt(run, i, j);
      assert j == |before| || DueAt(before, i, j);
    }
    if Fires(run, i) {
      var j: nat :| FiresAt(run, i, j);
      assert j == |before| || FiresAt(before, i, j);
    }
    if EverDue(before, i) {
      var j: nat :| DueAt(before, i, j);
      assert DueAt(run, i, j);
    }
    if Fires(before, i) {
      var j: nat :| FiresAt(before, i, j);
      assert FiresAt(run, i, j);
    }
  }

  /** A timer that has expired uncancelled is called at the latest then. */
  lemma DueFires(run: seq<Event>, i: nat)
    requires i < |run| && EverDue(run, i) && Cancel(IdOf(run, i)) !in run[i..]
    ensures Fires(run, i)
  {
    var j: nat :| DueAt(run, i, j);
    assert run[i..j] <= run[i..];
    assert forall x :: x in run[i..j] ==> x in run[i..];
    assert FiresAt(run, i, j);
  }

  ghost predicate HistoryOk(run: seq<Event>, i: nat, m: Plain)
    requires i < |run| && run[i].Add?
  {
    var id := IdOf(run, i);
    && (id in m.timers <==> StillWaits(run, i))
    && (id in m.timers ==> m.timers[id] == Entry(run[i].now + run[i].delay, run[i].cb))
    && forall cb :: m.calls[Call(id, cb)] == if cb == run[i].cb && Fires(run, i) then 1 else 0
  }

  /** The next id is not in use, and never was. */
  lemma NextIdFresh(before: seq<Event>, cb: Callback)
    ensures var m := PlainRun(NO_TIMERS, before);
            m.nextId == 1 + Adds(before) && m.calls[Call(m.nextId, cb)] == 0
  {
    IdsCount(before);
    NeverTwice(NO_TIMERS, before);
    var m := PlainRun(NO_TIMERS, before);
    assert Call(m.nextId, cb) in m.calls ==> Call(m.nextId, cb).id < m.nextId;
  }

  lemma JustAdded(run: seq<Event>, i: nat)
    requires run != [] && i == |run| - 1 && run[i].Add?
    ensures HistoryOk(run, i, PlainRun(NO_TIMERS, run))
  {
    var m, m' := PlainRun(NO_TIMERS, run[..i]), PlainRun(NO_TIMERS, run);
    assert m' == PlainNext(m, run[i]);
    NextIdFresh(run[..i], run[i].cb);
    var id := IdOf(run, i);
    assert m.nextId == id && m'.calls == m.calls;
    assert m'.timers == m.timers[id := Entry(run[i].now + run[i].delay, run[i].cb)];
    forall cb ensures m'.calls[Call(id, cb)] == 0 {
      NextIdFresh(run[..i], cb);
    }
  }

  lemma HistoryTick(before: seq<Event>, t: int, i: nat)
    requires i < |before| && before[i].Add? && HistoryOk(before, i, PlainRun(NO_TIMERS, before))
    ensures HistoryOk(before + [Tick(t)], i, PlainNext(PlainRun(NO_TIMERS, before), Tick(t)))
  {
    var run, m, id := before + [Tick(t)], PlainRun(NO_TIMERS, before), IdOf(before, i);
    var m' := PlainNext(m, Tick(t));
    NeverTwice(NO_TIMERS, before);
    HistorySnoc(before, Tick(t), i);
    assert run[i..|before|] == before[i..];
    var due := Due(m.timers, t);
    forall cb ensures m'.calls[Call(id, cb)] == if cb == run[i].cb && Fires(run, i) then 1 else 0 {
      assert Call(id, cb) in due <==> id in m.timers && m.timers[id].expiration <= t && m.timers[id].cb == cb;
      if id in m.timers {
        assert Call(id, cb) !in m.calls;
      } else if FiresAt(run, i, |before|) {
        DueFires(before, i);
      }
    }
  }

  lemma {:induction false} HistoryAfter(run: seq<Event>, i: nat)
    requires i < |run| && run[i].Add?
    ensures HistoryOk(run, i, PlainRun(NO_TIMERS, run))
    decreases |run|
  {
    if i == |run| - 1 {
      JustAdded(run, i);
    } else {
      var before, e := run[..|run| - 1], run[|run| - 1];
      assert run == before + [e];
      HistoryAfter(before, i);
      HistorySnoc(before, e, i);
      IdsCount(before);
      if e.Tick? {
        HistoryTick(before, e.now, i);
      } else {
        assert IdOf(before, i) < 1 + Adds(before) by { AddsGrow(before, i); }
      }
    }
  }

  lemma {:induction false} AddsGrow(run: seq<Event>, i: nat)
    requires i < |run| && run[i].Add?
    ensures Adds(run[..i]) < Adds(run)
    decreases |run|
  {
    var before := run[..|run| - 1];
    if i < |run| - 1 {
      AddsGrow(before, i);
      assert before[..i] == run[..i];
    }
  }

  /**
   Every timer of every run, from a new wheel on, whatever slots it was in: its closure, and no
   other under its id, has been called exactly once if some tick found it expired before anybody
   cancelled it, and else never; it is live exactly as long as neither has happened.
   */
  lemma TimersFireExactly(tickMs: int, wheelSize: nat, run: seq<Event>, i: nat, cb: Callback)
    requires tickMs > 0 && wheelSize > 0 && i < |run| && run[i].Add?
    ensures var s, id := Run(System(Initial(tickMs, wheelSize), []), run), IdOf(run, i);
            && multiset(s.calls)[Call(id, cb)] == (if cb == run[i].cb && Fires(run, i) then 1 else 0)
            && (id in s.wheel.timers <==> StillWaits(run, i))
  {
    WheelRuns(tickMs, wheelSize, run);
    HistoryAfter(run, i);
  }

  // ----- where a timer waits, and the order of a tick's calls -----

  function Ticks(run: seq<Event>): nat
    decreases |run|
  {
    if run == [] then 0 else Ticks(run[..|run| - 1]) + if run[|run| - 1].Tick? then 1 else 0
  }

  /** The slot for a timer: as many slots on from the one that is current as whole ticks are left,
      round the wheel as often as it takes. */
  function PlaceFor(ticks: nat, e: Event, tickMs: int, wheelSize: nat): int
    requires e.Add? && tickMs > 0 && wheelSize > 0
  {
    var left := e.now + e.delay - e.later;
    (ticks + (if left < 0 then 0 else left) / tickMs) % wheelSize
  }

  function PlaceOf(run: seq<Event>, i: nat, tickMs: int, wheelSize: nat): int
    requires i < |run| && run[i].Add? && tickMs > 0 && wheelSize > 0
  {
    PlaceFor(Ticks(run[..i]), run[i], tickMs, wheelSize)
  }

  lemma ModAdd(a: nat, b: nat, n: nat)
    requires n > 0
    ensures (a % n + b) % n == (a + b) % n
  {
    var q, r := a / n, (a % n + b) % n;
    assert a % n + b == n * ((a % n + b) / n) + r;
    assert a + b == n * (q + (a % n + b) / n) + r;
    DivisionUnique(a + b, n, q + (a % n + b) / n, r);
  }

  lemma DivisionUnique(a: int, n: int, q: int, r: int)
    requires 0 <= r < n && a == n * q + r
    ensures a % n == r
  {
    var d := a / n - q;
    assert n * d == r - a % n;
  }

  lemma {:induction false} RunShape(tickMs: int, wheelSize: nat, run: seq<Event>)
    requires tickMs > 0 && wheelSize > 0
    ensures var w := Run(System(Initial(tickMs, wheelSize), []), run).wheel;
            && w.tickMs == tickMs && |w.slots| == wheelSize && w.nextId == 1 + Adds(run)
            && w.current == Ticks(run) % wheelSize
    decreases |run|
  {
    if run != [] {
      RunShape(tickMs, wheelSize, run[..|run| - 1]);
      ModAdd(Ticks(run[..|run| - 1]), 1, wheelSize);
    }
  }

  lemma {:induction false} KeptIn(ids: seq<nat>, live: map<nat, Entry>, id: nat)
    ensures id in Kept(ids, live) ==> id in ids
  {
    if ids != [] {
      KeptIn(ids[..|ids| - 1], live, id);
      assert ids == ids[..|ids| - 1] + [ids[|ids| - 1]];
    }
  }

  lemma InBag(slots: seq<seq<nat>>, k: nat, id: nat)
    requires k < |slots| && id in slots[k]
    ensures id in Bag(slots)
  {
    BagSplit(slots, k);
    assert id in multiset(slots[k]);
  }

  /** The id of a new timer is in the slot chosen for it and nowhere else. */
  lemma AddedSlot(w: Wheel, now: int, later: int, delay: int, cb: Callback, k: nat)
    requires Valid(w) && k < |w.slots|
    ensures w.nextId in Added(w, now, later, delay, cb).slots[k] <==> k == SlotFor(w, now + delay, later)
  {
    if w.nextId in w.slots[k] {
      InBag(w.slots, k, w.nextId);
    }
  }

  /** An id that was given before is put into no further slot. */
  lemma NextSlot(s: System, e: Event, k: nat, id: nat)
    requires Sized(s.wheel) && k < |s.wheel.slots| && id < s.wheel.nextId
    ensures id in Next(s, e).wheel.slots[k] ==> id in s.wheel.slots[k]
  {
    if e.Tick? {
      KeptIn(s.wheel.slots[k], Later(s.wheel.timers, e.now), id);
    }
  }

  /** The system after a run from a new wheel. */
  function After(tickMs: int, wheelSize: nat, run: seq<Event>): System
    requires tickMs > 0 && wheelSize > 0
  {
    Run(System(Initial(tickMs, wheelSize), []), run)
  }

  lemma AfterSnoc(tickMs: int, wheelSize: nat, before: seq<Event>, e: Event)
    requires tickMs > 0 && wheelSize > 0
    ensures Valid(After(tickMs, wheelSize, before).wheel)
    ensures After(tickMs, wheelSize, before + [e]) == Next(After(tickMs, wheelSize, before), e)
  {
    SlotsAccountedFor(tickMs, wheelSize, before);
    assert (before + [e])[..|before|] == before;
  }

  ghost predicate OnlyIn(w: Wheel, id: nat, k: nat, place: int) {
    k < |w.slots| && (id in w.slots[k] ==> k == place)
  }

  lemma {:induction false} PlaceKept(tickMs: int, wheelSize: nat, run: seq<Event>, i: nat, k: nat, id: nat, place: int)
    requires tickMs > 0 && wheelSize > 0 && i < |run| && run[i].Add? && k < wheelSize
    requires id == 1 + Adds(run[..i]) && place == PlaceFor(Ticks(run[..i]), run[i], tickMs, wheelSize)
    ensures OnlyIn(After(tickMs, wheelSize, run).wheel, id, k, place)
    decreases |run|
  {
    var before, e := run[..|run| - 1], run[|run| - 1];
    var s := After(tickMs, wheelSize, before);
    assert run == before + [e];
    RunShape(tickMs, wheelSize, before);
    AfterSnoc(tickMs, wheelSize, before, e);
    if i == |run| - 1 {
      FreshPlace(s.wheel, Ticks(before), e, k);
    } else {
      assert before[..i] == run[..i];
      PlaceKept(tickMs, wheelSize, before, i, k, id, place);
      AddsGrow(before, i);
      NextSlot(s, e, k, id);
    }
  }

  /** In every run, while a timer's id is in a slot at all, it is in the slot `schedule` put it into. */
  lemma TimerPlace(tickMs: int, wheelSize: nat, run: seq<Event>, i: nat, k: nat)
    requires tickMs > 0 && wheelSize > 0 && i < |run| && run[i].Add? && k < wheelSize
    ensures var w := After(tickMs, wheelSize, run).wheel;
            k < |w.slots| && (IdOf(run, i) in w.slots[k] ==> k == PlaceOf(run, i, tickMs, wheelSize))
  {
    PlaceKept(tickMs, wheelSize, run, i, k, IdOf(run, i), PlaceOf(run, i, tickMs, wheelSize));
  }

  lemma FreshPlace(w: Wheel, ticks: nat, e: Event, k: nat)
    requires Valid(w) && w.current == ticks % |w.slots| && e.Add? && k < |w.slots|
    ensures w.nextId in Added(w, e.now, e.later, e.delay, e.cb).slots[k] ==>
              k == PlaceFor(ticks, e, w.tickMs, |w.slots|)
  {
    var left := e.now + e.delay - e.later;
    AddedSlot(w, e.now, e.later, e.delay, e.cb, k);
    ModAdd(ticks, (if left < 0 then 0 else left) / w.tickMs, |w.slots|);
  }

  ghost predicate Increasing(ids: seq<nat>) {
    forall x, y :: 0 <= x < y < |ids| ==> ids[x] < ids[y]
  }

  lemma IncreasingSnoc(ids: seq<nat>, last: nat)
    requires Increasing(ids) && forall id :: id in ids ==> id < last
    ensures Increasing(ids + [last])
  {
    assert forall x :: 0 <= x < |ids| ==> ids[x] in ids;
  }

  lemma {:induction false} KeptIncreasing(ids: seq<nat>, live: map<nat, Entry>)
    requires Increasing(ids)
    ensures Increasing(Kept(ids, live))
  {
    if ids != [] {
      var init, last := ids[..|ids| - 1], ids[|ids| - 1];
      assert forall x :: 0 <= x < |init| ==> init[x] < last;
      KeptIncreasing(init, live);
      forall id | id in Kept(init, live) ensures id < last {
        KeptIn(init, live, id);
      }
      IncreasingSnoc(Kept(init, live), last);
    }
  }

  lemma NextIncreasing(s: System, e: Event, k: nat)
    requires Valid(s.wheel) && k < |s.wheel.slots| && Increasing(s.wheel.slots[k])
    ensures Increasing(Next(s, e).wheel.slots[k])
  {
    var w := s.wheel;
    if e.Tick? {
      KeptIncreasing(w.slots[k], Later(w.timers, e.now));
    } else if e.Add? {
      forall id | id in w.slots[k] ensures id < w.nextId {
        InBag(w.slots, k, id);
      }
      IncreasingSnoc(w.slots[k], w.nextId);
    }
  }

  /** Within a slot ids stand in the order in which their timers were added. */
  lemma {:induction false} SlotsIncreasing(tickMs: int, wheelSize: nat, run: seq<Event>, k: nat)
    requires tickMs > 0 && wheelSize > 0 && k < wheelSize
    ensures |After(tickMs, wheelSize, run).wheel.slots| == wheelSize
    ensures Increasing(After(tickMs, wheelSize, run).wheel.slots[k])
    decreases |run|
  {
    RunShape(tickMs, wheelSize, run);
    if run != [] {
      var before, e := run[..|run| - 1], run[|run| - 1];
      assert run == before + [e];
      SlotsIncreasing(tickMs, wheelSize, before, k);
      AfterSnoc(tickMs, wheelSize, before, e);
      NextIncreasing(After(tickMs, wheelSize, before), e, k);
    }
  }

  /** What stands at place `p` of the concatenation is entry `x` of list `a`. */
  ghost predicate StandsAt(lists: seq<seq<nat>>, p: nat, a: nat, x: nat) {
    p < |Concat(lists)| && a < |lists| && x < |lists[a]| && lists[a][x] == Concat(lists)[p]
  }

  lemma {:induction false} ConcatOrder(lists: seq<seq<nat>>, p: nat, q: nat) returns (a: nat, x: nat, b: nat, y: nat)
    requires p < q < |Concat(lists)|
    ensures StandsAt(lists, p, a, x) && StandsAt(lists, q, b, y)
    ensures a < b || (a == b && x < y)
    decreases |lists|
  {
    var n := |lists| - 1;
    var front := Concat(lists[..n]);
    if q < |front| {
      a, x, b, y := ConcatOrder(lists[..n], p, q);
    } else if p < |front| {
      a, x := ConcatPlace(lists[..n], p);
      b, y := n, q - |front|;
    } else {
      a, x, b, y := n, p - |front|, n, q - |front|;
    }
  }

  lemma {:induction false} ConcatPlace(lists: seq<seq<nat>>, p: nat) returns (a: nat, x: nat)
    requires p < |Concat(lists)|
    ensures StandsAt(lists, p, a, x)
    decreases |lists|
  {
    var n := |lists| - 1;
    var front := Concat(lists[..n]);
    if p < |front| {
      a, x := ConcatPlace(lists[..n], p);
    } else {
      a, x := n, p - |front|;
    }
  }

  lemma {:induction false} CallPlace(ids: seq<nat>, timers: map<nat, Entry>, now: int, p: nat) returns (u: nat)
    requires p < |Calls(ids, timers, now)|
    ensures u < |ids| && ids[u] == Calls(ids, timers, now)[p].id
    decreases |ids|
  {
    var n := |ids| - 1;
    if p < |Calls(ids[..n], timers, now)| {
      u := CallPlace(ids[..n], timers, now, p);
    } else {
      u := n;
    }
  }

  /** Calls are made in the order in which the ids are met. */
  lemma {:induction false} CallOrder(ids: seq<nat>, timers: map<nat, Entry>, now: int, p: nat, q: nat)
    returns (u: nat, v: nat)
    requires p < q < |Calls(ids, timers, now)|
    ensures u < v < |ids|
    ensures ids[u] == Calls(ids, timers, now)[p].id && ids[v] == Calls(ids, timers, now)[q].id
    decreases |ids|
  {
    var n := |ids| - 1;
    if q < |Calls(ids[..n], timers, now)| {
      u, v := CallOrder(ids[..n], timers, now, p, q);
    } else {
      u := CallPlace(ids[..n], timers, now, p);
      v := n;
    }
  }

  /**
   Of two calls of a tick the earlier one is of a timer in an earlier slot, counted round the wheel
   from the current one, or of an earlier entry of the same slot.
   */
  lemma TickOrder(w: Wheel, now: int, p: nat, q: nat) returns (a: nat, x: nat, b: nat, y: nat)
    requires Sized(w) && p < q < |CallsOfTick(w, now)|
    ensures a <= b < |w.slots| && (a < b || x < y)
    ensures var k := (w.current + a) % |w.slots|; x < |w.slots[k]| && w.slots[k][x] == CallsOfTick(w, now)[p].id
    ensures var k := (w.current + b) % |w.slots|; y < |w.slots[k]| && w.slots[k][y] == CallsOfTick(w, now)[q].id
  {
    var r := Rotated(w);
    var u, v := CallOrder(Concat(r), w.timers, now, p, q);
    a, x, b, y := ConcatOrder(r, u, v);
    Wrap(w.current + a, |w.slots|);
    Wrap(w.current + b, |w.slots|);
  }

  // ----- the class -----

  /** The timers left of `timers` when the due ones among `met` are gone. */
  function Remaining(timers: map<nat, Entry>, met: seq<nat>, now: int): map<nat, Entry> {
    map id | id in timers && !(id in met && timers[id].expiration <= now) :: timers[id]
  }

  lemma Wrap(a: nat, n: nat)
    requires a < 2 * n
    ensures a % n == if a < n then a else a - n
  {
    if n <= a {
      assert a == n * 1 + (a - n);
    }
  }

  /** What one more id, met for the first time, adds to a sweep. */
  lemma SweepOne(all: map<nat, Entry>, met: seq<nat>, done: seq<nat>, id: nat, now: int)
    requires id !in met + done
    ensures var timers := Remaining(all, met + done, now);
            && (id in timers <==> id in all)
            && (id in timers ==> timers[id] == all[id])
            && Remaining(all, met + (done + [id]), now)
               == (if id in timers && timers[id].expiration <= now then timers - {id} else timers)
            && Calls(done + [id], all, now)
               == Calls(done, all, now)
                  + (if id in timers && timers[id].expiration <= now then [Call(id, timers[id].cb)] else [])
            && Kept(done + [id], Later(all, now))
               == Kept(done, Later(all, now)) + if id in Later(all, now) then [id] else []
  {
    assert (done + [id])[..|done|] == done;
    assert met + (done + [id]) == met + done + [id];
  }

  /** The next id is new, and so are those behind it. */
  lemma NewNext(met: seq<nat>, done: seq<nat>, id: nat, rest: seq<nat>)
    requires AllNew(met + done, [id] + rest)
    ensures id !in met + done && AllNew(met + (done + [id]), rest)
  {
    assert ([id] + rest)[1..] == rest;
    assert met + done + [id] == met + (done + [id]);
  }

  /** Erasing, or stepping over, the entry that stands at the iterator. */
  lemma Erase(slot: seq<nat>, kept: seq<nat>, id: nat, rest: seq<nat>, it: nat)
    requires slot == kept + ([id] + rest) && it == |kept|
    ensures it < |slot| && slot[it] == id
    ensures slot[..it] + slot[it + 1..] == kept + rest
    ensures slot == (kept + [id]) + rest
  {
  }

  lemma {:induction false} CallsAppend(a: seq<nat>, b: seq<nat>, timers: map<nat, Entry>, now: int)
    ensures Calls(a + b, timers, now) == Calls(a, timers, now) + Calls(b, timers, now)
    decreases |b|
  {
    if b == [] {
      assert a + b == a;
    } else {
      CallsAppend(a, b[..|b| - 1], timers, now);
      assert (a + b)[..|a + b| - 1] == a + b[..|b| - 1];
    }
  }

  /** The slots when the first `i` in visiting order have been swept. */
  ghost function Swept(w: Wheel, i: nat, now: int): seq<seq<nat>>
    requires Sized(w)
  {
    var n := |w.slots|;
    seq(n, k requires 0 <= k < n =>
      if (if k >= w.current then k - w.current else k - w.current + n) < i
      then Kept(w.slots[k], Later(w.timers, now)) else w.slots[k])
  }

  lemma SweptNext(w: Wheel, i: nat, idx: nat, now: int)
    requires Sized(w) && i < |w.slots|
    requires idx == (w.current + i) % |w.slots|
    ensures idx < |w.slots| && Rotated(w)[i] == w.slots[idx] == Swept(w, i, now)[idx]
    ensures Swept(w, i + 1, now) == Swept(w, i, now)[idx := Kept(w.slots[idx], Later(w.timers, now))]
    ensures Concat(Rotated(w)[..i + 1]) == Concat(Rotated(w)[..i]) + w.slots[idx]
  {
    Wrap(w.current + i, |w.slots|);
    assert Rotated(w)[..i + 1][..i] == Rotated(w)[..i];
  }

  /** What the sweep of the next slot finds and adds. */
  lemma SweepNext(w: Wheel, i: nat, idx: nat, now: int, met: seq<nat>)
    requires Valid(w) && i < |w.slots| && idx == (w.current + i) % |w.slots|
    requires met == Concat(Rotated(w)[..i])
    ensures idx < |w.slots| && Swept(w, i, now)[idx] == w.slots[idx] && AllNew(met, w.slots[idx])
    ensures Swept(w, i + 1, now) == Swept(w, i, now)[idx := Kept(w.slots[idx], Later(w.timers, now))]
    ensures Concat(Rotated(w)[..i + 1]) == met + w.slots[idx]
    ensures Calls(met + w.slots[idx], w.timers, now) == Calls(met, w.timers, now) + Calls(w.slots[idx], w.timers, now)
  {
    SweptNext(w, i, idx, now);
    MetOnce(w, i);
    CallsAppend(met, w.slots[idx], w.timers, now);
  }

  lemma AllMet(w: Wheel, now: int)
    requires Valid(w)
    ensures Rotated(w)[..|w.slots|] == Rotated(w)
    ensures Remaining(w.timers, Concat(Rotated(w)), now) == Later(w.timers, now)
    ensures Swept(w, |w.slots|, now) == Ticked(w, now).slots
  {
    VisitOrderBag(w);
    assert forall id :: id in w.timers ==> id in multiset(Concat(Rotated(w)));
  }

  class TimerWheel {
    const tickMs: int
    const wheelSize: nat
    var currentIndex: nat
    var wheel: seq<seq<nat>>
    var timers: map<nat, Entry>
    var nextId: nat

    ghost function State(): Wheel
      reads this
    {
      Wheel(tickMs, currentIndex, wheel, timers, nextId)
    }

    ghost predicate Inv()
      reads this
    {
      |wheel| == wheelSize && Valid(State())
    }

    constructor (tickMs: int, wheelSize: nat)
      requires tickMs > 0 && wheelSize > 0
      ensures Inv() && State() == Initial(tickMs, wheelSize)
    {
      this.tickMs, this.wheelSize, currentIndex := tickMs, wheelSize, 0;
      wheel, timers, nextId := seq(wheelSize, _ => []), map[], 1;
      InitialValid(tickMs, wheelSize);
    }

    method AddTimer(now: int, later: int, delay: int, cb: Callback) returns (id: nat)
      requires Inv()
      modifies this
      ensures Inv() && id == old(nextId)
      ensures State() == Added(old(State()), now, later, delay, cb)
    {
      ghost var w := State();
      var expires := now + delay;
      id := nextId;
      nextId := nextId + 1;
      timers := timers[id := Entry(expires, cb)];
      var left := expires - later;
      if left < 0 { left := 0; }
      var idx := (currentIndex + left / tickMs) % wheelSize;
      wheel := wheel[idx := wheel[idx] + [id]];
      assert State() == Added(w, now, later, delay, cb);
      AddedValid(w, now, later, delay, cb);
    }

    method CancelTimer(id: nat)
      requires Inv()
      modifies this
      ensures Inv() && State() == Cancelled(old(State()), id)
    {
      if id in timers {
        timers := timers - {id};
      }
    }

    /**
     One slot of a tick; `slot` plays the C++ reference to the slot.  `met` are the ids of the
     slots swept before, `all` the timers at the start of the tick.
     */
    method SweepSlot(idx: nat, now: int, ghost met: seq<nat>, ghost all: map<nat, Entry>)
      returns (calls: seq<Call>)
      requires idx < |wheel| && timers == Remaining(all, met, now)
      requires AllNew(met, wheel[idx])
      modifies `wheel, `timers
      ensures wheel == old(wheel)[idx := Kept(old(wheel)[idx], Later(all, now))]
      ensures timers == Remaining(all, met + old(wheel)[idx], now)
      ensures calls == Calls(old(wheel)[idx], all, now)
    {
      var slot := wheel[idx];
      ghost var live := Later(all, now);
      ghost var kept, done, rest := [], [], slot;
      var it := 0;
      calls := [];
      assert met + [] == met;
      while it < |slot|
        invariant wheel == old(wheel)
        invariant wheel[idx] == done + rest && kept == Kept(done, live)
        invariant slot == kept + rest && it == |kept|
        invariant AllNew(met + done, rest)
        invariant calls == Calls(done, all, now)
        invariant timers == Remaining(all, met + done, now)
        decreases |rest|
      {
        var id := slot[it];
        ghost var tail := rest[1..];
        assert rest == [id] + tail;
        assert done + rest == done + [id] + tail;
        NewNext(met, done, id, tail);
        SweepOne(all, met, done, id, now);
        Erase(slot, kept, id, tail, it);
        done, rest := done + [id], tail;
        if id !in timers {
          slot := slot[..it] + slot[it + 1..];
        } else if timers[id].expiration <= now {
          calls := calls + [Call(id, timers[id].cb)];
          timers := timers - {id};
          slot := slot[..it] + slot[it + 1..];
        } else {
          kept := kept + [id];
          it := it + 1;
        }
      }
      assert rest == [] && done == wheel[idx] && slot == kept;
      wheel := wheel[idx := slot];
    }

    /** The loop of a tick: every slot, from the current one on. */
    method SweepAll(now: int) returns (calls: seq<Call>)
      requires Inv()
      modifies `wheel, `timers
      ensures wheel == Ticked(old(State()), now).slots
      ensures timers == Ticked(old(State()), now).timers
      ensures calls == CallsOfTick(old(State()), now)
    {
      ghost var w := State();
      ghost var met := [];
      calls := [];
      for i := 0 to wheelSize
        invariant met == Concat(Rotated(w)[..i])
        invariant calls == Calls(met, w.timers, now)
        invariant timers == Remaining(w.timers, met, now)
        invariant wheel == Swept(w, i, now)
      {
        var idx := (currentIndex + i) % wheelSize;
        SweepNext(w, i, idx, now, met);
        var more := SweepSlot(idx, now, met, w.timers);
        calls := calls + more;
        met := met + w.slots[idx];
      }
      AllMet(w, now);
    }

    /** `calls` are the callbacks run, in order. */
    method Tick(now: int) returns (calls: seq<Call>)
      requires Inv()
      modifies this
      ensures Inv() && State() == Ticked(old(State()), now)
      ensures calls == CallsOfTick(old(State()), now)
    {
      ghost var w := State();
      TickedValid(w, now);
      calls := SweepAll(now);
      currentIndex := (currentIndex + 1) % wheelSize;
      assert State() == Ticked(w, now);
    }
  }
}
