/** Whole runs of the timer facility: the lists stay right across the wrap of the
    tick counter, one-shot timers expire exactly once and exactly on time, and
    periodic timers do not drift. */
module TimerRuns {
  import opened Lists
  import opened Timer
  import opened TimerSteps

  datatype TEvent =
    | Callout(t: Tmr, msec: U32)
    | Stop(t: Tmr)
    | Periodic(t: Tmr, valid: bool, mine: bool, memory: bool, start: U32, period: U32)
    | Clock
    | Thread

  function Exec(s: TState, e: TEvent): TState {
    match e
    case Callout(t, msec) => TimerCallout(s, t, msec)
    case Stop(t) => TimerStop(s, t)
    case Periodic(t, valid, mine, memory, start, period) => TimerPeriodic(s, t, valid, mine, memory, start, period).0
    case Clock => Tick(s).0
    case Thread => RunOne(s)
  }

  /** No periodic timer is armed while it is active. */
  predicate Careful(s: TState, e: TEvent) {
    e.Periodic? && TimerPeriodic(s, e.t, e.valid, e.mine, e.memory, e.start, e.period).1 == Done && e.start != 0
    ==> !(e.t in s.timers && s.timers[e.t].active)
  }

  function After(s: TState, es: seq<TEvent>): TState
    decreases |es|
  {
    if es == [] then s else After(Exec(s, es[0]), es[1..])
  }

  ghost predicate Run(s: TState, es: seq<TEvent>)
    decreases |es|
  {
    es == [] || (Careful(s, es[0]) && Run(Exec(s, es[0]), es[1..]))
  }

  function Ticks(es: seq<TEvent>): nat {
    if es == [] then 0 else (if es[0].Clock? then 1 else 0) + Ticks(es[1..])
  }

  /** No step of the run arms or stops `t`. */
  predicate Undisturbed(es: seq<TEvent>, t: Tmr) {
    es == [] || ((es[0].Callout? || es[0].Stop? || es[0].Periodic? ==> es[0].t != t) && Undisturbed(es[1..], t))
  }

  // ----- The invariant -----

  lemma TickOk(s: TState)
    requires TInv(s)
    ensures var (r, w) := Tick(s);
      var due := Due(s.active, s.timers, Plus(s.lbolt, 1));
      && TInv(r) && r.lbolt == Plus(s.lbolt, 1)
      && w == Kind(due, s.timers, true)
      && r.expired == Reverse(Kind(due, s.timers, false)) + s.expired
      && Handled(s.timers, r.timers, r.lbolt, due)
  {
    hide Shape, Due, Kind, Handled, Plus, Reverse;
    BumpOk(s);
    DrainOk(Bump(s), []);
  }

  lemma StepOk(s: TState, e: TEvent)
    requires TInv(s)
    ensures TInv(Exec(s, e)) <==> Careful(s, e)
    ensures Exec(s, e).lbolt == if e.Clock? then Plus(s.lbolt, 1) else s.lbolt
  {
    hide Shape, TimerCallout, TimerStop, Tick, RunOne, Plus, Due, Kind, Handled, Reverse;
    match e
    case Callout(t, msec) => CalloutOk(s, t, msec);
    case Stop(t) => StopOk(s, t);
    case Periodic(t, valid, mine, memory, start, period) =>
      PeriodicOk(s, t, valid, mine, memory, start, period);
      PeriodicClock(s, t, valid, mine, memory, start, period);
    case Clock => TickOk(s);
    case Thread => RunOneOk(s);
  }

  lemma PeriodicClock(s: TState, t: Tmr, valid: bool, mine: bool, memory: bool, start: U32, period: U32)
    ensures TimerPeriodic(s, t, valid, mine, memory, start, period).0.lbolt == s.lbolt
  {
  }

  /** Over every run the lists stay sorted and exact, and lbolt is the number of
      clock interrupts modulo 2^32. */
  lemma {:induction false} TimersEveryRun(s: TState, es: seq<TEvent>)
    requires TInv(s) && Run(s, es)
    ensures TInv(After(s, es)) && After(s, es).lbolt == (s.lbolt + Ticks(es)) % WORD
    decreases |es|
  {
    hide TInv, Careful, Exec;
    if es != [] {
      StepOk(s, es[0]);
      TimersEveryRun(Exec(s, es[0]), es[1..]);
      WrapOnce(s.lbolt, Ticks(es[1..]));
    }
  }

  lemma WrapOnce(now: U32, n: nat)
    ensures (Plus(now, 1) + n) % WORD == (now + 1 + n) % WORD
  {
  }

  // ----- One timer through one step -----

  /** A clock tick, as one active timer sees it. */
  lemma TickOne(s: TState, t: Tmr)
    requires TInv(s) && t in s.active
    ensures var (r, w) := Tick(s);
      var left, i := Left(s.timers, s.lbolt, t), Interval(s.timers, t);
      && (t in w <==> left == 1 && i != 0)
      && (t in r.expired <==> left == 1 && i == 0)
      && (t in r.active <==> !(left == 1 && i == 0))
      && Interval(r.timers, t) == i
      && (t in r.active ==> Left(r.timers, r.lbolt, t) == if left == 1 then i else (left - 1) as int)
  {
    hide Due, Kind, Plus, Reverse, NoDup, Sorted, Tick, Sub;
    TickOk(s);
    BumpOk(s);
    var (r, w) := Tick(s);
    var due := Due(s.active, s.timers, r.lbolt);
    DueMem(s.active, s.timers, r.lbolt, t);
    KindMem(due, s.timers, true, t);
    KindMem(due, s.timers, false, t);
    ReverseMem(Kind(due, s.timers, false), t);
    LeftZero(s.timers, r.lbolt, t);
    PlusLeft(r.lbolt, Interval(s.timers, t));
  }

  lemma ReverseMem(q: seq<Tmr>, t: Tmr)
    ensures t in Reverse(q) <==> t in q
  {
    if t in q {
      var k: nat :| k < |q| && q[k] == t;
      assert Reverse(q)[|q| - 1 - k] == t;
    }
  }

  lemma LeftZero(m: map<Tmr, TimerRec>, now: U32, t: Tmr)
    ensures Left(m, now, t) == 0 <==> Expire(m, t) == now
  {
  }

  lemma PlusLeft(now: U32, i: U32)
    ensures Sub(Plus(now, i), now) == i
  {
  }

  /** A timer that is not on timer_list is neither expired nor signalled. */
  lemma TickOther(s: TState, t: Tmr)
    requires TInv(s) && t !in s.active
    ensures var (r, w) := Tick(s);
      t !in w && t !in r.active && (t in r.expired <==> t in s.expired)
  {
    hide Due, Kind, Plus, Reverse, NoDup, Sorted, Tick, Left;
    TickOk(s);
    BumpOk(s);
    var (r, w) := Tick(s);
    var due := Due(s.active, s.timers, r.lbolt);
    DueMem(s.active, s.timers, r.lbolt, t);
    KindMem(due, s.timers, true, t);
    KindMem(due, s.timers, false, t);
    ReverseMem(Kind(due, s.timers, false), t);
  }

  /** A step that does not name `t` leaves it as it is, except for the clock and for
      the timer thread. */
  lemma StepOther(s: TState, e: TEvent, t: Tmr)
    requires TInv(s) && Careful(s, e) && !e.Clock? && (e.Callout? || e.Stop? || e.Periodic? ==> e.t != t)
    ensures var r := Exec(s, e);
      && (t in r.active <==> t in s.active)
      && (t in r.active ==> Expire(r.timers, t) == Expire(s.timers, t) && Interval(r.timers, t) == Interval(s.timers, t))
      && (!e.Thread? ==> (t in r.expired <==> t in s.expired))
      && (e.Thread? ==> (t in r.expired <==> t in s.expired && t != s.expired[0]))
  {
    hide NoDup, Sorted, Left, Place, Mstohz, Plus, Remove;
    RemoveFacts(s.active, if e.Thread? then t else e.t);
    RemoveFacts(s.expired, if e.Thread? then t else e.t);
    match e
    case Callout(x, msec) =>
      PlaceMem(Unlink(s, x).active, TimerCallout(s, x, msec).timers, x);
    case Stop(x) =>
    case Periodic(x, valid, mine, memory, start, period) =>
      PlaceMem(s.active, TimerPeriodic(s, x, valid, mine, memory, start, period).0.timers, x);
    case Thread =>
      RunOneOk(s);
      if s.expired != [] {
        assert s.expired == [s.expired[0]] + s.expired[1..];
      }
  }

  // ----- One-shot timers -----

  /** The ticks of the run, counted from `n`, at which `t` moves to expire_list. */
  function Expiries(s: TState, es: seq<TEvent>, t: Tmr, n: nat): seq<nat>
    decreases |es|
  {
    if es == [] then []
    else
      var r := Exec(s, es[0]);
      var k := if es[0].Clock? then n + 1 else n;
      (if es[0].Clock? && t in s.active && t in r.expired then [k] else []) + Expiries(r, es[1..], t, k)
  }

  /** How often the timer thread calls the function of `t`. */
  function Calls(s: TState, es: seq<TEvent>, t: Tmr): nat
    decreases |es|
  {
    if es == [] then 0
    else (if es[0].Thread? && s.expired != [] && s.expired[0] == t then 1 else 0) + Calls(Exec(s, es[0]), es[1..], t)
  }

  /** Once off timer_list, `t` stays off until it is armed again; the function is
      called at most once more, and it is while `t` waits on expire_list. */
  lemma {:induction false} Quiet(s: TState, es: seq<TEvent>, t: Tmr, n: nat)
    requires TInv(s) && Run(s, es) && Undisturbed(es, t) && t !in s.active
    ensures Expiries(s, es, t, n) == [] && t !in After(s, es).active
    ensures Calls(s, es, t) + (if t in After(s, es).expired then 1 else 0) == (if t in s.expired then 1 else 0)
    decreases |es|
  {
    hide TInv, Careful, Exec;
    if es != [] {
      var r := Exec(s, es[0]);
      StepOk(s, es[0]);
      QuietStep(s, es[0], t);
      Quiet(r, es[1..], t, if es[0].Clock? then n + 1 else n);
    }
  }

  lemma QuietStep(s: TState, e: TEvent, t: Tmr)
    requires TInv(s) && Careful(s, e) && (e.Callout? || e.Stop? || e.Periodic? ==> e.t != t) && t !in s.active
    ensures var r := Exec(s, e);
      && t !in r.active
      && (if e.Thread? && s.expired != [] && s.expired[0] == t then 1 else 0) + (if t in r.expired then 1 else 0)
         == (if t in s.expired then 1 else 0)
  {
    hide TInv, Careful, Tick, TimerCallout, TimerPeriodic, TimerStop, RunOne;
    if e.Clock? {
      TickOther(s, t);
    } else {
      StepOther(s, e, t);
    }
  }

  /** A one-shot timer with `left` ticks to go reaches expire_list at exactly that
      tick, and at no other; its function is called once for that, after it. */
  lemma {:induction false} OneShotExact(s: TState, es: seq<TEvent>, t: Tmr, n: nat)
    requires TInv(s) && Run(s, es) && Undisturbed(es, t) && t in s.active && Interval(s.timers, t) == 0
    ensures var left := Left(s.timers, s.lbolt, t);
      && Expiries(s, es, t, n) == (if Ticks(es) >= left then [n + left] else [])
      && (t in After(s, es).active <==> Ticks(es) < left)
      && Calls(s, es, t) + (if t in After(s, es).expired then 1 else 0) == |Expiries(s, es, t, n)|
    decreases |es|
  {
    hide Shape, Careful, Exec, Interval, Left;
    var left := Left(s.timers, s.lbolt, t);
    LeftPositive(s, t);
    if es != [] {
      var e, r := es[0], Exec(s, es[0]);
      var k := if e.Clock? then n + 1 else n;
      StepOk(s, e);
      ActiveStep(s, e, t);
      if e.Clock? && left == 1 {
        Quiet(r, es[1..], t, k);
      } else {
        OneShotExact(r, es[1..], t, k);
      }
    } else {
      OffExpired(s, t);
    }
  }

  lemma OffExpired(s: TState, t: Tmr)
    requires TInv(s) && t in s.active
    ensures t !in s.expired
  {
    hide Left;
  }

  lemma LeftPositive(s: TState, t: Tmr)
    requires TInv(s) && t in s.active
    ensures 1 <= Left(s.timers, s.lbolt, t) < HALF && Interval(s.timers, t) < HALF
  {
    hide Left, NoDup;
    SortedAll(s.active, s.timers, s.lbolt, t);
  }

  /** What one step does to an active timer that it does not name. */
  lemma ActiveStep(s: TState, e: TEvent, t: Tmr)
    requires TInv(s) && Careful(s, e) && (e.Callout? || e.Stop? || e.Periodic? ==> e.t != t) && t in s.active
    ensures var r := Exec(s, e);
      var left, i := Left(s.timers, s.lbolt, t), Interval(s.timers, t);
      && (t in r.active <==> !(e.Clock? && left == 1 && i == 0))
      && (t in r.expired <==> e.Clock? && left == 1 && i == 0)
      && (t in r.active ==> Interval(r.timers, t) == i)
      && (t in r.active ==>
            Left(r.timers, r.lbolt, t) == if !e.Clock? then left as int else if left == 1 then i else (left - 1) as int)
      && (e.Thread? && s.expired != [] ==> s.expired[0] != t)
      && (e.Clock? ==> (t in Tick(s).1 <==> left == 1 && i != 0))
  {
    hide Shape, Careful, Tick, TimerCallout, TimerPeriodic, TimerStop, RunOne, Sub, Expire, Interval;
    OffExpired(s, t);
    StepOk(s, e);
    if e.Clock? {
      TickOne(s, t);
    } else {
      StepOther(s, e, t);
    }
  }

  /** The promise of timer_callout: whatever else happens to other timers, and
      wherever the counter wraps, the timer expires `max(mstohz(msec), 1)` ticks
      after it was armed, once, and its function is called at most once. */
  lemma CalloutOnTime(s: TState, t: Tmr, msec: U32, es: seq<TEvent>)
    requires TInv(s) && Run(TimerCallout(s, t, msec), es) && Undisturbed(es, t)
    ensures var r := TimerCallout(s, t, msec);
      var d := AtLeast1(Mstohz(msec));
      && Expiries(r, es, t, 0) == (if Ticks(es) >= d then [d] else [])
      && Calls(r, es, t) + (if t in After(r, es).expired then 1 else 0) == |Expiries(r, es, t, 0)|
  {
    hide TInv, TimerCallout, Mstohz, AtLeast1, Run, Left;
    CalloutOk(s, t, msec);
    OneShotExact(TimerCallout(s, t, msec), es, t, 0);
  }

  // ----- Periodic timers -----

  /** The ticks of the run, counted from `n`, at which the event of `t` is signalled. */
  function Signals(s: TState, es: seq<TEvent>, t: Tmr, n: nat): seq<nat>
    decreases |es|
  {
    if es == [] then []
    else
      var k := if es[0].Clock? then n + 1 else n;
      (if es[0].Clock? && t in Tick(s).1 then [k] else []) + Signals(Exec(s, es[0]), es[1..], t, k)
  }

  /** The moments n + d, n + d + i, n + d + 2i, ... up to n + total. */
  function Beats(n: nat, d: nat, i: nat, total: nat): seq<nat>
    requires d > 0 && i > 0
    decreases total
  {
    if d > total then [] else [n + d] + Beats(n + d, i, i, total - d)
  }

  lemma {:induction false} BeatAt(n: nat, d: nat, i: nat, total: nat, k: nat)
    requires d > 0 && i > 0
    ensures k < |Beats(n, d, i, total)| <==> d + k * i <= total
    ensures k < |Beats(n, d, i, total)| ==> Beats(n, d, i, total)[k] == n + d + k * i
    decreases k
  {
    if d <= total && k > 0 {
      BeatAt(n + d, i, i, total - d, k - 1);
      assert i + (k - 1) * i == k * i;
    } else if k > 0 {
      assert k * i >= 0;
    }
  }

  lemma BeatLater(n: nat, d: nat, i: nat, total: nat)
    requires d > 1 && i > 0 && total > 0
    ensures Beats(n, d, i, total) == Beats(n + 1, d - 1, i, total - 1)
  {
  }

  /** A periodic timer is signalled at exactly the beats, for ever. */
  lemma {:induction false} PeriodicExact(s: TState, es: seq<TEvent>, t: Tmr, n: nat)
    requires TInv(s) && Run(s, es) && Undisturbed(es, t) && t in s.active && Interval(s.timers, t) > 0
    ensures Left(s.timers, s.lbolt, t) > 0
    ensures Signals(s, es, t, n) == Beats(n, Left(s.timers, s.lbolt, t), Interval(s.timers, t), Ticks(es))
    ensures t in After(s, es).active
    decreases |es|
  {
    hide Shape, Careful, Exec, Interval, Left, Tick;
    LeftPositive(s, t);
    if es != [] {
      var e, r := es[0], Exec(s, es[0]);
      var k := if e.Clock? then n + 1 else n;
      StepOk(s, e);
      ActiveStep(s, e, t);
      PeriodicExact(r, es[1..], t, k);
      var left, i := Left(s.timers, s.lbolt, t), Interval(s.timers, t);
      if e.Clock? && left > 1 {
        BeatLater(n, left, i, Ticks(es));
      }
    }
  }

  /** A tick signals a timer's event at most once. */
  lemma SignalledOnce(s: TState)
    requires TInv(s)
    ensures NoDup(Tick(s).1)
  {
    hide NoDup, Sorted, Tick, Left, Handled, Reverse;
    TickOk(s);
    KindNoDup(s.active, s.timers, Plus(s.lbolt, 1));
  }

  lemma {:induction false} KindNoDup(q: seq<Tmr>, m: map<Tmr, TimerRec>, now: U32)
    requires NoDup(q)
    ensures NoDup(Kind(Due(q, m, now), m, true))
    ensures forall x :: x in Kind(Due(q, m, now), m, true) ==> x in q
  {
    hide Expire, Interval;
    if q != [] && Expire(m, q[0]) == now {
      HeadFresh(q);
      KindNoDup(q[1..], m, now);
      assert Due(q, m, now)[1..] == Due(q[1..], m, now);
      NoDupCons(q[0], Kind(Due(q[1..], m, now), m, true));
    }
  }

  lemma HeadFresh(q: seq<Tmr>)
    requires NoDup(q) && q != []
    ensures NoDup(q[1..]) && q[0] !in q[1..]
  {
  }

  /** The promise of timer_periodic: firing number k (from 0) comes exactly
      max(mstohz(start), 1) + k * max(mstohz(period), 1) ticks after the call. */
  lemma PeriodicOnTime(s: TState, t: Tmr, start: U32, period: U32, es: seq<TEvent>, k: nat)
    requires TInv(s) && start != 0 && period != 0 && !(t in s.timers && s.timers[t].active)
    requires Run(TimerPeriodic(s, t, true, true, true, start, period).0, es) && Undisturbed(es, t)
    ensures var r := TimerPeriodic(s, t, true, true, true, start, period).0;
      var at: int := AtLeast1(Mstohz(start)) + k * AtLeast1(Mstohz(period));
      && (k < |Signals(r, es, t, 0)| <==> at <= Ticks(es))
      && (k < |Signals(r, es, t, 0)| ==> Signals(r, es, t, 0)[k] == at)
  {
    hide TInv, TimerPeriodic, Mstohz, AtLeast1, Run, Left, Beats;
    var r := TimerPeriodic(s, t, true, true, true, start, period).0;
    PeriodicOk(s, t, true, true, true, start, period);
    Positive(Mstohz(period));
    PeriodicExact(r, es, t, 0);
    BeatAt(0, Left(r.timers, r.lbolt, t), Interval(r.timers, t), Ticks(es), k);
  }

  lemma Positive(ticks: U32)
    ensures AtLeast1(ticks) > 0
  {
  }

  const Boot: TState := TState(0, map[], [], [])

  /** The excepted case occurs: a second timer_periodic for a running timer succeeds,
      and links its node a second time. */
  lemma ArmedTwice()
    ensures TInv(Boot)
    ensures var (s, e) := TimerPeriodic(Boot, 1, true, true, true, 10, 10);
      var (r, e') := TimerPeriodic(s, 1, true, true, true, 10, 10);
      e == Done && TInv(s) && e' == Done && r.active == [1, 1] && !TInv(r)
  {
    PeriodicOk(Boot, 1, true, true, true, 10, 10);
    var s := TimerPeriodic(Boot, 1, true, true, true, 10, 10).0;
    PeriodicOk(s, 1, true, true, true, 10, 10);
    assert Mstohz(10) == 10;
    assert s.active == [1] && s.timers[1].expire == 10;
    var r := TimerPeriodic(s, 1, true, true, true, 10, 10).0;
    assert r.timers == s.timers;
    assert Place([1], r.timers, 1) == [1] + Place([], r.timers, 1);
  }
}
