/** Each timer operation keeps the lists sorted and consistent, and the clock
    interrupt expires exactly the timers that are due. */
module TimerSteps {
  import opened Lists
  import opened Timer

  /** The invariant for every timer but `t`, which is on no list. */
  ghost predicate ShapeBut(s: TState, low: int, t: Tmr) {
    && OnOne(s) && t !in s.active && t !in s.expired && Sorted(s.active, s.timers, s.lbolt)
    && (forall x :: x != t ==> (x in s.active || x in s.expired <==> x in s.timers && s.timers[x].active))
    && (forall x :: x in s.active ==> low <= Left(s.timers, s.lbolt, x))
    && (forall x :: x in s.timers ==> s.timers[x].interval < HALF)
  }

  // ----- Arming and stopping -----

  lemma AddLists(s: TState, low: int, t: Tmr, m: map<Tmr, TimerRec>)
    requires ShapeBut(s, low, t)
    ensures OnOne(s.(active := Place(s.active, m, t)))
    ensures forall x :: x in Place(s.active, m, t) <==> x in s.active || x == t
  {
    hide NoDup, Sorted, Left, Place;
    PlaceMem(s.active, m, t);
  }

  lemma AddSorted(s: TState, low: int, t: Tmr, x: TimerRec)
    requires ShapeBut(s, low, t) && Sub(x.expire, s.lbolt) < HALF
    ensures Sorted(Place(s.active, s.timers[t := x], t), s.timers[t := x], s.lbolt)
  {
    hide NoDup, Sorted, Place, Sub;
    SortedSame(s.active, s.timers, s.timers[t := x], s.lbolt);
    PlaceSorted(s.active, s.timers[t := x], s.lbolt, t);
  }

  lemma TicksLeft(now: U32, ticks: U32)
    requires ticks < HALF
    ensures Sub(Plus(now, AtLeast1(ticks)), now) == AtLeast1(ticks) && 1 <= AtLeast1(ticks) < HALF
  {
  }

  lemma AddOk(s: TState, low: int, t: Tmr, ticks: U32, interval: U32)
    requires ShapeBut(s, low, t) && low <= 1 && ticks < HALF && interval < HALF
    ensures Shape(TimerAdd(s, t, ticks, interval), low)
  {
    hide NoDup, Sorted, Sub, Plus, AtLeast1, Place;
    var x := TimerRec(true, Plus(s.lbolt, AtLeast1(ticks)), interval);
    TicksLeft(s.lbolt, ticks);
    AddLists(s, low, t, s.timers[t := x]);
    AddSorted(s, low, t, x);
  }

  /** Unlinking from whichever list holds the timer. */
  lemma UnlinkOk(s: TState, t: Tmr)
    requires TInv(s)
    ensures ShapeBut(Unlink(s, t), 1, t)
  {
    hide NoDup, Sorted, Remove, Left;
    RemoveFacts(s.active, t);
    RemoveFacts(s.expired, t);
    SortedRemove(s.active, s.timers, s.lbolt, t);
  }

  /** mstohz never gives a delay outside the signed range. */
  lemma MstohzNear(ms: U32)
    ensures Mstohz(ms) < HALF
    ensures Mstohz(ms) == ms * HZ / 1000 <==> ms * HZ < WORD
  {
    if ms * HZ >= WORD {
      assert ms * HZ % WORD < WORD <= ms * HZ;
      assert ms * HZ % WORD / 1000 <= 4294967 <= ms * HZ / 1000;
      assert ms * HZ == ms * 1000;
      assert ms * HZ / 1000 == ms;
      assert ms > 4294967;
    }
  }

  lemma StopOk(s: TState, t: Tmr)
    requires TInv(s)
    ensures var r := TimerStop(s, t);
      && TInv(r) && t !in r.active && t !in r.expired && r.lbolt == s.lbolt
      && (forall x :: x != t ==> (x in r.active <==> x in s.active) && (x in r.expired <==> x in s.expired))
  {
    hide NoDup, Sorted, Remove, Sub;
    UnlinkOk(s, t);
    RemoveFacts(s.active, t);
    RemoveFacts(s.expired, t);
    var r := TimerStop(s, t);
    if t in s.timers && s.timers[t].active {
      SortedSame(r.active, s.timers, r.timers, s.lbolt);
    }
  }

  lemma CalloutOk(s: TState, t: Tmr, msec: U32)
    requires TInv(s)
    ensures var r := TimerCallout(s, t, msec);
      && TInv(r) && r.lbolt == s.lbolt && t in r.active && t in r.timers && r.timers[t].interval == 0
      && Left(r.timers, r.lbolt, t) == AtLeast1(Mstohz(msec))
      && (forall x :: x != t ==> (x in r.active <==> x in s.active) && (x in r.expired <==> x in s.expired))
  {
    hide NoDup, Sorted, Remove, Sub, Plus, Mstohz, AtLeast1, Place;
    UnlinkOk(s, t);
    RemoveFacts(s.active, t);
    RemoveFacts(s.expired, t);
    MstohzNear(msec);
    TicksLeft(s.lbolt, Mstohz(msec));
    var m := s.timers[t := TimerRec(true, Plus(s.lbolt, AtLeast1(Mstohz(msec))), 0)];
    AddOk(Unlink(s, t), 1, t, Mstohz(msec), 0);
    PlaceMem(Unlink(s, t).active, m, t);
  }

  /** timer_periodic keeps the lists exact if and only if it does not arm a timer
      that is already active, which would link the node a second time. */
  lemma PeriodicOk(s: TState, t: Tmr, valid: bool, mine: bool, memory: bool, start: U32, period: U32)
    requires TInv(s)
    ensures var (r, e) := TimerPeriodic(s, t, valid, mine, memory, start, period);
      && (TInv(r) <==> !(e == Done && start != 0 && t in s.timers && s.timers[t].active))
      && (e == Done <==>
            && valid && mine && (start != 0 ==> period != 0)
            && (if start == 0 then t in s.timers && s.timers[t].active else t in s.timers || memory))
      && (e != Done ==> r == s)
      && (e == Done && start != 0 && !(t in s.timers && s.timers[t].active) ==>
            && r.lbolt == s.lbolt && t in r.active && t in r.timers
            && r.timers[t].interval == AtLeast1(Mstohz(period))
            && Left(r.timers, r.lbolt, t) == AtLeast1(Mstohz(start)))
  {
    hide NoDup, Sorted, Sub, Plus, Mstohz, AtLeast1, Place, TimerStop;
    var (r, e) := TimerPeriodic(s, t, valid, mine, memory, start, period);
    if e == Done && start == 0 {
      StopOk(s, t);
    } else if e == Done {
      MstohzNear(start);
      MstohzNear(period);
      TicksLeft(s.lbolt, Mstohz(start));
      TicksLeft(s.lbolt, Mstohz(period));
      var m := s.timers[t := TimerRec(true, Plus(s.lbolt, AtLeast1(Mstohz(start))), AtLeast1(Mstohz(period)))];
      PlaceMem(s.active, m, t);
      if t in s.timers && s.timers[t].active {
        if t in s.active {
          PlaceTwice(s.active, m, t);
        }
      } else {
        NotLinked(s, t);
        AddOk(s, 1, t, Mstohz(start), AtLeast1(Mstohz(period)));
      }
    }
  }

  lemma NotLinked(s: TState, t: Tmr)
    requires TInv(s) && !(t in s.timers && s.timers[t].active)
    ensures ShapeBut(s, 1, t)
  {
    hide NoDup, Sorted, Left;
  }

  lemma {:induction false} PlaceTwice(q: seq<Tmr>, m: map<Tmr, TimerRec>, t: Tmr)
    requires t in q
    ensures !NoDup(Place(q, m, t))
  {
    hide Before, Expire;
    PlaceMem(q, m, t);
    var p := Place(q, m, t);
    if Before(Expire(m, t), Expire(m, q[0])) {
      var k: nat :| k < |q| && q[k] == t;
      assert p[0] == t && p[k + 1] == t;
    } else if q[0] == t {
      PlaceMem(q[1..], m, t);
      var k: nat :| k < |Place(q[1..], m, t)| && Place(q[1..], m, t)[k] == t;
      assert p[0] == t && p[k + 1] == t;
    } else {
      PlaceTwice(q[1..], m, t);
      if NoDup(p) {
        assert p[1..] == Place(q[1..], m, t);
        TailNoDup(p);
      }
    }
  }

  lemma TailNoDup(p: seq<Tmr>)
    requires p != [] && NoDup(p)
    ensures NoDup(p[1..])
  {
  }

  // ----- The clock interrupt -----

  /** The leading timers of the list that expire now. */
  function Due(q: seq<Tmr>, m: map<Tmr, TimerRec>, now: U32): seq<Tmr> {
    if q == [] || Expire(m, q[0]) != now then [] else [q[0]] + Due(q[1..], m, now)
  }

  /** Of a list, the one-shot timers or the periodic ones, in order. */
  function Kind(q: seq<Tmr>, m: map<Tmr, TimerRec>, periodic: bool): seq<Tmr> {
    if q == [] then []
    else (if (Interval(m, q[0]) != 0) == periodic then [q[0]] else []) + Kind(q[1..], m, periodic)
  }

  lemma {:induction false} DueMem(q: seq<Tmr>, m: map<Tmr, TimerRec>, now: U32, t: Tmr)
    requires Sorted(q, m, now)
    ensures t in Due(q, m, now) <==> t in q && Expire(m, t) == now
  {
    hide Expire;
    if q != [] {
      if Expire(m, q[0]) == now {
        DueMem(q[1..], m, now, t);
      } else if t in q {
        SortedAll(q, m, now, t);
      }
    }
  }

  lemma {:induction false} KindMem(q: seq<Tmr>, m: map<Tmr, TimerRec>, periodic: bool, t: Tmr)
    ensures t in Kind(q, m, periodic) <==> t in q && (Interval(m, t) != 0) == periodic
  {
    hide Interval;
    if q != [] {
      KindMem(q[1..], m, periodic, t);
    }
  }

  lemma {:induction false} DueSame(q: seq<Tmr>, m: map<Tmr, TimerRec>, m': map<Tmr, TimerRec>, now: U32, periodic: bool)
    requires forall x :: x in q ==> Expire(m', x) == Expire(m, x) && Interval(m', x) == Interval(m, x)
    ensures Due(q, m', now) == Due(q, m, now)
    ensures Kind(Due(q, m', now), m', periodic) == Kind(Due(q, m, now), m, periodic)
  {
    hide Expire, Interval;
    if q != [] && Expire(m, q[0]) == now {
      DueSame(q[1..], m, m', now, periodic);
      assert Due(q, m, now)[1..] == Due(q[1..], m, now);
      assert Due(q, m', now)[1..] == Due(q[1..], m', now);
    }
  }

  /** A timer that is not due goes behind all that are. */
  lemma {:induction false} DuePlace(q: seq<Tmr>, m: map<Tmr, TimerRec>, now: U32, t: Tmr)
    requires Sorted(q, m, now) && Left(m, now, t) < HALF && Expire(m, t) != now
    ensures Due(Place(q, m, t), m, now) == Due(q, m, now)
  {
    hide Before, Expire;
    if q != [] {
      BeforeLeft(now, Expire(m, t), Expire(m, q[0]));
      if Before(Expire(m, t), Expire(m, q[0])) {
        assert ([t] + q)[0] == t;
      } else {
        DuePlace(q[1..], m, now, t);
        assert ([q[0]] + Place(q[1..], m, t))[1..] == Place(q[1..], m, t);
      }
    }
  }

  /** The counter moves on: every timer is one tick nearer. */
  lemma BumpOk(s: TState)
    requires TInv(s)
    ensures Shape(Bump(s), 0)
    ensures forall t :: t in s.active ==> Left(s.timers, Bump(s).lbolt, t) == Left(s.timers, s.lbolt, t) - 1
  {
    hide NoDup, Sorted, Sub, Plus, Expire;
    forall t | t in s.active ensures Left(s.timers, Bump(s).lbolt, t) == Left(s.timers, s.lbolt, t) - 1 {
      Nearer(Expire(s.timers, t), s.lbolt);
    }
    BumpSorted(s.active, s.timers, s.lbolt);
  }

  lemma Nearer(e: U32, now: U32)
    requires Sub(e, now) >= 1
    ensures Sub(e, Plus(now, 1)) == Sub(e, now) - 1
  {
  }

  lemma {:induction false} BumpSorted(q: seq<Tmr>, m: map<Tmr, TimerRec>, now: U32)
    requires Sorted(q, m, now) && forall t :: t in q ==> 1 <= Left(m, now, t)
    ensures Sorted(q, m, Plus(now, 1))
  {
    hide Sub, Plus, Expire;
    if q != [] {
      forall t | t in q ensures Left(m, Plus(now, 1), t) == Left(m, now, t) - 1 {
        Nearer(Expire(m, t), now);
      }
      BumpSorted(q[1..], m, now);
    }
  }

  /** Within the invariant the loop's test is the exact one: due is due now. */
  lemma TestIsExact(s: TState)
    requires Shape(s, 0) && s.active != []
    ensures !Before(s.lbolt, Expire(s.timers, s.active[0])) <==> Expire(s.timers, s.active[0]) == s.lbolt
  {
    hide NoDup, Expire;
  }

  lemma TailOk(s: TState)
    requires Shape(s, 0) && s.active != []
    ensures ShapeBut(s.(active := s.active[1..]), 0, s.active[0])
    ensures s.active[0] in s.timers && s.timers[s.active[0]].active && s.active[0] !in s.expired
  {
    hide Left;
    assert s.active == [s.active[0]] + s.active[1..];
  }

  lemma RearmExact(now: U32, i: U32)
    requires 0 < i < HALF
    ensures Remain(now, Plus(now, i)) == i
  {
  }

  /** A due periodic timer is armed again one interval after its own expiry. */
  lemma RearmedOk(s: TState)
    requires Shape(s, 0) && s.active != [] && Expire(s.timers, s.active[0]) == s.lbolt
    requires Interval(s.timers, s.active[0]) != 0
    ensures var t, r := s.active[0], Rearmed(s);
      && Shape(r, 0) && r.lbolt == s.lbolt && r.expired == s.expired && t in s.timers
      && r.timers == s.timers[t := s.timers[t].(expire := Plus(s.lbolt, s.timers[t].interval))]
      && Due(r.active, r.timers, r.lbolt) == Due(s.active[1..], s.timers, s.lbolt)
      && Left(r.timers, r.lbolt, t) == s.timers[t].interval
      && (forall periodic :: Kind(Due(r.active, r.timers, r.lbolt), r.timers, periodic)
                             == Kind(Due(s.active[1..], s.timers, s.lbolt), s.timers, periodic))
  {
    hide NoDup, Sorted, Sub, Plus, Remain, Place, Due, Kind;
    var t := s.active[0];
    var i := Interval(s.timers, t);
    TailOk(s);
    RearmExact(s.lbolt, i);
    TicksLeft(s.lbolt, i);
    AddOk(s.(active := s.active[1..]), 0, t, i, i);
    RearmedDue(s, Rearmed(s).timers);
    var r := Rearmed(s);
    forall periodic
      ensures Kind(Due(r.active, r.timers, r.lbolt), r.timers, periodic)
           == Kind(Due(s.active[1..], s.timers, s.lbolt), s.timers, periodic)
    {
      DueSame(s.active[1..], s.timers, r.timers, s.lbolt, periodic);
    }
  }

  lemma RearmedDue(s: TState, m: map<Tmr, TimerRec>)
    requires s.active != [] && ShapeBut(s.(active := s.active[1..]), 0, s.active[0])
    requires forall x :: x in s.active[1..] ==> Expire(m, x) == Expire(s.timers, x) && Interval(m, x) == Interval(s.timers, x)
    requires 0 < Left(m, s.lbolt, s.active[0]) < HALF
    ensures Due(Place(s.active[1..], m, s.active[0]), m, s.lbolt) == Due(s.active[1..], s.timers, s.lbolt)
  {
    hide NoDup, Sorted, Place, Due, Expire;
    DueSame(s.active[1..], s.timers, m, s.lbolt, true);
    SortedSame(s.active[1..], s.timers, m, s.lbolt);
    DuePlace(s.active[1..], m, s.lbolt, s.active[0]);
  }

  /** A due one-shot timer goes to the head of expire_list. */
  lemma ExpiredOk(s: TState)
    requires Shape(s, 0) && s.active != [] && Expire(s.timers, s.active[0]) == s.lbolt
    ensures Shape(s.(active := s.active[1..], expired := [s.active[0]] + s.expired), 0)
  {
    hide Left, Sorted, NoDup;
    TailOk(s);
    NoDupCons(s.active[0], s.expired);
  }

  /** The state of the timer records after the due ones in `due` have been handled. */
  ghost predicate Handled(m: map<Tmr, TimerRec>, m': map<Tmr, TimerRec>, now: U32, due: seq<Tmr>) {
    && m'.Keys == m.Keys
    && (forall t :: t in m ==>
          m'[t] == if t in due && m[t].interval != 0 then m[t].(expire := Plus(now, m[t].interval)) else m[t])
  }

  /** The whole loop of timer_handler: each due periodic timer is signalled once, in
      order, and armed one interval on; the due one-shots are put on expire_list,
      the last one first; nothing else changes. */
  lemma {:induction false} DrainOk(s: TState, woken: seq<Tmr>)
    requires Shape(s, 0)
    ensures var (r, w) := Drain(s, woken);
      var due := Due(s.active, s.timers, s.lbolt);
      && TInv(r) && r.lbolt == s.lbolt
      && w == woken + Kind(due, s.timers, true)
      && r.expired == Reverse(Kind(due, s.timers, false)) + s.expired
      && Handled(s.timers, r.timers, s.lbolt, due)
    decreases DueCount(s.active, s.timers, s.lbolt)
  {
    hide Shape, DueCount, Expire, Interval, Before, Rearmed, Reverse, Sub, Plus, Kind, Due, Handled;
    if s.active == [] {
      DrainedOk(s);
    } else {
      TestIsExact(s);
      var t := s.active[0];
      if Expire(s.timers, t) != s.lbolt {
        DrainedOk(s);
      } else if Interval(s.timers, t) != 0 {
        RearmedShrinks(s);
        RearmedOk(s);
        DrainOk(Rearmed(s), woken + [t]);
        RearmHandled(s, Drain(Rearmed(s), woken + [t]).0.timers);
        DueStep(s, true);
        DueStep(s, false);
        var rest := Kind(Due(s.active[1..], s.timers, s.lbolt), s.timers, true);
        assert woken + [t] + rest == woken + ([t] + rest);
      } else {
        ExpiredOk(s);
        var s1 := s.(active := s.active[1..], expired := [t] + s.expired);
        CountPos(s);
        DrainOk(s1, woken);
        DueStep(s, true);
        DueStep(s, false);
        OneShotHandled(s, Drain(s1, woken).0.timers);
        var rest := Kind(Due(s.active[1..], s.timers, s.lbolt), s.timers, false);
        ReverseCons(t, rest);
        assert Reverse(rest) + ([t] + s.expired) == Reverse(rest) + [t] + s.expired;
      }
    }
  }

  lemma ReverseCons(t: Tmr, q: seq<Tmr>)
    ensures Reverse([t] + q) == Reverse(q) + [t]
  {
    assert ([t] + q)[1..] == q;
  }

  lemma CountPos(s: TState)
    requires Shape(s, 0) && s.active != [] && Expire(s.timers, s.active[0]) == s.lbolt
    ensures DueCount(s.active[1..], s.timers, s.lbolt) < DueCount(s.active, s.timers, s.lbolt)
  {
    hide Expire, NoDup;
  }

  lemma DrainedOk(s: TState)
    requires Shape(s, 0) && (s.active == [] || Expire(s.timers, s.active[0]) != s.lbolt)
    ensures TInv(s) && Due(s.active, s.timers, s.lbolt) == [] && Reverse<Tmr>([]) + s.expired == s.expired
    ensures Handled(s.timers, s.timers, s.lbolt, []) && Kind([], s.timers, true) == [] && Kind([], s.timers, false) == []
  {
    hide NoDup, Expire, Plus;
    forall t | t in s.active ensures 1 <= Left(s.timers, s.lbolt, t) {
      SortedAll(s.active, s.timers, s.lbolt, t);
    }
  }

  lemma DueStep(s: TState, periodic: bool)
    requires Shape(s, 0) && s.active != [] && Expire(s.timers, s.active[0]) == s.lbolt
    ensures var t, m := s.active[0], s.timers;
      && Due(s.active, m, s.lbolt) == [t] + Due(s.active[1..], m, s.lbolt)
      && Kind(Due(s.active, m, s.lbolt), m, periodic)
         == (if (Interval(m, t) != 0) == periodic then [t] else []) + Kind(Due(s.active[1..], m, s.lbolt), m, periodic)
  {
    hide Shape, Expire, Interval;
    var t := s.active[0];
    assert ([t] + Due(s.active[1..], s.timers, s.lbolt))[1..] == Due(s.active[1..], s.timers, s.lbolt);
  }

  lemma NotTwice(s: TState)
    requires Shape(s, 0) && s.active != []
    ensures s.active[0] !in Due(s.active[1..], s.timers, s.lbolt)
  {
    hide Left;
    DueMem(s.active[1..], s.timers, s.lbolt, s.active[0]);
  }

  lemma RearmHandled(s: TState, m: map<Tmr, TimerRec>)
    requires Shape(s, 0) && s.active != [] && Expire(s.timers, s.active[0]) == s.lbolt && Interval(s.timers, s.active[0]) != 0
    requires Handled(Rearmed(s).timers, m, s.lbolt, Due(s.active[1..], s.timers, s.lbolt))
    ensures Handled(s.timers, m, s.lbolt, Due(s.active, s.timers, s.lbolt))
  {
    hide Shape, Sorted, Plus, Rearmed, Due;
    RearmedOk(s);
    NotTwice(s);
    DueStep(s, true);
  }

  lemma OneShotHandled(s: TState, m: map<Tmr, TimerRec>)
    requires Shape(s, 0) && s.active != [] && Expire(s.timers, s.active[0]) == s.lbolt && Interval(s.timers, s.active[0]) == 0
    requires Handled(s.timers, m, s.lbolt, Due(s.active[1..], s.timers, s.lbolt))
    ensures Handled(s.timers, m, s.lbolt, Due(s.active, s.timers, s.lbolt))
  {
    hide Shape, Sorted, Plus, Due;
    DueStep(s, true);
  }

  lemma RunOneOk(s: TState)
    requires TInv(s)
    ensures TInv(RunOne(s)) && RunOne(s).active == s.active && RunOne(s).lbolt == s.lbolt
    ensures s.expired != [] ==> RunOne(s).expired == s.expired[1..] && s.expired[0] !in RunOne(s).expired
  {
    hide Left;
    if s.expired != [] {
      assert s.expired == [s.expired[0]] + s.expired[1..];
      SortedSame(s.active, s.timers, RunOne(s).timers, s.lbolt);
      LeftSame(s);
    }
  }

  lemma LeftSame(s: TState)
    requires forall t :: t in s.active ==> Expire(RunOne(s).timers, t) == Expire(s.timers, t)
    ensures forall t :: t in s.active ==> Left(RunOne(s).timers, s.lbolt, t) == Left(s.timers, s.lbolt, t)
  {
    hide Expire, Sub;
  }
}
