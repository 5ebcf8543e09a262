/** Kernel timers of sys/kern/timer.c: a list sorted by expiry under a tick
    counter that wraps at 32 bits, and the list of expired one-shot timers. */
module Timer {
  import opened Lists

  type Tmr = int

  const WORD: int := 0x1_0000_0000
  const HALF: int := 0x8000_0000
  const HZ: int := 1000

  type U32 = x: int | 0 <= x < WORD

  function Sub(a: U32, b: U32): U32 {
    if a >= b then a - b else a - b + WORD
  }

  function Plus(a: U32, b: U32): U32 {
    if a + b < WORD then a + b else a + b - WORD
  }

  /** mstohz, whose product wraps. */
  function Mstohz(ms: U32): U32 {
    ms * HZ % WORD / 1000
  }

  /** time_before: the signed difference a - b is negative. */
  predicate Before(a: U32, b: U32) {
    Sub(a, b) >= HALF
  }

  /** struct timer; `active` is state == TM_ACTIVE. */
  datatype TimerRec = TimerRec(active: bool, expire: U32, interval: U32)

  /** lbolt, the timer records, timer_list and expire_list. */
  datatype TState = TState(lbolt: U32, timers: map<Tmr, TimerRec>, active: seq<Tmr>, expired: seq<Tmr>)

  datatype TResult = Done | EINVAL | ESRCH | EPERM | ENOMEM

  function Expire(m: map<Tmr, TimerRec>, t: Tmr): U32 {
    if t in m then m[t].expire else 0
  }

  function Interval(m: map<Tmr, TimerRec>, t: Tmr): U32 {
    if t in m then m[t].interval else 0
  }

  /** time_remain. */
  function Remain(now: U32, expire: U32): U32 {
    if Before(now, expire) then Sub(expire, now) else 0
  }

  /** The list with `t` put before the first timer that expires strictly later. */
  function Place(q: seq<Tmr>, m: map<Tmr, TimerRec>, t: Tmr): seq<Tmr> {
    if q == [] then [t]
    else if Before(Expire(m, t), Expire(m, q[0])) then [t] + q
    else [q[0]] + Place(q[1..], m, t)
  }

  function AtLeast1(ticks: U32): U32 {
    if ticks == 0 then 1 else ticks
  }

  /** timer_add on a record whose interval has just been set. */
  function TimerAdd(s: TState, t: Tmr, ticks: U32, interval: U32): TState {
    var m := s.timers[t := TimerRec(true, Plus(s.lbolt, AtLeast1(ticks)), interval)];
    s.(timers := m, active := Place(s.active, m, t))
  }

  function Unlink(s: TState, t: Tmr): TState {
    if t in s.timers && s.timers[t].active then
      s.(active := Remove(s.active, t), expired := Remove(s.expired, t))
    else s
  }

  function TimerStop(s: TState, t: Tmr): TState {
    if t in s.timers && s.timers[t].active then
      Unlink(s, t).(timers := s.timers[t := s.timers[t].(active := false)])
    else s
  }

  function TimerCallout(s: TState, t: Tmr, msec: U32): TState {
    TimerAdd(Unlink(s, t), t, Mstohz(msec), 0)
  }

  /** timer_periodic for a thread whose periodic timer is `t`, allocated when it
      is among the records. */
  function TimerPeriodic(s: TState, t: Tmr, valid: bool, mine: bool, memory: bool, start: U32, period: U32): (TState, TResult) {
    if start != 0 && period == 0 then (s, EINVAL)
    else if !valid then (s, ESRCH)
    else if !mine then (s, EPERM)
    else if start == 0 then
      if t !in s.timers || !s.timers[t].active then (s, EINVAL) else (TimerStop(s, t), Done)
    else if t !in s.timers && !memory then (s, ENOMEM)
    else (TimerAdd(s, t, Mstohz(start), AtLeast1(Mstohz(period))), Done)
  }

  // ----- The clock interrupt -----

  function Bump(s: TState): TState {
    s.(lbolt := Plus(s.lbolt, 1))
  }

  /** How many entries of the list have come due. */
  function DueCount(q: seq<Tmr>, m: map<Tmr, TimerRec>, now: U32): nat {
    if q == [] then 0 else (if Before(now, Expire(m, q[0])) then 0 else 1) + DueCount(q[1..], m, now)
  }

  function Rearmed(s: TState): TState
    requires s.active != []
  {
    var t := s.active[0];
    var i := Interval(s.timers, t);
    TimerAdd(s.(active := s.active[1..]), t, Remain(s.lbolt, Plus(Expire(s.timers, t), i)), i)
  }

  /** The loop of timer_handler; `woken` lists the periodic timers whose event is
      signalled. It ends for any contents of the records: a re-armed timer is
      strictly in the future. */
  function Drain(s: TState, woken: seq<Tmr>): (TState, seq<Tmr>)
    decreases DueCount(s.active, s.timers, s.lbolt)
  {
    if s.active == [] || Before(s.lbolt, Expire(s.timers, s.active[0])) then (s, woken)
    else
      var t := s.active[0];
      if Interval(s.timers, t) != 0 then
        RearmedShrinks(s);
        Drain(Rearmed(s), woken + [t])
      else
        Drain(s.(active := s.active[1..], expired := [t] + s.expired), woken)
  }

  /** timer_handler: the new state and the signalled periodic timers; the timer
      thread is woken when expire_list has grown. */
  function Tick(s: TState): (TState, seq<Tmr>) {
    Drain(Bump(s), [])
  }

  /** One round of the timer thread's loop: the first expired timer is stopped and
      its function called. */
  function RunOne(s: TState): TState {
    if s.expired == [] then s
    else
      var t := s.expired[0];
      s.(expired := s.expired[1..],
         timers := if t in s.timers then s.timers[t := s.timers[t].(active := false)] else s.timers)
  }

  lemma RearmedFuture(now: U32, e: U32)
    ensures Before(now, Plus(now, AtLeast1(Remain(now, e))))
  {
  }

  lemma {:induction false} PlaceCount(q: seq<Tmr>, m: map<Tmr, TimerRec>, now: U32, t: Tmr)
    requires Before(now, Expire(m, t))
    ensures DueCount(Place(q, m, t), m, now) == DueCount(q, m, now)
  {
    hide Before, Expire;
    if q != [] {
      if Before(Expire(m, t), Expire(m, q[0])) {
        assert ([t] + q)[1..] == q;
      } else {
        PlaceCount(q[1..], m, now, t);
        assert ([q[0]] + Place(q[1..], m, t))[1..] == Place(q[1..], m, t);
      }
    }
  }

  lemma {:induction false} CountMono(q: seq<Tmr>, m: map<Tmr, TimerRec>, now: U32, t: Tmr, x: TimerRec)
    requires Before(now, x.expire)
    ensures DueCount(q, m[t := x], now) <= DueCount(q, m, now)
  {
    hide Before;
    if q != [] {
      CountMono(q[1..], m, now, t, x);
    }
  }

  lemma RearmedShrinks(s: TState)
    requires s.active != [] && !Before(s.lbolt, Expire(s.timers, s.active[0]))
    ensures var r := Rearmed(s); DueCount(r.active, r.timers, r.lbolt) < DueCount(s.active, s.timers, s.lbolt)
  {
    hide Before, Sub, Plus, Remain, AtLeast1;
    var t := s.active[0];
    var i := Interval(s.timers, t);
    var e := Plus(Expire(s.timers, t), i);
    RearmedFuture(s.lbolt, e);
    var x := TimerRec(true, Plus(s.lbolt, AtLeast1(Remain(s.lbolt, e))), i);
    PlaceCount(s.active[1..], s.timers[t := x], s.lbolt, t);
    CountMono(s.active[1..], s.timers, s.lbolt, t, x);
  }

  // ----- The invariant -----

  /** Ticks left until `t` expires, as the 32-bit difference tells it. */
  function Left(m: map<Tmr, TimerRec>, now: U32, t: Tmr): U32 {
    Sub(Expire(m, t), now)
  }

  /** The list is in the order of the ticks left, and all are near enough. */
  ghost predicate Sorted(q: seq<Tmr>, m: map<Tmr, TimerRec>, now: U32) {
    q == [] || (
      && Left(m, now, q[0]) < HALF
      && (forall x :: x in q[1..] ==> Left(m, now, q[0]) <= Left(m, now, x))
      && Sorted(q[1..], m, now))
  }

  ghost predicate Flags(s: TState) {
    forall t :: t in s.active || t in s.expired <==> t in s.timers && s.timers[t].active
  }

  ghost predicate OnOne(s: TState) {
    NoDup(s.active) && NoDup(s.expired) && forall t :: t in s.active ==> t !in s.expired
  }

  /** A timer is TM_ACTIVE exactly when it is on one of the two lists, once;
      timer_list is sorted, and its timers have `low` or more ticks left. */
  ghost predicate Shape(s: TState, low: int) {
    && OnOne(s) && Flags(s) && Sorted(s.active, s.timers, s.lbolt)
    && (forall t :: t in s.active ==> low <= Left(s.timers, s.lbolt, t))
    && (forall t :: t in s.timers ==> s.timers[t].interval < HALF)
  }

  ghost predicate TInv(s: TState) {
    Shape(s, 1)
  }

  // ----- Facts about the sorted list -----

  /** Within half the range the signed comparison is the order of the ticks left. */
  lemma BeforeLeft(now: U32, a: U32, b: U32)
    requires Sub(a, now) < HALF && Sub(b, now) < HALF
    ensures Before(a, b) <==> Sub(a, now) < Sub(b, now)
  {
  }

  lemma {:induction false} SortedAll(q: seq<Tmr>, m: map<Tmr, TimerRec>, now: U32, x: Tmr)
    requires Sorted(q, m, now) && x in q
    ensures Left(m, now, x) < HALF && Left(m, now, q[0]) <= Left(m, now, x)
  {
    hide Left;
    if x != q[0] {
      assert x in q[1..];
      SortedAll(q[1..], m, now, x);
    }
  }

  lemma {:induction false} SortedSame(q: seq<Tmr>, m: map<Tmr, TimerRec>, m': map<Tmr, TimerRec>, now: U32)
    requires Sorted(q, m, now) && forall x :: x in q ==> Expire(m', x) == Expire(m, x)
    ensures Sorted(q, m', now)
  {
    hide Sub, Expire;
    if q != [] {
      SortedSame(q[1..], m, m', now);
    }
  }

  lemma {:induction false} SortedRemove(q: seq<Tmr>, m: map<Tmr, TimerRec>, now: U32, t: Tmr)
    requires Sorted(q, m, now)
    ensures Sorted(Remove(q, t), m, now)
    ensures forall x :: x in Remove(q, t) ==> x in q
  {
    hide Left;
    if q != [] && q[0] != t {
      SortedRemove(q[1..], m, now, t);
      assert ([q[0]] + Remove(q[1..], t))[1..] == Remove(q[1..], t);
    }
  }

  lemma {:induction false} PlaceMem(q: seq<Tmr>, m: map<Tmr, TimerRec>, t: Tmr)
    ensures forall x :: x in Place(q, m, t) <==> x in q || x == t
    ensures NoDup(q) && t !in q ==> NoDup(Place(q, m, t))
  {
    hide Before, Expire;
    if q == [] {
    } else if Before(Expire(m, t), Expire(m, q[0])) {
      if NoDup(q) && t !in q {
        NoDupCons(t, q);
      }
    } else {
      PlaceMem(q[1..], m, t);
      if NoDup(q) && t !in q {
        NoDupCons(q[0], Place(q[1..], m, t));
      }
    }
  }

  lemma {:induction false} PlaceSorted(q: seq<Tmr>, m: map<Tmr, TimerRec>, now: U32, t: Tmr)
    requires Sorted(q, m, now) && Left(m, now, t) < HALF
    ensures Sorted(Place(q, m, t), m, now)
  {
    hide Before, Expire, Sub;
    if q == [] {
    } else {
      BeforeLeft(now, Expire(m, t), Expire(m, q[0]));
      if Before(Expire(m, t), Expire(m, q[0])) {
        assert ([t] + q)[1..] == q;
        forall x | x in q ensures Left(m, now, t) <= Left(m, now, x) {
          SortedAll(q, m, now, x);
        }
      } else {
        PlaceSorted(q[1..], m, now, t);
        PlaceMem(q[1..], m, t);
        assert ([q[0]] + Place(q[1..], m, t))[1..] == Place(q[1..], m, t);
      }
    }
  }
}
