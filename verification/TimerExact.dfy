/** The arithmetic and the error results of the timer calls, in plain numbers. */
module TimerExact {
  import opened Lists
  import opened Timer
  import opened TimerSteps

  /** `d` is x - y as a signed 32-bit value. */
  predicate Signed(d: int, x: U32, y: U32) {
    -0x8000_0000 <= d < 0x8000_0000 && (d - (x - y)) % 0x1_0000_0000 == 0
  }

  /** time_before is the sign of the difference, time_remain the difference if positive. */
  lemma BeforeExact(x: U32, y: U32, d: int)
    requires Signed(d, x, y)
    ensures Before(x, y) <==> d < 0
    ensures Remain(x, y) as int == if d == -0x8000_0000 then 0x8000_0000 else if d < 0 then -d else 0
  {
    var k := (d - (x - y)) / 0x1_0000_0000;
    assert d == x - y + k * 0x1_0000_0000;
    assert -1 <= k <= 1;
  }

  /** A delay of `ms` milliseconds is armed for as many ticks, at least one, unless the
      product of mstohz wraps. */
  lemma DelayExact(ms: U32)
    ensures var w := ms * 1000 % 0x1_0000_0000;
      AtLeast1(Mstohz(ms)) as int == (if w < 1000 then 1 else w / 1000)
    ensures ms * 1000 < 0x1_0000_0000 ==> AtLeast1(Mstohz(ms)) as int == if ms == 0 then 1 else ms
  {
  }

  /** timer_periodic: each error has its own cause, in the order of the checks. */
  lemma PeriodicExact(s: TState, t: Tmr, valid: bool, mine: bool, memory: bool, start: U32, period: U32)
    ensures var (r, e) := TimerPeriodic(s, t, valid, mine, memory, start, period);
      var asked := start == 0 || period != 0;
      && (e == ESRCH <==> asked && !valid)
      && (e == EPERM <==> asked && valid && !mine)
      && (e == EINVAL <==> !asked || (valid && mine && start == 0 && !(t in s.timers && s.timers[t].active)))
      && (e == ENOMEM <==> asked && valid && mine && start != 0 && t !in s.timers && !memory)
      && (e == Done || (r == s && e in {ESRCH, EPERM, EINVAL, ENOMEM}))
  {
    hide TimerStop, TimerAdd;
  }
}
