/** The code of sys/kern/timer.c over the tick counter, the timer records and the
    two lists, with interrupts off. */
module TimerCode {
  import opened Lists
  import opened Timer
  import T = Timer

  lemma {:induction false} PlaceAt(q: seq<Tmr>, m: map<Tmr, TimerRec>, t: Tmr, n: nat)
    requires n <= |q| && forall k :: 0 <= k < n ==> !Before(Expire(m, t), Expire(m, q[k]))
    requires n < |q| ==> Before(Expire(m, t), Expire(m, q[n]))
    ensures Place(q, m, t) == q[..n] + [t] + q[n..]
  {
    hide Before, Expire;
    if n > 0 {
      PlaceAt(q[1..], m, t, n - 1);
      assert q[..n] == [q[0]] + q[1..][..n - 1];
      assert q[1..][n - 1..] == q[n..];
    }
  }

  class Timers {
    var lbolt: U32
    var timers: map<Tmr, TimerRec>
    var active: seq<Tmr>
    var expired: seq<Tmr>

    ghost function State(): TState
      reads this
    {
      TState(lbolt, timers, active, expired)
    }

    constructor ()
      ensures State() == TState(0, map[], [], [])
    {
      lbolt, timers, active, expired := 0, map[], [], [];
    }

    /** timer_add; the caller has set the interval. */
    method TimerAdd(t: Tmr, ticks: U32)
      requires t in timers
      modifies this
      ensures State() == T.TimerAdd(old(State()), t, ticks, old(timers[t].interval))
    {
      hide Before, Place, Plus;
      var delay := ticks;
      if delay == 0 {
        delay := delay + 1;
      }
      timers := timers[t := timers[t].(expire := Plus(lbolt, delay), active := true)];
      var n := 0;
      while n < |active| && !Before(timers[t].expire, Expire(timers, active[n]))
        invariant 0 <= n <= |active|
        invariant forall k :: 0 <= k < n ==> !Before(timers[t].expire, Expire(timers, active[k]))
      {
        n := n + 1;
      }
      PlaceAt(active, timers, t, n);
      active := active[..n] + [t] + active[n..];
    }

    method Detach(t: Tmr)
      requires t in timers && timers[t].active
      modifies this
      ensures State() == T.Unlink(old(State()), t)
    {
      active := Remove(active, t);
      expired := Remove(expired, t);
    }

    method TimerStop(t: Tmr)
      modifies this
      ensures State() == T.TimerStop(old(State()), t)
    {
      if t in timers && timers[t].active {
        Detach(t);
        timers := timers[t := timers[t].(active := false)];
      }
    }

    method TimerCallout(t: Tmr, msec: U32)
      modifies this
      ensures State() == T.TimerCallout(old(State()), t, msec)
    {
      hide Mstohz, Place, Remove, Plus;
      if t in timers && timers[t].active {
        Detach(t);
      }
      ghost var s := State();
      timers := timers[t := if t in timers then timers[t].(interval := 0) else TimerRec(false, 0, 0)];
      SameAdd(s, t, timers[t], Mstohz(msec));
      TimerAdd(t, Mstohz(msec));
    }

    method TimerPeriodic(t: Tmr, valid: bool, mine: bool, memory: bool, start: U32, period: U32) returns (e: TResult)
      modifies this
      ensures (State(), e) == T.TimerPeriodic(old(State()), t, valid, mine, memory, start, period)
    {
      hide Mstohz, Place, Remove, Plus;
      if start != 0 && period == 0 { return EINVAL; }
      if !valid { return ESRCH; }
      if !mine { return EPERM; }
      if start == 0 {
        if t !in timers || !timers[t].active { return EINVAL; }
        TimerStop(t);
      } else {
        ghost var s := State();
        if t !in timers {
          if !memory { return ENOMEM; }
          timers := timers[t := TimerRec(false, 0, 0)];
        }
        timers := timers[t := timers[t].(interval := Mstohz(period))];
        if timers[t].interval == 0 {
          timers := timers[t := timers[t].(interval := 1)];
        }
        assert timers == s.timers[t := timers[t]];
        SameAdd(s, t, timers[t], Mstohz(start));
        TimerAdd(t, Mstohz(start));
      }
      return Done;
    }

    /** timer_handler without sched_tick: the signalled timers in order, and whether
        the timer thread is woken. */
    method TimerHandler() returns (woken: seq<Tmr>, wakeup: bool)
      requires forall t :: t in active ==> t in timers
      modifies this
      ensures (State(), woken) == Tick(old(State()))
      ensures wakeup <==> |expired| > |old(expired)|
    {
      hide Before, Plus, Remain, DueCount, Place;
      lbolt := Plus(lbolt, 1);
      woken, wakeup := [], false;
      while active != []
        invariant forall t :: t in active ==> t in timers
        invariant Drain(State(), woken) == Tick(old(State()))
        invariant |expired| >= |old(expired)| && (wakeup <==> |expired| > |old(expired)|)
        decreases DueCount(active, timers, lbolt)
      {
        var t := active[0];
        if Before(lbolt, timers[t].expire) {
          break;
        }
        ghost var s := State();
        active := active[1..];
        if timers[t].interval != 0 {
          var ticks := Remain(lbolt, Plus(timers[t].expire, timers[t].interval));
          ghost var m := timers;
          TimerAdd(t, ticks);
          RearmedShrinks(s);
          PlaceMem(s.active[1..], timers, t);
          woken := woken + [t];
        } else {
          DrainShort(s);
          expired := [t] + expired;
          wakeup := true;
        }
      }
    }

    /** The inner loop of timer_thread, when no interrupt comes in between: every
        expired timer is stopped and its function called, the list's head first. */
    method RunExpired() returns (called: seq<Tmr>)
      requires forall t :: t in expired ==> t in timers
      modifies this
      ensures called == old(expired) && expired == [] && active == old(active) && lbolt == old(lbolt)
      ensures timers.Keys == old(timers.Keys)
      ensures forall t :: t in timers ==>
        timers[t] == if t in old(expired) then old(timers)[t].(active := false) else old(timers)[t]
    {
      called := [];
      while expired != []
        invariant called + expired == old(expired) && active == old(active) && lbolt == old(lbolt)
        invariant timers.Keys == old(timers.Keys)
        invariant forall t :: t in timers ==>
          timers[t] == if t in called then old(timers)[t].(active := false) else old(timers)[t]
        decreases |expired|
      {
        var t := expired[0];
        assert called + expired == called + [t] + expired[1..];
        expired := expired[1..];
        timers := timers[t := timers[t].(active := false)];
        called := called + [t];
      }
    }
  }

  /** Adding does not depend on the old expiry and state of the record. */
  lemma SameAdd(s: TState, t: Tmr, y: TimerRec, ticks: U32)
    ensures T.TimerAdd(s.(timers := s.timers[t := y]), t, ticks, y.interval) == T.TimerAdd(s, t, ticks, y.interval)
  {
    hide Place, Plus, AtLeast1;
    var z := TimerRec(true, Plus(s.lbolt, AtLeast1(ticks)), y.interval);
    assert s.timers[t := y][t := z] == s.timers[t := z];
  }

  lemma DrainShort(s: TState)
    requires s.active != [] && !Before(s.lbolt, Expire(s.timers, s.active[0]))
    ensures DueCount(s.active[1..], s.timers, s.lbolt) < DueCount(s.active, s.timers, s.lbolt)
  {
    hide Before;
  }
}
