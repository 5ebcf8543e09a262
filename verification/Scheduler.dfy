/** The code of sys/kern/sched.c over its static variables and the thread
    table, each operation against its specification function in module Sched. */
module Scheduler {
  import opened Lists
  import opened Sched
  import opened SchedInv
  import opened SchedSwitch

  class Kernel {
    var threads: map<Tid, Thread>
    var runq: RunQ
    var wakeq: seq<Tid>
    var sleepq: map<Event, seq<Tid>>
    var maxpri: Pri
    var cur: Tid
    var pending: seq<seq<Event>>

    ghost function S(): State
      reads this
    {
      State(threads, runq, wakeq, sleepq, maxpri, cur, pending)
    }

    /** thread_init and sched_init, before kthread_create. */
    constructor (interrupts: seq<seq<Event>>)
      ensures S() == Init(interrupts)
    {
      threads := map[IDLE := IdleThread()];
      runq := seq(256, _ => []);
      wakeq, sleepq := [], map[];
      maxpri := PRI_IDLE;
      cur := IDLE;
      pending := interrupts;
    }

    method RunqGetbest() returns (pri: Pri)
      ensures pri == Best(runq)
    {
      pri := 0;
      while pri < MINPRI
        invariant 0 <= pri <= MINPRI
        invariant Best(runq) == BestFrom(runq, pri)
      {
        if runq[pri] != [] {
          break;
        }
        pri := pri + 1;
      }
    }

    method RunqEnqueue(t: Tid)
      requires t in threads && cur in threads
      modifies this
      ensures S() == Sched.RunqEnqueue(old(S()), t)
    {
      var p := threads[t].priority;
      runq := runq[p := runq[p] + [t]];
      if p < maxpri {
        maxpri := p;
        threads := threads[cur := threads[cur].(resched := true)];
      }
    }

    method RunqInsert(t: Tid)
      requires t in threads
      modifies this
      ensures S() == Sched.RunqInsert(old(S()), t)
    {
      var p := threads[t].priority;
      runq := runq[p := [t] + runq[p]];
      if p < maxpri {
        maxpri := p;
      }
    }

    method RunqDequeue() returns (t: Tid)
      requires runq[maxpri] != []
      modifies this
      ensures S() == Sched.RunqDequeue(old(S()))
      ensures t == old(runq[maxpri][0])
    {
      t := runq[maxpri][0];
      runq := runq[maxpri := runq[maxpri][1..]];
      if runq[maxpri] == [] {
        maxpri := RunqGetbest();
      }
    }

    method RunqRemove(t: Tid)
      requires t in threads
      modifies this
      ensures S() == Sched.RunqRemove(old(S()), t)
    {
      var p := threads[t].priority;
      runq := runq[p := Remove(runq[p], t)];
      maxpri := RunqGetbest();
    }

    method WakeqFlush()
      requires cur in threads && Known(wakeq, threads)
      modifies this
      ensures S() == Flush(old(S()))
    {
      hide Kept, FlushOne;
      while wakeq != []
        invariant cur in threads && Known(wakeq, threads)
        invariant Flush(S()) == Flush(old(S()))
        decreases |wakeq|
      {
        FlushFirst();
      }
    }

    method FlushFirst()
      requires cur in threads && Known(wakeq, threads) && wakeq != []
      modifies this
      ensures S() == FlushOne(old(S())) && cur in threads && Known(wakeq, threads)
    {
      var t := wakeq[0];
      wakeq := wakeq[1..];
      threads := threads[t := threads[t].(slpevt := None, sleep := false)];
      if t != cur && threads[t].Run() {
        RunqEnqueue(t);
      }
    }

    method SchedSetrun(t: Tid)
      requires t in threads
      modifies this
      ensures S() == Setrun(old(S()), t)
    {
      wakeq := wakeq + [t];
      threads := threads[t := threads[t].(timeout := false)];
    }

    /** sched_swtch as the kernel calls it: some thread is always ready. */
    method SchedSwtch(at: Resume)
      requires SwtchReady(S(), at)
      modifies this
      ensures S() == SwitchAway(old(S()), at)
    {
      SwtchOk(S(), at);
      assert cur in threads;
      hide Inv, Kept, SwtchReady, Follows, Settled, ResumeOk, Sched.Requeue, Sched.Swtch;
      Swtch(at);
    }

    method Swtch(at: Resume)
      requires cur in threads
      requires var s1 := Sched.Requeue(S(), at); s1.runq[s1.maxpri] != []
      modifies this
      ensures S() == Sched.Swtch(old(S()), at)
    {
      var prev := cur;
      Requeue(at);
      hide Sched.Requeue, Sched.RunqDequeue;
      var next := RunqDequeue();
      if next == prev {
        return;
      }
      cur := next;
    }

    /** sched_swtch up to the choice of the next thread. */
    method Requeue(at: Resume)
      requires cur in threads
      modifies this
      ensures S() == Sched.Requeue(old(S()), at)
    {
      var prev := cur;
      threads := threads[prev := threads[prev].(resume := at)];
      if threads[prev].Run() {
        if threads[prev].priority > maxpri {
          RunqInsert(prev);
        } else {
          RunqEnqueue(prev);
        }
      }
      threads := threads[prev := threads[prev].(resched := false)];
    }

    method SchedLock()
      requires cur in threads
      modifies this
      ensures S() == Lock(old(S()))
    {
      threads := threads[cur := threads[cur].(locks := threads[cur].locks + 1)];
    }

    method DropLock()
      requires cur in threads && threads[cur].locks > 0
      modifies this
      ensures S() == Sched.DropLock(old(S()))
    {
      threads := threads[cur := threads[cur].(locks := threads[cur].locks - 1)];
    }

    method SchedWakeup(e: Event)
      requires Known(SleepQ(sleepq, e), threads)
      modifies this
      ensures S() == Wakeup(old(S()), e)
    {
      hide Kept;
      while SleepQ(sleepq, e) != []
        invariant Known(SleepQ(sleepq, e), threads)
        invariant Wakeup(S(), e) == Wakeup(old(S()), e)
        decreases |SleepQ(sleepq, e)|
      {
        var q := SleepQ(sleepq, e);
        assert Remove(q, q[0]) == q[1..];
        sleepq := sleepq[e := q[1..]];
        threads := threads[q[0] := threads[q[0]].(slpret := 0)];
        SchedSetrun(q[0]);
      }
    }

    /** The scan of sched_wakeone: the best thread, and the one looked at last. */
    method Scan(q: seq<Tid>) returns (top: Tid, t: Tid)
      requires q != [] && Known(q, threads)
      ensures top == Top(threads, q) && t == q[|q| - 1]
    {
      top, t := q[0], q[0];
      var i := 0;
      while i < |q|
        invariant 0 <= i <= |q|
        invariant i == 0 ==> top == q[0]
        invariant i > 0 ==> Known(q[..i], threads) && top == Top(threads, q[..i]) && t == q[i - 1]
      {
        t := q[i];
        assert i > 0 ==> q[..i + 1][..i] == q[..i];
        if threads[t].priority < threads[top].priority {
          top := t;
        }
        i := i + 1;
      }
      assert q[..|q|] == q;
    }

    /** `t` is what the function returns; the thread woken is Top of the queue. */
    method SchedWakeone(e: Event) returns (t: Option<Tid>)
      requires Known(SleepQ(sleepq, e), threads)
      modifies this
      ensures S() == Wakeone(old(S()), e)
      ensures t == WakeoneResult(old(S()), e)
    {
      t := None;
      var q := SleepQ(sleepq, e);
      if q != [] {
        var top, last := Scan(q);
        sleepq := sleepq[e := Remove(q, top)];
        threads := threads[top := threads[top].(slpret := 0)];
        SchedSetrun(top);
        t := Some(last);
      }
    }

    method SchedUnsleep(t: Tid, ret: int)
      requires t in threads
      modifies this
      ensures S() == Unsleep(old(S()), t, ret)
    {
      if threads[t].sleep {
        if t in wakeq {
          wakeq := Remove(wakeq, t);
        } else {
          match threads[t].slpevt
          case None =>
          case Some(e) => sleepq := sleepq[e := Remove(SleepQ(sleepq, e), t)];
        }
        threads := threads[t := threads[t].(slpret := ret)];
        SchedSetrun(t);
      }
    }

    method SchedYield()
      requires cur in threads
      modifies this
      ensures S() == Yield(old(S()))
    {
      if runq[threads[cur].priority] != [] {
        threads := threads[cur := threads[cur].(resched := true)];
      }
    }

    method SchedSuspend(t: Tid)
      requires t in threads && cur in threads
      modifies this
      ensures S() == Suspend(old(S()), t)
    {
      if threads[t].Run() {
        if t == cur {
          threads := threads[cur := threads[cur].(resched := true)];
        } else {
          RunqRemove(t);
        }
      }
      threads := threads[t := threads[t].(susp := true)];
    }

    method SchedResume(t: Tid)
      requires t in threads && cur in threads
      modifies this
      ensures S() == ResumeThread(old(S()), t)
    {
      if threads[t].susp {
        threads := threads[t := threads[t].(susp := false)];
        if threads[t].Run() {
          RunqEnqueue(t);
        }
      }
    }

    method SchedTick()
      requires cur in threads
      modifies this
      ensures S() == Tick(old(S()))
    {
      if !threads[cur].exit && threads[cur].policy == RoundRobin {
        threads := threads[cur := threads[cur].(timeleft := threads[cur].timeleft - 1)];
        if threads[cur].timeleft <= 0 {
          threads := threads[cur := threads[cur].(timeleft := threads[cur].timeleft + QUANTUM, resched := true)];
        }
      }
    }

    method SchedSetpri(t: Tid, basepri: Pri, pri: Pri)
      requires t in threads && cur in threads
      modifies this
      ensures S() == SetPri(old(S()), t, basepri, pri)
    {
      hide Best;
      threads := threads[t := threads[t].(basepri := basepri)];
      if t == cur {
        threads := threads[t := threads[t].(priority := pri)];
        maxpri := RunqGetbest();
        if pri != maxpri {
          threads := threads[cur := threads[cur].(resched := true)];
        }
      } else if threads[t].Run() {
        RunqRemove(t);
        threads := threads[t := threads[t].(priority := pri)];
        RunqEnqueue(t);
      } else {
        threads := threads[t := threads[t].(priority := pri)];
      }
    }

    method SchedStop(t: Tid)
      requires t in threads && cur in threads
      modifies this
      ensures S() == Stop(old(S()), t)
    {
      if t == cur {
        threads := threads[cur := threads[cur].(locks := 1, resched := true)];
      } else if threads[t].Run() {
        RunqRemove(t);
      } else if threads[t].sleep {
        if t in wakeq {
          wakeq := Remove(wakeq, t);
        } else {
          match threads[t].slpevt
          case None =>
          case Some(e) => sleepq := sleepq[e := Remove(SleepQ(sleepq, e), t)];
        }
      }
      threads := threads[t := threads[t].(timeout := false, sleep := false, susp := false, exit := true)];
    }

    /** The interrupts taken while sched_unlock has them enabled. */
    method TakeInterrupts(es: seq<Event>)
      requires Inv(S())
      modifies this
      ensures Inv(S()) && S() == Isr(old(S()), es)
    {
      var i := 0;
      while i < |es|
        invariant 0 <= i <= |es|
        invariant Inv(S())
        invariant Isr(S(), es[i..]) == Isr(old(S()), es)
      {
        hide Inv, Kept;
        SleepKnown(S(), es[i]);
        WakeupOk(S(), es[i]);
        assert es[i..][0] == es[i] && es[i..][1..] == es[i + 1..];
        SchedWakeup(es[i]);
        i := i + 1;
      }
    }

    /** The splx/splhigh pair in the loop of sched_unlock, and the flush after it. */
    method InterruptWindow()
      requires Inv(S()) && pending != []
      modifies this
      ensures Inv(S()) && S() == Window(old(S()))
    {
      hide Inv, Kept, Follows, Midway;
      var es := pending[0];
      PendingOk(S(), pending[1..]);
      pending := pending[1..];
      TakeInterrupts(es);
      InvReady(S());
      InvIsMidway(S());
      FlushWakeq();
      InvIsMidway(S());
    }

    /** wakeq_flush between kernel operations. */
    method FlushWakeq()
      requires Midway(S())
      modifies this
      ensures S() == FlushAll(old(S()))
    {
      assert cur in threads;
      WakeqKnown(S());
      hide Midway, Kept;
      WakeqFlush();
    }

    /** sched_unlock from its loop on. A switch goes on in the code where the
        thread switched to was switched out, so only `InUnlock` stays here. */
    method UnlockRest()
      requires Inv(S()) && wakeq == [] && cur in threads && threads[cur].locks == 1
      modifies this
      ensures Inv(S()) && S() == UnlockLoop(old(S()))
      decreases |pending|, 1
    {
      hide Inv, Follows, Kept, SwtchReady, Resumed;
      while threads[cur].resched
        invariant Inv(S()) && wakeq == [] && cur in threads && threads[cur].locks == 1
        invariant UnlockLoop(S()) == UnlockLoop(old(S()))
        invariant |pending| <= |old(pending)|
        decreases |pending|, threads[cur].resched
      {
        UnlockLoopStep(S());
        SchedSwtch(InUnlock);
        if threads[cur].resume != InUnlock {
          SwitchedTo();
          return;
        }
        if pending != [] {
          InterruptWindow();
        }
      }
      DropLockOk(S());
      DropLock();
    }

    /** The thread just switched in returns from sched_swtch. */
    method SwitchedTo()
      requires Settled(S()) && cur in threads && ResumeOk(threads[cur])
      modifies this
      ensures Inv(S()) && S() == Resumed(old(S()))
      decreases |pending|, 0
    {
      hide Inv, Follows, Kept;
      match threads[cur].resume
      case Entry =>
      case InSleep =>
        // sched_unlock at the end of sched_tsleep: nothing to flush, no mark
        DropLockOk(S());
        DropLock();
      case InUnlock =>
        if pending == [] {
          DropLockOk(S());
          DropLock();
        } else {
          InterruptWindow();
          UnlockRest();
        }
    }

    method SchedUnlock()
      requires Inv(S()) && cur in threads && threads[cur].locks > 0
      modifies this
      ensures Inv(S()) && S() == Unlock(old(S()))
    {
      InvReady(S());
      InvIsMidway(S());
      hide Inv, Follows, Kept, Midway;
      if threads[cur].locks == 1 {
        FlushWakeq();
        InvIsMidway(S());
        UnlockRest();
      } else {
        DropLockOk(S());
        DropLock();
      }
    }

    /** The critical section of sched_tsleep before the switch. */
    method QueueSelf(e: Event, timed: bool)
      requires Inv(S()) && cur != IDLE && cur in threads && !threads[cur].exit
      modifies this
      ensures S() == SchedSwitch.QueueSelf(old(S()), e, timed)
    {
      hide Inv, Kept, Midway;
      SchedLock();
      var th := threads[cur];
      threads := threads[cur := th.(slpevt := Some(e), sleep := true, timeout := th.timeout || timed)];
      sleepq := sleepq[e := SleepQ(sleepq, e) + [cur]];
    }

    method SchedTsleep(e: Event, timed: bool)
      requires Inv(S()) && cur != IDLE && cur in threads && !threads[cur].exit
      modifies this
      ensures Inv(S()) && S() == Tsleep(old(S()), e, timed)
    {
      hide Inv, Kept, Midway, Follows, SwtchReady, SchedSwitch.QueueSelf, FlushAll, SwitchAway, Resumed, ResumeOk;
      ghost var s1 := GoToSleep(S(), e, timed);
      QueueSelf(e, timed);
      FlushWakeq();
      assert S() == s1;
      SchedSwtch(InSleep);
      SwitchedTo();
    }
  }
}
