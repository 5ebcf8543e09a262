/** The code of sys/sync/mutex.c over the mutex and thread records, between the
    sched_lock and sched_unlock of each call. */
module MutexCode {
  import opened Lists
  import opened Sched
  import opened SchedInv
  import opened SchedSwitch
  import opened Scheduler
  import opened Graph
  import opened Mutex
  import M = Mutex
  import opened MutexInv
  import opened MutexSteps
  import opened MutexHandOff
  import opened MutexRuns

  const MAXINHERIT: nat := 10

  // ----- Where the loop of prio_inherit stands -----

  /** `done` are the rounds taken, `m` the mutex of the next one, and `n` bounds
      the rounds left: a longer trail would repeat a thread. */
  ghost predicate Walking(s0: MState, w: Tid, done: seq<Hop>, m: Mid, n: nat)
    requires w in s0.waiting
  {
    && m in s0.mx && s0.mx[m].holder.Some? && n >= 1 && |done| + n == |s0.waiting| + 1
    && HopsKnown(s0, done)
    && TrailTo(Pointers(s0) - {w}, Holders(done), s0.mx[m].holder.value)
    && Left(s0, w, done, ChainFrom(s0, m, w, n))
  }

  ghost predicate TrailTo(g: Edges, p: seq<Tid>, h: Tid) {
    Trail(g, p) && (p != [] ==> p[|p| - 1] in g && g[p[|p| - 1]] == h)
  }

  ghost predicate Left(s0: MState, w: Tid, done: seq<Hop>, c: Chain)
    requires w in s0.waiting
  {
    Inherited(s0, w) == Chain(done + c.hops, c.dead)
  }

  lemma WalkStart(s0: MState, w: Tid)
    requires InheritReady(s0, w)
    ensures Walking(s0, w, [], s0.waiting[w], |s0.waiting| + 1)
  {
    hide Inv, Acyclic, Ownership, ChainFrom;
  }

  lemma TrailOn(g: Edges, p: seq<Tid>, h: Tid, h': Tid)
    requires TrailTo(g, p, h) && h in g && g[h] == h'
    ensures TrailTo(g, p + [h], h')
  {
  }

  lemma LeftOn(s0: MState, w: Tid, done: seq<Hop>, m: Mid, n: nat)
    requires w in s0.waiting && m in s0.mx && s0.mx[m].holder.Some? && n >= 1
    requires Left(s0, w, done, ChainFrom(s0, m, w, n))
    ensures var h := s0.mx[m].holder.value;
      && (h == w ==> Inherited(s0, w) == Chain(done, true))
      && (h != w && h !in s0.waiting ==> Inherited(s0, w) == Chain(done + [Hop(m, h)], false))
      && (h != w && h in s0.waiting ==> Left(s0, w, done + [Hop(m, h)], ChainFrom(s0, s0.waiting[h], w, n - 1)))
  {
    hide Inherited;
    var h := s0.mx[m].holder.value;
    var next := done + [Hop(m, h)];
    assert done + [] == done && next + [] == next;
    if h != w && h in s0.waiting {
      var c := ChainFrom(s0, s0.waiting[h], w, n - 1);
      assert done + ([Hop(m, h)] + c.hops) == next + c.hops;
    }
  }

  /** One round: the loop ends at the waiter, at a holder that does not wait, or
      goes on with a smaller bound. */
  lemma WalkOn(s0: MState, w: Tid, done: seq<Hop>, m: Mid, n: nat)
    requires InheritReady(s0, w) && Walking(s0, w, done, m, n)
    ensures var h := s0.mx[m].holder.value;
      && h in s0.s.threads
      && (h == w ==> Inherited(s0, w) == Chain(done, true))
      && (h != w && h !in s0.waiting ==> Inherited(s0, w) == Chain(done + [Hop(m, h)], false))
      && (h != w && h in s0.waiting ==> n >= 2 && Walking(s0, w, done + [Hop(m, h)], s0.waiting[h], n - 1))
  {
    hide Inv, NoDup, Acyclic, Trail, TrailTo, Left, ChainFrom, Inherited;
    var h := s0.mx[m].holder.value;
    LeftOn(s0, w, done, m, n);
    if h != w && h in s0.waiting {
      var g := Pointers(s0) - {w};
      assert Holders(done + [Hop(m, h)]) == Holders(done) + [h];
      TrailOn(g, Holders(done), h, g[h]);
      TrailToTrail(g, Holders(done) + [h], g[h]);
      TrailBound(g, Holders(done) + [h]);
      PointerCount(s0, w);
    }
  }

  lemma TrailToTrail(g: Edges, p: seq<Tid>, h: Tid)
    requires TrailTo(g, p, h)
    ensures Trail(g, p)
  {
  }

  lemma {:induction false} RaiseLast(ms: MState, hops: seq<Hop>, x: Hop, w: Tid)
    requires ms.s.cur in ms.s.threads && w in ms.s.threads && HopsKnown(ms, hops)
    requires x.holder in ms.s.threads && x.m in ms.mx
    ensures HopsKnown(ms, hops + [x])
    ensures var r := RaiseAll(ms, hops, w);
      && r.s.threads.Keys == ms.s.threads.Keys && r.mx.Keys == ms.mx.Keys && r.s.cur == ms.s.cur
      && RaiseAll(ms, hops + [x], w) == Raise(r, x.m, x.holder, w)
    decreases |hops|
  {
    hide Raise;
    if hops == [] {
      assert hops + [x] == [x];
    } else {
      assert (hops + [x])[1..] == hops[1..] + [x];
      RaiseLast(Raise(ms, hops[0].m, hops[0].holder, w), hops[1..], x, w);
    }
  }

  class Locks {
    const k: Kernel
    var mx: map<Mid, Mutex>
    var waiting: map<Tid, Mid>
    var held: map<Tid, seq<Mid>>
    var inlock: map<Tid, Mid>

    ghost function MS(): MState
      reads this, k
    {
      MState(k.S(), mx, waiting, held, inlock)
    }

    constructor (kernel: Kernel)
      ensures k == kernel && MS() == MState(kernel.S(), map[], map[], map[], map[])
    {
      k := kernel;
      mx, waiting, held, inlock := map[], map[], map[], map[];
    }

    /** Raising one holder, the body of the loop. */
    method RaiseHolder(m: Mid, holder: Tid, waiter: Tid)
      requires k.cur in k.threads && holder in k.threads && waiter in k.threads && m in mx
      modifies this, k
      ensures MS() == Raise(old(MS()), m, holder, waiter)
    {
      if k.threads[holder].priority > k.threads[waiter].priority {
        var p := k.threads[waiter].priority;
        k.SchedSetpri(holder, k.threads[holder].basepri, p);
        hide SetPri;
        mx := mx[m := mx[m].(priority := p)];
      }
    }

    /** prio_inherit; the result is whether it returns EDEADLK. */
    method PrioInherit(waiter: Tid) returns (dead: bool)
      requires InheritReady(MS(), waiter)
      modifies this, k
      ensures old(HopsKnown(MS(), Inherited(MS(), waiter).hops))
      ensures old(MS().s.cur in MS().s.threads && waiter in MS().s.threads && waiter in waiting)
      ensures MS() == M.PrioInherit(old(MS()), waiter)
      ensures dead == old(Inherited(MS(), waiter)).dead
    {
      hide Inherited, ChainFrom, Trail, TrailTo, Left, RaiseAll, Raise, Pointers, Ownership, Acyclic, Inv;
      ghost var s0 := MS();
      ghost var done: seq<Hop> := [];
      ghost var n: nat := |waiting| + 1;
      var m := waiting[waiter];
      var count := 0;
      WalkStart(s0, waiter);
      RaiseNone(s0, waiter);
      while true
        invariant Walking(s0, waiter, done, m, n)
        invariant MS() == RaiseAll(s0, done, waiter) && SameOwners(s0.mx, mx)
        invariant count == 0
        decreases n
      {
        WalkOn(s0, waiter, done, m, n);
        var holder := mx[m].holder.value;
        if holder == waiter {
          return true;
        }
        RaiseLast(s0, done, Hop(m, holder), waiter);
        RaiseOwners(MS(), m, holder, waiter);
        RaiseHolder(m, holder, waiter);
        done := done + [Hop(m, holder)];
        if holder !in waiting {
          return false;
        }
        m := waiting[holder];
        n := n - 1;
        if count >= MAXINHERIT {
          break;
        }
      }
      dead := false;
    }

    /** prio_uninherit. */
    method PrioUninherit(t: Tid)
      requires t in k.threads && k.cur in k.threads
      requires forall m :: m in HeldBy(held, t) ==> m in mx
      modifies k
      ensures MS() == M.PrioUninherit(old(MS()), t)
    {
      if k.threads[t].priority == k.threads[t].basepri {
        return;
      }
      var maxpri := k.threads[t].basepri;
      var list := HeldBy(held, t);
      assert list[0..] == list;
      for i := 0 to |list|
        invariant BestOf(mx, list[i..], maxpri) == BestOf(mx, list, k.threads[t].basepri)
      {
        assert list[i..][1..] == list[i + 1..];
        var m := list[i];
        assert m in list;
        if mx[m].priority < maxpri {
          maxpri := mx[m].priority;
        }
      }
      k.SchedSetpri(t, k.threads[t].basepri, maxpri);
    }

    method TakeMutex(m: Mid, t: Tid)
      requires m in mx
      modifies this
      ensures MS() == Take(old(MS()), m, t)
    {
      mx := mx[m := mx[m].(locks := 1)];
      mx := mx[m := mx[m].(holder := Some(t))];
      held := held[t := [m] + HeldBy(held, t)];
    }

    method MutexTrylock(m: Mid) returns (e: Result)
      modifies this
      ensures (MS(), e) == M.MutexTrylock(old(MS()), m)
    {
      if m !in mx { return EINVAL; }
      if mx[m].holder == Some(k.cur) {
        mx := mx[m := mx[m].(locks := mx[m].locks + 1)];
        return Done;
      }
      if mx[m].holder != None { return EBUSY; }
      TakeMutex(m, k.cur);
      return Done;
    }

    /** mutex_lock from the return of sched_sleep on. */
    method MutexLockResume() returns (e: Result)
      requires k.cur in k.threads && k.cur in inlock && inlock[k.cur] in mx
      modifies this
      ensures (MS(), e) == M.MutexLockResume(old(MS()))
    {
      var m := inlock[k.cur];
      waiting := waiting - {k.cur};
      inlock := inlock - {k.cur};
      if k.threads[k.cur].slpret == SLP_INTR {
        return EINTR;
      }
      TakeMutex(m, k.cur);
      return Done;
    }

    /** The waiting branch of mutex_lock. */
    method WaitFor(m: Mid) returns (e: Result)
      requires MInv(MS()) && Inv(k.S()) && Caller(MS()) && Contended(MS(), m) && LockReady(MS(), m)
      modifies this, k
      ensures (MS(), e) == M.MutexLock(old(MS()), m)
    {
      hide MInv, Inv, LockReady, Raised, Inherited, M.PrioInherit, HopsKnown, InheritReady, Follows, Settled;
      ghost var ms := MS();
      var self := k.cur;
      waiting := waiting[self := m];
      InheritStart(ms, m);
      ReadyToSleep(ms, m);
      var dead := PrioInherit(self);
      if dead {
        waiting := waiting - {self};
        return EDEADLK;
      }
      inlock := inlock[self := m];
      k.SchedTsleep(m, false);
      return Blocked;
    }

    /** mutex_lock up to the point where it returns or the thread is switched out. */
    method MutexLock(m: Mid) returns (e: Result)
      requires MInv(MS()) && Inv(k.S()) && Caller(MS()) && LockReady(MS(), m)
      modifies this, k
      ensures (MS(), e) == M.MutexLock(old(MS()), m)
    {
      hide MInv, Inv, LockReady, Raised;
      ghost var ms := MS();
      if m !in mx { return EINVAL; }
      if mx[m].holder == Some(k.cur) {
        mx := mx[m := mx[m].(locks := mx[m].locks + 1)];
        return Done;
      }
      if mx[m].holder == None {
        mx := mx[m := mx[m].(priority := k.threads[k.cur].priority)];
        TakeMutex(m, k.cur);
        return Done;
      }
      e := WaitFor(m);
    }

    /** The mutex passes to the thread that sched_wakeone reports. */
    method HandOver(m: Mid)
      requires m in mx && mx[m].locks == 0 && Known(SleepQ(k.sleepq, m), k.threads)
      modifies this, k
      ensures old(WakeoneResult(k.S(), m).Some? ==> WakeoneResult(k.S(), m).value in k.threads)
      ensures MS() == HandOff(old(MS()), m, old(WakeoneResult(k.S(), m)))
    {
      SleepLast(k.S(), m);
      WakeoneFrame(k.S(), m);
      hide Wakeone;
      var holder := k.SchedWakeone(m);
      mx := mx[m := mx[m].(holder := holder)];
      if holder.Some? {
        waiting := waiting - {holder.value};
      }
      mx := mx[m := mx[m].(priority := if holder.Some? then k.threads[holder.value].priority else MINPRI)];
    }

    method MutexUnlock(m: Mid) returns (e: Result)
      requires MInv(MS()) && Inv(k.S()) && Caller(MS()) && Known(SleepQ(k.sleepq, m), k.threads)
      modifies this, k
      ensures (MS(), e) == M.MutexUnlock(old(MS()), m)
    {
      hide MInv, Inv, Caller, Known, HandOff, Tables, Acyclic;
      ghost var ms := MS();
      MInvInv(ms);
      if m !in mx { return EINVAL; }
      if mx[m].holder != Some(k.cur) || mx[m].locks == 0 { return EPERM; }
      mx := mx[m := mx[m].(locks := mx[m].locks - 1)];
      if mx[m].locks == 0 {
        held := held[k.cur := Remove(HeldBy(held, k.cur), m)];
        HeldKnown(ms, m);
        PrioUninherit(k.cur);
        assert MS() == Release(ms, m);
        ReleaseKnown(ms, m);
        hide Release;
        HandOver(m);
      }
      return Done;
    }

    /** mutex_setpri and then sched_setpri, as thread_schedparam calls them. */
    method SetParam(t: Tid, p: Pri)
      requires MInv(MS()) && t in k.threads && k.cur in k.threads
      requires t in waiting ==> HopsKnown(MS(), Inherited(MS(), t).hops)
      modifies this, k
      ensures MS() == M.SetParam(old(MS()), t, p)
    {
      hide MInv, Inherited, HopsKnown, SetPri;
      var pri := p;
      if k.threads[t].priority != k.threads[t].basepri && pri > k.threads[t].priority {
        pri := k.threads[t].priority;
      }
      if t in waiting && pri < k.threads[t].priority {
        WaiterReady(MS(), t);
        hide InheritReady;
        var _ := PrioInherit(t);
      }
      k.SchedSetpri(t, pri, pri);
    }

    method MutexInit(m: Mid)
      modifies this
      ensures MS() == M.MutexInit(old(MS()), m)
    {
      mx := mx[m := Mutex(None, MINPRI, 0)];
    }

    method MutexDestroy(m: Mid) returns (e: Result)
      modifies this
      ensures (MS(), e) == M.MutexDestroy(old(MS()), m)
    {
      if m !in mx { return EINVAL; }
      if mx[m].holder.Some? || SleepQ(k.sleepq, m) != [] { return EBUSY; }
      mx := mx - {m};
      return Done;
    }
  }

  lemma RaiseNone(ms: MState, w: Tid)
    requires ms.s.cur in ms.s.threads && w in ms.s.threads
    ensures RaiseAll(ms, [], w) == ms
  {
  }

  lemma RaiseOwners(ms: MState, m: Mid, h: Tid, w: Tid)
    requires ms.s.cur in ms.s.threads && h in ms.s.threads && w in ms.s.threads && m in ms.mx
    ensures SameOwners(ms.mx, Raise(ms, m, h, w).mx)
  {
    hide SetPri;
  }

  lemma ReadyToSleep(ms: MState, m: Mid)
    requires Contended(ms, m) && ms.s.cur in ms.s.threads && LockReady(ms, m)
    ensures HopsKnown(Pointed(ms, m), Inherited(Pointed(ms, m), ms.s.cur).hops)
    ensures var s := PrioInherit(Pointed(ms, m), ms.s.cur).s;
      Inv(s) && s.cur in s.threads && s.cur != IDLE && !s.threads[s.cur].exit && s.cur == ms.s.cur
  {
    hide Inherited, Inv, HopsKnown, RaiseAll;
  }

  lemma HeldKnown(ms: MState, m: Mid)
    requires MInv(ms) && m in ms.mx
    ensures forall j :: j in Remove(HeldBy(ms.held, ms.s.cur), m) ==> j in ms.mx
  {
    MInvInv(ms);
    hide MInv, Inv;
    TablesParts(ms, {});
    hide Tables, Waiters, Ranks, Quiets;
    StillKnown(ms.mx, ms.held, ms.s.threads, ms.s.cur, m);
    hide Ownership, Remove;
  }

  lemma StillKnown(mx: map<Mid, Mutex>, held: map<Tid, seq<Mid>>, th: map<Tid, Thread>, t: Tid, m: Mid)
    requires Ownership(mx, held, th)
    ensures forall j :: j in Remove(HeldBy(held, t), m) ==> j in mx
  {
    RemoveFacts(HeldBy(held, t), m);
    hide NoDup, Remove;
  }

  lemma ReleaseKnown(ms: MState, m: Mid)
    requires m in ms.mx && ms.s.cur in ms.s.threads && Known(SleepQ(ms.s.sleepq, m), ms.s.threads)
    ensures var s := Release(ms, m).s;
      s.cur in s.threads && s.sleepq == ms.s.sleepq && Known(SleepQ(s.sleepq, m), s.threads)
  {
    var th := ms.s.threads[ms.s.cur];
    var u := Unheld(ms, m);
    SetPriFrame(u.s, u.s.cur, th.basepri, BestOf(u.mx, HeldBy(u.held, u.s.cur), th.basepri));
    hide SetPri, Repriced, BestOf;
  }
}
