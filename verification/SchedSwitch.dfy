/** Switching threads: sched_swtch, and the operations of sched.c that call it. */
module SchedSwitch {
  import opened Lists
  import opened Sched
  import opened SchedInv

  // ----- sched_swtch -----

  lemma RequeueQueues(s: State, at: Resume)
    requires s.cur in s.threads && s.maxpri == Best(s.runq) && Queues(s, Off(s))
    ensures var r := Requeue(s, at); Queues(r, {}) && r.maxpri == Best(r.runq)
  {
    hide Queues;
    var out := Off(s);
    ExitSleep(s, out, s.cur);
    var th := s.threads[s.cur].(resume := at);
    Unrelated(s, out, s.cur, th);
    var s0 := SetThread(s, s.cur, th);
    assert out - {s.cur} == {};
    var s1 := s0;
    if th.Run() && th.priority > s.maxpri {
      InsertOk(s0, out, s.cur);
      s1 := RunqInsert(s0, s.cur);
    } else if th.Run() {
      EnqueueOk(s0, out, s.cur);
      s1 := RunqEnqueue(s0, s.cur);
    } else if !th.sleep {
      NotRunnable(s0, out, s.cur);
    }
    Unrelated(s1, {}, s.cur, s1.threads[s.cur].(resched := false));
  }

  lemma RequeueThreads(s: State, at: Resume)
    requires s.cur in s.threads
    ensures var r := Requeue(s, at);
      && r.threads == s.threads[s.cur := s.threads[s.cur].(resume := at, resched := false)]
      && r.wakeq == s.wakeq && r.sleepq == s.sleepq && r.pending == s.pending && r.cur == s.cur
  {
  }

  lemma RequeueNonEmpty(s: State, r: State)
    requires RunqOk(r.runq, r.threads, {}) && r.maxpri == Best(r.runq)
    requires IDLE in r.threads && r.threads[IDLE].Run() && r.threads[IDLE].priority == PRI_IDLE
    ensures r.runq[r.maxpri] != []
  {
    assert IDLE in r.runq[PRI_IDLE];
  }

  lemma RequeueOk(s: State, at: Resume)
    requires Base(s) && Queues(s, Off(s))
    ensures var r := Requeue(s, at);
      && Queues(r, {}) && Caches(r) && r.runq[r.maxpri] != []
  {
    RequeueThreads(s, at);
    RequeueQueues(s, at);
    hide RunqOk, WakeqOk, SleepqOk, SleepersOk, Requeue;
    RequeueNonEmpty(s, Requeue(s, at));
  }

  /** The lock count is the one with which `at` lets a thread be switched out. */
  ghost predicate SwtchReady(s: State, at: Resume) {
    && Base(s)
    && Queues(s, Off(s))
    && ResumeOk(s.threads[s.cur].(resume := at))
  }

  lemma SwtchBest(s: State)
    requires s.runq[s.maxpri] != [] && s.maxpri == Best(s.runq)
    ensures s.maxpri <= Best(s.runq[s.maxpri := s.runq[s.maxpri][1..]])
  {
    BestShrink(s.runq, s.maxpri, s.runq[s.maxpri][1..]);
  }

  lemma SwtchBase(s: State, at: Resume)
    requires Base(s) && ResumeOk(s.threads[s.cur].(resume := at))
    requires var s1 := Requeue(s, at);
      && s1.runq[s1.maxpri] != [] && Caches(s1) && RunqOk(s1.runq, s1.threads, {})
      && var a := RunqDequeue(s1); a.maxpri == Best(a.runq)
    ensures var r := Swtch(s, at);
      && Base(r) && Marked(r) && r.threads[r.cur].Run()
      && !r.threads[r.cur].resched && ResumeOk(r.threads[r.cur])
  {
    RequeueThreads(s, at);
    hide Requeue, Best;
    var s1 := Requeue(s, at);
    var n := s1.runq[s1.maxpri][0];
    assert n in s1.runq[s1.maxpri];
    SwtchBest(s1);
  }

  lemma SwtchFrame(s: State, at: Resume)
    requires s.cur in s.threads
    requires var s1 := Requeue(s, at); s1.runq[s1.maxpri] != []
    ensures var r := Swtch(s, at);
      && r.wakeq == s.wakeq && r.pending == s.pending && r.sleepq == s.sleepq
      && Kept(s.threads, r.threads)
  {
    RequeueThreads(s, at);
    hide Requeue, Best;
  }

  lemma SwtchQueues(s: State, at: Resume)
    requires s.cur in s.threads
    requires var s1 := Requeue(s, at);
      && s1.runq[s1.maxpri] != []
      && Queues(RunqDequeue(s1), {} + {s1.runq[s1.maxpri][0]})
    ensures var r := Swtch(s, at); Queues(r, {r.cur})
  {
    hide Requeue, RunqOk, WakeqOk, SleepqOk, SleepersOk;
    var s1 := Requeue(s, at);
    assert {} + {s1.runq[s1.maxpri][0]} == {Swtch(s, at).cur};
  }

  /** sched_swtch never finds an empty queue, and ends with the invariant
      restored and the current thread unmarked. */
  lemma SwtchOk(s: State, at: Resume)
    requires SwtchReady(s, at)
    ensures var s1 := Requeue(s, at); s1.runq[s1.maxpri] != []
    ensures var r := Swtch(s, at);
      && Inv(r) && !r.threads[r.cur].resched && ResumeOk(r.threads[r.cur])
      && r.wakeq == s.wakeq && r.pending == s.pending && r.sleepq == s.sleepq
      && Kept(s.threads, r.threads)
  {
    RequeueOk(s, at);
    hide RunqOk, WakeqOk, SleepqOk, SleepersOk, Requeue, Swtch, Best, Marked;
    DequeueOk(Requeue(s, at), {});
    SwtchBase(s, at);
    SwtchQueues(s, at);
    SwtchFrame(s, at);
  }

  /** No wake-up is deferred and the current thread need not give up the processor. */
  ghost predicate Settled(s: State) {
    Inv(s) && s.wakeq == [] && !s.threads[s.cur].resched
  }

  /** Nobody has gone to sleep. */
  ghost predicate Fewer(m: map<Event, seq<Tid>>, r: map<Event, seq<Tid>>) {
    forall e, t :: t in SleepQ(r, e) ==> t in SleepQ(m, e)
  }

  /** What every thread switch leaves alone; sleepers are only lost, and only by
      events that a coming interrupt wakes. */
  ghost predicate Follows(s: State, r: State) {
    && Kept(s.threads, r.threads) && Fewer(s.sleepq, r.sleepq)
    && forall e :: Quiet(s.pending, e) ==>
         Quiet(r.pending, e) && SleepQ(r.sleepq, e) == SleepQ(s.sleepq, e)
  }

  lemma FollowsTrans(a: State, b: State, c: State)
    requires Follows(a, b) && Follows(b, c)
    ensures Follows(a, c)
  {
  }

  lemma FollowsSame(a: State, b: State)
    requires Kept(a.threads, b.threads) && b.pending == a.pending && b.sleepq == a.sleepq
    ensures Follows(a, b)
  {
    hide Kept;
  }

  lemma KeptTrans(a: map<Tid, Thread>, b: map<Tid, Thread>, c: map<Tid, Thread>)
    requires Kept(a, b) && Kept(b, c)
    ensures Kept(a, c)
  {
  }

  lemma KeptRefl(a: map<Tid, Thread>)
    ensures Kept(a, a)
  {
  }

  lemma KeptLock(s: State)
    requires s.cur in s.threads
    ensures Kept(s.threads, Lock(s).threads)
    ensures s.threads[s.cur].locks > 0 ==> Kept(s.threads, DropLock(s).threads)
  {
  }

  lemma InvReady(s: State)
    requires Inv(s)
    ensures s.cur in s.threads && !s.threads[s.cur].sleep
    ensures s.threads[s.cur].locks == 1 ==> SwtchReady(s, InUnlock)
  {
    hide RunqOk, WakeqOk, SleepqOk, SleepersOk, Best;
  }

  /** sched_swtch, wrapped with what it guarantees. */
  ghost function SwitchAway(s: State, at: Resume): (r: State)
    requires SwtchReady(s, at)
    ensures Inv(r) && r.wakeq == s.wakeq && r.cur in r.threads && ResumeOk(r.threads[r.cur])
    ensures Follows(s, r) && r.pending == s.pending
    ensures s.wakeq == [] ==> Settled(r)
  {
    SwtchOk(s, at);
    InvReady(Swtch(s, at));
    hide Inv, SwtchReady, Kept, ResumeOk;
    FollowsSame(s, Swtch(s, at));
    hide Follows;
    Swtch(s, at)
  }

  // ----- Interrupts -----

  /** Interrupt handlers waking the listed events while the scheduler is locked. */
  ghost function Isr(s: State, es: seq<Event>): (r: State)
    requires Inv(s)
    ensures Inv(r) && r.cur == s.cur && r.pending == s.pending
    ensures Kept(s.threads, r.threads) && s.cur in s.threads && s.cur in r.threads
    ensures r.threads[r.cur].locks == s.threads[s.cur].locks
    ensures Fewer(s.sleepq, r.sleepq)
    ensures forall x :: x !in es ==> SleepQ(r.sleepq, x) == SleepQ(s.sleepq, x)
    decreases |es|
  {
    InvReady(s);
    hide Inv, Kept;
    if es == [] then KeptRefl(s.threads); s
    else
      SleepKnown(s, es[0]);
      WakeupOk(s, es[0]);
      hide Wakeup;
      var s1 := Wakeup(s, es[0]);
      var r := Isr(s1, es[1..]);
      KeptTrans(s.threads, s1.threads, r.threads);
      r
  }

  lemma PendingOk(s: State, p: seq<seq<Event>>)
    requires Inv(s)
    ensures Inv(s.(pending := p))
  {
    hide RunqOk, WakeqOk, SleepqOk, SleepersOk, Best;
    var r := s.(pending := p);
    assert Base(r) && Marked(r);
    assert Queues(r, {r.cur});
  }

  ghost function FlushAll(s: State): (r: State)
    requires Midway(s)
    ensures Midway(r) && r.cur == s.cur && Follows(s, r)
    ensures r.wakeq == [] && r.sleepq == s.sleepq && r.pending == s.pending
    ensures s.cur in s.threads && s.cur in r.threads
    ensures r.threads[r.cur].locks == s.threads[s.cur].locks
    ensures r.threads[r.cur].sleep == s.threads[s.cur].sleep
    ensures s.wakeq == [] ==> r == s
  {
    assert s.cur in s.threads;
    WakeqKnown(s);
    hide Midway, Kept;
    FlushOk(s);
    FollowsSame(s, Flush(s));
    hide Follows;
    Flush(s)
  }

  lemma WindowQuiet(s: State, s1: State, r: State)
    requires s.pending != [] && r.pending == s.pending[1..] && r.sleepq == s1.sleepq
    requires forall x :: x !in s.pending[0] ==> SleepQ(s1.sleepq, x) == SleepQ(s.sleepq, x)
    requires Kept(s.threads, s1.threads) && Kept(s1.threads, r.threads) && Fewer(s.sleepq, s1.sleepq)
    ensures Follows(s, r)
  {
    KeptTrans(s.threads, s1.threads, r.threads);
    hide Kept;
  }

  lemma FollowsKept(s: State, r: State)
    requires Follows(s, r)
    ensures Kept(s.threads, r.threads)
  {
  }

  /** Interrupts are taken between two rounds of the loop, and their wake-ups flushed. */
  ghost function Window(s: State): (r: State)
    requires Inv(s) && s.pending != []
    ensures Inv(r) && r.wakeq == [] && Follows(s, r) && r.cur == s.cur
    ensures s.cur in s.threads && s.cur in r.threads
    ensures r.threads[r.cur].locks == s.threads[s.cur].locks && r.pending == s.pending[1..]
  {
    InvReady(s);
    PendingOk(s, s.pending[1..]);
    var s1 := Isr(s.(pending := s.pending[1..]), s.pending[0]);
    InvReady(s1);
    InvIsMidway(s1);
    hide Isr, Inv, Midway, Kept, Follows;
    var r := FlushAll(s1);
    InvIsMidway(r);
    FollowsKept(s1, r);
    WindowQuiet(s, s1, r);
    r
  }

  // ----- sched_unlock and sched_tsleep -----

  lemma DropFollows(s: State)
    requires Inv(s) && s.cur in s.threads && s.threads[s.cur].locks > 0
    ensures Inv(DropLock(s)) && Follows(s, DropLock(s))
    ensures Settled(s) ==> Settled(DropLock(s))
  {
    DropLockOk(s);
    KeptLock(s);
    FollowsSame(s, DropLock(s));
    hide Inv, Follows;
  }

  /** The loop of sched_unlock as the processor runs it: a switch goes on in the
      code where the next thread was switched out. */
  ghost function UnlockLoop(s: State): (r: State)
    requires Inv(s) && s.wakeq == [] && s.cur in s.threads && s.threads[s.cur].locks == 1
    ensures Settled(r) && Follows(s, r)
    decreases |s.pending|, 1
  {
    InvReady(s);
    hide Inv, Follows, SwtchReady, ResumeOk, Kept;
    if !s.threads[s.cur].resched then DropFollows(s); DropLock(s)
    else
      var n := SwitchAway(s, InUnlock);
      var r := Resumed(n);
      FollowsTrans(s, n, r);
      r
  }

  /** What runs after sched_swtch, in the context of the thread switched to. */
  ghost function Resumed(s: State): (r: State)
    requires Settled(s) && s.cur in s.threads && ResumeOk(s.threads[s.cur])
    ensures Settled(r) && Follows(s, r)
    decreases |s.pending|, 0
  {
    hide Inv, Follows, Kept;
    match s.threads[s.cur].resume
    case Entry => KeptRefl(s.threads); FollowsSame(s, s); s
    case InSleep => DropFollows(s); DropLock(s)
    case InUnlock =>
      if s.pending == [] then DropFollows(s); DropLock(s)
      else
        var r := UnlockLoop(Window(s));
        FollowsTrans(s, Window(s), r);
        r
  }

  /** The loop of sched_unlock after one switch. */
  lemma UnlockLoopStep(s: State)
    requires Inv(s) && s.wakeq == [] && s.cur in s.threads && s.threads[s.cur].locks == 1
    requires s.threads[s.cur].resched
    ensures SwtchReady(s, InUnlock)
    ensures var n := SwitchAway(s, InUnlock);
      && UnlockLoop(s) == Resumed(n)
      && (n.threads[n.cur].resume == InUnlock ==>
            UnlockLoop(s) == UnlockLoop(if n.pending == [] then n else Window(n)))
  {
    InvReady(s);
    hide Inv, SwtchReady, Follows, Kept, SwitchAway, Window;
  }

  ghost function Unlock(s: State): (r: State)
    requires Inv(s) && s.cur in s.threads && s.threads[s.cur].locks > 0
    ensures Inv(r) && Follows(s, r)
    ensures s.threads[s.cur].locks == 1 ==> Settled(r)
    ensures s.threads[s.cur].locks > 1 ==> r == DropLock(s)
  {
    InvReady(s);
    InvIsMidway(s);
    hide Inv, Follows, Midway, Kept;
    if s.threads[s.cur].locks == 1 then
      InvIsMidway(FlushAll(s));
      var r := UnlockLoop(FlushAll(s));
      FollowsTrans(s, FlushAll(s), r);
      r
    else DropFollows(s); DropLock(s)
  }

  lemma SleepEnqueueOk(s: State, e: Event, timed: bool)
    requires Inv(s) && s.cur != IDLE && !s.threads[s.cur].exit
    ensures var r := SleepEnqueue(s, e, timed); Midway(r) && r.threads[r.cur].sleep
    ensures Kept(s.threads, SleepEnqueue(s, e, timed).threads)
  {
    var r := SleepEnqueue(s, e, timed);
    var th := r.threads[s.cur];
    Unrelated(s, {s.cur}, s.cur, th);
    SleepLink(SetThread(s, s.cur, th), e);
    hide RunqOk, SleepqOk, SleepersOk, Best;
  }

  lemma SleepLink(s: State, e: Event)
    requires Queues(s, {s.cur}) && s.cur in s.threads && s.threads[s.cur].sleep && OffQueues(s, s.cur)
    requires s.threads[s.cur].slpevt == Some(e)
    ensures Queues(s.(sleepq := s.sleepq[e := SleepQ(s.sleepq, e) + [s.cur]]), {})
  {
    SleepLinkQueue(s.sleepq, s.wakeq, s.threads, s.cur, e);
    RunqOut(s.runq, s.threads, {s.cur}, s.cur);
    assert {s.cur} - {s.cur} == {};
    hide RunqOk, SleepqOk, SleepersOk;
  }

  lemma SleepLinkQueue(m: map<Event, seq<Tid>>, w: seq<Tid>, th: map<Tid, Thread>, t: Tid, e: Event)
    requires SleepqOk(m, w, th) && SleepersOk(m, w, th, {t})
    requires t in th && th[t].sleep && th[t].slpevt == Some(e) && t !in w && t !in SleepQ(m, e)
    ensures var m' := m[e := SleepQ(m, e) + [t]]; SleepqOk(m', w, th) && SleepersOk(m', w, th, {})
  {
    NoDupCons(t, SleepQ(m, e));
    var m' := m[e := SleepQ(m, e) + [t]];
    forall x ensures SleepQ(m', x) == if x == e then SleepQ(m, e) + [t] else SleepQ(m, x)
    {
    }
  }

  /** sched_tsleep up to the flush. */
  ghost function QueueSelf(s: State, e: Event, timed: bool): (r: State)
    requires Inv(s) && s.cur != IDLE && s.cur in s.threads && !s.threads[s.cur].exit
    ensures Midway(r) && r.cur == s.cur && r.cur in r.threads
    ensures r.threads[r.cur].sleep && r.threads[r.cur].locks >= 1
    ensures Kept(s.threads, r.threads)
    ensures r.pending == s.pending && r.sleepq == s.sleepq[e := SleepQ(s.sleepq, e) + [s.cur]]
  {
    InvReady(s);
    LockOk(s);
    KeptLock(s);
    hide Inv, Midway, Kept;
    SleepEnqueueOk(Lock(s), e, timed);
    KeptTrans(s.threads, Lock(s).threads, SleepEnqueue(Lock(s), e, timed).threads);
    SleepEnqueue(Lock(s), e, timed)
  }

  lemma MidwayReady(s: State)
    requires Midway(s) && s.threads[s.cur].locks >= 1
    ensures SwtchReady(s, InSleep)
  {
    hide RunqOk, WakeqOk, SleepqOk, SleepersOk, Best;
  }

  /** sched_tsleep up to the switch. */
  ghost function GoToSleep(s: State, e: Event, timed: bool): (r: State)
    requires Inv(s) && s.cur != IDLE && s.cur in s.threads && !s.threads[s.cur].exit
    ensures SwtchReady(r, InSleep) && r.wakeq == []
    ensures Follows(s.(sleepq := s.sleepq[e := SleepQ(s.sleepq, e) + [s.cur]]), r)
  {
    hide Midway, Inv, SwtchReady, Follows, Kept;
    var s1 := QueueSelf(s, e, timed);
    var r := FlushAll(s1);
    MidwayReady(r);
    FollowsSame(s.(sleepq := s1.sleepq), s1);
    FollowsTrans(s.(sleepq := s1.sleepq), s1, r);
    r
  }

  ghost function Tsleep(s: State, e: Event, timed: bool): (r: State)
    requires Inv(s) && s.cur != IDLE && s.cur in s.threads && !s.threads[s.cur].exit
    ensures Settled(r)
    ensures Follows(s.(sleepq := s.sleepq[e := SleepQ(s.sleepq, e) + [s.cur]]), r)
  {
    hide SwtchReady, Inv, Follows, Kept, ResumeOk;
    var a := s.(sleepq := s.sleepq[e := SleepQ(s.sleepq, e) + [s.cur]]);
    var s1 := GoToSleep(s, e, timed);
    var n := SwitchAway(s1, InSleep);
    var r := Resumed(n);
    FollowsTrans(a, s1, n);
    FollowsTrans(a, n, r);
    r
  }
}
