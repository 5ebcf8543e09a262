/** What every scheduler operation keeps: each thread is on the one queue its
    state calls for, and the two caches, `maxpri` and the rescheduling mark,
    agree with the queues. */
module SchedInv {
  import opened Lists
  import opened Sched

  // ----- The invariant -----

  /** A level holds exactly the runnable threads of that priority outside
      `out`, each once. */
  ghost predicate RunqOk(q: RunQ, th: map<Tid, Thread>, out: set<Tid>) {
    && (forall p :: 0 <= p < NPRI ==> NoDup(q[p]))
    && (forall p, t :: 0 <= p < NPRI && t in q[p] ==>
          t in th && t !in out && th[t].Run() && th[t].priority == p)
    && (forall t :: t in th && t !in out && th[t].Run() ==> t in q[th[t].priority])
  }

  ghost predicate WakeqOk(w: seq<Tid>, th: map<Tid, Thread>) {
    NoDup(w) && forall t :: t in w ==> t in th && th[t].sleep
  }

  ghost predicate SleepqOk(m: map<Event, seq<Tid>>, w: seq<Tid>, th: map<Tid, Thread>) {
    && (forall e :: NoDup(SleepQ(m, e)))
    && (forall e, t :: t in SleepQ(m, e) ==>
          t in th && t !in w && th[t].sleep && th[t].slpevt == Some(e))
  }

  /** Every sleeper outside `out` is on the wake queue or on the queue of its event. */
  ghost predicate SleepersOk(m: map<Event, seq<Tid>>, w: seq<Tid>, th: map<Tid, Thread>, out: set<Tid>) {
    forall t :: t in th && t !in out && th[t].sleep ==>
      t in w || (th[t].slpevt.Some? && t in SleepQ(m, th[t].slpevt.value))
  }

  ghost predicate ExitOk(th: map<Tid, Thread>) {
    forall t :: t in th && th[t].exit ==> !th[t].sleep && !th[t].susp
  }

  /** Every thread outside `out` is on the one queue its state calls for, and
      only there. */
  ghost predicate Queues(s: State, out: set<Tid>) {
    && RunqOk(s.runq, s.threads, out)
    && WakeqOk(s.wakeq, s.threads)
    && SleepqOk(s.sleepq, s.wakeq, s.threads)
    && SleepersOk(s.sleepq, s.wakeq, s.threads, out)
    && ExitOk(s.threads)
  }

  /** The two caches: `maxpri` is the best non-empty level, and only the
      current thread can be marked for rescheduling. */
  ghost predicate Caches(s: State) {
    && s.cur in s.threads
    && s.maxpri == Best(s.runq)
    && (forall t :: t in s.threads && t != s.cur ==> !s.threads[t].resched)
  }

  /** The current thread is marked whenever it must give up the processor. */
  ghost predicate Marked(s: State)
    requires s.cur in s.threads
  {
    var c := s.threads[s.cur];
    && (s.maxpri < c.priority ==> c.resched)
    && (c.susp || c.exit ==> c.resched)
  }

  /** The lock count with which a thread can have been switched out. */
  ghost predicate ResumeOk(th: Thread) {
    match th.resume
    case InUnlock => th.locks == 1
    case InSleep => th.locks >= 1
    case Entry => th.locks == 0
  }

  ghost predicate Base(s: State) {
    && Caches(s)
    && IDLE in s.threads && s.threads[IDLE].Run() && s.threads[IDLE].priority == PRI_IDLE
    && (forall t :: t in s.threads && t != s.cur ==> ResumeOk(s.threads[t]))
  }

  /** The running thread is on no run queue, and on a sleep queue only once
      sched_tsleep has put it there. */
  ghost function Off(s: State): set<Tid>
    requires s.cur in s.threads
  {
    if s.threads[s.cur].sleep then {} else {s.cur}
  }

  /** The invariant, also inside sched_tsleep. */
  ghost predicate Midway(s: State) {
    Base(s) && Marked(s) && Queues(s, Off(s)) && s.cur !in s.wakeq
  }

  /** The invariant between kernel operations. */
  ghost predicate Inv(s: State) {
    Base(s) && Marked(s) && Queues(s, {s.cur}) && !s.threads[s.cur].sleep
  }

  lemma InvIsMidway(s: State)
    requires s.cur in s.threads && !s.threads[s.cur].sleep
    ensures Inv(s) <==> Midway(s)
  {
  }

  lemma InitOk(interrupts: seq<seq<Event>>)
    ensures Inv(Init(interrupts))
  {
    var s := Init(interrupts);
    assert forall i :: 0 <= i < NPRI ==> s.runq[i] == [];
  }

  // ----- What linking and unlinking do to the queues -----

  lemma BestEnqueue(q: RunQ, p: Pri, l: seq<Tid>)
    requires l != []
    ensures Best(q[p := l]) == if p < Best(q) then p else Best(q)
  {
    var q1: RunQ := q[p := l];
    assert q1[p] == l;
    assert forall i :: 0 <= i < NPRI && i != p ==> q1[i] == q[i];
  }

  lemma BestShrink(q: RunQ, p: Pri, l: seq<Tid>)
    requires q[p] == [] ==> l == []
    ensures Best(q) <= Best(q[p := l])
  {
    var q1: RunQ := q[p := l];
    assert q1[p] == l;
    assert forall i :: 0 <= i < NPRI && i != p ==> q1[i] == q[i];
  }

  ghost predicate OffQueues(s: State, t: Tid) {
    t !in s.wakeq && forall e :: t !in SleepQ(s.sleepq, e)
  }

  /** Queue membership depends on what a thread waits for and, if it can run,
      on its priority; the record of an unqueued thread does not matter. */
  lemma Unrelated(s: State, out: set<Tid>, t: Tid, th: Thread)
    requires Queues(s, out) && t in s.threads
    requires th.exit ==> !th.sleep && !th.susp
    requires var o := s.threads[t];
      && ((o.sleep ==> th.sleep && th.slpevt == o.slpevt) || OffQueues(s, t))
      && (t in out
          || (th.sleep == o.sleep && th.Run() == o.Run() && (o.Run() ==> th.priority == o.priority)))
    ensures Queues(SetThread(s, t, th), out)
  {
    var m := s.threads[t := th];
    assert RunqOk(s.runq, m, out);
    assert WakeqOk(s.wakeq, m);
    assert SleepqOk(s.sleepq, s.wakeq, m);
    assert SleepersOk(s.sleepq, s.wakeq, m, out);
  }

  lemma LinkOk(q: RunQ, th: map<Tid, Thread>, out: set<Tid>, t: Tid, l: seq<Tid>)
    requires RunqOk(q, th, out) && t in out && t in th && th[t].Run()
    requires var q0 := q[th[t].priority]; l == q0 + [t] || l == [t] + q0
    ensures RunqOk(q[th[t].priority := l], th, out - {t})
  {
    var p := th[t].priority;
    NoDupCons(t, q[p]);
    var r: RunQ := q[p := l];
    assert forall i :: 0 <= i < NPRI && i != p ==> r[i] == q[i];
    assert r[p] == l;
    assert forall x :: x in l <==> x in q[p] || x == t;
  }

  lemma UnlinkLevel(q: RunQ, th: map<Tid, Thread>, out: set<Tid>, t: Tid)
    requires RunqOk(q, th, out) && t in th && t !in out && th[t].Run()
    ensures RunqOk(q[th[t].priority := Remove(q[th[t].priority], t)], th, out + {t})
  {
    var p := th[t].priority;
    RemoveFacts(q[p], t);
    var r: RunQ := q[p := Remove(q[p], t)];
    assert forall i :: 0 <= i < NPRI && i != p ==> r[i] == q[i];
    assert r[p] == Remove(q[p], t);
  }

  lemma EnqueueOk(s: State, out: set<Tid>, t: Tid)
    requires Queues(s, out) && t in out && t in s.threads && s.threads[t].Run() && !s.threads[t].sleep
    requires s.cur in s.threads && s.maxpri == Best(s.runq)
    ensures Queues(RunqEnqueue(s, t), out - {t})
    ensures var r := RunqEnqueue(s, t); r.maxpri == Best(r.runq)
  {
    hide RunqOk, WakeqOk, SleepqOk;
    var p := s.threads[t].priority;
    var q := s.runq[p] + [t];
    BestEnqueue(s.runq, p, q);
    LinkOk(s.runq, s.threads, out, t, q);
    var s1 := s.(runq := s.runq[p := q]);
    assert Queues(s1, out - {t});
    if p < s.maxpri {
      Unrelated(s1.(maxpri := p), out - {t}, s.cur, s.threads[s.cur].(resched := true));
    }
  }

  lemma InsertOk(s: State, out: set<Tid>, t: Tid)
    requires Queues(s, out) && t in out && t in s.threads && s.threads[t].Run()
    requires s.maxpri == Best(s.runq)
    ensures Queues(RunqInsert(s, t), out - {t})
    ensures var r := RunqInsert(s, t); r.maxpri == Best(r.runq)
  {
    hide RunqOk, WakeqOk, SleepqOk;
    var p := s.threads[t].priority;
    BestEnqueue(s.runq, p, [t] + s.runq[p]);
    LinkOk(s.runq, s.threads, out, t, [t] + s.runq[p]);
  }

  lemma RemoveOk(s: State, out: set<Tid>, t: Tid)
    requires Queues(s, out) && t in s.threads && t !in out && s.threads[t].Run()
    ensures Queues(RunqRemove(s, t), out + {t})
    ensures var r := RunqRemove(s, t); r.maxpri == Best(r.runq)
  {
    hide RunqOk, WakeqOk, SleepqOk;
    UnlinkLevel(s.runq, s.threads, out, t);
  }

  lemma DequeueOk(s: State, out: set<Tid>)
    requires Queues(s, out) && s.runq[s.maxpri] != [] && s.maxpri == Best(s.runq)
    ensures var n := s.runq[s.maxpri][0]; n in s.threads && s.threads[n].Run() && n !in out
    ensures Queues(RunqDequeue(s), out + {s.runq[s.maxpri][0]})
    ensures var r := RunqDequeue(s); r.maxpri == Best(r.runq)
  {
    hide WakeqOk, SleepqOk;
    var p := s.maxpri;
    var n := s.runq[p][0];
    assert n in s.runq[p];
    UnlinkLevel(s.runq, s.threads, out, n);
    DequeueBest(s);
  }

  lemma DequeueBest(s: State)
    requires s.runq[s.maxpri] != [] && s.maxpri == Best(s.runq)
    ensures var r := RunqDequeue(s); r.maxpri == Best(r.runq)
  {
    if s.runq[s.maxpri][1..] != [] {
      BestEnqueue(s.runq, s.maxpri, s.runq[s.maxpri][1..]);
    }
  }

  lemma UnlinkOk(s: State, out: set<Tid>, t: Tid)
    requires Queues(s, out) && t in s.threads && t !in out && s.threads[t].sleep
    ensures Queues(Unlink(s, t), out + {t}) && OffQueues(Unlink(s, t), t)
  {
    RunqOut(s.runq, s.threads, out, t);
    hide RunqOk;
    if t in s.wakeq {
      RemoveFacts(s.wakeq, t);
    } else {
      UnlinkSleep(s.sleepq, s.wakeq, s.threads, out, t);
      hide SleepqOk, SleepersOk;
    }
  }

  lemma UnlinkSleep(m: map<Event, seq<Tid>>, w: seq<Tid>, th: map<Tid, Thread>, out: set<Tid>, t: Tid)
    requires SleepqOk(m, w, th) && SleepersOk(m, w, th, out)
    requires t in th && t !in out && th[t].sleep && t !in w
    ensures th[t].slpevt.Some?
    ensures var e := th[t].slpevt.value;
      var m' := m[e := Remove(SleepQ(m, e), t)];
      && SleepqOk(m', w, th) && SleepersOk(m', w, th, out + {t})
      && forall x :: t !in SleepQ(m', x)
  {
    var e := th[t].slpevt.value;
    RemoveFacts(SleepQ(m, e), t);
    var m' := m[e := Remove(SleepQ(m, e), t)];
    forall x ensures SleepQ(m', x) == if x == e then Remove(SleepQ(m, e), t) else SleepQ(m, x)
    {
    }
  }

  lemma RunqOut(q: RunQ, th: map<Tid, Thread>, out: set<Tid>, t: Tid)
    requires RunqOk(q, th, out) && (t in th ==> !th[t].Run())
    ensures RunqOk(q, th, out + {t}) && RunqOk(q, th, out - {t})
  {
  }

  lemma SetrunOk(s: State, out: set<Tid>, t: Tid)
    requires Queues(s, out) && t in s.threads && t in out && s.threads[t].sleep && OffQueues(s, t)
    ensures Queues(Setrun(s, t), out - {t})
  {
    NoDupCons(t, s.wakeq);
    Unrelated(s, out, t, s.threads[t].(timeout := false));
    hide RunqOk;
    RunqOut(s.runq, s.threads[t := s.threads[t].(timeout := false)], out, t);
  }

  /** A thread that is neither runnable nor asleep belongs on no queue. */
  lemma NotRunnable(s: State, out: set<Tid>, t: Tid)
    requires t in s.threads && !s.threads[t].Run() && !s.threads[t].sleep
    requires Queues(s, out)
    ensures Queues(s, out - {t}) && Queues(s, out + {t})
  {
    hide RunqOk, WakeqOk, SleepqOk;
    RunqOut(s.runq, s.threads, out, t);
  }

  // ----- What the caches and marks depend on -----

  lemma BaseFrame(s: State, r: State)
    requires Base(s) && Marked(s)
    requires r.cur == s.cur && r.runq == s.runq && r.maxpri == s.maxpri
    requires r.threads.Keys == s.threads.Keys
    requires forall t :: t in s.threads ==>
      var a, b := s.threads[t], r.threads[t];
      && b.resched == a.resched && b.locks == a.locks && b.resume == a.resume
      && b.priority == a.priority && b.susp == a.susp && b.exit == a.exit && (b.sleep ==> a.sleep)
    ensures Base(r) && Marked(r)
  {
    hide Best;
  }

  /** The record of another thread than the current or idle one is free but
      for these fields. */
  lemma OtherThread(s: State, t: Tid, th: Thread)
    requires Base(s) && Marked(s) && t in s.threads && t != IDLE && t != s.cur
    requires th.resched == s.threads[t].resched && th.locks == s.threads[t].locks
    requires th.resume == s.threads[t].resume
    ensures Base(SetThread(s, t, th)) && Marked(SetThread(s, t, th))
  {
    hide Best;
  }

  lemma EnqueueBase(s: State, t: Tid)
    requires Base(s) && Marked(s) && t in s.threads
    requires var r := RunqEnqueue(s, t); r.maxpri == Best(r.runq)
    ensures var r := RunqEnqueue(s, t); Base(r) && Marked(r)
  {
    hide Best;
  }

  lemma RunqRemoveBase(s: State, t: Tid)
    requires Base(s) && Marked(s) && t in s.threads
    ensures Base(RunqRemove(s, t)) && Marked(RunqRemove(s, t))
  {
    var p := s.threads[t].priority;
    BestShrink(s.runq, p, Remove(s.runq[p], t));
    hide Best;
  }

  /** Changing the current thread's record without putting it to sleep. */
  lemma CurOk(s: State, th: Thread)
    requires Inv(s) && !th.sleep && (th.exit ==> !th.susp)
    requires s.cur == IDLE ==> th.Run() && th.priority == PRI_IDLE
    requires (s.maxpri < th.priority ==> th.resched) && (th.susp || th.exit ==> th.resched)
    ensures Inv(SetThread(s, s.cur, th))
  {
    hide RunqOk, WakeqOk, SleepqOk, SleepersOk, ExitOk, Best;
    Unrelated(s, {s.cur}, s.cur, th);
  }

  // ----- Each operation keeps the invariant -----

  lemma UnsleepOk(s: State, t: Tid, ret: int)
    requires Inv(s) && t in s.threads
    ensures Inv(Unsleep(s, t, ret))
  {
    BaseCaches(s);
    hide Queues, Base, Marked, Unlink;
    if s.threads[t].sleep {
      UnsleepQueues(s, {s.cur}, t, ret);
      UnsleepBase(s, t, ret);
    }
  }

  lemma UnsleepQueues(s: State, out: set<Tid>, t: Tid, ret: int)
    requires Queues(s, out) && t in s.threads && t !in out && s.threads[t].sleep
    ensures Queues(Unsleep(s, t, ret), out)
  {
    hide Queues;
    UnlinkOk(s, out, t);
    var s1 := Unlink(s, t);
    var s2 := SetThread(s1, t, s1.threads[t].(slpret := ret));
    ExitSleep(s1, out + {t}, t);
    Unrelated(s1, out + {t}, t, s2.threads[t]);
    SetrunOk(s2, out + {t}, t);
    assert out + {t} - {t} == out;
  }

  lemma ExitSleep(s: State, out: set<Tid>, t: Tid)
    requires Queues(s, out) && t in s.threads
    ensures s.threads[t].exit ==> !s.threads[t].sleep && !s.threads[t].susp
  {
  }

  lemma UnsleepBase(s: State, t: Tid, ret: int)
    requires Base(s) && Marked(s) && t in s.threads && s.threads[t].sleep
    ensures Base(Unsleep(s, t, ret)) && Marked(Unsleep(s, t, ret))
  {
    hide Base, Marked;
    BaseFrame(s, Unsleep(s, t, ret));
  }

  /** Waking a thread from a sleep queue is the same as cancelling its sleep. */
  lemma AwakenIsUnsleep(s: State, out: set<Tid>, e: Event, t: Tid, ret: int)
    requires Queues(s, out) && t in SleepQ(s.sleepq, e)
    ensures t in s.threads && s.threads[t].sleep && Awaken(s, e, t, ret) == Unsleep(s, t, ret)
  {
    hide RunqOk, SleepersOk;
  }

  lemma AwakenOk(s: State, e: Event, t: Tid, ret: int)
    requires Inv(s) && t in SleepQ(s.sleepq, e)
    ensures t in s.threads && Inv(Awaken(s, e, t, ret))
  {
    AwakenIsUnsleep(s, {s.cur}, e, t, ret);
    UnsleepOk(s, t, ret);
    hide *;
  }

  lemma SleepKnown(s: State, e: Event)
    requires Inv(s)
    ensures Known(SleepQ(s.sleepq, e), s.threads)
  {
    var q := SleepQ(s.sleepq, e);
    forall i | 0 <= i < |q| ensures q[i] in s.threads {
      var t := q[i];
      assert t in q;
    }
  }

  lemma {:induction false} WakeupOk(s: State, e: Event)
    requires Inv(s) && Known(SleepQ(s.sleepq, e), s.threads)
    ensures Inv(Wakeup(s, e))
    decreases |SleepQ(s.sleepq, e)|
  {
    hide Inv;
    var q := SleepQ(s.sleepq, e);
    if q != [] {
      AwakenOk(s, e, q[0], 0);
      SleepKnown(Awaken(s, e, q[0], 0), e);
      WakeupOk(Awaken(s, e, q[0], 0), e);
    }
  }

  lemma FlushUnlink(s: State, out: set<Tid>)
    requires Queues(s, out) && s.wakeq != []
    ensures var t := s.wakeq[0];
      && t in s.threads && s.threads[t].sleep
      && var th := s.threads[t].(slpevt := None, sleep := false);
      && var s1 := SetThread(s.(wakeq := s.wakeq[1..]), t, th);
      && Queues(s1, out + {t})
      && (!th.Run() ==> Queues(s1, out))
  {
    var t := s.wakeq[0];
    assert t in s.wakeq;
    assert s.wakeq == [t] + s.wakeq[1..];
    var s0 := s.(wakeq := s.wakeq[1..]);
    var th := s.threads[t].(slpevt := None, sleep := false);
    RunqOut(s.runq, s.threads, out, t);
    assert RunqOk(s0.runq, s0.threads, out + {t});
    FlushOff(s, t);
    Unrelated(s0, out + {t}, t, th);
    hide RunqOk, WakeqOk, SleepqOk;
    if !th.Run() {
      RunqOut(s.runq, SetThread(s0, t, th).threads, out + {t}, t);
      if t !in out { assert out + {t} - {t} == out; } else { assert out + {t} == out; }
    }
  }

  lemma FlushOff(s: State, t: Tid)
    requires WakeqOk(s.wakeq, s.threads) && SleepqOk(s.sleepq, s.wakeq, s.threads)
    requires s.wakeq != [] && t == s.wakeq[0]
    ensures var s0 := s.(wakeq := s.wakeq[1..]);
      OffQueues(s0, t) && WakeqOk(s0.wakeq, s0.threads) && SleepqOk(s0.sleepq, s0.wakeq, s0.threads)
  {
    assert t in s.wakeq;
    assert s.wakeq == [t] + s.wakeq[1..];
  }

  lemma FlushOneOk(s: State)
    requires Midway(s) && s.wakeq != [] && Known(s.wakeq, s.threads)
    ensures Midway(FlushOne(s))
    ensures FlushOne(s).threads[s.cur].sleep == s.threads[s.cur].sleep
  {
    var t := s.wakeq[0];
    assert t in s.wakeq;
    FlushNotOff(s, t);
    hide Queues, Base, Marked;
    var th := s.threads[t].(slpevt := None, sleep := false);
    var s1 := SetThread(s.(wakeq := s.wakeq[1..]), t, th);
    FlushUnlink(s, Off(s));
    BaseFrame(s, s1);
    if th.Run() {
      FlushRun(s1, Off(s), t);
      hide RunqEnqueue;
    }
  }

  lemma FlushRun(s: State, out: set<Tid>, t: Tid)
    requires Base(s) && Marked(s) && Queues(s, out + {t}) && t in s.threads && s.threads[t].Run() && t !in out
    ensures var r := RunqEnqueue(s, t); Base(r) && Marked(r) && Queues(r, out)
    ensures var r := RunqEnqueue(s, t);
      r.cur == s.cur && r.wakeq == s.wakeq && r.threads[s.cur].sleep == s.threads[s.cur].sleep
  {
    BaseCaches(s);
    hide Queues, Base, Marked;
    EnqueueOk(s, out + {t}, t);
    EnqueueBase(s, t);
    assert out + {t} - {t} == out;
  }

  lemma BaseCaches(s: State)
    requires Base(s)
    ensures s.maxpri == Best(s.runq) && s.cur in s.threads
  {
  }

  lemma FlushNotOff(s: State, t: Tid)
    requires Midway(s) && t in s.wakeq
    ensures t !in Off(s) && t != s.cur
  {
  }

  lemma WakeqKnown(s: State)
    requires Midway(s)
    ensures Known(s.wakeq, s.threads)
  {
    forall i | 0 <= i < |s.wakeq| ensures s.wakeq[i] in s.threads {
      var t := s.wakeq[i];
      assert t in s.wakeq;
    }
  }

  lemma {:induction false} FlushOk(s: State)
    requires Midway(s) && Known(s.wakeq, s.threads)
    ensures Midway(Flush(s))
    ensures Flush(s).threads[s.cur].sleep == s.threads[s.cur].sleep
    decreases |s.wakeq|
  {
    if s.wakeq != [] {
      assert s.cur in s.threads;
      hide Midway, FlushOne;
      FlushOneOk(s);
      WakeqKnown(FlushOne(s));
      FlushOk(FlushOne(s));
    }
  }

  lemma SuspendReady(s: State, out: set<Tid>, t: Tid)
    requires Queues(s, out) && t in s.threads && t !in out && s.threads[t].Run()
    ensures var s1 := RunqRemove(s, t);
      Queues(SetThread(s1, t, s1.threads[t].(susp := true)), out)
  {
    hide Queues;
    RemoveOk(s, out, t);
    var s1 := RunqRemove(s, t);
    var r := SetThread(s1, t, s1.threads[t].(susp := true));
    Unrelated(s1, out + {t}, t, r.threads[t]);
    NotRunnable(r, out + {t}, t);
    assert out + {t} - {t} == out;
  }

  lemma SuspendOk(s: State, t: Tid)
    requires Inv(s) && t in s.threads && t != IDLE && !s.threads[t].exit
    ensures Inv(Suspend(s, t))
  {
    hide Queues;
    if t == s.cur {
      CurOk(s, Suspend(s, t).threads[t]);
      assert Suspend(s, t) == SetThread(s, t, Suspend(s, t).threads[t]);
    } else if s.threads[t].Run() {
      hide Base, Marked;
      SuspendReady(s, {s.cur}, t);
      RunqRemoveBase(s, t);
      OtherThread(RunqRemove(s, t), t, s.threads[t].(susp := true));
    } else {
      hide Base, Marked;
      Unrelated(s, {s.cur}, t, s.threads[t].(susp := true));
      OtherThread(s, t, s.threads[t].(susp := true));
    }
  }

  lemma ResumeReady(s: State, out: set<Tid>, t: Tid)
    requires Queues(s, out) && t in s.threads && t !in out && !s.threads[t].Run() && !s.threads[t].sleep
    requires s.cur in s.threads && s.maxpri == Best(s.runq)
    ensures var s1 := SetThread(s, t, s.threads[t].(susp := false));
      s1.threads[t].Run() ==>
        Queues(RunqEnqueue(s1, t), out) && var r := RunqEnqueue(s1, t); r.maxpri == Best(r.runq)
  {
    var s1 := SetThread(s, t, s.threads[t].(susp := false));
    if s1.threads[t].Run() {
      hide Queues;
      NotRunnable(s, out, t);
      Unrelated(s, out + {t}, t, s1.threads[t]);
      EnqueueOk(s1, out + {t}, t);
      assert out + {t} - {t} == out;
    }
  }

  lemma ResumeThreadOk(s: State, t: Tid)
    requires Inv(s) && t in s.threads && t != s.cur && t != IDLE
    ensures Inv(ResumeThread(s, t))
  {
    BaseCaches(s);
    ExitSleep(s, {s.cur}, t);
    hide Queues, Base, Marked;
    if s.threads[t].susp {
      var s1 := SetThread(s, t, s.threads[t].(susp := false));
      OtherThread(s, t, s1.threads[t]);
      if s1.threads[t].Run() {
        ResumeReady(s, {s.cur}, t);
        EnqueueBase(s1, t);
      } else {
        Unrelated(s, {s.cur}, t, s1.threads[t]);
      }
    }
  }

  /** sched_setpri on a ready thread moves it to the tail of its new level. */
  function Requeued(s: State, t: Tid, pri: Pri): State
    requires t in s.threads && s.cur in s.threads
  {
    var s1 := RunqRemove(s, t);
    RunqEnqueue(SetThread(s1, t, s1.threads[t].(priority := pri)), t)
  }

  lemma RequeuedQueues(s: State, out: set<Tid>, t: Tid, pri: Pri)
    requires Queues(s, out) && t in s.threads && t !in out && s.threads[t].Run() && s.cur in s.threads
    ensures Queues(Requeued(s, t, pri), out)
    ensures var r := Requeued(s, t, pri); r.maxpri == Best(r.runq)
  {
    hide Queues;
    RemoveOk(s, out, t);
    var s1 := RunqRemove(s, t);
    var s2 := SetThread(s1, t, s1.threads[t].(priority := pri));
    Unrelated(s1, out + {t}, t, s2.threads[t]);
    EnqueueOk(s2, out + {t}, t);
    assert out + {t} - {t} == out;
  }

  lemma RequeuedBase(s: State, t: Tid, pri: Pri)
    requires Base(s) && Marked(s) && t in s.threads && t != s.cur && t != IDLE
    requires var r := Requeued(s, t, pri); r.maxpri == Best(r.runq)
    ensures var r := Requeued(s, t, pri); Base(r) && Marked(r)
    ensures var r := Requeued(s, t, pri);
      r.cur == s.cur && r.threads[s.cur].sleep == s.threads[s.cur].sleep
  {
    hide Base, Marked;
    RunqRemoveBase(s, t);
    var s1 := RunqRemove(s, t);
    OtherThread(s1, t, s1.threads[t].(priority := pri));
    EnqueueBase(SetThread(s1, t, s1.threads[t].(priority := pri)), t);
  }

  lemma SetPriOk(s: State, t: Tid, basepri: Pri, pri: Pri)
    requires Inv(s) && t in s.threads && t != IDLE
    ensures Inv(SetPri(s, t, basepri, pri))
  {
    ExitSleep(s, {s.cur}, t);
    BaseCaches(s);
    hide Queues;
    if t == s.cur {
      CurOk(s, SetPri(s, t, basepri, pri).threads[t]);
      assert SetPri(s, t, basepri, pri) == SetThread(s, t, SetPri(s, t, basepri, pri).threads[t]);
    } else {
      SetPriOther(s, t, basepri, pri);
    }
  }

  lemma SetPriOther(s: State, t: Tid, basepri: Pri, pri: Pri)
    requires s.cur in s.threads && t in s.threads && t != s.cur && t != IDLE
    requires Base(s) && Marked(s) && Queues(s, {s.cur})
    requires s.threads[t].exit ==> !s.threads[t].sleep && !s.threads[t].susp
    ensures var r := SetPri(s, t, basepri, pri);
      && Base(r) && Marked(r) && Queues(r, {s.cur}) && r.cur == s.cur
      && r.threads[s.cur].sleep == s.threads[s.cur].sleep
  {
    hide Queues, Base, Marked;
    var th := s.threads[t].(basepri := basepri);
    var s0 := SetThread(s, t, th);
    Unrelated(s, {s.cur}, t, th);
    OtherThread(s, t, th);
    if th.Run() {
      RequeuedQueues(s0, {s.cur}, t, pri);
      RequeuedBase(s0, t, pri);
      hide RunqRemove, RunqEnqueue;
    } else {
      Unrelated(s0, {s.cur}, t, th.(priority := pri));
      OtherThread(s0, t, th.(priority := pri));
    }
  }

  /** The part of sched_stop that takes another thread off its queue. */
  function OffQueue(s: State, t: Tid): State
    requires t in s.threads
  {
    if s.threads[t].Run() then RunqRemove(s, t) else if s.threads[t].sleep then Unlink(s, t) else s
  }

  lemma OffQueueOk(s: State, out: set<Tid>, t: Tid)
    requires Queues(s, out) && t in s.threads && t !in out && Base(s) && Marked(s)
    ensures var r := OffQueue(s, t);
      && Queues(r, out + {t}) && Base(r) && Marked(r) && r.threads == s.threads && r.cur == s.cur
      && (s.threads[t].sleep ==> OffQueues(r, t))
  {
    hide Queues, Base, Marked;
    if s.threads[t].Run() {
      RemoveOk(s, out, t);
      RunqRemoveBase(s, t);
    } else if s.threads[t].sleep {
      UnlinkOk(s, out, t);
      BaseFrame(s, Unlink(s, t));
    } else {
      NotRunnable(s, out, t);
    }
  }

  lemma StopOk(s: State, t: Tid)
    requires Inv(s) && t in s.threads && t != IDLE && !s.threads[t].exit
    ensures Inv(Stop(s, t))
  {
    if t == s.cur {
      hide Queues;
      CurOk(s, Stop(s, t).threads[t]);
      assert Stop(s, t) == SetThread(s, t, Stop(s, t).threads[t]);
    } else {
      hide Queues, Base, Marked;
      OffQueueOk(s, {s.cur}, t);
      var s1 := OffQueue(s, t);
      var r := Stop(s, t);
      assert r == SetThread(s1, t, r.threads[t]);
      hide Unlink, RunqRemove, OffQueue, Stop;
      Unrelated(s1, {s.cur} + {t}, t, r.threads[t]);
      NotRunnable(r, {s.cur} + {t}, t);
      assert {s.cur} + {t} - {t} == {s.cur};
      OtherThread(s1, t, r.threads[t]);
    }
  }

  lemma CreateOk(s: State, t: Tid, pri: Pri, policy: Policy)
    requires Inv(s) && t !in s.threads
    ensures Inv(Create(s, t, pri, policy))
  {
    hide Best;
    var r := Create(s, t, pri, policy);
    CreateQueues(s, t, pri, policy);
    hide Queues;
  }

  lemma CreateQueues(s: State, t: Tid, pri: Pri, policy: Policy)
    requires Queues(s, {s.cur}) && t !in s.threads
    ensures Queues(Create(s, t, pri, policy), {s.cur})
  {
    var r := Create(s, t, pri, policy);
    assert RunqOk(r.runq, r.threads, {s.cur});
    assert SleepqOk(r.sleepq, r.wakeq, r.threads);
    assert SleepersOk(r.sleepq, r.wakeq, r.threads, {s.cur});
  }

  lemma TickOk(s: State)
    requires Inv(s)
    ensures Inv(Tick(s))
  {
    hide Queues, Best;
    var c := s.threads[s.cur];
    if !c.exit && c.policy == RoundRobin {
      CurOk(s, Tick(s).threads[s.cur]);
    }
  }

  lemma YieldOk(s: State)
    requires Inv(s)
    ensures Inv(Yield(s))
  {
    CurOk(s, Yield(s).threads[s.cur]);
  }

  lemma LockOk(s: State)
    requires Inv(s)
    ensures Inv(Lock(s))
  {
    CurOk(s, Lock(s).threads[s.cur]);
  }

  lemma DropLockOk(s: State)
    requires Inv(s) && s.threads[s.cur].locks > 0
    ensures Inv(DropLock(s))
  {
    CurOk(s, DropLock(s).threads[s.cur]);
  }

  lemma WakeoneOk(s: State, e: Event)
    requires Inv(s) && Known(SleepQ(s.sleepq, e), s.threads)
    ensures Inv(Wakeone(s, e))
  {
    var q := SleepQ(s.sleepq, e);
    hide Inv;
    if q != [] {
      AwakenOk(s, e, Top(s.threads, q), 0);
    }
  }

  /** sched_setpri changes nothing but the two priorities, the place in the run
      queue, `maxpri` and the current thread's mark. */
  lemma SetPriFrame(s: State, t: Tid, basepri: Pri, pri: Pri)
    requires t in s.threads && s.cur in s.threads
    ensures var r := SetPri(s, t, basepri, pri);
      && r.cur == s.cur && r.threads.Keys == s.threads.Keys
      && r.sleepq == s.sleepq && r.wakeq == s.wakeq && r.pending == s.pending
      && (forall x :: x in s.threads ==> Repriced(s.threads[x], r.threads[x], x == t, basepri, pri))
  {
    hide Best;
  }

  predicate Repriced(a: Thread, b: Thread, me: bool, basepri: Pri, pri: Pri) {
    && b == a.(resched := b.resched, priority := b.priority, basepri := b.basepri)
    && b.priority == (if me then pri else a.priority)
    && b.basepri == (if me then basepri else a.basepri)
  }
}
