/** What the scheduler's operations do to threads and queues, said of the states
    before and after alone: who moves where, in which order, and who is marked. */
module SchedExact {
  import opened Lists
  import opened Sched
  import opened SchedInv
  import opened SchedSwitch
  import opened SchedRuns

  // ----- Waking -----

  /** A sleeper with a result, its timer stopped. */
  function Woken(th: Thread, ret: int): Thread {
    th.(slpret := ret, timeout := false)
  }

  /** Queues and threads other than those named here are as before. */
  ghost predicate OnlySleepers(s: State, r: State, e: Event) {
    && r == s.(threads := r.threads, wakeq := r.wakeq, sleepq := r.sleepq) && r.threads.Keys == s.threads.Keys
    && forall x :: x != e ==> SleepQ(r.sleepq, x) == SleepQ(s.sleepq, x)
  }

  /** The threads of `q`, and only they, have been woken. */
  ghost predicate WokenBy(a: map<Tid, Thread>, b: map<Tid, Thread>, q: seq<Tid>) {
    b.Keys == a.Keys && forall t :: t in a ==> b[t] == if t in q then Woken(a[t], 0) else a[t]
  }

  lemma SleepersTrans(a: State, b: State, c: State, e: Event)
    requires OnlySleepers(a, b, e) && OnlySleepers(b, c, e)
    ensures OnlySleepers(a, c, e)
  {
  }

  lemma WokenCons(a: map<Tid, Thread>, b: map<Tid, Thread>, c: map<Tid, Thread>, t: Tid, q: seq<Tid>)
    requires t in a && b == a[t := Woken(a[t], 0)] && WokenBy(b, c, q)
    ensures WokenBy(a, c, [t] + q)
  {
  }

  lemma AwakenExact(s: State, e: Event)
    requires Known(SleepQ(s.sleepq, e), s.threads) && SleepQ(s.sleepq, e) != []
    ensures var q := SleepQ(s.sleepq, e);
      var r := Awaken(s, e, q[0], 0);
      && OnlySleepers(s, r, e) && SleepQ(r.sleepq, e) == q[1..] && r.wakeq == s.wakeq + [q[0]]
      && r.threads == s.threads[q[0] := Woken(s.threads[q[0]], 0)] && Known(q[1..], r.threads)
      && Wakeup(s, e) == Wakeup(r, e)
  {
  }

  /** From `s` to `r` the sleepers `q` of the event have joined the end of the wake queue. */
  ghost predicate Roused(s: State, r: State, e: Event, q: seq<Tid>) {
    OnlySleepers(s, r, e) && SleepQ(r.sleepq, e) == [] && r.wakeq == s.wakeq + q && WokenBy(s.threads, r.threads, q)
  }

  lemma RousedStep(s: State, s1: State, r: State, e: Event, t: Tid, q: seq<Tid>)
    requires OnlySleepers(s, s1, e) && s1.wakeq == s.wakeq + [t] && t in s.threads
    requires s1.threads == s.threads[t := Woken(s.threads[t], 0)] && Roused(s1, r, e, q)
    ensures Roused(s, r, e, [t] + q)
  {
    SleepersTrans(s, s1, r, e);
    WokenCons(s.threads, s1.threads, r.threads, t, q);
    hide OnlySleepers, WokenBy, Woken, SleepQ;
  }

  lemma RousedNone(s: State, e: Event)
    requires SleepQ(s.sleepq, e) == []
    ensures Roused(s, s, e, [])
  {
  }

  /** sched_wakeup: all sleepers, in the order in which they went to sleep, join the end
      of the wake queue with result 0. */
  lemma {:induction false} WakeupExact(s: State, e: Event)
    requires Known(SleepQ(s.sleepq, e), s.threads)
    ensures Roused(s, Wakeup(s, e), e, SleepQ(s.sleepq, e))
    decreases |SleepQ(s.sleepq, e)|
  {
    hide Awaken, Kept, OnlySleepers, Woken, Roused;
    var q := SleepQ(s.sleepq, e);
    if q == [] {
      RousedNone(s, e);
    } else {
      AwakenExact(s, e);
      var s1 := Awaken(s, e, q[0], 0);
      WakeupExact(s1, e);
      RousedStep(s, s1, Wakeup(s1, e), e, q[0], q[1..]);
      assert q == [q[0]] + q[1..];
    }
  }

  /** sched_wakeone: the first of the best sleepers, and only it. */
  lemma WakeoneExact(s: State, e: Event) returns (k: nat)
    requires Known(SleepQ(s.sleepq, e), s.threads) && NoDup(SleepQ(s.sleepq, e)) && SleepQ(s.sleepq, e) != []
    ensures var (r, q) := (Wakeone(s, e), SleepQ(s.sleepq, e));
      && k < |q| && (forall i :: 0 <= i < |q| ==> s.threads[q[k]].priority <= s.threads[q[i]].priority)
      && (forall i :: 0 <= i < k ==> s.threads[q[k]].priority < s.threads[q[i]].priority)
      && OnlySleepers(s, r, e) && SleepQ(r.sleepq, e) == q[..k] + q[k + 1..] && r.wakeq == s.wakeq + [q[k]]
      && r.threads == s.threads[q[k] := Woken(s.threads[q[k]], 0)]
  {
    var q := SleepQ(s.sleepq, e);
    k := TopAt(s.threads, q);
    RemoveAt(q, k);
    hide Top, Remove;
  }

  lemma {:induction false} TopAt(threads: map<Tid, Thread>, q: seq<Tid>) returns (k: nat)
    requires q != [] && Known(q, threads)
    ensures k < |q| && Top(threads, q) == q[k]
    ensures forall i :: 0 <= i < |q| ==> threads[q[k]].priority <= threads[q[i]].priority
    ensures forall i :: 0 <= i < k ==> threads[q[k]].priority < threads[q[i]].priority
    decreases |q|
  {
    k := |q| - 1;
    if |q| > 1 {
      var j := TopAt(threads, q[..|q| - 1]);
      if threads[q[k]].priority >= threads[q[j]].priority {
        k := j;
      }
    }
  }

  /** sched_unsleep: a sleeper leaves its queue for the end of the wake queue, with the
      result given; one that does not sleep is left alone. */
  lemma UnsleepExact(s: State, t: Tid, ret: int)
    requires Inv(s) && t in s.threads
    ensures var (r, th) := (Unsleep(s, t, ret), s.threads[t]);
      && (!th.sleep ==> r == s)
      && (th.sleep ==>
            && r.threads == s.threads[t := Woken(th, ret)]
            && r.wakeq == Remove(s.wakeq, t) + [t] && r.cur == s.cur && r.runq == s.runq && r.maxpri == s.maxpri
            && forall e :: SleepQ(r.sleepq, e) == Remove(SleepQ(s.sleepq, e), t))
  {
    hide Base, Marked, RunqOk;
    if s.threads[t].sleep {
      forall e | t !in SleepQ(s.sleepq, e) ensures Remove(SleepQ(s.sleepq, e), t) == SleepQ(s.sleepq, e) {
        RemoveFacts(SleepQ(s.sleepq, e), t);
      }
      RemoveFacts(s.wakeq, t);
      hide NoDup;
    }
  }

  /** sched_tsleep up to the switch: the thread is the last on the queue of its event, with
      one lock more; see FlushExact and SchedTurn.BlockedLeaves for what follows. */
  lemma SleepExact(s: State, e: Event, timed: bool)
    requires Inv(s) && s.cur != IDLE && s.cur in s.threads && !s.threads[s.cur].exit
    ensures var (q, c) := (QueueSelf(s, e, timed), s.threads[s.cur]);
      && q == s.(threads := q.threads, sleepq := s.sleepq[e := SleepQ(s.sleepq, e) + [s.cur]])
      && q.threads == s.threads[s.cur :=
           c.(slpevt := Some(e), sleep := true, timeout := c.timeout || timed, locks := c.locks + 1)]
      && GoToSleep(s, e, timed) == FlushAll(q)
      && Tsleep(s, e, timed) == Resumed(SwitchAway(GoToSleep(s, e, timed), InSleep))
  {
    hide Inv, Midway, Kept, Follows, SwtchReady, ResumeOk, FlushAll, SwitchAway, Resumed;
    var c := s.threads[s.cur];
    assert s.threads[s.cur := c.(locks := c.locks + 1)][s.cur :=
      c.(slpevt := Some(e), sleep := true, timeout := c.timeout || timed, locks := c.locks + 1)] == s.threads[s.cur :=
      c.(slpevt := Some(e), sleep := true, timeout := c.timeout || timed, locks := c.locks + 1)];
  }

  // ----- Becoming ready -----

  /** The woken threads that can run at level `p`, in order. */
  function Readied(threads: map<Tid, Thread>, w: seq<Tid>, cur: Tid, p: Pri): seq<Tid>
    requires Known(w, threads)
  {
    if w == [] then []
    else (if w[0] != cur && !threads[w[0]].susp && !threads[w[0]].exit && threads[w[0]].priority == p then [w[0]] else [])
         + Readied(threads, w[1..], cur, p)
  }

  /** Some woken thread that can run is better than `m`. */
  ghost predicate Improves(threads: map<Tid, Thread>, w: seq<Tid>, cur: Tid, m: Pri)
    requires Known(w, threads)
  {
    exists p: Pri :: p < m && Readied(threads, w, cur, p) != []
  }

  /** Same threads as far as becoming ready is concerned. */
  lemma {:induction false} ReadiedSame(a: map<Tid, Thread>, b: map<Tid, Thread>, w: seq<Tid>, cur: Tid, p: Pri)
    requires Known(w, a) && Kept(a, b)
    ensures Known(w, b) && Readied(a, w, cur, p) == Readied(b, w, cur, p)
    decreases |w|
  {
    if w != [] {
      ReadiedSame(a, b, w[1..], cur, p);
    }
  }

  /** From `s` to `r` the threads of `w` have become ready, each level in order. */
  ghost predicate QueuesBy(s: State, r: State, w: seq<Tid>)
    requires Known(w, s.threads)
  {
    forall p: Pri :: r.runq[p] == s.runq[p] + Readied(s.threads, w, s.cur, p)
  }

  ghost predicate ThreadsBy(a: map<Tid, Thread>, b: map<Tid, Thread>, w: seq<Tid>, cur: Tid) {
    && b.Keys == a.Keys
    && (forall t :: t in a ==>
          b[t] == (if t in w then a[t].(slpevt := None, sleep := false) else a[t]).(resched := b[t].resched))
    && (forall t :: t in a && t != cur ==> b[t].resched == a[t].resched)
  }

  lemma FlushOneExact(s: State)
    requires s.cur in s.threads && s.wakeq != [] && Known(s.wakeq, s.threads)
    ensures var (f, t) := (FlushOne(s), s.wakeq[0]);
      var th := s.threads[t];
      var ready := t != s.cur && !th.susp && !th.exit;
      && Known(f.wakeq, f.threads) && Kept(s.threads, f.threads)
      && f == s.(threads := f.threads, runq := f.runq, wakeq := s.wakeq[1..], maxpri := f.maxpri)
      && (forall p: Pri :: f.runq[p] == s.runq[p] + if ready && th.priority == p then [t] else [])
      && ThreadsBy(s.threads, f.threads, [t], s.cur)
      && (f.threads[s.cur].resched <==> s.threads[s.cur].resched || (ready && th.priority < s.maxpri))
      && f.maxpri == if ready && th.priority < s.maxpri then th.priority else s.maxpri
  {
    assert forall p: Pri :: s.runq[p] + [] == s.runq[p];
  }

  lemma ImprovesStep(s: State, f: State)
    requires s.cur in s.threads && s.wakeq != [] && Known(s.wakeq, s.threads) && Known(f.wakeq, f.threads)
    requires f.wakeq == s.wakeq[1..] && f.cur == s.cur && Kept(s.threads, f.threads)
    requires var (t, th) := (s.wakeq[0], s.threads[s.wakeq[0]]);
      var ready := t != s.cur && !th.susp && !th.exit;
      && f.maxpri == (if ready && th.priority < s.maxpri then th.priority else s.maxpri)
      && (f.threads[s.cur].resched <==> s.threads[s.cur].resched || (ready && th.priority < s.maxpri))
    ensures f.threads[s.cur].resched || Improves(f.threads, f.wakeq, f.cur, f.maxpri) <==>
      s.threads[s.cur].resched || Improves(s.threads, s.wakeq, s.cur, s.maxpri)
  {
    var (t, th) := (s.wakeq[0], s.threads[s.wakeq[0]]);
    forall p: Pri ensures Readied(f.threads, f.wakeq, s.cur, p) == Readied(s.threads, s.wakeq[1..], s.cur, p) {
      ReadiedSame(s.threads, f.threads, f.wakeq, s.cur, p);
    }
    hide Kept;
    if t != s.cur && !th.susp && !th.exit && th.priority < s.maxpri {
      assert Readied(s.threads, s.wakeq, s.cur, th.priority)[0] == t;
    } else {
      forall p: Pri | p < s.maxpri ensures Readied(s.threads, s.wakeq, s.cur, p) == Readied(f.threads, f.wakeq, s.cur, p) {
      }
    }
  }

  lemma QueuesCons(s: State, f: State, r: State)
    requires s.wakeq != [] && Known(s.wakeq, s.threads) && Known(f.wakeq, f.threads)
    requires f.wakeq == s.wakeq[1..] && f.cur == s.cur && Kept(s.threads, f.threads)
    requires var (t, th) := (s.wakeq[0], s.threads[s.wakeq[0]]);
      var ready := t != s.cur && !th.susp && !th.exit;
      forall p: Pri :: f.runq[p] == s.runq[p] + if ready && th.priority == p then [t] else []
    requires QueuesBy(f, r, f.wakeq)
    ensures QueuesBy(s, r, s.wakeq)
  {
    forall p: Pri ensures r.runq[p] == s.runq[p] + Readied(s.threads, s.wakeq, s.cur, p) {
      ReadiedSame(s.threads, f.threads, f.wakeq, s.cur, p);
    }
  }

  lemma ThreadsCons(a: map<Tid, Thread>, b: map<Tid, Thread>, c: map<Tid, Thread>, t: Tid, w: seq<Tid>, cur: Tid)
    requires ThreadsBy(a, b, [t], cur) && ThreadsBy(b, c, w, cur)
    ensures ThreadsBy(a, c, [t] + w, cur)
  {
  }

  /** wakeq_flush: the woken threads that can run join the tails of their levels, in
      order; the current thread is marked if one of them beats every ready thread. */
  lemma {:induction false} FlushExact(s: State)
    requires s.cur in s.threads && Known(s.wakeq, s.threads)
    ensures var r := Flush(s);
      && r == s.(threads := r.threads, runq := r.runq, wakeq := [], maxpri := r.maxpri)
      && QueuesBy(s, r, s.wakeq) && ThreadsBy(s.threads, r.threads, s.wakeq, s.cur)
      && (r.threads[s.cur].resched <==> s.threads[s.cur].resched || Improves(s.threads, s.wakeq, s.cur, s.maxpri))
    decreases |s.wakeq|
  {
    if s.wakeq != [] {
      var f := FlushOne(s);
      var w := s.wakeq;
      assert w == [w[0]] + w[1..];
      FlushOneExact(s);
      hide FlushOne, Kept, Improves, QueuesBy, ThreadsBy, Known;
      FlushExact(f);
      QueuesCons(s, f, Flush(f));
      ThreadsCons(s.threads, f.threads, Flush(f).threads, w[0], w[1..], s.cur);
      ImprovesStep(s, f);
      hide Flush;
    }
  }

  // ----- Queue places -----

  /** Apart from the run queues and `t`, at most the mark of the current thread and
      `maxpri` differ. */
  ghost predicate OnlyReady(s: State, r: State, t: Tid)
    requires s.cur in s.threads && t in s.threads
  {
    && r == s.(threads := r.threads, runq := r.runq, maxpri := r.maxpri) && r.threads.Keys == s.threads.Keys
    && (forall x :: x in s.threads && x != t ==> r.threads[x] == s.threads[x].(resched := r.threads[x].resched))
    && (forall x :: x in s.threads && x != s.cur ==> r.threads[x].resched == s.threads[x].resched)
  }

  /** `t` has left its level, the others keeping their order. */
  ghost predicate Left(s: State, r: State, t: Tid)
    requires t in s.threads
  {
    forall p: Pri :: r.runq[p] == if p == s.threads[t].priority then Remove(s.runq[p], t) else s.runq[p]
  }

  /** sched_suspend: a ready thread leaves its queue, the running one is marked. */
  lemma SuspendExact(s: State, t: Tid)
    requires s.cur in s.threads && t in s.threads
    ensures var (r, th) := (Suspend(s, t), s.threads[t]);
      && OnlyReady(s, r, t)
      && r.threads[t] == th.(susp := true, resched := th.resched || (th.Run() && t == s.cur))
      && (if th.Run() && t != s.cur then Left(s, r, t) else r.runq == s.runq)
  {
    hide Best, Remove;
  }

  /** sched_resume: a suspended thread that can run again joins the tail of its level, and
      the current thread is marked if it beats every ready thread. */
  lemma ResumeExact(s: State, t: Tid)
    requires s.cur in s.threads && t in s.threads && t != s.cur
    ensures var (r, th) := (ResumeThread(s, t), s.threads[t]);
      var ready := th.susp && !th.sleep && !th.exit;
      && OnlyReady(s, r, t) && r.threads[t] == th.(susp := false)
      && (forall p: Pri :: r.runq[p] == s.runq[p] + if ready && p == th.priority then [t] else [])
      && (r.threads[s.cur].resched <==> s.threads[s.cur].resched || (ready && th.priority < s.maxpri))
  {
    assert forall p: Pri :: s.runq[p] + [] == s.runq[p];
  }

  /** sched_setpri of the running thread: its queue places do not matter, and it is marked
      unless it is exactly as good as the best ready thread. */
  lemma SetPriRunning(s: State, basepri: Pri, pri: Pri)
    requires Inv(s) && s.cur in s.threads
    ensures var r := SetPri(s, s.cur, basepri, pri);
      && OnlyReady(s, r, s.cur) && r.runq == s.runq && r.maxpri == s.maxpri
      && r.threads[s.cur] ==
           s.threads[s.cur].(basepri := basepri, priority := pri, resched := s.threads[s.cur].resched || pri != s.maxpri)
  {
    hide Queues, Best;
  }

  lemma BestMeans(q: RunQ, pri: Pri)
    ensures pri < Best(q) <==> pri < MINPRI && forall p: Pri :: p <= pri ==> q[p] == []
  {
  }

  lemma RemoveExact(s: State, t: Tid)
    requires t in s.threads
    ensures var r := RunqRemove(s, t);
      r == s.(runq := r.runq, maxpri := r.maxpri) && Left(s, r, t) && r.maxpri == Best(r.runq)
  {
    hide Best, Remove;
  }

  lemma EnqueueExact(s: State, t: Tid)
    requires t in s.threads && s.cur in s.threads
    ensures var (r, p) := (RunqEnqueue(s, t), s.threads[t].priority);
      && r == s.(threads := r.threads, runq := r.runq, maxpri := r.maxpri)
      && (forall i: Pri :: r.runq[i] == s.runq[i] + if i == p then [t] else [])
      && r.threads == s.threads[s.cur := s.threads[s.cur].(resched := s.threads[s.cur].resched || p < s.maxpri)]
  {
    assert forall i: Pri :: s.runq[i] + [] == s.runq[i];
    assert s.threads[s.cur := s.threads[s.cur]] == s.threads;
  }

  lemma AloneOnBest(q: RunQ, r: RunQ, t: Tid, pri: Pri)
    requires forall p: Pri :: r[p] == q[p] + if p == pri then [t] else []
    ensures pri < Best(q) <==> BestAlone(r, t, pri)
  {
    BestMeans(q, pri);
    hide Best;
    assert q[pri] == [] <==> r[pri] == [t];
    forall p: Pri | p < pri ensures r[p] == q[p] {
      assert q[p] + [] == q[p];
    }
  }

  /** `t` has gone from its level to the tail of level `pri`. */
  ghost predicate Moved(s: State, r: State, t: Tid, pri: Pri)
    requires t in s.threads
  {
    forall p: Pri ::
      r.runq[p] == (if p == s.threads[t].priority then Remove(s.runq[p], t) else s.runq[p]) + if p == pri then [t] else []
  }

  /** The best ready thread is `t`, alone on its level. */
  predicate BestAlone(q: RunQ, t: Tid, pri: Pri) {
    pri < MINPRI && q[pri] == [t] && forall p: Pri :: p < pri ==> q[p] == []
  }

  /** Off its queue, repriced, and on the next one. */
  lemma SetPriSteps(s: State, t: Tid, basepri: Pri, pri: Pri)
    requires s.cur in s.threads && t in s.threads && t != s.cur && s.threads[t].Run()
    ensures var s0 := SetThread(s, t, s.threads[t].(basepri := basepri));
      var s1 := RunqRemove(s0, t);
      && t in s1.threads
      && SetPri(s, t, basepri, pri) == RunqEnqueue(SetThread(s1, t, s1.threads[t].(priority := pri)), t)
  {
    hide RunqEnqueue, Remove, Best;
  }

  lemma PricedAnew(s: State, s2: State, r: State, t: Tid, basepri: Pri, pri: Pri)
    requires s.cur in s.threads && t in s.threads && t != s.cur
    requires s2 == s.(threads := s.threads[t := s.threads[t].(basepri := basepri, priority := pri)],
      runq := s2.runq, maxpri := s2.maxpri)
    requires Left(s, s2, t) && r == s2.(threads := r.threads, runq := r.runq, maxpri := r.maxpri)
    requires forall i: Pri :: r.runq[i] == s2.runq[i] + if i == pri then [t] else []
    requires s.cur in r.threads && r.threads == s2.threads[s.cur := s2.threads[s.cur].(resched := r.threads[s.cur].resched)]
    ensures OnlyReady(s, r, t) && Moved(s, r, t, pri) && r.threads[t] == s.threads[t].(basepri := basepri, priority := pri)
  {
    hide Remove;
  }

  lemma SetPriReady(s: State, t: Tid, basepri: Pri, pri: Pri)
    requires s.cur in s.threads && t in s.threads && t != s.cur && s.threads[t].Run()
    ensures var (r, th) := (SetPri(s, t, basepri, pri), s.threads[t]);
      && OnlyReady(s, r, t) && Moved(s, r, t, pri) && r.threads[t] == th.(basepri := basepri, priority := pri)
      && (r.threads[s.cur].resched <==> s.threads[s.cur].resched || BestAlone(r.runq, t, pri))
  {
    hide Remove, Best, RunqRemove, RunqEnqueue, BestAlone, SetPri, Moved, OnlyReady;
    var s0 := SetThread(s, t, s.threads[t].(basepri := basepri));
    var s1 := RunqRemove(s0, t);
    SetPriSteps(s, t, basepri, pri);
    RemoveExact(s0, t);
    var s2 := SetThread(s1, t, s1.threads[t].(priority := pri));
    var r := RunqEnqueue(s2, t);
    EnqueueExact(s2, t);
    AloneOnBest(s1.runq, r.runq, t, pri);
    assert s0.threads[t := s0.threads[t].(priority := pri)] == s.threads[t := s.threads[t].(basepri := basepri, priority := pri)];
    PricedAnew(s, s2, r, t, basepri, pri);
  }

  /** Of another thread: if it is ready it goes to the tail of its new level, even when
      that is its old one, and the current thread is marked if it then beats all others. */
  lemma SetPriOther(s: State, t: Tid, basepri: Pri, pri: Pri)
    requires s.cur in s.threads && t in s.threads && t != s.cur
    ensures var (r, th) := (SetPri(s, t, basepri, pri), s.threads[t]);
      && OnlyReady(s, r, t) && r.threads[t] == th.(basepri := basepri, priority := pri)
      && (if th.Run() then
            && Moved(s, r, t, pri)
            && (r.threads[s.cur].resched <==> s.threads[s.cur].resched || BestAlone(r.runq, t, pri))
          else r.runq == s.runq && r.threads[s.cur].resched == s.threads[s.cur].resched)
  {
    hide RunqRemove, RunqEnqueue, BestAlone, Moved;
    if s.threads[t].Run() {
      SetPriReady(s, t, basepri, pri);
      hide SetPri;
    }
  }

  /** sched_stop: the thread ends; it leaves the queue it is on, and if it is the running
      one the next unlock switches. */
  lemma StopExact(s: State, t: Tid)
    requires Inv(s) && t in s.threads
    ensures var (r, th) := (Stop(s, t), s.threads[t]);
      && r.cur == s.cur && r.pending == s.pending && r.threads.Keys == s.threads.Keys
      && r.threads == s.threads[t := th.(timeout := false, sleep := false, susp := false, exit := true,
           locks := if t == s.cur then 1 else th.locks, resched := th.resched || t == s.cur)]
      && (if th.Run() && t != s.cur then Left(s, r, t) else r.runq == s.runq)
      && r.wakeq == Remove(s.wakeq, t) && forall e :: SleepQ(r.sleepq, e) == Remove(SleepQ(s.sleepq, e), t)
  {
    hide Base, Marked, RunqOk, Best;
    forall e | t !in SleepQ(s.sleepq, e) ensures Remove(SleepQ(s.sleepq, e), t) == SleepQ(s.sleepq, e) {
      RemoveFacts(SleepQ(s.sleepq, e), t);
    }
    RemoveFacts(s.wakeq, t);
    hide NoDup, Remove;
  }

  // ----- Marks -----

  /** sched_yield marks the running thread exactly if another of its level is ready. */
  lemma YieldExact(s: State)
    requires s.cur in s.threads
    ensures var (r, c) := (Yield(s), s.threads[s.cur]);
      r == SetThread(s, s.cur, c.(resched := c.resched || s.runq[c.priority] != []))
  {
    assert SetThread(s, s.cur, s.threads[s.cur]) == s;
  }

  lemma TickExact(s: State)
    requires s.cur in s.threads
    ensures var c := s.threads[s.cur];
      var counts := !c.exit && c.policy == RoundRobin;
      var over := counts && c.timeleft <= 1;
      Tick(s) == SetThread(s, s.cur, c.(
        timeleft := c.timeleft + (if over then QUANTUM else 0) - (if counts then 1 else 0), resched := c.resched || over))
  {
    assert SetThread(s, s.cur, s.threads[s.cur]) == s;
  }

  ghost function Ticks(s: State, n: nat): (r: State)
    requires s.cur in s.threads
    ensures r.cur == s.cur && r.threads.Keys == s.threads.Keys
    decreases n
  {
    if n == 0 then s else Ticks(Tick(s), n - 1)
  }

  /** A thread that has run for `n` ticks more, up to the end of its quantum. */
  function Ran(c: Thread, n: nat): Thread {
    var counts := !c.exit && c.policy == RoundRobin;
    var over := counts && n > 0 && n == c.timeleft;
    c.(timeleft := if over then QUANTUM else if counts then c.timeleft - n else c.timeleft, resched := c.resched || over)
  }

  lemma TickRan(s: State)
    requires s.cur in s.threads && s.threads[s.cur].timeleft > 0
    ensures Tick(s) == SetThread(s, s.cur, Ran(s.threads[s.cur], 1))
  {
    TickExact(s);
  }

  lemma RanTwice(c: Thread, n: nat)
    requires 1 < n <= c.timeleft
    ensures Ran(Ran(c, 1), n - 1) == Ran(c, n) && Ran(c, 1).timeleft == c.timeleft - (if !c.exit && c.policy == RoundRobin then 1 else 0)
  {
  }

  /** A round-robin thread with `n` ticks left that runs on is marked at its `n`-th tick
      and not before; it then has a new quantum. Other threads are never marked. */
  lemma {:induction false} TicksExact(s: State, n: nat)
    requires s.cur in s.threads && s.threads[s.cur].timeleft > 0 && n <= s.threads[s.cur].timeleft
    ensures Ticks(s, n) == SetThread(s, s.cur, Ran(s.threads[s.cur], n))
    decreases n
  {
    var c := s.threads[s.cur];
    if n == 0 {
      assert SetThread(s, s.cur, c) == s;
    } else {
      TickRan(s);
      hide Tick;
      if n == 1 {
        assert Ticks(Tick(s), 0) == Tick(s);
      } else {
        TicksExact(Tick(s), n - 1);
        RanTwice(c, n);
        hide Ran;
        assert s.threads[s.cur := Ran(c, 1)][s.cur := Ran(c, n)] == s.threads[s.cur := Ran(c, n)];
      }
    }
  }

  // ----- sched_unlock without interrupts -----

  lemma FlushAllIs(s: State)
    requires Midway(s) && s.cur in s.threads && Known(s.wakeq, s.threads)
    ensures FlushAll(s) == Flush(s)
  {
    hide Midway, Flush;
  }

  /** The last unlock begins with the flush of FlushExact, after which a switch is safe. */
  lemma UnlockReady(s: State)
    requires Inv(s) && s.cur in s.threads && s.threads[s.cur].locks == 1 && Known(s.wakeq, s.threads)
    ensures Midway(s) && FlushAll(s) == Flush(s)
    ensures Inv(FlushAll(s)) && SwtchReady(FlushAll(s), InUnlock) && FlushAll(s).cur in FlushAll(s).threads
  {
    InvReady(s);
    FlushAllIs(s);
    InvIsMidway(s);
    InvIsMidway(FlushAll(s));
    InvReady(FlushAll(s));
    hide Inv, Follows, Kept, SwtchReady, Midway, FlushAll;
  }

  /** The last unlock readies the woken threads (see FlushExact); a thread that is not
      marked then runs on. */
  lemma UnlockStays(s: State, f: State)
    requires Inv(s) && s.cur in s.threads && s.threads[s.cur].locks == 1
    requires Midway(s) && f == FlushAll(s) && f.cur in f.threads && !f.threads[f.cur].resched && f.threads[f.cur].locks == 1
    ensures Unlock(s) == SetThread(f, f.cur, f.threads[f.cur].(locks := 0))
  {
    InvReady(s);
    InvIsMidway(s);
    InvIsMidway(f);
    hide Inv, Follows, Kept, Midway, FlushAll;
    assert Unlock(s) == UnlockLoop(f);
  }

  lemma ResumedIs(n: State)
    requires Settled(n) && n.cur in n.threads && ResumeOk(n.threads[n.cur]) && n.pending == []
    ensures Resumed(n) == if n.threads[n.cur].resume == Entry then n else Dropped(n)
  {
    hide Inv, Follows, Kept, Settled;
  }

  /** A marked one gives way, once if no interrupt comes in; the thread switched to goes
      on with one lock less, or starts. */
  lemma UnlockSwitches(s: State, f: State, n: State)
    requires Inv(s) && s.cur in s.threads && s.threads[s.cur].locks == 1 && s.pending == []
    requires Midway(s) && f == FlushAll(s) && f.cur in f.threads && f.threads[f.cur].resched
    requires SwtchReady(f, InUnlock) && n == SwitchAway(f, InUnlock) && n.cur in n.threads
    ensures Unlock(s) == if n.threads[n.cur].resume == Entry then n else Dropped(n)
  {
    InvReady(s);
    InvIsMidway(s);
    InvIsMidway(f);
    hide Inv, Follows, Kept, SwtchReady, Midway, SwitchAway, ResumeOk, FlushAll;
    assert Unlock(s) == UnlockLoop(f);
    assert n.pending == [] && UnlockLoop(f) == Resumed(n);
    ResumedIs(n);
    hide Dropped, Resumed;
  }

  /** With one lock less, if it holds any. */
  function Dropped(s: State): State
    requires s.cur in s.threads
  {
    var c := s.threads[s.cur];
    SetThread(s, s.cur, if c.locks > 0 then c.(locks := c.locks - 1) else c)
  }

  /** An unlock that is not the last only counts down. */
  lemma UnlockNested(s: State)
    requires Inv(s) && s.cur in s.threads && s.threads[s.cur].locks > 1
    ensures Unlock(s) == SetThread(s, s.cur, s.threads[s.cur].(locks := s.threads[s.cur].locks - 1))
  {
    hide Inv, Follows, Kept;
  }
}
