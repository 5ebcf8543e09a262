/** What holds in every run of the scheduler. */
module SchedRuns {
  import opened Lists
  import opened Sched
  import opened SchedInv
  import opened SchedSwitch

  // ----- One place for each thread -----

  datatype Place = Current | Ready(level: int) | Sleeping(event: Event) | Waking | Suspended | Exited

  ghost predicate At(s: State, t: Tid, pl: Place)
    requires t in s.threads
  {
    match pl
    case Current => t == s.cur
    case Ready(p) => 0 <= p < NPRI && t in s.runq[p]
    case Sleeping(e) => t in SleepQ(s.sleepq, e)
    case Waking => t in s.wakeq
    case Suspended => t != s.cur && !s.threads[t].sleep && s.threads[t].susp
    case Exited => t != s.cur && s.threads[t].exit
  }

  /** A thread is in exactly one place, the one its state word names. */
  lemma OnePlace(s: State, t: Tid) returns (pl: Place)
    requires Inv(s) && t in s.threads
    ensures At(s, t, pl) && forall q :: At(s, t, q) ==> q == pl
    ensures pl.Ready? ==> s.threads[t].Run() && pl.level == s.threads[t].priority
    ensures pl.Sleeping? ==> s.threads[t].sleep && s.threads[t].slpevt == Some(pl.event)
  {
    hide Base, Marked;
    var th := s.threads[t];
    if t == s.cur {
      pl := Current;
    } else if th.exit {
      pl := Exited;
    } else if th.sleep && t in s.wakeq {
      pl := Waking;
    } else if th.sleep {
      pl := Sleeping(th.slpevt.value);
    } else if th.susp {
      pl := Suspended;
    } else {
      pl := Ready(th.priority);
    }
  }

  // ----- The best thread runs -----

  /** Once no mark is left, the current thread can run and no ready thread has
      a better priority. */
  lemma BestRuns(s: State)
    requires Settled(s)
    ensures s.threads[s.cur].Run()
    ensures forall t :: t in s.threads && s.threads[t].Run() ==>
      s.threads[s.cur].priority <= s.threads[t].priority
  {
    hide WakeqOk, SleepqOk, SleepersOk;
    forall t | t in s.threads && s.threads[t].Run()
      ensures s.threads[s.cur].priority <= s.threads[t].priority
    {
      if t != s.cur {
        assert t in s.runq[s.threads[t].priority];
      }
    }
  }

  // ----- What sched_wakeone reports -----

  lemma {:induction false} TopIsFirst(threads: map<Tid, Thread>, q: seq<Tid>)
    requires q != [] && Known(q, threads) && NoDup(q)
    ensures var last := q[|q| - 1];
      Top(threads, q) == last <==>
        forall i :: 0 <= i < |q| - 1 ==> threads[last].priority < threads[q[i]].priority
  {
    if |q| > 1 {
      var q' := q[..|q| - 1];
      var last := q[|q| - 1];
      var r := Top(threads, q');
      assert last !in q';
      if threads[last].priority < threads[r].priority {
        forall i | 0 <= i < |q| - 1 ensures threads[last].priority < threads[q[i]].priority {
          assert q[i] == q'[i];
        }
      } else {
        var k :| 0 <= k < |q'| && q'[k] == r;
        assert q[k] == r;
      }
    }
  }

  lemma {:induction false} TopSame(a: map<Tid, Thread>, b: map<Tid, Thread>, q: seq<Tid>)
    requires q != [] && Known(q, a) && Known(q, b)
    requires forall i :: 0 <= i < |q| ==> b[q[i]].priority == a[q[i]].priority
    ensures Top(a, q) == Top(b, q)
    decreases |q|
  {
    if |q| > 1 {
      TopSame(a, b, q[..|q| - 1]);
    }
  }

  /** sched_wakeone reports the thread it woke, as its comment promises, exactly
      when the sleeper queued last is strictly better than all the others. */
  lemma WakeoneReports(s: State, e: Event)
    requires Inv(s) && SleepQ(s.sleepq, e) != []
    ensures Known(SleepQ(s.sleepq, e), s.threads)
    ensures var q := SleepQ(s.sleepq, e);
      WakeoneResult(s, e) == Some(Top(s.threads, q)) <==>
        forall i :: 0 <= i < |q| - 1 ==>
          s.threads[q[|q| - 1]].priority < s.threads[q[i]].priority
  {
    SleepKnown(s, e);
    TopIsFirst(s.threads, SleepQ(s.sleepq, e));
  }

  /** A thread woken while the scheduler is locked once takes the processor at
      the unlock exactly when it is at least as good as the current thread and
      strictly better than every other ready thread. */
  lemma WokenDisplaces(s: State, t: Tid)
    requires Inv(s) && s.wakeq == [t] && s.pending == []
    requires s.cur in s.threads && s.threads[s.cur].locks == 1 && !s.threads[s.cur].resched
    requires t in s.threads && !s.threads[t].susp
    ensures var p, c := s.threads[t].priority, s.threads[s.cur].priority;
      Unlock(s).cur == t <==> p <= c && p < s.maxpri
  {
    InvReady(s);
    InvIsMidway(s);
    InvBest(s);
    WokenFlush(s, t);
    hide Inv, Follows, Kept, SwtchReady, Midway, Best;
    var f := FlushAll(s);
    InvIsMidway(f);
    InvReady(f);
    WokenUnlock(s, f);
    hide Unlock, FlushAll;
    if f.threads[f.cur].resched {
      WokenSwitch(s, f, t);
    }
  }

  lemma WokenUnlock(s: State, f: State)
    requires Inv(s) && s.pending == [] && s.cur in s.threads && s.threads[s.cur].locks == 1
    requires Midway(s) && f == FlushAll(s) && Inv(f) && SwtchReady(f, InUnlock)
    ensures Unlock(s).cur ==
      if f.threads[f.cur].resched then SwitchAway(f, InUnlock).cur else s.cur
  {
    hide Inv, Follows, Kept, SwtchReady, Midway, FlushAll, SwitchAway, ResumeOk;
    assert Unlock(s) == UnlockLoop(f);
    if f.threads[f.cur].resched {
      var n := SwitchAway(f, InUnlock);
      assert n.pending == [];
      assert Resumed(n).cur == n.cur;
    }
  }

  /** The comment of runq_enqueue promises the processor to a woken thread that
      is strictly better than the current one. The code keeps to it except when
      the two are equal and no other thread of that level is ready: a
      SCHED_FIFO thread is then displaced by its equal. */
  lemma EqualDisplaces(s: State, t: Tid)
    requires Inv(s) && s.wakeq == [t] && s.pending == []
    requires s.cur in s.threads && s.threads[s.cur].locks == 1 && !s.threads[s.cur].resched
    requires t in s.threads && !s.threads[t].susp
    ensures var p, c := s.threads[t].priority, s.threads[s.cur].priority;
      (Unlock(s).cur == t <==> p < c) <==> !(p == c && c < s.maxpri)
  {
    WokenDisplaces(s, t);
    InvBest(s);
    hide Inv, Unlock, Best;
  }

  /** Thread 1 runs under SCHED_FIFO with the scheduler locked; thread 2, of the same
      priority, has just been woken. */
  function EqualWoken(): State {
    var t := Start(100, Fifo).(susp := false);
    var q: seq<seq<Tid>> := seq(256, _ => []);
    State(map[IDLE := IdleThread().(resched := false, locks := 0), 1 := t.(locks := 1), 2 := t.(sleep := true)],
          q[255 := [IDLE]], [2], map[], PRI_IDLE, 1, [])
  }

  lemma EqualRunq()
    ensures var s := EqualWoken(); RunqOk(s.runq, s.threads, {s.cur}) && s.maxpri == Best(s.runq)
  {
    var s := EqualWoken();
    assert s.runq[255] == [IDLE];
    assert forall p :: 0 <= p < 255 ==> s.runq[p] == [];
    OnlyIdle(s.runq);
    hide Best;
  }

  lemma OnlyIdle(q: RunQ)
    requires forall p :: 0 <= p < 255 ==> q[p] == []
    ensures Best(q) == 255
  {
  }

  lemma EqualQueues()
    ensures var s := EqualWoken();
      && WakeqOk(s.wakeq, s.threads) && SleepqOk(s.sleepq, s.wakeq, s.threads)
      && SleepersOk(s.sleepq, s.wakeq, s.threads, {s.cur}) && ExitOk(s.threads)
  {
    var s := EqualWoken();
    assert forall e :: SleepQ(s.sleepq, e) == [];
  }

  lemma EqualBase()
    requires EqualWoken().maxpri == Best(EqualWoken().runq)
    ensures var s := EqualWoken(); Base(s) && Marked(s) && !s.threads[s.cur].sleep
  {
    hide Best;
  }

  /** The exception occurs: a SCHED_FIFO thread loses the processor to an equal. */
  lemma FifoDisplaced()
    ensures var s := EqualWoken();
      && Inv(s) && s.wakeq == [2] && s.threads[1].policy == Fifo && s.threads[2].priority == s.threads[1].priority
      && s.cur == 1 && s.threads[1].locks == 1 && Unlock(s).cur == 2
  {
    hide RunqOk, WakeqOk, SleepqOk, SleepersOk, ExitOk, Base, Marked, Best, Unlock;
    EqualRunq();
    EqualQueues();
    EqualBase();
    WokenDisplaces(EqualWoken(), 2);
  }

  lemma InvBest(s: State)
    requires Inv(s)
    ensures s.maxpri == Best(s.runq)
    ensures !s.threads[s.cur].resched ==> s.threads[s.cur].Run() && s.threads[s.cur].priority <= s.maxpri
  {
    hide Queues, Best;
  }

  lemma WokenFlush(s: State, t: Tid)
    requires Midway(s) && s.wakeq == [t] && s.threads[s.cur].Run()
    requires t in s.threads && !s.threads[t].susp
    ensures t != s.cur
    ensures var p := s.threads[t].priority;
      var f := FlushAll(s);
      && f.threads[s.cur].resched == (s.threads[s.cur].resched || p < s.maxpri)
      && f.runq == s.runq[p := s.runq[p] + [t]]
      && f.maxpri == (if p < s.maxpri then p else s.maxpri)
      && f.threads[s.cur].Run() && f.threads[s.cur].priority == s.threads[s.cur].priority
  {
    assert t in s.wakeq;
    assert !s.threads[t].exit;
    hide Queues, Base, Marked, Kept, Follows;
    FlushSingle(s, t);
  }

  lemma FlushSingle(s: State, t: Tid)
    requires s.cur in s.threads && s.wakeq == [t] && t in s.threads && t != s.cur
    requires !s.threads[t].susp && !s.threads[t].exit
    ensures var p := s.threads[t].priority;
      var f := Flush(s);
      && f.threads[s.cur].resched == (s.threads[s.cur].resched || p < s.maxpri)
      && f.runq == s.runq[p := s.runq[p] + [t]]
      && f.maxpri == (if p < s.maxpri then p else s.maxpri)
      && f.threads[s.cur].Run() == s.threads[s.cur].Run()
      && f.threads[s.cur].priority == s.threads[s.cur].priority
  {
    hide Kept;
    var f := FlushOne(s);
    assert f.wakeq == [];
    assert Flush(s) == f;
  }

  lemma WokenSwitch(s: State, f: State, t: Tid)
    requires s.cur in s.threads && f.cur == s.cur && f.cur in f.threads && t in s.threads && t != s.cur
    requires f.threads[f.cur].Run() && f.threads[f.cur].priority == s.threads[s.cur].priority
    requires var p := s.threads[t].priority;
      && f.runq == s.runq[p := s.runq[p] + [t]] && f.maxpri == p && p < s.maxpri
    requires s.maxpri == Best(s.runq)
    ensures var s1 := Requeue(f, InUnlock); s1.runq[s1.maxpri] != []
    ensures Swtch(f, InUnlock).cur == if s.threads[t].priority <= s.threads[s.cur].priority then t else s.cur
  {
    var p, c := s.threads[t].priority, s.threads[s.cur].priority;
    assert s.runq[p] == [];
    assert c < p ==> s.runq[c] == [];
    hide Best;
    assert f.runq[p] == [t];
  }

  // ----- Order within a priority level -----

  /** The threads of a level in the order in which they run: the current
      thread, if it is of this level, then the run queue. */
  function Level(s: State, p: Pri): seq<Tid>
    requires s.cur in s.threads
  {
    (if s.threads[s.cur].priority == p then [s.cur] else []) + s.runq[p]
  }

  ghost predicate Rotated<T>(a: seq<T>, b: seq<T>) {
    exists k :: 0 <= k <= |a| && b == a[k..] + a[..k]
  }

  lemma RotatedSame<T>(a: seq<T>)
    ensures Rotated(a, a)
  {
    assert a == a[0..] + a[..0];
  }

  lemma RotatedOne<T>(a: seq<T>)
    requires a != []
    ensures Rotated(a, a[1..] + [a[0]])
  {
    assert a[..1] == [a[0]];
  }

  lemma RotatedTrans<T>(a: seq<T>, b: seq<T>, c: seq<T>)
    requires Rotated(a, b) && Rotated(b, c)
    ensures Rotated(a, c)
  {
    var j :| 0 <= j <= |a| && b == a[j..] + a[..j];
    var k :| 0 <= k <= |b| && c == b[k..] + b[..k];
    RotateTwice(a, j, k);
  }

  lemma RotateTwice<T>(a: seq<T>, j: nat, k: nat)
    requires j <= |a| && k <= |a|
    ensures var b := a[j..] + a[..j]; Rotated(a, b[k..] + b[..k])
  {
    var b := a[j..] + a[..j];
    if j + k <= |a| {
      assert b[k..] == a[j + k..] + a[..j];
      assert b[..k] == a[j..j + k];
      assert a[..j + k] == a[..j] + a[j..j + k];
      assert b[k..] + b[..k] == a[j + k..] + a[..j + k];
    } else {
      var m := j + k - |a|;
      assert b[k..] == a[m..j];
      assert b[..k] == a[j..] + a[..m];
      assert a[m..] == a[m..j] + a[j..];
      assert b[k..] + b[..k] == a[m..] + a[..m];
    }
  }

  /** No thread of level `p` is asleep, suspended or terminated. */
  ghost predicate Steady(s: State, p: Pri) {
    s.cur in s.threads && forall t :: t in s.threads && s.threads[t].priority == p ==> s.threads[t].Run()
  }

  /** The level's threads and order are carried over. */
  ghost predicate Turns(s: State, r: State, p: Pri) {
    Steady(s, p) && Steady(r, p) && Rotated(Level(s, p), Level(r, p))
  }

  lemma TurnsTrans(a: State, b: State, c: State, p: Pri)
    requires Turns(a, b, p) && Turns(b, c, p)
    ensures Turns(a, c, p)
  {
    RotatedTrans(Level(a, p), Level(b, p), Level(c, p));
    hide Rotated;
  }

  /** Same current thread, same queue of this level, nobody of this level changed. */
  lemma TurnsSame(s: State, r: State, p: Pri)
    requires Steady(s, p) && r.cur == s.cur && r.threads.Keys == s.threads.Keys && r.runq[p] == s.runq[p]
    requires forall t :: t in s.threads ==>
      (s.threads[t].priority == p <==> r.threads[t].priority == p)
      && (s.threads[t].priority == p && s.threads[t].Run() ==> r.threads[t].Run())
    ensures Turns(s, r, p)
  {
    RotatedSame(Level(s, p));
    hide Rotated;
  }

  lemma {:induction false} FlushTurns(s: State, p: Pri)
    requires Steady(s, p) && Midway(s) && Known(s.wakeq, s.threads)
    ensures Turns(s, Flush(s), p)
    decreases |s.wakeq|
  {
    if s.wakeq == [] {
      TurnsSame(s, s, p);
      hide Turns;
    } else {
      var t := s.wakeq[0];
      assert t in s.wakeq;
      assert s.threads[t].sleep;
      FlushOneOk(s);
      hide Midway, Turns, Kept;
      FlushOneLevel(s, p);
      TurnsSame(s, FlushOne(s), p);
      hide FlushOne;
      WakeqKnown(FlushOne(s));
      TurnsSteady(s, FlushOne(s), p);
      FlushTurns(FlushOne(s), p);
      TurnsTrans(s, FlushOne(s), Flush(s), p);
    }
  }

  lemma FlushOneLevel(s: State, p: Pri)
    requires s.cur in s.threads && s.wakeq != [] && s.wakeq[0] in s.threads
    requires s.threads[s.wakeq[0]].priority != p
    ensures FlushOne(s).runq[p] == s.runq[p]
    ensures forall t :: t in s.threads && s.threads[t].Run() ==> FlushOne(s).threads[t].Run()
  {
  }

  lemma TurnsSteady(s: State, r: State, p: Pri)
    requires Turns(s, r, p)
    ensures Steady(r, p) && r.cur in r.threads
  {
  }

  lemma {:induction false} WakeupTurns(s: State, e: Event, p: Pri)
    requires Steady(s, p) && Known(SleepQ(s.sleepq, e), s.threads)
    ensures Turns(s, Wakeup(s, e), p)
  {
    WakeupRuns(s, e);
    TurnsSame(s, Wakeup(s, e), p);
    hide Turns;
  }

  lemma {:induction false} WakeupRuns(s: State, e: Event)
    requires Known(SleepQ(s.sleepq, e), s.threads)
    ensures forall t :: t in s.threads && s.threads[t].Run() ==> Wakeup(s, e).threads[t].Run()
    decreases |SleepQ(s.sleepq, e)|
  {
    var q := SleepQ(s.sleepq, e);
    if q != [] {
      WakeupRuns(Awaken(s, e, q[0], 0), e);
    }
  }

  lemma {:induction false} IsrTurns(s: State, es: seq<Event>, p: Pri)
    requires Steady(s, p) && Inv(s)
    ensures Turns(s, Isr(s, es), p)
    decreases |es|
  {
    hide Inv, Turns, Kept;
    if es == [] {
      TurnsSame(s, s, p);
    } else {
      SleepKnown(s, es[0]);
      WakeupOk(s, es[0]);
      WakeupTurns(s, es[0], p);
      hide Wakeup;
      TurnsSteady(s, Wakeup(s, es[0]), p);
      IsrTurns(Wakeup(s, es[0]), es[1..], p);
      TurnsTrans(s, Wakeup(s, es[0]), Isr(s, es), p);
    }
  }

  /** One switch rotates every steady level by at most one place. */
  lemma SwtchTurns(s: State, at: Resume, p: Pri)
    requires Steady(s, p) && SwtchReady(s, at)
    ensures Turns(s, SwitchAway(s, at), p)
  {
    SwtchOk(s, at);
    RequeueThreads(s, at);
    RequeueOk(s, at);
    SwtchLevel(s, at, p);
    hide Inv, SwtchReady, Kept, Queues, Caches, Follows, Rotated;
    SwtchSteady(s, at, p);
  }

  lemma SwtchSteady(s: State, at: Resume, p: Pri)
    requires Steady(s, p)
    requires var s1 := Requeue(s, at); s1.runq[s1.maxpri] != []
    ensures var r := Swtch(s, at); r.cur in r.threads ==> Steady(r, p)
  {
    RequeueThreads(s, at);
    hide Requeue;
  }

  lemma SwtchLevel(s: State, at: Resume, p: Pri)
    requires Steady(s, p) && s.maxpri == Best(s.runq)
    requires var s1 := Requeue(s, at);
      && s1.runq[s1.maxpri] != [] && RunqOk(s1.runq, s1.threads, {})
    ensures var r := Swtch(s, at); r.cur in r.threads && Rotated(Level(s, p), Level(r, p))
  {
    RequeueLevel(s, at, p);
    hide Best, Requeue;
    var s1 := Requeue(s, at);
    DequeueLevel(s1, p);
    hide RunqOk, RunqDequeue, Rotated;
    var l := Level(s, p);
    RotatedSame(l);
    if l != [] { RotatedOne(l); }
  }

  lemma DequeueLevel(s: State, p: Pri)
    requires s.runq[s.maxpri] != [] && RunqOk(s.runq, s.threads, {})
    ensures var r := RunqDequeue(s).(cur := s.runq[s.maxpri][0]);
      r.cur in r.threads && Level(r, p) == s.runq[p]
  {
    hide Best;
    assert s.runq[s.maxpri][0] in s.runq[s.maxpri];
  }

  lemma RequeueLevel(s: State, at: Resume, p: Pri)
    requires Steady(s, p) && s.maxpri == Best(s.runq)
    ensures var l, q := Level(s, p), Requeue(s, at).runq[p];
      q == l || (l != [] && q == l[1..] + [l[0]])
  {
    assert p < s.maxpri ==> s.runq[p] == [];
    hide Best;
  }

  lemma LockTurns(s: State, p: Pri)
    requires Steady(s, p)
    ensures Turns(s, Lock(s), p)
    ensures s.threads[s.cur].locks > 0 ==> Turns(s, DropLock(s), p)
  {
    TurnsSame(s, Lock(s), p);
    if s.threads[s.cur].locks > 0 {
      TurnsSame(s, DropLock(s), p);
    }
    hide Turns;
  }

  lemma FlushAllTurns(s: State, p: Pri)
    requires Steady(s, p) && Midway(s)
    ensures Turns(s, FlushAll(s), p)
  {
    WakeqKnown(s);
    FlushTurns(s, p);
    hide Midway, Turns, Kept, Follows;
  }

  lemma WindowTurns(s: State, p: Pri)
    requires Steady(s, p) && Inv(s) && s.pending != []
    ensures Turns(s, Window(s), p)
  {
    hide Inv, Turns, Kept, Follows, Midway;
    PendingOk(s, s.pending[1..]);
    var s0 := s.(pending := s.pending[1..]);
    TurnsSame(s, s0, p);
    IsrTurns(s0, s.pending[0], p);
    var s1 := Isr(s0, s.pending[0]);
    InvReady(s1);
    InvIsMidway(s1);
    TurnsSteady(s0, s1, p);
    FlushAllTurns(s1, p);
    TurnsTrans(s, s0, s1, p);
    TurnsTrans(s, s1, FlushAll(s1), p);
    hide FlushAll, Isr;
  }

  lemma {:induction false} UnlockLoopTurns(s: State, p: Pri)
    requires Steady(s, p) && Inv(s) && s.wakeq == [] && s.cur in s.threads && s.threads[s.cur].locks == 1
    ensures Turns(s, UnlockLoop(s), p)
    decreases |s.pending|, 1
  {
    InvReady(s);
    hide Inv, Turns, Kept, Follows, SwtchReady, ResumeOk;
    if !s.threads[s.cur].resched {
      LockTurns(s, p);
    } else {
      var n := SwitchAway(s, InUnlock);
      SwtchTurns(s, InUnlock, p);
      TurnsSteady(s, n, p);
      ResumedTurns(n, p);
      TurnsTrans(s, n, Resumed(n), p);
      hide SwitchAway, Resumed;
    }
  }

  lemma {:induction false} ResumedTurns(s: State, p: Pri)
    requires Steady(s, p) && Settled(s) && s.cur in s.threads && ResumeOk(s.threads[s.cur])
    ensures Turns(s, Resumed(s), p)
    decreases |s.pending|, 0
  {
    hide Inv, Turns, Kept, Follows;
    match s.threads[s.cur].resume
    case Entry => TurnsSame(s, s, p);
    case InSleep => LockTurns(s, p);
    case InUnlock =>
      if s.pending == [] {
        LockTurns(s, p);
      } else {
        WindowTurns(s, p);
        TurnsSteady(s, Window(s), p);
        UnlockLoopTurns(Window(s), p);
        TurnsTrans(s, Window(s), UnlockLoop(Window(s)), p);
        hide Window, UnlockLoop;
      }
  }

  lemma UnlockTurns(s: State, p: Pri)
    requires Steady(s, p) && Inv(s) && s.cur in s.threads && s.threads[s.cur].locks > 0
    ensures Turns(s, Unlock(s), p)
  {
    InvReady(s);
    InvIsMidway(s);
    hide Inv, Turns, Kept, Follows, Midway;
    if s.threads[s.cur].locks == 1 {
      var f := FlushAll(s);
      FlushAllTurns(s, p);
      TurnsSteady(s, f, p);
      InvIsMidway(f);
      UnlockLoopTurns(f, p);
      TurnsTrans(s, f, UnlockLoop(f), p);
      hide FlushAll, UnlockLoop;
    } else {
      LockTurns(s, p);
    }
  }

  lemma TsleepTurns(s: State, e: Event, timed: bool, p: Pri)
    requires Steady(s, p) && Inv(s) && s.cur != IDLE && s.cur in s.threads && !s.threads[s.cur].exit
    requires s.threads[s.cur].priority != p
    ensures Turns(s, Tsleep(s, e, timed), p)
  {
    hide Inv, Turns, Kept, Follows, Midway, SwtchReady, ResumeOk;
    var q := SchedSwitch.QueueSelf(s, e, timed);
    TurnsSame(s, q, p);
    TurnsSteady(s, q, p);
    FlushAllTurns(q, p);
    var g := GoToSleep(s, e, timed);
    assert g == FlushAll(q);
    TurnsSteady(q, g, p);
    SwtchTurns(g, InSleep, p);
    var n := SwitchAway(g, InSleep);
    TurnsSteady(g, n, p);
    ResumedTurns(n, p);
    TurnsTrans(s, q, g, p);
    TurnsTrans(s, g, n, p);
    TurnsTrans(s, n, Resumed(n), p);
    hide FlushAll, SwitchAway, Resumed, GoToSleep, SchedSwitch.QueueSelf;
  }

  // ----- Runs -----

  datatype Op =
    | OpLock | OpUnlock | OpSleep(e: Event, timed: bool) | OpWakeup(e: Event) | OpWakeone(e: Event)
    | OpUnsleep(t: Tid, ret: int) | OpYield | OpTick | OpSetPri(t: Tid, basepri: Pri, pri: Pri)
    | OpSuspend(t: Tid) | OpResume(t: Tid) | OpStop(t: Tid) | OpCreate(t: Tid, pri: Pri, policy: Policy)

  /** What the source demands of the callers: the scheduler is unlocked only
      when locked, the idle thread neither sleeps nor is touched, terminated
      threads are not operated on, and a thread does not resume itself. */
  ghost predicate Can(s: State, op: Op)
    requires s.cur in s.threads
  {
    match op
    case OpUnlock => s.threads[s.cur].locks > 0
    case OpSleep(_, _) => s.cur != IDLE && !s.threads[s.cur].exit
    case OpUnsleep(t, _) => t in s.threads
    case OpSetPri(t, _, _) => t in s.threads && t != IDLE
    case OpSuspend(t) => t in s.threads && t != IDLE && !s.threads[t].exit
    case OpResume(t) => t in s.threads && t != IDLE && t != s.cur
    case OpStop(t) => t in s.threads && t != IDLE && !s.threads[t].exit
    case OpCreate(t, _, _) => t !in s.threads
    case _ => true
  }

  ghost function Apply(s: State, op: Op): State
    requires Inv(s) && s.cur in s.threads && Can(s, op)
  {
    match op
    case OpLock => Lock(s)
    case OpUnlock => Unlock(s)
    case OpSleep(e, timed) => Tsleep(s, e, timed)
    case OpWakeup(e) => SleepKnown(s, e); Wakeup(s, e)
    case OpWakeone(e) => SleepKnown(s, e); Wakeone(s, e)
    case OpUnsleep(t, ret) => Unsleep(s, t, ret)
    case OpYield => Yield(s)
    case OpTick => Tick(s)
    case OpSetPri(t, b, p) => SetPri(s, t, b, p)
    case OpSuspend(t) => Suspend(s, t)
    case OpResume(t) => ResumeThread(s, t)
    case OpStop(t) => Stop(s, t)
    case OpCreate(t, p, policy) => Create(s, t, p, policy)
  }

  lemma ApplyOk(s: State, op: Op)
    requires Inv(s) && s.cur in s.threads && Can(s, op)
    ensures Inv(Apply(s, op))
  {
    hide Inv, Follows, Kept;
    match op
    case OpLock => LockOk(s);
    case OpUnlock =>
    case OpSleep(_, _) =>
    case OpWakeup(e) => SleepKnown(s, e); WakeupOk(s, e);
    case OpWakeone(e) => SleepKnown(s, e); WakeoneOk(s, e);
    case OpUnsleep(t, ret) => UnsleepOk(s, t, ret);
    case OpYield => YieldOk(s);
    case OpTick => TickOk(s);
    case OpSetPri(t, b, p) => SetPriOk(s, t, b, p);
    case OpSuspend(t) => SuspendOk(s, t);
    case OpResume(t) => ResumeThreadOk(s, t);
    case OpStop(t) => StopOk(s, t);
    case OpCreate(t, p, policy) => CreateOk(s, t, p, policy);
  }

  ghost function Do(s: State, op: Op): (r: State)
    requires Inv(s) && s.cur in s.threads && Can(s, op)
    ensures Inv(r) && r.cur in r.threads
  {
    hide Apply;
    ApplyOk(s, op);
    InvReady(Apply(s, op));
    Apply(s, op)
  }

  /** Any sequence of operations; one its caller may not make is passed over. */
  ghost function Exec(s: State, ops: seq<Op>): (r: State)
    requires Inv(s) && s.cur in s.threads
    ensures Inv(r) && r.cur in r.threads
    decreases |ops|
  {
    hide Inv, Do;
    if ops == [] then s
    else Exec(if Can(s, ops[0]) then Do(s, ops[0]) else s, ops[1..])
  }

  /** Thread `t` is ready with a better priority than the current thread. */
  predicate Beats(s: State, t: Tid)
    requires t in s.threads && s.cur in s.threads
  {
    s.threads[t].Run() && s.threads[t].priority < s.threads[s.cur].priority
  }

  /** In every state that any operations and interrupts reach: each thread has
      one place, `maxpri` is the best level in use, only the current thread can
      be marked, and it is marked whenever a better thread is ready. */
  lemma EveryRun(interrupts: seq<seq<Event>>, ops: seq<Op>)
    ensures Inv(Init(interrupts)) && Init(interrupts).cur in Init(interrupts).threads
    ensures var s := Exec(Init(interrupts), ops);
      && (forall t :: t in s.threads ==> exists pl :: At(s, t, pl) && forall q :: At(s, t, q) ==> q == pl)
      && (s.maxpri < MINPRI ==> s.runq[s.maxpri] != [])
      && (forall p :: 0 <= p < s.maxpri ==> s.runq[p] == [])
      && (forall t :: t in s.threads && s.threads[t].resched ==> t == s.cur)
      && (forall t :: t in s.threads && Beats(s, t) ==> s.threads[s.cur].resched)
  {
    InitOk(interrupts);
    InvReady(Init(interrupts));
    var s := Exec(Init(interrupts), ops);
    InvMeans(s);
    hide At, Exec, Inv;
  }

  lemma InvMeans(s: State)
    requires Inv(s)
    ensures s.cur in s.threads
    ensures forall t :: t in s.threads ==> exists pl :: At(s, t, pl) && forall q :: At(s, t, q) ==> q == pl
    ensures s.maxpri < MINPRI ==> s.runq[s.maxpri] != []
    ensures forall p :: 0 <= p < s.maxpri ==> s.runq[p] == []
    ensures forall t :: t in s.threads && s.threads[t].resched ==> t == s.cur
    ensures forall t :: t in s.threads && Beats(s, t) ==> s.threads[s.cur].resched
  {
    InvReady(s);
    forall t | t in s.threads
      ensures exists pl :: At(s, t, pl) && forall q :: At(s, t, q) ==> q == pl
    {
      var pl := OnePlace(s, t);
    }
    hide At, WakeqOk, SleepqOk, SleepersOk;
    forall t | t in s.threads && Beats(s, t)
      ensures s.threads[s.cur].resched
    {
      assert t in s.runq[s.threads[t].priority];
    }
  }

  /** The operation does not single out a thread of level `p`. */
  ghost predicate Spares(s: State, op: Op, p: Pri)
    requires s.cur in s.threads && Can(s, op)
  {
    match op
    case OpSleep(_, _) => s.threads[s.cur].priority != p
    case OpSetPri(t, _, pri) => s.threads[t].priority != p && pri != p
    case OpSuspend(t) => s.threads[t].priority != p
    case OpStop(t) => s.threads[t].priority != p
    case OpCreate(_, pri, _) => pri != p
    case _ => true
  }

  lemma DoTurns(s: State, op: Op, p: Pri)
    requires Inv(s) && s.cur in s.threads && Can(s, op) && Steady(s, p) && Spares(s, op, p)
    ensures Turns(s, Do(s, op), p)
  {
    hide Inv, Turns, Follows, Kept, Settled, Best;
    match op
    case OpLock => LockTurns(s, p);
    case OpUnlock => UnlockTurns(s, p);
    case OpSleep(e, timed) => TsleepTurns(s, e, timed, p);
    case OpWakeup(e) => SleepKnown(s, e); WakeupTurns(s, e, p);
    case OpWakeone(e) => SleepKnown(s, e); WakeoneTurns(s, e, p);
    case OpUnsleep(t, ret) => UnsleepTurns(s, t, ret, p);
    case OpYield => MarkTurns(s, p);
    case OpTick => MarkTurns(s, p);
    case OpSetPri(t, b, pri) => SetPriTurns(s, t, b, pri, p);
    case OpSuspend(t) => SuspendTurns(s, t, p);
    case OpResume(t) => ResumeTurns(s, t, p);
    case OpStop(t) => StopTurns(s, t, p);
    case OpCreate(t, pri, policy) => CreateTurns(s, t, pri, policy, p);
  }

  lemma WakeoneTurns(s: State, e: Event, p: Pri)
    requires Steady(s, p) && Known(SleepQ(s.sleepq, e), s.threads)
    ensures Turns(s, Wakeone(s, e), p)
  {
    hide Turns;
    TurnsSame(s, Wakeone(s, e), p);
  }

  lemma UnsleepTurns(s: State, t: Tid, ret: int, p: Pri)
    requires Steady(s, p) && t in s.threads
    ensures Turns(s, Unsleep(s, t, ret), p)
  {
    hide Turns;
    TurnsSame(s, Unsleep(s, t, ret), p);
  }

  lemma CurTurns(s: State, th: Thread, p: Pri)
    requires Steady(s, p)
    requires th.priority == s.threads[s.cur].priority && th.Run() == s.threads[s.cur].Run()
    ensures Turns(s, SetThread(s, s.cur, th), p)
  {
    hide Turns;
    TurnsSame(s, SetThread(s, s.cur, th), p);
  }

  lemma MarkTurns(s: State, p: Pri)
    requires s.cur in s.threads && Steady(s, p)
    ensures Turns(s, Yield(s), p) && Turns(s, Tick(s), p)
  {
    hide Turns, Steady, Level;
    CurTurns(s, s.threads[s.cur], p);
    assert SetThread(s, s.cur, s.threads[s.cur]) == s;
    CurTurns(s, Yield(s).threads[s.cur], p);
    CurTurns(s, Tick(s).threads[s.cur], p);
  }

  lemma SuspendTurns(s: State, t: Tid, p: Pri)
    requires Steady(s, p) && t in s.threads && s.threads[t].priority != p
    ensures Turns(s, Suspend(s, t), p)
  {
    hide Turns, Best;
    TurnsSame(s, Suspend(s, t), p);
  }

  lemma ResumeTurns(s: State, t: Tid, p: Pri)
    requires Steady(s, p) && t in s.threads
    ensures Turns(s, ResumeThread(s, t), p)
  {
    hide Turns, Best;
    TurnsSame(s, ResumeThread(s, t), p);
  }

  lemma StopTurns(s: State, t: Tid, p: Pri)
    requires Steady(s, p) && t in s.threads && s.threads[t].priority != p
    ensures Turns(s, Stop(s, t), p)
  {
    hide Turns, Best;
    TurnsSame(s, Stop(s, t), p);
  }

  lemma SetPriTurns(s: State, t: Tid, b: Pri, pri: Pri, p: Pri)
    requires Steady(s, p) && t in s.threads && s.threads[t].priority != p && pri != p
    ensures Turns(s, SetPri(s, t, b, pri), p)
  {
    hide Best, Turns;
    var r := SetPri(s, t, b, pri);
    SetPriLevel(s, t, b, pri, p);
    hide SetPri;
    TurnsSame(s, r, p);
  }

  lemma SetPriLevel(s: State, t: Tid, b: Pri, pri: Pri, p: Pri)
    requires s.cur in s.threads && t in s.threads && s.threads[t].priority != p && pri != p
    ensures var r := SetPri(s, t, b, pri);
      && r.cur == s.cur && r.threads.Keys == s.threads.Keys && r.runq[p] == s.runq[p]
      && (forall x :: x in s.threads ==>
            r.threads[x].priority == (if x == t then pri else s.threads[x].priority)
            && r.threads[x].Run() == s.threads[x].Run())
  {
    hide Best;
    var s0 := SetThread(s, t, s.threads[t].(basepri := b));
    if t != s.cur && s0.threads[t].Run() {
      RequeuedLevel(s0, t, pri, p);
      assert SetPri(s, t, b, pri) == Requeued(s0, t, pri);
      hide Requeued, SetPri;
    }
  }

  lemma RequeuedLevel(s: State, t: Tid, pri: Pri, p: Pri)
    requires s.cur in s.threads && t in s.threads && s.threads[t].priority != p && pri != p
    ensures var r := Requeued(s, t, pri);
      && r.cur == s.cur && r.threads.Keys == s.threads.Keys && r.runq[p] == s.runq[p]
      && (forall x :: x in s.threads ==>
            r.threads[x].priority == (if x == t then pri else s.threads[x].priority)
            && r.threads[x].Run() == s.threads[x].Run())
  {
    hide Best;
  }

  lemma CreateTurns(s: State, t: Tid, pri: Pri, policy: Policy, p: Pri)
    requires Steady(s, p) && t !in s.threads && pri != p
    ensures Turns(s, Create(s, t, pri, policy), p)
  {
    RotatedSame(Level(s, p));
    hide Rotated;
  }

  ghost predicate AllSpare(s: State, ops: seq<Op>, p: Pri)
    requires Inv(s) && s.cur in s.threads
    decreases |ops|
  {
    hide Inv, Do;
    ops == []
    || (Can(s, ops[0]) && Spares(s, ops[0], p) && AllSpare(Do(s, ops[0]), ops[1..], p))
  }

  /** While no thread enters or leaves a level, the running thread and its run
      queue only ever rotate. */
  lemma {:induction false} OnlyRotates(s: State, ops: seq<Op>, p: Pri)
    requires Inv(s) && s.cur in s.threads && Steady(s, p) && AllSpare(s, ops, p)
    ensures var r := Exec(s, ops); Rotated(Level(s, p), Level(r, p)) && Steady(r, p)
    decreases |ops|
  {
    hide Inv, Do, Rotated;
    if ops == [] {
      RotatedSame(Level(s, p));
    } else {
      var s1 := Do(s, ops[0]);
      DoTurns(s, ops[0], p);
      OnlyRotates(s1, ops[1..], p);
      RotatedTrans(Level(s, p), Level(s1, p), Level(Exec(s1, ops[1..]), p));
    }
  }
}
