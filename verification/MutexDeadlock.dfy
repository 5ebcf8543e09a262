/** Real deadlocks. mutex_lock follows mutex_waiting pointers, and a sleeper
    whose pointer was cleared by mistake is invisible to it; how the report of
    sched_wakeone decides whether that can happen. */
module MutexDeadlock {
  import opened Lists
  import opened Sched
  import opened SchedInv
  import opened SchedSwitch
  import opened SchedRuns
  import opened Graph
  import opened Mutex
  import opened MutexInv
  import opened MutexSteps
  import opened MutexHandOff
  import opened MutexRuns

  /** The real wait-for graph: from each sleeper to the holder of its mutex. */
  function Blockers(ms: MState): Edges {
    map t | t in ms.inlock && t in SleepQ(ms.s.sleepq, ms.inlock[t])
         && ms.inlock[t] in ms.mx && ms.mx[ms.inlock[t]].holder.Some?
      :: ms.mx[ms.inlock[t]].holder.value
  }

  /** A real deadlock is answered with EDEADLK exactly when every sleeper on the
      way from the holder to the caller has its pointer set. */
  lemma DetectionExact(ms: MState, m: Mid)
    requires MInv(ms) && Inv(ms.s) && Caller(ms) && Contended(ms, m)
    requires Reaches(Blockers(ms), ms.mx[m].holder.value, ms.s.cur)
    ensures LockReady(ms, m)
    ensures MutexLock(ms, m).1 == EDEADLK <==>
      forall t :: Reaches(Blockers(ms), ms.mx[m].holder.value, t) && t in Blockers(ms) ==> t in ms.waiting
    ensures MutexLock(ms, m).1 == EDEADLK || MutexLock(ms, m).1 == Blocked
  {
    hide MInv, Inv, Tables, LockReady, MutexLock, Blockers, Pointers, Acyclic, Reaches, Waiters, Ownership;
    MutexLockOk(ms, m);
    MInvInv(ms);
    TablesParts(ms, {});
    CallerIsFree(ms);
    var g, b, c := Pointers(ms), ms.mx[m].holder.value, ms.s.cur;
    CallerNoPointer(ms);
    AddEdge(g, c, b);
    BlockersPointed(ms);
    var n := StepsTo(Blockers(ms), b, c);
    PathShared(g, Blockers(ms), b, c, n);
  }

  lemma StepsTo(g: Edges, b: Tid, c: Tid) returns (n: nat)
    requires Reaches(g, b, c)
    ensures Walk(g, b, n) == Some(c)
  {
    n :| Walk(g, b, n) == Some(c);
  }

  lemma CallerNoPointer(ms: MState)
    requires ms.s.cur !in ms.waiting && ms.s.cur !in ms.inlock
    ensures ms.s.cur !in Pointers(ms) && ms.s.cur !in Blockers(ms)
  {
  }

  /** Where a sleeper has a pointer, it is to the holder it waits for. */
  lemma BlockersPointed(ms: MState)
    requires Waiters(ms.mx, ms.s.sleepq, ms.waiting, ms.inlock, ms.s.threads, {})
    ensures forall t :: t in Blockers(ms) ==> (t in Pointers(ms) <==> t in ms.waiting)
    ensures forall t :: t in Blockers(ms) && t in Pointers(ms) ==> Pointers(ms)[t] == Blockers(ms)[t]
  {
    hide InFlight, SleepQ;
  }

  /** Every sleeper that holds a mutex itself has its pointer set: nobody waits for
      the others, so theirs do not matter. */
  ghost predicate OwnersPointed(mx: map<Mid, Mutex>, q: map<Event, seq<Tid>>,
                                waiting: map<Tid, Mid>, held: map<Tid, seq<Mid>>)
  {
    forall m, t :: m in mx && t in SleepQ(q, m) && HeldBy(held, t) != [] ==> t in waiting && waiting[t] == m
  }

  /** While these pointers are set, locking a mutex whose holder really waits,
      however indirectly, for the caller returns EDEADLK. */
  lemma RealDeadlockDetected(ms: MState, m: Mid)
    requires MInv(ms) && Inv(ms.s) && Caller(ms) && Contended(ms, m)
    requires OwnersPointed(ms.mx, ms.s.sleepq, ms.waiting, ms.held)
    requires Reaches(Blockers(ms), ms.mx[m].holder.value, ms.s.cur)
    ensures LockReady(ms, m) && MutexLock(ms, m).1 == EDEADLK
  {
    hide MInv, Inv, Tables, LockReady, MutexLock, Blockers, Acyclic, Pointers, Reaches, Waiters, Ownership, OwnersPointed;
    DetectionExact(ms, m);
    MInvInv(ms);
    TablesParts(ms, {});
    CallerIsFree(ms);
    CallerNoPointer(ms);
    var n := StepsTo(Blockers(ms), ms.mx[m].holder.value, ms.s.cur);
    OwnersOnPath(ms, m, ms.s.cur, n);
  }

  /** The threads on the way to the caller are holders that sleep. */
  lemma {:induction false} OwnersOnPath(ms: MState, j: Mid, c: Tid, n: nat)
    requires Ownership(ms.mx, ms.held, ms.s.threads)
    requires Waiters(ms.mx, ms.s.sleepq, ms.waiting, ms.inlock, ms.s.threads, {})
    requires OwnersPointed(ms.mx, ms.s.sleepq, ms.waiting, ms.held)
    requires j in ms.mx && ms.mx[j].holder.Some? && c !in Blockers(ms)
    requires Walk(Blockers(ms), ms.mx[j].holder.value, n) == Some(c)
    ensures forall t :: Reaches(Blockers(ms), ms.mx[j].holder.value, t) && t in Blockers(ms) ==> t in ms.waiting
    decreases n
  {
    hide Ownership, Waiters, OwnersPointed, Reaches, Blockers;
    var g, b := Blockers(ms), ms.mx[j].holder.value;
    forall t ensures if b in g then (Reaches(g, b, t) <==> b == t || Reaches(g, g[b], t)) else Reaches(g, b, t) ==> b == t {
      ReachesStep(g, b, t);
    }
    if n > 0 {
      OwnerWaits(ms, j);
      if g[b] == b {
        SelfLoop(g, b, n);
      }
      OwnersOnPath(ms, ms.inlock[b], c, n - 1);
    }
  }

  /** A sleeping holder has its pointer set, unless it is the one reported for the
      very mutex it sleeps on. */
  lemma OwnerWaits(ms: MState, j: Mid)
    requires Ownership(ms.mx, ms.held, ms.s.threads)
    requires Waiters(ms.mx, ms.s.sleepq, ms.waiting, ms.inlock, ms.s.threads, {})
    requires OwnersPointed(ms.mx, ms.s.sleepq, ms.waiting, ms.held)
    requires j in ms.mx && ms.mx[j].holder.Some? && ms.mx[j].holder.value in Blockers(ms)
    ensures var b := ms.mx[j].holder.value;
      && b in ms.inlock && ms.inlock[b] in ms.mx && ms.mx[ms.inlock[b]].holder == Some(Blockers(ms)[b])
      && (b in ms.waiting || Blockers(ms)[b] == b)
  {
    hide NoDup, InFlight, SleepQ;
    var b := ms.mx[j].holder.value;
    if ms.mx[j].locks > 0 {
      assert j in HeldBy(ms.held, b);
    } else {
      assert InLock(ms.inlock, b, j);
    }
  }

  // ----- The report of sched_wakeone -----

  /** One sleeper `top` leaves the queue and the pointer of `t` is cleared. */
  lemma ClearOne(mx: map<Mid, Mutex>, mx': map<Mid, Mutex>, q: map<Event, seq<Tid>>, r: map<Event, seq<Tid>>,
                 waiting: map<Tid, Mid>, held: map<Tid, seq<Mid>>, m: Mid, t: Tid, top: Tid)
    requires OwnersPointed(mx, q, waiting, held) && m in mx && mx'.Keys == mx.Keys
    requires t in SleepQ(q, m) && forall j :: j != m && j in mx ==> t !in SleepQ(q, j)
    requires forall x :: x in SleepQ(r, m) <==> x in SleepQ(q, m) && x != top
    requires forall e :: e != m ==> SleepQ(r, e) == SleepQ(q, e)
    ensures OwnersPointed(mx', r, waiting - {t}, held) <==> t == top || HeldBy(held, t) == []
  {
    if t != top && HeldBy(held, t) != [] {
      assert t in SleepQ(r, m) && t !in waiting - {t};
    }
  }

  lemma HandOffPointed(ms: MState, m: Mid, t: Tid)
    requires m in ms.mx && Known(SleepQ(ms.s.sleepq, m), ms.s.threads) && NoDup(SleepQ(ms.s.sleepq, m))
    requires t in SleepQ(ms.s.sleepq, m) && t in ms.s.threads
    requires forall j :: j != m && j in ms.mx ==> t !in SleepQ(ms.s.sleepq, j)
    requires OwnersPointed(ms.mx, ms.s.sleepq, ms.waiting, ms.held)
    ensures var r := HandOff(ms, m, Some(t));
      OwnersPointed(r.mx, r.s.sleepq, r.waiting, r.held) <==>
        t == Top(ms.s.threads, SleepQ(ms.s.sleepq, m)) || HeldBy(ms.held, t) == []
  {
    var top := Top(ms.s.threads, SleepQ(ms.s.sleepq, m));
    AwakenFrame(ms.s, m, top);
    hide Awaken, Kept, NoDup, OwnersPointed, HeldBy;
    var r := HandOff(ms, m, Some(t));
    ClearOne(ms.mx, r.mx, ms.s.sleepq, r.s.sleepq, ms.waiting, ms.held, m, t, top);
  }

  /** The last unlock of a mutex with sleepers. */
  ghost predicate HandsOver(ms: MState, m: Mid) {
    && m in ms.mx && ms.mx[m].holder == Some(ms.s.cur) && ms.mx[m].locks == 1
    && SleepQ(ms.s.sleepq, m) != []
  }

  /** The pointers survive an unlock exactly when the thread that sched_wakeone
      reports is the one it woke, or holds no mutex. */
  lemma ReportDecides(ms: MState, m: Mid, t: Tid)
    requires MInv(ms) && Caller(ms) && HandsOver(ms, m) && t in SleepQ(ms.s.sleepq, m)
    requires OwnersPointed(ms.mx, ms.s.sleepq, ms.waiting, ms.held)
    ensures Known(SleepQ(ms.s.sleepq, m), ms.s.threads) && t in ms.s.threads
    ensures var r := MutexUnlockReporting(ms, m, Some(t)).0;
      OwnersPointed(r.mx, r.s.sleepq, r.waiting, r.held) <==>
        t == Top(ms.s.threads, SleepQ(ms.s.sleepq, m)) || HeldBy(ms.held, t) == []
  {
    MInvInv(ms);
    SleepKnown(ms.s, m);
    SleepDistinct(ms.s, m);
    ReportKnown(ms.s, m, Some(t));
    ReleaseOk(ms, m);
    ReleasePriorities(ms, m);
    SleepOnce(ms, m, t);
    CallerIsFree(ms);
    hide MInv, Inv, Tables, Acyclic, Pointers, Release, InFlight, HandOff, OwnersPointed;
    var l := Release(ms, m);
    TopSame(ms.s.threads, l.s.threads, SleepQ(ms.s.sleepq, m));
    ReleaseSame(ms, m);
    HandOffPointed(l, m, t);
  }

  /** The list of a thread that does not sleep may change. */
  lemma HeldPointed(mx: map<Mid, Mutex>, q: map<Event, seq<Tid>>, waiting: map<Tid, Mid>, held: map<Tid, seq<Mid>>,
                    c: Tid, l: seq<Mid>)
    requires OwnersPointed(mx, q, waiting, held) && forall j :: j in mx ==> c !in SleepQ(q, j)
    ensures OwnersPointed(mx, q, waiting, held[c := l])
  {
    hide SleepQ;
  }

  /** Who waits, and where, is the same before and after the release. */
  lemma ReleaseSame(ms: MState, m: Mid)
    requires ms.s.cur in ms.s.threads && m in ms.mx
    requires OwnersPointed(ms.mx, ms.s.sleepq, ms.waiting, ms.held)
    requires forall j :: j in ms.mx ==> ms.s.cur !in SleepQ(ms.s.sleepq, j)
    ensures var l := Release(ms, m);
      && OwnersPointed(l.mx, ms.s.sleepq, l.waiting, l.held) && l.mx.Keys == ms.mx.Keys
      && forall t :: t != ms.s.cur ==> HeldBy(l.held, t) == HeldBy(ms.held, t)
  {
    hide OwnersPointed, SleepQ, SetPri, BestOf, Remove;
    var c := ms.s.cur;
    var l := Remove(HeldBy(ms.held, c), m);
    var u := ms.(mx := ms.mx[m := ms.mx[m].(locks := 0)], held := ms.held[c := l]);
    HeldPointed(ms.mx, ms.s.sleepq, ms.waiting, ms.held, c, l);
    KeysPointed(ms.mx, u.mx, ms.s.sleepq, ms.waiting, u.held);
    assert forall t :: t != c ==> HeldBy(u.held, t) == HeldBy(ms.held, t);
  }

  lemma ReleasePriorities(ms: MState, m: Mid)
    requires Inv(ms.s) && m in ms.mx && ms.s.cur in ms.s.threads
    requires Known(SleepQ(ms.s.sleepq, m), ms.s.threads)
    ensures var l, q := Release(ms, m), SleepQ(ms.s.sleepq, m);
      && Known(q, l.s.threads)
      && forall i :: 0 <= i < |q| ==> l.s.threads[q[i]].priority == ms.s.threads[q[i]].priority
  {
    var u := ms.s;
    var th := u.threads[u.cur];
    CurNotQueued(u, m);
    hide Inv;
    var p := BestOf(Unheld(ms, m).mx, HeldBy(Unheld(ms, m).held, u.cur), th.basepri);
    SetPriFrame(u, u.cur, th.basepri, p);
    hide SetPri;
  }

  lemma CurNotQueued(s: State, m: Event)
    requires Inv(s)
    ensures forall i :: 0 <= i < |SleepQ(s.sleepq, m)| ==> SleepQ(s.sleepq, m)[i] != s.cur
  {
    hide RunqOk, WakeqOk, SleepersOk, Best;
    forall i | 0 <= i < |SleepQ(s.sleepq, m)| ensures SleepQ(s.sleepq, m)[i] != s.cur {
      var t := SleepQ(s.sleepq, m)[i];
      assert t in SleepQ(s.sleepq, m);
    }
  }

  lemma SleepOnce(ms: MState, m: Mid, t: Tid)
    requires Inv(ms.s) && t in SleepQ(ms.s.sleepq, m)
    ensures forall j :: j != m && j in ms.mx ==> t !in SleepQ(ms.s.sleepq, j)
  {
    hide RunqOk, WakeqOk, SleepersOk, Best;
    forall j | j != m && j in ms.mx ensures t !in SleepQ(ms.s.sleepq, j) {
      assert ms.s.threads[t].slpevt == Some(m);
    }
  }

  // ----- Runs in which the report is right -----

  /** The sleeper queued last is strictly better than all others. */
  ghost predicate LastIsBest(ms: MState, m: Mid)
    requires Known(SleepQ(ms.s.sleepq, m), ms.s.threads)
  {
    var q, th := SleepQ(ms.s.sleepq, m), ms.s.threads;
    forall i :: 0 <= i < |q| - 1 ==> th[q[|q| - 1]].priority < th[q[i]].priority
  }

  /** The check a caller could make before an unlock that hands over: the sleeper
      queued last is strictly better than all others, or holds no mutex. */
  ghost predicate Harmless(ms: MState, m: Mid)
    requires Known(SleepQ(ms.s.sleepq, m), ms.s.threads)
  {
    var q := SleepQ(ms.s.sleepq, m);
    LastIsBest(ms, m) || (q != [] && HeldBy(ms.held, q[|q| - 1]) == [])
  }

  /** The pointers of the sleeping owners survive a hand-over exactly when it
      passes this check. */
  lemma UnlockPointed(ms: MState, m: Mid)
    requires MInv(ms) && Inv(ms.s) && Caller(ms) && HandsOver(ms, m)
    requires OwnersPointed(ms.mx, ms.s.sleepq, ms.waiting, ms.held)
    ensures Known(SleepQ(ms.s.sleepq, m), ms.s.threads)
    ensures var r := MutexUnlock(ms, m).0;
      OwnersPointed(r.mx, r.s.sleepq, r.waiting, r.held) <==> Harmless(ms, m)
  {
    SleepKnown(ms.s, m);
    WakeoneReports(ms.s, m);
    hide MInv, Inv, OwnersPointed, MutexUnlockReporting;
    var q := SleepQ(ms.s.sleepq, m);
    assert q[|q| - 1] in q;
    ReportDecides(ms, m, q[|q| - 1]);
  }

  /** An unlock that hands nothing over leaves every pointer. */
  lemma UnlockNothing(ms: MState, m: Mid)
    requires MInv(ms) && Inv(ms.s) && Caller(ms) && !HandsOver(ms, m)
    requires OwnersPointed(ms.mx, ms.s.sleepq, ms.waiting, ms.held)
    ensures Known(SleepQ(ms.s.sleepq, m), ms.s.threads)
    ensures var r := MutexUnlock(ms, m).0; OwnersPointed(r.mx, r.s.sleepq, r.waiting, r.held)
  {
    SleepKnown(ms.s, m);
    CallerIsFree(ms);
    hide MInv, Inv, InFlight, Tables, Pointers, Acyclic;
    if m in ms.mx && ms.mx[m].holder == Some(ms.s.cur) && ms.mx[m].locks == 1 {
      ReleaseOk(ms, m);
      ReleaseSame(ms, m);
      hide Release, SleepQ, OwnersPointed;
      var l := Release(ms, m);
      KeysPointed(l.mx, l.mx[m := Mutex(None, MINPRI, 0)], l.s.sleepq, l.waiting, l.held);
    } else if m in ms.mx {
      hide SleepQ, OwnersPointed;
      KeysPointed(ms.mx, ms.mx[m := ms.mx[m].(locks := if ms.mx[m].locks > 1 then ms.mx[m].locks - 1 else 0)],
        ms.s.sleepq, ms.waiting, ms.held);
    }
  }

  lemma KeysPointed(mx: map<Mid, Mutex>, mx': map<Mid, Mutex>, q: map<Event, seq<Tid>>, waiting: map<Tid, Mid>,
                    held: map<Tid, seq<Mid>>)
    requires OwnersPointed(mx, q, waiting, held) && mx'.Keys <= mx.Keys
    ensures OwnersPointed(mx', q, waiting, held)
  {
    hide SleepQ;
  }

  lemma LockPointed(ms: MState, m: Mid)
    requires MInv(ms) && Inv(ms.s) && Caller(ms)
    requires OwnersPointed(ms.mx, ms.s.sleepq, ms.waiting, ms.held)
    ensures LockReady(ms, m)
    ensures var r := MutexLock(ms, m).0; OwnersPointed(r.mx, r.s.sleepq, r.waiting, r.held)
  {
    LockIsReady(ms, m);
    CallerIsFree(ms);
    hide MInv, Inv, LockReady, OwnersPointed;
    if Contended(ms, m) {
      LockContendedPointed(ms, m);
    } else {
      LockFreePointed(ms, m);
    }
  }

  lemma LockFreePointed(ms: MState, m: Mid)
    requires Inv(ms.s) && Caller(ms) && LockReady(ms, m) && !Contended(ms, m)
    requires OwnersPointed(ms.mx, ms.s.sleepq, ms.waiting, ms.held)
    requires forall j :: j in ms.mx ==> ms.s.cur !in SleepQ(ms.s.sleepq, j)
    ensures var r := MutexLock(ms, m).0; OwnersPointed(r.mx, r.s.sleepq, r.waiting, r.held)
  {
    hide Inv, LockReady, SleepQ, OwnersPointed;
    var r := MutexLock(ms, m).0;
    KeysPointed(ms.mx, r.mx, ms.s.sleepq, ms.waiting, ms.held);
    HeldPointed(r.mx, ms.s.sleepq, ms.waiting, ms.held, ms.s.cur, [m] + HeldBy(ms.held, ms.s.cur));
  }

  lemma LockContendedPointed(ms: MState, m: Mid)
    requires MInv(ms) && Inv(ms.s) && Caller(ms) && LockReady(ms, m) && Contended(ms, m)
    requires OwnersPointed(ms.mx, ms.s.sleepq, ms.waiting, ms.held)
    ensures var r := MutexLock(ms, m).0; OwnersPointed(r.mx, r.s.sleepq, r.waiting, r.held)
  {
    var b := Raisen(ms, m);
    RaisenOk(ms, m);
    CallerIsFree(ms);
    RaisedHolder(ms, b, m);
    RaisedKeys(ms, b);
    MInvInv(b);
    hide MInv, Inv, Inherited, PrioInherit, Raised, Raisen, LockReady, Follows, Settled, OwnersPointed, Pointers, Acyclic, Tables;
    LockContendedValue(ms, m, b);
    hide MutexLock, Tsleep;
    if !Inherited(Pointed(ms, m), ms.s.cur).dead {
      SleepPointed(b, m);
    }
  }

  lemma RaisedKeys(a: MState, b: MState)
    requires Raised(a, b)
    ensures b.mx.Keys == a.mx.Keys && b.s.sleepq == a.s.sleepq && b.s.pending == a.s.pending
    ensures OwnersPointed(a.mx, a.s.sleepq, a.waiting, a.held) ==> OwnersPointed(b.mx, b.s.sleepq, b.waiting, b.held)
  {
    hide Eased;
  }

  lemma SleepPointed(b: MState, m: Mid)
    requires Inv(b.s) && Tables(b, {}) && Caller(b) && Contended(b, m)
    requires b.s.cur !in b.waiting && OwnersPointed(b.mx, b.s.sleepq, b.waiting, b.held)
    requires forall j :: j in b.mx ==> b.s.cur !in SleepQ(b.s.sleepq, j)
    ensures var r := Queued(b, m).(s := Tsleep(b.s, m, false)); OwnersPointed(r.mx, r.s.sleepq, r.waiting, r.held)
  {
    var r := Tsleep(b.s, m, false);
    var q := b.s.sleepq[m := SleepQ(b.s.sleepq, m) + [b.s.cur]];
    TablesParts(b, {});
    hide Inv, Tables, Ownership, Waiters, Follows, Settled, Quiets, Ranks, OwnersPointed, SleepQ, Tsleep;
    FollowsQuiet(b.mx, b.s.(sleepq := q), r);
    QueuePointed(b.mx, b.s.sleepq, b.waiting, b.held, m, b.s.cur);
    SamePointed(b.mx, q, r.sleepq, b.waiting[b.s.cur := m], b.held);
  }

  lemma QueuePointed(mx: map<Mid, Mutex>, q: map<Event, seq<Tid>>, waiting: map<Tid, Mid>, held: map<Tid, seq<Mid>>,
                     m: Mid, t: Tid)
    requires OwnersPointed(mx, q, waiting, held) && t !in waiting && m in mx && forall j :: j in mx ==> t !in SleepQ(q, j)
    ensures OwnersPointed(mx, q[m := SleepQ(q, m) + [t]], waiting[t := m], held)
  {
  }

  lemma SamePointed(mx: map<Mid, Mutex>, q: map<Event, seq<Tid>>, r: map<Event, seq<Tid>>, waiting: map<Tid, Mid>,
                    held: map<Tid, seq<Mid>>)
    requires OwnersPointed(mx, q, waiting, held)
    requires forall m :: m in mx ==> SleepQ(r, m) == SleepQ(q, m)
    ensures OwnersPointed(mx, r, waiting, held)
  {
    hide SleepQ;
  }

  // ----- Whole runs -----

  /** Nothing the rest of the kernel does moves a sleeper of a mutex. */
  lemma EnvQueues(ms: MState, op: Op)
    requires Tables(ms, {}) && Inv(ms.s) && ms.s.cur in ms.s.threads && Can(ms.s, op) && Foreign(ms, op)
    ensures forall m :: m in ms.mx ==> SleepQ(Do(ms.s, op).sleepq, m) == SleepQ(ms.s.sleepq, m)
  {
    TablesParts(ms, {});
    hide Inv, Tables, Follows, Settled, Kept, Outsider, Ownership, Waiters, Quiets, SleepQ, Known,
      Wakeup, Wakeone, Unsleep, Suspend, ResumeThread, Sched.Stop, Tsleep, Unlock;
    match op
    case OpUnlock => FollowsQuiet(ms.mx, ms.s, Unlock(ms.s));
    case OpSleep(e, timed) => SleepElsewhere(ms, e, timed);
    case OpWakeup(e) => SleepKnown(ms.s, e);
    case OpWakeone(e) => SleepKnown(ms.s, e); WakeoneFrame(ms.s, e);
    case OpUnsleep(t, ret) => UnsleepQueuesKeep(ms, t, ret);
    case OpSuspend(t) => SuspendKept(ms.s, t);
    case OpResume(t) => SuspendKept(ms.s, t);
    case OpStop(t) => StopOutsider(ms, t); StopQueuesKeep(ms, t);
    case _ => OtherQueues(ms.s, op);
  }

  lemma StopOutsider(ms: MState, t: Tid)
    requires Outsider(ms.mx, ms.inlock, t)
    ensures t !in ms.inlock
  {
  }

  lemma SleepElsewhere(ms: MState, e: Event, timed: bool)
    requires Inv(ms.s) && ms.s.cur in ms.s.threads && Can(ms.s, OpSleep(e, timed)) && e !in ms.mx
    requires Quiets(ms.mx, ms.s.pending)
    ensures forall m :: m in ms.mx ==> SleepQ(Tsleep(ms.s, e, timed).sleepq, m) == SleepQ(ms.s.sleepq, m)
  {
    var a := ms.s.(sleepq := ms.s.sleepq[e := SleepQ(ms.s.sleepq, e) + [ms.s.cur]]);
    hide Inv, Follows, Settled, Quiets;
    FollowsQuiet(ms.mx, a, Tsleep(ms.s, e, timed));
  }

  lemma OtherQueues(s: State, op: Op)
    requires Inv(s) && s.cur in s.threads && Can(s, op)
    requires op.OpLock? || op.OpYield? || op.OpTick? || op.OpCreate?
    ensures Do(s, op).sleepq == s.sleepq
  {
    hide Inv;
  }

  lemma ParamPointed(ms: MState, t: Tid, p: Pri)
    requires MInv(ms) && t in ms.s.threads && ms.s.cur in ms.s.threads
    requires t in ms.waiting ==> HopsKnown(ms, Inherited(ms, t).hops)
    requires OwnersPointed(ms.mx, ms.s.sleepq, ms.waiting, ms.held)
    ensures var r := SetParam(ms, t, p); OwnersPointed(r.mx, r.s.sleepq, r.waiting, r.held)
  {
    var pri := ParamPri(ms.s.threads[t], p);
    if t in ms.waiting {
      WaiterReady(ms, t);
      InheritOk(ms, t);
      RaisedKeys(ms, PrioInherit(ms, t));
    }
    hide MInv, InheritReady, HopsKnown, Inherited, PrioInherit, OwnersPointed;
    hide ParamPri, Behind, Acyclic, Inv, Raised, SetPri, Repriced;
    var r := MutexSetpri(ms, t, pri);
    SetPriFrame(r.s, t, pri, pri);
  }

  lemma ResumePointed(ms: MState)
    requires MInv(ms) && Returning(ms) && ms.inlock[ms.s.cur] in ms.mx
    requires OwnersPointed(ms.mx, ms.s.sleepq, ms.waiting, ms.held)
    ensures var r := MutexLockResume(ms).0; OwnersPointed(r.mx, r.s.sleepq, r.waiting, r.held)
  {
    hide MInv, SleepQ, OwnersPointed;
    CurAwake(ms);
    var c := ms.s.cur;
    var r := MutexLockResume(ms).0;
    PopPointed(ms.mx, ms.s.sleepq, ms.waiting, ms.held, c);
    KeysPointed(ms.mx, r.mx, ms.s.sleepq, ms.waiting - {c}, ms.held);
    HeldPointed(r.mx, ms.s.sleepq, ms.waiting - {c}, ms.held, c, [ms.inlock[c]] + HeldBy(ms.held, c));
  }

  lemma PopPointed(mx: map<Mid, Mutex>, q: map<Event, seq<Tid>>, waiting: map<Tid, Mid>, held: map<Tid, seq<Mid>>,
                   t: Tid)
    requires OwnersPointed(mx, q, waiting, held) && forall j :: j in mx ==> t !in SleepQ(q, j)
    ensures OwnersPointed(mx, q, waiting - {t}, held)
  {
    hide SleepQ;
  }

  lemma TryPointed(ms: MState, m: Mid)
    requires OwnersPointed(ms.mx, ms.s.sleepq, ms.waiting, ms.held)
    requires forall j :: j in ms.mx ==> ms.s.cur !in SleepQ(ms.s.sleepq, j)
    ensures var r := MutexTrylock(ms, m).0; OwnersPointed(r.mx, r.s.sleepq, r.waiting, r.held)
  {
    hide SleepQ, OwnersPointed;
    var r := MutexTrylock(ms, m).0;
    KeysPointed(ms.mx, r.mx, ms.s.sleepq, ms.waiting, ms.held);
    HeldPointed(r.mx, ms.s.sleepq, ms.waiting, ms.held, ms.s.cur, [m] + HeldBy(ms.held, ms.s.cur));
  }

  lemma MadePointed(ms: MState, m: Mid)
    requires OwnersPointed(ms.mx, ms.s.sleepq, ms.waiting, ms.held)
    ensures m !in ms.mx && SleepQ(ms.s.sleepq, m) == [] ==>
      var r := MutexInit(ms, m); OwnersPointed(r.mx, r.s.sleepq, r.waiting, r.held)
    ensures var r := MutexDestroy(ms, m).0; OwnersPointed(r.mx, r.s.sleepq, r.waiting, r.held)
  {
    hide SleepQ;
  }

  /** The unlocks of a run hide no owner. */
  ghost predicate Honest(ms: MState, op: MOp)
    requires Inv(ms.s) && ms.s.cur in ms.s.threads
  {
    SleepKnown(ms.s, if op.MUnlock? then op.m else 0);
    op.MUnlock? && HandsOver(ms, op.m) ==> Harmless(ms, op.m)
  }

  lemma StepPointed(ms: MState, op: MOp)
    requires MInv(ms) && ms.s.cur in ms.s.threads && Inv(ms.s) && MCan(ms, op) && Honest(ms, op)
    requires OwnersPointed(ms.mx, ms.s.sleepq, ms.waiting, ms.held)
    ensures var r := MApply(ms, op); OwnersPointed(r.mx, r.s.sleepq, r.waiting, r.held)
  {
    hide MInv, Inv, OwnersPointed, Can, EnvStep, MutexLockResume, MutexTrylock, MutexUnlock, MutexLock, SetParam,
      MutexDestroy, MutexInit, Caller, Foreign, HandsOver, Harmless;
    match op
    case MLock(m) => LockPointed(ms, m);
    case MResume => MutexLockResumeOk(ms); ResumePointed(ms);
    case MTry(m) => CallerIsFree(ms); TryPointed(ms, m);
    case MUnlock(m) =>
      if HandsOver(ms, m) {
        UnlockPointed(ms, m);
      } else {
        UnlockNothing(ms, m);
      }
    case MInit(m) => MadePointed(ms, m);
    case MDestroy(m) => MadePointed(ms, m);
    case MParam(t, p) => SetParamReady(ms, t); ParamPointed(ms, t, p);
    case MEnv(o) => EnvPointed(ms, o);
  }

  lemma EnvPointed(ms: MState, op: Op)
    requires MInv(ms) && ms.s.cur in ms.s.threads && Inv(ms.s) && Can(ms.s, op) && Foreign(ms, op)
    requires OwnersPointed(ms.mx, ms.s.sleepq, ms.waiting, ms.held)
    ensures var r := EnvStep(ms, op); OwnersPointed(r.mx, r.s.sleepq, r.waiting, r.held)
  {
    MInvInv(ms);
    hide MInv, Inv, Tables, OwnersPointed, Can, Foreign, Do, SleepQ;
    EnvQueues(ms, op);
    SamePointed(ms.mx, ms.s.sleepq, Do(ms.s, op).sleepq, ms.waiting, ms.held);
  }

  ghost predicate HonestRun(ms: MState, ops: seq<MOp>)
    requires MInv(ms)
    decreases |ops|
  {
    CurIn(ms);
    hide MInv, Inv;
    if ops == [] then true
    else if MCan(ms, ops[0]) then Honest(ms, ops[0]) && HonestRun(MApply(ms, ops[0]), ops[1..])
    else HonestRun(ms, ops[1..])
  }

  lemma {:induction false} RunPointed(ms: MState, ops: seq<MOp>)
    requires MInv(ms) && HonestRun(ms, ops) && OwnersPointed(ms.mx, ms.s.sleepq, ms.waiting, ms.held)
    ensures var r := MExec(ms, ops); OwnersPointed(r.mx, r.s.sleepq, r.waiting, r.held)
    decreases |ops|
  {
    CurIn(ms);
    hide MInv, Inv, OwnersPointed, MApply, MCan, Honest;
    if ops != [] {
      if MCan(ms, ops[0]) {
        StepPointed(ms, ops[0]);
        RunPointed(MApply(ms, ops[0]), ops[1..]);
      } else {
        RunPointed(ms, ops[1..]);
      }
    }
  }

  /** The caller is about to sleep on a mutex whose holder, however indirectly,
      waits for the caller. */
  ghost predicate Undetected(ms: MState, m: Mid) {
    && Inv(ms.s) && Caller(ms) && Contended(ms, m) && Reaches(Blockers(ms), ms.mx[m].holder.value, ms.s.cur)
    && LockReady(ms, m) && MutexLock(ms, m).1 == Blocked
  }

  /** In a run whose hand-overs are all harmless no real deadlock goes undetected. */
  lemma DeadlocksDetected(interrupts: seq<seq<Event>>, ops: seq<MOp>, m: Mid)
    requires MInv(MStart(interrupts)) && HonestRun(MStart(interrupts), ops)
    ensures var ms := MExec(MStart(interrupts), ops);
      && Inv(ms.s) && !Undetected(ms, m)
      && (Caller(ms) && Contended(ms, m) && Reaches(Blockers(ms), ms.mx[m].holder.value, ms.s.cur) ==>
            LockReady(ms, m) && MutexLock(ms, m).1 == EDEADLK)
  {
    RunPointed(MStart(interrupts), ops);
    var ms := MExec(MStart(interrupts), ops);
    CurIn(ms);
    hide MInv, Inv, MExec, OwnersPointed, HonestRun, LockReady, MutexLock, Blockers, Caller, Reaches;
    if Caller(ms) && Contended(ms, m) && Reaches(Blockers(ms), ms.mx[m].holder.value, ms.s.cur) {
      RealDeadlockDetected(ms, m);
    }
  }
}
