/** Runs of the mutex calls among arbitrary scheduler activity. */
module MutexRuns {
  import opened Lists
  import opened Sched
  import opened SchedInv
  import opened SchedSwitch
  import opened SchedRuns
  import opened Graph
  import opened Mutex
  import opened MutexInv
  import opened MutexSteps
  import opened MutexHandOff

  datatype MOp =
    | MLock(m: Mid) | MResume | MTry(m: Mid) | MUnlock(m: Mid)
    | MInit(m: Mid) | MDestroy(m: Mid) | MParam(t: Tid, p: Pri) | MEnv(op: Op)

  /** Who may make which step. A thread inside mutex_lock makes no other call.
      The rest of the kernel does not touch mutex events, interrupts no mutex
      sleeper and ends no thread that a mutex knows: these are the runs without
      exceptions and without termination of lock users. */
  ghost predicate MCan(ms: MState, op: MOp)
    requires ms.s.cur in ms.s.threads
  {
    match op
    case MLock(_) => Caller(ms)
    case MTry(_) => Caller(ms)
    case MUnlock(_) => Caller(ms)
    case MResume => Returning(ms)
    case MInit(m) => m !in ms.mx && SleepQ(ms.s.sleepq, m) == [] && Quiet(ms.s.pending, m)
    case MDestroy(_) => true
    case MParam(t, _) => t in ms.s.threads && t != IDLE
    case MEnv(op) => Can(ms.s, op) && Foreign(ms, op)
  }

  ghost predicate Foreign(ms: MState, op: Op) {
    match op
    case OpSleep(e, _) => e !in ms.mx && ms.s.cur !in ms.inlock
    case OpWakeup(e) => e !in ms.mx
    case OpWakeone(e) => e !in ms.mx
    case OpUnsleep(t, _) => t !in ms.inlock
    case OpSetPri(_, _, _) => false
    case OpStop(t) => Outsider(ms.mx, ms.inlock, t)
    case _ => true
  }

  // ----- Creation, destruction, priorities -----

  lemma MutexInitOk(ms: MState, m: Mid)
    requires MInv(ms) && m !in ms.mx && SleepQ(ms.s.sleepq, m) == [] && Quiet(ms.s.pending, m)
    ensures MInv(MutexInit(ms, m))
  {
    var r := MutexInit(ms, m);
    InitTables(ms.mx, r.mx, ms.held, ms.s.sleepq, ms.waiting, ms.inlock, ms.s.threads, m);
    InitPointers(ms, m);
    hide Inv, Ownership, Waiters, Ranks, Successful, Acyclic, Pointers, Quiet;
  }

  lemma InitTables(mx: map<Mid, Mutex>, mx': map<Mid, Mutex>, held: map<Tid, seq<Mid>>, q: map<Event, seq<Tid>>,
                   waiting: map<Tid, Mid>, inlock: map<Tid, Mid>, th: map<Tid, Thread>, m: Mid)
    requires Ownership(mx, held, th) && Waiters(mx, q, waiting, inlock, th, {})
    requires m !in mx && SleepQ(q, m) == [] && mx' == mx[m := Mutex(None, MINPRI, 0)]
    ensures Ownership(mx', held, th) && Waiters(mx', q, waiting, inlock, th, {})
  {
    hide NoDup, InFlight;
  }

  lemma InitPointers(ms: MState, m: Mid)
    requires m !in ms.mx && Acyclic(Pointers(ms))
    ensures Acyclic(Pointers(MutexInit(ms, m)))
  {
    AcyclicSub(Pointers(MutexInit(ms, m)), Pointers(ms));
  }

  /** A mutex is destroyed only when nobody holds it or sleeps on it. */
  lemma MutexDestroyOk(ms: MState, m: Mid)
    requires MInv(ms)
    ensures MInv(MutexDestroy(ms, m).0)
    ensures MutexDestroy(ms, m).1 == Done <==> m in ms.mx && ms.mx[m].holder == None
  {
    if m in ms.mx && ms.mx[m].holder == None {
      FreeMutex(ms, m);
      var r := MutexDestroy(ms, m).0;
      DestroyTables(ms.mx, r.mx, ms.held, ms.s.sleepq, ms.waiting, ms.inlock, ms.s.threads, m);
      DestroyPointers(ms, m);
      hide Inv, Ownership, Waiters, Ranks, Successful, Acyclic, Pointers, Quiet;
    }
  }

  lemma DestroyTables(mx: map<Mid, Mutex>, mx': map<Mid, Mutex>, held: map<Tid, seq<Mid>>, q: map<Event, seq<Tid>>,
                      waiting: map<Tid, Mid>, inlock: map<Tid, Mid>, th: map<Tid, Thread>, m: Mid)
    requires Ownership(mx, held, th) && Waiters(mx, q, waiting, inlock, th, {})
    requires m in mx && mx[m].holder == None && mx' == mx - {m}
    ensures Ownership(mx', held, th) && Waiters(mx', q, waiting, inlock, th, {})
  {
    hide NoDup;
    forall t, j | InFlight(q, inlock, t, j) ensures j in mx' && mx'[j].locks == 0 {
      assert mx[inlock[t]].holder.Some?;
    }
  }

  lemma DestroyPointers(ms: MState, m: Mid)
    requires m in ms.mx && ms.mx[m].holder == None && Acyclic(Pointers(ms))
    ensures Acyclic(Pointers(ms.(mx := ms.mx - {m})))
  {
    AcyclicSub(Pointers(ms.(mx := ms.mx - {m})), Pointers(ms));
  }

  lemma WaiterReady(ms: MState, t: Tid)
    requires MInv(ms) && t in ms.waiting && t in ms.s.threads
    ensures InheritReady(ms, t) && Acyclic(Pointers(ms))
  {
    TablesParts(ms, {});
    PointersLead(ms);
    AcyclicSub(Pointers(ms) - {t}, Pointers(ms));
    hide Inv, Ownership, Waiters, Ranks, Quiets, Successful, Acyclic, Pointers;
  }

  lemma PointersLead(ms: MState)
    requires Waiters(ms.mx, ms.s.sleepq, ms.waiting, ms.inlock, ms.s.threads, {})
    ensures forall t :: t in ms.waiting ==> ms.waiting[t] in ms.mx && ms.mx[ms.waiting[t]].holder.Some?
  {
    hide InFlight;
  }

  lemma SetParamReady(ms: MState, t: Tid)
    requires MInv(ms) && t in ms.s.threads
    ensures ms.s.cur in ms.s.threads && (t in ms.waiting ==> HopsKnown(ms, Inherited(ms, t).hops))
  {
    CurIn(ms);
    if t in ms.waiting {
      WaiterReady(ms, t);
      InheritOk(ms, t);
    }
    hide MInv, InheritReady, HopsKnown, Inherited, PrioInherit;
  }

  /** Before a waiting thread improves, every thread it is blocked behind is made at
      least as good as it is so far: the source inherits the old priority. Nothing
      else happens, and no priority gets worse. */
  lemma MutexSetpriOk(ms: MState, t: Tid, pri: Pri)
    requires MInv(ms) && t in ms.s.threads && ms.s.cur in ms.s.threads
    requires t in ms.waiting ==> HopsKnown(ms, Inherited(ms, t).hops)
    ensures var r := MutexSetpri(ms, t, pri);
      && MInv(r) && Raised(ms, r) && r.s.threads[t].priority == ms.s.threads[t].priority
      && (!(t in ms.waiting && pri < ms.s.threads[t].priority) ==> r == ms)
      && (t in ms.waiting && pri < ms.s.threads[t].priority ==>
            && ms.waiting[t] in ms.mx && ms.mx[ms.waiting[t]].holder.Some?
            && forall u :: Behind(ms, t, u) ==>
                 u in r.s.threads && r.s.threads[u].priority <= ms.s.threads[t].priority)
  {
    hide InheritReady, Behind, Inherited, Acyclic, PrioInherit, HopsKnown, MInv, Inv, Raised, Pointers;
    RaisedRefl(ms);
    if t in ms.waiting && pri < ms.s.threads[t].priority {
      WaiterReady(ms, t);
      ReadyLeads(ms, t);
      InheritOk(ms, t);
      RaisedIsInv(ms, PrioInherit(ms, t));
    }
  }

  lemma ReadyLeads(ms: MState, t: Tid)
    requires InheritReady(ms, t)
    ensures ms.waiting[t] in ms.mx && ms.mx[ms.waiting[t]].holder.Some?
  {
    hide Inv, Ownership, Acyclic;
  }

  lemma SetParamOk(ms: MState, t: Tid, p: Pri)
    requires MInv(ms) && t in ms.s.threads && t != IDLE && ms.s.cur in ms.s.threads
    requires t in ms.waiting ==> HopsKnown(ms, Inherited(ms, t).hops)
    ensures MInv(SetParam(ms, t, p))
  {
    hide MInv, Inherited, HopsKnown, ParamPri, SetPri;
    var pri := ParamPri(ms.s.threads[t], p);
    MutexSetpriOk(ms, t, pri);
    hide MutexSetpri;
    SetPriKeeps(MutexSetpri(ms, t, pri), t, pri);
  }

  lemma RaisedIsInv(ms: MState, r: MState)
    requires MInv(ms) && Raised(ms, r) && Inv(r.s)
    ensures MInv(r)
  {
    RaisedTables(ms, r);
    RaisedCur(ms, r);
    hide Inv, Tables, Acyclic, Pointers, Raised;
  }

  lemma RaisedCur(a: MState, b: MState)
    requires Raised(a, b)
    ensures b.s.cur == a.s.cur && b.s.threads.Keys == a.s.threads.Keys
  {
  }

  lemma SetPriKeeps(ms: MState, t: Tid, pri: Pri)
    requires MInv(ms) && ms.s.cur in ms.s.threads && t in ms.s.threads && t != IDLE
    ensures MInv(ms.(s := SetPri(ms.s, t, pri, pri)))
  {
    MInvInv(ms);
    SetPriOk(ms.s, t, pri, pri);
    SetPriTables(ms, t, pri, pri, {});
    SetPriFrame(ms.s, t, pri, pri);
    hide Inv, Tables, Acyclic, Pointers, SetPri, Repriced;
  }

  // ----- Scheduler activity around the mutexes -----

  lemma EnvOk(ms: MState, b: State)
    requires MInv(ms) && Inv(b) && b.cur in b.threads && Tables(ms.(s := b), {})
    ensures MInv(ms.(s := b))
  {
    PointersOf(ms, b);
    hide Inv, Tables, Acyclic, Pointers;
  }

  /** Same events, same interrupts; threads may change as ThreadsStep allows. */
  lemma QuietStep(ms: MState, b: State)
    requires Tables(ms, {}) && ThreadsStep(ms.mx, ms.inlock, ms.s.threads, b.threads) && Ranks(b.threads)
    requires b.pending == ms.s.pending
    requires forall m :: m in ms.mx ==> SleepQ(b.sleepq, m) == SleepQ(ms.s.sleepq, m)
    ensures Tables(ms.(s := b), {})
  {
    TablesParts(ms, {});
    hide Tables, Ownership, Waiters, ThreadsStep, Ranks, Quiets;
    EnvTables(ms, b, {});
  }

  lemma KeptQuiet(ms: MState, b: State)
    requires Tables(ms, {}) && Kept(ms.s.threads, b.threads) && b.pending == ms.s.pending
    requires forall m :: m in ms.mx ==> SleepQ(b.sleepq, m) == SleepQ(ms.s.sleepq, m)
    ensures Tables(ms.(s := b), {})
  {
    TablesParts(ms, {});
    KeptStep(ms.mx, ms.inlock, ms.s.threads, b.threads);
    hide Tables, Kept, ThreadsStep, Ranks, Ownership, Waiters, Quiets;
    QuietStep(ms, b);
  }

  lemma EnvSleep(ms: MState, e: Event, timed: bool)
    requires Tables(ms, {}) && Inv(ms.s) && ms.s.cur in ms.s.threads && Can(ms.s, OpSleep(e, timed)) && e !in ms.mx
    ensures Tables(ms.(s := Tsleep(ms.s, e, timed)), {})
  {
    var a := ms.s.(sleepq := ms.s.sleepq[e := SleepQ(ms.s.sleepq, e) + [ms.s.cur]]);
    KeptRefl(ms.s.threads);
    hide Inv, Tables, Follows, Settled, Kept;
    KeptQuiet(ms, a);
    FollowsStep(ms, a, Tsleep(ms.s, e, timed));
  }

  lemma EnvUnlock(ms: MState)
    requires Tables(ms, {}) && Inv(ms.s) && ms.s.cur in ms.s.threads && Can(ms.s, OpUnlock)
    ensures Tables(ms.(s := Unlock(ms.s)), {})
  {
    hide Inv, Tables, Follows, Settled, Kept;
    assert ms.(s := ms.s) == ms;
    FollowsStep(ms, ms.s, Unlock(ms.s));
  }

  lemma EnvUnsleep(ms: MState, t: Tid, ret: int)
    requires Tables(ms, {}) && Inv(ms.s) && t in ms.s.threads && t !in ms.inlock
    ensures Tables(ms.(s := Unsleep(ms.s, t, ret)), {})
  {
    TablesParts(ms, {});
    var b := Unsleep(ms.s, t, ret);
    UnsleepThreads(ms, t, ret);
    UnsleepQueuesKeep(ms, t, ret);
    hide Tables, Ownership, Waiters, Quiets, Inv, Ranks, ThreadsStep, Unsleep;
    QuietStep(ms, b);
  }

  lemma UnsleepThreads(ms: MState, t: Tid, ret: int)
    requires t in ms.s.threads && t !in ms.inlock && Ranks(ms.s.threads)
    ensures var b := Unsleep(ms.s, t, ret);
      ThreadsStep(ms.mx, ms.inlock, ms.s.threads, b.threads) && Ranks(b.threads) && b.pending == ms.s.pending
  {
  }

  lemma UnsleepQueuesKeep(ms: MState, t: Tid, ret: int)
    requires t in ms.s.threads && t !in ms.inlock
    requires Waiters(ms.mx, ms.s.sleepq, ms.waiting, ms.inlock, ms.s.threads, {})
    ensures forall m :: m in ms.mx ==>
      SleepQ(Unsleep(ms.s, t, ret).sleepq, m) == SleepQ(ms.s.sleepq, m)
  {
    hide InFlight;
    forall m | m in ms.mx
      ensures SleepQ(Unsleep(ms.s, t, ret).sleepq, m) == SleepQ(ms.s.sleepq, m)
    {
      assert t !in SleepQ(ms.s.sleepq, m);
      RemoveAbsent(SleepQ(ms.s.sleepq, m), t);
    }
  }

  lemma {:induction false} RemoveAbsent(q: seq<Tid>, t: Tid)
    requires t !in q
    ensures Remove(q, t) == q
    decreases |q|
  {
    if q != [] {
      RemoveAbsent(q[1..], t);
    }
  }

  lemma EnvCur(ms: MState, th: Thread)
    requires Tables(ms, {}) && ms.s.cur in ms.s.threads
    requires th.exit == ms.s.threads[ms.s.cur].exit && th.slpret == ms.s.threads[ms.s.cur].slpret
    requires th.priority == ms.s.threads[ms.s.cur].priority && th.basepri == ms.s.threads[ms.s.cur].basepri
    ensures Tables(ms.(s := SetThread(ms.s, ms.s.cur, th)), {})
  {
    TablesParts(ms, {});
    hide Tables, Ownership, Waiters, Quiets;
    QuietStep(ms, SetThread(ms.s, ms.s.cur, th));
  }

  lemma EnvSuspend(ms: MState, t: Tid)
    requires Tables(ms, {}) && ms.s.cur in ms.s.threads && t in ms.s.threads
    ensures Tables(ms.(s := Suspend(ms.s, t)), {}) && Tables(ms.(s := ResumeThread(ms.s, t)), {})
  {
    TablesParts(ms, {});
    SuspendStep(ms, t);
    hide Tables, Ownership, Waiters, Quiets, ThreadsStep, Ranks, Suspend, ResumeThread;
    QuietStep(ms, Suspend(ms.s, t));
    QuietStep(ms, ResumeThread(ms.s, t));
  }

  /** Only the suspend bit of `t` and the current thread's mark change. */
  lemma SuspendStep(ms: MState, t: Tid)
    requires ms.s.cur in ms.s.threads && t in ms.s.threads && Ranks(ms.s.threads)
    ensures var b := Suspend(ms.s, t);
      && ThreadsStep(ms.mx, ms.inlock, ms.s.threads, b.threads) && Ranks(b.threads)
      && b.pending == ms.s.pending && b.sleepq == ms.s.sleepq
    ensures var b := ResumeThread(ms.s, t);
      && ThreadsStep(ms.mx, ms.inlock, ms.s.threads, b.threads) && Ranks(b.threads)
      && b.pending == ms.s.pending && b.sleepq == ms.s.sleepq
  {
    hide ThreadsStep, Ranks, Best;
    SuspendKept(ms.s, t);
    hide Suspend, ResumeThread;
    BitsStep(ms.mx, ms.inlock, ms.s.threads, Suspend(ms.s, t).threads);
    BitsStep(ms.mx, ms.inlock, ms.s.threads, ResumeThread(ms.s, t).threads);
  }

  ghost predicate MarksOnly(a: map<Tid, Thread>, b: map<Tid, Thread>) {
    && a.Keys == b.Keys
    && forall t :: t in a ==> b[t] == a[t].(susp := b[t].susp, resched := b[t].resched)
  }

  lemma BitsStep(mx: map<Mid, Mutex>, inlock: map<Tid, Mid>, a: map<Tid, Thread>, b: map<Tid, Thread>)
    requires MarksOnly(a, b)
    ensures ThreadsStep(mx, inlock, a, b) && (Ranks(a) ==> Ranks(b))
  {
  }

  lemma SuspendKept(s: State, t: Tid)
    requires s.cur in s.threads && t in s.threads
    ensures var b := Suspend(s, t);
      MarksOnly(s.threads, b.threads) && b.pending == s.pending && b.sleepq == s.sleepq
    ensures var b := ResumeThread(s, t);
      MarksOnly(s.threads, b.threads) && b.pending == s.pending && b.sleepq == s.sleepq
  {
    hide Suspend, ResumeThread, MarksOnly;
    SuspendMarks(s, t);
    ResumeMarks(s, t);
  }

  lemma ResumeMarks(s: State, t: Tid)
    requires s.cur in s.threads && t in s.threads
    ensures var b := ResumeThread(s, t);
      MarksOnly(s.threads, b.threads) && b.pending == s.pending && b.sleepq == s.sleepq
  {
    hide Best;
  }

  lemma SuspendMarks(s: State, t: Tid)
    requires s.cur in s.threads && t in s.threads
    ensures var b := Suspend(s, t);
      MarksOnly(s.threads, b.threads) && b.pending == s.pending && b.sleepq == s.sleepq
  {
    hide Best;
    var s1 := if !s.threads[t].Run() then s else if t == s.cur then MarkResched(s) else RunqRemove(s, t);
    assert s1.threads == s.threads || s1.threads == s.threads[t := s.threads[t].(resched := true)];
    hide RunqRemove;
  }

  lemma EnvStop(ms: MState, t: Tid)
    requires Tables(ms, {}) && Inv(ms.s) && ms.s.cur in ms.s.threads && t in ms.s.threads
    requires Outsider(ms.mx, ms.inlock, t)
    ensures Tables(ms.(s := Stop(ms.s, t)), {})
  {
    TablesParts(ms, {});
    StopThreads(ms, t);
    StopQueuesKeep(ms, t);
    hide Tables, Ownership, Waiters, Quiets, Inv, Ranks, ThreadsStep, Stop;
    QuietStep(ms, Stop(ms.s, t));
  }

  lemma StopThreads(ms: MState, t: Tid)
    requires ms.s.cur in ms.s.threads && t in ms.s.threads && Outsider(ms.mx, ms.inlock, t) && Ranks(ms.s.threads)
    ensures var b := Stop(ms.s, t);
      ThreadsStep(ms.mx, ms.inlock, ms.s.threads, b.threads) && Ranks(b.threads) && b.pending == ms.s.pending
  {
    hide Best;
  }

  lemma StopQueuesKeep(ms: MState, t: Tid)
    requires ms.s.cur in ms.s.threads && t in ms.s.threads && t !in ms.inlock
    requires Waiters(ms.mx, ms.s.sleepq, ms.waiting, ms.inlock, ms.s.threads, {})
    ensures forall m :: m in ms.mx ==>
      SleepQ(Stop(ms.s, t).sleepq, m) == SleepQ(ms.s.sleepq, m)
  {
    hide InFlight, Best;
    forall m | m in ms.mx
      ensures SleepQ(Stop(ms.s, t).sleepq, m) == SleepQ(ms.s.sleepq, m)
    {
      assert t !in SleepQ(ms.s.sleepq, m);
      RemoveAbsent(SleepQ(ms.s.sleepq, m), t);
    }
  }

  lemma EnvCreate(ms: MState, t: Tid, pri: Pri, policy: Policy)
    requires Tables(ms, {}) && t !in ms.s.threads
    ensures Tables(ms.(s := Create(ms.s, t, pri, policy)), {})
  {
    TablesParts(ms, {});
    hide Tables, Ownership, Waiters, Quiets;
    QuietStep(ms, Create(ms.s, t, pri, policy));
  }

  lemma WakeQuiet(ms: MState, e: Event)
    requires Tables(ms, {}) && Inv(ms.s) && e !in ms.mx && Known(SleepQ(ms.s.sleepq, e), ms.s.threads)
    ensures Tables(ms.(s := Wakeup(ms.s, e)), {}) && Tables(ms.(s := Wakeone(ms.s, e)), {})
  {
    hide Inv, Tables;
    WakeoneFrame(ms.s, e);
    hide Kept;
    KeptQuiet(ms, Wakeup(ms.s, e));
    KeptQuiet(ms, Wakeone(ms.s, e));
  }

  lemma WakeoneFrame(s: State, e: Event)
    requires Known(SleepQ(s.sleepq, e), s.threads)
    ensures var r := Wakeone(s, e);
      && Kept(s.threads, r.threads) && r.pending == s.pending
      && forall x :: x != e ==> SleepQ(r.sleepq, x) == SleepQ(s.sleepq, x)
  {
  }

  /** Whatever the rest of the kernel does, the mutex tables stay consistent. */
  lemma EnvTablesOk(ms: MState, op: Op)
    requires Tables(ms, {}) && Inv(ms.s) && ms.s.cur in ms.s.threads && Can(ms.s, op) && Foreign(ms, op)
    ensures Tables(ms.(s := Do(ms.s, op)), {})
  {
    hide Inv, Tables, Follows, Settled, Kept, Outsider;
    match op
    case OpLock => EnvCur(ms, Lock(ms.s).threads[ms.s.cur]);
    case OpUnlock => EnvUnlock(ms);
    case OpSleep(e, timed) => EnvSleep(ms, e, timed);
    case OpWakeup(e) => SleepKnown(ms.s, e); WakeQuiet(ms, e);
    case OpWakeone(e) => SleepKnown(ms.s, e); WakeQuiet(ms, e);
    case OpUnsleep(t, ret) => EnvUnsleep(ms, t, ret);
    case OpYield => EnvMark(ms);
    case OpTick => EnvMark(ms);
    case OpSuspend(t) => EnvSuspend(ms, t);
    case OpResume(t) => EnvSuspend(ms, t);
    case OpStop(t) => EnvStop(ms, t);
    case OpCreate(t, pri, policy) => EnvCreate(ms, t, pri, policy);
  }

  lemma EnvMark(ms: MState)
    requires Tables(ms, {}) && ms.s.cur in ms.s.threads
    ensures Tables(ms.(s := Yield(ms.s)), {}) && Tables(ms.(s := Tick(ms.s)), {})
  {
    hide Tables;
    assert SetThread(ms.s, ms.s.cur, ms.s.threads[ms.s.cur]) == ms.s;
    EnvCur(ms, ms.s.threads[ms.s.cur]);
    EnvCur(ms, Yield(ms.s).threads[ms.s.cur]);
    EnvCur(ms, Tick(ms.s).threads[ms.s.cur]);
  }

  // ----- Runs -----

  ghost function EnvStep(ms: MState, op: Op): (r: MState)
    requires MInv(ms) && ms.s.cur in ms.s.threads && Inv(ms.s) && Can(ms.s, op) && Foreign(ms, op)
    ensures MInv(r)
  {
    MInvInv(ms);
    hide MInv, Inv, Acyclic, Pointers, Can, Tables, Do, Foreign;
    EnvTablesOk(ms, op);
    EnvOk(ms, Do(ms.s, op));
    ms.(s := Do(ms.s, op))
  }

  ghost function MApply(ms: MState, op: MOp): (r: MState)
    requires MInv(ms) && ms.s.cur in ms.s.threads && Inv(ms.s) && MCan(ms, op)
    ensures MInv(r)
  {
    hide MInv, Inv, Can, EnvStep, MutexLockResume, MutexTrylock, MutexUnlock, MutexLock, SetParam, MutexDestroy, MutexInit,
      Foreign, LockReady, Known, HopsKnown, Inherited;
    if op.MLock? then MutexLockOk(ms, op.m); MutexLock(ms, op.m).0
    else if op.MResume? then MutexLockResumeOk(ms); MutexLockResume(ms).0
    else if op.MTry? then MutexTrylockOk(ms, op.m); MutexTrylock(ms, op.m).0
    else if op.MUnlock? then MutexUnlockOk(ms, op.m); CurIn(ms); MutexUnlock(ms, op.m).0
    else if op.MInit? then MutexInitOk(ms, op.m); MutexInit(ms, op.m)
    else if op.MDestroy? then MutexDestroyOk(ms, op.m); MutexDestroy(ms, op.m).0
    else if op.MParam? then SetParamReady(ms, op.t); SetParamOk(ms, op.t, op.p); SetParam(ms, op.t, op.p)
    else EnvStep(ms, op.op)
  }

  lemma CurIn(ms: MState)
    requires MInv(ms)
    ensures ms.s.cur in ms.s.threads && Inv(ms.s)
  {
    hide Inv, Tables, Acyclic;
  }

  /** Any sequence of steps; one its maker may not take is passed over. */
  ghost function MExec(ms: MState, ops: seq<MOp>): (r: MState)
    requires MInv(ms)
    ensures MInv(r)
    decreases |ops|
  {
    CurIn(ms);
    hide MInv, Inv, MApply, MCan;
    if ops == [] then ms
    else if MCan(ms, ops[0]) then MExec(MApply(ms, ops[0]), ops[1..])
    else MExec(ms, ops[1..])
  }

  function MStart(interrupts: seq<seq<Event>>): MState {
    MState(Init(interrupts), map[], map[], map[], map[])
  }

  lemma MStartOk(interrupts: seq<seq<Event>>)
    ensures MInv(MStart(interrupts))
  {
    InitOk(interrupts);
    InvReady(Init(interrupts));
    hide Inv;
    var g := Pointers(MStart(interrupts));
    forall t, n: nat | n > 0 ensures Walk(g, t, n) != Some(t) {
    }
  }

  /** Thread `t` has been woken for `m` and has not run yet. */
  ghost predicate Flying(ms: MState, t: Tid, m: Mid) {
    InFlight(ms.s.sleepq, ms.inlock, t, m)
  }

  /** In every run without exceptions or termination of lock users, whatever
      else the kernel does: one holder per mutex, on whose list it is exactly
      when locked; a free mutex has no sleepers; a mutex that is being handed
      over has exactly one thread in flight; the pointers are acyclic; and no
      priority is worse than its base. */
  lemma MutexesEveryRun(interrupts: seq<seq<Event>>, ops: seq<MOp>)
    ensures MInv(MStart(interrupts))
    ensures var ms := MExec(MStart(interrupts), ops);
      && (forall m, t, u :: m in HeldBy(ms.held, t) && m in HeldBy(ms.held, u) ==> t == u)
      && (forall m :: m in ms.mx ==>
            (ms.mx[m].locks > 0 <==> ms.mx[m].holder.Some? && m in HeldBy(ms.held, ms.mx[m].holder.value)))
      && (forall m :: m in ms.mx && ms.mx[m].holder == None ==> SleepQ(ms.s.sleepq, m) == [])
      && (forall m :: m in ms.mx && ms.mx[m].holder.Some? && ms.mx[m].locks == 0 ==>
            exists t :: Flying(ms, t, m) && forall u :: Flying(ms, u, m) ==> u == t)
      && Acyclic(Pointers(ms))
      && (forall t :: t in ms.s.threads ==> ms.s.threads[t].priority <= ms.s.threads[t].basepri)
  {
    MStartOk(interrupts);
    var ms := MExec(MStart(interrupts), ops);
    MInvInv(ms);
    hide MExec, MInv, Inv, Acyclic, Pointers;
    forall m | m in ms.mx && ms.mx[m].holder == None ensures SleepQ(ms.s.sleepq, m) == [] {
      FreeMutex(ms, m);
    }
    OwnersMean(ms);
    FlyersMean(ms);
    hide Ownership, Waiters, Flying;
  }

  lemma OwnersMean(ms: MState)
    requires Ownership(ms.mx, ms.held, ms.s.threads)
    ensures forall m, t, u :: m in HeldBy(ms.held, t) && m in HeldBy(ms.held, u) ==> t == u
    ensures forall m :: m in ms.mx ==>
      (ms.mx[m].locks > 0 <==> ms.mx[m].holder.Some? && m in HeldBy(ms.held, ms.mx[m].holder.value))
  {
    hide NoDup;
    forall m, t, u | m in HeldBy(ms.held, t) && m in HeldBy(ms.held, u) ensures t == u {
      assert ms.mx[m].holder == Some(t);
    }
  }

  lemma FlyersMean(ms: MState)
    requires Waiters(ms.mx, ms.s.sleepq, ms.waiting, ms.inlock, ms.s.threads, {})
    ensures forall m :: m in ms.mx && ms.mx[m].holder.Some? && ms.mx[m].locks == 0 ==>
      exists t :: Flying(ms, t, m) && forall u :: Flying(ms, u, m) ==> u == t
  {
    forall m | m in ms.mx && ms.mx[m].holder.Some? && ms.mx[m].locks == 0
      ensures exists t :: Flying(ms, t, m) && forall u :: Flying(ms, u, m) ==> u == t
    {
      var t :| InFlight(ms.s.sleepq, ms.inlock, t, m);
      assert Flying(ms, t, m);
    }
  }
}
