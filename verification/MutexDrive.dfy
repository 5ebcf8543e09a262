/** Runs that bring a chosen thread to the processor: suspend the others, resume
    the thread, give it the best priority, and unlock the scheduler. What mutexes
    know is left alone on the way. */
module MutexDrive {
  import opened Lists
  import opened Sched
  import opened SchedInv
  import opened SchedSwitch
  import opened SchedRuns
  import opened Graph
  import opened Mutex
  import opened MutexInv
  import opened MutexSteps
  import opened MutexHandOff
  import opened MutexRuns
  import opened MutexDeadlock

  // ----- What is left alone -----

  /** Owners, waiters and sleepers of mutexes are the same; nobody has gone to
      sleep, ended or got a worse priority. */
  ghost predicate Calm(a: MState, b: MState) {
    && b.waiting == a.waiting && b.held == a.held && b.inlock == a.inlock && SameOwners(a.mx, b.mx)
    && Fewer(a.s.sleepq, b.s.sleepq)
    && (forall m :: m in a.mx ==> SleepQ(b.s.sleepq, m) == SleepQ(a.s.sleepq, m))
    && b.s.threads.Keys == a.s.threads.Keys
    && (forall t :: t in a.s.threads ==>
          b.s.threads[t].exit == a.s.threads[t].exit && b.s.threads[t].priority <= a.s.threads[t].priority)
  }

  lemma CalmTrans(a: MState, b: MState, c: MState)
    requires Calm(a, b) && Calm(b, c)
    ensures Calm(a, c)
  {
    hide SleepQ;
  }

  lemma CalmRefl(a: MState)
    ensures Calm(a, a)
  {
  }

  /** TS_SUSP is the same for all threads but those in `who`. */
  ghost predicate SuspBut(a: map<Tid, Thread>, b: map<Tid, Thread>, who: set<Tid>) {
    a.Keys == b.Keys && forall t :: t in a && t !in who ==> b[t].susp == a[t].susp
  }

  /** The thread sleeps on no queue. */
  ghost predicate NotQueued(s: State, t: Tid) {
    forall e :: t !in SleepQ(s.sleepq, e)
  }

  /** Of all threads but IDLE only `x` can run. */
  ghost predicate Alone(s: State, x: Tid) {
    && x in s.threads && !s.threads[x].susp && !s.threads[x].exit
    && forall t :: t in s.threads && t != x && t != IDLE ==> s.threads[t].susp || s.threads[t].exit
  }

  // ----- Single steps -----

  lemma EnvIs(ms: MState, o: Op)
    requires MInv(ms) && ms.s.cur in ms.s.threads && Inv(ms.s) && Can(ms.s, o) && Foreign(ms, o)
    ensures MCan(ms, MEnv(o)) && MApply(ms, MEnv(o)) == ms.(s := Apply(ms.s, o))
  {
    hide MInv, Inv, Can, Foreign, Apply;
  }

  lemma CalmEnv(ms: MState, b: State)
    requires b.threads.Keys == ms.s.threads.Keys && Fewer(ms.s.sleepq, b.sleepq)
    requires forall t :: t in b.threads ==>
      b.threads[t].exit == ms.s.threads[t].exit && b.threads[t].priority == ms.s.threads[t].priority
    requires forall m :: m in ms.mx ==> SleepQ(b.sleepq, m) == SleepQ(ms.s.sleepq, m)
    ensures Calm(ms, ms.(s := b))
  {
    hide Fewer, SleepQ;
  }

  lemma SleepersStay(ms: MState, o: Op)
    requires MInv(ms) && ms.s.cur in ms.s.threads && Inv(ms.s) && Can(ms.s, o) && Foreign(ms, o)
    ensures MApply(ms, MEnv(o)) == ms.(s := Do(ms.s, o)) && Do(ms.s, o) == Apply(ms.s, o)
    ensures forall m :: m in ms.mx ==> SleepQ(Do(ms.s, o).sleepq, m) == SleepQ(ms.s.sleepq, m)
  {
    hide MInv, Inv, Can, Foreign, Apply, SleepQ, Tables, Acyclic;
    MInvInv(ms);
    EnvIs(ms, o);
    EnvQueues(ms, o);
    DoIs(ms.s, o);
  }

  lemma DoIs(s: State, o: Op)
    requires Inv(s) && s.cur in s.threads && Can(s, o)
    ensures Do(s, o) == Apply(s, o)
  {
    hide Inv, Can, Apply;
  }

  lemma SuspendIs(s: State, t: Tid)
    requires s.cur in s.threads && t in s.threads
    ensures var b := Suspend(s, t);
      && SuspBut(s.threads, b.threads, {t}) && b.threads[t].susp && b.cur == s.cur && b.sleepq == s.sleepq
      && forall x :: x in s.threads ==>
           b.threads[x].exit == s.threads[x].exit && b.threads[x].priority == s.threads[x].priority
  {
    hide Best;
    var s1 := if !s.threads[t].Run() then s else if t == s.cur then MarkResched(s) else RunqRemove(s, t);
    assert s1.threads == s.threads || s1.threads == s.threads[t := s.threads[t].(resched := true)];
    hide RunqRemove;
  }

  lemma ResumeIs(s: State, t: Tid)
    requires s.cur in s.threads && t in s.threads
    ensures var b := ResumeThread(s, t);
      && SuspBut(s.threads, b.threads, {t}) && !b.threads[t].susp && b.cur == s.cur && b.sleepq == s.sleepq
      && forall x :: x in s.threads ==>
           b.threads[x].exit == s.threads[x].exit && b.threads[x].priority == s.threads[x].priority
  {
    hide Best;
    var s1 := SetThread(s, t, s.threads[t].(susp := false));
    var b := ResumeThread(s, t);
    assert b.threads == s.threads || b.threads == s1.threads
        || b.threads == s1.threads[s.cur := s1.threads[s.cur].(resched := true)];
  }

  lemma SuspendStep(ms: MState, t: Tid)
    requires MInv(ms) && ms.s.cur in ms.s.threads && t in ms.s.threads && t != IDLE && !ms.s.threads[t].exit
    ensures Inv(ms.s) && MCan(ms, MEnv(OpSuspend(t)))
    ensures var r := MApply(ms, MEnv(OpSuspend(t)));
      && Calm(ms, r) && SuspBut(ms.s.threads, r.s.threads, {t}) && r.s.threads[t].susp && r.s.cur == ms.s.cur
  {
    hide MInv, Inv, Calm, Suspend;
    CurIn(ms);
    EnvIs(ms, OpSuspend(t));
    SuspendIs(ms.s, t);
    SleepersStay(ms, OpSuspend(t));
    CalmEnv(ms, Suspend(ms.s, t));
  }

  lemma ResumeStep(ms: MState, t: Tid)
    requires MInv(ms) && ms.s.cur in ms.s.threads && t in ms.s.threads && t != IDLE && t != ms.s.cur
    ensures Inv(ms.s) && MCan(ms, MEnv(OpResume(t)))
    ensures var r := MApply(ms, MEnv(OpResume(t)));
      && Calm(ms, r) && SuspBut(ms.s.threads, r.s.threads, {t}) && !r.s.threads[t].susp && r.s.cur == ms.s.cur
  {
    hide MInv, Inv, Calm, ResumeThread;
    CurIn(ms);
    EnvIs(ms, OpResume(t));
    ResumeIs(ms.s, t);
    SleepersStay(ms, OpResume(t));
    CalmEnv(ms, ResumeThread(ms.s, t));
  }

  lemma ParamStep(ms: MState, t: Tid)
    requires MInv(ms) && ms.s.cur in ms.s.threads && t in ms.s.threads && t != IDLE
    ensures Inv(ms.s) && MCan(ms, MParam(t, 0))
    ensures var r := MApply(ms, MParam(t, 0));
      && Calm(ms, r) && SuspBut(ms.s.threads, r.s.threads, {}) && r.s.threads[t].priority == 0 && r.s.cur == ms.s.cur
  {
    hide MInv, Inv, SetParam, Calm;
    CurIn(ms);
    SetParamReady(ms, t);
    ParamCalm(ms, t);
  }

  lemma ParamCalm(ms: MState, t: Tid)
    requires MInv(ms) && ms.s.cur in ms.s.threads && t in ms.s.threads
    requires t in ms.waiting ==> HopsKnown(ms, Inherited(ms, t).hops)
    ensures var r := SetParam(ms, t, 0);
      && Calm(ms, r) && SuspBut(ms.s.threads, r.s.threads, {}) && r.s.threads[t].priority == 0 && r.s.cur == ms.s.cur
  {
    hide MInv, InheritReady, HopsKnown, Inherited, PrioInherit, Behind, Acyclic, Inv, SetPri, Raised, Calm, Repriced;
    RaisedRefl(ms);
    if t in ms.waiting {
      WaiterReady(ms, t);
      InheritOk(ms, t);
    }
    var r := MutexSetpri(ms, t, 0);
    assert Raised(ms, r);
    SetPriFrame(r.s, t, 0, 0);
    RepricedCalm(ms, r, SetPri(r.s, t, 0, 0), t);
  }

  lemma RepricedCalm(ms: MState, r: MState, b: State, t: Tid)
    requires Raised(ms, r) && t in ms.s.threads && b.threads.Keys == r.s.threads.Keys
    requires b.sleepq == r.s.sleepq && b.cur == r.s.cur
    requires forall x :: x in r.s.threads ==> Repriced(r.s.threads[x], b.threads[x], x == t, 0, 0)
    ensures Calm(ms, r.(s := b)) && SuspBut(ms.s.threads, b.threads, {}) && b.threads[t].priority == 0 && b.cur == ms.s.cur
  {
    hide SleepQ;
  }

  lemma LockStep(ms: MState)
    requires MInv(ms) && ms.s.cur in ms.s.threads
    ensures Inv(ms.s) && MCan(ms, MEnv(OpLock))
    ensures var r := MApply(ms, MEnv(OpLock));
      && Calm(ms, r) && SuspBut(ms.s.threads, r.s.threads, {}) && r.s.cur == ms.s.cur
      && r.s.cur in r.s.threads && r.s.threads[r.s.cur].locks == ms.s.threads[ms.s.cur].locks + 1
  {
    hide MInv, Inv, Calm;
    CurIn(ms);
    EnvIs(ms, OpLock);
    SleepersStay(ms, OpLock);
    CalmEnv(ms, Lock(ms.s));
  }

  lemma DropStep(ms: MState)
    requires MInv(ms) && ms.s.cur in ms.s.threads && ms.s.threads[ms.s.cur].locks > 1
    ensures Inv(ms.s) && MCan(ms, MEnv(OpUnlock))
    ensures var r := MApply(ms, MEnv(OpUnlock));
      && Calm(ms, r) && SuspBut(ms.s.threads, r.s.threads, {}) && r.s.cur == ms.s.cur
      && r.s.cur in r.s.threads && r.s.threads[r.s.cur].locks == ms.s.threads[ms.s.cur].locks - 1
  {
    hide MInv, Inv, Calm, Unlock, Follows;
    CurIn(ms);
    EnvIs(ms, OpUnlock);
    SleepersStay(ms, OpUnlock);
    CalmEnv(ms, Unlock(ms.s));
  }

  lemma UnlockStep(ms: MState)
    requires MInv(ms) && ms.s.cur in ms.s.threads && ms.s.threads[ms.s.cur].locks == 1
    ensures Inv(ms.s) && MCan(ms, MEnv(OpUnlock))
    ensures var r := MApply(ms, MEnv(OpUnlock));
      Calm(ms, r) && SuspBut(ms.s.threads, r.s.threads, {}) && Settled(r.s)
  {
    hide MInv, Inv, Calm, Unlock, Settled, SleepQ;
    CurIn(ms);
    EnvIs(ms, OpUnlock);
    SleepersStay(ms, OpUnlock);
    CalmEnv(ms, Unlock(ms.s));
  }

  // ----- Runs -----

  lemma {:induction false} Concat(ms: MState, a: seq<MOp>, b: seq<MOp>)
    requires MInv(ms)
    ensures MExec(ms, a + b) == MExec(MExec(ms, a), b)
    decreases |a|
  {
    hide MInv, Inv, MApply, MCan;
    CurIn(ms);
    if a == [] {
      assert a + b == b;
    } else {
      assert (a + b)[1..] == a[1..] + b;
      Concat(if MCan(ms, a[0]) then MApply(ms, a[0]) else ms, a[1..], b);
    }
  }

  lemma One(ms: MState, op: MOp)
    requires MInv(ms) && ms.s.cur in ms.s.threads && Inv(ms.s) && MCan(ms, op)
    ensures MExec(ms, [op]) == MApply(ms, op)
  {
    hide MInv, Inv, MApply, MCan;
    assert [op][1..] == [];
  }

  lemma Pick(s: set<Tid>) returns (t: Tid)
    requires |s| > 0
    ensures t in s
  {
    var none: set<Tid> := {};
    assert (forall x :: x !in s) ==> s == none;
    t :| t in s;
  }

  lemma {:induction false} SuspendAll(ms: MState, todo: set<Tid>) returns (ops: seq<MOp>)
    requires MInv(ms) && ms.s.cur in ms.s.threads
    requires forall t :: t in todo ==> t in ms.s.threads && t != IDLE && !ms.s.threads[t].exit
    ensures var r := MExec(ms, ops);
      && Calm(ms, r) && SuspBut(ms.s.threads, r.s.threads, todo) && r.s.cur == ms.s.cur
      && forall t :: t in todo ==> r.s.threads[t].susp
    decreases |todo|
  {
    hide MInv, Inv, Fewer, SameOwners, SleepQ;
    if |todo| == 0 {
      ops := [];
      CalmRefl(ms);
    } else {
      var t := Pick(todo);
      SuspendStep(ms, t);
      One(ms, MEnv(OpSuspend(t)));
      var r1 := MApply(ms, MEnv(OpSuspend(t)));
      var rest := SuspendAll(r1, todo - {t});
      ops := [MEnv(OpSuspend(t))] + rest;
      Concat(ms, [MEnv(OpSuspend(t))], rest);
      CalmTrans(ms, r1, MExec(r1, rest));
    }
  }

  /** The current thread comes to hold the scheduler lock once. */
  lemma {:induction false} LockOnce(ms: MState) returns (ops: seq<MOp>)
    requires MInv(ms) && ms.s.cur in ms.s.threads
    ensures var r := MExec(ms, ops);
      && Calm(ms, r) && SuspBut(ms.s.threads, r.s.threads, {}) && r.s.cur == ms.s.cur
      && r.s.cur in r.s.threads && r.s.threads[r.s.cur].locks == 1
    decreases ms.s.threads[ms.s.cur].locks
  {
    hide MInv, Inv, Calm;
    if ms.s.threads[ms.s.cur].locks == 0 {
      LockStep(ms);
      ops := [MEnv(OpLock)];
      One(ms, MEnv(OpLock));
    } else if ms.s.threads[ms.s.cur].locks == 1 {
      ops := [];
      CalmRefl(ms);
    } else {
      DropStep(ms);
      One(ms, MEnv(OpUnlock));
      var r1 := MApply(ms, MEnv(OpUnlock));
      var rest := LockOnce(r1);
      ops := [MEnv(OpUnlock)] + rest;
      Concat(ms, [MEnv(OpUnlock)], rest);
      CalmTrans(ms, r1, MExec(r1, rest));
    }
  }

  /** With all others suspended and nothing better, the thread has the processor. */
  lemma WhoRuns(s: State, x: Tid)
    requires Settled(s) && Alone(s, x) && NotQueued(s, x) && s.threads[x].priority == 0 && x != IDLE
    ensures s.cur == x
  {
    hide RunqOk, WakeqOk, SleepqOk, SleepQ, Best;
    BestRuns(s);
  }

  /** Any thread that neither sleeps nor has ended can be brought to run. */
  lemma Drive(ms: MState, x: Tid) returns (ops: seq<MOp>)
    requires MInv(ms) && x in ms.s.threads && x != IDLE && !ms.s.threads[x].exit && NotQueued(ms.s, x)
    ensures var r := MExec(ms, ops); Calm(ms, r) && r.s.cur == x && x in r.s.threads && r.s.threads[x].priority == 0
  {
    hide MInv, Inv, Calm, Settled, MExec, NotQueued;
    CurIn(ms);
    if x == ms.s.cur {
      ParamStep(ms, x);
      ops := [MParam(x, 0)];
      One(ms, MParam(x, 0));
    } else {
      var a := Prepare(ms, x);
      var r1 := MExec(ms, a);
      CurIn(r1);
      var b := LockOnce(r1);
      var r2 := MExec(r1, b);
      UnlockStep(r2);
      One(r2, MEnv(OpUnlock));
      var r3 := MApply(r2, MEnv(OpUnlock));
      ops := a + b + [MEnv(OpUnlock)];
      Concat(ms, a, b);
      Concat(ms, a + b, [MEnv(OpUnlock)]);
      CalmTrans(ms, r1, r2);
      CalmTrans(ms, r2, r3);
      CalmFacts(ms, r3, x);
      CalmTrans(r1, r2, r3);
      CalmFacts(r1, r3, x);
      StillAlone(r1.s, r3.s, x);
      WhoRuns(r3.s, x);
    }
  }

  lemma CalmFacts(a: MState, b: MState, x: Tid)
    requires Calm(a, b) && x in a.s.threads
    ensures NotQueued(a.s, x) ==> NotQueued(b.s, x)
    ensures x in b.s.threads && b.s.threads[x].priority <= a.s.threads[x].priority
    ensures b.s.threads.Keys == a.s.threads.Keys
    ensures forall t :: t in a.s.threads ==> b.s.threads[t].exit == a.s.threads[t].exit
  {
    hide SleepQ;
  }

  lemma StillAlone(s: State, r: State, x: Tid)
    requires Alone(s, x) && SuspBut(s.threads, r.threads, {})
    requires forall t :: t in s.threads ==> r.threads[t].exit == s.threads[t].exit
    ensures Alone(r, x)
  {
  }

  /** All others are suspended; the thread is not, and has the best priority. */
  lemma Prepare(ms: MState, x: Tid) returns (ops: seq<MOp>)
    requires MInv(ms) && ms.s.cur in ms.s.threads
    requires x in ms.s.threads && x != IDLE && !ms.s.threads[x].exit && x != ms.s.cur
    ensures var r := MExec(ms, ops);
      Calm(ms, r) && Alone(r.s, x) && r.s.threads[x].priority == 0 && r.s.cur == ms.s.cur
  {
    hide MInv, Inv, Calm, MExec;
    var todo := set t | t in ms.s.threads && t != x && t != IDLE && !ms.s.threads[t].exit;
    var a := SuspendAll(ms, todo);
    var r1 := MExec(ms, a);
    CalmFacts(ms, r1, x);
    ResumeStep(r1, x);
    One(r1, MEnv(OpResume(x)));
    var r2 := MApply(r1, MEnv(OpResume(x)));
    CalmFacts(r1, r2, x);
    ParamStep(r2, x);
    One(r2, MParam(x, 0));
    var r3 := MApply(r2, MParam(x, 0));
    CalmFacts(r2, r3, x);
    ops := a + [MEnv(OpResume(x))] + [MParam(x, 0)];
    Concat(ms, a, [MEnv(OpResume(x))]);
    Concat(ms, a + [MEnv(OpResume(x))], [MParam(x, 0)]);
    CalmTrans(ms, r1, r2);
    CalmTrans(ms, r2, r3);
  }
}
