/** What a harmful hand-over leads to: an owner asleep that mutex_lock cannot see,
    and a deadlock as soon as the woken thread asks for what it holds. */
module MutexHidden {
  import opened Lists
  import opened Sched
  import opened SchedInv
  import opened SchedSwitch
  import opened SchedRuns
  import opened Graph
  import opened Mutex
  import opened MutexInv
  import opened MutexSteps
  import opened MutexHandOff
  import opened MutexRuns
  import opened MutexExact
  import opened MutexDeadlock
  import opened MutexDrive

  /** `top` is in flight for `m`; `t` still sleeps on it without a pointer, and
      holds `j`. */
  ghost predicate Hidden(ms: MState, m: Mid, top: Tid, t: Tid, j: Mid) {
    && m in ms.mx && top in ms.inlock && ms.inlock[top] == m && top !in SleepQ(ms.s.sleepq, m)
    && t in SleepQ(ms.s.sleepq, m) && t !in ms.waiting && j in HeldBy(ms.held, t)
  }

  lemma HiddenFacts(ms: MState, m: Mid, top: Tid, t: Tid, j: Mid)
    requires MInv(ms) && Hidden(ms, m, top, t, j)
    ensures t in ms.inlock && ms.inlock[t] == m && t != top && ms.mx[m].holder.Some? && ms.mx[m].locks == 0
    ensures j in ms.mx && ms.mx[j].holder == Some(t) && ms.mx[j].locks > 0
    ensures ms.s.cur in ms.s.threads && !(ms.s.cur in SleepQ(ms.s.sleepq, m)) && Inv(ms.s)
    ensures forall x :: x in ms.mx ==> ms.s.cur !in SleepQ(ms.s.sleepq, x)
  {
    hide Inv, Acyclic, NoDup, SleepQ, Pointers;
    CurIn(ms);
    CurAwake(ms);
    assert InFlight(ms.s.sleepq, ms.inlock, top, m);
  }

  // ----- It stays so until the woken thread runs -----

  /** A state that differs only in what the two threads do not touch. */
  lemma StillHidden(ms: MState, r: MState, m: Mid, top: Tid, t: Tid, j: Mid)
    requires Hidden(ms, m, top, t, j) && m in r.mx && top in r.inlock && r.inlock[top] == m && t !in r.waiting
    requires HeldBy(r.held, t) == HeldBy(ms.held, t)
    requires t in SleepQ(r.s.sleepq, m) && top !in SleepQ(r.s.sleepq, m)
    ensures Hidden(r, m, top, t, j)
  {
  }

  lemma LockHidden(ms: MState, x: Mid, m: Mid, top: Tid, t: Tid, j: Mid)
    requires MInv(ms) && Inv(ms.s) && Caller(ms) && Hidden(ms, m, top, t, j)
    ensures LockReady(ms, x) && Hidden(MutexLock(ms, x).0, m, top, t, j)
  {
    hide MInv, Inv, LockReady, SleepQ, Contended, Hidden;
    LockIsReady(ms, x);
    HiddenFacts(ms, m, top, t, j);
    if Contended(ms, x) {
      LockContendedHidden(ms, x, m, top, t, j);
    } else {
      LockFreeHidden(ms, x, m, top, t, j);
    }
  }

  lemma LockFreeHidden(ms: MState, x: Mid, m: Mid, top: Tid, t: Tid, j: Mid)
    requires Inv(ms.s) && Caller(ms) && LockReady(ms, x) && !Contended(ms, x) && Hidden(ms, m, top, t, j)
    requires t in ms.inlock
    ensures Hidden(MutexLock(ms, x).0, m, top, t, j)
  {
    hide Inv, LockReady, SleepQ;
    StillHidden(ms, MutexLock(ms, x).0, m, top, t, j);
  }

  lemma LockContendedHidden(ms: MState, x: Mid, m: Mid, top: Tid, t: Tid, j: Mid)
    requires MInv(ms) && Inv(ms.s) && Caller(ms) && LockReady(ms, x) && Contended(ms, x)
    requires Hidden(ms, m, top, t, j) && t in ms.inlock
    ensures Hidden(MutexLock(ms, x).0, m, top, t, j)
  {
    hide MInv, Inv, LockReady, Hidden, MutexLock;
    var r := MutexLock(ms, x).0;
    LockShape(ms, x);
    ShapeHidden(ms, r, x, m, top, t, j);
  }

  lemma ShapeHidden(ms: MState, r: MState, x: Mid, m: Mid, top: Tid, t: Tid, j: Mid)
    requires Shape(ms, r, x, true) || Shape(ms, r, x, false)
    requires Hidden(ms, m, top, t, j) && t in ms.inlock && ms.s.cur !in ms.inlock
    ensures Hidden(r, m, top, t, j)
  {
    hide SleepQ;
  }

  lemma ResumeHidden(ms: MState, m: Mid, top: Tid, t: Tid, j: Mid)
    requires MInv(ms) && Returning(ms) && ms.s.cur != top && Hidden(ms, m, top, t, j) && ms.inlock[ms.s.cur] in ms.mx
    ensures Hidden(MutexLockResume(ms).0, m, top, t, j)
  {
    hide MInv, SleepQ;
    HiddenFacts(ms, m, top, t, j);
    StillHidden(ms, MutexLockResume(ms).0, m, top, t, j);
  }

  lemma TryHidden(ms: MState, x: Mid, m: Mid, top: Tid, t: Tid, j: Mid)
    requires MInv(ms) && Caller(ms) && Hidden(ms, m, top, t, j)
    ensures Hidden(MutexTrylock(ms, x).0, m, top, t, j)
  {
    hide MInv, SleepQ;
    HiddenFacts(ms, m, top, t, j);
    StillHidden(ms, MutexTrylock(ms, x).0, m, top, t, j);
  }

  lemma UnlockHidden(ms: MState, x: Mid, m: Mid, top: Tid, t: Tid, j: Mid)
    requires MInv(ms) && Caller(ms) && Hidden(ms, m, top, t, j)
    ensures Known(SleepQ(ms.s.sleepq, x), ms.s.threads) && ms.s.cur in ms.s.threads
    ensures Hidden(MutexUnlock(ms, x).0, m, top, t, j)
  {
    hide MInv, Inv, SleepQ, Release, HandOff, WakeoneResult, Known, Hidden;
    HiddenFacts(ms, m, top, t, j);
    SleepKnown(ms.s, x);
    SleepLast(ms.s, x);
    if x in ms.mx && ms.mx[x].holder == Some(ms.s.cur) && ms.mx[x].locks == 1 {
      CallerIsFree(ms);
      ReleaseOk(ms, x);
      ReleasePriorities(ms, x);
      ReleaseHidden(ms, x, m, top, t, j);
      LastKnown(ms, x);
      HandOffHidden(Release(ms, x), x, WakeoneResult(ms.s, x), m, top, t, j);
    } else {
      MxHidden(ms, MutexUnlock(ms, x).0.mx, m, top, t, j);
    }
  }

  lemma LastKnown(ms: MState, x: Mid)
    requires ms.s.cur in ms.s.threads && x in ms.mx && Known(SleepQ(ms.s.sleepq, x), ms.s.threads)
    ensures WakeoneResult(ms.s, x).Some? ==> WakeoneResult(ms.s, x).value in Release(ms, x).s.threads
  {
    hide SetPri, BestOf;
    var u := Unheld(ms, x);
    SetPriFrame(ms.s, ms.s.cur, ms.s.threads[ms.s.cur].basepri,
      BestOf(u.mx, HeldBy(u.held, ms.s.cur), ms.s.threads[ms.s.cur].basepri));
  }

  lemma MxHidden(ms: MState, mx: map<Mid, Mutex>, m: Mid, top: Tid, t: Tid, j: Mid)
    requires Hidden(ms, m, top, t, j) && mx.Keys >= ms.mx.Keys
    ensures Hidden(ms.(mx := mx), m, top, t, j)
  {
  }

  lemma ReleaseHidden(ms: MState, x: Mid, m: Mid, top: Tid, t: Tid, j: Mid)
    requires ms.s.cur in ms.s.threads && x in ms.mx && Hidden(ms, m, top, t, j) && t != ms.s.cur
    ensures Hidden(Release(ms, x), m, top, t, j) && Release(ms, x).s.sleepq == ms.s.sleepq
  {
    hide SetPri, BestOf, SleepQ, Remove;
    var u := Unheld(ms, x);
    SetPriFrame(ms.s, ms.s.cur, ms.s.threads[ms.s.cur].basepri,
      BestOf(u.mx, HeldBy(u.held, ms.s.cur), ms.s.threads[ms.s.cur].basepri));
    StillHidden(ms, Release(ms, x), m, top, t, j);
  }

  lemma HandOffHidden(ms: MState, x: Mid, rep: Option<Tid>, m: Mid, top: Tid, t: Tid, j: Mid)
    requires x in ms.mx && x != m && Hidden(ms, m, top, t, j)
    requires Known(SleepQ(ms.s.sleepq, x), ms.s.threads) && (rep.Some? ==> rep.value in ms.s.threads)
    ensures Hidden(HandOff(ms, x, rep), m, top, t, j)
  {
    WakeoneFrame(ms.s, x);
    hide Wakeone, SleepQ;
    StillHidden(ms, HandOff(ms, x, rep), m, top, t, j);
  }

  lemma HiddenStep(ms: MState, op: MOp, m: Mid, top: Tid, t: Tid, j: Mid)
    requires MInv(ms) && ms.s.cur in ms.s.threads && Inv(ms.s) && MCan(ms, op) && Hidden(ms, m, top, t, j)
    requires !(op.MResume? && ms.s.cur == top)
    ensures Hidden(MApply(ms, op), m, top, t, j)
  {
    hide MInv, Inv, Hidden, Can, EnvStep, MutexLockResume, MutexTrylock, MutexUnlock, MutexLock, SetParam,
      MutexDestroy, MutexInit, Caller, Foreign;
    match op
    case MLock(x) => LockHidden(ms, x, m, top, t, j);
    case MResume => MutexLockResumeOk(ms); ResumeHidden(ms, m, top, t, j);
    case MTry(x) => TryHidden(ms, x, m, top, t, j);
    case MUnlock(x) => UnlockHidden(ms, x, m, top, t, j);
    case MInit(x) => MadeHidden(ms, x, m, top, t, j);
    case MDestroy(x) => MadeHidden(ms, x, m, top, t, j);
    case MParam(u, p) => SetParamReady(ms, u); ParamHidden(ms, u, p, m, top, t, j);
    case MEnv(o) => EnvHidden(ms, o, m, top, t, j);
  }

  lemma MadeHidden(ms: MState, x: Mid, m: Mid, top: Tid, t: Tid, j: Mid)
    requires MInv(ms) && Hidden(ms, m, top, t, j)
    ensures Hidden(MutexInit(ms, x), m, top, t, j) && Hidden(MutexDestroy(ms, x).0, m, top, t, j)
  {
    hide MInv, SleepQ;
    HiddenFacts(ms, m, top, t, j);
    StillHidden(ms, MutexInit(ms, x), m, top, t, j);
    StillHidden(ms, MutexDestroy(ms, x).0, m, top, t, j);
  }

  lemma ParamHidden(ms: MState, u: Tid, p: Pri, m: Mid, top: Tid, t: Tid, j: Mid)
    requires MInv(ms) && u in ms.s.threads && ms.s.cur in ms.s.threads && Hidden(ms, m, top, t, j)
    requires u in ms.waiting ==> HopsKnown(ms, Inherited(ms, u).hops)
    ensures Hidden(SetParam(ms, u, p), m, top, t, j)
  {
    hide MInv, InheritReady, HopsKnown, Inherited, PrioInherit, Behind, Acyclic, Inv, SetPri, SleepQ, ParamPri, Repriced;
    if u in ms.waiting {
      WaiterReady(ms, u);
      InheritOk(ms, u);
    }
    RaisedRefl(ms);
    var pri := ParamPri(ms.s.threads[u], p);
    var r := MutexSetpri(ms, u, pri);
    assert Raised(ms, r);
    SetPriFrame(r.s, u, pri, pri);
    StillHidden(ms, SetParam(ms, u, p), m, top, t, j);
  }

  lemma EnvHidden(ms: MState, o: Op, m: Mid, top: Tid, t: Tid, j: Mid)
    requires MInv(ms) && ms.s.cur in ms.s.threads && Inv(ms.s) && Can(ms.s, o) && Foreign(ms, o)
    requires Hidden(ms, m, top, t, j)
    ensures Hidden(EnvStep(ms, o), m, top, t, j)
  {
    hide MInv, Inv, Can, Foreign, Do, SleepQ, Tables, Acyclic;
    MInvInv(ms);
    EnvQueues(ms, o);
    StillHidden(ms, EnvStep(ms, o), m, top, t, j);
  }

  /** The run leaves the woken thread where it is. */
  ghost predicate NotYet(ms: MState, ops: seq<MOp>, top: Tid)
    requires MInv(ms)
    decreases |ops|
  {
    CurIn(ms);
    hide MInv, Inv;
    if ops == [] then true
    else if MCan(ms, ops[0]) then !(ops[0].MResume? && ms.s.cur == top) && NotYet(MApply(ms, ops[0]), ops[1..], top)
    else NotYet(ms, ops[1..], top)
  }

  lemma {:induction false} HiddenUntil(ms: MState, ops: seq<MOp>, m: Mid, top: Tid, t: Tid, j: Mid)
    requires MInv(ms) && Hidden(ms, m, top, t, j) && NotYet(ms, ops, top)
    ensures Hidden(MExec(ms, ops), m, top, t, j)
    decreases |ops|
  {
    hide MInv, Inv, Hidden, MApply, MCan;
    CurIn(ms);
    if ops != [] {
      if MCan(ms, ops[0]) {
        HiddenStep(ms, ops[0], m, top, t, j);
        HiddenUntil(MApply(ms, ops[0]), ops[1..], m, top, t, j);
      } else {
        HiddenUntil(ms, ops[1..], m, top, t, j);
      }
    }
  }

  // ----- The deadlock -----

  /** `a` runs and holds `m`, on which `b` sleeps, and `b` holds `j`. */
  ghost predicate TwoCycle(ms: MState, m: Mid, a: Tid, b: Tid, j: Mid) {
    && ms.s.cur == a && m in ms.mx && ms.mx[m].holder == Some(a)
    && b in SleepQ(ms.s.sleepq, m) && j in ms.mx && ms.mx[j].holder == Some(b)
  }

  /** When the woken thread runs it takes the mutex, and to ask for what the hidden
      owner holds is then a deadlock that mutex_lock does not see. */
  lemma HiddenDeadlocks(ms: MState, m: Mid, top: Tid, t: Tid, j: Mid)
    requires MInv(ms) && Hidden(ms, m, top, t, j) && ms.s.cur == top
    ensures Inv(ms.s) && ms.s.cur in ms.s.threads && MCan(ms, MResume)
    ensures Undetected(MApply(ms, MResume), j) && TwoCycle(MApply(ms, MResume), m, top, t, j)
  {
    hide MInv, Inv, SleepQ, MutexLockResume, LockReady, MutexLock, Reaches;
    HiddenFacts(ms, m, top, t, j);
    MutexLockResumeOk(ms);
    ResumedHidden(ms, m, top, t, j);
    var r := MutexLockResume(ms).0;
    CurIn(r);
    assert Walk(Blockers(r), t, 1) == Some(top);
    OneStep(Blockers(r), t, top);
    DetectionExact(r, j);
    ReachesStep(Blockers(r), t, t);
  }

  lemma OneStep(g: Edges, a: Tid, b: Tid)
    requires a in g && g[a] == b
    ensures Reaches(g, a, b)
  {
    assert Walk(g, a, 1) == Some(b);
  }

  lemma ResumedHidden(ms: MState, m: Mid, top: Tid, t: Tid, j: Mid)
    requires MInv(ms) && Hidden(ms, m, top, t, j) && ms.s.cur == top && MutexLockResume.requires(ms)
    requires MutexLockResume(ms).1 == Done && t != top && t in ms.inlock && ms.inlock[t] == m
    requires j in ms.mx && ms.mx[j].holder == Some(t) && ms.mx[j].locks > 0 && ms.mx[m].locks == 0
    ensures var r := MutexLockResume(ms).0;
      && t in Blockers(r) && Blockers(r)[t] == top && t !in r.waiting
      && j in r.mx && r.mx[j].holder == Some(t) && r.s == ms.s
      && m in r.mx && r.mx[m].holder == Some(top)
  {
    hide MInv, SleepQ;
  }
}
