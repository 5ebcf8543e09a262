/** Unlocking, hand-off, and the remaining steps of the mutex model. */
module MutexHandOff {
  import opened Lists
  import opened Sched
  import opened SchedInv
  import opened SchedSwitch
  import opened SchedRuns
  import opened Graph
  import opened Mutex
  import opened MutexInv
  import opened MutexSteps

  // ----- mutex_lock after the sleep, and mutex_trylock -----

  /** The current thread has been switched in again inside mutex_lock. */
  ghost predicate Returning(ms: MState) {
    ms.s.cur in ms.s.threads && ms.s.cur in ms.inlock
  }

  lemma ReturningFacts(ms: MState)
    requires MInv(ms) && Returning(ms)
    ensures var (c, m) := (ms.s.cur, ms.inlock[ms.s.cur]);
      && m in ms.mx && ms.mx[m].locks == 0 && c != IDLE && !ms.s.threads[c].exit
      && InFlight(ms.s.sleepq, ms.inlock, c, m) && ms.s.threads[c].slpret == 0
      && forall x :: x in ms.inlock && ms.inlock[x] == m ==> x == c || x in SleepQ(ms.s.sleepq, m)
  {
    CurAwake(ms);
    hide Inv, Acyclic, Ownership, Ranks, Quiets;
    var (c, m) := (ms.s.cur, ms.inlock[ms.s.cur]);
    assert InFlight(ms.s.sleepq, ms.inlock, c, m);
    forall x | x in ms.inlock && ms.inlock[x] == m
      ensures x == c || x in SleepQ(ms.s.sleepq, m)
    {
      if x !in SleepQ(ms.s.sleepq, m) {
        assert InFlight(ms.s.sleepq, ms.inlock, x, m);
      }
    }
  }

  /** Back from its sleep, a thread always becomes the holder, and it is then
      the only thread with a claim: nobody else is in flight. */
  lemma MutexLockResumeOk(ms: MState)
    requires MInv(ms) && Returning(ms)
    ensures ms.inlock[ms.s.cur] in ms.mx
    ensures var (r, e) := MutexLockResume(ms);
      && MInv(r) && e == Done && Caller(r)
      && r.mx[ms.inlock[ms.s.cur]].holder == Some(ms.s.cur) && r.mx[ms.inlock[ms.s.cur]].locks == 1
  {
    ReturningFacts(ms);
    CurAwake(ms);
    hide MInv, InFlight;
    TakeOk(ms, ms.inlock[ms.s.cur]);
  }

  lemma MutexTrylockOk(ms: MState, m: Mid)
    requires MInv(ms) && Caller(ms)
    ensures MInv(MutexTrylock(ms, m).0)
    ensures MutexTrylock(ms, m).1 == Done <==>
      m in ms.mx && (ms.mx[m].holder == None || ms.mx[m].holder == Some(ms.s.cur))
  {
    CallerIsFree(ms);
    hide MInv;
    if m in ms.mx && ms.mx[m].holder == Some(ms.s.cur) {
      RelockOk(ms, m, ms.mx[m].locks + 1);
    } else if m in ms.mx && ms.mx[m].holder == None {
      TakeFreeOk(ms, m);
    }
  }

  // ----- mutex_unlock -----

  /** All that sched_wakeone is relied upon for: it reports some sleeper of
      the mutex, or nobody if nobody sleeps. */
  ghost predicate Reported(s: State, m: Mid, rep: Option<Tid>) {
    match rep
    case None => SleepQ(s.sleepq, m) == []
    case Some(t) => t in SleepQ(s.sleepq, m)
  }

  lemma ReleaseOwnership(mx: map<Mid, Mutex>, held: map<Tid, seq<Mid>>, th: map<Tid, Thread>, m: Mid, c: Tid)
    requires Ownership(mx, held, th) && m in mx && mx[m].holder == Some(c) && mx[m].locks > 0
    ensures Ownership(mx[m := mx[m].(locks := 0)], held[c := Remove(HeldBy(held, c), m)], th)
  {
    RemoveFacts(HeldBy(held, c), m);
    var held' := held[c := Remove(HeldBy(held, c), m)];
    hide NoDup;
    forall x ensures HeldBy(held', x) == if x == c then Remove(HeldBy(held, c), m) else HeldBy(held, x)
    {
    }
  }

  lemma ReleaseWaiters(mx: map<Mid, Mutex>, q: map<Event, seq<Tid>>, waiting: map<Tid, Mid>,
                       inlock: map<Tid, Mid>, th: map<Tid, Thread>, m: Mid)
    requires Waiters(mx, q, waiting, inlock, th, {}) && m in mx && mx[m].locks > 0
    ensures Waiters(mx[m := mx[m].(locks := 0)], q, waiting, inlock, th, {m})
    ensures forall x :: !InFlight(q, inlock, x, m)
  {
    hide InFlight;
  }

  /** The state with the mutex off the held list, before priorities change. */
  function Unheld(ms: MState, m: Mid): MState
    requires m in ms.mx
  {
    ms.(mx := ms.mx[m := ms.mx[m].(locks := 0)],
        held := ms.held[ms.s.cur := Remove(HeldBy(ms.held, ms.s.cur), m)])
  }

  lemma UnheldOk(ms: MState, m: Mid)
    requires Tables(ms, {}) && m in ms.mx && ms.mx[m].holder == Some(ms.s.cur) && ms.mx[m].locks > 0
    ensures Tables(Unheld(ms, m), {m}) && Pointers(Unheld(ms, m)) == Pointers(ms)
    ensures forall x :: !InFlight(ms.s.sleepq, ms.inlock, x, m)
  {
    ReleaseOwnership(ms.mx, ms.held, ms.s.threads, m, ms.s.cur);
    ReleaseWaiters(ms.mx, ms.s.sleepq, ms.waiting, ms.inlock, ms.s.threads, m);
    hide Ownership, Waiters, Ranks, Successful, Quiet, InFlight;
    assert Pointers(Unheld(ms, m)) == Pointers(ms);
  }

  /** Setting priorities within their base keeps the tables. */
  lemma SetPriTables(ms: MState, t: Tid, b: Pri, p: Pri, but: set<Mid>)
    requires Tables(ms, but) && ms.s.cur in ms.s.threads && t in ms.s.threads && p <= b
    ensures var r := ms.(s := SetPri(ms.s, t, b, p));
      Tables(r, but) && Pointers(r) == Pointers(ms)
  {
    SetPriFrame(ms.s, t, b, p);
    hide SetPri;
    RepricedStep(ms.mx, ms.inlock, ms.s.threads, SetPri(ms.s, t, b, p).threads, t, b, p);
    PointersOf(ms, SetPri(ms.s, t, b, p));
    hide Ownership, Waiters, Ranks, Successful, ThreadsStep, Pointers, Repriced;
    EnvTables(ms, SetPri(ms.s, t, b, p), but);
  }

  lemma RepricedStep(mx: map<Mid, Mutex>, inlock: map<Tid, Mid>, a: map<Tid, Thread>, b: map<Tid, Thread>,
                     t: Tid, base: Pri, p: Pri)
    requires a.Keys == b.Keys && p <= base
    requires forall x :: x in a ==> Repriced(a[x], b[x], x == t, base, p)
    ensures ThreadsStep(mx, inlock, a, b) && (Ranks(a) ==> Ranks(b))
  {
  }

  lemma ReleaseOk(ms: MState, m: Mid)
    requires MInv(ms) && Caller(ms) && m in ms.mx && ms.mx[m].holder == Some(ms.s.cur) && ms.mx[m].locks > 0
    ensures var r := Release(ms, m);
      && Inv(r.s) && r.s.cur == ms.s.cur && r.s.cur in r.s.threads && Tables(r, {m})
      && Pointers(r) == Pointers(ms) && Acyclic(Pointers(r))
      && m in r.mx && r.mx[m].locks == 0 && r.s.sleepq == ms.s.sleepq
      && r.inlock == ms.inlock && r.waiting == ms.waiting && r.s.threads.Keys == ms.s.threads.Keys
      && (forall x :: !InFlight(r.s.sleepq, r.inlock, x, m))
  {
    var c := ms.s.cur;
    var u := Unheld(ms, m);
    var th := ms.s.threads[c];
    UnheldOk(ms, m);
    hide Acyclic, Pointers, Tables, InFlight;
    if th.priority != th.basepri {
      var p := BestOf(u.mx, HeldBy(u.held, c), th.basepri);
      SetPriOk(u.s, c, th.basepri, p);
      SetPriTables(u, c, th.basepri, p, {m});
      SetPriFrame(u.s, c, th.basepri, p);
      hide SetPri, Repriced;
    }
    hide Inv;
  }

  lemma AwakenFrame(s: State, m: Mid, t: Tid)
    requires t in s.threads && t in SleepQ(s.sleepq, m) && NoDup(SleepQ(s.sleepq, m))
    ensures var r := Awaken(s, m, t, 0);
      && r.cur == s.cur && r.pending == s.pending && Kept(s.threads, r.threads)
      && r.threads[t].slpret == 0
      && (forall x :: x in SleepQ(r.sleepq, m) <==> x in SleepQ(s.sleepq, m) && x != t)
      && (forall e :: e != m ==> SleepQ(r.sleepq, e) == SleepQ(s.sleepq, e))
  {
    RemoveFacts(SleepQ(s.sleepq, m), t);
    hide NoDup;
  }

  /** After the wake-up, `top` is in flight and `rep` is recorded as holder. */
  lemma HandOffWaiters(mx: map<Mid, Mutex>, q: map<Event, seq<Tid>>, r: map<Event, seq<Tid>>,
                       waiting: map<Tid, Mid>, inlock: map<Tid, Mid>, th: map<Tid, Thread>, th': map<Tid, Thread>,
                       m: Mid, top: Tid, rep: Tid, p: Pri)
    requires Waiters(mx, q, waiting, inlock, th, {m}) && m in mx
    requires forall x :: !InFlight(q, inlock, x, m)
    requires top in SleepQ(q, m) && rep in SleepQ(q, m)
    requires forall x :: x in SleepQ(r, m) <==> x in SleepQ(q, m) && x != top
    requires forall e :: e != m ==> SleepQ(r, e) == SleepQ(q, e)
    requires Kept(th, th')
    ensures Waiters(mx[m := Mutex(Some(rep), p, 0)], r, waiting - {rep}, inlock, th', {})
  {
    var mx' := mx[m := Mutex(Some(rep), p, 0)];
    assert inlock[top] == m && inlock[rep] == m;
    forall x ensures InFlight(r, inlock, x, m) <==> x == top
    {
      assert !InFlight(q, inlock, x, m);
    }
    forall x, j | j != m ensures InFlight(r, inlock, x, j) <==> InFlight(q, inlock, x, j)
    {
    }
    forall j | j in mx' && mx'[j].holder.Some? && mx'[j].locks == 0
      ensures InLock(inlock, mx'[j].holder.value, j) && exists x :: InFlight(r, inlock, x, j)
    {
      if j == m {
        assert InFlight(r, inlock, top, m);
      } else {
        var x :| InFlight(q, inlock, x, j);
        assert InFlight(r, inlock, x, j);
      }
    }
  }

  lemma HandOffSuccess(q: map<Event, seq<Tid>>, r: map<Event, seq<Tid>>, inlock: map<Tid, Mid>,
                       th: map<Tid, Thread>, th': map<Tid, Thread>, m: Mid, top: Tid)
    requires Successful(q, inlock, th) && Kept(th, th') && top in th && th'[top].slpret == 0
    requires forall x :: x in SleepQ(r, m) <==> x in SleepQ(q, m) && x != top
    requires forall e :: e != m ==> SleepQ(r, e) == SleepQ(q, e)
    ensures Successful(r, inlock, th')
  {
    forall x, j | InFlight(r, inlock, x, j) && x != top ensures InFlight(q, inlock, x, j)
    {
    }
  }

  lemma HandOffOwnership(mx: map<Mid, Mutex>, held: map<Tid, seq<Mid>>, th: map<Tid, Thread>, th': map<Tid, Thread>,
                         m: Mid, rep: Tid, p: Pri)
    requires Ownership(mx, held, th) && m in mx && mx[m].locks == 0 && Kept(th, th')
    requires rep in th && rep != IDLE && !th[rep].exit
    ensures Ownership(mx[m := Mutex(Some(rep), p, 0)], held, th')
  {
    hide NoDup;
  }

  /** Hand-off with a waiter: whichever sleeper is reported, the invariant is
      back and exactly one thread, the one woken, is in flight. */
  lemma HandOffSome(ms: MState, m: Mid, rep: Tid)
    requires Inv(ms.s) && ms.s.cur in ms.s.threads && Tables(ms, {m}) && Acyclic(Pointers(ms))
    requires m in ms.mx && ms.mx[m].locks == 0
    requires forall x :: !InFlight(ms.s.sleepq, ms.inlock, x, m)
    requires rep in SleepQ(ms.s.sleepq, m)
    ensures Known(SleepQ(ms.s.sleepq, m), ms.s.threads) && rep in ms.s.threads
    ensures MInv(HandOff(ms, m, Some(rep)))
  {
    SleepKnown(ms.s, m);
    SleepDistinct(ms.s, m);
    var top := Top(ms.s.threads, SleepQ(ms.s.sleepq, m));
    var s := Wakeone(ms.s, m);
    WakeoneOk(ms.s, m);
    SleeperFacts(ms, m, rep);
    SleeperFacts(ms, m, top);
    AwakenFrame(ms.s, m, top);
    var r := HandOff(ms, m, Some(rep));
    var p := ms.s.threads[rep].priority;
    TablesParts(ms, {m});
    HandOffWaiters(ms.mx, ms.s.sleepq, s.sleepq, ms.waiting, ms.inlock, ms.s.threads, s.threads, m, top, rep, p);
    HandOffSuccess(ms.s.sleepq, s.sleepq, ms.inlock, ms.s.threads, s.threads, m, top);
    HandOffOwnership(ms.mx, ms.held, ms.s.threads, s.threads, m, rep, p);
    KeptStep(ms.mx, ms.inlock, ms.s.threads, s.threads);
    HandOffPointers(ms, m, rep);
    hide Inv, Ownership, Waiters, Ranks, Successful, Kept, ThreadsStep, InFlight, Acyclic, Pointers, Quiet, Awaken;
  }

  lemma SleepDistinct(s: State, e: Event)
    requires Inv(s)
    ensures NoDup(SleepQ(s.sleepq, e))
  {
    hide Base, Marked, RunqOk, WakeqOk, SleepersOk;
  }

  lemma SleeperFacts(ms: MState, m: Mid, t: Tid)
    requires Tables(ms, {m}) && m in ms.mx && t in SleepQ(ms.s.sleepq, m)
    ensures t in ms.inlock && ms.inlock[t] == m
    ensures t in ms.s.threads && t != IDLE && !ms.s.threads[t].exit
  {
    hide Ownership, Ranks, Quiets, Successful, InFlight;
  }

  lemma HandOffPointers(ms: MState, m: Mid, rep: Tid)
    requires m in ms.mx && Acyclic(Pointers(ms)) && rep in ms.s.threads
    requires Known(SleepQ(ms.s.sleepq, m), ms.s.threads)
    ensures Acyclic(Pointers(HandOff(ms, m, Some(rep))))
  {
    hide Wakeone;
    Redirect(Pointers(ms), Pointers(HandOff(ms, m, Some(rep))), rep);
  }

  lemma HandOffNone(ms: MState, m: Mid)
    requires Inv(ms.s) && ms.s.cur in ms.s.threads && Tables(ms, {m}) && Acyclic(Pointers(ms))
    requires m in ms.mx && ms.mx[m].locks == 0
    requires forall x :: !InFlight(ms.s.sleepq, ms.inlock, x, m)
    requires SleepQ(ms.s.sleepq, m) == []
    ensures MInv(HandOff(ms, m, None))
  {
    var r := HandOff(ms, m, None);
    TablesParts(ms, {m});
    NobodyWaits(ms, m);
    FreedOwnership(ms.mx, ms.held, ms.s.threads, m);
    FreedWaiters(ms.mx, ms.s.sleepq, ms.waiting, ms.inlock, ms.s.threads, m);
    FreedPointers(ms, m);
    hide Inv, Ownership, Waiters, Ranks, Successful, InFlight, Acyclic, Pointers, Quiet;
  }

  lemma NobodyWaits(ms: MState, m: Mid)
    requires forall x :: !InFlight(ms.s.sleepq, ms.inlock, x, m)
    requires SleepQ(ms.s.sleepq, m) == []
    ensures forall x :: x in ms.inlock ==> ms.inlock[x] != m
  {
    forall x | x in ms.inlock ensures ms.inlock[x] != m {
      assert !InFlight(ms.s.sleepq, ms.inlock, x, m);
    }
  }

  lemma FreedOwnership(mx: map<Mid, Mutex>, held: map<Tid, seq<Mid>>, th: map<Tid, Thread>, m: Mid)
    requires Ownership(mx, held, th) && m in mx && mx[m].locks == 0
    ensures Ownership(mx[m := Mutex(None, MINPRI, 0)], held, th)
  {
    hide NoDup;
  }

  lemma FreedWaiters(mx: map<Mid, Mutex>, q: map<Event, seq<Tid>>, waiting: map<Tid, Mid>,
                     inlock: map<Tid, Mid>, th: map<Tid, Thread>, m: Mid)
    requires Waiters(mx, q, waiting, inlock, th, {m}) && m in mx
    requires forall x :: x in inlock ==> inlock[x] != m
    ensures Waiters(mx[m := Mutex(None, MINPRI, 0)], q, waiting, inlock, th, {})
  {
  }

  lemma FreedPointers(ms: MState, m: Mid)
    requires m in ms.mx && Acyclic(Pointers(ms))
    ensures Acyclic(Pointers(ms.(mx := ms.mx[m := Mutex(None, MINPRI, 0)])))
  {
    AcyclicSub(Pointers(ms.(mx := ms.mx[m := Mutex(None, MINPRI, 0)])), Pointers(ms));
  }

  /** mutex_unlock keeps the invariant whichever waiter sched_wakeone reports. */
  lemma MutexUnlockReportingOk(ms: MState, m: Mid, rep: Option<Tid>)
    requires MInv(ms) && Caller(ms) && Reported(ms.s, m, rep)
    ensures Known(SleepQ(ms.s.sleepq, m), ms.s.threads)
    ensures rep.Some? ==> rep.value in ms.s.threads
    ensures MInv(MutexUnlockReporting(ms, m, rep).0)
    ensures MutexUnlockReporting(ms, m, rep).1 == Done <==>
      m in ms.mx && ms.mx[m].holder == Some(ms.s.cur)
  {
    hide MInv, Inv, Tables, Acyclic, Pointers, Release, InFlight, Caller, Known;
    MInvInv(ms);
    SleepKnown(ms.s, m);
    CallerIsFree(ms);
    ReportKnown(ms.s, m, rep);
    if m in ms.mx && ms.mx[m].holder == Some(ms.s.cur) {
      if ms.mx[m].locks > 1 {
        RelockOk(ms, m, ms.mx[m].locks - 1);
      } else {
        ReleaseOk(ms, m);
        match rep
        case None => HandOffNone(Release(ms, m), m);
        case Some(t) => HandOffSome(Release(ms, m), m, t);
      }
    }
  }

  lemma ReportKnown(s: State, m: Mid, rep: Option<Tid>)
    requires Known(SleepQ(s.sleepq, m), s.threads) && Reported(s, m, rep)
    ensures rep.Some? ==> rep.value in s.threads
  {
  }

  lemma MutexUnlockOk(ms: MState, m: Mid)
    requires MInv(ms) && Caller(ms)
    ensures Known(SleepQ(ms.s.sleepq, m), ms.s.threads)
    ensures MInv(MutexUnlock(ms, m).0)
  {
    SleepKnown(ms.s, m);
    assert Reported(ms.s, m, WakeoneResult(ms.s, m));
    hide MInv, WakeoneResult, Reported;
    MutexUnlockReportingOk(ms, m, WakeoneResult(ms.s, m));
  }
}
