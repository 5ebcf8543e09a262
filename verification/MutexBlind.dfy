/** The converse of detection: every hand-over that fails the check leads on to a
    deadlock that mutex_lock does not see; and such a run from the start. */
module MutexBlind {
  import opened Lists
  import opened Sched
  import opened SchedInv
  import opened SchedSwitch
  import opened SchedRuns
  import opened Graph
  import M = Mutex
  import opened Mutex
  import opened MutexInv
  import opened MutexSteps
  import opened MutexHandOff
  import opened MutexRuns
  import opened MutexDeadlock
  import opened MutexDrive
  import opened MutexHidden

  // ----- From the hand-over to the deadlock -----

  /** The sleeper that sched_wakeone wakes, and the one queued last, which it reports. */
  function Woken(ms: MState, m: Mid): Tid
    requires SleepQ(ms.s.sleepq, m) != [] && Known(SleepQ(ms.s.sleepq, m), ms.s.threads)
  {
    Top(ms.s.threads, SleepQ(ms.s.sleepq, m))
  }

  function Last(ms: MState, m: Mid): Tid
    requires SleepQ(ms.s.sleepq, m) != []
  {
    SleepQ(ms.s.sleepq, m)[|SleepQ(ms.s.sleepq, m)| - 1]
  }

  /** A hand-over that fails the check. */
  ghost predicate Harmful(ms: MState, m: Mid) {
    && Caller(ms) && HandsOver(ms, m) && Known(SleepQ(ms.s.sleepq, m), ms.s.threads)
    && !Harmless(ms, m)
  }

  lemma HarmfulFacts(ms: MState, m: Mid)
    requires MInv(ms) && Harmful(ms, m)
    ensures Woken(ms, m) != Last(ms, m) && HeldBy(ms.held, Last(ms, m)) != []
    ensures Woken(ms, m) in SleepQ(ms.s.sleepq, m) && Last(ms, m) in SleepQ(ms.s.sleepq, m)
  {
    hide MInv, Inv, HeldBy, SleepQ, Caller, HandsOver, Top;
    CurIn(ms);
    HarmfulIs(ms, m);
    WakeoneReports(ms.s, m);
  }

  /** After it, the owner reported sleeps on without a pointer. */
  lemma HandOverHides(ms: MState, m: Mid, j: Mid)
    requires MInv(ms) && Harmful(ms, m) && j in HeldBy(ms.held, Last(ms, m))
    ensures Inv(ms.s) && ms.s.cur in ms.s.threads && MCan(ms, MUnlock(m))
    ensures var r := MApply(ms, MUnlock(m));
      Hidden(r, m, Woken(ms, m), Last(ms, m), j) && NotQueued(r.s, Woken(ms, m))
  {
    hide MInv, Inv, Tables, Acyclic, Pointers, HandOff, Release, Harmful, MutexUnlockReporting;
    CurIn(ms);
    HarmfulIs(ms, m);
    HarmfulFacts(ms, m);
    MInvInv(ms);
    SleepDistinct(ms.s, m);
    CallerIsFree(ms);
    ReleaseOk(ms, m);
    ReleasePriorities(ms, m);
    SleepLast(ms.s, m);
    var l := Release(ms, m);
    ReleaseHeld(ms, m);
    TopSame(ms.s.threads, l.s.threads, SleepQ(ms.s.sleepq, m));
    UnlockIs(ms, m);
    WokenFacts(ms, m);
    HandOffHides(l, m, Woken(ms, m), Last(ms, m), j);
  }

  lemma InlockFacts(ms: MState, x: Tid)
    requires MInv(ms) && x in ms.inlock
    ensures x in ms.s.threads && x != IDLE && !ms.s.threads[x].exit
  {
    hide Inv, Acyclic, Ownership, Ranks, Quiets, Successful, InFlight, SleepQ;
  }

  lemma HarmfulIs(ms: MState, m: Mid)
    requires Harmful(ms, m)
    ensures Caller(ms) && HandsOver(ms, m) && Known(SleepQ(ms.s.sleepq, m), ms.s.threads)
  {
  }

  lemma ReleaseHeld(ms: MState, m: Mid)
    requires ms.s.cur in ms.s.threads && m in ms.mx
    ensures forall t :: t != ms.s.cur ==> HeldBy(Release(ms, m).held, t) == HeldBy(ms.held, t)
  {
    hide SetPri, BestOf, Remove;
  }

  lemma UnlockIs(ms: MState, m: Mid)
    requires ms.s.cur in ms.s.threads && HandsOver(ms, m) && Known(SleepQ(ms.s.sleepq, m), ms.s.threads)
    requires m in Release(ms, m).mx && Last(ms, m) in Release(ms, m).s.threads
    requires Known(SleepQ(Release(ms, m).s.sleepq, m), Release(ms, m).s.threads)
    ensures MutexUnlock(ms, m).0 == HandOff(Release(ms, m), m, Some(Last(ms, m)))
  {
    hide Release, HandOff;
    SleepLast(ms.s, m);
  }

  lemma WokenFacts(ms: MState, m: Mid)
    requires Tables(ms, {}) && Inv(ms.s) && m in ms.mx && SleepQ(ms.s.sleepq, m) != []
    requires Known(SleepQ(ms.s.sleepq, m), ms.s.threads)
    ensures var x := Woken(ms, m);
      && x in ms.inlock && ms.inlock[x] == m && x in ms.s.threads && x != IDLE && !ms.s.threads[x].exit
      && (forall e :: e != m ==> x !in SleepQ(ms.s.sleepq, e))
  {
    hide Ownership, Ranks, Quiets, Successful, InFlight, RunqOk, WakeqOk, SleepersOk, Best;
    var x := Woken(ms, m);
    assert x in SleepQ(ms.s.sleepq, m);
    forall e | e != m ensures x !in SleepQ(ms.s.sleepq, e) {
      assert ms.s.threads[x].slpevt == Some(m);
    }
  }

  lemma HandOffHides(l: MState, m: Mid, top: Tid, last: Tid, j: Mid)
    requires m in l.mx && Known(SleepQ(l.s.sleepq, m), l.s.threads) && NoDup(SleepQ(l.s.sleepq, m))
    requires SleepQ(l.s.sleepq, m) != [] && top == Top(l.s.threads, SleepQ(l.s.sleepq, m)) && top != last
    requires last in SleepQ(l.s.sleepq, m) && last in l.s.threads && j in HeldBy(l.held, last)
    requires top in l.inlock && l.inlock[top] == m && forall e :: e != m ==> top !in SleepQ(l.s.sleepq, e)
    ensures var r := HandOff(l, m, Some(last));
      Hidden(r, m, top, last, j) && NotQueued(r.s, top)
  {
    AwakenFrame(l.s, m, top);
    hide Awaken, NoDup, Top;
  }

  /** Whatever happens in between: when the woken thread next runs, it becomes the
      holder, and for each mutex that the hidden owner holds, to lock it is a real
      deadlock that goes undetected. */
  lemma HarmfulAlways(ms: MState, m: Mid, ops: seq<MOp>, j: Mid)
    requires MInv(ms) && Harmful(ms, m) && j in HeldBy(ms.held, Last(ms, m))
    requires MInv(MExec(ms, [MUnlock(m)])) && NotYet(MExec(ms, [MUnlock(m)]), ops, Woken(ms, m))
    ensures var r := MExec(ms, [MUnlock(m)] + ops);
      r.s.cur == Woken(ms, m) ==>
        var d := MExec(ms, [MUnlock(m)] + ops + [MResume]);
        Undetected(d, j) && TwoCycle(d, m, Woken(ms, m), Last(ms, m), j)
  {
    hide MInv, Inv, Hidden, Harmful, MExec, MCan, MApply, NotYet, NotQueued, Undetected, TwoCycle;
    HarmfulIs(ms, m);
    HandOverHides(ms, m, j);
    One(ms, MUnlock(m));
    var r0 := MApply(ms, MUnlock(m));
    HiddenUntil(r0, ops, m, Woken(ms, m), Last(ms, m), j);
    Concat(ms, [MUnlock(m)], ops);
    var r := MExec(ms, [MUnlock(m)] + ops);
    if r.s.cur == Woken(ms, m) {
      HiddenDeadlocks(r, m, Woken(ms, m), Last(ms, m), j);
      One(r, MResume);
      Concat(ms, [MUnlock(m)] + ops, [MResume]);
    }
  }

  /** After the unlock of `m` the steps `calm` leave owners, waiters and mutex sleepers
      alone and bring the woken thread to the processor; once it has returned from
      mutex_lock it holds `m`, the sleeper reported still sleeps on `m` and holds `j`,
      and to lock `j` is a deadlock that goes undetected. */
  ghost predicate LeadsOn(ms: MState, m: Mid, calm: seq<MOp>, j: Mid)
    requires MInv(ms)
  {
    hide MInv, Inv, MExec, Undetected, Calm;
    && Caller(ms) && HandsOver(ms, m) && Known(SleepQ(ms.s.sleepq, m), ms.s.threads)
    && var r0 := MExec(ms, [MUnlock(m)]);
       var r := MExec(r0, calm);
       var d := MExec(r, [MResume]);
       && Calm(r0, r) && r.s.cur == Woken(ms, m)
       && Undetected(d, j) && TwoCycle(d, m, Woken(ms, m), Last(ms, m), j)
  }

  /** And the run can go on to that point: every hand-over that fails the check
      leads on to an undetected deadlock. */
  lemma HarmfulLeads(ms: MState, m: Mid, j: Mid) returns (calm: seq<MOp>)
    requires MInv(ms) && Harmful(ms, m) && j in HeldBy(ms.held, Last(ms, m))
    ensures LeadsOn(ms, m, calm, j)
    ensures Undetected(MExec(ms, [MUnlock(m)] + calm + [MResume]), j)
  {
    hide MInv, Inv, Hidden, Harmful, MExec, MCan, MApply, NotQueued, Undetected, Calm, TwoCycle, Caller, HandsOver, Known;
    HarmfulIs(ms, m);
    HandOverHides(ms, m, j);
    One(ms, MUnlock(m));
    var r0 := MApply(ms, MUnlock(m));
    var x := Woken(ms, m);
    HiddenIn(r0, m, x, Last(ms, m), j);
    InlockFacts(r0, x);
    calm := Drive(r0, x);
    var r := MExec(r0, calm);
    CalmHidden(r0, r, m, x, Last(ms, m), j);
    HiddenDeadlocks(r, m, x, Last(ms, m), j);
    One(r, MResume);
    Concat(ms, [MUnlock(m)], calm);
    Concat(ms, [MUnlock(m)] + calm, [MResume]);
  }

  lemma HiddenIn(ms: MState, m: Mid, top: Tid, t: Tid, j: Mid)
    requires Hidden(ms, m, top, t, j)
    ensures top in ms.inlock
  {
  }

  lemma CalmHidden(a: MState, b: MState, m: Mid, top: Tid, t: Tid, j: Mid)
    requires Calm(a, b) && Hidden(a, m, top, t, j)
    ensures Hidden(b, m, top, t, j)
  {
    hide SleepQ;
  }

  /** If the owners asleep have their pointers, a hand-over passes the check exactly
      when it leads on to no undetected deadlock. */
  lemma HandOverExact(ms: MState, m: Mid)
    requires MInv(ms) && Inv(ms.s) && Caller(ms) && HandsOver(ms, m)
    requires OwnersPointed(ms.mx, ms.s.sleepq, ms.waiting, ms.held)
    ensures Known(SleepQ(ms.s.sleepq, m), ms.s.threads)
    ensures Harmless(ms, m) <==> forall calm, j :: !LeadsOn(ms, m, calm, j)
  {
    SleepKnown(ms.s, m);
    hide MInv, Inv, OwnersPointed, Caller, HandsOver, Harmless, LeadsOn, Known;
    if Harmless(ms, m) {
      forall calm, j ensures !LeadsOn(ms, m, calm, j) {
        HarmlessLeads(ms, m, calm, j);
      }
    } else {
      HarmfulFacts(ms, m);
      var j := HeldBy(ms.held, Last(ms, m))[0];
      var calm := HarmfulLeads(ms, m, j);
    }
  }

  lemma HarmlessLeads(ms: MState, m: Mid, calm: seq<MOp>, j: Mid)
    requires MInv(ms) && Inv(ms.s) && Caller(ms) && HandsOver(ms, m)
    requires OwnersPointed(ms.mx, ms.s.sleepq, ms.waiting, ms.held)
    requires Known(SleepQ(ms.s.sleepq, m), ms.s.threads) && Harmless(ms, m)
    ensures !LeadsOn(ms, m, calm, j)
  {
    hide MInv, Inv, OwnersPointed, HandsOver, Harmless, MExec, MutexUnlock, Calm, Undetected, TwoCycle, Known, MApply;
    CurIn(ms);
    UnlockPointed(ms, m);
    One(ms, MUnlock(m));
    UnlockApply(ms, m);
    var r0 := MExec(ms, [MUnlock(m)]);
    var r := MExec(r0, calm);
    if Calm(r0, r) {
      CalmPointed(r0, r);
      ResumeDetects(r, j);
    }
  }

  lemma UnlockApply(ms: MState, m: Mid)
    requires MInv(ms) && ms.s.cur in ms.s.threads && Inv(ms.s) && MCan(ms, MUnlock(m))
    requires Known(SleepQ(ms.s.sleepq, m), ms.s.threads)
    ensures MApply(ms, MUnlock(m)) == MutexUnlock(ms, m).0
  {
    hide MInv, Inv, MutexUnlock;
  }

  lemma CalmPointed(a: MState, b: MState)
    requires Calm(a, b) && OwnersPointed(a.mx, a.s.sleepq, a.waiting, a.held)
    ensures OwnersPointed(b.mx, b.s.sleepq, b.waiting, b.held)
  {
    hide SleepQ, HeldBy;
  }

  lemma ResumeDetects(ms: MState, j: Mid)
    requires MInv(ms) && OwnersPointed(ms.mx, ms.s.sleepq, ms.waiting, ms.held)
    ensures !Undetected(MExec(ms, [MResume]), j)
  {
    hide MInv, Inv, OwnersPointed, MExec, MCan, MApply, Reaches, Blockers, Contended, Caller, LockReady, MutexLock;
    CurIn(ms);
    Skip(ms, MResume);
    var d := MExec(ms, [MResume]);
    if MCan(ms, MResume) {
      StepPointed(ms, MResume);
    }
    if Undetected(d, j) {
      RealDeadlockDetected(d, j);
    }
  }

  /** A run with a hand-over that fails the check has a first one, and that leads on
      to an undetected deadlock. */
  lemma {:induction false} DishonestRun(ms: MState, ops: seq<MOp>) returns (k: nat, calm: seq<MOp>, j: Mid)
    requires MInv(ms) && !HonestRun(ms, ops)
    ensures k < |ops| && ops[k].MUnlock? && HonestRun(ms, ops[..k])
    ensures var at := MExec(ms, ops[..k]); Harmful(at, ops[k].m) && LeadsOn(at, ops[k].m, calm, j)
    ensures Undetected(MExec(ms, ops[..k + 1] + calm + [MResume]), j)
    decreases |ops|
  {
    hide MInv, Inv, MExec, MCan, MApply, Honest, Undetected, Harmful, LeadsOn;
    CurIn(ms);
    var op := ops[0];
    if MCan(ms, op) && !Honest(ms, op) {
      NotHonest(ms, op);
      HarmfulFacts(ms, op.m);
      k, j := 0, HeldBy(ms.held, Last(ms, op.m))[0];
      calm := HarmfulLeads(ms, op.m, j);
      Nothing(ms);
      assert ops[..1] == [op];
      assert ops[..0] == [];
    } else {
      Skip(ms, op);
      k, calm, j := DishonestRun(MExec(ms, [op]), ops[1..]);
      Concat(ms, [op], ops[1..][..k]);
      Concat(ms, [op], ops[1..][..k + 1] + calm + [MResume]);
      HonestCons(ms, op, ops[1..][..k]);
      k := k + 1;
      assert [op] + ops[1..][..k - 1] == ops[..k];
      assert [op] + (ops[1..][..k] + calm + [MResume]) == ops[..k + 1] + calm + [MResume];
    }
  }

  lemma Nothing(ms: MState)
    requires MInv(ms)
    ensures MExec(ms, []) == ms && HonestRun(ms, [])
  {
    hide MInv;
  }

  lemma HonestCons(ms: MState, op: MOp, ops: seq<MOp>)
    requires MInv(ms) && Inv(ms.s) && ms.s.cur in ms.s.threads
    requires MCan(ms, op) ==> Honest(ms, op)
    ensures HonestRun(ms, [op] + ops) <==> HonestRun(MExec(ms, [op]), ops)
  {
    hide MInv, Inv, MCan, MApply, Honest, MExec;
    Skip(ms, op);
    assert ([op] + ops)[1..] == ops;
  }

  /** Both directions for whole runs: the hand-overs of a run all pass the check
      exactly when none of them leads on to an undetected deadlock. */
  lemma HonestExactly(interrupts: seq<seq<Event>>, ops: seq<MOp>)
    requires MInv(MStart(interrupts))
    ensures HonestRun(MStart(interrupts), ops) <==>
      forall k, calm, j :: 0 <= k < |ops| && ops[k].MUnlock? ==>
        !LeadsOn(MExec(MStart(interrupts), ops[..k]), ops[k].m, calm, j)
  {
    var ms := MStart(interrupts);
    hide MInv, Inv, MExec, HonestRun, LeadsOn, MCan, Honest, Harmful;
    if HonestRun(ms, ops) {
      forall k, calm, j | 0 <= k < |ops| && ops[k].MUnlock?
        ensures !LeadsOn(MExec(ms, ops[..k]), ops[k].m, calm, j)
      {
        HonestAt(ms, ops, k);
        RunPointed(ms, ops[..k]);
        var at := MExec(ms, ops[..k]);
        CurIn(at);
        HonestLeads(at, ops[k].m, calm, j);
      }
    } else {
      var k, calm, j := DishonestRun(ms, ops);
    }
  }

  lemma HonestLeads(ms: MState, m: Mid, calm: seq<MOp>, j: Mid)
    requires MInv(ms) && Inv(ms.s) && ms.s.cur in ms.s.threads && (MCan(ms, MUnlock(m)) ==> Honest(ms, MUnlock(m)))
    requires OwnersPointed(ms.mx, ms.s.sleepq, ms.waiting, ms.held)
    ensures !LeadsOn(ms, m, calm, j)
  {
    hide MInv, Inv, OwnersPointed, HandsOver, Harmless, Calm, Undetected, MExec;
    if Caller(ms) && HandsOver(ms, m) && Known(SleepQ(ms.s.sleepq, m), ms.s.threads) {
      HarmlessLeads(ms, m, calm, j);
    }
  }

  lemma {:induction false} HonestAt(ms: MState, ops: seq<MOp>, k: nat)
    requires MInv(ms) && HonestRun(ms, ops) && k < |ops|
    ensures HonestRun(ms, ops[..k])
    ensures var at := MExec(ms, ops[..k]);
      Inv(at.s) && at.s.cur in at.s.threads && (MCan(at, ops[k]) ==> Honest(at, ops[k]))
    decreases |ops|
  {
    hide MInv, Inv, MCan, MApply, Honest, MExec;
    CurIn(ms);
    if k == 0 {
      Nothing(ms);
      assert ops[..0] == [];
    } else {
      Skip(ms, ops[0]);
      var r := MExec(ms, [ops[0]]);
      HonestAt(r, ops[1..], k - 1);
      Concat(ms, [ops[0]], ops[1..][..k - 1]);
      HonestCons(ms, ops[0], ops[1..][..k - 1]);
      assert [ops[0]] + ops[1..][..k - 1] == ops[..k];
    }
  }

  lemma NotHonest(ms: MState, op: MOp)
    requires MInv(ms) && Inv(ms.s) && ms.s.cur in ms.s.threads && MCan(ms, op) && !Honest(ms, op)
    ensures op.MUnlock? && Harmful(ms, op.m)
  {
    hide MInv, Inv, Harmless, HandsOver;
    SleepKnown(ms.s, if op.MUnlock? then op.m else 0);
  }

  lemma Skip(ms: MState, op: MOp)
    requires MInv(ms) && Inv(ms.s) && ms.s.cur in ms.s.threads
    ensures MExec(ms, [op]) == if MCan(ms, op) then MApply(ms, op) else ms
  {
    hide MInv, Inv, MApply, MCan;
    assert [op][1..] == [];
  }
}
