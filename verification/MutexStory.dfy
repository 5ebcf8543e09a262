/** A run from the start of the system to a deadlock that nobody notices. Thread 3
    locks mutex 100 and thread 2 mutex 200; 1 and then 2 wait for 100; 3 unlocks it,
    which wakes 1 and reports 2; then 1 asks for 200 and sleeps. */
module MutexStory {
  import opened Lists
  import opened Sched
  import opened SchedInv
  import opened SchedSwitch
  import opened SchedRuns
  import opened Graph
  import M = Mutex
  import opened Mutex
  import opened MutexInv
  import opened MutexSteps
  import opened MutexHandOff
  import opened MutexRuns
  import opened MutexExact
  import opened MutexDeadlock
  import opened MutexDrive
  import opened MutexHidden
  import opened MutexBlind

  /** The threads and mutexes of the story, with `q` asleep on mutex 100. */
  ghost predicate Scene(ms: MState, h1: Option<Tid>, h2: Option<Tid>, q: seq<Tid>) {
    && MInv(ms)
    && (forall t :: 1 <= t <= 3 ==> t in ms.s.threads && !ms.s.threads[t].exit && (t !in q ==> NotQueued(ms.s, t)))
    && ms.mx.Keys == {100, 200} && ms.mx[100].holder == h1 && ms.mx[200].holder == h2
    && (h1.Some? ==> ms.mx[100].locks == 1) && (h2.Some? ==> ms.mx[200].locks == 1)
    && SleepQ(ms.s.sleepq, 100) == q
    && (forall t :: t in q <==> t in ms.inlock) && (forall t :: t in q <==> t in ms.waiting)
    && (forall t :: t in ms.waiting ==> ms.waiting[t] == 100)
  }

  lemma CalmScene(a: MState, b: MState, h1: Option<Tid>, h2: Option<Tid>, q: seq<Tid>)
    requires Scene(a, h1, h2, q) && Calm(a, b) && MInv(b)
    ensures Scene(b, h1, h2, q)
  {
    hide MInv, SleepQ;
    forall t | 1 <= t <= 3 && t !in q ensures NotQueued(b.s, t) {
      assert NotQueued(a.s, t);
    }
  }

  lemma DriveScene(ms: MState, h1: Option<Tid>, h2: Option<Tid>, q: seq<Tid>, x: Tid) returns (ops: seq<MOp>)
    requires Scene(ms, h1, h2, q) && 1 <= x <= 3 && x !in q
    ensures var r := MExec(ms, ops);
      && Scene(r, h1, h2, q) && r.s.cur == x && Caller(r) && r.s.threads[x].priority == 0
      && (forall t :: 1 <= t <= 3 ==> r.s.threads[t].priority <= ms.s.threads[t].priority)
  {
    hide MInv, Calm, NotQueued, MExec, SleepQ;
    ops := Drive(ms, x);
    var r := MExec(ms, ops);
    CalmScene(ms, r, h1, h2, q);
    forall t | 1 <= t <= 3 ensures r.s.threads[t].priority <= ms.s.threads[t].priority {
      CalmFacts(ms, r, t);
    }
  }

  /** Locking a free mutex. */
  lemma TakeScene(ms: MState, m: Mid, h1: Option<Tid>, h2: Option<Tid>)
    requires Scene(ms, h1, h2, []) && Caller(ms) && (m == 100 || m == 200) && ms.mx[m].holder == None
    ensures var c := Some(ms.s.cur);
      Scene(MExec(ms, [MLock(m)]), if m == 100 then c else h1, if m == 200 then c else h2, [])
  {
    hide MInv, Inv, MutexLock, LockReady;
    CurIn(ms);
    One(ms, MLock(m));
    MutexLockOk(ms, m);
    TakeIs(ms, m);
  }

  lemma TakeIs(ms: MState, m: Mid)
    requires Inv(ms.s) && Caller(ms) && LockReady(ms, m) && m in ms.mx && ms.mx[m].holder == None
    ensures var r := MutexLock(ms, m).0;
      && r.s == ms.s && r.inlock == ms.inlock && r.waiting == ms.waiting && r.mx.Keys == ms.mx.Keys
      && r.mx[m].holder == Some(ms.s.cur) && r.mx[m].locks == 1
      && forall x :: x in ms.mx && x != m ==> r.mx[x] == ms.mx[x]
  {
    hide Inv, LockReady;
  }

  /** Waiting for mutex 100, which thread 3 holds. */
  lemma WaitScene(ms: MState, h2: Option<Tid>, q: seq<Tid>)
    requires Scene(ms, Some(3), h2, q) && Caller(ms) && ms.s.cur != 3 && 1 <= ms.s.cur <= 2 && 3 !in q
    ensures var r := MExec(ms, [MLock(100)]);
      && Scene(r, Some(3), h2, q + [ms.s.cur])
      && (forall t :: 1 <= t <= 3 ==> r.s.threads[t].priority <= ms.s.threads[t].priority)
  {
    hide MInv, Inv, MutexLock, LockReady, Acyclic, Pointers, Reaches;
    CurIn(ms);
    One(ms, MLock(100));
    MutexLockOk(ms, 100);
    MInvInv(ms);
    ThreeIsEnd(ms, q);
    CallerIsFree(ms);
    CallerNoPointer(ms);
    AddEdge(Pointers(ms), ms.s.cur, 3);
    LockShape(ms, 100);
    ShapeScene(ms, MutexLock(ms, 100).0, h2, q);
  }

  /** Thread 3 waits for nobody. */
  lemma ThreeIsEnd(ms: MState, q: seq<Tid>)
    requires 3 !in q && (forall t :: t in q <==> t in ms.waiting) && ms.s.cur != 3
    ensures !Reaches(Pointers(ms), 3, ms.s.cur)
  {
    ReachesStep(Pointers(ms), 3, ms.s.cur);
  }

  lemma ShapeScene(ms: MState, r: MState, h2: Option<Tid>, q: seq<Tid>)
    requires Scene(ms, Some(3), h2, q) && Shape(ms, r, 100, true) && MInv(r)
    ensures Scene(r, Some(3), h2, q + [ms.s.cur])
    ensures forall t :: 1 <= t <= 3 ==> r.s.threads[t].priority <= ms.s.threads[t].priority
  {
    hide MInv, SleepQ;
    forall t | 1 <= t <= 3 && t !in q + [ms.s.cur] ensures NotQueued(r.s, t) {
      assert NotQueued(ms.s, t);
    }
  }

  // ----- The beginning -----

  function Cast(): seq<MOp> {
    [MEnv(OpCreate(1, 100, Fifo)), MEnv(OpCreate(2, 100, Fifo)), MEnv(OpCreate(3, 100, Fifo)), MInit(100), MInit(200)]
  }

  lemma CreateIs(ms: MState, t: Tid)
    requires MInv(ms) && t !in ms.s.threads
    ensures MExec(ms, [MEnv(OpCreate(t, 100, Fifo))]) == ms.(s := SetThread(ms.s, t, Start(100, Fifo)))
  {
    hide MInv, Inv;
    CurIn(ms);
    EnvIs(ms, OpCreate(t, 100, Fifo));
    One(ms, MEnv(OpCreate(t, 100, Fifo)));
  }

  lemma InitIs(ms: MState, m: Mid)
    requires MInv(ms) && m !in ms.mx && ms.s.sleepq == map[] && ms.s.pending == []
    ensures MExec(ms, [MInit(m)]) == ms.(mx := ms.mx[m := Mutex(None, MINPRI, 0)])
  {
    hide MInv, Inv;
    CurIn(ms);
    One(ms, MInit(m));
  }

  lemma Begin()
    ensures MInv(MStart([])) && Scene(MExec(MStart([]), Cast()), None, None, [])
  {
    hide MInv, MExec;
    MStartOk([]);
    var a := [MEnv(OpCreate(1, 100, Fifo))];
    var b := [MEnv(OpCreate(2, 100, Fifo))];
    var c := [MEnv(OpCreate(3, 100, Fifo))];
    var s0 := MStart([]);
    CreateIs(s0, 1);
    var s1 := MExec(s0, a);
    CreateIs(s1, 2);
    var s2 := MExec(s1, b);
    CreateIs(s2, 3);
    var s3 := MExec(s2, c);
    InitIs(s3, 100);
    var s4 := MExec(s3, [MInit(100)]);
    InitIs(s4, 200);
    Concat(s0, a, b);
    Concat(s0, a + b, c);
    Concat(s0, a + b + c, [MInit(100)]);
    Concat(s0, a + b + c + [MInit(100)], [MInit(200)]);
    assert a + b + c + [MInit(100)] + [MInit(200)] == Cast();
    assert MExec(s4, [MInit(200)]).mx.Keys == {100, 200};
  }

  // ----- The story -----

  /** The two owners. */
  lemma Owners() returns (ops: seq<MOp>)
    ensures MInv(MStart([])) && Scene(MExec(MStart([]), ops), Some(3), Some(2), [])
  {
    hide MInv, MExec, Scene;
    Begin();
    var s0 := MStart([]);
    var s1 := MExec(s0, Cast());
    var a := DriveScene(s1, None, None, [], 3);
    var s2 := MExec(s1, a);
    SceneHolders(s2, None, None, []);
    TakeScene(s2, 100, None, None);
    var s3 := MExec(s2, [MLock(100)]);
    var b := DriveScene(s3, Some(3), None, [], 2);
    var s4 := MExec(s3, b);
    SceneHolders(s4, Some(3), None, []);
    TakeScene(s4, 200, Some(3), None);
    ops := Cast() + a + [MLock(100)] + b + [MLock(200)];
    Concat(s0, Cast(), a);
    Concat(s0, Cast() + a, [MLock(100)]);
    Concat(s0, Cast() + a + [MLock(100)], b);
    Concat(s0, Cast() + a + [MLock(100)] + b, [MLock(200)]);
  }

  lemma SceneHolders(ms: MState, h1: Option<Tid>, h2: Option<Tid>, q: seq<Tid>)
    requires Scene(ms, h1, h2, q)
    ensures MInv(ms) && 100 in ms.mx && ms.mx[100].holder == h1 && 200 in ms.mx && ms.mx[200].holder == h2
    ensures forall t :: 1 <= t <= 3 ==> t in ms.s.threads
    ensures SleepQ(ms.s.sleepq, 100) == q && (h1.Some? ==> ms.mx[100].locks == 1) && (h2.Some? ==> ms.mx[200].locks == 1)
  {
    hide MInv, SleepQ, NotQueued;
  }

  /** Threads 1 and 2 wait for mutex 100, with priorities that make 1 the one to be
      woken and 2 the one to be reported; thread 3 is about to unlock it. */
  lemma Waiting() returns (ops: seq<MOp>)
    ensures MInv(MStart([]))
    ensures var r := MExec(MStart([]), ops);
      Scene(r, Some(3), Some(2), [1, 2]) && r.s.cur == 3 && Caller(r) && 1 in r.s.threads && r.s.threads[1].priority == 0
  {
    hide MInv, MExec, Scene;
    MStartOk([]);
    var o := Owners();
    var s0 := MStart([]);
    var s1 := MExec(s0, o);
    var a := DriveScene(s1, Some(3), Some(2), [], 1);
    var s2 := MExec(s1, a);
    WaitScene(s2, Some(2), []);
    var s3 := MExec(s2, [MLock(100)]);
    assert [] + [1] == [1];
    var b := DriveScene(s3, Some(3), Some(2), [1], 2);
    var s4 := MExec(s3, b);
    WaitScene(s4, Some(2), [1]);
    var s5 := MExec(s4, [MLock(100)]);
    assert [1] + [2] == [1, 2];
    var c := DriveScene(s5, Some(3), Some(2), [1, 2], 3);
    SceneHolders(MExec(s5, c), Some(3), Some(2), [1, 2]);
    ops := o + a + [MLock(100)] + b + [MLock(100)] + c;
    Concat(s0, o, a);
    Concat(s0, o + a, [MLock(100)]);
    Concat(s0, o + a + [MLock(100)], b);
    Concat(s0, o + a + [MLock(100)] + b, [MLock(100)]);
    Concat(s0, o + a + [MLock(100)] + b + [MLock(100)], c);
  }

  lemma OwnerListed(ms: MState, m: Mid, t: Tid)
    requires MInv(ms) && m in ms.mx && ms.mx[m].holder == Some(t) && ms.mx[m].locks > 0
    ensures m in HeldBy(ms.held, t)
  {
    hide Inv, Acyclic, Waiters, Ranks, Quiets, Successful, HeldBy;
  }

  lemma StoryHarmful(ms: MState)
    requires Scene(ms, Some(3), Some(2), [1, 2]) && ms.s.cur == 3 && Caller(ms)
    requires 1 in ms.s.threads && ms.s.threads[1].priority == 0
    ensures Harmful(ms, 100) && Last(ms, 100) == 2 && 200 in HeldBy(ms.held, 2)
  {
    hide MInv, Inv, Caller, NotQueued;
    CurIn(ms);
    SleepKnown(ms.s, 100);
    OwnerListed(ms, 200, 2);
    var q := SleepQ(ms.s.sleepq, 100);
    assert q[|q| - 1] == 2 && q[0] == 1;
  }

  /** Thread 1 sleeps on mutex 200 of thread 2, and 2 on mutex 100 of thread 1. */
  ghost predicate Locked(ms: MState) {
    && 200 in ms.mx && ms.mx[200].holder == Some(2) && 1 in SleepQ(ms.s.sleepq, 200)
    && 100 in ms.mx && ms.mx[100].holder == Some(1) && 2 in SleepQ(ms.s.sleepq, 100)
  }

  lemma LockSleeps(ms: MState)
    requires MInv(ms) && Undetected(ms, 200) && TwoCycle(ms, 100, 1, 2, 200)
    ensures Locked(MExec(ms, [MLock(200)]))
  {
    hide MInv, Inv, MutexLock, LockReady, SleepQ, Reaches, Blockers, MExec;
    CurIn(ms);
    One(ms, MLock(200));
    LockShape(ms, 200);
  }

  /** The documented result fails of the code: a run from the start of the system
      after which thread 1 asks for mutex 200, and one step later 1 and 2 sleep on each
      other's mutex. */
  lemma DeadlockUndetected() returns (ops: seq<MOp>)
    ensures MInv(MStart([]))
    ensures var ms := MExec(MStart([]), ops); Undetected(ms, 200) && TwoCycle(ms, 100, 1, 2, 200)
    ensures Locked(MExec(MStart([]), ops + [MLock(200)]))
  {
    hide MInv, MExec, Scene, Undetected, Harmful, TwoCycle, Locked, Caller, HandsOver, Known, Calm, MCan, MApply;
    MStartOk([]);
    var a := Waiting();
    var ms := MExec(MStart([]), a);
    SceneHolders(ms, Some(3), Some(2), [1, 2]);
    StoryHarmful(ms);
    HarmfulFacts(ms, 100);
    var calm := HarmfulLeads(ms, 100, 200);
    ops := a + [MUnlock(100)] + calm + [MResume];
    Concat(MStart([]), a, [MUnlock(100)]);
    Concat(MStart([]), a + [MUnlock(100)], calm);
    Concat(MStart([]), a + [MUnlock(100)] + calm, [MResume]);
    Concat(MStart([]), ops, [MLock(200)]);
    LockSleeps(MExec(MStart([]), ops));
  }

  /** And so fails the comment of sched_wakeone: in a state that a run reaches, it
      wakes one of two sleepers and returns the other. */
  lemma WakeoneMisreports() returns (ops: seq<MOp>)
    ensures MInv(MStart([]))
    ensures var s := MExec(MStart([]), ops).s;
      && Inv(s) && SleepQ(s.sleepq, 100) == [1, 2] && Known(SleepQ(s.sleepq, 100), s.threads)
      && WakeoneResult(s, 100) == Some(2) && Top(s.threads, SleepQ(s.sleepq, 100)) == 1
  {
    hide MInv, Inv, MExec, Scene, Harmful;
    MStartOk([]);
    ops := Waiting();
    var ms := MExec(MStart([]), ops);
    SceneHolders(ms, Some(3), Some(2), [1, 2]);
    CurIn(ms);
    SleepKnown(ms.s, 100);
    StoryHarmful(ms);
    HarmfulIs(ms, 100);
    HarmfulFacts(ms, 100);
  }
}
