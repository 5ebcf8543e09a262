/** Each mutex call, and each scheduler operation around them, keeps the
    mutex invariant. */
module MutexSteps {
  import opened Lists
  import opened Sched
  import opened SchedInv
  import opened SchedSwitch
  import opened SchedRuns
  import opened Graph
  import opened Mutex
  import opened MutexInv

  // ----- What the tables depend on -----

  ghost predicate Outsider(mx: map<Mid, Mutex>, inlock: map<Tid, Mid>, t: Tid) {
    t !in inlock && forall m :: m in mx ==> mx[m].holder != Some(t)
  }

  /** From `a` to `b`: threads only end if the mutexes do not know them, and a
      sleep result is only overwritten by success. */
  ghost predicate ThreadsStep(mx: map<Mid, Mutex>, inlock: map<Tid, Mid>, a: map<Tid, Thread>, b: map<Tid, Thread>) {
    forall t :: t in a ==>
      && t in b && (b[t].exit ==> a[t].exit || Outsider(mx, inlock, t))
      && (t in inlock ==> b[t].slpret == a[t].slpret || b[t].slpret == 0)
  }

  lemma OwnershipStep(mx: map<Mid, Mutex>, held: map<Tid, seq<Mid>>, inlock: map<Tid, Mid>,
                      a: map<Tid, Thread>, b: map<Tid, Thread>)
    requires Ownership(mx, held, a) && ThreadsStep(mx, inlock, a, b)
    ensures Ownership(mx, held, b)
  {
    hide NoDup;
  }

  lemma WaitersStep(mx: map<Mid, Mutex>, q: map<Event, seq<Tid>>, r: map<Event, seq<Tid>>,
                    waiting: map<Tid, Mid>, inlock: map<Tid, Mid>, a: map<Tid, Thread>, b: map<Tid, Thread>,
                    but: set<Mid>)
    requires Waiters(mx, q, waiting, inlock, a, but) && ThreadsStep(mx, inlock, a, b)
    requires forall m :: m in mx ==> SleepQ(r, m) == SleepQ(q, m)
    ensures Waiters(mx, r, waiting, inlock, b, but)
    ensures Successful(q, inlock, a) ==> Successful(r, inlock, b)
  {
    forall t, m | InFlight(r, inlock, t, m) ensures InFlight(q, inlock, t, m) {
      assert m in mx;
    }
    forall m | m in mx && m !in but && mx[m].holder.Some? && mx[m].locks == 0
      ensures exists t :: InFlight(r, inlock, t, m)
    {
      var t :| InFlight(q, inlock, t, m);
      assert InFlight(r, inlock, t, m);
    }
  }

  lemma EnvTables(ms: MState, b: State, but: set<Mid>)
    requires Tables(ms, but) && ThreadsStep(ms.mx, ms.inlock, ms.s.threads, b.threads)
    requires forall m :: m in ms.mx ==> SleepQ(b.sleepq, m) == SleepQ(ms.s.sleepq, m)
    requires Ranks(b.threads) && Quiets(ms.mx, b.pending)
    ensures Tables(ms.(s := b), but)
  {
    OwnershipStep(ms.mx, ms.held, ms.inlock, ms.s.threads, b.threads);
    WaitersStep(ms.mx, ms.s.sleepq, b.sleepq, ms.waiting, ms.inlock, ms.s.threads, b.threads, but);
    hide Ownership, Waiters, ThreadsStep, Ranks, Quiets, Successful;
  }

  lemma KeptStep(mx: map<Mid, Mutex>, inlock: map<Tid, Mid>, a: map<Tid, Thread>, b: map<Tid, Thread>)
    requires Kept(a, b)
    ensures ThreadsStep(mx, inlock, a, b)
    ensures Ranks(a) ==> Ranks(b)
  {
  }

  lemma FollowsStep(ms: MState, a: State, b: State)
    requires Tables(ms.(s := a), {}) && Follows(a, b)
    ensures Tables(ms.(s := b), {})
  {
    FollowsKept(a, b);
    KeptStep(ms.mx, ms.inlock, a.threads, b.threads);
    FollowsQuiet(ms.mx, a, b);
    EnvTables(ms.(s := a), b, {});
    hide Follows, Kept, ThreadsStep, Waiters, Ownership, Ranks, Quiets, Successful;
  }

  lemma FollowsQuiet(mx: map<Mid, Mutex>, a: State, b: State)
    requires Follows(a, b) && Quiets(mx, a.pending)
    ensures Quiets(mx, b.pending) && forall m :: m in mx ==> SleepQ(b.sleepq, m) == SleepQ(a.sleepq, m)
  {
    hide Kept, Quiet;
  }

  lemma TablesParts(ms: MState, but: set<Mid>)
    requires Tables(ms, but)
    ensures Ownership(ms.mx, ms.held, ms.s.threads)
    ensures Waiters(ms.mx, ms.s.sleepq, ms.waiting, ms.inlock, ms.s.threads, but)
    ensures Ranks(ms.s.threads) && Quiets(ms.mx, ms.s.pending)
  {
    hide Ownership, Waiters, Ranks, Quiets;
  }

  // ----- mutex_lock -----

  /** The caller runs outside mutex_lock and is not the idle thread. */
  ghost predicate Caller(ms: MState) {
    ms.s.cur in ms.s.threads && ms.s.cur != IDLE && ms.s.cur !in ms.inlock && !ms.s.threads[ms.s.cur].exit
  }

  lemma CallerFree(ms: MState)
    requires Caller(ms) && Waiters(ms.mx, ms.s.sleepq, ms.waiting, ms.inlock, ms.s.threads, {})
    ensures ms.s.cur !in ms.waiting
    ensures forall t :: t in ms.waiting ==> ms.waiting[t] in ms.mx && ms.mx[ms.waiting[t]].holder.Some?
    ensures forall m :: m in ms.mx && ms.mx[m].holder == Some(ms.s.cur) ==> ms.mx[m].locks > 0
    ensures forall m :: m in ms.mx ==> ms.s.cur !in SleepQ(ms.s.sleepq, m)
  {
    hide InFlight;
  }

  lemma AddPointer(ms: MState, t: Tid, m: Mid)
    requires t !in ms.waiting && m in ms.mx && ms.mx[m].holder.Some?
    ensures var w := ms.(waiting := ms.waiting[t := m]);
      Pointers(w) - {t} == Pointers(ms) && Pointers(w) == Pointers(ms)[t := ms.mx[m].holder.value]
  {
  }

  /** mutex_lock blocks on a mutex held by somebody else. */
  ghost predicate Contended(ms: MState, m: Mid) {
    m in ms.mx && ms.mx[m].holder.Some? && ms.mx[m].holder != Some(ms.s.cur)
  }

  lemma InheritStart(ms: MState, m: Mid)
    requires MInv(ms) && Caller(ms) && Contended(ms, m)
    ensures InheritReady(ms.(waiting := ms.waiting[ms.s.cur := m]), ms.s.cur)
  {
    TablesParts(ms, {});
    CallerFree(ms);
    AddPointer(ms, ms.s.cur, m);
    hide Inv, Acyclic, Ownership, Waiters, Pointers, Ranks, Quiets;
  }

  lemma LockIsReady(ms: MState, m: Mid)
    requires MInv(ms) && Caller(ms)
    ensures LockReady(ms, m)
  {
    if Contended(ms, m) {
      InheritStart(ms, m);
      var w := ms.(waiting := ms.waiting[ms.s.cur := m]);
      InheritOk(w, ms.s.cur);
      RaisedExit(w, PrioInherit(w, ms.s.cur));
    }
    hide Inv, Acyclic, Tables, Pointers, Raised, Behind;
  }

  lemma RaisedExit(a: MState, b: MState)
    requires Raised(a, b) && a.s.cur in a.s.threads
    ensures b.s.cur in b.s.threads && b.s.threads[b.s.cur].exit == a.s.threads[a.s.cur].exit
  {
  }

  /** A second lock by the holder, or an unlock that is not the last. */
  lemma RelockOk(ms: MState, m: Mid, n: nat)
    requires MInv(ms) && m in ms.mx && ms.mx[m].locks > 0 && n > 0
    ensures MInv(ms.(mx := ms.mx[m := ms.mx[m].(locks := n)]))
  {
    var r := ms.(mx := ms.mx[m := ms.mx[m].(locks := n)]);
    RelockTables(ms.mx, r.mx, ms.held, ms.s.sleepq, ms.waiting, ms.inlock, ms.s.threads, m, n);
    RelockRest(ms, m, n);
    hide Inv, Acyclic, Ownership, Waiters, Ranks, Quiets, Pointers, Successful;
  }

  lemma RelockRest(ms: MState, m: Mid, n: nat)
    requires m in ms.mx
    ensures var r := ms.(mx := ms.mx[m := ms.mx[m].(locks := n)]);
      Pointers(r) == Pointers(ms) && (Quiets(ms.mx, ms.s.pending) ==> Quiets(r.mx, ms.s.pending))
  {
    hide Quiet;
  }

  lemma RelockTables(mx: map<Mid, Mutex>, mx': map<Mid, Mutex>, held: map<Tid, seq<Mid>>, q: map<Event, seq<Tid>>,
                     waiting: map<Tid, Mid>, inlock: map<Tid, Mid>, th: map<Tid, Thread>, m: Mid, n: nat)
    requires Ownership(mx, held, th) && Waiters(mx, q, waiting, inlock, th, {})
    requires m in mx && mx[m].locks > 0 && n > 0 && mx' == mx[m := mx[m].(locks := n)]
    ensures Ownership(mx', held, th) && Waiters(mx', q, waiting, inlock, th, {})
  {
    hide NoDup, InFlight;
  }

  /** A change of the recorded waiter priority only. */
  lemma PriorityOk(ms: MState, m: Mid, p: Pri)
    requires MInv(ms) && m in ms.mx
    ensures MInv(ms.(mx := ms.mx[m := ms.mx[m].(priority := p)]))
  {
    var r := ms.(mx := ms.mx[m := ms.mx[m].(priority := p)]);
    EasedRefl(ms.s.threads);
    assert SameOwners(ms.mx, r.mx);
    hide Eased, SameOwners, Inv, Acyclic, Tables, Pointers;
    RaisedTables(ms, r);
  }

  // ----- Taking a mutex -----

  lemma TakeOwnership(mx: map<Mid, Mutex>, held: map<Tid, seq<Mid>>, th: map<Tid, Thread>, m: Mid, t: Tid)
    requires Ownership(mx, held, th) && m in mx && mx[m].locks == 0
    requires t in th && t != IDLE && !th[t].exit
    ensures Ownership(mx[m := mx[m].(holder := Some(t), locks := 1)], held[t := [m] + HeldBy(held, t)], th)
  {
    assert m !in HeldBy(held, t);
    NoDupCons(m, HeldBy(held, t));
    var held' := held[t := [m] + HeldBy(held, t)];
    hide NoDup;
    forall x ensures HeldBy(held', x) == if x == t then [m] + HeldBy(held, t) else HeldBy(held, x)
    {
    }
  }

  lemma TakeWaiters(mx: map<Mid, Mutex>, q: map<Event, seq<Tid>>, waiting: map<Tid, Mid>,
                    inlock: map<Tid, Mid>, th: map<Tid, Thread>, m: Mid, t: Tid)
    requires Waiters(mx, q, waiting, inlock, th, {}) && m in mx
    requires forall x :: x in inlock && inlock[x] == m ==> x == t || x in SleepQ(q, m)
    requires forall j :: j in mx ==> t !in SleepQ(q, j)
    requires t in inlock ==> inlock[t] == m
    ensures Waiters(mx[m := mx[m].(holder := Some(t), locks := 1)], q, waiting - {t}, inlock - {t}, th, {})
    ensures Successful(q, inlock, th) ==> Successful(q, inlock - {t}, th)
  {
    var mx' := mx[m := mx[m].(holder := Some(t), locks := 1)];
    forall x, j | InFlight(q, inlock - {t}, x, j) ensures InFlight(q, inlock, x, j) && j != m {
    }
    forall j | j in mx' && mx'[j].holder.Some? && mx'[j].locks == 0
      ensures InLock(inlock - {t}, mx'[j].holder.value, j) && exists x :: InFlight(q, inlock - {t}, x, j)
    {
      var x :| InFlight(q, inlock, x, j);
      assert InFlight(q, inlock - {t}, x, j);
    }
  }

  lemma TakePointers(ms: MState, m: Mid, t: Tid)
    requires m in ms.mx && Acyclic(Pointers(ms))
    ensures Acyclic(Pointers(Take(ms.(waiting := ms.waiting - {t}, inlock := ms.inlock - {t}), m, t)))
  {
    Redirect(Pointers(ms), Pointers(Take(ms.(waiting := ms.waiting - {t}, inlock := ms.inlock - {t}), m, t)), t);
  }

  /** The current thread takes a mutex nobody has locked: one that is free, or
      the one it was woken for. */
  lemma TakeOk(ms: MState, m: Mid)
    requires MInv(ms) && m in ms.mx && ms.mx[m].locks == 0
    requires ms.s.cur != IDLE && !ms.s.threads[ms.s.cur].exit
    requires forall x :: x in ms.inlock && ms.inlock[x] == m ==> x == ms.s.cur || x in SleepQ(ms.s.sleepq, m)
    requires forall j :: j in ms.mx ==> ms.s.cur !in SleepQ(ms.s.sleepq, j)
    requires ms.s.cur in ms.inlock ==> ms.inlock[ms.s.cur] == m
    ensures MInv(Take(ms.(waiting := ms.waiting - {ms.s.cur}, inlock := ms.inlock - {ms.s.cur}), m, ms.s.cur))
  {
    var t := ms.s.cur;
    TakeOwnership(ms.mx, ms.held, ms.s.threads, m, t);
    TakeWaiters(ms.mx, ms.s.sleepq, ms.waiting, ms.inlock, ms.s.threads, m, t);
    TakePointers(ms, m, t);
    hide Inv, Acyclic, Ownership, Waiters, Ranks, Pointers, Successful, Quiet;
  }

  lemma CurAwake(ms: MState)
    requires MInv(ms)
    ensures forall j :: j in ms.mx ==> ms.s.cur !in SleepQ(ms.s.sleepq, j)
  {
    hide Tables, Acyclic, Base, Marked, RunqOk, WakeqOk, SleepersOk;
  }

  lemma WaitedIsHeld(mx: map<Mid, Mutex>, q: map<Event, seq<Tid>>, waiting: map<Tid, Mid>,
                     inlock: map<Tid, Mid>, th: map<Tid, Thread>, but: set<Mid>, m: Mid)
    requires Waiters(mx, q, waiting, inlock, th, but) && m in mx
    ensures SleepQ(q, m) != [] ==> mx[m].holder.Some?
  {
    var l := SleepQ(q, m);
    if l != [] {
      var t := l[0];
      assert t in l;
      assert inlock[t] == m;
    }
  }

  /** A free mutex has no waiters at all. */
  lemma FreeMutex(ms: MState, m: Mid)
    requires Tables(ms, {}) && m in ms.mx && ms.mx[m].holder == None
    ensures ms.mx[m].locks == 0 && forall x :: x in ms.inlock ==> ms.inlock[x] != m
    ensures SleepQ(ms.s.sleepq, m) == []
  {
    hide NoDup, InFlight, Ranks, Quiets, Successful;
    WaitedIsHeld(ms.mx, ms.s.sleepq, ms.waiting, ms.inlock, ms.s.threads, {}, m);
  }

  lemma CallerIsFree(ms: MState)
    requires MInv(ms) && Caller(ms)
    ensures ms.waiting - {ms.s.cur} == ms.waiting && ms.inlock - {ms.s.cur} == ms.inlock
    ensures forall j :: j in ms.mx ==> ms.s.cur !in SleepQ(ms.s.sleepq, j)
    ensures ms.s.cur !in ms.waiting
    ensures forall t :: t in ms.waiting ==> ms.waiting[t] in ms.mx && ms.mx[ms.waiting[t]].holder.Some?
    ensures forall m :: m in ms.mx && ms.mx[m].holder == Some(ms.s.cur) ==> ms.mx[m].locks > 0
  {
    hide Inv, Ownership, Ranks, Quiets, Successful;
    CallerFree(ms);
    hide Waiters;
  }

  lemma TakeFreeOk(ms: MState, m: Mid)
    requires MInv(ms) && Caller(ms) && m in ms.mx && ms.mx[m].holder == None
    ensures MInv(Take(ms, m, ms.s.cur))
  {
    FreeMutex(ms, m);
    CallerIsFree(ms);
    hide MInv, Tables;
    TakeOk(ms, m);
  }

  // ----- Blocking -----

  lemma BlockWaiters(mx: map<Mid, Mutex>, q: map<Event, seq<Tid>>, waiting: map<Tid, Mid>,
                     inlock: map<Tid, Mid>, th: map<Tid, Thread>, m: Mid, t: Tid)
    requires Waiters(mx, q, waiting, inlock, th, {}) && m in mx && mx[m].holder.Some?
    requires t !in inlock && t in th && t != IDLE && !th[t].exit
    ensures var r := q[m := SleepQ(q, m) + [t]];
      && Waiters(mx, r, waiting[t := m], inlock[t := m], th, {})
      && (Successful(q, inlock, th) ==> Successful(r, inlock[t := m], th))
  {
    var r := q[m := SleepQ(q, m) + [t]];
    var inlock' := inlock[t := m];
    forall j ensures SleepQ(r, j) == if j == m then SleepQ(q, m) + [t] else SleepQ(q, j)
    {
    }
    forall x, j ensures InFlight(r, inlock', x, j) <==> InFlight(q, inlock, x, j)
    {
    }
    forall j | j in mx && mx[j].holder.Some? && mx[j].locks == 0
      ensures InLock(inlock', mx[j].holder.value, j) && exists x :: InFlight(r, inlock', x, j)
    {
      var x :| InFlight(q, inlock, x, j);
      assert InFlight(r, inlock', x, j);
    }
  }

  /** The state in which the blocked caller has been queued. */
  function Queued(ms: MState, m: Mid): MState {
    ms.(s := ms.s.(sleepq := ms.s.sleepq[m := SleepQ(ms.s.sleepq, m) + [ms.s.cur]]),
        waiting := ms.waiting[ms.s.cur := m], inlock := ms.inlock[ms.s.cur := m])
  }

  lemma QueuedTables(ms: MState, m: Mid)
    requires Tables(ms, {}) && Caller(ms) && m in ms.mx && ms.mx[m].holder.Some?
    ensures Tables(Queued(ms, m), {})
  {
    BlockWaiters(ms.mx, ms.s.sleepq, ms.waiting, ms.inlock, ms.s.threads, m, ms.s.cur);
    hide Waiters, Ownership, Ranks, Quiets, Successful;
  }

  /** The holders raised on the way, seen without the caller's pointer. */
  function Raisen(ms: MState, m: Mid): MState
    requires ms.s.cur in ms.s.threads && Contended(ms, m)
    requires HopsKnown(Pointed(ms, m), Inherited(Pointed(ms, m), ms.s.cur).hops)
  {
    PrioInherit(Pointed(ms, m), ms.s.cur).(waiting := ms.waiting)
  }

  /** mutex_lock after it has set mutex_waiting. */
  function Pointed(ms: MState, m: Mid): MState {
    ms.(waiting := ms.waiting[ms.s.cur := m])
  }

  lemma RaisenOk(ms: MState, m: Mid)
    requires MInv(ms) && Caller(ms) && Contended(ms, m)
    ensures HopsKnown(Pointed(ms, m), Inherited(Pointed(ms, m), ms.s.cur).hops)
    ensures MInv(Raisen(ms, m)) && Caller(Raisen(ms, m)) && Raised(ms, Raisen(ms, m))
    ensures PrioInherit(Pointed(ms, m), ms.s.cur) == Raisen(ms, m).(waiting := ms.waiting[ms.s.cur := m])
    ensures Inherited(Pointed(ms, m), ms.s.cur).dead <==>
      !Acyclic(Pointers(ms)[ms.s.cur := ms.mx[m].holder.value])
  {
    InheritStart(ms, m);
    CallerIsFree(ms);
    AddPointer(ms, ms.s.cur, m);
    InheritOk(Pointed(ms, m), ms.s.cur);
    hide MInv, InheritReady, Pointers, Behind, Inherited, PrioInherit, Acyclic;
    var r := PrioInherit(Pointed(ms, m), ms.s.cur);
    RaisedWithout(ms, m, r);
    RaisedKeeps(ms, Raisen(ms, m));
  }

  lemma RaisedWithout(ms: MState, m: Mid, r: MState)
    requires Raised(Pointed(ms, m), r)
    ensures Raised(ms, r.(waiting := ms.waiting)) && r.waiting == ms.waiting[ms.s.cur := m]
  {
    hide Eased, SameOwners;
  }

  lemma RaisedKeeps(ms: MState, r: MState)
    requires MInv(ms) && Caller(ms) && Raised(ms, r) && Inv(r.s)
    ensures MInv(r) && Caller(r)
  {
    RaisedTables(ms, r);
    hide Inv, Tables, Acyclic, Pointers, SameOwners;
  }

  lemma LockBlocksOk(ms: MState, m: Mid)
    requires MInv(ms) && Caller(ms) && Contended(ms, m) && Inv(ms.s)
    requires Acyclic(Pointers(ms)[ms.s.cur := ms.mx[m].holder.value])
    ensures MInv(Queued(ms, m).(s := Tsleep(ms.s, m, false)))
  {
    CallerIsFree(ms);
    AddPointer(ms, ms.s.cur, m);
    QueuedTables(ms, m);
    var q := Queued(ms, m);
    assert Pointers(q) == Pointers(Pointed(ms, m));
    hide Inv, Tables, Acyclic, Pointers, Follows, Settled;
    FollowsStep(q, q.s, Tsleep(ms.s, m, false));
    SettledCur(Tsleep(ms.s, m, false));
    PointersOf(q, Tsleep(ms.s, m, false));
  }

  lemma SettledCur(s: State)
    requires Settled(s)
    ensures Inv(s) && s.cur in s.threads
  {
    InvReady(s);
  }

  /** The pointer graph does not depend on the scheduler state. */
  lemma PointersOf(ms: MState, b: State)
    ensures Pointers(ms.(s := b)) == Pointers(ms)
  {
  }

  /** mutex_lock keeps the invariant. It returns EDEADLK exactly when it would
      have to wait and its pointer would close a cycle; it blocks exactly when
      it would have to wait and no cycle arises. */
  lemma MutexLockOk(ms: MState, m: Mid)
    requires MInv(ms) && Inv(ms.s) && Caller(ms)
    ensures LockReady(ms, m)
    ensures var (r, e) := MutexLock(ms, m);
      && MInv(r)
      && (e == EDEADLK <==> Contended(ms, m) && !Acyclic(Pointers(ms)[ms.s.cur := ms.mx[m].holder.value]))
      && (e == Blocked <==> Contended(ms, m) && Acyclic(Pointers(ms)[ms.s.cur := ms.mx[m].holder.value]))
  {
    LockIsReady(ms, m);
    CallerIsFree(ms);
    if Contended(ms, m) {
      RaisenOk(ms, m);
      LockContendedOk(ms, m);
    } else if m in ms.mx && ms.mx[m].holder == None {
      PriorityOk(ms, m, ms.s.threads[ms.s.cur].priority);
      hide MInv, Inv, LockReady;
      TakeFreeOk(ms.(mx := ms.mx[m := ms.mx[m].(priority := ms.s.threads[ms.s.cur].priority)]), m);
    } else if m in ms.mx {
      RelockOk(ms, m, ms.mx[m].locks + 1);
      hide MInv, Inv, LockReady;
    }
  }

  /** The two outcomes of mutex_lock on a mutex held by somebody else. */
  lemma LockContendedValue(ms: MState, m: Mid, b: MState)
    requires Inv(ms.s) && Caller(ms) && Contended(ms, m) && LockReady(ms, m) && Inv(b.s) && Caller(b)
    requires HopsKnown(Pointed(ms, m), Inherited(Pointed(ms, m), ms.s.cur).hops)
    requires PrioInherit(Pointed(ms, m), ms.s.cur) == b.(waiting := ms.waiting[ms.s.cur := m])
    requires b.waiting == ms.waiting && ms.s.cur !in ms.waiting && b.s.cur == ms.s.cur
    ensures MutexLock(ms, m) ==
      if Inherited(Pointed(ms, m), ms.s.cur).dead then (b, EDEADLK)
      else (Queued(b, m).(s := Tsleep(b.s, m, false)), Blocked)
  {
    hide Inv, Inherited, PrioInherit, Tsleep, LockReady;
    assert ms.waiting[ms.s.cur := m] - {ms.s.cur} == ms.waiting;
  }

  lemma LockContendedOk(ms: MState, m: Mid)
    requires MInv(ms) && Inv(ms.s) && Caller(ms) && Contended(ms, m) && LockReady(ms, m)
    requires HopsKnown(Pointed(ms, m), Inherited(Pointed(ms, m), ms.s.cur).hops)
    requires MInv(Raisen(ms, m)) && Caller(Raisen(ms, m)) && Raised(ms, Raisen(ms, m))
    requires PrioInherit(Pointed(ms, m), ms.s.cur) == Raisen(ms, m).(waiting := ms.waiting[ms.s.cur := m])
    requires ms.s.cur !in ms.waiting
    requires Inherited(Pointed(ms, m), ms.s.cur).dead <==>
      !Acyclic(Pointers(ms)[ms.s.cur := ms.mx[m].holder.value])
    ensures var (r, e) := MutexLock(ms, m);
      && MInv(r) && (e == EDEADLK || e == Blocked)
      && (e == EDEADLK <==> !Acyclic(Pointers(ms)[ms.s.cur := ms.mx[m].holder.value]))
  {
    var c := ms.s.cur;
    var b := Raisen(ms, m);
    RaisedTables(ms, b);
    RaisedHolder(ms, b, m);
    MInvInv(b);
    hide Inv, MInv, Acyclic, Pointers, Inherited, PrioInherit, Raised, Follows, Settled, Raisen, LockReady;
    LockContendedValue(ms, m, b);
    hide MutexLock;
    if !Inherited(Pointed(ms, m), c).dead {
      LockBlocksOk(b, m);
    }
  }

  lemma MInvInv(ms: MState)
    requires MInv(ms)
    ensures Inv(ms.s) && ms.s.cur in ms.s.threads && Tables(ms, {}) && Acyclic(Pointers(ms))
  {
    hide Inv, Tables, Acyclic, Pointers;
  }

  lemma RaisedHolder(a: MState, b: MState, m: Mid)
    requires Raised(a, b) && m in a.mx
    ensures m in b.mx && b.mx[m].holder == a.mx[m].holder && b.s.cur == a.s.cur
    ensures b.waiting == a.waiting && b.inlock == a.inlock && b.held == a.held
  {
    hide Eased;
  }
}
