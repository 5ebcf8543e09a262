/** What the mutex calls compute, said of the states before and after alone:
    which thread ends at which priority, and what each mutex then records. */
module MutexExact {
  import opened Lists
  import opened Sched
  import opened SchedInv
  import opened SchedSwitch
  import opened SchedRuns
  import opened Graph
  import opened Mutex
  import opened MutexInv
  import opened MutexSteps
  import opened MutexHandOff
  import opened MutexRuns

  // ----- prio_inherit -----

  /** `m` is the mutex that `w` waits for, or that of a thread `w` is blocked behind. */
  ghost predicate OnPath(ms: MState, w: Tid, m: Mid)
    requires w in ms.waiting && ms.waiting[w] in ms.mx && ms.mx[ms.waiting[w]].holder.Some?
  {
    m == ms.waiting[w] || exists t :: Behind(ms, w, t) && t != w && t in ms.waiting && ms.waiting[t] == m
  }

  function Better(a: Pri, b: Pri): Pri { if a < b then a else b }

  /** Exactly the threads `w` is blocked behind have come up to priority `p`, if theirs
      was worse, and a mutex that led to such a thread records `p`. */
  ghost predicate Boosted(ms: MState, r: MState, w: Tid, p: Pri)
    requires w in ms.waiting && ms.waiting[w] in ms.mx && ms.mx[ms.waiting[w]].holder.Some?
  {
    && r.s.threads.Keys == ms.s.threads.Keys && r.mx.Keys == ms.mx.Keys
    && (forall t :: t in ms.s.threads ==>
          && r.s.threads[t].basepri == ms.s.threads[t].basepri
          && r.s.threads[t].priority ==
               if Behind(ms, w, t) then Better(p, ms.s.threads[t].priority) else ms.s.threads[t].priority)
    && (forall m :: m in ms.mx ==>
          && r.mx[m].holder == ms.mx[m].holder && r.mx[m].locks == ms.mx[m].locks
          && r.mx[m].priority == if OnPath(ms, w, m) && HolderWorse(ms, m, p) then p else ms.mx[m].priority)
  }

  predicate HolderWorse(ms: MState, m: Mid, p: Pri)
    requires m in ms.mx
  {
    ms.mx[m].holder.Some? && ms.mx[m].holder.value in ms.s.threads && p < ms.s.threads[ms.mx[m].holder.value].priority
  }

  /** The hops are distinct mutexes with their holders, none of them the waiter. */
  ghost predicate Hops(ms: MState, hops: seq<Hop>, w: Tid) {
    && HopsKnown(ms, hops)
    && (forall i :: 0 <= i < |hops| ==> ms.mx[hops[i].m].holder == Some(hops[i].holder) && hops[i].holder != w)
    && (forall i, j :: 0 <= i < j < |hops| ==> hops[i].holder != hops[j].holder)
  }

  predicate Held(hops: seq<Hop>, t: Tid) {
    exists i :: 0 <= i < |hops| && hops[i].holder == t
  }

  predicate Via(hops: seq<Hop>, m: Mid) {
    exists i :: 0 <= i < |hops| && hops[i].m == m
  }

  /** Between the two states the holders on the hops were raised to `p`. */
  ghost predicate ThreadsBy(a: map<Tid, Thread>, b: map<Tid, Thread>, hops: seq<Hop>, p: Pri) {
    && b.Keys == a.Keys
    && forall t :: t in a ==>
         && b[t].basepri == a[t].basepri
         && b[t].priority == if Held(hops, t) then Better(p, a[t].priority) else a[t].priority
  }

  ghost predicate MutexesBy(ms: MState, r: MState, hops: seq<Hop>, p: Pri) {
    && r.mx.Keys == ms.mx.Keys
    && forall m :: m in ms.mx ==>
         && r.mx[m].holder == ms.mx[m].holder && r.mx[m].locks == ms.mx[m].locks
         && r.mx[m].priority == if Via(hops, m) && HolderWorse(ms, m, p) then p else ms.mx[m].priority
  }

  lemma RaiseExact(ms: MState, m: Mid, h: Tid, w: Tid)
    requires ms.s.cur in ms.s.threads && h in ms.s.threads && w in ms.s.threads && m in ms.mx && h != w
    ensures var r, p := Raise(ms, m, h, w), ms.s.threads[w].priority;
      && (forall t :: t in ms.s.threads ==>
            && r.s.threads[t].basepri == ms.s.threads[t].basepri
            && r.s.threads[t].priority == if t == h then Better(p, ms.s.threads[t].priority) else ms.s.threads[t].priority)
      && r.mx == if p < ms.s.threads[h].priority then ms.mx[m := ms.mx[m].(priority := p)] else ms.mx
  {
    SetPriFrame(ms.s, h, ms.s.threads[h].basepri, ms.s.threads[w].priority);
    hide SetPri;
  }

  /** Walking the hops raises exactly their holders and marks exactly their mutexes. */
  lemma {:induction false} RaiseAllExact(ms: MState, hops: seq<Hop>, w: Tid)
    requires ms.s.cur in ms.s.threads && w in ms.s.threads && Hops(ms, hops, w)
    ensures var r, p := RaiseAll(ms, hops, w), ms.s.threads[w].priority;
      ThreadsBy(ms.s.threads, r.s.threads, hops, p) && MutexesBy(ms, r, hops, p)
    decreases |hops|
  {
    if hops != [] {
      var h := hops[0];
      var r1 := Raise(ms, h.m, h.holder, w);
      var p := ms.s.threads[w].priority;
      RaiseExact(ms, h.m, h.holder, w);
      hide Raise, Held, Via, Better, RaiseAll, ThreadsBy, MutexesBy;
      HopsTail(ms, r1, hops, w);
      RaiseAllExact(r1, hops[1..], w);
      UnfoldRaiseAll(ms, hops, w);
      var r := RaiseAll(r1, hops[1..], w);
      HopsSplit(hops);
      ThreadsCons(ms.s.threads, r1.s.threads, r.s.threads, hops, p);
      MutexesCons(ms, r1, r, hops, w, p);
    }
  }

  lemma HopsTail(ms: MState, r: MState, hops: seq<Hop>, w: Tid)
    requires Hops(ms, hops, w) && hops != [] && hops[0].m in ms.mx
    requires r.s.threads.Keys == ms.s.threads.Keys && r.mx.Keys == ms.mx.Keys
    requires forall m :: m in ms.mx ==> r.mx[m].holder == ms.mx[m].holder
    ensures Hops(r, hops[1..], w)
  {
    forall i | 0 <= i < |hops[1..]| ensures hops[1..][i] == hops[i + 1] {
    }
  }

  lemma ThreadsCons(a: map<Tid, Thread>, b: map<Tid, Thread>, c: map<Tid, Thread>, hops: seq<Hop>, p: Pri)
    requires hops != [] && b.Keys == a.Keys && ThreadsBy(b, c, hops[1..], p)
    requires forall t :: Held(hops, t) <==> t == hops[0].holder || Held(hops[1..], t)
    requires forall t :: t in a ==>
      && b[t].basepri == a[t].basepri
      && b[t].priority == if t == hops[0].holder then Better(p, a[t].priority) else a[t].priority
    ensures ThreadsBy(a, c, hops, p)
  {
    hide Held;
  }

  lemma MutexesCons(a: MState, b: MState, c: MState, hops: seq<Hop>, w: Tid, p: Pri)
    requires hops != [] && Hops(a, hops, w) && hops[0].m in a.mx && hops[0].holder in a.s.threads
    requires b.s.threads.Keys == a.s.threads.Keys && MutexesBy(b, c, hops[1..], p)
    requires forall m :: Via(hops, m) <==> m == hops[0].m || Via(hops[1..], m)
    requires forall t :: t in a.s.threads && t != hops[0].holder ==> b.s.threads[t].priority == a.s.threads[t].priority
    requires b.mx ==
      if p < a.s.threads[hops[0].holder].priority then a.mx[hops[0].m := a.mx[hops[0].m].(priority := p)] else a.mx
    ensures MutexesBy(a, c, hops, p)
  {
    forall m | Via(hops[1..], m)
      ensures m in a.mx && m != hops[0].m && a.mx[m].holder.Some? && a.mx[m].holder.value != hops[0].holder
    {
      var i :| 0 <= i < |hops[1..]| && hops[1..][i].m == m;
      assert hops[i + 1].m == m;
    }
    hide Via, Hops;
  }

  lemma HopsSplit(hops: seq<Hop>)
    requires hops != []
    ensures forall t :: Held(hops, t) <==> t == hops[0].holder || Held(hops[1..], t)
    ensures forall m :: Via(hops, m) <==> m == hops[0].m || Via(hops[1..], m)
  {
    assert hops == [hops[0]] + hops[1..];
    forall t | Held(hops[1..], t) ensures Held(hops, t) {
      var i :| 0 <= i < |hops[1..]| && hops[1..][i].holder == t;
      assert hops[i + 1].holder == t;
    }
    forall m | Via(hops[1..], m) ensures Via(hops, m) {
      var i :| 0 <= i < |hops[1..]| && hops[1..][i].m == m;
      assert hops[i + 1].m == m;
    }
    forall t | Held(hops, t) ensures t == hops[0].holder || Held(hops[1..], t) {
      var i :| 0 <= i < |hops| && hops[i].holder == t;
      assert i > 0 ==> hops[1..][i - 1].holder == t;
    }
    forall m | Via(hops, m) ensures m == hops[0].m || Via(hops[1..], m) {
      var i :| 0 <= i < |hops| && hops[i].m == m;
      assert i > 0 ==> hops[1..][i - 1].m == m;
    }
  }

  /** The chain goes from mutex to holder and on to the mutex that one waits for. */
  ghost predicate Linked(ms: MState, hops: seq<Hop>, m: Mid) {
    && (hops != [] ==> hops[0].m == m)
    && (forall i :: 0 <= i < |hops| ==> hops[i].m in ms.mx && ms.mx[hops[i].m].holder == Some(hops[i].holder))
    && (forall i :: 0 <= i < |hops| - 1 ==> hops[i].holder in ms.waiting && hops[i + 1].m == ms.waiting[hops[i].holder])
  }

  lemma {:induction false} ChainLinked(ms: MState, m: Mid, w: Tid, fuel: nat)
    ensures Linked(ms, ChainFrom(ms, m, w, fuel).hops, m)
    decreases fuel
  {
    if fuel > 0 && m in ms.mx && ms.mx[m].holder.Some? {
      var h := ms.mx[m].holder.value;
      if h != w && h in ms.waiting {
        ChainLinked(ms, ms.waiting[h], w, fuel - 1);
      }
    }
  }

  /** It goes on as long as the holder waits for a mutex that is not the waiter's own. */
  lemma {:induction false} ChainGoesOn(ms: MState, m: Mid, w: Tid, fuel: nat, i: nat)
    requires forall t :: t in ms.waiting ==> ms.waiting[t] in ms.mx && ms.mx[ms.waiting[t]].holder.Some?
    ensures var hops := ChainFrom(ms, m, w, fuel).hops;
      i < |hops| < fuel && hops[i].holder in ms.waiting && ms.mx[ms.waiting[hops[i].holder]].holder != Some(w) ==>
        i + 1 < |hops| && hops[i + 1].m == ms.waiting[hops[i].holder]
    decreases fuel
  {
    if fuel > 0 && m in ms.mx && ms.mx[m].holder.Some? {
      var h := ms.mx[m].holder.value;
      if h != w && h in ms.waiting && i > 0 {
        ChainGoesOn(ms, ms.waiting[h], w, fuel - 1, i - 1);
      }
    }
  }

  /** The holders on the chain are exactly the threads the waiter is blocked behind,
      itself apart. */
  lemma ChainIsBehind(ms: MState, w: Tid)
    requires InheritReady(ms, w)
    ensures ms.waiting[w] in ms.mx && ms.mx[ms.waiting[w]].holder.Some?
    ensures var hops := Inherited(ms, w).hops;
      && (forall t :: t in Holders(hops) <==> Behind(ms, w, t) && t != w) && NoDup(Holders(hops))
      && (hops == [] ==> ms.mx[ms.waiting[w]].holder == Some(w)) && |hops| <= |ms.waiting|
  {
    hide Inv, Ownership;
    var g := Pointers(ms) - {w};
    var m := ms.waiting[w];
    var c := Inherited(ms, w);
    ChainTrail(ms, m, w, |ms.waiting| + 1);
    var p := Holders(c.hops) + (if c.dead then [w] else []);
    TrailBound(g, p);
    PointerCount(ms, w);
    forall t | t in p ensures Behind(ms, w, t) {
      var i :| 0 <= i < |p| && p[i] == t;
      TrailWalk(g, p, 0, i);
    }
    forall t | Behind(ms, w, t) ensures t in p {
      TrailComplete(g, p, t);
    }
    forall i, j | 0 <= i < j < |Holders(c.hops)| ensures Holders(c.hops)[i] != Holders(c.hops)[j] {
      assert p[i] != p[j];
    }
  }

  lemma HeldIs(hops: seq<Hop>)
    ensures forall t :: Held(hops, t) <==> t in Holders(hops)
  {
    forall t | t in Holders(hops) ensures Held(hops, t) {
      var i :| 0 <= i < |hops| && Holders(hops)[i] == t;
      assert hops[i].holder == t;
    }
    forall t | Held(hops, t) ensures t in Holders(hops) {
      var i :| 0 <= i < |hops| && hops[i].holder == t;
      assert Holders(hops)[i] == t;
    }
  }

  lemma ReadyLeadsAll(ms: MState, w: Tid)
    requires InheritReady(ms, w)
    ensures w in ms.waiting
    ensures forall t :: t in ms.waiting ==> ms.waiting[t] in ms.mx && ms.mx[ms.waiting[t]].holder.Some?
  {
    hide Inv, Ownership, Acyclic;
  }

  lemma LinkedAt(ms: MState, hops: seq<Hop>, m: Mid, i: nat)
    requires Linked(ms, hops, m) && i < |hops|
    ensures hops[i].m in ms.mx && ms.mx[hops[i].m].holder == Some(hops[i].holder) && hops[0].m == m
    ensures i > 0 ==> hops[i - 1].holder in ms.waiting && hops[i].m == ms.waiting[hops[i - 1].holder]
  {
    assert i > 0 ==> hops[i - 1 + 1] == hops[i];
  }

  lemma InheritLinked(ms: MState, w: Tid)
    requires w in ms.waiting
    ensures Linked(ms, Inherited(ms, w).hops, ms.waiting[w])
  {
    ChainLinked(ms, ms.waiting[w], w, |ms.waiting| + 1);
  }

  /** A mutex on the chain is on the waiter's path. */
  lemma ViaOnPath(ms: MState, w: Tid, m: Mid)
    requires InheritReady(ms, w) && Via(Inherited(ms, w).hops, m)
    requires ms.waiting[w] in ms.mx && ms.mx[ms.waiting[w]].holder.Some?
    ensures OnPath(ms, w, m)
  {
    hide Behind, InheritReady, ChainFrom, NoDup, Linked;
    ReadyLeadsAll(ms, w);
    ChainIsBehind(ms, w);
    ChainLinked(ms, ms.waiting[w], w, |ms.waiting| + 1);
    var hops := Inherited(ms, w).hops;
    var i :| 0 <= i < |hops| && hops[i].m == m;
    LinkedAt(ms, hops, ms.waiting[w], i);
    if i > 0 {
      assert Holders(hops)[i - 1] in Holders(hops);
      assert Behind(ms, w, hops[i - 1].holder);
    }
  }

  /** And the other way round, but for a mutex that the waiter itself holds. */
  lemma OnPathVia(ms: MState, w: Tid, m: Mid)
    requires InheritReady(ms, w) && m in ms.mx && ms.mx[m].holder != Some(w)
    requires ms.waiting[w] in ms.mx && ms.mx[ms.waiting[w]].holder.Some? && OnPath(ms, w, m)
    ensures Via(Inherited(ms, w).hops, m)
  {
    hide Behind, InheritReady, ChainFrom, NoDup, Linked, Inherited;
    ReadyLeadsAll(ms, w);
    ChainIsBehind(ms, w);
    InheritLinked(ms, w);
    var hops := Inherited(ms, w).hops;
    if m == ms.waiting[w] {
      LinkedAt(ms, hops, ms.waiting[w], 0);
      assert hops[0].m == m;
    } else {
      var t :| Behind(ms, w, t) && t != w && t in ms.waiting && ms.waiting[t] == m;
      assert t in Holders(hops);
      var i :| 0 <= i < |hops| && Holders(hops)[i] == t;
      assert hops[i].holder == t;
      InheritGoesOn(ms, w, i);
      assert hops[i + 1].m == m;
    }
  }

  lemma InheritGoesOn(ms: MState, w: Tid, i: nat)
    requires w in ms.waiting
    requires forall t :: t in ms.waiting ==> ms.waiting[t] in ms.mx && ms.mx[ms.waiting[t]].holder.Some?
    ensures var hops := Inherited(ms, w).hops;
      i < |hops| <= |ms.waiting| && hops[i].holder in ms.waiting && ms.mx[ms.waiting[hops[i].holder]].holder != Some(w) ==>
        i + 1 < |hops| && hops[i + 1].m == ms.waiting[hops[i].holder]
  {
    ChainGoesOn(ms, ms.waiting[w], w, |ms.waiting| + 1, i);
  }

  lemma ChainHops(ms: MState, w: Tid)
    requires InheritReady(ms, w)
    ensures Hops(ms, Inherited(ms, w).hops, w)
  {
    hide Linked, Raised, Holders, ChainFrom, RaiseAll, NoDup, InheritReady, Behind, HopsKnown, PrioInherit, Inherited;
    ReadyLeadsAll(ms, w);
    InheritOk(ms, w);
    ChainIsBehind(ms, w);
    InheritLinked(ms, w);
    var hops := Inherited(ms, w).hops;
    forall i | 0 <= i < |hops|
      ensures hops[i].m in ms.mx && ms.mx[hops[i].m].holder == Some(hops[i].holder) && hops[i].holder != w
    {
      LinkedAt(ms, hops, ms.waiting[w], i);
      assert Holders(hops)[i] in Holders(hops);
    }
    HoldersApart(hops);
  }

  lemma ByIsBoosted(ms: MState, r: MState, w: Tid, hops: seq<Hop>, p: Pri)
    requires w in ms.waiting && ms.waiting[w] in ms.mx && ms.mx[ms.waiting[w]].holder.Some?
    requires w in ms.s.threads && p == ms.s.threads[w].priority
    requires ThreadsBy(ms.s.threads, r.s.threads, hops, p) && MutexesBy(ms, r, hops, p)
    requires forall t :: Held(hops, t) <==> Behind(ms, w, t) && t != w
    requires forall m :: m in ms.mx && HolderWorse(ms, m, p) ==> (Via(hops, m) <==> OnPath(ms, w, m))
    ensures Boosted(ms, r, w, p)
  {
    hide OnPath, Via, Held, HolderWorse, Behind;
  }

  /** prio_inherit boosts exactly the threads on the way, whether or not it finds a
      cycle; the mutexes on the way record the waiter's priority. */
  lemma InheritExact(ms: MState, w: Tid)
    requires InheritReady(ms, w)
    ensures HopsKnown(ms, Inherited(ms, w).hops)
    ensures ms.waiting[w] in ms.mx && ms.mx[ms.waiting[w]].holder.Some?
    ensures Boosted(ms, PrioInherit(ms, w), w, ms.s.threads[w].priority)
  {
    var hops, p := Inherited(ms, w).hops, ms.s.threads[w].priority;
    ChainHops(ms, w);
    ChainIsBehind(ms, w);
    HeldIs(hops);
    ReadyLeadsAll(ms, w);
    RaiseAllExact(ms, hops, w);
    hide Boosted, OnPath, Via, Held, Behind, Inherited, RaiseAll, Hops, NoDup, InheritReady, HopsKnown, ThreadsBy, MutexesBy;
    forall m | m in ms.mx && HolderWorse(ms, m, p) ensures Via(hops, m) <==> OnPath(ms, w, m) {
      if Via(hops, m) {
        ViaOnPath(ms, w, m);
      }
      if OnPath(ms, w, m) {
        OnPathVia(ms, w, m);
      }
    }
    ByIsBoosted(ms, PrioInherit(ms, w), w, hops, p);
  }

  lemma HoldersApart(hops: seq<Hop>)
    requires NoDup(Holders(hops))
    ensures forall i, j :: 0 <= i < j < |hops| ==> hops[i].holder != hops[j].holder
  {
    forall i, j | 0 <= i < j < |hops| ensures hops[i].holder != hops[j].holder {
      assert Holders(hops)[i] != Holders(hops)[j];
    }
  }

  // ----- mutex_lock -----

  /** What mutex_lock on a mutex held by somebody else leaves alone. */
  ghost predicate Shape(ms: MState, r: MState, x: Mid, blocked: bool) {
    && r.held == ms.held && SameOwners(ms.mx, r.mx)
    && r.waiting == (if blocked then ms.waiting[ms.s.cur := x] else ms.waiting)
    && r.inlock == (if blocked then ms.inlock[ms.s.cur := x] else ms.inlock)
    && (forall e :: e in ms.mx ==>
          SleepQ(r.s.sleepq, e) == SleepQ(ms.s.sleepq, e) + if blocked && e == x then [ms.s.cur] else [])
    && (forall e, y :: y in SleepQ(r.s.sleepq, e) ==> y in SleepQ(ms.s.sleepq, e) || y == ms.s.cur)
    && r.s.threads.Keys == ms.s.threads.Keys
    && (forall y :: y in ms.s.threads ==>
          r.s.threads[y].exit == ms.s.threads[y].exit && r.s.threads[y].priority <= ms.s.threads[y].priority)
  }

  lemma LockShape(ms: MState, x: Mid)
    requires MInv(ms) && Inv(ms.s) && Caller(ms) && Contended(ms, x)
    ensures LockReady(ms, x)
    ensures var (r, e) := MutexLock(ms, x); Shape(ms, r, x, e == Blocked)
  {
    hide MInv, Inv, Inherited, PrioInherit, Raised, Raisen, LockReady, Follows, Settled, Pointers, Acyclic, Tables, Shape, Tsleep;
    LockIsReady(ms, x);
    RaisenOk(ms, x);
    var b := Raisen(ms, x);
    CallerIsFree(ms);
    RaisedHolder(ms, b, x);
    MInvInv(b);
    LockContendedValue(ms, x, b);
    if Inherited(Pointed(ms, x), ms.s.cur).dead {
      RaisedShape(ms, b, x);
    } else {
      SleepShape(ms, b, x);
    }
  }

  lemma RaisedShape(ms: MState, b: MState, x: Mid)
    requires Raised(ms, b)
    ensures Shape(ms, b, x, false)
  {
    hide SleepQ;
    assert forall e :: SleepQ(ms.s.sleepq, e) + [] == SleepQ(ms.s.sleepq, e);
  }

  lemma SleepShape(ms: MState, b: MState, x: Mid)
    requires Raised(ms, b) && Inv(b.s) && Tables(b, {}) && Caller(b) && Contended(b, x) && x in ms.mx
    ensures Shape(ms, Queued(b, x).(s := Tsleep(b.s, x, false)), x, true)
  {
    hide Inv, Tables, Ownership, Waiters, Follows, Settled, Quiets, Ranks, Tsleep, Shape, Raised, Contended, Caller;
    CallerCur(b);
    var r := Tsleep(b.s, x, false);
    var q := b.s.sleepq[x := SleepQ(b.s.sleepq, x) + [b.s.cur]];
    TablesParts(b, {});
    FollowsQuiet(b.mx, b.s.(sleepq := q), r);
    FollowsFewer(b.s.(sleepq := q), r);
    QueuedShape(ms, b, x, q, r);
  }

  lemma CallerCur(b: MState)
    requires Caller(b)
    ensures b.s.cur in b.s.threads && b.s.cur != IDLE && !b.s.threads[b.s.cur].exit
  {
  }

  lemma FollowsFewer(a: State, b: State)
    requires Follows(a, b)
    ensures Fewer(a.sleepq, b.sleepq) && Kept(a.threads, b.threads)
  {
  }

  lemma QueuedShape(ms: MState, b: MState, x: Mid, q: map<Event, seq<Tid>>, r: State)
    requires Raised(ms, b) && x in ms.mx && q == b.s.sleepq[x := SleepQ(b.s.sleepq, x) + [b.s.cur]]
    requires Fewer(q, r.sleepq) && Kept(b.s.threads, r.threads)
    requires forall e :: e in b.mx ==> SleepQ(r.sleepq, e) == SleepQ(q, e)
    ensures Shape(ms, Queued(b, x).(s := r), x, true)
  {
    forall e ensures SleepQ(q, e) == SleepQ(b.s.sleepq, e) + (if e == x then [b.s.cur] else []) {
      assert SleepQ(b.s.sleepq, e) + [] == SleepQ(b.s.sleepq, e);
    }
    hide SleepQ;
  }

  /** The caller is now the holder of `m`, once; owners of other mutexes, waiters and
      the scheduler are as before. */
  ghost predicate Taken(ms: MState, r: MState, m: Mid, p: Pri) {
    && r.s == ms.s && m in ms.mx && r.mx == ms.mx[m := Mutex(Some(ms.s.cur), p, 1)]
    && HeldBy(r.held, ms.s.cur) == [m] + HeldBy(ms.held, ms.s.cur)
    && (forall t :: t != ms.s.cur ==> HeldBy(r.held, t) == HeldBy(ms.held, t))
    && r.waiting == ms.waiting - {ms.s.cur} && r.inlock == ms.inlock - {ms.s.cur}
  }

  /** Priorities, and what mutexes record, do not change while a thread sleeps. */
  lemma BoostedKept(ms: MState, a: MState, b: MState, w: Tid, p: Pri)
    requires w in ms.waiting && ms.waiting[w] in ms.mx && ms.mx[ms.waiting[w]].holder.Some?
    requires Boosted(ms, a, w, p) && b.mx == a.mx && Kept(a.s.threads, b.s.threads)
    ensures Boosted(ms, b, w, p)
  {
    hide Behind, OnPath, HolderWorse;
  }

  lemma LockBoosts(ms: MState, m: Mid)
    requires MInv(ms) && Inv(ms.s) && Caller(ms) && Contended(ms, m)
    ensures LockReady(ms, m)
    ensures Boosted(Pointed(ms, m), MutexLock(ms, m).0, ms.s.cur, ms.s.threads[ms.s.cur].priority)
  {
    hide MInv, Inv, Inherited, PrioInherit, Raised, Raisen, LockReady, Follows, Settled, Pointers, Acyclic, Tables,
      Shape, Tsleep, Boosted, InheritReady;
    LockIsReady(ms, m);
    RaisenOk(ms, m);
    var b := Raisen(ms, m);
    CallerIsFree(ms);
    RaisedHolder(ms, b, m);
    MInvInv(b);
    LockContendedValue(ms, m, b);
    InheritStart(ms, m);
    InheritExact(Pointed(ms, m), ms.s.cur);
    var w := PrioInherit(Pointed(ms, m), ms.s.cur);
    KeptRefl(b.s.threads);
    if Inherited(Pointed(ms, m), ms.s.cur).dead {
      BoostedKept(Pointed(ms, m), w, b, ms.s.cur, ms.s.threads[ms.s.cur].priority);
    } else {
      CallerCur(b);
      var q := b.s.sleepq[m := SleepQ(b.s.sleepq, m) + [b.s.cur]];
      var t := Tsleep(b.s, m, false);
      FollowsFewer(b.s.(sleepq := q), t);
      BoostedKept(Pointed(ms, m), w, Queued(b, m).(s := t), ms.s.cur, ms.s.threads[ms.s.cur].priority);
    }
  }

  /** mutex_lock on a mutex held by somebody else: the holders on the way come up to the
      caller's priority, also when it then returns EDEADLK; it sleeps unless waiting
      would close a cycle. */
  lemma LockContendedExact(ms: MState, m: Mid)
    requires MInv(ms) && Inv(ms.s) && Caller(ms) && Contended(ms, m)
    ensures LockReady(ms, m)
    ensures var (r, e) := MutexLock(ms, m);
      && Boosted(Pointed(ms, m), r, ms.s.cur, ms.s.threads[ms.s.cur].priority)
      && Shape(ms, r, m, e == Blocked) && (e == Blocked || e == EDEADLK)
      && (e == EDEADLK <==> Reaches(Pointers(ms), ms.mx[m].holder.value, ms.s.cur))
  {
    hide MInv, Inv, LockReady, Boosted, Shape, MutexLock, Reaches, Acyclic, Pointers;
    LockBoosts(ms, m);
    LockShape(ms, m);
    MutexLockOk(ms, m);
    MInvInv(ms);
    CallerIsFree(ms);
    NoPointer(ms);
    AddEdge(Pointers(ms), ms.s.cur, ms.mx[m].holder.value);
  }

  lemma NoPointer(ms: MState)
    requires ms.s.cur !in ms.waiting
    ensures ms.s.cur !in Pointers(ms)
  {
  }

  /** mutex_lock in the other cases: a free mutex is taken and records the caller's
      priority; one that the caller holds is counted. */
  lemma LockExact(ms: MState, m: Mid)
    requires MInv(ms) && Inv(ms.s) && Caller(ms) && !Contended(ms, m)
    ensures LockReady(ms, m)
    ensures var (r, e) := MutexLock(ms, m);
      && (e == EINVAL <==> m !in ms.mx) && (e == EINVAL ==> r == ms) && (e == EINVAL || e == Done)
      && (m in ms.mx && ms.mx[m].holder == None ==> Taken(ms, r, m, ms.s.threads[ms.s.cur].priority))
      && (m in ms.mx && ms.mx[m].holder.Some? ==> Counted(ms, r, m, ms.mx[m].locks + 1))
  {
    hide MInv, Inv, LockReady;
    LockIsReady(ms, m);
    CallerIsFree(ms);
  }

  /** Only the lock count of `m` changes, to `n`. */
  ghost predicate Counted(ms: MState, r: MState, m: Mid, n: nat) {
    && m in ms.mx && r.mx.Keys == ms.mx.Keys && r == ms.(mx := r.mx)
    && forall x :: x in ms.mx ==> r.mx[x] == if x == m then Mutex(ms.mx[m].holder, ms.mx[m].priority, n) else ms.mx[x]
  }

  /** Back from its sleep, and by mutex_trylock, a thread takes the mutex without
      changing the priority it records. */
  lemma ResumeExact(ms: MState)
    requires MInv(ms) && Returning(ms)
    ensures ms.inlock[ms.s.cur] in ms.mx
    ensures var m := ms.inlock[ms.s.cur]; Taken(ms, MutexLockResume(ms).0, m, ms.mx[m].priority)
  {
    ReturningFacts(ms);
    hide MInv, InFlight;
  }

  lemma TrylockExact(ms: MState, m: Mid)
    requires MInv(ms) && Caller(ms)
    ensures var (r, e) := MutexTrylock(ms, m);
      && (e == EINVAL <==> m !in ms.mx) && (e == EBUSY <==> Contended(ms, m))
      && (e != Done ==> r == ms)
      && (e == Done && ms.mx[m].holder == None ==> Taken(ms, r, m, ms.mx[m].priority))
      && (e == Done && ms.mx[m].holder.Some? ==> Counted(ms, r, m, ms.mx[m].locks + 1))
  {
    hide MInv;
    CallerIsFree(ms);
  }

  // ----- mutex_unlock -----

  /** A boost comes down to what is still due: the best of the thread's base priority
      and the priorities that its mutexes record. */
  ghost predicate Due(ms: MState, c: Tid)
    requires c in ms.s.threads && forall m :: m in HeldBy(ms.held, c) ==> m in ms.mx
  {
    var th, l := ms.s.threads[c], HeldBy(ms.held, c);
    && th.priority <= th.basepri && (forall m :: m in l ==> th.priority <= ms.mx[m].priority)
    && (th.priority == th.basepri || exists m :: m in l && ms.mx[m].priority == th.priority)
  }

  lemma {:induction false} BestIsDue(mx: map<Mid, Mutex>, l: seq<Mid>, best: Pri)
    requires forall m :: m in l ==> m in mx
    ensures var r := BestOf(mx, l, best);
      r <= best && (forall m :: m in l ==> r <= mx[m].priority) && (r == best || exists m :: m in l && mx[m].priority == r)
    decreases |l|
  {
    if l != [] {
      assert l[0] in l && forall m :: m in l <==> m == l[0] || m in l[1..];
      BestIsDue(mx, l[1..], if mx[l[0]].priority < best then mx[l[0]].priority else best);
    }
  }

  /** The caller gives up its last lock of `m`. */
  ghost predicate LastUnlock(ms: MState, m: Mid) {
    m in ms.mx && ms.mx[m].holder == Some(ms.s.cur) && ms.mx[m].locks == 1
  }

  lemma ReleaseExact(ms: MState, m: Mid)
    requires MInv(ms) && Caller(ms) && LastUnlock(ms, m)
    ensures var (r, c) := (Release(ms, m), ms.s.cur);
      && r.s.threads.Keys == ms.s.threads.Keys && (forall x :: x in HeldBy(r.held, c) ==> x in r.mx)
      && (forall t :: t in ms.s.threads ==>
            && r.s.threads[t].basepri == ms.s.threads[t].basepri
            && (t != c ==> r.s.threads[t].priority == ms.s.threads[t].priority))
      && (if ms.s.threads[c].priority == ms.s.threads[c].basepri then r.s == ms.s else Due(r, c))
      && r.mx == ms.mx[m := ms.mx[m].(locks := 0)]
      && (forall x :: x in HeldBy(r.held, c) <==> x in HeldBy(ms.held, c) && x != m)
      && (forall t :: t != c ==> HeldBy(r.held, t) == HeldBy(ms.held, t))
      && r.waiting == ms.waiting && r.inlock == ms.inlock && r.s.sleepq == ms.s.sleepq
  {
    var c := ms.s.cur;
    var u := Unheld(ms, m);
    var th := ms.s.threads[c];
    UnheldLists(ms, m);
    hide MInv, SetPri, BestOf, Remove, Due, HeldBy;
    if th.priority != th.basepri {
      SetPriFrame(u.s, c, th.basepri, BestOf(u.mx, HeldBy(u.held, c), th.basepri));
      UninheritDue(u, c);
    }
  }

  lemma UnheldLists(ms: MState, m: Mid)
    requires MInv(ms) && m in ms.mx
    ensures var (u, c) := (Unheld(ms, m), ms.s.cur);
      && (forall x :: x in HeldBy(u.held, c) <==> x in HeldBy(ms.held, c) && x != m)
      && (forall t :: t != c ==> HeldBy(u.held, t) == HeldBy(ms.held, t))
      && (forall x :: x in HeldBy(u.held, c) ==> x in ms.mx)
  {
    HeldFacts(ms, ms.s.cur);
    RemoveFacts(HeldBy(ms.held, ms.s.cur), m);
    hide MInv, Remove, NoDup;
  }

  lemma UninheritDue(ms: MState, c: Tid)
    requires c in ms.s.threads && ms.s.cur in ms.s.threads && forall x :: x in HeldBy(ms.held, c) ==> x in ms.mx
    requires ms.s.threads[c].priority != ms.s.threads[c].basepri
    ensures c in PrioUninherit(ms, c).s.threads && Due(PrioUninherit(ms, c), c)
  {
    var th := ms.s.threads[c];
    BestIsDue(ms.mx, HeldBy(ms.held, c), th.basepri);
    SetPriFrame(ms.s, c, th.basepri, BestOf(ms.mx, HeldBy(ms.held, c), th.basepri));
    hide SetPri, BestOf, HeldBy;
  }

  lemma HeldFacts(ms: MState, c: Tid)
    requires MInv(ms)
    ensures NoDup(HeldBy(ms.held, c)) && forall x :: x in HeldBy(ms.held, c) ==> x in ms.mx
  {
    hide Inv, Acyclic, NoDup, Waiters, Ranks, Quiets, Successful;
  }

  lemma DueKept(a: MState, b: MState, c: Tid, m: Mid)
    requires c in a.s.threads && b.s.threads.Keys == a.s.threads.Keys && b.held == a.held && b.mx.Keys == a.mx.Keys
    requires forall x :: x in HeldBy(a.held, c) ==> x in a.mx && x != m
    requires b.s.threads[c].priority == a.s.threads[c].priority && b.s.threads[c].basepri == a.s.threads[c].basepri
    requires forall x :: x in a.mx && x != m ==> b.mx[x] == a.mx[x]
    ensures Due(a, c) ==> Due(b, c)
  {
    hide HeldBy;
  }

  lemma TopAfter(ms: MState, l: MState, m: Mid)
    requires Known(SleepQ(ms.s.sleepq, m), ms.s.threads) && l.s.threads.Keys == ms.s.threads.Keys
    requires forall t :: t in SleepQ(ms.s.sleepq, m) ==> l.s.threads[t].priority == ms.s.threads[t].priority
    requires l.s.sleepq == ms.s.sleepq && SleepQ(ms.s.sleepq, m) != []
    ensures Known(SleepQ(l.s.sleepq, m), l.s.threads)
    ensures Top(l.s.threads, SleepQ(l.s.sleepq, m)) == Top(ms.s.threads, SleepQ(ms.s.sleepq, m))
    ensures Top(l.s.threads, SleepQ(l.s.sleepq, m)) in l.s.threads
  {
    var q := SleepQ(ms.s.sleepq, m);
    forall i | 0 <= i < |q| ensures l.s.threads[q[i]].priority == ms.s.threads[q[i]].priority {
      var t := q[i];
      assert t in q;
    }
    TopSame(ms.s.threads, l.s.threads, q);
  }

  lemma AwakenQueue(s: State, m: Mid, t: Tid)
    requires t in s.threads
    ensures var r := Awaken(s, m, t, 0);
      Kept(s.threads, r.threads) && r.sleepq == s.sleepq[m := Remove(SleepQ(s.sleepq, m), t)]
  {
    hide Remove;
  }

  lemma HandOffExact(ms: MState, l: MState, m: Mid, rep: Option<Tid>)
    requires Inv(ms.s) && Reported(ms.s, m, rep) && m in l.mx && l.s.threads.Keys == ms.s.threads.Keys
    requires Known(SleepQ(ms.s.sleepq, m), ms.s.threads) && (rep.Some? ==> rep.value in ms.s.threads)
    requires forall t :: t in SleepQ(ms.s.sleepq, m) ==> l.s.threads[t].priority == ms.s.threads[t].priority
    requires l.s.sleepq == ms.s.sleepq && l.waiting == ms.waiting
    ensures Known(SleepQ(l.s.sleepq, m), l.s.threads)
    ensures var r := HandOff(l, m, rep);
      && Kept(l.s.threads, r.s.threads) && r.held == l.held && r.inlock == l.inlock
      && r.mx == l.mx[m := Mutex(rep, if rep.Some? then ms.s.threads[rep.value].priority else MINPRI, 0)]
      && r.waiting == (if rep.Some? then ms.waiting - {rep.value} else ms.waiting)
      && (forall e :: SleepQ(r.s.sleepq, e) ==
            if e == m && rep.Some? then Remove(SleepQ(ms.s.sleepq, m), Top(ms.s.threads, SleepQ(ms.s.sleepq, m)))
            else SleepQ(ms.s.sleepq, e))
  {
    hide Inv, Remove, Top, Kept;
    if rep.Some? {
      TopAfter(ms, l, m);
      AwakenQueue(l.s, m, Top(l.s.threads, SleepQ(l.s.sleepq, m)));
      hide Awaken;
    } else {
      KeptRefl(l.s.threads);
    }
  }

  /** The priorities after the last unlock of `m`: a caller that was boosted keeps exactly
      what is still due for the mutexes it has left, one that was not keeps its priority,
      and so do all others. */
  ghost predicate Lowered(ms: MState, r: MState, m: Mid)
    requires ms.s.cur in ms.s.threads
  {
    var c := ms.s.cur;
    && r.s.threads.Keys == ms.s.threads.Keys && (forall x :: x in HeldBy(r.held, c) ==> x in r.mx)
    && (forall t :: t in ms.s.threads ==>
          && r.s.threads[t].basepri == ms.s.threads[t].basepri
          && (t != c ==> r.s.threads[t].priority == ms.s.threads[t].priority))
    && (if ms.s.threads[c].priority == ms.s.threads[c].basepri
        then r.s.threads[c].priority == ms.s.threads[c].priority else Due(r, c))
    && (forall x :: x in HeldBy(r.held, c) <==> x in HeldBy(ms.held, c) && x != m)
    && (forall t :: t != c ==> HeldBy(r.held, t) == HeldBy(ms.held, t))
  }

  /** The mutex goes to the thread reported, whose priority it records, and the first of
      the best sleepers leaves the queue; without sleepers it is free. */
  ghost predicate Passed(ms: MState, r: MState, m: Mid, rep: Option<Tid>)
    requires (rep.Some? ==> rep.value in ms.s.threads && SleepQ(ms.s.sleepq, m) != [])
    requires Known(SleepQ(ms.s.sleepq, m), ms.s.threads)
  {
    && r.mx.Keys == ms.mx.Keys && (forall x :: x in ms.mx && x != m ==> r.mx[x] == ms.mx[x])
    && m in r.mx && r.mx[m] == Mutex(rep, if rep.Some? then ms.s.threads[rep.value].priority else MINPRI, 0)
    && r.waiting == (if rep.Some? then ms.waiting - {rep.value} else ms.waiting) && r.inlock == ms.inlock
    && (forall e :: SleepQ(r.s.sleepq, e) ==
          if e == m && rep.Some? then Remove(SleepQ(ms.s.sleepq, m), Top(ms.s.threads, SleepQ(ms.s.sleepq, m)))
          else SleepQ(ms.s.sleepq, e))
  }

  lemma LoweredIs(ms: MState, l: MState, r: MState, m: Mid)
    requires ms.s.cur in ms.s.threads && l.s.threads.Keys == ms.s.threads.Keys && m in l.mx
    requires (forall x :: x in HeldBy(l.held, ms.s.cur) ==> x in l.mx)
    requires forall t :: t in ms.s.threads ==>
      && l.s.threads[t].basepri == ms.s.threads[t].basepri
      && (t != ms.s.cur ==> l.s.threads[t].priority == ms.s.threads[t].priority)
    requires if ms.s.threads[ms.s.cur].priority == ms.s.threads[ms.s.cur].basepri then l.s == ms.s else Due(l, ms.s.cur)
    requires forall x :: x in HeldBy(l.held, ms.s.cur) <==> x in HeldBy(ms.held, ms.s.cur) && x != m
    requires forall t :: t != ms.s.cur ==> HeldBy(l.held, t) == HeldBy(ms.held, t)
    requires Kept(l.s.threads, r.s.threads) && r.held == l.held && r.mx.Keys == l.mx.Keys
    requires forall x :: x in l.mx && x != m ==> r.mx[x] == l.mx[x]
    ensures Lowered(ms, r, m)
  {
    hide HeldBy, Due;
    if ms.s.threads[ms.s.cur].priority != ms.s.threads[ms.s.cur].basepri {
      DueKept(l, r, ms.s.cur, m);
    }
  }

  lemma UnlockExact(ms: MState, m: Mid, rep: Option<Tid>)
    requires MInv(ms) && Caller(ms) && Reported(ms.s, m, rep) && LastUnlock(ms, m)
    ensures Known(SleepQ(ms.s.sleepq, m), ms.s.threads) && (rep.Some? ==> rep.value in ms.s.threads)
    ensures var r := MutexUnlockReporting(ms, m, rep).0; Lowered(ms, r, m) && Passed(ms, r, m, rep)
  {
    hide MInv, Inv, Caller, Known, Release, Remove, Top, Due, HeldBy, Lowered, HandOff, SleepQ;
    CurIn(ms);
    CurAwake(ms);
    SleepKnown(ms.s, m);
    ReportKnown(ms.s, m, rep);
    ReleaseExact(ms, m);
    var l := Release(ms, m);
    HandOffExact(ms, l, m, rep);
    LoweredIs(ms, l, HandOff(l, m, rep), m);
  }

  /** mutex_unlock: the errors, a count that goes down, or the last unlock, where
      sched_wakeone reports the sleeper queued last. */
  lemma MutexUnlockExact(ms: MState, m: Mid)
    requires MInv(ms) && Caller(ms)
    ensures Known(SleepQ(ms.s.sleepq, m), ms.s.threads)
    ensures var ((r, e), q) := (MutexUnlock(ms, m), SleepQ(ms.s.sleepq, m));
      && (e == EINVAL <==> m !in ms.mx) && (e == EPERM <==> m in ms.mx && ms.mx[m].holder != Some(ms.s.cur))
      && (e == Done <==> m in ms.mx && ms.mx[m].holder == Some(ms.s.cur)) && (e != Done ==> r == ms)
      && (e == Done && ms.mx[m].locks > 1 ==> Counted(ms, r, m, ms.mx[m].locks - 1))
      && (LastUnlock(ms, m) ==>
            Lowered(ms, r, m) && Passed(ms, r, m, if q == [] then None else Some(q[|q| - 1])))
  {
    hide MInv, Inv, Lowered, Passed, MutexUnlockReporting;
    CurIn(ms);
    SleepKnown(ms.s, m);
    CallerIsFree(ms);
    if LastUnlock(ms, m) {
      UnlockExact(ms, m, WakeoneResult(ms.s, m));
    }
    MutexUnlockOther(ms, m, WakeoneResult(ms.s, m));
  }

  lemma MutexUnlockOther(ms: MState, m: Mid, rep: Option<Tid>)
    requires ms.s.cur in ms.s.threads && Known(SleepQ(ms.s.sleepq, m), ms.s.threads)
    requires rep.Some? ==> rep.value in ms.s.threads
    requires m in ms.mx && ms.mx[m].holder == Some(ms.s.cur) ==> ms.mx[m].locks > 0
    ensures var (r, e) := MutexUnlockReporting(ms, m, rep);
      && (e == EINVAL <==> m !in ms.mx) && (e == EPERM <==> m in ms.mx && ms.mx[m].holder != Some(ms.s.cur))
      && (e == Done <==> m in ms.mx && ms.mx[m].holder == Some(ms.s.cur)) && (e != Done ==> r == ms)
      && (e == Done && ms.mx[m].locks > 1 ==> Counted(ms, r, m, ms.mx[m].locks - 1))
  {
    hide HandOff, Release;
  }

  // ----- mutex_setpri and thread_schedparam -----

  /** The holders that `t` is blocked behind come up to its priority so far, exactly if
      `t` waits and is about to improve. */
  lemma SetpriExact(ms: MState, t: Tid, pri: Pri)
    requires MInv(ms) && t in ms.s.threads && ms.s.cur in ms.s.threads
    requires t in ms.waiting ==> HopsKnown(ms, Inherited(ms, t).hops)
    ensures t in ms.waiting ==> ms.waiting[t] in ms.mx && ms.mx[ms.waiting[t]].holder.Some?
    ensures var r := MutexSetpri(ms, t, pri);
      if t in ms.waiting && pri < ms.s.threads[t].priority then Boosted(ms, r, t, ms.s.threads[t].priority) else r == ms
  {
    hide InheritReady, Boosted, Inherited, PrioInherit, HopsKnown, MInv;
    if t in ms.waiting {
      WaiterReady(ms, t);
      ReadyLeadsAll(ms, t);
      InheritExact(ms, t);
    }
  }

  /** thread_schedparam sets both priorities to the one asked for, except that a boosted
      thread that asks for a worse one gets its boost for good, where the comment
      promises that only the base priority changes. Others are only boosted. */
  lemma SetParamExact(ms: MState, t: Tid, p: Pri)
    requires MInv(ms) && t in ms.s.threads && ms.s.cur in ms.s.threads
    requires t in ms.waiting ==> HopsKnown(ms, Inherited(ms, t).hops)
    ensures t in ms.waiting ==> ms.waiting[t] in ms.mx && ms.mx[ms.waiting[t]].holder.Some?
    ensures var (r, th) := (SetParam(ms, t, p), ms.s.threads[t]);
      && r.s.threads.Keys == ms.s.threads.Keys && r.s.threads[t].basepri == r.s.threads[t].priority
      && (r.s.threads[t].basepri == p <==> !(th.priority != th.basepri && th.priority < p))
      && (r.s.threads[t].basepri == p || r.s.threads[t].basepri == th.priority)
      && (forall u :: u in ms.s.threads && u != t ==>
            && r.s.threads[u].basepri == ms.s.threads[u].basepri
            && r.s.threads[u].priority ==
                 if t in ms.waiting && p < th.priority && Behind(ms, t, u)
                 then Better(th.priority, ms.s.threads[u].priority) else ms.s.threads[u].priority)
      && r.waiting == ms.waiting && r.held == ms.held && r.inlock == ms.inlock && r.s.sleepq == ms.s.sleepq
  {
    hide MInv, Inherited, HopsKnown, SetPri, Behind, OnPath, Raised, PrioInherit;
    var pri := ParamPri(ms.s.threads[t], p);
    SetpriExact(ms, t, pri);
    MutexSetpriOk(ms, t, pri);
    var a := MutexSetpri(ms, t, pri);
    RaisedFields(ms, a);
    SetPriFrame(a.s, t, pri, pri);
    hide MutexSetpri;
  }

  lemma RaisedFields(a: MState, b: MState)
    requires Raised(a, b)
    ensures b.waiting == a.waiting && b.held == a.held && b.inlock == a.inlock && b.s.sleepq == a.s.sleepq
  {
  }

  // ----- mutex_init and mutex_destroy -----

  /** A new mutex is free and records the worst priority, so that no unlock is held up by
      it; a mutex goes exactly when it is free. Nothing else changes. */
  lemma LifeExact(ms: MState, m: Mid)
    requires MInv(ms)
    ensures MutexInit(ms, m) == ms.(mx := ms.mx[m := Mutex(None, 255, 0)])
    ensures var (r, e) := MutexDestroy(ms, m);
      && (e == EINVAL <==> m !in ms.mx) && (e == EBUSY <==> m in ms.mx && ms.mx[m].holder.Some?)
      && (e == Done || (r == ms && e in {EINVAL, EBUSY}))
      && (e == Done ==> r == ms.(mx := r.mx) && m !in r.mx && forall x :: x != m ==>
            (x in r.mx <==> x in ms.mx) && (x in ms.mx ==> r.mx[x] == ms.mx[x]))
  {
    hide Inv, Acyclic, Pointers;
    if m in ms.mx && ms.mx[m].holder == None {
      FreeMutex(ms, m);
    }
    hide Tables;
  }
}
