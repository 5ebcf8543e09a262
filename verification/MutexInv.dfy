/** What every run of the mutex calls keeps, together with the scheduler. */
module MutexInv {
  import opened Lists
  import opened Sched
  import opened SchedInv
  import opened SchedSwitch
  import opened Graph
  import opened Mutex

  // ----- The invariant -----

  /** A mutex is on at most one held list, its holder's, and there exactly when
      its lock count is positive. */
  ghost predicate Ownership(mx: map<Mid, Mutex>, held: map<Tid, seq<Mid>>, th: map<Tid, Thread>) {
    && (forall t :: NoDup(HeldBy(held, t)))
    && (forall t, m :: m in HeldBy(held, t) ==> m in mx && mx[m].holder == Some(t) && mx[m].locks > 0)
    && (forall m :: m in mx && mx[m].locks > 0 ==> mx[m].holder.Some? && m in HeldBy(held, mx[m].holder.value))
    && (forall m :: m in mx && mx[m].holder.Some? ==>
          mx[m].holder.value in th && mx[m].holder.value != IDLE && !th[mx[m].holder.value].exit)
  }

  /** A thread woken for `m` that has not run yet. */
  ghost predicate InFlight(q: map<Event, seq<Tid>>, inlock: map<Tid, Mid>, t: Tid, m: Mid) {
    t in inlock && inlock[t] == m && t !in SleepQ(q, m)
  }

  /** Who sleeps in mutex_lock, who is in flight, and what their pointers say.
      A mutex in `but` is in the middle of being handed off. */
  ghost predicate Waiters(mx: map<Mid, Mutex>, q: map<Event, seq<Tid>>, waiting: map<Tid, Mid>,
                          inlock: map<Tid, Mid>, th: map<Tid, Thread>, but: set<Mid>) {
    && (forall t :: t in inlock ==> inlock[t] in mx && t in th && t != IDLE && !th[t].exit)
    && (forall m, t :: m in mx && t in SleepQ(q, m) ==> t in inlock && inlock[t] == m)
    && (forall t :: t in inlock ==> mx[inlock[t]].holder.Some?)
    && (forall t :: t in waiting ==> t in inlock && waiting[t] == inlock[t])
    && (forall t, m :: InFlight(q, inlock, t, m) ==> m in mx && mx[m].locks == 0)
    && (forall t, u, m :: InFlight(q, inlock, t, m) && InFlight(q, inlock, u, m) ==> t == u)
    && (forall m :: m in mx && m !in but && mx[m].holder.Some? && mx[m].locks == 0 ==>
          InLock(inlock, mx[m].holder.value, m) && exists t :: InFlight(q, inlock, t, m))
  }

  predicate InLock(inlock: map<Tid, Mid>, t: Tid, m: Mid) {
    t in inlock && inlock[t] == m
  }

  /** Inheritance only ever improves on the base priority. */
  ghost predicate Ranks(th: map<Tid, Thread>) {
    forall t :: t in th ==> th[t].priority <= th[t].basepri
  }

  /** No interrupt wakes mutex sleepers. */
  ghost predicate Quiets(mx: map<Mid, Mutex>, p: seq<seq<Event>>) {
    forall m :: m in mx ==> Quiet(p, m)
  }

  /** A thread in flight was woken with success, not by an exception. */
  ghost predicate Successful(q: map<Event, seq<Tid>>, inlock: map<Tid, Mid>, th: map<Tid, Thread>) {
    forall t, m :: InFlight(q, inlock, t, m) && t in th ==> th[t].slpret == 0
  }

  ghost predicate Tables(ms: MState, but: set<Mid>) {
    && Ownership(ms.mx, ms.held, ms.s.threads)
    && Waiters(ms.mx, ms.s.sleepq, ms.waiting, ms.inlock, ms.s.threads, but)
    && Ranks(ms.s.threads)
    && Quiets(ms.mx, ms.s.pending)
    && Successful(ms.s.sleepq, ms.inlock, ms.s.threads)
  }

  ghost predicate MInv(ms: MState) {
    Inv(ms.s) && ms.s.cur in ms.s.threads && Tables(ms, {}) && Acyclic(Pointers(ms))
  }

  // ----- The chain of prio_inherit -----

  /** The holders visited are a trail of the pointer graph from the first
      holder; it ends at the waiter, or where the graph ends. */
  lemma {:induction false} ChainTrail(ms: MState, m: Mid, w: Tid, fuel: nat)
    requires fuel > 0 && m in ms.mx && ms.mx[m].holder.Some?
    requires forall t :: t in ms.waiting && t != w ==> ms.waiting[t] in ms.mx && ms.mx[ms.waiting[t]].holder.Some?
    ensures var c := ChainFrom(ms, m, w, fuel);
      var p := Holders(c.hops) + (if c.dead then [w] else []);
      && p != [] && p[0] == ms.mx[m].holder.value && Trail(Pointers(ms) - {w}, p)
      && w !in Holders(c.hops)
      && (!c.dead ==> p[|p| - 1] !in Pointers(ms) - {w} || |p| == fuel)
      && (c.dead ==> |p| <= fuel)
    decreases fuel
  {
    var g := Pointers(ms) - {w};
    var h := ms.mx[m].holder.value;
    var c := ChainFrom(ms, m, w, fuel);
    if h == w {
      assert c.hops == [];
    } else if h in ms.waiting {
      var m1 := ms.waiting[h];
      if fuel > 1 {
        ChainTrail(ms, m1, w, fuel - 1);
        var c1 := ChainFrom(ms, m1, w, fuel - 1);
        var p1 := Holders(c1.hops) + (if c1.dead then [w] else []);
        HoldersCons(Hop(m, h), c1.hops);
        assert Holders(c.hops) + (if c.dead then [w] else []) == [h] + p1;
        assert h in g && g[h] == p1[0];
      } else {
        assert c.hops == [Hop(m, h)];
      }
    } else {
      assert c.hops == [Hop(m, h)];
    }
  }

  function Holders(hops: seq<Hop>): (r: seq<Tid>)
    ensures |r| == |hops| && forall i :: 0 <= i < |hops| ==> r[i] == hops[i].holder
  {
    seq(|hops|, i requires 0 <= i < |hops| => hops[i].holder)
  }

  lemma HoldersCons(h: Hop, hops: seq<Hop>)
    ensures Holders([h] + hops) == [h.holder] + Holders(hops)
  {
  }

  lemma {:induction false} ChainKnown(ms: MState, m: Mid, w: Tid, fuel: nat)
    requires Ownership(ms.mx, ms.held, ms.s.threads)
    ensures var c := ChainFrom(ms, m, w, fuel);
      HopsKnown(ms, c.hops) && forall i :: 0 <= i < |c.hops| ==> c.hops[i].holder != IDLE
    decreases fuel
  {
    hide NoDup;
    if fuel > 0 && m in ms.mx && ms.mx[m].holder.Some? {
      var h := ms.mx[m].holder.value;
      if h != w && h in ms.waiting {
        ChainKnown(ms, ms.waiting[h], w, fuel - 1);
      }
    }
  }

  /** prio_inherit, entered with the waiter's pointer set: it returns EDEADLK
      exactly when that pointer closes a cycle, and else its trail runs to the
      end of the chain. */
  lemma InheritDetects(ms: MState, w: Tid)
    requires w in ms.waiting && Acyclic(Pointers(ms) - {w})
    requires forall t :: t in ms.waiting ==> ms.waiting[t] in ms.mx && ms.mx[ms.waiting[t]].holder.Some?
    ensures Inherited(ms, w).dead <==> !Acyclic(Pointers(ms))
    ensures var (c, b) := (Inherited(ms, w), ms.mx[ms.waiting[w]].holder.value);
      !c.dead ==> forall t :: Reaches(Pointers(ms) - {w}, b, t) ==> t in Holders(c.hops)
    ensures w !in Holders(Inherited(ms, w).hops)
  {
    var g := Pointers(ms) - {w};
    var m := ms.waiting[w];
    var b := ms.mx[m].holder.value;
    var c := Inherited(ms, w);
    ChainTrail(ms, m, w, |ms.waiting| + 1);
    var p := Holders(c.hops) + (if c.dead then [w] else []);
    TrailBound(g, p);
    PointerCount(ms, w);
    assert Pointers(ms) == g[w := b];
    AddEdge(g, w, b);
    if c.dead {
      TrailReaches(g, p);
    } else {
      assert p == Holders(c.hops);
      forall t | Reaches(g, b, t) ensures t in Holders(c.hops) {
        TrailComplete(g, p, t);
      }
    }
  }

  lemma PointerCount(ms: MState, w: Tid)
    requires w in ms.waiting
    ensures |Pointers(ms) - {w}| < |ms.waiting|
  {
    var g := Pointers(ms) - {w};
    assert g.Keys <= ms.waiting.Keys - {w};
    SubsetSize(g.Keys, ms.waiting.Keys - {w});
    assert |g| == |g.Keys|;
    assert |ms.waiting.Keys - {w}| == |ms.waiting.Keys| - 1;
    assert |ms.waiting| == |ms.waiting.Keys|;
  }

  lemma SubsetSize(a: set<int>, b: set<int>)
    requires a <= b
    ensures |a| <= |b|
  {
    var c := b - a;
    assert b == a + c;
    assert |a + c| == |a| + |c|;
  }

  // ----- Raising priorities -----

  ghost predicate Eased(a: map<Tid, Thread>, b: map<Tid, Thread>) {
    && a.Keys == b.Keys
    && forall t :: t in a ==>
         b[t] == a[t].(resched := b[t].resched, priority := b[t].priority) && b[t].priority <= a[t].priority
  }

  ghost predicate SameOwners(a: map<Mid, Mutex>, b: map<Mid, Mutex>) {
    && a.Keys == b.Keys
    && forall m :: m in a ==> b[m] == a[m].(priority := b[m].priority)
  }

  /** No thread got a worse priority, and nothing but priorities, run queues,
      `maxpri` and the mark changed. */
  ghost predicate Raised(a: MState, b: MState) {
    && b.waiting == a.waiting && b.held == a.held && b.inlock == a.inlock
    && b.s.cur == a.s.cur && b.s.sleepq == a.s.sleepq && b.s.pending == a.s.pending
    && Eased(a.s.threads, b.s.threads) && SameOwners(a.mx, b.mx)
  }

  lemma RaisedRefl(ms: MState)
    ensures Raised(ms, ms)
  {
  }

  lemma RaisedTrans(a: MState, b: MState, c: MState)
    requires Raised(a, b) && Raised(b, c)
    ensures Raised(a, c)
  {
  }

  lemma RaisedTables(a: MState, b: MState)
    requires Raised(a, b)
    ensures Tables(a, {}) ==> Tables(b, {})
    ensures Pointers(b) == Pointers(a)
  {
    RaisedPointers(a, b);
    if Tables(a, {}) {
      RaisedWaiters(a.mx, b.mx, a.s.sleepq, a.waiting, a.inlock, a.s.threads, b.s.threads);
      RaisedOwnership(a.mx, b.mx, a.held, a.s.threads, b.s.threads);
      RaisedRest(a, b);
      hide Waiters, Ownership, Eased, Ranks, Quiets, Successful, SameOwners;
    }
  }

  lemma RaisedPointers(a: MState, b: MState)
    requires SameOwners(a.mx, b.mx) && b.waiting == a.waiting
    ensures Pointers(b) == Pointers(a)
  {
    var p, q := Pointers(a), Pointers(b);
    forall t ensures t in p <==> t in q {
      if t in a.waiting {
        var m := a.waiting[t];
        assert m in a.mx ==> b.mx[m].holder == a.mx[m].holder;
      }
    }
    forall t | t in p ensures q[t] == p[t] {
      var m := a.waiting[t];
      assert b.mx[m].holder == a.mx[m].holder;
    }
  }

  lemma RaisedRest(a: MState, b: MState)
    requires Eased(a.s.threads, b.s.threads) && SameOwners(a.mx, b.mx)
    ensures Ranks(a.s.threads) ==> Ranks(b.s.threads)
    ensures Quiets(a.mx, a.s.pending) ==> Quiets(b.mx, a.s.pending)
    ensures Successful(a.s.sleepq, a.inlock, a.s.threads) ==> Successful(a.s.sleepq, a.inlock, b.s.threads)
  {
    hide Quiet, InFlight;
  }

  lemma RaisedOwnership(mx: map<Mid, Mutex>, mx': map<Mid, Mutex>, held: map<Tid, seq<Mid>>,
                        th: map<Tid, Thread>, th': map<Tid, Thread>)
    requires Eased(th, th') && SameOwners(mx, mx') && Ownership(mx, held, th)
    ensures Ownership(mx', held, th')
  {
    hide NoDup;
  }

  lemma RaisedWaiters(mx: map<Mid, Mutex>, mx': map<Mid, Mutex>, q: map<Event, seq<Tid>>,
                      waiting: map<Tid, Mid>, inlock: map<Tid, Mid>, th: map<Tid, Thread>, th': map<Tid, Thread>)
    requires Eased(th, th') && SameOwners(mx, mx') && Waiters(mx, q, waiting, inlock, th, {})
    ensures Waiters(mx', q, waiting, inlock, th', {})
  {
    hide InFlight;
    forall t | t in inlock ensures mx'[inlock[t]].holder.Some? {
      var m := inlock[t];
      assert m in mx && mx[m].holder.Some?;
    }
    forall t, m | InFlight(q, inlock, t, m) ensures m in mx' && mx'[m].locks == 0 {
      assert mx[m].locks == 0;
    }
  }

  lemma RaiseOk(ms: MState, m: Mid, h: Tid, w: Tid)
    requires Inv(ms.s) && ms.s.cur in ms.s.threads && h in ms.s.threads && w in ms.s.threads && m in ms.mx
    requires h != IDLE && h != w
    ensures var r := Raise(ms, m, h, w);
      && Inv(r.s) && Raised(ms, r)
      && r.s.threads[h].priority <= r.s.threads[w].priority
      && r.s.threads[w].priority == ms.s.threads[w].priority
  {
    var p := ms.s.threads[w].priority;
    var b := ms.s.threads[h].basepri;
    SetPriOk(ms.s, h, b, p);
    hide Inv;
    EasedRefl(ms.s.threads);
    if ms.s.threads[h].priority > p {
      SetPriEases(ms.s, h, p);
    }
    hide Eased, SetPri;
  }

  lemma SetPriEases(s: State, h: Tid, p: Pri)
    requires s.cur in s.threads && h in s.threads && p <= s.threads[h].priority
    ensures var r := SetPri(s, h, s.threads[h].basepri, p);
      && Eased(s.threads, r.threads) && r.threads[h].priority == p
      && (forall x :: x in s.threads && x != h ==> r.threads[x].priority == s.threads[x].priority)
      && r.cur == s.cur && r.sleepq == s.sleepq && r.pending == s.pending
  {
    SetPriFrame(s, h, s.threads[h].basepri, p);
    hide SetPri;
    RepricedEased(s.threads, SetPri(s, h, s.threads[h].basepri, p).threads, h, s.threads[h].basepri, p);
  }

  lemma RepricedEased(a: map<Tid, Thread>, b: map<Tid, Thread>, h: Tid, base: Pri, p: Pri)
    requires a.Keys == b.Keys && h in a && base == a[h].basepri && p <= a[h].priority
    requires forall x :: x in a ==> Repriced(a[x], b[x], x == h, base, p)
    ensures Eased(a, b)
  {
  }

  lemma EasedRefl(a: map<Tid, Thread>)
    ensures Eased(a, a)
  {
  }

  lemma {:induction false} RaiseAllOk(ms: MState, hops: seq<Hop>, w: Tid)
    requires Inv(ms.s) && ms.s.cur in ms.s.threads && w in ms.s.threads && HopsKnown(ms, hops)
    requires forall i :: 0 <= i < |hops| ==> hops[i].holder != IDLE && hops[i].holder != w
    ensures var r := RaiseAll(ms, hops, w);
      && Inv(r.s) && Raised(ms, r) && r.s.threads[w].priority == ms.s.threads[w].priority
      && forall i :: 0 <= i < |hops| ==> r.s.threads[hops[i].holder].priority <= ms.s.threads[w].priority
    decreases |hops|
  {
    hide Inv;
    if hops == [] {
      assert Raised(ms, ms);
    } else {
      var r1 := Raise(ms, hops[0].m, hops[0].holder, w);
      RaiseOk(ms, hops[0].m, hops[0].holder, w);
      hide Raise;
      RaiseAllOk(r1, hops[1..], w);
      var r := RaiseAll(r1, hops[1..], w);
      RaisedTrans(ms, r1, r);
      RaisedDown(r1, r, hops[0].holder);
      hide Raised, RaiseAll;
      assert r == RaiseAll(ms, hops, w) by { UnfoldRaiseAll(ms, hops, w); }
      assert forall i :: 1 <= i < |hops| ==> hops[i] == hops[1..][i - 1];
    }
  }

  lemma UnfoldRaiseAll(ms: MState, hops: seq<Hop>, w: Tid)
    requires ms.s.cur in ms.s.threads && w in ms.s.threads && HopsKnown(ms, hops) && hops != []
    ensures RaiseAll(ms, hops, w) == RaiseAll(Raise(ms, hops[0].m, hops[0].holder, w), hops[1..], w)
  {
    hide Raise;
  }

  lemma RaisedDown(a: MState, b: MState, t: Tid)
    requires Raised(a, b) && t in a.s.threads
    ensures t in b.s.threads && b.s.threads[t].priority <= a.s.threads[t].priority
  {
  }

  /** What prio_inherit needs when it starts: the pointers without the
      waiter's own are acyclic, and every pointer leads to a holder. */
  ghost predicate InheritReady(ms: MState, w: Tid) {
    && Inv(ms.s) && ms.s.cur in ms.s.threads && w in ms.s.threads && w in ms.waiting
    && Ownership(ms.mx, ms.held, ms.s.threads)
    && (forall t :: t in ms.waiting ==> ms.waiting[t] in ms.mx && ms.mx[ms.waiting[t]].holder.Some?)
    && Acyclic(Pointers(ms) - {w})
  }

  /** prio_inherit returns EDEADLK exactly when the waiter's pointer closes a
      cycle. When it does not, every thread the waiter is blocked behind,
      however indirectly, ends at least as good as the waiter; in both cases no
      priority got worse and the scheduler invariant holds. */
  lemma InheritOk(ms: MState, w: Tid)
    requires InheritReady(ms, w)
    ensures HopsKnown(ms, Inherited(ms, w).hops)
    ensures Inherited(ms, w).dead <==> !Acyclic(Pointers(ms))
    ensures var r := PrioInherit(ms, w);
      && Inv(r.s) && Raised(ms, r) && r.s.threads[w].priority == ms.s.threads[w].priority
      && (Acyclic(Pointers(ms)) ==> forall t :: Behind(ms, w, t) ==>
            t in r.s.threads && r.s.threads[t].priority <= r.s.threads[w].priority)
  {
    hide Inv, Acyclic;
    ChainKnown(ms, ms.waiting[w], w, |ms.waiting| + 1);
    InheritDetects(ms, w);
    var hops := Inherited(ms, w).hops;
    forall i | 0 <= i < |hops| ensures hops[i].holder != w {
      assert Holders(hops)[i] in Holders(hops);
    }
    RaiseAllOk(ms, hops, w);
    hide Raised, ChainFrom, RaiseAll, Ownership, Inherited;
    var r := PrioInherit(ms, w);
    if Acyclic(Pointers(ms)) {
      forall t | Behind(ms, w, t)
        ensures t in r.s.threads && r.s.threads[t].priority <= r.s.threads[w].priority
      {
        assert t in Holders(hops);
        var i :| 0 <= i < |hops| && Holders(hops)[i] == t;
        assert hops[i].holder == t;
      }
    }
  }

  /** The waiter is blocked behind `t`: a chain of mutexes and holders leads there. */
  ghost predicate Behind(ms: MState, w: Tid, t: Tid)
    requires w in ms.waiting && ms.waiting[w] in ms.mx && ms.mx[ms.waiting[w]].holder.Some?
  {
    Reaches(Pointers(ms) - {w}, ms.mx[ms.waiting[w]].holder.value, t)
  }
}
