/** Counting semaphores of sys/sync/sem.c. Each call is a step up to the point
    where it returns or sleeps, and from the return of sched_tsleep on. */
module Sem {
  import opened Lists

  type Tid = int
  type Task = int
  type Sid = int

  const MAXSEMVAL: int := 0x7fff_ffff

  /** How a thread inside sem_wait stands: asleep, or woken by a post, by its
      timeout or by an exception, and not yet run. */
  datatype Wake = Asleep | Posted | Expired | Excepted

  /** struct sem. */
  datatype Sema = Sema(owner: Task, value: int, refcnt: int, sleepq: seq<Tid>)

  datatype Waiting = Waiting(id: Sid, wake: Wake)

  datatype SState = SState(sems: map<Sid, Sema>, inwait: map<Tid, Waiting>)

  datatype SResult = Done | Blocked | EINVAL | EBUSY | EAGAIN | ENOSPC | EFAULT | ERANGE | ETIMEDOUT | EINTR

  function SetSem(s: SState, id: Sid, m: Sema): SState {
    s.(sems := s.sems[id := m])
  }

  /** sem_init: `room` says that the task may have another semaphore, `copied`
      that the user space can be read, `memory` that a record can be had and
      `written` that its address can be stored for the user; `id` is the semaphore
      that the user space names, or else the new record. */
  function SemInit(s: SState, id: Sid, task: Task, value: int,
                   room: bool, copied: bool, memory: bool, written: bool): (SState, SResult)
  {
    if !room then (s, EAGAIN)
    else if value > MAXSEMVAL then (s, EINVAL)
    else if !copied then (s, EFAULT)
    else if id in s.sems then
      if s.sems[id].owner != task then (s, EINVAL)
      else if s.sems[id].sleepq != [] then (s, EBUSY)
      else (SetSem(s, id, s.sems[id].(value := value)), Done)
    else if !memory then (s, ENOSPC)
    else if !written then (s, EFAULT)
    else (SetSem(s, id, Sema(task, value, 1, [])), Done)
  }

  /** sem_release: the last reference frees the record. */
  function Release(s: SState, id: Sid): SState
    requires id in s.sems
  {
    var n := s.sems[id].refcnt - 1;
    if n > 0 then SetSem(s, id, s.sems[id].(refcnt := n)) else s.(sems := s.sems - {id})
  }

  function SemDestroy(s: SState, id: Sid, task: Task): (SState, SResult) {
    if id !in s.sems || s.sems[id].owner != task then (s, EINVAL)
    else if s.sems[id].sleepq != [] || s.sems[id].value == 0 then (s, EBUSY)
    else (Release(s, id), Done)
  }

  /** The loop of sem_wait from its test on, in a thread that holds a reference. */
  function WaitLoop(s: SState, c: Tid, id: Sid): (SState, SResult)
    requires id in s.sems
  {
    var m := s.sems[id];
    if m.value == 0 then
      (SetSem(s, id, m.(sleepq := m.sleepq + [c])).(inwait := s.inwait[c := Waiting(id, Asleep)]), Blocked)
    else
      (Release(SetSem(s, id, m.(value := m.value - 1)).(inwait := s.inwait - {c}), id), Done)
  }

  function SemWait(s: SState, c: Tid, id: Sid): (SState, SResult) {
    if id !in s.sems then (s, EINVAL)
    else WaitLoop(SetSem(s, id, s.sems[id].(refcnt := s.sems[id].refcnt + 1)), c, id)
  }

  /** sem_wait from the return of sched_tsleep on. */
  function SemWaitResume(s: SState, c: Tid): (SState, SResult)
    requires c in s.inwait && s.inwait[c].id in s.sems
  {
    var id := s.inwait[c].id;
    match s.inwait[c].wake
    case Expired => (Release(s.(inwait := s.inwait - {c}), id), ETIMEDOUT)
    case Excepted => (Release(s.(inwait := s.inwait - {c}), id), EINTR)
    case _ => WaitLoop(s, c, id)
  }

  function SemTrywait(s: SState, id: Sid): (SState, SResult) {
    if id !in s.sems then (s, EINVAL)
    else if s.sems[id].value == 0 then (s, EAGAIN)
    else (SetSem(s, id, s.sems[id].(value := s.sems[id].value - 1)), Done)
  }

  /** A sleeper leaves the queue of its semaphore, woken with `wake`. */
  function WakeOne(s: SState, t: Tid, wake: Wake): SState
    requires t in s.inwait && s.inwait[t].id in s.sems
  {
    var id := s.inwait[t].id;
    var m := s.sems[id];
    SetSem(s, id, m.(sleepq := Remove(m.sleepq, t))).(inwait := s.inwait[t := Waiting(id, wake)])
  }

  /** sem_post; `who` is the sleeper that sched_wakeone chooses, if any sleeps. */
  function SemPost(s: SState, id: Sid, who: Tid): (SState, SResult)
    requires id in s.sems && s.sems[id].sleepq != [] ==> who in s.inwait && s.inwait[who].id == id
  {
    if id !in s.sems then (s, EINVAL)
    else if s.sems[id].value >= MAXSEMVAL then (s, ERANGE)
    else
      var s1 := SetSem(s, id, s.sems[id].(value := s.sems[id].value + 1));
      (if s.sems[id].sleepq == [] then s1 else WakeOne(s1, who, Posted), Done)
  }

  // ----- The invariant -----

  /** The threads inside sem_wait on `id`, and those of them woken by a post. */
  function Inside(w: map<Tid, Waiting>, id: Sid): set<Tid> {
    set t | t in w && w[t].id == id
  }

  function OnTheWay(w: map<Tid, Waiting>, id: Sid): set<Tid> {
    set t | t in w && w[t] == Waiting(id, Posted)
  }

  /** The queue holds the sleepers; the references are those of the threads inside
      and, until the owner destroys the semaphore, one more; while anybody sleeps
      the value is covered by threads already woken for it. */
  ghost predicate SemOk(w: map<Tid, Waiting>, id: Sid, m: Sema) {
    && 0 <= m.value <= MAXSEMVAL
    && NoDup(m.sleepq) && (forall t :: t in m.sleepq <==> t in w && w[t] == Waiting(id, Asleep))
    && |Inside(w, id)| <= m.refcnt <= |Inside(w, id)| + 1 && m.refcnt > 0
    && (m.sleepq != [] ==> m.value <= |OnTheWay(w, id)|)
  }

  ghost predicate SInv(s: SState) {
    && (forall id :: id in s.sems ==> SemOk(s.inwait, id, s.sems[id]))
    && (forall t :: t in s.inwait ==> s.inwait[t].id in s.sems)
  }

  // ----- Changes of one thread -----

  lemma InsideSet(w: map<Tid, Waiting>, t: Tid, x: Waiting, id: Sid)
    ensures Inside(w[t := x], id) == if x.id == id then Inside(w, id) + {t} else Inside(w, id) - {t}
    ensures OnTheWay(w[t := x], id) ==
      if x == Waiting(id, Posted) then OnTheWay(w, id) + {t} else OnTheWay(w, id) - {t}
    ensures Inside(w - {t}, id) == Inside(w, id) - {t}
    ensures OnTheWay(w - {t}, id) == OnTheWay(w, id) - {t}
  {
  }

  lemma InsideHas(w: map<Tid, Waiting>, t: Tid, id: Sid)
    ensures t in Inside(w, id) <==> t in w && w[t].id == id
    ensures t in OnTheWay(w, id) <==> t in w && w[t] == Waiting(id, Posted)
  {
  }

  lemma SetSize(a: set<Tid>, t: Tid)
    ensures |a + {t}| == |a| + (if t in a then 0 else 1)
    ensures |a - {t}| == |a| - (if t in a then 1 else 0)
  {
    if t in a {
      assert a + {t} == a;
    } else {
      assert a - {t} == a;
    }
  }

  /** Outside semaphore `id` the two maps agree. */
  ghost predicate SameBut(w: map<Tid, Waiting>, w': map<Tid, Waiting>, id: Sid) {
    && (forall u :: u in w && w[u].id != id ==> u in w' && w'[u] == w[u])
    && (forall u :: u in w' && w'[u].id != id ==> u in w && w'[u] == w[u])
  }

  lemma OthersOk(w: map<Tid, Waiting>, w': map<Tid, Waiting>, id: Sid, p: Sid, m: Sema)
    requires SemOk(w, p, m) && p != id && SameBut(w, w', id)
    ensures SemOk(w', p, m)
  {
    hide NoDup;
    forall u ensures u in Inside(w', p) <==> u in Inside(w, p) {
      InsideHas(w, u, p);
      InsideHas(w', u, p);
    }
    assert Inside(w', p) == Inside(w, p);
    forall u ensures u in OnTheWay(w', p) <==> u in OnTheWay(w, p) {
      InsideHas(w, u, p);
      InsideHas(w', u, p);
    }
    assert OnTheWay(w', p) == OnTheWay(w, p);
  }

  /** Putting the changed semaphore back. */
  lemma PutBack(s: SState, w: map<Tid, Waiting>, id: Sid, m: Sema)
    requires SInv(s) && id in s.sems && SemOk(w, id, m) && SameBut(s.inwait, w, id)
    ensures SInv(SState(s.sems[id := m], w))
  {
    hide SemOk;
    forall p | p in s.sems && p != id ensures SemOk(w, p, s.sems[p]) {
      OthersOk(s.inwait, w, id, p, s.sems[p]);
    }
  }

  /** The semaphore record can go when nobody is inside it any more. */
  lemma Dropped(s: SState, w: map<Tid, Waiting>, id: Sid)
    requires SInv(s) && id in s.sems && Inside(w, id) == {} && SameBut(s.inwait, w, id)
    ensures SInv(SState(s.sems - {id}, w))
  {
    hide SemOk;
    forall p | p in s.sems && p != id ensures SemOk(w, p, s.sems[p]) {
      OthersOk(s.inwait, w, id, p, s.sems[p]);
    }
    forall u | u in w ensures w[u].id != id {
      InsideHas(w, u, id);
    }
  }

  lemma OkAt(s: SState, id: Sid)
    requires SInv(s) && id in s.sems
    ensures SemOk(s.inwait, id, s.sems[id]) && s.sems[id].value >= 0 && s.sems[id].refcnt > 0
  {
    hide NoDup, Inside, OnTheWay;
  }

  /** The owner has not destroyed the semaphore: it still holds its reference. */
  ghost predicate Owned(s: SState, id: Sid)
    requires id in s.sems
  {
    s.sems[id].refcnt == |Inside(s.inwait, id)| + 1
  }

  // ----- sem_init and sem_destroy -----

  lemma SemInitOk(s: SState, id: Sid, task: Task, value: int, room: bool, copied: bool, memory: bool, written: bool)
    requires SInv(s) && 0 <= value
    ensures var (r, e) := SemInit(s, id, task, value, room, copied, memory, written);
      && SInv(r) && r.inwait == s.inwait && (e != Done ==> r == s)
      && (e == Done <==>
            && room && value <= MAXSEMVAL && copied
            && (if id in s.sems then s.sems[id].owner == task && s.sems[id].sleepq == [] else memory && written))
      && (e == Done ==> id in r.sems && r.sems[id].value == value && (id !in s.sems ==> Owned(r, id)))
  {
    hide SemOk, Inside;
    if SemInit(s, id, task, value, room, copied, memory, written).1 == Done {
      if id in s.sems {
        OkAt(s, id);
        ResetOk(s.inwait, id, s.sems[id], value);
        PutBack(s, s.inwait, id, s.sems[id].(value := value));
      } else {
        NewOk(s.inwait, id, task, value);
      }
    }
  }

  lemma ResetOk(w: map<Tid, Waiting>, id: Sid, m: Sema, value: int)
    requires SemOk(w, id, m) && m.sleepq == [] && 0 <= value <= MAXSEMVAL
    ensures SemOk(w, id, m.(value := value))
  {
    hide NoDup;
  }

  lemma NewOk(w: map<Tid, Waiting>, id: Sid, task: Task, value: int)
    requires 0 <= value <= MAXSEMVAL && forall t :: t in w ==> w[t].id != id
    ensures SemOk(w, id, Sema(task, value, 1, [])) && |Inside(w, id)| == 0
  {
    forall t ensures t !in Inside(w, id) {
      InsideHas(w, t, id);
    }
    assert Inside(w, id) == {};
  }

  /** Destroying keeps the invariant exactly when the owner still holds its
      reference; the record then lives on while a thread is inside. */
  lemma DestroyOk(s: SState, id: Sid, task: Task)
    requires SInv(s)
    ensures var (r, e) := SemDestroy(s, id, task);
      && r.inwait == s.inwait && (e != Done ==> r == s)
      && (e == Done <==> id in s.sems && s.sems[id].owner == task && s.sems[id].sleepq == [] && s.sems[id].value > 0)
      && (SInv(r) <==> (e == Done ==> Owned(s, id)))
      && (e == Done && Owned(s, id) ==> (id in r.sems <==> Inside(s.inwait, id) != {}))
  {
    hide SemOk, NoDup, Inside, OnTheWay;
    if id in s.sems {
      OkAt(s, id);
      if SemDestroy(s, id, task).1 == Done {
        var m := s.sems[id];
        DestroyedOk(s.inwait, id, m);
        if m.refcnt == 1 && Owned(s, id) {
          Dropped(s, s.inwait, id);
        } else if Owned(s, id) {
          PutBack(s, s.inwait, id, m.(refcnt := m.refcnt - 1));
        } else {
          TwiceDestroyed(s, id);
        }
      }
    }
  }

  lemma DestroyedOk(w: map<Tid, Waiting>, id: Sid, m: Sema)
    requires SemOk(w, id, m)
    ensures m.refcnt == |Inside(w, id)| + 1 && m.refcnt > 1 ==> SemOk(w, id, m.(refcnt := m.refcnt - 1))
    ensures |Inside(w, id)| == 0 <==> Inside(w, id) == {}
    ensures m.refcnt >= 1
  {
    hide NoDup;
  }

  lemma TwiceDestroyed(s: SState, id: Sid)
    requires SInv(s) && id in s.sems && !Owned(s, id)
    ensures !SInv(Release(s, id))
  {
    hide NoDup, OnTheWay, Inside;
    OkAt(s, id);
    var r := Release(s, id);
    if s.sems[id].refcnt > 1 {
      assert !SemOk(r.inwait, id, r.sems[id]);
    } else {
      assert |Inside(s.inwait, id)| == 1;
      if forall t :: t in s.inwait ==> s.inwait[t].id != id {
        NewOk(s.inwait, id, 0, 0);
      }
    }
  }

  // ----- sem_trywait, sem_post and the ends of a sleep -----

  lemma TrywaitOk(s: SState, id: Sid)
    requires SInv(s)
    ensures var (r, e) := SemTrywait(s, id);
      && SInv(r) && r.inwait == s.inwait && (e != Done ==> r == s)
      && (e == Done <==> id in s.sems && s.sems[id].value > 0)
      && (e == Done ==> r.sems == s.sems[id := s.sems[id].(value := s.sems[id].value - 1)])
  {
    hide SemOk, NoDup, Inside, OnTheWay;
    if id in s.sems {
      OkAt(s, id);
      var m := s.sems[id];
      if m.value != 0 {
        LowerOk(s.inwait, id, m);
        PutBack(s, s.inwait, id, m.(value := m.value - 1));
      }
    }
  }

  lemma LowerOk(w: map<Tid, Waiting>, id: Sid, m: Sema)
    requires SemOk(w, id, m) && m.value != 0
    ensures SemOk(w, id, m.(value := m.value - 1))
  {
    hide NoDup, Inside, OnTheWay;
  }

  /** A sleeper that a post, a timeout or an exception takes off the queue. */
  lemma WokenOk(w: map<Tid, Waiting>, id: Sid, m: Sema, t: Tid, wake: Wake)
    requires SemOk(w, id, m) && t in m.sleepq && wake != Asleep && (wake == Posted ==> m.value < MAXSEMVAL)
    ensures t in w && w[t] == Waiting(id, Asleep)
    ensures var v := m.value + if wake == Posted then 1 else 0;
      SemOk(w[t := Waiting(id, wake)], id, m.(sleepq := Remove(m.sleepq, t), value := v))
  {
    hide Inside, OnTheWay, Remove, NoDup;
    var w' := w[t := Waiting(id, wake)];
    InsideSet(w, t, Waiting(id, wake), id);
    InsideHas(w, t, id);
    SetSize(Inside(w, id), t);
    SetSize(OnTheWay(w, id), t);
    RemoveFacts(m.sleepq, t);
  }

  lemma UnsleepOk(s: SState, t: Tid, wake: Wake)
    requires SInv(s) && t in s.inwait && s.inwait[t].wake == Asleep && (wake == Expired || wake == Excepted)
    ensures SInv(WakeOne(s, t, wake))
  {
    hide SemOk, NoDup, Inside, OnTheWay, Remove;
    var id := s.inwait[t].id;
    var m := s.sems[id];
    OkAt(s, id);
    SleeperOn(s.inwait, id, m, t);
    WokenOk(s.inwait, id, m, t, wake);
    PutBack(s, s.inwait[t := Waiting(id, wake)], id, m.(sleepq := Remove(m.sleepq, t)));
  }

  lemma SleeperOn(w: map<Tid, Waiting>, id: Sid, m: Sema, t: Tid)
    requires SemOk(w, id, m)
    ensures t in m.sleepq <==> t in w && w[t] == Waiting(id, Asleep)
  {
    hide NoDup, Inside, OnTheWay;
  }

  lemma PostOk(s: SState, id: Sid, who: Tid)
    requires SInv(s) && (id in s.sems && s.sems[id].sleepq != [] ==> who in s.sems[id].sleepq)
    ensures id in s.sems && s.sems[id].sleepq != [] ==> who in s.inwait && s.inwait[who].id == id
    ensures var (r, e) := SemPost(s, id, who);
      && SInv(r) && (e != Done ==> r == s)
      && (e == Done <==> id in s.sems && s.sems[id].value < MAXSEMVAL)
      && (e == Done ==> id in r.sems && r.sems[id].value == s.sems[id].value + 1)
      && (e == Done && s.sems[id].sleepq != [] ==> who in r.inwait && r.inwait[who] == Waiting(id, Posted))
      && (forall p :: p in s.sems && p != id ==> p in r.sems && r.sems[p] == s.sems[p])
  {
    hide SemOk, NoDup, Inside, OnTheWay, Remove;
    if id in s.sems {
      var m := s.sems[id];
      OkAt(s, id);
      SleeperOn(s.inwait, id, m, who);
      if m.value < MAXSEMVAL {
        if m.sleepq == [] {
          RaiseOk(s.inwait, id, m);
          PutBack(s, s.inwait, id, m.(value := m.value + 1));
        } else {
          WokenOk(s.inwait, id, m, who, Posted);
          var m' := m.(sleepq := Remove(m.sleepq, who), value := m.value + 1);
          PutBack(s, s.inwait[who := Waiting(id, Posted)], id, m');
          assert s.sems[id := m.(value := m.value + 1)][id := m'] == s.sems[id := m'];
        }
      }
    }
  }

  lemma RaiseOk(w: map<Tid, Waiting>, id: Sid, m: Sema)
    requires SemOk(w, id, m) && m.value < MAXSEMVAL && m.sleepq == []
    ensures SemOk(w, id, m.(value := m.value + 1))
  {
    hide NoDup, Inside, OnTheWay;
  }

  // ----- sem_wait -----

  /** A thread that leaves sem_wait gives back its reference. */
  lemma LeaveOk(s: SState, c: Tid, id: Sid, v: int)
    requires SInv(s) && c in s.inwait && s.inwait[c].id == id && id in s.sems && s.inwait[c].wake != Asleep
    requires 0 <= v <= s.sems[id].value && (s.inwait[c].wake == Posted ==> s.sems[id].value == 0 || v < s.sems[id].value)
    ensures var s1 := SetSem(s, id, s.sems[id].(value := v)).(inwait := s.inwait - {c});
      && SInv(Release(s1, id)) && (id in Release(s1, id).sems ==> Release(s1, id).sems[id].value == v)
      && (id !in Release(s1, id).sems <==> s.sems[id].refcnt == 1)
  {
    hide SemOk, NoDup, Inside, OnTheWay;
    var m := s.sems[id];
    var w := s.inwait - {c};
    var n := m.(value := v, refcnt := m.refcnt - 1);
    OkAt(s, id);
    LeftOk(s.inwait, id, m, c, v);
    if m.refcnt - 1 > 0 {
      PutBack(s, w, id, n);
      assert s.sems[id := m.(value := v)][id := n] == s.sems[id := n];
    } else {
      Dropped(s, w, id);
      assert s.sems[id := m.(value := v)] - {id} == s.sems - {id};
    }
  }

  lemma LeftOk(w: map<Tid, Waiting>, id: Sid, m: Sema, c: Tid, v: int)
    requires SemOk(w, id, m) && c in w && w[c].id == id && w[c].wake != Asleep
    requires 0 <= v <= m.value && (w[c].wake == Posted ==> m.value == 0 || v < m.value)
    ensures m.refcnt - 1 > 0 ==> SemOk(w - {c}, id, m.(value := v, refcnt := m.refcnt - 1))
    ensures m.refcnt - 1 <= 0 ==> Inside(w - {c}, id) == {}
  {
    hide Inside, OnTheWay, NoDup;
    InsideSet(w, c, Waiting(id, Asleep), id);
    InsideHas(w, c, id);
    SetSize(Inside(w, id), c);
    SetSize(OnTheWay(w, id), c);
  }

  /** The loop, in a thread just woken by a post: a unit is taken exactly when
      there is one, else the thread sleeps again. */
  lemma WaitLoopOk(s: SState, c: Tid, id: Sid)
    requires SInv(s) && id in s.sems && c in s.inwait && s.inwait[c] == Waiting(id, Posted)
    ensures var (r, e) := WaitLoop(s, c, id);
      && SInv(r) && (e == Done <==> s.sems[id].value > 0) && (e != Done ==> e == Blocked)
      && (e == Done ==> c !in r.inwait && (id in r.sems ==> r.sems[id].value == s.sems[id].value - 1))
      && (e == Blocked ==> id in r.sems && r.sems[id].value == 0 && c in r.sems[id].sleepq)
  {
    hide SemOk, NoDup, Inside, OnTheWay;
    var m := s.sems[id];
    OkAt(s, id);
    if m.value == 0 {
      AsleepOk(s.inwait, id, m, c);
      PutBack(s, s.inwait[c := Waiting(id, Asleep)], id, m.(sleepq := m.sleepq + [c]));
    } else {
      LeaveOk(s, c, id, m.value - 1);
    }
  }

  lemma AsleepOk(w: map<Tid, Waiting>, id: Sid, m: Sema, c: Tid)
    requires SemOk(w, id, m) && c in w && w[c] == Waiting(id, Posted) && m.value == 0
    ensures SemOk(w[c := Waiting(id, Asleep)], id, m.(sleepq := m.sleepq + [c]))
  {
    hide Inside, OnTheWay, NoDup;
    InsideSet(w, c, Waiting(id, Asleep), id);
    InsideHas(w, c, id);
    SetSize(Inside(w, id), c);
    NoDupCons(c, m.sleepq);
  }

  /** A thread that enters sem_wait takes a reference. */
  lemma EnterOk(s: SState, c: Tid, id: Sid)
    requires SInv(s) && id in s.sems && c !in s.inwait
    ensures SInv(SetSem(s, id, s.sems[id].(refcnt := s.sems[id].refcnt + 1)).(inwait := s.inwait[c := Waiting(id, Posted)]))
  {
    hide SemOk, NoDup, Inside, OnTheWay;
    OkAt(s, id);
    EnteredOk(s.inwait, id, s.sems[id], c);
    PutBack(s, s.inwait[c := Waiting(id, Posted)], id, s.sems[id].(refcnt := s.sems[id].refcnt + 1));
  }

  lemma EnteredOk(w: map<Tid, Waiting>, id: Sid, m: Sema, c: Tid)
    requires SemOk(w, id, m) && c !in w
    ensures SemOk(w[c := Waiting(id, Posted)], id, m.(refcnt := m.refcnt + 1))
  {
    hide Inside, OnTheWay, NoDup;
    InsideSet(w, c, Waiting(id, Posted), id);
    InsideHas(w, c, id);
    SetSize(Inside(w, id), c);
    SetSize(OnTheWay(w, id), c);
  }

  lemma SemWaitOk(s: SState, c: Tid, id: Sid)
    requires SInv(s) && c !in s.inwait
    ensures var (r, e) := SemWait(s, c, id);
      && SInv(r) && (e == EINVAL <==> id !in s.sems) && (e == EINVAL ==> r == s)
      && (e == Done <==> id in s.sems && s.sems[id].value > 0)
      && (e == Done ==> c !in r.inwait && (id in r.sems ==> r.sems[id].value == s.sems[id].value - 1))
      && (e != Done && e != EINVAL ==> e == Blocked)
      && (e == Blocked ==> id in r.sems && r.sems[id].value == s.sems[id].value == 0 && c in r.sems[id].sleepq)
  {
    hide SemOk, NoDup, Inside, OnTheWay;
    if id in s.sems {
      OkAt(s, id);
      EnterOk(s, c, id);
      var s1 := SetSem(s, id, s.sems[id].(refcnt := s.sems[id].refcnt + 1));
      var s2 := s1.(inwait := s.inwait[c := Waiting(id, Posted)]);
      WaitLoopOk(s2, c, id);
      assert s2.inwait[c := Waiting(id, Asleep)] == s1.inwait[c := Waiting(id, Asleep)];
      assert s2.inwait - {c} == s1.inwait - {c};
    }
  }

  lemma SemWaitResumeOk(s: SState, c: Tid)
    requires SInv(s) && c in s.inwait && s.inwait[c].wake != Asleep
    ensures var id := s.inwait[c].id;
      var (r, e) := SemWaitResume(s, c);
      && id in s.sems && SInv(r)
      && (e == ETIMEDOUT <==> s.inwait[c].wake == Expired) && (e == EINTR <==> s.inwait[c].wake == Excepted)
      && (e == Done <==> s.inwait[c].wake == Posted && s.sems[id].value > 0)
      && (id in r.sems ==> r.sems[id].value == s.sems[id].value - if e == Done then 1 else 0)
      && (e == Blocked ==> c in r.inwait && r.inwait[c] == Waiting(id, Asleep)) && (e != Blocked ==> c !in r.inwait)
  {
    hide SemOk, NoDup, Inside, OnTheWay;
    var id := s.inwait[c].id;
    var m := s.sems[id];
    OkAt(s, id);
    if s.inwait[c].wake == Posted {
      WaitLoopOk(s, c, id);
    } else {
      LeaveOk(s, c, id, m.value);
      assert s.sems[id := m] == s.sems;
    }
  }
}
