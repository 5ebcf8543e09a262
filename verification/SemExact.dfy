/** What the semaphore calls return and change, said of the states before and after
    alone. */
module SemExact {
  import opened Lists
  import opened Sem

  /** No other semaphore and no other thread inside sem_wait has changed. */
  ghost predicate Only(s: SState, r: SState, id: Sid, who: set<Tid>) {
    && (forall p :: p != id ==> (p in r.sems <==> p in s.sems) && (p in s.sems ==> r.sems[p] == s.sems[p]))
    && (forall t :: t !in who ==> (t in r.inwait <==> t in s.inwait) && (t in s.inwait ==> r.inwait[t] == s.inwait[t]))
  }

  /** sem_init: each error has its own cause, in the order of the checks; a new semaphore
      belongs to the task with one reference, an old one keeps its references. */
  lemma InitExact(s: SState, id: Sid, task: Task, value: int, room: bool, copied: bool, memory: bool, written: bool)
    ensures var (r, e) := SemInit(s, id, task, value, room, copied, memory, written);
      var asked := room && value <= 0x7fff_ffff;
      && (e == EAGAIN <==> !room)
      && (e == EINVAL <==> room && (value > 0x7fff_ffff || (copied && id in s.sems && s.sems[id].owner != task)))
      && (e == EBUSY <==> asked && copied && id in s.sems && s.sems[id].owner == task && s.sems[id].sleepq != [])
      && (e == ENOSPC <==> asked && copied && id !in s.sems && !memory)
      && (e == EFAULT <==> asked && (!copied || (id !in s.sems && memory && !written)))
      && (e in {EAGAIN, EINVAL, EBUSY, ENOSPC, EFAULT} ==> r == s)
      && (e !in {EAGAIN, EINVAL, EBUSY, ENOSPC, EFAULT} ==>
            && e == Done && Only(s, r, id, {}) && id in r.sems
            && r.sems[id] == if id in s.sems then Sema(s.sems[id].owner, value, s.sems[id].refcnt, []) else Sema(task, value, 1, []))
  {
  }

  /** sem_destroy gives one reference back; the last one frees the record. */
  lemma DestroyExact(s: SState, id: Sid, task: Task)
    ensures var (r, e) := SemDestroy(s, id, task);
      && (e == EINVAL <==> id !in s.sems || s.sems[id].owner != task)
      && (e == EBUSY <==> id in s.sems && s.sems[id].owner == task && (s.sems[id].sleepq != [] || s.sems[id].value == 0))
      && (e == Done || (r == s && e in {EINVAL, EBUSY}))
      && (e == Done ==>
            && Only(s, r, id, {}) && (id in r.sems <==> s.sems[id].refcnt > 1)
            && (id in r.sems ==> r.sems[id] == s.sems[id].(refcnt := s.sems[id].refcnt - 1)))
  {
  }

  /** sem_trywait. */
  lemma TrywaitExact(s: SState, id: Sid)
    ensures var (r, e) := SemTrywait(s, id);
      && (e == EINVAL <==> id !in s.sems) && (e == EAGAIN <==> id in s.sems && s.sems[id].value == 0)
      && (e == Done || (r == s && e in {EINVAL, EAGAIN}))
      && (e == Done ==> Only(s, r, id, {}) && id in r.sems && r.sems[id] == s.sems[id].(value := s.sems[id].value - 1))
  {
  }

  /** sem_post: a unit more, and the sleeper chosen, if any sleeps, is off the queue. */
  lemma PostExact(s: SState, id: Sid, who: Tid)
    requires id in s.sems && s.sems[id].sleepq != [] ==> who in s.inwait && s.inwait[who].id == id
    ensures var (r, e) := SemPost(s, id, who);
      && (e == EINVAL <==> id !in s.sems) && (e == ERANGE <==> id in s.sems && s.sems[id].value >= 0x7fff_ffff)
      && (e == Done || (r == s && e in {EINVAL, ERANGE}))
      && (e == Done ==>
            var m := s.sems[id];
            && Only(s, r, id, if m.sleepq == [] then {} else {who}) && id in r.sems
            && r.sems[id] == Sema(m.owner, m.value + 1, m.refcnt, if m.sleepq == [] then [] else Remove(m.sleepq, who))
            && (m.sleepq != [] ==> who in r.inwait && r.inwait[who] == Waiting(id, Posted)))
  {
    hide Remove;
  }

  /** A timeout or an exception only takes the sleeper off the queue. */
  lemma UnsleepExact(s: SState, t: Tid, wake: Wake)
    requires t in s.inwait && s.inwait[t].id in s.sems
    ensures var (r, id) := (WakeOne(s, t, wake), s.inwait[t].id);
      && Only(s, r, id, {t}) && t in r.inwait && r.inwait[t] == Waiting(id, wake) && id in r.sems
      && r.sems[id] == s.sems[id].(sleepq := Remove(s.sems[id].sleepq, t))
  {
    hide Remove;
  }

  /** sem_wait takes a unit, or sleeps at the end of the queue with a reference. */
  lemma WaitExact(s: SState, c: Tid, id: Sid)
    requires c !in s.inwait && (id in s.sems ==> s.sems[id].refcnt > 0)
    ensures var (r, e) := SemWait(s, c, id);
      && (e == EINVAL <==> id !in s.sems) && (e == EINVAL ==> r == s)
      && (e == Blocked <==> id in s.sems && s.sems[id].value == 0)
      && (e == Blocked || e == EINVAL || e == Done)
      && (e != EINVAL ==> Only(s, r, id, {c}) && id in r.sems)
      && (e == Done ==> c !in r.inwait && r.sems[id] == s.sems[id].(value := s.sems[id].value - 1))
      && (e == Blocked ==>
            && c in r.inwait && r.inwait[c] == Waiting(id, Asleep)
            && r.sems[id] == s.sems[id].(refcnt := s.sems[id].refcnt + 1, sleepq := s.sems[id].sleepq + [c]))
  {
  }

  /** Back from its sleep, the thread leaves with a unit after a post, with an error after
      a timeout or an exception, giving its reference back; or it sleeps again at the end. */
  lemma ResumeExact(s: SState, c: Tid)
    requires c in s.inwait && s.inwait[c].id in s.sems
    ensures var (r, e) := SemWaitResume(s, c);
      var (id, wake) := (s.inwait[c].id, s.inwait[c].wake);
      var m := s.sems[id];
      && Only(s, r, id, {c})
      && (e == ETIMEDOUT <==> wake == Expired) && (e == EINTR <==> wake == Excepted)
      && (e == Blocked <==> wake in {Asleep, Posted} && m.value == 0) && (e in {ETIMEDOUT, EINTR, Blocked, Done})
      && (e == Blocked ==>
            && c in r.inwait && r.inwait[c] == Waiting(id, Asleep) && id in r.sems
            && r.sems[id] == m.(sleepq := m.sleepq + [c]))
      && (e != Blocked ==>
            && c !in r.inwait && (id in r.sems <==> m.refcnt > 1)
            && (id in r.sems ==>
                  r.sems[id] == Sema(m.owner, if e == Done then m.value - 1 else m.value, m.refcnt - 1, m.sleepq)))
  {
  }
}
