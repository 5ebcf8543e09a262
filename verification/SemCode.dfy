/** The code of sys/sync/sem.c over the semaphore records and the chain of
    records that starts at sem_list, between sched_lock and sched_unlock. */
module SemCode {
  import opened Lists
  import opened Sem
  import S = Sem

  const NULL: Sid := 0

  function At(list: seq<Sid>, i: nat): Sid {
    if i < |list| then list[i] else NULL
  }

  /** The `next` fields chain the records of `list` from `head` to NULL. */
  ghost predicate Linked(head: Sid, next: map<Sid, Sid>, list: seq<Sid>) {
    && head == At(list, 0) && NULL !in list && NoDup(list)
    && forall i: nat :: i < |list| ==> list[i] in next && next[list[i]] == At(list, i + 1)
  }

  lemma LinkFirst(head: Sid, next: map<Sid, Sid>, list: seq<Sid>, x: Sid)
    requires Linked(head, next, list) && x != NULL && x !in list
    ensures Linked(x, next[x := head], [x] + list)
  {
    NoDupCons(x, list);
    forall i: nat | i < |list| + 1
      ensures ([x] + list)[i] in next[x := head] && next[x := head][([x] + list)[i]] == At([x] + list, i + 1)
    {
      if i > 0 {
        assert ([x] + list)[i] == list[i - 1];
      }
    }
  }

  lemma Apart(list: seq<Sid>, i: nat, j: nat)
    requires NoDup(list) && i < |list| && j < |list| && i != j
    ensures list[i] != list[j]
  {
  }

  lemma Unlink(head: Sid, next: map<Sid, Sid>, list: seq<Sid>, k: nat)
    requires Linked(head, next, list) && k < |list|
    ensures k == 0 ==> Linked(next[head], next, Remove(list, list[k]))
    ensures k > 0 ==> Linked(head, next[list[k - 1] := next[list[k]]], Remove(list, list[k]))
  {
    hide NoDup, Remove;
    RemoveFacts(list, list[k]);
    RemoveAt(list, k);
    var rest := Remove(list, list[k]);
    var next' := if k == 0 then next else next[list[k - 1] := next[list[k]]];
    forall i: nat | i < |rest| ensures rest[i] in next' && next'[rest[i]] == At(rest, i + 1) {
      var j := if i < k then i else i + 1;
      assert rest[i] == list[j];
      if k > 0 && j != k - 1 {
        Apart(list, j, k - 1);
      }
    }
  }

  class Semaphores {
    var sems: map<Sid, Sema>
    var inwait: map<Tid, Waiting>
    var head: Sid
    var next: map<Sid, Sid>
    ghost var list: seq<Sid>

    ghost function State(): SState
      reads this
    {
      SState(sems, inwait)
    }

    ghost predicate Valid()
      reads this
    {
      Linked(head, next, list) && forall id :: id in list <==> id in sems
    }

    constructor ()
      ensures Valid() && State() == SState(map[], map[])
    {
      sems, inwait, head, next, list := map[], map[], NULL, map[], [];
    }

    /** sem_valid: the address is that of a live record. */
    method SemValid(id: Sid) returns (ok: bool)
      requires Valid()
      ensures ok <==> id in sems
    {
      var tmp := head;
      ghost var i: nat := 0;
      while tmp != NULL
        invariant i <= |list| && tmp == At(list, i) && id !in list[..i]
        decreases |list| - i
      {
        if tmp == id {
          return true;
        }
        assert list[..i + 1] == list[..i] + [list[i]];
        tmp := next[tmp];
        i := i + 1;
      }
      assert list[..i] == list;
      return false;
    }

    /** sem_release. */
    method SemRelease(id: Sid)
      requires Valid() && id in sems
      modifies this
      ensures Valid() && State() == Release(old(State()), id)
    {
      var n := sems[id].refcnt - 1;
      sems := sems[id := sems[id].(refcnt := n)];
      if n > 0 {
        return;
      }
      Forget(id);
      sems := sems - {id};
      assert sems == old(sems) - {id};
    }

    /** The search in sem_release for the link to the record, and its removal. */
    method Forget(id: Sid)
      requires Linked(head, next, list) && id in list
      modifies `head, `next, `list
      ensures Linked(head, next, list) && (forall x :: x in list <==> x in old(list) && x != id)
    {
      hide NoDup, Remove;
      var sp, at := NULL, head;
      ghost var i: nat := 0;
      while at != id
        invariant i < |list| && at == At(list, i) && sp == (if i == 0 then NULL else list[i - 1])
        invariant id in list[i..]
        decreases |list| - i
      {
        assert list[i..] == [list[i]] + list[i + 1..];
        sp, at := at, next[at];
        i := i + 1;
      }
      Unlink(head, next, list, i);
      RemoveFacts(list, id);
      if sp == NULL {
        head := next[id];
      } else {
        next := next[sp := next[id]];
      }
      list := Remove(list, id);
    }

    /** sem_init: `named` is what the user space holds, `record` what kmem_alloc
        returns when `memory`. */
    method SemInit(named: Sid, record: Sid, task: Task, value: int, room: bool, copied: bool, memory: bool, written: bool)
      returns (e: SResult)
      requires Valid() && record != NULL && record !in sems
      modifies this
      ensures Valid()
      ensures var id := if named in old(sems) then named else record;
        (State(), e) == S.SemInit(old(State()), id, task, value, room, copied, memory, written)
    {
      if !room { return EAGAIN; }
      if value > MAXSEMVAL { return EINVAL; }
      if !copied { return EFAULT; }
      var valid := SemValid(named);
      if valid {
        if sems[named].owner != task { return EINVAL; }
        if sems[named].sleepq != [] { return EBUSY; }
        sems := sems[named := sems[named].(value := value)];
      } else {
        if !memory { return ENOSPC; }
        if !written { return EFAULT; }
        LinkFirst(head, next, list, record);
        sems := sems[record := Sema(task, value, 1, [])];
        next := next[record := head];
        head := record;
        list := [record] + list;
      }
      return Done;
    }

    method SemDestroy(id: Sid, task: Task) returns (e: SResult)
      requires Valid()
      modifies this
      ensures Valid() && (State(), e) == S.SemDestroy(old(State()), id, task)
    {
      var valid := SemValid(id);
      if !valid || sems[id].owner != task { return EINVAL; }
      if sems[id].sleepq != [] || sems[id].value == 0 { return EBUSY; }
      SemRelease(id);
      return Done;
    }

    /** The loop of sem_wait, up to the end or to sched_tsleep. */
    method Loop(c: Tid, id: Sid) returns (e: SResult)
      requires Valid() && id in sems
      modifies this
      ensures Valid() && (State(), e) == WaitLoop(old(State()), c, id)
    {
      hide Linked, Release;
      if sems[id].value == 0 {
        sems := sems[id := sems[id].(sleepq := sems[id].sleepq + [c])];
        inwait := inwait[c := Waiting(id, Asleep)];
        return Blocked;
      }
      sems := sems[id := sems[id].(value := sems[id].value - 1)];
      inwait := inwait - {c};
      SemRelease(id);
      return Done;
    }

    method SemWait(c: Tid, id: Sid) returns (e: SResult)
      requires Valid()
      modifies this
      ensures Valid() && (State(), e) == S.SemWait(old(State()), c, id)
    {
      hide Linked, WaitLoop;
      var valid := SemValid(id);
      if !valid { return EINVAL; }
      sems := sems[id := sems[id].(refcnt := sems[id].refcnt + 1)];
      e := Loop(c, id);
    }

    /** sem_wait from the return of sched_tsleep on. */
    method SemWaitResume(c: Tid) returns (e: SResult)
      requires Valid() && c in inwait && inwait[c].id in sems
      modifies this
      ensures Valid() && (State(), e) == S.SemWaitResume(old(State()), c)
    {
      var id := inwait[c].id;
      var rc := inwait[c].wake;
      if rc == Expired || rc == Excepted {
        inwait := inwait - {c};
        SemRelease(id);
        return if rc == Expired then ETIMEDOUT else EINTR;
      }
      e := Loop(c, id);
    }

    method SemTrywait(id: Sid) returns (e: SResult)
      requires Valid()
      modifies this
      ensures Valid() && (State(), e) == S.SemTrywait(old(State()), id)
    {
      var valid := SemValid(id);
      if !valid { return EINVAL; }
      if sems[id].value == 0 { return EAGAIN; }
      sems := sems[id := sems[id].(value := sems[id].value - 1)];
      return Done;
    }

    /** The end of a sleep, by sched_wakeone, timeout or exception. */
    method Unsleep(t: Tid, wake: Wake)
      requires Valid() && t in inwait && inwait[t].id in sems
      modifies this
      ensures Valid() && State() == WakeOne(old(State()), t, wake)
    {
      var id := inwait[t].id;
      sems := sems[id := sems[id].(sleepq := Remove(sems[id].sleepq, t))];
      inwait := inwait[t := Waiting(id, wake)];
    }

    method SemPost(id: Sid, who: Tid) returns (e: SResult)
      requires Valid() && (id in sems && sems[id].sleepq != [] ==> who in inwait && inwait[who].id == id)
      modifies this
      ensures Valid() && (State(), e) == S.SemPost(old(State()), id, who)
    {
      var valid := SemValid(id);
      if !valid { return EINVAL; }
      if sems[id].value >= MAXSEMVAL { return ERANGE; }
      sems := sems[id := sems[id].(value := sems[id].value + 1)];
      if sems[id].sleepq != [] {
        Unsleep(who, Posted);
      }
      return Done;
    }
  }
}
