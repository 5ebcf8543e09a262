/** Whole runs over semaphores: the account of units, and no lost wake-up. */
module SemRuns {
  import opened Lists
  import opened Sem

  /** A step: a call of sem.c by some thread, a thread that goes on after a sleep,
      or the end of a sleep by timeout or exception. */
  datatype SEvent =
    | Init(id: Sid, task: Task, value: int, room: bool, copied: bool, memory: bool, written: bool)
    | Destroy(id: Sid, task: Task)
    | Wait(c: Tid, id: Sid)
    | Resume(c: Tid)
    | Try(id: Sid)
    | Post(id: Sid, who: Tid)
    | Expire(t: Tid)
    | Except(t: Tid)

  /** What the scheduler and the callers guarantee: a thread calls only while it
      runs, sched_wakeone takes a sleeper, and only sleepers end their sleep. */
  ghost predicate Possible(s: SState, e: SEvent) {
    match e
    case Init(_, _, value, _, _, _, _) => value >= 0
    case Destroy(_, _) => true
    case Wait(c, _) => c !in s.inwait
    case Resume(c) => c in s.inwait && s.inwait[c].wake != Asleep && s.inwait[c].id in s.sems
    case Try(_) => true
    case Post(id, who) =>
      id in s.sems && s.sems[id].sleepq != [] ==>
        who in s.sems[id].sleepq && who in s.inwait && s.inwait[who].id == id
    case Expire(t) => t in s.inwait && s.inwait[t].wake == Asleep && s.inwait[t].id in s.sems
    case Except(t) => t in s.inwait && s.inwait[t].wake == Asleep && s.inwait[t].id in s.sems
  }

  function Exec(s: SState, e: SEvent): (SState, SResult)
    requires Possible(s, e)
  {
    match e
    case Init(id, task, value, room, copied, memory, written) => SemInit(s, id, task, value, room, copied, memory, written)
    case Destroy(id, task) => SemDestroy(s, id, task)
    case Wait(c, id) => SemWait(s, c, id)
    case Resume(c) => SemWaitResume(s, c)
    case Try(id) => SemTrywait(s, id)
    case Post(id, who) => SemPost(s, id, who)
    case Expire(t) => (WakeOne(s, t, Expired), Done)
    case Except(t) => (WakeOne(s, t, Excepted), Done)
  }

  /** The semaphore that a step works on. */
  function Target(s: SState, e: SEvent): Sid
    requires Possible(s, e)
  {
    match e
    case Resume(c) => s.inwait[c].id
    case Expire(t) => s.inwait[t].id
    case Except(t) => s.inwait[t].id
    case _ => e.id
  }

  /** A semaphore destroyed while threads are inside is not destroyed again. */
  ghost predicate Fair(s: SState, e: SEvent) {
    e.Destroy? && SemDestroy(s, e.id, e.task).1 == Done ==> Owned(s, e.id)
  }

  ghost predicate Run(s: SState, es: seq<SEvent>)
    decreases |es|
  {
    es == [] || (Possible(s, es[0]) && Fair(s, es[0]) && Run(Exec(s, es[0]).0, es[1..]))
  }

  function After(s: SState, es: seq<SEvent>): SState
    requires Run(s, es)
    decreases |es|
  {
    if es == [] then s else After(Exec(s, es[0]).0, es[1..])
  }

  /** The account of semaphore `id`: what the last successful sem_init set, one
      more for each successful post since, one less for each successful wait. */
  function Account(s: SState, es: seq<SEvent>, id: Sid, n: int): int
    requires Run(s, es)
    decreases |es|
  {
    if es == [] then n
    else
      var (r, res) := Exec(s, es[0]);
      Account(r, es[1..], id, if Target(s, es[0]) == id && res == Done then Entry(es[0], n) else n)
  }

  function Entry(e: SEvent, n: int): int {
    match e
    case Init(_, _, value, _, _, _, _) => value
    case Post(_, _) => n + 1
    case Wait(_, _) => n - 1
    case Resume(_) => n - 1
    case Try(_) => n - 1
    case _ => n
  }

  ghost predicate ValueIs(s: SState, id: Sid, n: int) {
    id in s.sems ==> s.sems[id].value == n
  }

  /** One step keeps the invariant, and it moves the value as the account says. */
  lemma StepOk(s: SState, e: SEvent)
    requires SInv(s) && Possible(s, e)
    ensures SInv(Exec(s, e).0) <==> Fair(s, e)
  {
    hide SInv, Owned, SemInit, SemDestroy, SemWait, SemWaitResume, SemTrywait, SemPost, WakeOne;
    match e
    case Init(id, task, value, room, copied, memory, written) =>
      SemInitOk(s, id, task, value, room, copied, memory, written);
    case Destroy(id, task) => DestroyOk(s, id, task);
    case Wait(c, id) => SemWaitOk(s, c, id);
    case Resume(c) => SemWaitResumeOk(s, c);
    case Try(id) => TrywaitOk(s, id);
    case Post(id, who) => PostOk(s, id, who);
    case Expire(t) => UnsleepOk(s, t, Expired);
    case Except(t) => UnsleepOk(s, t, Excepted);
  }

  lemma OthersKept(s: SState, e: SEvent, id: Sid)
    requires Possible(s, e) && id != Target(s, e)
    ensures id in Exec(s, e).0.sems <==> id in s.sems
    ensures id in s.sems ==> Exec(s, e).0.sems[id] == s.sems[id]
  {
  }

  lemma StepAccount(s: SState, e: SEvent, n: int)
    requires SInv(s) && Possible(s, e) && Fair(s, e) && ValueIs(s, Target(s, e), n)
    ensures var (r, res) := Exec(s, e);
      ValueIs(r, Target(s, e), if res == Done then Entry(e, n) else n)
  {
    hide SInv, Owned, SemWait, SemWaitResume;
    match e
    case Init(id, task, value, room, copied, memory, written) =>
    case Destroy(id, task) =>
    case Wait(c, id) => SemWaitOk(s, c, id);
    case Resume(c) => SemWaitResumeOk(s, c);
    case Try(id) =>
    case Post(id, who) =>
    case Expire(t) =>
    case Except(t) =>
  }

  /** Over every run, however posts, waits, timeouts and exceptions mix: the value
      of each semaphore is its account and lies within its bounds, and while any
      thread sleeps on it, at most as many units are left as threads are woken by
      a post and have not run yet. */
  lemma {:induction false} SemaphoresEveryRun(s: SState, es: seq<SEvent>, id: Sid, n: int)
    requires SInv(s) && Run(s, es) && ValueIs(s, id, n)
    ensures var r := After(s, es);
      && SInv(r)
      && (id in r.sems ==>
            && r.sems[id].value == Account(s, es, id, n) && 0 <= r.sems[id].value <= MAXSEMVAL
            && (r.sems[id].sleepq != [] ==> r.sems[id].value <= |OnTheWay(r.inwait, id)|))
    decreases |es|
  {
    hide SInv, Exec, Owned, OnTheWay, Fair, Target, Entry;
    if es == [] {
      if id in s.sems {
        BoundsAt(s, id);
      }
    } else {
      StepOk(s, es[0]);
      if Target(s, es[0]) == id {
        StepAccount(s, es[0], n);
      } else {
        OthersKept(s, es[0], id);
      }
      var (r, res) := Exec(s, es[0]);
      SemaphoresEveryRun(r, es[1..], id, if Target(s, es[0]) == id && res == Done then Entry(es[0], n) else n);
    }
  }

  lemma BoundsAt(s: SState, id: Sid)
    requires SInv(s) && id in s.sems
    ensures 0 <= s.sems[id].value <= MAXSEMVAL
    ensures s.sems[id].sleepq != [] ==> s.sems[id].value <= |OnTheWay(s.inwait, id)|
  {
  }

  const Boot: SState := SState(map[], map[])

  lemma BootOk()
    ensures SInv(Boot)
  {
  }

  /** When nobody is on the way, a sleeper means that no unit is left. */
  lemma NoLostPost(es: seq<SEvent>, id: Sid)
    requires Run(Boot, es)
    ensures var r := After(Boot, es);
      id in r.sems && r.sems[id].sleepq != [] && (forall t :: t in r.inwait ==> r.inwait[t] != Waiting(id, Posted))
      ==> r.sems[id].value == 0
  {
    hide SInv, Run, After;
    BootOk();
    SemaphoresEveryRun(Boot, es, id, 0);
    var r := After(Boot, es);
    if forall t :: t in r.inwait ==> r.inwait[t] != Waiting(id, Posted) {
      assert OnTheWay(r.inwait, id) == {};
    }
  }

  // ----- A semaphore destroyed twice -----

  ghost predicate Goes(s: SState, es: seq<SEvent>)
    decreases |es|
  {
    es == [] || (Possible(s, es[0]) && Goes(Exec(s, es[0]).0, es[1..]))
  }

  function End(s: SState, es: seq<SEvent>): SState
    requires Goes(s, es)
    decreases |es|
  {
    if es == [] then s else End(Exec(s, es[0]).0, es[1..])
  }

  /** Thread 5 waits on semaphore 1 of task 9 and is woken by a post; before it runs
      the owner destroys the semaphore, twice. */
  function TwoDestroys(): seq<SEvent> {
    [Init(1, 9, 0, true, true, true, true), Wait(5, 1), Post(1, 5), Destroy(1, 9), Destroy(1, 9)]
  }

  /** The excepted case occurs: both calls succeed, and the record is freed while the
      thread is still inside sem_wait. */
  lemma DestroyedUnderWaiter()
    ensures Goes(Boot, TwoDestroys())
    ensures var r := End(Boot, TwoDestroys()); 1 !in r.sems && 5 in r.inwait && r.inwait[5] == Waiting(1, Posted) && !SInv(r)
  {
    var es := TwoDestroys();
    var s1 := SState(map[1 := Sema(9, 0, 1, [])], map[]);
    var s2 := SState(map[1 := Sema(9, 0, 2, [5])], map[5 := Waiting(1, Asleep)]);
    var s3 := SState(map[1 := Sema(9, 1, 2, [])], map[5 := Waiting(1, Posted)]);
    var s4 := SState(map[1 := Sema(9, 1, 1, [])], map[5 := Waiting(1, Posted)]);
    var s5 := SState(map[], map[5 := Waiting(1, Posted)]);
    hide SInv, SemInit, SemWait, SemPost, SemDestroy;
    Goings(s1, s2, s3, s4, s5);
    assert !SInv(s5) by { Orphan(s5, 5); }
    EndStep(s4, [es[4]]);
    EndStep(s3, es[3..]);
    EndStep(s2, es[2..]);
    EndStep(s1, es[1..]);
    EndStep(Boot, es);
    assert es[3..][1..] == [es[4]] && es[2..][1..] == es[3..] && es[1..][1..] == es[2..];
  }

  lemma Orphan(s: SState, t: Tid)
    requires t in s.inwait && s.inwait[t].id !in s.sems
    ensures !SInv(s)
  {
  }

  lemma Goings(s1: SState, s2: SState, s3: SState, s4: SState, s5: SState)
    requires s1 == SState(map[1 := Sema(9, 0, 1, [])], map[])
    requires s2 == SState(map[1 := Sema(9, 0, 2, [5])], map[5 := Waiting(1, Asleep)])
    requires s3 == SState(map[1 := Sema(9, 1, 2, [])], map[5 := Waiting(1, Posted)])
    requires s4 == SState(map[1 := Sema(9, 1, 1, [])], map[5 := Waiting(1, Posted)])
    requires s5 == SState(map[], map[5 := Waiting(1, Posted)])
    ensures SemInit(Boot, 1, 9, 0, true, true, true, true) == (s1, Done) && SemWait(s1, 5, 1) == (s2, Blocked)
    ensures SemPost(s2, 1, 5) == (s3, Done) && SemDestroy(s3, 1, 9) == (s4, Done) && SemDestroy(s4, 1, 9) == (s5, Done)
  {
    var a := SemInit(Boot, 1, 9, 0, true, true, true, true).0;
    assert a.sems == s1.sems;
    var b := SemWait(s1, 5, 1).0;
    var none: seq<Tid> := [];
    assert none + [5] == [5];
    assert b.sems == s2.sems && b.inwait == s2.inwait;
    var c := SemPost(s2, 1, 5).0;
    assert Remove([5], 5) == [];
    assert c.sems == s3.sems && c.inwait == s3.inwait;
    assert SemDestroy(s3, 1, 9).0.sems == s4.sems && SemDestroy(s4, 1, 9).0.sems == s5.sems;
  }

  lemma EndStep(s: SState, es: seq<SEvent>)
    requires es != [] && Possible(s, es[0])
    ensures Goes(Exec(s, es[0]).0, es[1..]) ==> Goes(s, es) && End(s, es) == End(Exec(s, es[0]).0, es[1..])
  {
    hide Possible, Exec;
  }
}
