/** Suspend counts: thread_suspend, thread_resume, thread_create and
    kthread_create of sys/kern/thread.c, task_suspend and task_resume of
    sys/kern/task.c, over the scheduler. */
module Threads {
  import opened Lists
  import opened Sched
  import opened SchedInv
  import opened SchedSwitch
  import opened SchedRuns

  type Task = int
  const KERNEL: Task := 0
  const MAXTHREADS: nat := 128

  datatype Errno = OK | ESRCH | EPERM | EINVAL | EAGAIN | EFAULT | ENOMEM

  /** The scheduler state with the suspend counts of threads (`suscnt`) and
      tasks (`tsus`), the task of each thread, and the thread list of each task. */
  datatype TState = TState(
    s: State, suscnt: map<Tid, nat>, task: map<Tid, Task>,
    tsus: map<Task, nat>, members: map<Task, seq<Tid>>)

  /** thread_valid: the thread is still on the list of all threads. */
  predicate ThreadValid(ts: TState, t: Tid) {
    t in ts.s.threads && !ts.s.threads[t].exit && t in ts.suscnt && t in ts.task
  }

  /** task_access: never the kernel task; `may` is what the caller's
      relation to the task and its capabilities allow. */
  predicate TaskAccess(k: Task, may: bool) { k != KERNEL && may }

  // ----- Specification functions -----

  function ThreadSuspend(ts: TState, t: Tid, may: bool): (TState, Errno)
    requires ts.s.cur in ts.s.threads
  {
    if !ThreadValid(ts, t) then (ts, ESRCH)
    else if !TaskAccess(ts.task[t], may) then (ts, EPERM)
    else
      var ts1 := ts.(suscnt := ts.suscnt[t := ts.suscnt[t] + 1]);
      (if ts1.suscnt[t] == 1 then ts1.(s := Suspend(ts.s, t)) else ts1, OK)
  }

  function ThreadResume(ts: TState, t: Tid, may: bool): (TState, Errno)
    requires ts.s.cur in ts.s.threads
  {
    if !ThreadValid(ts, t) then (ts, ESRCH)
    else if !TaskAccess(ts.task[t], may) then (ts, EPERM)
    else if ts.suscnt[t] == 0 then (ts, EINVAL)
    else
      var ts1 := ts.(suscnt := ts.suscnt[t := ts.suscnt[t] - 1]);
      (if ts1.suscnt[t] == 0 && (ts.task[t] in ts.tsus ==> ts.tsus[ts.task[t]] == 0)
       then ts1.(s := ResumeThread(ts.s, t)) else ts1, OK)
  }

  function SuspendAll(ts: TState, l: seq<Tid>): (r: TState)
    requires ts.s.cur in ts.s.threads
    ensures r.s.cur == ts.s.cur && r.s.threads.Keys == ts.s.threads.Keys
    decreases |l|
  {
    if l == [] then ts else SuspendAll(ThreadSuspend(ts, l[0], true).0, l[1..])
  }

  function ResumeAll(ts: TState, l: seq<Tid>): (r: TState)
    requires ts.s.cur in ts.s.threads
    ensures r.s.cur == ts.s.cur && r.s.threads.Keys == ts.s.threads.Keys
    decreases |l|
  {
    if l == [] then ts else ResumeAll(ThreadResume(ts, l[0], true).0, l[1..])
  }

  function TaskSuspend(ts: TState, k: Task, may: bool): (TState, Errno)
    requires ts.s.cur in ts.s.threads
  {
    if k !in ts.tsus || k !in ts.members then (ts, ESRCH)
    else if !TaskAccess(k, may) then (ts, EPERM)
    else
      var ts1 := ts.(tsus := ts.tsus[k := ts.tsus[k] + 1]);
      (if ts1.tsus[k] == 1 then SuspendAll(ts1, ts.members[k]) else ts1, OK)
  }

  function TaskResume(ts: TState, k: Task, may: bool): (TState, Errno)
    requires ts.s.cur in ts.s.threads
  {
    if k !in ts.tsus || k !in ts.members then (ts, ESRCH)
    else if !TaskAccess(k, may) then (ts, EPERM)
    else if ts.tsus[k] == 0 then (ts, EINVAL)
    else
      var ts1 := ts.(tsus := ts.tsus[k := ts.tsus[k] - 1]);
      (if ts1.tsus[k] == 0 then ResumeAll(ts1, ts.members[k]) else ts1, OK)
  }

  /** `t` is the new record's address; `copies` and `mem` say whether the
      result pointer can be written and thread_allocate succeeds. */
  function ThreadCreate(ts: TState, k: Task, t: Tid, may: bool, copies: bool, mem: bool): (TState, Errno)
    requires ts.s.cur in ts.s.threads && t !in ts.s.threads
  {
    if k !in ts.tsus || k !in ts.members then (ts, ESRCH)
    else if !TaskAccess(k, may) then (ts, EPERM)
    else if |ts.members[k]| >= MAXTHREADS then (ts, EAGAIN)
    else if !copies then (ts, EFAULT)
    else if !mem then (ts, ENOMEM)
    else (TState(Create(ts.s, t, ts.s.threads[ts.s.cur].basepri, RoundRobin),
                 ts.suscnt[t := ts.tsus[k] + 1], ts.task[t := k], ts.tsus,
                 ts.members[k := [t] + ts.members[k]]), OK)
  }

  function KthreadCreate(ts: TState, t: Tid, pri: Pri): TState
    requires ts.s.cur in ts.s.threads && t !in ts.s.threads && KERNEL in ts.members
  {
    TState(ResumeThread(Create(ts.s, t, pri, Fifo), t),
           ts.suscnt[t := 1], ts.task[t := KERNEL], ts.tsus,
           ts.members[KERNEL := [t] + ts.members[KERNEL]])
  }

  /** sched_stop and thread_deallocate. */
  function ThreadTerminate(ts: TState, t: Tid, may: bool): (TState, Errno)
    requires ts.s.cur in ts.s.threads
  {
    if !ThreadValid(ts, t) then (ts, ESRCH)
    else if !TaskAccess(ts.task[t], may) || ts.task[t] !in ts.members then (ts, EPERM)
    else (ts.(s := Stop(ts.s, t),
              members := ts.members[ts.task[t] := Remove(ts.members[ts.task[t]], t)]), OK)
  }

  // ----- The invariant -----

  /** The tables agree: every live thread is on the list of its task, once. */
  ghost predicate Tables(ts: TState) {
    && ts.s.threads.Keys == ts.suscnt.Keys == ts.task.Keys && ts.tsus.Keys == ts.members.Keys
    && KERNEL in ts.tsus && IDLE in ts.task && ts.task[IDLE] == KERNEL
    && (forall k :: k in ts.members ==> NoDup(ts.members[k]))
    && (forall k, t :: k in ts.members && t in ts.members[k] ==>
          t in ts.task && ts.task[t] == k && !ts.s.threads[t].exit)
    && (forall t :: t in ts.task ==> ts.task[t] in ts.members)
    && (forall t :: t in ts.task && !ts.s.threads[t].exit ==> t in ts.members[ts.task[t]])
  }

  /** A suspend count stands against the thread: its own, or that of its task. */
  predicate Counted(ts: TState, t: Tid, but: set<Task>)
    requires t in ts.task && t in ts.suscnt && ts.task[t] in ts.tsus
  {
    ts.suscnt[t] > 0 || (ts.task[t] !in but && ts.tsus[ts.task[t]] > 0)
  }

  /** Every user thread with a positive count, its own or its task's, carries
      TS_SUSP; the counts of the tasks in `but` are not looked at. */
  ghost predicate Held(ts: TState, but: set<Task>)
    requires Tables(ts)
  {
    forall t :: ThreadValid(ts, t) && ts.task[t] != KERNEL && Counted(ts, t, but) ==> ts.s.threads[t].susp
  }

  ghost predicate TInv(ts: TState) {
    Inv(ts.s) && Tables(ts) && Held(ts, {})
  }

  /** From `a` to `b` no thread ends, and only the threads in `who` change TS_SUSP. */
  ghost predicate BitsBut(a: map<Tid, Thread>, b: map<Tid, Thread>, who: set<Tid>) {
    && a.Keys == b.Keys
    && forall t :: t in a ==> b[t].exit == a[t].exit && (t !in who ==> b[t].susp == a[t].susp)
  }

  lemma FrameOk(ts: TState, r: State)
    requires TInv(ts) && Inv(r) && BitsBut(ts.s.threads, r.threads, {})
    ensures TInv(ts.(s := r))
  {
    hide Inv;
  }

  function Recount(ts: TState, s: State, t: Tid, n: nat): TState {
    ts.(s := s, suscnt := ts.suscnt[t := n])
  }

  // ----- Each call keeps it -----

  lemma SuspendBits(s: State, t: Tid)
    requires t in s.threads && s.cur in s.threads
    ensures var r := Suspend(s, t);
      r.cur == s.cur && BitsBut(s.threads, r.threads, {t}) && r.threads[t].susp
  {
    hide Best;
  }

  lemma ResumeBits(s: State, t: Tid)
    requires t in s.threads && s.cur in s.threads
    ensures var r := ResumeThread(s, t);
      r.cur == s.cur && BitsBut(s.threads, r.threads, {t}) && !r.threads[t].susp
  {
    hide Best;
  }

  lemma RecountTables(ts: TState, r: TState, t: Tid, n: nat)
    requires Tables(ts) && t in ts.suscnt && BitsBut(ts.s.threads, r.s.threads, {t}) && r == Recount(ts, r.s, t, n)
    ensures Tables(r)
  {
    hide NoDup;
  }

  lemma SuspendHolds(ts: TState, r: TState, t: Tid, but: set<Task>)
    requires Tables(ts) && Held(ts, but) && t in ts.suscnt
    requires BitsBut(ts.s.threads, r.s.threads, {t}) && r.s.threads[t].susp
    requires r == Recount(ts, r.s, t, ts.suscnt[t] + 1)
    ensures Tables(r) && Held(r, but)
  {
    RecountTables(ts, r, t, ts.suscnt[t] + 1);
    hide NoDup;
  }

  /** One call of thread_suspend: the count goes up and the thread is held. */
  lemma ThreadSuspendOk(ts: TState, t: Tid, may: bool, but: set<Task>)
    requires Inv(ts.s) && ts.s.cur in ts.s.threads && Tables(ts) && Held(ts, but)
    ensures var (r, e) := ThreadSuspend(ts, t, may);
      && Inv(r.s) && Tables(r) && Held(r, but)
      && r.s.cur == ts.s.cur && BitsBut(ts.s.threads, r.s.threads, {t})
      && (e == OK <==> ThreadValid(ts, t) && TaskAccess(ts.task[t], may))
      && (e == OK ==> t in ts.suscnt && r.s.threads[t].susp && r == Recount(ts, r.s, t, ts.suscnt[t] + 1))
      && (e != OK ==> r == ts)
  {
    hide Inv;
    if ThreadValid(ts, t) && TaskAccess(ts.task[t], may) {
      SuspendOk(ts.s, t);
      SuspendBits(ts.s, t);
      hide Suspend, BitsBut;
      var r := ThreadSuspend(ts, t, may).0;
      SuspendAgain(ts.s, t);
      if ts.suscnt[t] > 0 { HeldAlready(ts, t, but); }
      hide Tables, Held;
      SuspendHolds(ts, r, t, but);
    } else {
      SuspendAgain(ts.s, t);
    }
  }

  lemma SuspendAgain(s: State, t: Tid)
    ensures BitsBut(s.threads, s.threads, {t})
  {
  }

  lemma HeldAlready(ts: TState, t: Tid, but: set<Task>)
    requires Tables(ts) && Held(ts, but) && ThreadValid(ts, t) && ts.task[t] != KERNEL && ts.suscnt[t] > 0
    ensures ts.s.threads[t].susp
  {
  }

  lemma ResumeHolds(ts: TState, r: TState, t: Tid, but: set<Task>)
    requires Tables(ts) && Held(ts, but) && t in ts.suscnt && ts.suscnt[t] > 0
    requires BitsBut(ts.s.threads, r.s.threads, {t})
    requires r == Recount(ts, r.s, t, ts.suscnt[t] - 1)
    requires r.s.threads[t].susp == ts.s.threads[t].susp || (ts.suscnt[t] == 1 && ts.tsus[ts.task[t]] == 0)
    ensures Tables(r) && Held(r, but)
  {
    RecountTables(ts, r, t, ts.suscnt[t] - 1);
    hide NoDup;
  }

  lemma ThreadResumeOk(ts: TState, t: Tid, may: bool, but: set<Task>)
    requires Inv(ts.s) && ts.s.cur in ts.s.threads && Tables(ts) && Held(ts, but) && t != ts.s.cur
    ensures var (r, e) := ThreadResume(ts, t, may);
      && Inv(r.s) && Tables(r) && Held(r, but)
      && r.s.cur == ts.s.cur && BitsBut(ts.s.threads, r.s.threads, {t})
      && (e == OK <==> ThreadValid(ts, t) && TaskAccess(ts.task[t], may) && ts.suscnt[t] > 0)
      && (e == OK ==>
            && r == Recount(ts, r.s, t, ts.suscnt[t] - 1) && ts.task[t] in ts.tsus
            && (r.s.threads[t].susp <==> ts.s.threads[t].susp && !(ts.suscnt[t] == 1 && ts.tsus[ts.task[t]] == 0)))
      && (e != OK ==> r == ts)
  {
    hide Inv;
    SuspendAgain(ts.s, t);
    if ThreadValid(ts, t) && TaskAccess(ts.task[t], may) && ts.suscnt[t] > 0 {
      assert ts.task[t] in ts.tsus;
      ResumeThreadOk(ts.s, t);
      ResumeBits(ts.s, t);
      var r := ThreadResume(ts, t, may).0;
      hide Tables, Held, BitsBut, ResumeThread;
      ResumeHolds(ts, r, t, but);
    }
  }

  /** From `a` to `b` each thread of `who` counts one suspension more, and is suspended. */
  ghost predicate SuspendedBy(a: TState, b: TState, who: seq<Tid>) {
    && a.suscnt.Keys == b.suscnt.Keys == a.s.threads.Keys == b.s.threads.Keys
    && forall t :: t in a.s.threads ==>
         && b.suscnt[t] == a.suscnt[t] + (if t in who then 1 else 0)
         && (b.s.threads[t].susp <==> a.s.threads[t].susp || t in who)
  }

  lemma SuspendedOne(a: TState, b: TState, t: Tid)
    requires Tables(a) && Tables(b) && t in a.s.threads && BitsBut(a.s.threads, b.s.threads, {t})
    requires b == Recount(a, b.s, t, a.suscnt[t] + 1) && b.s.threads[t].susp
    ensures SuspendedBy(a, b, [t])
  {
  }

  lemma SuspendedMore(a: TState, b: TState, c: TState, t: Tid, l: seq<Tid>)
    requires SuspendedBy(a, b, [t]) && SuspendedBy(b, c, l) && t !in l
    ensures SuspendedBy(a, c, [t] + l)
  {
  }

  lemma SuspendedNone(ts: TState)
    requires Tables(ts)
    ensures SuspendedBy(ts, ts, [])
  {
    hide NoDup;
  }

  /** The threads of a list that may be suspended. */
  ghost predicate Listed(ts: TState, l: seq<Tid>) {
    forall t :: t in l ==> ThreadValid(ts, t) && TaskAccess(ts.task[t], true)
  }

  lemma StillListed(ts: TState, r: TState, l: seq<Tid>)
    requires l != [] && NoDup(l) && Listed(ts, l) && BitsBut(ts.s.threads, r.s.threads, {l[0]})
    requires r.task == ts.task && r.suscnt.Keys == ts.suscnt.Keys
    ensures NoDup(l[1..]) && l[0] !in l[1..] && Listed(r, l[1..])
  {
    assert forall t :: t in l[1..] ==> t in l;
  }

  lemma SuspendFirst(ts: TState, l: seq<Tid>, but: set<Task>)
    requires Inv(ts.s) && ts.s.cur in ts.s.threads && Tables(ts) && Held(ts, but) && l != [] && NoDup(l) && Listed(ts, l)
    ensures var r := ThreadSuspend(ts, l[0], true).0;
      && Inv(r.s) && r.s.cur == ts.s.cur && r.s.cur in r.s.threads && Tables(r) && Held(r, but)
      && r == ts.(s := r.s, suscnt := r.suscnt) && SuspendedBy(ts, r, [l[0]])
      && NoDup(l[1..]) && l[0] !in l[1..] && Listed(r, l[1..])
  {
    hide Inv, Held, ThreadSuspend, Tables, SuspendedBy, BitsBut, NoDup;
    ThreadSuspendOk(ts, l[0], true, but);
    TableKeys(ts);
    var r := ThreadSuspend(ts, l[0], true).0;
    TableKeys(r);
    BitsKeys(ts.s, r.s, l[0]);
    SuspendedOne(ts, r, l[0]);
    StillListed(ts, r, l);
  }

  /** task_suspend's loop: every thread of the list counts one more. */
  lemma {:induction false} SuspendAllOk(ts: TState, l: seq<Tid>, but: set<Task>)
    requires Inv(ts.s) && ts.s.cur in ts.s.threads && Tables(ts) && Held(ts, but) && NoDup(l) && Listed(ts, l)
    ensures var r := SuspendAll(ts, l);
      && Inv(r.s) && Tables(r) && Held(r, but)
      && r == ts.(s := r.s, suscnt := r.suscnt) && SuspendedBy(ts, r, l)
    decreases |l|
  {
    hide Inv, Held, ThreadSuspend, Tables, SuspendedBy, Listed, BitsBut, NoDup;
    if l == [] {
      SuspendedNone(ts);
    } else {
      SuspendFirst(ts, l, but);
      var r1 := ThreadSuspend(ts, l[0], true).0;
      SuspendAllOk(r1, l[1..], but);
      SuspendedMore(ts, r1, SuspendAll(r1, l[1..]), l[0], l[1..]);
      assert [l[0]] + l[1..] == l;
    }
  }

  /** From `a` to `b` each thread of `who` counts one suspension less, if it had one,
      and is resumed exactly when that was its last. */
  ghost predicate ResumedBy(a: TState, b: TState, who: seq<Tid>) {
    && a.suscnt.Keys == b.suscnt.Keys == a.s.threads.Keys == b.s.threads.Keys
    && forall t :: t in a.s.threads ==>
         && b.suscnt[t] == (if t in who && a.suscnt[t] > 0 then a.suscnt[t] - 1 else a.suscnt[t])
         && (b.s.threads[t].susp <==> a.s.threads[t].susp && !(t in who && a.suscnt[t] == 1))
  }

  lemma ResumedOne(a: TState, b: TState, t: Tid)
    requires Tables(a) && Tables(b) && t in a.s.threads && BitsBut(a.s.threads, b.s.threads, {t})
    requires if a.suscnt[t] == 0 then b == a
             else b == Recount(a, b.s, t, a.suscnt[t] - 1) && (b.s.threads[t].susp <==> a.s.threads[t].susp && a.suscnt[t] != 1)
    ensures ResumedBy(a, b, [t])
  {
  }

  lemma ResumedMore(a: TState, b: TState, c: TState, t: Tid, l: seq<Tid>)
    requires ResumedBy(a, b, [t]) && ResumedBy(b, c, l) && t !in l
    ensures ResumedBy(a, c, [t] + l)
  {
  }

  /** The threads of a list that belong to tasks without suspension. */
  ghost predicate Resumable(ts: TState, l: seq<Tid>) {
    forall t :: t in l ==> ThreadValid(ts, t) && TaskAccess(ts.task[t], true) && ts.task[t] in ts.tsus && ts.tsus[ts.task[t]] == 0
  }

  lemma {:induction false} ResumeAllOk(ts: TState, l: seq<Tid>, but: set<Task>)
    requires Inv(ts.s) && ts.s.cur in ts.s.threads && Tables(ts) && Held(ts, but)
    requires (forall i :: 0 <= i < |l| ==> l[i] != ts.s.cur) && NoDup(l) && Resumable(ts, l)
    ensures var r := ResumeAll(ts, l);
      && Inv(r.s) && Tables(r) && Held(r, but)
      && r == ts.(s := r.s, suscnt := r.suscnt) && ResumedBy(ts, r, l)
    decreases |l|
  {
    hide Inv, Held, ThreadResume, Tables, ResumedBy, Resumable, BitsBut, NoDup;
    if l == [] {
      ResumedNone(ts);
    } else {
      ResumeFirst(ts, l, but);
      var r1 := ThreadResume(ts, l[0], true).0;
      ResumeAllOk(r1, l[1..], but);
      ResumedMore(ts, r1, ResumeAll(r1, l[1..]), l[0], l[1..]);
      assert [l[0]] + l[1..] == l;
    }
  }

  lemma ResumedNone(ts: TState)
    requires Tables(ts)
    ensures ResumedBy(ts, ts, [])
  {
    hide NoDup;
  }

  lemma ResumeFirst(ts: TState, l: seq<Tid>, but: set<Task>)
    requires Inv(ts.s) && ts.s.cur in ts.s.threads && Tables(ts) && Held(ts, but)
    requires l != [] && l[0] != ts.s.cur && NoDup(l) && Resumable(ts, l)
    ensures var r := ThreadResume(ts, l[0], true).0;
      && Inv(r.s) && r.s.cur == ts.s.cur && r.s.cur in r.s.threads && Tables(r) && Held(r, but)
      && r == ts.(s := r.s, suscnt := r.suscnt) && ResumedBy(ts, r, [l[0]])
      && NoDup(l[1..]) && l[0] !in l[1..] && Resumable(r, l[1..])
  {
    hide Inv, Held, ThreadResume, Tables, ResumedBy, BitsBut, NoDup;
    ThreadResumeOk(ts, l[0], true, but);
    TableKeys(ts);
    var r := ThreadResume(ts, l[0], true).0;
    TableKeys(r);
    BitsKeys(ts.s, r.s, l[0]);
    ResumedOne(ts, r, l[0]);
    StillResumable(ts, r, l);
  }

  lemma TableKeys(ts: TState)
    requires Tables(ts)
    ensures ts.s.threads.Keys == ts.suscnt.Keys == ts.task.Keys
  {
    hide NoDup;
  }

  lemma BitsKeys(s: State, r: State, t: Tid)
    requires BitsBut(s.threads, r.threads, {t})
    ensures r.threads.Keys == s.threads.Keys
  {
  }

  lemma StillResumable(ts: TState, r: TState, l: seq<Tid>)
    requires l != [] && NoDup(l) && Resumable(ts, l) && BitsBut(ts.s.threads, r.s.threads, {l[0]})
    requires r.task == ts.task && r.tsus == ts.tsus && r.suscnt.Keys == ts.suscnt.Keys
    ensures NoDup(l[1..]) && l[0] !in l[1..] && Resumable(r, l[1..])
  {
  }

  /** The first suspension of a task suspends each of its threads and counts one more
      for it; a further one only counts for the task. */
  lemma TaskSuspendOk(ts: TState, k: Task, may: bool)
    requires TInv(ts) && ts.s.cur in ts.s.threads
    ensures var (r, e) := TaskSuspend(ts, k, may);
      && TInv(r) && r.s.cur == ts.s.cur && (e != OK ==> r == ts)
      && (e == OK <==> k in ts.tsus && k in ts.members && TaskAccess(k, may))
      && (e == OK ==>
            && r.tsus == ts.tsus[k := ts.tsus[k] + 1] && r.task == ts.task && r.members == ts.members
            && (if ts.tsus[k] > 0 then r.s == ts.s && r.suscnt == ts.suscnt else SuspendedBy(ts, r, ts.members[k])))
  {
    hide Inv;
    if k in ts.tsus && TaskAccess(k, may) {
      var ts1 := ts.(tsus := ts.tsus[k := ts.tsus[k] + 1]);
      assert Tables(ts1);
      if ts1.tsus[k] == 1 {
        var l := ts.members[k];
        assert Held(ts1, {k}) && Listed(ts1, l);
        hide SuspendedBy, SuspendAll;
        SuspendAllOk(ts1, l, {k});
        var r := SuspendAll(ts1, l);
        SameSuspended(ts, ts1, r, l);
        AllHeld(ts1, r, k);
        hide Held, Tables;
      } else {
        assert Held(ts1, {});
      }
    }
  }

  lemma SameSuspended(a: TState, b: TState, c: TState, l: seq<Tid>)
    requires SuspendedBy(b, c, l) && b.s == a.s && b.suscnt == a.suscnt
    ensures SuspendedBy(a, c, l)
  {
  }

  /** Once all threads of task `k` have been suspended its count holds them. */
  lemma AllHeld(ts: TState, r: TState, k: Task)
    requires Tables(r) && Held(r, {k}) && r == ts.(s := r.s, suscnt := r.suscnt) && k in ts.members
    requires SuspendedBy(ts, r, ts.members[k])
    ensures Held(r, {})
  {
    forall t | ThreadValid(r, t) && r.task[t] != KERNEL && Counted(r, t, {}) ensures r.s.threads[t].susp {
      assert Counted(r, t, {k}) || t in r.members[k];
    }
  }

  /** When the task's count comes to zero, exactly those of its threads are resumed
      whose own count comes to zero with it. */
  lemma TaskResumeOk(ts: TState, k: Task, may: bool)
    requires TInv(ts) && ts.s.cur in ts.s.threads && ts.task[ts.s.cur] != k
    ensures var (r, e) := TaskResume(ts, k, may);
      && TInv(r) && r.s.cur == ts.s.cur && (e != OK ==> r == ts)
      && (e == OK <==> k in ts.tsus && k in ts.members && TaskAccess(k, may) && ts.tsus[k] > 0)
      && (e == OK ==>
            && r.tsus == ts.tsus[k := ts.tsus[k] - 1] && r.task == ts.task && r.members == ts.members
            && (if ts.tsus[k] > 1 then r.s == ts.s && r.suscnt == ts.suscnt else ResumedBy(ts, r, ts.members[k])))
  {
    hide Inv;
    if k in ts.tsus && TaskAccess(k, may) && ts.tsus[k] > 0 {
      var ts1 := ts.(tsus := ts.tsus[k := ts.tsus[k] - 1]);
      assert Tables(ts1) && Held(ts1, {});
      if ts1.tsus[k] == 0 {
        var l := ts.members[k];
        forall i | 0 <= i < |l| ensures l[i] != ts.s.cur {
          var t := l[i];
          assert t in l;
        }
        hide Held, ResumedBy, ResumeAll;
        ResumeAllOk(ts1, l, {});
        SameResumed(ts, ts1, ResumeAll(ts1, l), l);
      }
      hide Held, Tables, ResumeAll;
    }
  }

  /** task_resume undoes task_suspend, at any depth: counts and lists are as before, and
      so is who is suspended, except that threads nobody counts for are resumed. */
  lemma TaskRoundTrip(ts: TState, k: Task, may: bool)
    requires TInv(ts) && ts.s.cur in ts.s.threads && k in ts.tsus && k in ts.members && TaskAccess(k, may)
    requires ts.s.cur in ts.task && ts.task[ts.s.cur] != k
    ensures TaskSuspend(ts, k, may).0.s.cur in TaskSuspend(ts, k, may).0.s.threads
    ensures var (r, e) := TaskResume(TaskSuspend(ts, k, may).0, k, may);
      && e == OK && r.suscnt == ts.suscnt && r.tsus == ts.tsus && r.task == ts.task && r.members == ts.members
      && r.s.threads.Keys == ts.s.threads.Keys
      && forall t :: t in ts.s.threads ==>
           (r.s.threads[t].susp <==>
              ts.s.threads[t].susp && !(ts.tsus[k] == 0 && t in ts.members[k] && ts.suscnt[t] == 0))
  {
    hide TaskSuspend, TaskResume, SuspendedBy, ResumedBy, TInv;
    TaskSuspendOk(ts, k, may);
    var m := TaskSuspend(ts, k, may).0;
    CurKnown(m);
    KeysOf(ts);
    TaskResumeOk(m, k, may);
    var r := TaskResume(m, k, may).0;
    if ts.tsus[k] == 0 {
      MembersHeld(ts, k);
      BackAgain(ts, m, r, ts.members[k]);
    }
  }

  lemma MembersHeld(ts: TState, k: Task)
    requires TInv(ts) && k in ts.members && k != KERNEL
    ensures forall t :: t in ts.members[k] ==> t in ts.s.threads && t in ts.suscnt && (ts.suscnt[t] > 0 ==> ts.s.threads[t].susp)
  {
    hide Inv, NoDup;
    forall t | t in ts.members[k]
      ensures t in ts.s.threads && t in ts.suscnt && (ts.suscnt[t] > 0 ==> ts.s.threads[t].susp)
    {
      assert ThreadValid(ts, t);
    }
  }

  lemma BackAgain(a: TState, b: TState, c: TState, l: seq<Tid>)
    requires SuspendedBy(a, b, l) && ResumedBy(b, c, l)
    requires forall t :: t in l && t in a.s.threads && a.suscnt[t] > 0 ==> a.s.threads[t].susp
    ensures c.suscnt == a.suscnt && c.s.threads.Keys == a.s.threads.Keys
    ensures forall t :: t in a.s.threads ==>
      t in a.suscnt && (c.s.threads[t].susp <==> a.s.threads[t].susp && !(t in l && a.suscnt[t] == 0))
  {
    forall t | t in a.s.threads
      ensures t in a.suscnt && t in c.suscnt && c.suscnt[t] == a.suscnt[t]
      ensures c.s.threads[t].susp <==> a.s.threads[t].susp && !(t in l && a.suscnt[t] == 0)
    {
      assert t in b.s.threads;
    }
    assert c.suscnt.Keys == a.suscnt.Keys;
  }

  lemma KeysOf(ts: TState)
    requires TInv(ts)
    ensures ts.s.threads.Keys == ts.suscnt.Keys
  {
    hide Inv, Held, NoDup;
  }

  lemma SameResumed(a: TState, b: TState, c: TState, l: seq<Tid>)
    requires ResumedBy(b, c, l) && b.s == a.s && b.suscnt == a.suscnt
    ensures ResumedBy(a, c, l)
  {
  }

  lemma StopBits(s: State, t: Tid)
    requires t in s.threads && s.cur in s.threads
    ensures var r := Stop(s, t);
      && r.cur == s.cur && r.threads.Keys == s.threads.Keys && r.threads[t].exit
      && forall x :: x in s.threads && x != t ==>
           r.threads[x].exit == s.threads[x].exit && r.threads[x].susp == s.threads[x].susp
  {
    hide Best;
  }

  lemma Unlisted(ts: TState, t: Tid)
    requires Tables(ts) && t in ts.task
    ensures var m := ts.members[ts.task[t] := Remove(ts.members[ts.task[t]], t)];
      && m.Keys == ts.members.Keys && (forall j :: j in m ==> NoDup(m[j]))
      && forall j, x :: j in ts.members ==> (x in m[j] <==> x in ts.members[j] && x != t)
  {
    hide Remove, NoDup;
    var k := ts.task[t];
    RemoveFacts(ts.members[k], t);
    Relisted(ts.members, k, Remove(ts.members[k], t), t);
  }

  lemma Relisted(m: map<Task, seq<Tid>>, k: Task, l: seq<Tid>, t: Tid)
    requires k in m && (forall j :: j in m ==> NoDup(m[j])) && NoDup(l)
    requires (forall x :: x in l <==> x in m[k] && x != t) && (forall j :: j in m && t in m[j] ==> j == k)
    ensures forall j :: j in m ==> NoDup(m[k := l][j])
    ensures forall j, x :: j in m ==> (x in m[k := l][j] <==> x in m[j] && x != t)
  {
    hide NoDup;
  }

  /** Thread `t` has ended and is on no list any more; nothing else changed. */
  lemma Ended(ts: TState, r: TState, t: Tid)
    requires Tables(ts) && Held(ts, {}) && r.suscnt == ts.suscnt && r.task == ts.task && r.tsus == ts.tsus
    requires r.s.threads.Keys == ts.s.threads.Keys && t in ts.s.threads && r.s.threads[t].exit
    requires forall x :: x in ts.s.threads && x != t ==>
      r.s.threads[x].exit == ts.s.threads[x].exit && r.s.threads[x].susp == ts.s.threads[x].susp
    requires r.members.Keys == ts.members.Keys && forall j :: j in r.members ==> NoDup(r.members[j])
    requires forall j, x :: j in ts.members ==> (x in r.members[j] <==> x in ts.members[j] && x != t)
    ensures Tables(r) && Held(r, {})
  {
    hide NoDup;
    forall x | x in ts.task && x != t && !ts.s.threads[x].exit ensures x in r.members[ts.task[x]] {
      var k := ts.task[x];
      assert k in ts.members && x in ts.members[k];
      assert x in r.members[k];
    }
  }

  /** A terminated thread, and only it, leaves the list of its task. */
  lemma ThreadTerminateOk(ts: TState, t: Tid, may: bool)
    requires TInv(ts) && ts.s.cur in ts.s.threads
    ensures var (r, e) := ThreadTerminate(ts, t, may);
      && TInv(r) && (e != OK ==> r == ts)
      && (e == OK <==> ThreadValid(ts, t) && TaskAccess(ts.task[t], may))
      && (e == OK ==>
            && t in r.s.threads && r.s.threads[t].exit && r.members.Keys == ts.members.Keys
            && forall j, x :: j in ts.members ==> (x in r.members[j] <==> x in ts.members[j] && x != t))
  {
    hide Inv, Held, Stop, Remove;
    if ThreadValid(ts, t) && TaskAccess(ts.task[t], may) {
      StopOk(ts.s, t);
      StopBits(ts.s, t);
      Unlisted(ts, t);
      Ended(ts, ThreadTerminate(ts, t, may).0, t);
    }
  }

  function AddThread(ts: TState, s: State, t: Tid, k: Task, n: nat): TState
    requires k in ts.members
  {
    TState(s, ts.suscnt[t := n], ts.task[t := k], ts.tsus, ts.members[k := [t] + ts.members[k]])
  }

  lemma NewThreadLists(ts: TState, t: Tid, k: Task)
    requires Tables(ts) && t !in ts.s.threads && k in ts.members
    ensures var m := ts.members[k := [t] + ts.members[k]];
      && (forall j :: j in m ==> NoDup(m[j]))
      && (forall j, x :: j in m && x in m[j] ==> (j == k && x == t) || x in ts.members[j])
      && t in m[k] && (forall j, x :: j in ts.members && x in ts.members[j] ==> x in m[j])
  {
    assert t !in ts.members[k];
    NoDupCons(t, ts.members[k]);
  }

  lemma NewThreadOk(ts: TState, t: Tid, k: Task, th: Thread, n: nat, r: TState)
    requires Tables(ts) && Held(ts, {}) && t !in ts.s.threads && k in ts.members && !th.exit
    requires r.s.threads == ts.s.threads[t := th] && r == AddThread(ts, r.s, t, k, n)
    requires k == KERNEL || th.susp
    ensures Tables(r) && Held(r, {})
  {
    NewThreadTables(ts, t, k, th, n, r);
    hide NoDup;
  }

  lemma NewThreadTables(ts: TState, t: Tid, k: Task, th: Thread, n: nat, r: TState)
    requires Tables(ts) && t !in ts.s.threads && k in ts.members && !th.exit
    requires r.s.threads == ts.s.threads[t := th] && r == AddThread(ts, r.s, t, k, n)
    ensures Tables(r)
  {
    hide NoDup;
    NewThreadLists(ts, t, k);
  }

  /** A thread that has not run yet, with a full quantum if it takes turns. */
  predicate Fresh(th: Thread, pri: Pri, policy: Policy) {
    && th.priority == th.basepri == pri && th.policy == policy && th.timeleft == (if policy == RoundRobin then 5 else 0)
    && !th.sleep && !th.exit && !th.resched && th.locks == 0 && th.slpevt == None && th.slpret == 0 && !th.timeout
  }

  lemma ThreadCreateOk(ts: TState, k: Task, t: Tid, may: bool, copies: bool, mem: bool)
    requires TInv(ts) && ts.s.cur in ts.s.threads && t !in ts.s.threads
    ensures var (r, e) := ThreadCreate(ts, k, t, may, copies, mem);
      && TInv(r) && (e != OK ==> r == ts)
      && (e == OK <==> k in ts.tsus && k in ts.members && TaskAccess(k, may) && |ts.members[k]| < MAXTHREADS && copies && mem)
      && (e == OK ==>
            && r.s == ts.s.(threads := r.s.threads) && r.s.threads.Keys == ts.s.threads.Keys + {t}
            && (forall x :: x in ts.s.threads ==> r.s.threads[x] == ts.s.threads[x])
            && Fresh(r.s.threads[t], ts.s.threads[ts.s.cur].basepri, RoundRobin) && r.s.threads[t].susp
            && r.suscnt == ts.suscnt[t := ts.tsus[k] + 1] && r.task == ts.task[t := k] && r.tsus == ts.tsus
            && r.members == ts.members[k := [t] + ts.members[k]])
  {
    hide Inv, Tables, Held, Fresh;
    Created(ts.s, t, ts.s.threads[ts.s.cur].basepri, RoundRobin);
    var (r, e) := ThreadCreate(ts, k, t, may, copies, mem);
    if e == OK {
      CreateOk(ts.s, t, ts.s.threads[ts.s.cur].basepri, RoundRobin);
      NewThreadOk(ts, t, k, r.s.threads[t], ts.tsus[k] + 1, r);
    }
  }

  lemma Created(s: State, t: Tid, pri: Pri, policy: Policy)
    requires t !in s.threads
    ensures var r := Create(s, t, pri, policy);
      && r == s.(threads := r.threads) && r.threads.Keys == s.threads.Keys + {t}
      && (forall x :: x in s.threads ==> r.threads[x] == s.threads[x])
      && Fresh(r.threads[t], pri, policy) && r.threads[t].susp && !r.threads[t].exit
      && r.threads == s.threads[t := r.threads[t]]
  {
  }

  lemma KthreadCreateOk(ts: TState, t: Tid, pri: Pri)
    requires TInv(ts) && ts.s.cur in ts.s.threads && t !in ts.s.threads && KERNEL in ts.members
    ensures var r := KthreadCreate(ts, t, pri);
      && TInv(r) && t in r.s.threads && r.s.threads[t].Run() && Fresh(r.s.threads[t].(resched := false), pri, Fifo)
      && r.suscnt == ts.suscnt[t := 1] && r.task == ts.task[t := KERNEL] && r.tsus == ts.tsus
      && r.members == ts.members[KERNEL := [t] + ts.members[KERNEL]]
  {
    hide Inv;
    var s1 := Create(ts.s, t, pri, Fifo);
    CreateOk(ts.s, t, pri, Fifo);
    assert t != IDLE && t != ts.s.cur;
    ResumeThreadOk(s1, t);
    var r := KthreadCreate(ts, t, pri);
    var r1 := TState(s1, r.suscnt, r.task, r.tsus, r.members);
    NewThreadOk(ts, t, KERNEL, s1.threads[t], 1, r1);
    ResumeBits(s1, t);
    ResumedRuns(s1, t);
    hide ResumeThread;
    KernelHeld(r1, r.s, t);
  }

  lemma ResumedRuns(s: State, t: Tid)
    requires t in s.threads && s.cur in s.threads && !s.threads[t].sleep && !s.threads[t].exit
    ensures var r := ResumeThread(s, t);
      t in r.threads && r.threads[t].Run() && r.threads[t] == s.threads[t].(susp := false, resched := r.threads[t].resched)
  {
    hide Best;
  }

  /** The suspend bit of a kernel thread is not constrained. */
  lemma KernelHeld(ts: TState, r: State, t: Tid)
    requires Tables(ts) && Held(ts, {}) && BitsBut(ts.s.threads, r.threads, {t})
    requires t in ts.task && ts.task[t] == KERNEL
    ensures Tables(ts.(s := r)) && Held(ts.(s := r), {})
  {
  }

  // ----- Runs -----

  datatype TOp =
    | TSched(op: Op)
    | TThreadSuspend(t: Tid, may: bool) | TThreadResume(t: Tid, may: bool)
    | TTaskSuspend(k: Task, may: bool) | TTaskResume(k: Task, may: bool)
    | TCreate(k: Task, t: Tid, may: bool, copies: bool, mem: bool)
    | TKthread(t: Tid, pri: Pri) | TTerminate(t: Tid, may: bool)

  /** Callers of the scheduler go through this module to set suspend bits. The
      ASSERTs of thread_resume and task_resume are preconditions. */
  ghost predicate TCan(ts: TState, op: TOp)
    requires ts.s.cur in ts.s.threads && ts.s.cur in ts.task
  {
    match op
    case TSched(o) => Can(ts.s, o) && !o.OpSuspend? && !o.OpResume? && !o.OpStop? && !o.OpCreate?
    case TThreadResume(t, _) => t != ts.s.cur
    case TTaskResume(k, _) => k != ts.task[ts.s.cur]
    case TCreate(_, t, _, _, _) => t !in ts.s.threads
    case TKthread(t, _) => t !in ts.s.threads && KERNEL in ts.members
    case _ => true
  }

  ghost function TApply(ts: TState, op: TOp): TState
    requires Inv(ts.s) && ts.s.cur in ts.s.threads && ts.s.cur in ts.task && TCan(ts, op)
  {
    match op
    case TSched(o) => ts.(s := Do(ts.s, o))
    case TThreadSuspend(t, may) => ThreadSuspend(ts, t, may).0
    case TThreadResume(t, may) => ThreadResume(ts, t, may).0
    case TTaskSuspend(k, may) => TaskSuspend(ts, k, may).0
    case TTaskResume(k, may) => TaskResume(ts, k, may).0
    case TCreate(k, t, may, copies, mem) => ThreadCreate(ts, k, t, may, copies, mem).0
    case TKthread(t, pri) => KthreadCreate(ts, t, pri)
    case TTerminate(t, may) => ThreadTerminate(ts, t, may).0
  }

  lemma KeptBits(a: map<Tid, Thread>, b: map<Tid, Thread>)
    requires Kept(a, b)
    ensures BitsBut(a, b, {})
  {
  }

  lemma FollowsBits(s: State, r: State)
    requires Follows(s, r)
    ensures BitsBut(s.threads, r.threads, {})
  {
    KeptBits(s.threads, r.threads);
  }

  lemma SchedBits(s: State, o: Op)
    requires Inv(s) && s.cur in s.threads && Can(s, o)
    requires !o.OpSuspend? && !o.OpResume? && !o.OpStop? && !o.OpCreate?
    ensures BitsBut(s.threads, Do(s, o).threads, {})
  {
    hide Inv, Follows, Settled, Kept, BitsBut;
    match o
    case OpLock => KeptLock(s); KeptBits(s.threads, Lock(s).threads);
    case OpUnlock => FollowsBits(s, Unlock(s));
    case OpSleep(e, timed) =>
      FollowsBits(s.(sleepq := s.sleepq[e := SleepQ(s.sleepq, e) + [s.cur]]), Tsleep(s, e, timed));
    case OpWakeup(e) => SleepKnown(s, e); KeptBits(s.threads, Wakeup(s, e).threads);
    case OpWakeone(e) => SleepKnown(s, e); WakeoneBits(s, e);
    case OpUnsleep(t, ret) => UnsleepBits(s, t, ret);
    case OpYield => YieldBits(s);
    case OpTick => TickBits(s);
    case OpSetPri(t, b, p) => SetPriBits(s, t, b, p);
  }

  lemma WakeoneBits(s: State, e: Event)
    requires Known(SleepQ(s.sleepq, e), s.threads)
    ensures BitsBut(s.threads, Wakeone(s, e).threads, {})
  {
  }

  lemma UnsleepBits(s: State, t: Tid, ret: int)
    requires t in s.threads
    ensures BitsBut(s.threads, Unsleep(s, t, ret).threads, {})
  {
  }

  lemma YieldBits(s: State)
    requires s.cur in s.threads
    ensures BitsBut(s.threads, Yield(s).threads, {})
  {
  }

  lemma TickBits(s: State)
    requires s.cur in s.threads
    ensures BitsBut(s.threads, Tick(s).threads, {})
  {
    var c := s.threads[s.cur];
    var t := Tick(s).threads[s.cur];
    assert t.exit == c.exit && t.susp == c.susp && Tick(s).threads == s.threads[s.cur := t];
    hide Tick;
  }

  lemma SetPriBits(s: State, t: Tid, b: Pri, p: Pri)
    requires t in s.threads && s.cur in s.threads
    ensures BitsBut(s.threads, SetPri(s, t, b, p).threads, {})
  {
    hide Best;
  }

  lemma CurKnown(ts: TState)
    requires TInv(ts)
    ensures ts.s.cur in ts.s.threads && ts.s.cur in ts.task && Inv(ts.s)
  {
  }

  lemma TApplyOk(ts: TState, op: TOp)
    requires TInv(ts) && Inv(ts.s) && ts.s.cur in ts.s.threads && ts.s.cur in ts.task && TCan(ts, op)
    ensures TInv(TApply(ts, op))
  {
    hide Inv, TInv, BitsBut, Can;
    match op
    case TSched(o) => SchedBits(ts.s, o); FrameOk(ts, Do(ts.s, o)); hide Do;
    case TThreadSuspend(t, may) => UseThreadSuspend(ts, t, may);
    case TThreadResume(t, may) => UseThreadResume(ts, t, may);
    case TTaskSuspend(k, may) => TaskSuspendOk(ts, k, may);
    case TTaskResume(k, may) => TaskResumeOk(ts, k, may);
    case TCreate(k, t, may, copies, mem) => ThreadCreateOk(ts, k, t, may, copies, mem);
    case TKthread(t, pri) => KthreadCreateOk(ts, t, pri);
    case TTerminate(t, may) => ThreadTerminateOk(ts, t, may);
  }

  lemma UseThreadSuspend(ts: TState, t: Tid, may: bool)
    requires TInv(ts) && ts.s.cur in ts.s.threads
    ensures TInv(ThreadSuspend(ts, t, may).0)
  {
    ThreadSuspendOk(ts, t, may, {});
    hide Inv, Tables, Held, ThreadSuspend;
  }

  lemma UseThreadResume(ts: TState, t: Tid, may: bool)
    requires TInv(ts) && ts.s.cur in ts.s.threads && t != ts.s.cur
    ensures TInv(ThreadResume(ts, t, may).0)
  {
    ThreadResumeOk(ts, t, may, {});
    hide Inv, Tables, Held, ThreadResume;
  }

  /** Any sequence of calls; one its caller may not make is passed over. */
  ghost function TExec(ts: TState, ops: seq<TOp>): (r: TState)
    requires TInv(ts)
    ensures TInv(r)
    decreases |ops|
  {
    CurKnown(ts);
    hide TInv, Inv, TApply;
    if ops == [] then ts
    else if TCan(ts, ops[0]) then TApplyOk(ts, ops[0]); TExec(TApply(ts, ops[0]), ops[1..])
    else TExec(ts, ops[1..])
  }

  /** The system as thread_init leaves it, with any user tasks already known. */
  function TInit(interrupts: seq<seq<Event>>, tasks: set<Task>): TState {
    TState(Init(interrupts), map[IDLE := 0], map[IDLE := KERNEL],
           map k | k in tasks + {KERNEL} :: 0,
           map k | k in tasks + {KERNEL} :: if k == KERNEL then [IDLE] else [])
  }

  lemma TInitOk(interrupts: seq<seq<Event>>, tasks: set<Task>)
    ensures TInv(TInit(interrupts, tasks))
  {
    InitOk(interrupts);
    hide Inv;
  }

  /** In every reachable state a user thread whose own or whose task's suspend
      count is positive is marked suspended, stands on no run queue, and no
      thread switch picks it; nor is it current once the marks are served. */
  lemma SuspendedNeverPicked(interrupts: seq<seq<Event>>, tasks: set<Task>, ops: seq<TOp>, t: Tid, at: Resume)
    ensures TInv(TInit(interrupts, tasks))
    ensures var ts := TExec(TInit(interrupts, tasks), ops);
      && Tables(ts)
      && (ThreadValid(ts, t) && ts.task[t] != KERNEL && Counted(ts, t, {}) ==>
          && ts.s.threads[t].susp
          && (forall p :: 0 <= p < NPRI ==> t !in ts.s.runq[p])
          && (SwtchReady(ts.s, at) ==> SwitchAway(ts.s, at).cur != t)
          && (Settled(ts.s) ==> ts.s.cur != t))
  {
    TInitOk(interrupts, tasks);
    var ts := TExec(TInit(interrupts, tasks), ops);
    hide TExec;
    if ThreadValid(ts, t) && ts.task[t] != KERNEL && Counted(ts, t, {}) {
      NotPicked(ts.s, t, at);
    }
    hide Inv, SwtchReady;
  }

  lemma NotPicked(s: State, t: Tid, at: Resume)
    requires Inv(s) && t in s.threads && s.threads[t].susp
    ensures forall p :: 0 <= p < NPRI ==> t !in s.runq[p]
    ensures SwtchReady(s, at) ==> SwitchAway(s, at).cur != t
    ensures Settled(s) ==> s.cur != t
  {
    hide SwtchReady, WakeqOk, SleepqOk, SleepersOk;
    if Settled(s) {
      BestRuns(s);
    }
    if SwtchReady(s, at) {
      var n := SwitchAway(s, at);
      FollowsBits(s, n);
      InvReady(n);
      SwitchedRuns(s, at);
    }
  }

  lemma SwitchedRuns(s: State, at: Resume)
    requires SwtchReady(s, at)
    ensures var n := SwitchAway(s, at); n.cur in n.threads && n.threads[n.cur].Run()
  {
    SwtchOk(s, at);
    var n := SwitchAway(s, at);
    PickedRuns(n);
    hide Inv, SwtchReady;
  }

  lemma PickedRuns(s: State)
    requires Inv(s) && !s.threads[s.cur].resched
    ensures s.threads[s.cur].Run()
  {
  }
}
