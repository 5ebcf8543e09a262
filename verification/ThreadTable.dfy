/** The code of thread.c and task.c that counts suspensions, between the
    sched_lock and sched_unlock of each call. */
module ThreadTable {
  import opened Lists
  import opened Sched
  import opened Scheduler
  import opened Threads

  class Table {
    const k: Kernel
    var suscnt: map<Tid, nat>
    var task: map<Tid, Task>
    var tsus: map<Task, nat>
    var members: map<Task, seq<Tid>>

    ghost function TS(): TState
      reads this, k
    {
      TState(k.S(), suscnt, task, tsus, members)
    }

    constructor (kernel: Kernel, tasks: set<Task>)
      ensures k == kernel && suscnt == map[IDLE := 0] && task == map[IDLE := KERNEL]
      ensures tsus == (map j | j in tasks + {KERNEL} :: 0)
      ensures members == (map j | j in tasks + {KERNEL} :: if j == KERNEL then [IDLE] else [])
    {
      k := kernel;
      suscnt := map[IDLE := 0];
      task := map[IDLE := KERNEL];
      tsus := map j | j in tasks + {KERNEL} :: 0;
      members := map j | j in tasks + {KERNEL} :: if j == KERNEL then [IDLE] else [];
    }

    method Valid(t: Tid) returns (b: bool)
      ensures b == ThreadValid(TS(), t)
    {
      b := t in k.threads && !k.threads[t].exit && t in suscnt && t in task;
    }

    method ThreadSuspend(t: Tid, may: bool) returns (e: Errno)
      requires k.cur in k.threads
      modifies this, k
      ensures (TS(), e) == Threads.ThreadSuspend(old(TS()), t, may) && k.cur in k.threads
    {
      var valid := Valid(t);
      if !valid { return ESRCH; }
      if !TaskAccess(task[t], may) { return EPERM; }
      suscnt := suscnt[t := suscnt[t] + 1];
      if suscnt[t] == 1 {
        k.SchedSuspend(t);
      }
      return OK;
    }

    method ThreadResume(t: Tid, may: bool) returns (e: Errno)
      requires k.cur in k.threads
      modifies this, k
      ensures (TS(), e) == Threads.ThreadResume(old(TS()), t, may) && k.cur in k.threads
    {
      var valid := Valid(t);
      if !valid { return ESRCH; }
      if !TaskAccess(task[t], may) { return EPERM; }
      if suscnt[t] == 0 { return EINVAL; }
      suscnt := suscnt[t := suscnt[t] - 1];
      if suscnt[t] == 0 && (task[t] in tsus ==> tsus[task[t]] == 0) {
        k.SchedResume(t);
      }
      return OK;
    }

    method TaskSuspend(j: Task, may: bool) returns (e: Errno)
      requires k.cur in k.threads
      modifies this, k
      ensures (TS(), e) == Threads.TaskSuspend(old(TS()), j, may)
    {
      if j !in tsus || j !in members { return ESRCH; }
      if !TaskAccess(j, may) { return EPERM; }
      tsus := tsus[j := tsus[j] + 1];
      if tsus[j] == 1 {
        ghost var start := TS();
        var n := 0;
        var l := members[j];
        while n < |l|
          invariant 0 <= n <= |l| && k.cur in k.threads
          invariant SuspendAll(TS(), l[n..]) == SuspendAll(start, l)
        {
          hide Threads.ThreadSuspend;
          assert l[n..][0] == l[n] && l[n..][1..] == l[n + 1..];
          var r := ThreadSuspend(l[n], true);
          n := n + 1;
        }
      }
      return OK;
    }

    method TaskResume(j: Task, may: bool) returns (e: Errno)
      requires k.cur in k.threads
      modifies this, k
      ensures (TS(), e) == Threads.TaskResume(old(TS()), j, may)
    {
      if j !in tsus || j !in members { return ESRCH; }
      if !TaskAccess(j, may) { return EPERM; }
      if tsus[j] == 0 { return EINVAL; }
      tsus := tsus[j := tsus[j] - 1];
      if tsus[j] == 0 {
        ghost var start := TS();
        var n := 0;
        var l := members[j];
        while n < |l|
          invariant 0 <= n <= |l| && k.cur in k.threads
          invariant ResumeAll(TS(), l[n..]) == ResumeAll(start, l)
        {
          hide Threads.ThreadResume;
          assert l[n..][0] == l[n] && l[n..][1..] == l[n + 1..];
          var r := ThreadResume(l[n], true);
          n := n + 1;
        }
      }
      return OK;
    }

    method ThreadCreate(j: Task, t: Tid, may: bool, copies: bool, mem: bool) returns (e: Errno)
      requires k.cur in k.threads && t !in k.threads
      modifies this, k
      ensures (TS(), e) == Threads.ThreadCreate(old(TS()), j, t, may, copies, mem)
    {
      if j !in tsus || j !in members { return ESRCH; }
      if !TaskAccess(j, may) { return EPERM; }
      if |members[j]| >= MAXTHREADS { return EAGAIN; }
      if !copies { return EFAULT; }
      if !mem { return ENOMEM; }
      members := members[j := [t] + members[j]];
      task := task[t := j];
      k.threads := k.threads[t := Start(k.threads[k.cur].basepri, RoundRobin)];
      suscnt := suscnt[t := tsus[j] + 1];
      return OK;
    }
  }
}
