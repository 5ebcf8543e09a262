/** The scheduler of sys/kern/sched.c: 256 run queues with a cached best
    priority, a deferred wake queue, per-event sleep queues, the nesting
    scheduler lock and the context switch. */
module Sched {
  import opened Lists

  type Tid = int
  type Event = int

  const NPRI: int := 256
  const MINPRI: int := 255
  const PRI_IDLE: int := 255
  const QUANTUM: int := 5

  type Pri = p: int | 0 <= p <= 255
  type RunQ = q: seq<seq<Tid>> | |q| == 256 witness seq(256, _ => [])

  /** The idle thread, created by hand in thread_init. */
  const IDLE: Tid := 0

  datatype Policy = Fifo | RoundRobin

  /** What a switched-out thread does when it is switched in again: go on in
      the loop of sched_unlock, return from sched_tsleep, or start. */
  datatype Resume = InUnlock | InSleep | Entry

  /** The scheduling fields of struct thread; `sleep`, `susp` and `exit` are
      the bits of its state word. */
  datatype Thread = Thread(
    sleep: bool, susp: bool, exit: bool,
    policy: Policy, priority: Pri, basepri: Pri, timeleft: int,
    resched: bool, locks: nat, slpevt: Option<Event>, slpret: int,
    timeout: bool, resume: Resume)
  {
    predicate Run() { !sleep && !susp && !exit }
  }

  /** `pending` is the oracle for interrupts: the k-th entry lists the events
      that interrupt handlers wake in the k-th window in which sched_unlock
      opens interrupts. */
  datatype State = State(
    threads: map<Tid, Thread>, runq: RunQ, wakeq: seq<Tid>,
    sleepq: map<Event, seq<Tid>>, maxpri: Pri, cur: Tid,
    pending: seq<seq<Event>>)

  // ----- Specification functions, one per static or exported function -----

  function SleepQ(m: map<Event, seq<Tid>>, e: Event): seq<Tid> {
    if e in m then m[e] else []
  }

  /** A queue links known threads only. */
  predicate Known(q: seq<Tid>, threads: map<Tid, Thread>) {
    forall i :: 0 <= i < |q| ==> q[i] in threads
  }

  /** What waking and switching leave alone: priorities, suspension, exit; a
      sleep result is only ever overwritten by 0, a successful wake-up. */
  ghost predicate Kept(a: map<Tid, Thread>, b: map<Tid, Thread>) {
    && a.Keys == b.Keys
    && forall t :: t in a ==>
         && b[t].priority == a[t].priority && b[t].basepri == a[t].basepri
         && b[t].susp == a[t].susp && b[t].exit == a[t].exit
         && (b[t].slpret == a[t].slpret || b[t].slpret == 0)
  }

  /** No interrupt in the list wakes the event. */
  ghost predicate Quiet(p: seq<seq<Event>>, e: Event) {
    forall i :: 0 <= i < |p| ==> e !in p[i]
  }

  /** runq_getbest started at level `p`: the first non-empty level below
      MINPRI, else MINPRI. */
  function BestFrom(q: RunQ, p: Pri): (r: Pri)
    ensures p <= r
    ensures forall i :: p <= i < r ==> q[i] == []
    ensures r < MINPRI ==> q[r] != []
    decreases MINPRI - p
  {
    if p == MINPRI || q[p] != [] then p else BestFrom(q, p + 1)
  }

  function Best(q: RunQ): Pri { BestFrom(q, 0) }

  function SetThread(s: State, t: Tid, th: Thread): State {
    s.(threads := s.threads[t := th])
  }

  function MarkResched(s: State): State
    requires s.cur in s.threads
  {
    SetThread(s, s.cur, s.threads[s.cur].(resched := true))
  }

  function RunqEnqueue(s: State, t: Tid): State
    requires t in s.threads && s.cur in s.threads
  {
    var p := s.threads[t].priority;
    var s1 := s.(runq := s.runq[p := s.runq[p] + [t]]);
    if p < s.maxpri then MarkResched(s1.(maxpri := p)) else s1
  }

  function RunqInsert(s: State, t: Tid): State
    requires t in s.threads
  {
    var p := s.threads[t].priority;
    var s1 := s.(runq := s.runq[p := [t] + s.runq[p]]);
    if p < s.maxpri then s1.(maxpri := p) else s1
  }

  /** The thread picked is s.runq[s.maxpri][0]. */
  function RunqDequeue(s: State): State
    requires s.runq[s.maxpri] != []
  {
    var q := s.runq[s.maxpri][1..];
    var s1 := s.(runq := s.runq[s.maxpri := q]);
    if q == [] then s1.(maxpri := Best(s1.runq)) else s1
  }

  function RunqRemove(s: State, t: Tid): State
    requires t in s.threads
  {
    var p := s.threads[t].priority;
    var q: RunQ := s.runq[p := Remove(s.runq[p], t)];
    s.(runq := q, maxpri := Best(q))
  }

  function FlushOne(s: State): (r: State)
    requires s.cur in s.threads && s.wakeq != [] && s.wakeq[0] in s.threads
    ensures r.cur == s.cur && Kept(s.threads, r.threads)
    ensures r.wakeq == s.wakeq[1..] && r.sleepq == s.sleepq && r.pending == s.pending
    ensures r.threads[r.cur].locks == s.threads[s.cur].locks
  {
    var t := s.wakeq[0];
    var th := s.threads[t].(slpevt := None, sleep := false);
    var s1 := SetThread(s.(wakeq := s.wakeq[1..]), t, th);
    if t != s.cur && th.Run() then RunqEnqueue(s1, t) else s1
  }

  function Flush(s: State): (r: State)
    requires s.cur in s.threads && Known(s.wakeq, s.threads)
    ensures r.cur == s.cur && Kept(s.threads, r.threads)
    ensures r.wakeq == [] && r.sleepq == s.sleepq && r.pending == s.pending
    ensures r.threads[r.cur].locks == s.threads[s.cur].locks
    decreases |s.wakeq|
  {
    if s.wakeq == [] then s else hide FlushOne; Flush(FlushOne(s))
  }

  function Setrun(s: State, t: Tid): State
    requires t in s.threads
  {
    SetThread(s.(wakeq := s.wakeq + [t]), t, s.threads[t].(timeout := false))
  }

  /** The first half of sched_swtch: the state when the next thread is picked. */
  function Requeue(s: State, at: Resume): State
    requires s.cur in s.threads
  {
    var th := s.threads[s.cur].(resume := at);
    var s0 := SetThread(s, s.cur, th);
    var s1 := if !th.Run() then s0
              else if th.priority > s.maxpri then RunqInsert(s0, s.cur)
              else RunqEnqueue(s0, s.cur);
    SetThread(s1, s.cur, s1.threads[s.cur].(resched := false))
  }

  function Swtch(s: State, at: Resume): State
    requires s.cur in s.threads
    requires var s1 := Requeue(s, at); s1.runq[s1.maxpri] != []
  {
    var s1 := Requeue(s, at);
    RunqDequeue(s1).(cur := s1.runq[s1.maxpri][0])
  }

  function SleepEnqueue(s: State, e: Event, timed: bool): State
    requires s.cur in s.threads
  {
    var th := s.threads[s.cur];
    SetThread(s, s.cur, th.(slpevt := Some(e), sleep := true, timeout := th.timeout || timed))
      .(sleepq := s.sleepq[e := SleepQ(s.sleepq, e) + [s.cur]])
  }

  /** Unlinks `t` from the sleep queue of `e` and makes it runnable with result `ret`. */
  function Awaken(s: State, e: Event, t: Tid, ret: int): State
    requires t in s.threads
  {
    var s1 := s.(sleepq := s.sleepq[e := Remove(SleepQ(s.sleepq, e), t)]);
    Setrun(SetThread(s1, t, s1.threads[t].(slpret := ret)), t)
  }

  function Wakeup(s: State, e: Event): (r: State)
    requires Known(SleepQ(s.sleepq, e), s.threads)
    ensures r.cur == s.cur && Kept(s.threads, r.threads)
    ensures r.runq == s.runq && r.pending == s.pending && r.maxpri == s.maxpri
    ensures s.cur in s.threads ==> r.threads[s.cur].locks == s.threads[s.cur].locks
    ensures SleepQ(r.sleepq, e) == []
    ensures forall x :: x != e ==> SleepQ(r.sleepq, x) == SleepQ(s.sleepq, x)
    decreases |SleepQ(s.sleepq, e)|
  {
    var q := SleepQ(s.sleepq, e);
    if q == [] then s else Wakeup(Awaken(s, e, q[0], 0), e)
  }

  /** The scan of sched_wakeone and msg_dequeue: the first thread of the best priority. */
  function Top(threads: map<Tid, Thread>, q: seq<Tid>): (r: Tid)
    requires q != [] && Known(q, threads)
    ensures r in q
    ensures forall i :: 0 <= i < |q| ==> threads[r].priority <= threads[q[i]].priority
  {
    var last := q[|q| - 1];
    if |q| == 1 then last
    else
      var r := Top(threads, q[..|q| - 1]);
      if threads[last].priority < threads[r].priority then last else r
  }

  function Wakeone(s: State, e: Event): State
    requires Known(SleepQ(s.sleepq, e), s.threads)
  {
    var q := SleepQ(s.sleepq, e);
    if q == [] then s else Awaken(s, e, Top(s.threads, q), 0)
  }

  /** What sched_wakeone returns: the thread scanned last, whichever it woke. */
  function WakeoneResult(s: State, e: Event): Option<Tid> {
    var q := SleepQ(s.sleepq, e);
    if q == [] then None else Some(q[|q| - 1])
  }

  /** Unlinks a sleeper from the queue it is on: the wake queue, or that of its event. */
  function Unlink(s: State, t: Tid): State
    requires t in s.threads && s.threads[t].sleep
  {
    if t in s.wakeq then s.(wakeq := Remove(s.wakeq, t))
    else match s.threads[t].slpevt
      case None => s
      case Some(e) => s.(sleepq := s.sleepq[e := Remove(SleepQ(s.sleepq, e), t)])
  }

  function Unsleep(s: State, t: Tid, ret: int): State
    requires t in s.threads
  {
    if s.threads[t].sleep then
      var s1 := Unlink(s, t);
      Setrun(SetThread(s1, t, s1.threads[t].(slpret := ret)), t)
    else s
  }

  function Yield(s: State): State
    requires s.cur in s.threads
  {
    if s.runq[s.threads[s.cur].priority] != [] then MarkResched(s) else s
  }

  function Suspend(s: State, t: Tid): State
    requires t in s.threads && s.cur in s.threads
  {
    var s1 := if !s.threads[t].Run() then s
              else if t == s.cur then MarkResched(s)
              else RunqRemove(s, t);
    SetThread(s1, t, s1.threads[t].(susp := true))
  }

  function ResumeThread(s: State, t: Tid): State
    requires t in s.threads && s.cur in s.threads
  {
    if s.threads[t].susp then
      var s1 := SetThread(s, t, s.threads[t].(susp := false));
      if s1.threads[t].Run() then RunqEnqueue(s1, t) else s1
    else s
  }

  function Tick(s: State): State
    requires s.cur in s.threads
  {
    var c := s.threads[s.cur];
    if c.exit || c.policy != RoundRobin then s
    else if c.timeleft - 1 <= 0 then
      SetThread(s, s.cur, c.(timeleft := c.timeleft - 1 + QUANTUM, resched := true))
    else SetThread(s, s.cur, c.(timeleft := c.timeleft - 1))
  }

  /** A thread record as memset in thread_allocate and sched_start leave it. */
  function Start(pri: Pri, policy: Policy): Thread {
    Thread(false, true, false, policy, pri, pri, if policy == RoundRobin then QUANTUM else 0,
           false, 0, None, 0, false, Entry)
  }

  function Create(s: State, t: Tid, pri: Pri, policy: Policy): State {
    SetThread(s, t, Start(pri, policy))
  }

  function SetPri(s: State, t: Tid, basepri: Pri, pri: Pri): State
    requires t in s.threads && s.cur in s.threads
  {
    var s0 := SetThread(s, t, s.threads[t].(basepri := basepri));
    if t == s.cur then
      var best := Best(s.runq);
      SetThread(s0, t, s0.threads[t].(priority := pri,
                resched := s0.threads[t].resched || pri != best)).(maxpri := best)
    else if s0.threads[t].Run() then
      var s1 := RunqRemove(s0, t);
      RunqEnqueue(SetThread(s1, t, s1.threads[t].(priority := pri)), t)
    else SetThread(s0, t, s0.threads[t].(priority := pri))
  }

  function Stop(s: State, t: Tid): State
    requires t in s.threads && s.cur in s.threads
  {
    var s1 := if t == s.cur then SetThread(s, t, s.threads[t].(locks := 1, resched := true))
              else if s.threads[t].Run() then RunqRemove(s, t)
              else if s.threads[t].sleep then Unlink(s, t)
              else s;
    SetThread(s1, t, s1.threads[t].(timeout := false, sleep := false, susp := false, exit := true))
  }

  function Lock(s: State): State
    requires s.cur in s.threads
  {
    SetThread(s, s.cur, s.threads[s.cur].(locks := s.threads[s.cur].locks + 1))
  }

  function DropLock(s: State): State
    requires s.cur in s.threads && s.threads[s.cur].locks > 0
  {
    SetThread(s, s.cur, s.threads[s.cur].(locks := s.threads[s.cur].locks - 1))
  }

  /** The idle thread as thread_init and sched_init leave it. */
  function IdleThread(): Thread {
    Thread(false, false, false, Fifo, PRI_IDLE, PRI_IDLE, 0, true, 1, None, 0, false, Entry)
  }

  function Init(interrupts: seq<seq<Event>>): State {
    State(map[IDLE := IdleThread()], seq(256, _ => []), [], map[], PRI_IDLE, IDLE, interrupts)
  }
}
