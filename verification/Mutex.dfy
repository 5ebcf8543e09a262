/** Mutexes with priority inheritance: sys/sync/mutex.c over the scheduler. */
module Mutex {
  import opened Lists
  import opened Sched
  import opened SchedInv
  import opened SchedSwitch
  import opened Graph

  /** A mutex is named by its address, which also names its event. */
  type Mid = Event

  datatype Mutex = Mutex(holder: Option<Tid>, priority: Pri, locks: nat)

  /** `waiting` holds the non-NULL mutex_waiting fields, `held` the list of
      mutexes on each thread. `inlock` is kernel stack content: the local `m` of
      each thread that sleeps, or slept, inside mutex_lock. */
  datatype MState = MState(
    s: State, mx: map<Mid, Mutex>, waiting: map<Tid, Mid>,
    held: map<Tid, seq<Mid>>, inlock: map<Tid, Mid>)

  datatype Result = Done | Blocked | EINVAL | EDEADLK | EBUSY | EPERM | EINTR

  const SLP_INTR: int := 4

  function HeldBy(held: map<Tid, seq<Mid>>, t: Tid): seq<Mid> {
    if t in held then held[t] else []
  }

  /** Following mutex_waiting and then holder. */
  function Pointers(ms: MState): Edges {
    map t | t in ms.waiting && ms.waiting[t] in ms.mx && ms.mx[ms.waiting[t]].holder.Some?
      :: ms.mx[ms.waiting[t]].holder.value
  }

  // ----- prio_inherit -----

  datatype Hop = Hop(m: Mid, holder: Tid)
  datatype Chain = Chain(hops: seq<Hop>, dead: bool)

  /** The mutexes and holders that the loop of prio_inherit visits, and whether
      it stops at the waiter; `fuel` bounds the length. */
  function ChainFrom(ms: MState, m: Mid, w: Tid, fuel: nat): Chain
    decreases fuel
  {
    if fuel == 0 || m !in ms.mx || ms.mx[m].holder == None then Chain([], false)
    else
      var h := ms.mx[m].holder.value;
      if h == w then Chain([], true)
      else
        var rest := if h in ms.waiting then ChainFrom(ms, ms.waiting[h], w, fuel - 1) else Chain([], false);
        Chain([Hop(m, h)] + rest.hops, rest.dead)
  }

  predicate HopsKnown(ms: MState, hops: seq<Hop>) {
    forall i :: 0 <= i < |hops| ==> hops[i].holder in ms.s.threads && hops[i].m in ms.mx
  }

  /** One round of the loop: the holder is raised to the waiter's priority. */
  function Raise(ms: MState, m: Mid, h: Tid, w: Tid): (r: MState)
    requires ms.s.cur in ms.s.threads && h in ms.s.threads && w in ms.s.threads && m in ms.mx
    ensures r.s.cur == ms.s.cur && r.s.threads.Keys == ms.s.threads.Keys && r.mx.Keys == ms.mx.Keys
    ensures r.waiting == ms.waiting && r.held == ms.held && r.inlock == ms.inlock
  {
    SetPriFrame(ms.s, h, ms.s.threads[h].basepri, ms.s.threads[w].priority);
    hide SetPri;
    var p := ms.s.threads[w].priority;
    if ms.s.threads[h].priority > p then
      ms.(s := SetPri(ms.s, h, ms.s.threads[h].basepri, p),
          mx := ms.mx[m := ms.mx[m].(priority := p)])
    else ms
  }

  function RaiseAll(ms: MState, hops: seq<Hop>, w: Tid): (r: MState)
    requires ms.s.cur in ms.s.threads && w in ms.s.threads && HopsKnown(ms, hops)
    ensures r.s.cur == ms.s.cur && r.s.threads.Keys == ms.s.threads.Keys && r.mx.Keys == ms.mx.Keys
    ensures r.waiting == ms.waiting && r.held == ms.held && r.inlock == ms.inlock
    decreases |hops|
  {
    if hops == [] then ms
    else RaiseAll(Raise(ms, hops[0].m, hops[0].holder, w), hops[1..], w)
  }

  function Inherited(ms: MState, w: Tid): Chain
    requires w in ms.waiting
  {
    ChainFrom(ms, ms.waiting[w], w, |ms.waiting| + 1)
  }

  /** The state prio_inherit leaves; it returns EDEADLK iff the chain is dead. */
  function PrioInherit(ms: MState, w: Tid): MState
    requires ms.s.cur in ms.s.threads && w in ms.s.threads && w in ms.waiting
    requires HopsKnown(ms, Inherited(ms, w).hops)
  {
    RaiseAll(ms, Inherited(ms, w).hops, w)
  }

  // ----- prio_uninherit -----

  function BestOf(mx: map<Mid, Mutex>, l: seq<Mid>, best: Pri): (r: Pri)
    ensures r <= best
    decreases |l|
  {
    if l == [] then best
    else BestOf(mx, l[1..], if l[0] in mx && mx[l[0]].priority < best then mx[l[0]].priority else best)
  }

  function PrioUninherit(ms: MState, t: Tid): MState
    requires t in ms.s.threads && ms.s.cur in ms.s.threads
  {
    var th := ms.s.threads[t];
    if th.priority == th.basepri then ms
    else ms.(s := SetPri(ms.s, t, th.basepri, BestOf(ms.mx, HeldBy(ms.held, t), th.basepri)))
  }

  // ----- The system calls, between sched_lock and sched_unlock -----

  /** `t` becomes the holder of `m`, once. */
  function Take(ms: MState, m: Mid, t: Tid): MState
    requires m in ms.mx
  {
    ms.(mx := ms.mx[m := ms.mx[m].(holder := Some(t), locks := 1)],
        held := ms.held[t := [m] + HeldBy(ms.held, t)])
  }

  /** mutex_lock up to the point where it returns or sleeps. */
  ghost function MutexLock(ms: MState, m: Mid): (MState, Result)
    requires Inv(ms.s) && ms.s.cur in ms.s.threads && ms.s.cur != IDLE && !ms.s.threads[ms.s.cur].exit
    requires LockReady(ms, m)
  {
    var c := ms.s.cur;
    if m !in ms.mx then (ms, EINVAL)
    else if ms.mx[m].holder == Some(c) then
      (ms.(mx := ms.mx[m := ms.mx[m].(locks := ms.mx[m].locks + 1)]), Done)
    else if ms.mx[m].holder == None then
      (Take(ms.(mx := ms.mx[m := ms.mx[m].(priority := ms.s.threads[c].priority)]), m, c), Done)
    else
      var w := ms.(waiting := ms.waiting[c := m]);
      var r := PrioInherit(w, c);
      if Inherited(w, c).dead then (r.(waiting := r.waiting - {c}), EDEADLK)
      else (r.(s := Tsleep(r.s, m, false), inlock := r.inlock[c := m]), Blocked)
  }

  /** What the blocking branch needs to be well defined; it follows from the invariant. */
  ghost predicate LockReady(ms: MState, m: Mid)
    requires ms.s.cur in ms.s.threads
  {
    m in ms.mx && ms.mx[m].holder.Some? && ms.mx[m].holder != Some(ms.s.cur) ==>
      var w := ms.(waiting := ms.waiting[ms.s.cur := m]);
      && HopsKnown(w, Inherited(w, ms.s.cur).hops)
      && var r := PrioInherit(w, ms.s.cur);
         Inv(r.s) && r.s.cur in r.s.threads && r.s.cur != IDLE && !r.s.threads[r.s.cur].exit
  }

  /** mutex_lock from the return of sched_sleep on, in a thread that was blocked. */
  function MutexLockResume(ms: MState): (MState, Result)
    requires ms.s.cur in ms.s.threads && ms.s.cur in ms.inlock && ms.inlock[ms.s.cur] in ms.mx
  {
    var c := ms.s.cur;
    var m := ms.inlock[c];
    var r := ms.(waiting := ms.waiting - {c}, inlock := ms.inlock - {c});
    if ms.s.threads[c].slpret == SLP_INTR then (r, EINTR) else (Take(r, m, c), Done)
  }

  function MutexTrylock(ms: MState, m: Mid): (MState, Result) {
    var c := ms.s.cur;
    if m !in ms.mx then (ms, EINVAL)
    else if ms.mx[m].holder == Some(c) then
      (ms.(mx := ms.mx[m := ms.mx[m].(locks := ms.mx[m].locks + 1)]), Done)
    else if ms.mx[m].holder != None then (ms, EBUSY)
    else (Take(ms, m, c), Done)
  }

  /** The hand-off of mutex_unlock when sched_wakeone reports `rep`. */
  function HandOff(ms: MState, m: Mid, rep: Option<Tid>): MState
    requires m in ms.mx && Known(SleepQ(ms.s.sleepq, m), ms.s.threads)
    requires rep.Some? ==> rep.value in ms.s.threads
  {
    var s := Wakeone(ms.s, m);
    match rep
    case None => ms.(s := s, mx := ms.mx[m := Mutex(None, MINPRI, 0)])
    case Some(t) =>
      ms.(s := s, waiting := ms.waiting - {t},
          mx := ms.mx[m := Mutex(Some(t), ms.s.threads[t].priority, 0)])
  }

  /** The last unlock up to the hand-off. */
  function Release(ms: MState, m: Mid): MState
    requires ms.s.cur in ms.s.threads && m in ms.mx
  {
    var c := ms.s.cur;
    PrioUninherit(ms.(mx := ms.mx[m := ms.mx[m].(locks := 0)],
                      held := ms.held[c := Remove(HeldBy(ms.held, c), m)]), c)
  }

  function MutexUnlockReporting(ms: MState, m: Mid, rep: Option<Tid>): (MState, Result)
    requires ms.s.cur in ms.s.threads && Known(SleepQ(ms.s.sleepq, m), ms.s.threads)
    requires rep.Some? ==> rep.value in ms.s.threads
  {
    if m !in ms.mx then (ms, EINVAL)
    else if ms.mx[m].holder != Some(ms.s.cur) || ms.mx[m].locks == 0 then (ms, EPERM)
    else if ms.mx[m].locks > 1 then
      (ms.(mx := ms.mx[m := ms.mx[m].(locks := ms.mx[m].locks - 1)]), Done)
    else (HandOff(Release(ms, m), m, rep), Done)
  }

  /** mutex_unlock: sched_wakeone reports the thread it scanned last. */
  function MutexUnlock(ms: MState, m: Mid): (MState, Result)
    requires ms.s.cur in ms.s.threads && Known(SleepQ(ms.s.sleepq, m), ms.s.threads)
  {
    SleepLast(ms.s, m);
    MutexUnlockReporting(ms, m, WakeoneResult(ms.s, m))
  }

  lemma SleepLast(s: State, e: Event)
    requires Known(SleepQ(s.sleepq, e), s.threads)
    ensures WakeoneResult(s, e).Some? ==> WakeoneResult(s, e).value in s.threads
  {
  }

  /** mutex_init; `m` is the address of the new record. */
  function MutexInit(ms: MState, m: Mid): MState {
    ms.(mx := ms.mx[m := Mutex(None, MINPRI, 0)])
  }

  function MutexDestroy(ms: MState, m: Mid): (MState, Result) {
    if m !in ms.mx then (ms, EINVAL)
    else if ms.mx[m].holder.Some? || SleepQ(ms.s.sleepq, m) != [] then (ms, EBUSY)
    else (ms.(mx := ms.mx - {m}), Done)
  }

  /** A boosted thread is not lowered: its boost becomes what it asked for. */
  function ParamPri(th: Thread, p: Pri): Pri {
    if th.priority != th.basepri && p > th.priority then th.priority else p
  }

  /** mutex_setpri: a waiting thread about to improve boosts its holders first. */
  function MutexSetpri(ms: MState, t: Tid, pri: Pri): (r: MState)
    requires t in ms.s.threads && ms.s.cur in ms.s.threads
    requires t in ms.waiting ==> HopsKnown(ms, Inherited(ms, t).hops)
    ensures r.s.cur == ms.s.cur && r.s.threads.Keys == ms.s.threads.Keys
  {
    if t in ms.waiting && pri < ms.s.threads[t].priority then PrioInherit(ms, t) else ms
  }

  /** thread_schedparam(SOP_SETPRI) after its checks. */
  function SetParam(ms: MState, t: Tid, p: Pri): MState
    requires t in ms.s.threads && ms.s.cur in ms.s.threads
    requires t in ms.waiting ==> HopsKnown(ms, Inherited(ms, t).hops)
  {
    var pri := ParamPri(ms.s.threads[t], p);
    var r := MutexSetpri(ms, t, pri);
    r.(s := SetPri(r.s, t, pri, pri))
  }
}
