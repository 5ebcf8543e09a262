/** Who runs next, and who comes first among equals: what sched_swtch does with the
    thread it switches away from, and what follows for runs. */
module SchedTurn {
  import opened Lists
  import opened Sched
  import opened SchedInv
  import opened SchedSwitch
  import opened SchedRuns

  // ----- One switch -----

  /** The levels other than that of `c`, and other than the one dequeued, are untouched. */
  ghost predicate OtherLevels(s: State, r: State, p: Pri, b: Pri) {
    forall i :: 0 <= i < NPRI && i != p && i != b ==> r.runq[i] == s.runq[i]
  }

  /** A thread that can go on but is worse than a ready one stays first of its level; the
      first of the best level runs. */
  lemma PreemptedFirst(s: State, at: Resume)
    requires SwtchReady(s, at) && s.cur in s.threads && s.threads[s.cur].Run() && s.maxpri < s.threads[s.cur].priority
    ensures var (r, c, b) := (SwitchAway(s, at), s.cur, s.maxpri);
      var p := s.threads[c].priority;
      && s.runq[b] != [] && [r.cur] + r.runq[b] == s.runq[b]
      && r.runq[p] == [c] + s.runq[p] && OtherLevels(s, r, p, b)
  {
    hide Inv, Queues, Kept, Follows, ResumeOk;
    SwtchOk(s, at);
    hide Best;
  }

  /** One that is no better than the best ready thread, as when its quantum is over or it
      yields, becomes the last of its level. */
  lemma EqualLast(s: State, at: Resume)
    requires SwtchReady(s, at) && s.cur in s.threads && s.threads[s.cur].Run() && s.threads[s.cur].priority == s.maxpri
    ensures var (r, c, p) := (SwitchAway(s, at), s.cur, s.maxpri);
      [r.cur] + r.runq[p] == s.runq[p] + [c] && OtherLevels(s, r, p, p)
  {
    hide Inv, Queues, Kept, Follows, ResumeOk;
    SwtchOk(s, at);
    hide Best;
  }

  /** One that is better than all ready threads runs on. */
  lemma BestStays(s: State, at: Resume)
    requires SwtchReady(s, at) && s.cur in s.threads && s.threads[s.cur].Run() && s.threads[s.cur].priority < s.maxpri
    ensures SwitchAway(s, at).cur == s.cur && SwitchAway(s, at).runq == s.runq
  {
    hide Inv, Queues, Kept, Follows, ResumeOk;
    SwtchOk(s, at);
    BelowBest(s.runq);
    hide Best;
    var p := s.threads[s.cur].priority;
    assert s.runq[p] == [];
  }

  /** One that cannot go on leaves the run queues to the others. */
  lemma BlockedLeaves(s: State, at: Resume)
    requires SwtchReady(s, at) && s.cur in s.threads && !s.threads[s.cur].Run()
    ensures var (r, b) := (SwitchAway(s, at), s.maxpri);
      s.runq[b] != [] && [r.cur] + r.runq[b] == s.runq[b] && OtherLevels(s, r, b, b)
  {
    hide Inv, Queues, Kept, Follows, ResumeOk;
    SwtchOk(s, at);
    hide Best;
  }

  lemma BelowBest(q: RunQ)
    ensures forall p :: 0 <= p < Best(q) ==> q[p] == []
  {
  }

  // ----- The threads that get the processor in a run -----

  datatype Pick = Pick(t: Tid, pri: Pri)

  function Now(s: State): Pick
    requires s.cur in s.threads
  {
    Pick(s.cur, s.threads[s.cur].priority)
  }

  ghost function PicksLoop(s: State): seq<Pick>
    requires Inv(s) && s.wakeq == [] && s.cur in s.threads && s.threads[s.cur].locks == 1
    decreases |s.pending|, 1
  {
    InvReady(s);
    hide Inv, Follows, SwtchReady, ResumeOk, Kept;
    if !s.threads[s.cur].resched then []
    else
      var n := SwitchAway(s, InUnlock);
      [Now(n)] + PicksAfter(n)
  }

  ghost function PicksAfter(s: State): seq<Pick>
    requires Settled(s) && s.cur in s.threads && ResumeOk(s.threads[s.cur])
    decreases |s.pending|, 0
  {
    hide Inv, Follows, Kept;
    match s.threads[s.cur].resume
    case Entry => []
    case InSleep => []
    case InUnlock => if s.pending == [] then [] else PicksLoop(Window(s))
  }

  ghost function PicksUnlock(s: State): seq<Pick>
    requires Inv(s) && s.cur in s.threads && s.threads[s.cur].locks > 0
  {
    InvReady(s);
    InvIsMidway(s);
    hide Inv, Follows, Midway, Kept;
    if s.threads[s.cur].locks == 1 then
      InvIsMidway(FlushAll(s));
      PicksLoop(FlushAll(s))
    else []
  }

  ghost function PicksSleep(s: State, e: Event, timed: bool): seq<Pick>
    requires Inv(s) && s.cur != IDLE && s.cur in s.threads && !s.threads[s.cur].exit
  {
    hide SwtchReady, Inv, Follows, Kept, ResumeOk;
    var n := SwitchAway(GoToSleep(s, e, timed), InSleep);
    [Now(n)] + PicksAfter(n)
  }

  /** The threads switched to by one operation, in order. */
  ghost function PicksOf(s: State, op: Op): seq<Pick>
    requires Inv(s) && s.cur in s.threads && Can(s, op)
  {
    hide Inv;
    match op
    case OpUnlock => PicksUnlock(s)
    case OpSleep(e, timed) => PicksSleep(s, e, timed)
    case _ => []
  }

  ghost function Picks(s: State, ops: seq<Op>): seq<Pick>
    requires Inv(s) && s.cur in s.threads
    decreases |ops|
  {
    hide Inv, Do, PicksOf, Can;
    if ops == [] then []
    else if Can(s, ops[0]) then PicksOf(s, ops[0]) + Picks(Do(s, ops[0]), ops[1..])
    else Picks(s, ops[1..])
  }

  // ----- First among equals -----

  /** `c` is the first ready thread of its level, and the current thread is of another. */
  ghost predicate First(s: State, c: Tid) {
    && c in s.threads && s.cur in s.threads && c != s.cur
    && var p := s.threads[c].priority;
       s.runq[p] != [] && s.runq[p][0] == c && s.threads[s.cur].priority != p
  }

  /** `c` has kept its priority. */
  ghost predicate SameLevel(s: State, r: State, c: Tid) {
    c in s.threads && c in r.threads && r.threads[c].priority == s.threads[c].priority
  }

  /** Nobody of level `p` is picked before `c`. */
  ghost predicate InTurn(log: seq<Pick>, c: Tid, p: Pri) {
    forall j :: 0 <= j < |log| && log[j].pri == p ==> Picked(log[..j + 1], c)
  }

  ghost predicate Picked(log: seq<Pick>, c: Tid) {
    exists i :: 0 <= i < |log| && log[i].t == c
  }

  lemma TurnJoin(a: seq<Pick>, b: seq<Pick>, c: Tid, p: Pri)
    requires InTurn(a, c, p) && (!Picked(a, c) ==> InTurn(b, c, p))
    ensures InTurn(a + b, c, p) && (Picked(a + b, c) <==> Picked(a, c) || Picked(b, c))
  {
    var l := a + b;
    forall j | 0 <= j < |l| && l[j].pri == p ensures Picked(l[..j + 1], c) {
      if j < |a| {
        assert l[..j + 1] == a[..j + 1];
      } else if Picked(a, c) {
        var i :| 0 <= i < |a| && a[i].t == c;
        assert l[..j + 1][i].t == c;
      } else {
        assert l[..j + 1] == a + b[..j - |a| + 1];
        PickedRight(a, b[..j - |a| + 1], c);
      }
    }
    if Picked(a, c) {
      var i :| 0 <= i < |a| && a[i].t == c;
      assert l[i].t == c;
    }
    if Picked(b, c) {
      PickedRight(a, b, c);
    }
    if Picked(l, c) {
      var i :| 0 <= i < |l| && l[i].t == c;
      assert if i < |a| then a[i].t == c else b[i - |a|].t == c;
    }
  }

  lemma PickedRight(a: seq<Pick>, b: seq<Pick>, c: Tid)
    requires Picked(b, c)
    ensures Picked(a + b, c)
  {
    var i :| 0 <= i < |b| && b[i].t == c;
    assert (a + b)[|a| + i].t == c;
  }

  /** Only the tail of its level has grown, if anything. */
  lemma FirstKept(s: State, r: State, c: Tid)
    requires First(s, c) && r.cur == s.cur && Kept(s.threads, r.threads)
    requires s.runq[s.threads[c].priority] <= r.runq[s.threads[c].priority]
    ensures First(r, c) && SameLevel(s, r, c)
  {
  }

  /** A switch picks `c` before any other thread of its level. */
  lemma SwitchFirst(s: State, at: Resume, c: Tid)
    requires First(s, c) && SwtchReady(s, at)
    ensures var n, p := SwitchAway(s, at), s.threads[c].priority;
      && c in n.threads && n.threads[c].priority == p
      && (if n.threads[n.cur].priority == p then n.cur == c else First(n, c))
  {
    hide Inv, Queues, Kept, ResumeOk, Follows;
    SwtchOk(s, at);
    RequeueThreads(s, at);
    PickedLevel(s, at);
    hide Best;
  }

  lemma PickedLevel(s: State, at: Resume)
    requires SwtchReady(s, at)
    ensures var n := SwitchAway(s, at);
      s.cur in s.threads && n.cur in n.threads && n.threads[n.cur].priority == Requeue(s, at).maxpri
  {
    RequeueOk(s, at);
    SwtchOk(s, at);
    RequeueThreads(s, at);
    hide Requeue, Best, Inv, Kept, WakeqOk, SleepqOk, SleepersOk, ExitOk, ResumeOk;
    var s1 := Requeue(s, at);
    assert s1.runq[s1.maxpri][0] in s1.runq[s1.maxpri];
  }

  lemma {:induction false} FlushFirst(s: State, c: Tid)
    requires First(s, c) && s.cur in s.threads && Known(s.wakeq, s.threads)
    ensures First(Flush(s), c) && SameLevel(s, Flush(s), c)
    decreases |s.wakeq|
  {
    if s.wakeq != [] {
      var f := FlushOne(s);
      FlushOneTail(s, s.threads[c].priority);
      FirstKept(s, f, c);
      hide FlushOne, First, Kept;
      KeptKnown(s, f);
      FlushFirst(f, c);
    }
  }

  lemma KeptKnown(s: State, r: State)
    requires s.wakeq != [] && Known(s.wakeq, s.threads) && Kept(s.threads, r.threads) && r.wakeq == s.wakeq[1..]
    ensures Known(r.wakeq, r.threads)
  {
  }

  lemma FlushOneTail(s: State, p: Pri)
    requires s.cur in s.threads && s.wakeq != [] && s.wakeq[0] in s.threads
    ensures s.runq[p] <= FlushOne(s).runq[p]
  {
  }

  lemma {:induction false} IsrQueues(s: State, es: seq<Event>)
    requires Inv(s)
    ensures Isr(s, es).runq == s.runq
    decreases |es|
  {
    InvReady(s);
    hide Inv, Kept;
    if es != [] {
      SleepKnown(s, es[0]);
      WakeupOk(s, es[0]);
      hide Wakeup;
      IsrQueues(Wakeup(s, es[0]), es[1..]);
    }
  }

  lemma FlushAllFirst(s: State, c: Tid)
    requires First(s, c) && Midway(s)
    ensures First(FlushAll(s), c) && SameLevel(s, FlushAll(s), c)
  {
    assert s.cur in s.threads;
    hide Midway, First, Kept, Follows, Flush;
    WakeqKnown(s);
    FlushFirst(s, c);
  }

  lemma WindowFirst(s: State, c: Tid)
    requires First(s, c) && Inv(s) && s.pending != []
    ensures First(Window(s), c) && SameLevel(s, Window(s), c)
  {
    hide Inv, First, Kept, Follows, Midway, FlushAll, Isr;
    PendingOk(s, s.pending[1..]);
    var s0 := s.(pending := s.pending[1..]);
    var s1 := Isr(s0, s.pending[0]);
    IsrQueues(s0, s.pending[0]);
    KeptRefl(s.threads);
    FirstKept(s, s0, c);
    FirstKept(s0, s1, c);
    InvReady(s1);
    InvIsMidway(s1);
    FlushAllFirst(s1, c);
  }

  /** What holds of a stretch of a run that starts with `c` first of its level. */
  ghost predicate Turn(s: State, log: seq<Pick>, r: State, c: Tid) {
    && c in s.threads && c in r.threads && InTurn(log, c, s.threads[c].priority)
    && (Picked(log, c) || (First(r, c) && SameLevel(s, r, c)))
  }

  lemma TurnTrans(a: State, x: seq<Pick>, b: State, y: seq<Pick>, d: State, c: Tid)
    requires Turn(a, x, b, c) && (Picked(x, c) || Turn(b, y, d, c)) && c in d.threads
    ensures Turn(a, x + y, d, c)
  {
    hide First, InTurn, Picked;
    TurnJoin(x, y, c, a.threads[c].priority);
  }

  lemma TurnNone(s: State, r: State, c: Tid)
    requires First(s, c) && First(r, c) && SameLevel(s, r, c)
    ensures Turn(s, [], r, c)
  {
  }

  lemma TurnPick(s: State, n: State, c: Tid)
    requires First(s, c) && c in n.threads && n.cur in n.threads && n.threads[c].priority == s.threads[c].priority
    requires if n.threads[n.cur].priority == s.threads[c].priority then n.cur == c else First(n, c)
    ensures Turn(s, [Now(n)], n, c)
  {
    var log := [Now(n)];
    assert log[..1] == log;
    assert n.cur == c ==> log[0].t == c;
  }

  lemma DropFirst(s: State, c: Tid)
    requires First(s, c) && Inv(s) && s.cur in s.threads && s.threads[s.cur].locks > 0
    ensures Turn(s, [], DropLock(s), c)
  {
    KeptLock(s);
    FirstKept(s, DropLock(s), c);
    hide First, Inv;
    TurnNone(s, DropLock(s), c);
  }

  lemma StillThere(s: State, r: State, c: Tid)
    requires Follows(s, r) && c in s.threads
    ensures c in r.threads
  {
  }

  lemma {:induction false} LoopTurn(s: State, c: Tid)
    requires First(s, c) && Inv(s) && s.wakeq == [] && s.cur in s.threads && s.threads[s.cur].locks == 1
    ensures Turn(s, PicksLoop(s), UnlockLoop(s), c)
    decreases |s.pending|, 2
  {
    InvReady(s);
    hide Inv, First, Kept, Follows, SwtchReady, ResumeOk, Turn, InTurn, Picked;
    if !s.threads[s.cur].resched {
      DropFirst(s, c);
    } else {
      SwitchThen(s, InUnlock, c);
      hide SwitchAway, Resumed, PicksAfter;
    }
  }

  /** A switch, and what the thread switched to does up to its return. */
  lemma {:induction false} SwitchThen(s: State, at: Resume, c: Tid)
    requires First(s, c) && SwtchReady(s, at) && s.wakeq == []
    ensures var n := SwitchAway(s, at); Turn(s, [Now(n)] + PicksAfter(n), Resumed(n), c)
    decreases |s.pending|, 1
  {
    hide Inv, Kept, SwtchReady, ResumeOk, InTurn, First, Picked, Turn, Follows;
    var n := SwitchAway(s, at);
    SwitchFirst(s, at, c);
    hide SwitchAway;
    SwitchTurn(s, n, c);
    if !Picked([Now(n)], c) {
      AfterTurn(n, c);
    }
    StillThere(n, Resumed(n), c);
    hide Resumed, PicksAfter;
    TurnTrans(s, [Now(n)], n, PicksAfter(n), Resumed(n), c);
  }

  lemma SwitchTurn(s: State, n: State, c: Tid)
    requires First(s, c) && c in n.threads && n.cur in n.threads && n.threads[c].priority == s.threads[c].priority
    requires if n.threads[n.cur].priority == s.threads[c].priority then n.cur == c else First(n, c)
    ensures Turn(s, [Now(n)], n, c) && (Picked([Now(n)], c) || First(n, c))
  {
    TurnPick(s, n, c);
    if n.cur == c {
      assert [Now(n)][0].t == c;
    }
  }

  lemma {:induction false} AfterTurn(s: State, c: Tid)
    requires First(s, c) && Settled(s) && s.cur in s.threads && ResumeOk(s.threads[s.cur])
    ensures Turn(s, PicksAfter(s), Resumed(s), c)
    decreases |s.pending|, 0
  {
    hide Inv, Kept, Follows, First, Turn, SameLevel;
    match s.threads[s.cur].resume
    case Entry => TurnSelf(s, c);
    case InSleep => DropFirst(s, c);
    case InUnlock =>
      if s.pending == [] {
        DropFirst(s, c);
      } else {
        WindowFirst(s, c);
        LoopTurn(Window(s), c);
        TurnFrom(s, Window(s), c, PicksLoop(Window(s)), UnlockLoop(Window(s)));
        hide Window, UnlockLoop, PicksLoop;
      }
  }

  lemma TurnSelf(s: State, c: Tid)
    requires First(s, c)
    ensures Turn(s, [], s, c)
  {
  }

  lemma TurnFrom(s: State, f: State, c: Tid, log: seq<Pick>, r: State)
    requires SameLevel(s, f, c) && Turn(f, log, r, c)
    ensures Turn(s, log, r, c)
  {
    hide First;
  }

  lemma UnlockTurn(s: State, c: Tid)
    requires First(s, c) && Inv(s) && s.cur in s.threads && s.threads[s.cur].locks > 0
    ensures Turn(s, PicksUnlock(s), Unlock(s), c)
  {
    InvReady(s);
    InvIsMidway(s);
    hide Inv, Kept, Follows, Midway, First, Turn, SameLevel;
    if s.threads[s.cur].locks == 1 {
      var f := FlushAll(s);
      FlushAllFirst(s, c);
      InvIsMidway(f);
      LoopTurn(f, c);
      TurnFrom(s, f, c, PicksLoop(f), UnlockLoop(f));
      hide FlushAll, UnlockLoop, PicksLoop;
    } else {
      DropFirst(s, c);
    }
  }

  lemma SleepTurn(s: State, e: Event, timed: bool, c: Tid)
    requires First(s, c) && Inv(s) && s.cur != IDLE && s.cur in s.threads && !s.threads[s.cur].exit
    ensures Turn(s, PicksSleep(s, e, timed), Tsleep(s, e, timed), c)
  {
    hide Inv, Kept, Follows, Midway, SwtchReady, ResumeOk, First, Turn, SameLevel;
    var q := QueueSelf(s, e, timed);
    var g := GoToSleep(s, e, timed);
    assert g == FlushAll(q);
    QueueFirst(s, e, timed, c);
    FlushAllFirst(q, c);
    LevelTrans(s, q, g, c);
    SwitchThen(g, InSleep, c);
    var n := SwitchAway(g, InSleep);
    TurnFrom(s, g, c, [Now(n)] + PicksAfter(n), Resumed(n));
    hide FlushAll, SwitchAway, Resumed, GoToSleep, QueueSelf, PicksAfter;
  }

  lemma LevelTrans(s: State, q: State, r: State, c: Tid)
    requires SameLevel(s, q, c) && SameLevel(q, r, c)
    ensures SameLevel(s, r, c)
  {
  }

  lemma QueueFirst(s: State, e: Event, timed: bool, c: Tid)
    requires First(s, c) && Inv(s) && s.cur != IDLE && s.cur in s.threads && !s.threads[s.cur].exit
    ensures var q := QueueSelf(s, e, timed); First(q, c) && SameLevel(s, q, c)
  {
    hide Inv, Midway;
    FirstKept(s, QueueSelf(s, e, timed), c);
  }

  // ----- Whole runs -----

  /** The operation neither takes `c` from its queue nor brings the running thread to
      level `p` by a change of priority. */
  ghost predicate Respects(s: State, op: Op, c: Tid, p: Pri) {
    match op
    case OpSuspend(t) => t != c
    case OpStop(t) => t != c
    case OpSetPri(t, _, pri) => t != c && (t == s.cur ==> pri != p)
    case _ => true
  }

  lemma MinorFirst(s: State, op: Op, c: Tid)
    requires First(s, c) && Inv(s) && s.cur in s.threads && Can(s, op)
    requires op.OpLock? || op.OpWakeone? || op.OpUnsleep? || op.OpYield? || op.OpTick? || op.OpCreate?
    ensures First(Do(s, op), c) && SameLevel(s, Do(s, op), c)
  {
    hide Inv;
    if op.OpWakeone? {
      SleepKnown(s, op.e);
    }
  }

  lemma SuspendFirst(s: State, t: Tid, c: Tid)
    requires First(s, c) && t in s.threads
    ensures t != c ==> First(Suspend(s, t), c) && SameLevel(s, Suspend(s, t), c)
    ensures First(ResumeThread(s, t), c) && SameLevel(s, ResumeThread(s, t), c)
  {
    hide Best;
  }

  lemma StopFirst(s: State, t: Tid, c: Tid)
    requires First(s, c) && t in s.threads && t != c
    ensures First(Stop(s, t), c) && SameLevel(s, Stop(s, t), c)
  {
    hide Best;
  }

  lemma SetPriFirst(s: State, t: Tid, b: Pri, pri: Pri, c: Tid)
    requires First(s, c) && t in s.threads && t != c && (t == s.cur ==> pri != s.threads[c].priority)
    ensures First(SetPri(s, t, b, pri), c) && SameLevel(s, SetPri(s, t, b, pri), c)
  {
    hide Best;
  }

  lemma StillFirst(s: State, op: Op, c: Tid)
    requires First(s, c) && Inv(s) && s.cur in s.threads && Can(s, op) && Respects(s, op, c, s.threads[c].priority)
    requires !op.OpUnlock? && !op.OpSleep?
    ensures First(Do(s, op), c) && SameLevel(s, Do(s, op), c)
  {
    hide Inv, Follows, Settled, Best, First, SameLevel, SetPri, Suspend, ResumeThread, Stop;
    match op
    case OpWakeup(e) => SleepKnown(s, e); FirstKept(s, Wakeup(s, e), c);
    case OpSetPri(t, b, pri) => SetPriFirst(s, t, b, pri, c);
    case OpSuspend(t) => SuspendFirst(s, t, c);
    case OpResume(t) => SuspendFirst(s, t, c);
    case OpStop(t) => StopFirst(s, t, c);
    case _ => MinorFirst(s, op, c);
  }

  lemma OpTurn(s: State, op: Op, c: Tid)
    requires First(s, c) && Inv(s) && s.cur in s.threads && Can(s, op) && Respects(s, op, c, s.threads[c].priority)
    ensures Turn(s, PicksOf(s, op), Do(s, op), c)
  {
    hide Inv, Kept, Follows, First, Turn, Settled, Best;
    match op
    case OpUnlock => UnlockTurn(s, c);
    case OpSleep(e, timed) => SleepTurn(s, e, timed, c);
    case _ => StillFirst(s, op, c); TurnNone(s, Do(s, op), c);
  }

  /** Until `c` has been picked, every operation respects its turn. */
  ghost predicate Respected(s: State, ops: seq<Op>, c: Tid)
    requires Inv(s) && s.cur in s.threads
    decreases |ops|
  {
    hide Inv, Do, PicksOf, Can;
    if ops == [] then true
    else if Can(s, ops[0]) then
      && c in s.threads && Respects(s, ops[0], c, s.threads[c].priority)
      && (Picked(PicksOf(s, ops[0]), c) || Respected(Do(s, ops[0]), ops[1..], c))
    else Respected(s, ops[1..], c)
  }

  /** A thread that was displaced by a better one runs before every other thread of its
      priority, whatever the threads and interrupts do meanwhile. */
  lemma {:induction false} FirstAmongEquals(s: State, ops: seq<Op>, c: Tid)
    requires Inv(s) && s.cur in s.threads && First(s, c) && Respected(s, ops, c)
    ensures Turn(s, Picks(s, ops), Exec(s, ops), c)
    decreases |ops|
  {
    hide Inv, Do, PicksOf, Can, First, Turn, Picked, Respects;
    if ops == [] {
      TurnSelf(s, c);
    } else if Can(s, ops[0]) {
      var r := Do(s, ops[0]);
      var log := PicksOf(s, ops[0]);
      OpTurn(s, ops[0], c);
      TurnThere(s, log, r, c);
      ExecThere(r, ops[1..], c);
      if !Picked(log, c) {
        FirstAmongEquals(r, ops[1..], c);
      }
      TurnTrans(s, log, r, Picks(r, ops[1..]), Exec(r, ops[1..]), c);
    } else {
      FirstAmongEquals(s, ops[1..], c);
    }
  }

  lemma TurnThere(s: State, log: seq<Pick>, r: State, c: Tid)
    requires Turn(s, log, r, c)
    ensures c in r.threads && (Picked(log, c) || First(r, c))
  {
  }

  lemma {:induction false} ExecThere(s: State, ops: seq<Op>, c: Tid)
    requires Inv(s) && s.cur in s.threads && c in s.threads
    ensures c in Exec(s, ops).threads
    decreases |ops|
  {
    hide Inv, Do, Can;
    if ops != [] {
      if Can(s, ops[0]) {
        DoThere(s, ops[0], c);
        ExecThere(Do(s, ops[0]), ops[1..], c);
      } else {
        ExecThere(s, ops[1..], c);
      }
    }
  }

  lemma DoThere(s: State, op: Op, c: Tid)
    requires Inv(s) && s.cur in s.threads && Can(s, op) && c in s.threads
    ensures c in Do(s, op).threads
  {
    hide Inv, Settled, Best;
    match op
    case OpUnlock => StillThere(s, Unlock(s), c);
    case OpWakeup(e) => SleepKnown(s, e);
    case OpWakeone(e) => SleepKnown(s, e);
    case OpSetPri(t, b, pri) => SetPriFrame(s, t, b, pri);
    case _ =>
  }

  /** The thread displaced by a better one is the first of its level. */
  lemma Displaced(s: State, at: Resume)
    requires SwtchReady(s, at) && s.cur in s.threads && s.threads[s.cur].Run() && s.maxpri < s.threads[s.cur].priority
    ensures First(SwitchAway(s, at), s.cur) && SameLevel(s, SwitchAway(s, at), s.cur)
  {
    hide Inv, Queues, Kept, ResumeOk, Follows;
    SwtchOk(s, at);
    RequeueThreads(s, at);
    PickedLevel(s, at);
    hide Best;
  }

  lemma RestTurn(n: State, ops: seq<Op>, c: Tid)
    requires Settled(n) && n.cur in n.threads && ResumeOk(n.threads[n.cur]) && First(n, c)
    requires Resumed(n).cur in Resumed(n).threads && Respected(Resumed(n), ops, c)
    ensures Turn(n, PicksAfter(n) + Picks(Resumed(n), ops), Exec(Resumed(n), ops), c)
  {
    hide Inv, Kept, ResumeOk, First, Turn, Picked, Follows, Respected, SameLevel;
    AfterTurn(n, c);
    var r := Resumed(n);
    TurnThere(n, PicksAfter(n), r, c);
    hide Resumed, PicksAfter;
    ExecThere(r, ops, c);
    if !Picked(PicksAfter(n), c) {
      FirstAmongEquals(r, ops, c);
    }
    TurnTrans(n, PicksAfter(n), r, Picks(r, ops), Exec(r, ops), c);
  }

  /** So a thread that loses the processor to a better one gets it back before any other
      thread of its priority: in the rest of the operation and in the run after it. */
  lemma PreemptedRunsFirst(s: State, at: Resume, ops: seq<Op>)
    requires SwtchReady(s, at) && s.wakeq == [] && s.cur in s.threads
    requires s.threads[s.cur].Run() && s.maxpri < s.threads[s.cur].priority
    ensures Resumed(SwitchAway(s, at)).cur in Resumed(SwitchAway(s, at)).threads
    ensures var n := SwitchAway(s, at);
      Respected(Resumed(n), ops, s.cur) ==>
        InTurn(PicksAfter(n) + Picks(Resumed(n), ops), s.cur, s.threads[s.cur].priority)
  {
    var c, n := s.cur, SwitchAway(s, at);
    Displaced(s, at);
    InvReady(Resumed(n));
    hide Inv, Kept, SwtchReady, ResumeOk, First, Turn, Picked, Follows, Respected, SameLevel, SwitchAway, Resumed, PicksAfter;
    if Respected(Resumed(n), ops, c) {
      RestTurn(n, ops, c);
      var log := PicksAfter(n) + Picks(Resumed(n), ops);
      TurnFrom(s, n, c, log, Exec(Resumed(n), ops));
      TurnOrder(s, log, Exec(Resumed(n), ops), c);
    }
  }

  lemma TurnOrder(s: State, log: seq<Pick>, r: State, c: Tid)
    requires Turn(s, log, r, c)
    ensures c in s.threads && InTurn(log, c, s.threads[c].priority)
  {
  }

  // ----- The record is that of the run -----

  /** The thread picked last is the one that runs. */
  ghost predicate Ends(s: State, log: seq<Pick>, r: State) {
    r.cur == if log == [] then s.cur else log[|log| - 1].t
  }

  lemma EndsTrans(a: State, x: seq<Pick>, b: State, y: seq<Pick>, c: State)
    requires Ends(a, x, b) && Ends(b, y, c)
    ensures Ends(a, x + y, c)
  {
  }

  lemma {:induction false} LoopEnds(s: State)
    requires Inv(s) && s.wakeq == [] && s.cur in s.threads && s.threads[s.cur].locks == 1
    ensures Ends(s, PicksLoop(s), UnlockLoop(s))
    decreases |s.pending|, 1
  {
    InvReady(s);
    hide Inv, Kept, Follows, SwtchReady, ResumeOk;
    if s.threads[s.cur].resched {
      var n := SwitchAway(s, InUnlock);
      AfterEnds(n);
      hide SwitchAway, Resumed, PicksAfter;
      EndsTrans(s, [Now(n)], n, PicksAfter(n), Resumed(n));
    }
  }

  lemma {:induction false} AfterEnds(s: State)
    requires Settled(s) && s.cur in s.threads && ResumeOk(s.threads[s.cur])
    ensures Ends(s, PicksAfter(s), Resumed(s))
    decreases |s.pending|, 0
  {
    hide Inv, Kept, Follows;
    if s.threads[s.cur].resume == InUnlock && s.pending != [] {
      LoopEnds(Window(s));
      hide Window, UnlockLoop, PicksLoop;
    }
  }

  lemma UnlockEnds(s: State)
    requires Inv(s) && s.cur in s.threads && s.threads[s.cur].locks > 0
    ensures Ends(s, PicksUnlock(s), Unlock(s))
  {
    InvReady(s);
    InvIsMidway(s);
    hide Inv, Kept, Follows, Midway;
    if s.threads[s.cur].locks == 1 {
      InvIsMidway(FlushAll(s));
      LoopEnds(FlushAll(s));
      hide UnlockLoop, PicksLoop, FlushAll;
    }
  }

  lemma SleepEnds(s: State, e: Event, timed: bool)
    requires Inv(s) && s.cur != IDLE && s.cur in s.threads && !s.threads[s.cur].exit
    ensures Ends(s, PicksSleep(s, e, timed), Tsleep(s, e, timed))
  {
    hide Inv, Kept, Follows, SwtchReady, ResumeOk;
    var n := SwitchAway(GoToSleep(s, e, timed), InSleep);
    AfterEnds(n);
    hide SwitchAway, Resumed, PicksAfter, GoToSleep;
    EndsTrans(s, [Now(n)], n, PicksAfter(n), Resumed(n));
  }

  lemma OpEnds(s: State, op: Op)
    requires Inv(s) && s.cur in s.threads && Can(s, op)
    ensures Ends(s, PicksOf(s, op), Do(s, op))
  {
    hide Inv, Kept, Follows, Settled, Best, RunqRemove, RunqEnqueue, Unlink;
    match op
    case OpUnlock => UnlockEnds(s);
    case OpSleep(e, timed) => SleepEnds(s, e, timed);
    case OpWakeup(e) => SleepKnown(s, e);
    case OpWakeone(e) => SleepKnown(s, e);
    case OpSetPri(t, b, pri) => SetPriFrame(s, t, b, pri);
    case OpResume(t) => SameCur(s, t);
    case OpSuspend(t) => SameCur(s, t);
    case OpStop(t) => SameCur(s, t);
    case OpUnsleep(t, ret) => SameCur(s, t);
    case _ =>
  }

  lemma SameCur(s: State, t: Tid)
    requires s.cur in s.threads && t in s.threads
    ensures ResumeThread(s, t).cur == s.cur && Suspend(s, t).cur == s.cur && Stop(s, t).cur == s.cur
    ensures forall ret :: Unsleep(s, t, ret).cur == s.cur
  {
    hide Best;
  }

  lemma {:induction false} PicksEnd(s: State, ops: seq<Op>)
    requires Inv(s) && s.cur in s.threads
    ensures Ends(s, Picks(s, ops), Exec(s, ops))
    decreases |ops|
  {
    hide Inv, Do, PicksOf, Can;
    if ops != [] && Can(s, ops[0]) {
      var r := Do(s, ops[0]);
      OpEnds(s, ops[0]);
      PicksEnd(r, ops[1..]);
      EndsTrans(s, PicksOf(s, ops[0]), r, Picks(r, ops[1..]), Exec(r, ops[1..]));
    } else if ops != [] {
      PicksEnd(s, ops[1..]);
    }
  }
}
