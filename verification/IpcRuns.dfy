/** Message passing over whole runs: the rendezvous, and when wake-ups are lost. */
module IpcRuns {
  import opened Lists
  import opened Ipc
  import opened IpcInv
  import opened IpcSteps

  // ----- Steps -----

  /** A step names the thread that makes it; priorities change and threads and
      objects appear at any time. */
  datatype IOp =
    | Send(c: Tid, o: Obj, size: int, user: bool, mapped: bool) | SendResume(c: Tid)
    | Receive(c: Tid, o: Obj, size: int, user: bool, copied: bool) | ReceiveResume(c: Tid, copied: bool)
    | Reply(c: Tid, o: Obj, size: int, user: bool, copied: bool)
    | SetPriority(c: Tid, pri: int) | NewThread(c: Tid, task: Task, pri: int) | NewObject(o: Obj, task: Task)

  /** Only threads that run make calls, and only woken threads go on. Exceptions,
      termination and object destruction do not occur. */
  predicate ICan(s: IState, op: IOp) {
    match op
    case Send(c, _, _, _, _) => c in s.th && s.th[c].wait == Out
    case SendResume(c) => c in s.th && s.th[c].wait == SendWoken
    case Receive(c, _, _, _, _) => c in s.th && s.th[c].wait == Out
    case ReceiveResume(c, _) => c in s.th && s.th[c].wait == RecvWoken
    case Reply(c, _, _, _, _) => c in s.th && s.th[c].wait == Out
    case SetPriority(c, _) => c in s.th
    case NewThread(c, _, _) => c !in s.th
    case NewObject(o, _) => o !in s.objs
  }

  function NewIThread(task: Task, pri: int): IThread {
    IThread(task, pri, Out, None, None, None, None, 0, 0)
  }

  ghost predicate Ready(s: IState, op: IOp) {
    && (op.ReceiveResume? ==> Looking(s, op.c, RecvObjOr(s, op.c)))
    && (forall o :: o in s.objs ==> InTable(s.objs[o].sendq, s.th) && InTable(s.objs[o].recvq, s.th))
    && (forall c :: c in s.th && s.th[c].sender.Some? ==> s.th[c].sender.value in s.th)
  }

  function RecvObjOr(s: IState, c: Tid): Obj {
    if c in s.th && s.th[c].recvobj.Some? then s.th[c].recvobj.value else 0
  }

  lemma ReadyOk(s: IState, op: IOp)
    requires IInv(s) && ICan(s, op)
    ensures Ready(s, op)
  {
    hide IInv;
    forall o | o in s.objs ensures InTable(s.objs[o].sendq, s.th) && InTable(s.objs[o].recvq, s.th) {
      KnownQueues(s, o);
    }
    forall c | c in s.th && s.th[c].sender.Some? ensures s.th[c].sender.value in s.th {
      SenderOf(s, c);
    }
    if op.ReceiveResume? {
      FieldsOf(s, op.c);
    }
  }

  ghost function IApply(s: IState, op: IOp): (IState, IResult)
    requires ICan(s, op) && Ready(s, op)
  {
    match op
    case Send(c, o, size, user, mapped) => MsgSend(s, c, o, size, user, mapped)
    case SendResume(c) => (MsgSendResume(s, c), Done)
    case Receive(c, o, size, user, copied) => MsgReceive(s, c, o, size, user, copied)
    case ReceiveResume(c, copied) => ReceiveLoop(s, c, RecvObjOr(s, c), copied)
    case Reply(c, o, size, user, copied) => MsgReply(s, c, o, size, user, copied)
    case SetPriority(c, pri) => (SetThread(s, c, s.th[c].(priority := pri)), Done)
    case NewThread(c, task, pri) => (SetThread(s, c, NewIThread(task, pri)), Done)
    case NewObject(o, task) => (s.(objs := s.objs[o := Object(task, [], [])]), Done)
  }

  lemma IApplyOk(s: IState, op: IOp)
    requires IInv(s) && ICan(s, op) && Ready(s, op)
    ensures IInv(IApply(s, op).0)
  {
    hide IInv, MsgSend, MsgReceive, MsgReply, ReceiveLoop, MsgSendResume, Top;
    match op
    case Send(c, o, size, user, mapped) => MsgSendOk(s, c, o, size, user, mapped);
    case SendResume(c) => MsgSendResumeOk(s, c);
    case Receive(c, o, size, user, copied) => MsgReceiveOk(s, c, o, size, user, copied);
    case ReceiveResume(c, copied) => ReceiveLoopOk(s, c, RecvObjOr(s, c), copied);
    case Reply(c, o, size, user, copied) => MsgReplyOk(s, c, o, size, user, copied);
    case SetPriority(c, pri) => SetPlain(s, c, s.th[c].(priority := pri));
    case NewThread(c, task, pri) => NewThreadOk(s, c, task, pri);
    case NewObject(o, task) => NewObjectOk(s, o, task);
  }

  lemma NewThreadOk(s: IState, c: Tid, task: Task, pri: int)
    requires IInv(s) && c !in s.th
    ensures IInv(SetThread(s, c, NewIThread(task, pri)))
  {
    hide StageOf, NoDup;
    var r := SetThread(s, c, NewIThread(task, pri));
    forall o | o in s.objs ensures Queues(r.th, o, s.objs[o]) {
      assert Queues(s.th, o, s.objs[o]);
    }
  }

  lemma NewObjectOk(s: IState, o: Obj, task: Task)
    requires IInv(s) && o !in s.objs
    ensures IInv(s.(objs := s.objs[o := Object(task, [], [])]))
  {
    hide Pairs, Stages;
    NewLocals(s.th, s.objs, o, task);
    NewQueues(s.th, s.objs, o, task);
  }

  lemma NewLocals(th: map<Tid, IThread>, objs: map<Obj, Object>, o: Obj, task: Task)
    requires Locals(th, objs)
    ensures Locals(th, objs[o := Object(task, [], [])])
  {
    hide Local;
  }

  lemma NewQueues(th: map<Tid, IThread>, objs: map<Obj, Object>, o: Obj, task: Task)
    requires Locals(th, objs) && AllQueues(th, objs) && o !in objs
    ensures AllQueues(th, objs[o := Object(task, [], [])])
  {
    hide Local;
  }

  // ----- Lost wake-ups -----

  lemma WokenSet(th: map<Tid, IThread>, t: Tid, x: IThread, o: Obj)
    requires t in th
    ensures Woken(th[t := x], o) ==
      if x.wait == RecvWoken && x.recvobj == Some(o) then Woken(th, o) + {t} else Woken(th, o) - {t}
  {
  }

  lemma SetSize(a: set<Tid>, t: Tid)
    ensures |a + {t}| == |a| + (if t in a then 0 else 1)
    ensures |a - {t}| == |a| - (if t in a then 1 else 0)
  {
    if t in a {
      assert a + {t} == a;
    } else {
      assert a - {t} == a;
    }
  }

  /** Nothing about other objects has changed. */
  ghost predicate OnlyAt(s: IState, r: IState, o: Obj) {
    && r.objs.Keys == s.objs.Keys
    && forall p :: p in s.objs && p != o ==>
         |r.objs[p].sendq| == |s.objs[p].sendq| && r.objs[p].recvq == s.objs[p].recvq && Woken(r.th, p) == Woken(s.th, p)
  }

  predicate AttendedAt(s: IState, o: Obj)
    requires o in s.objs
  {
    s.objs[o].recvq != [] ==> |s.objs[o].sendq| <= |Woken(s.th, o)|
  }

  lemma AttendedOnly(s: IState, r: IState, o: Obj)
    requires Attended(s) && OnlyAt(s, r, o) && o in s.objs
    ensures Attended(r) <==> AttendedAt(r, o)
  {
    hide Woken;
    if AttendedAt(r, o) {
      forall p | p in r.objs ensures AttendedAt(r, p) {
        assert p != o ==> AttendedAt(s, p);
      }
    } else {
      assert r.objs[o].recvq != [];
    }
  }

  lemma WokenNot(th: map<Tid, IThread>, t: Tid, p: Obj)
    requires t in th && !(th[t].wait == RecvWoken && th[t].recvobj == Some(p))
    ensures Woken(th, p) - {t} == Woken(th, p) && t !in Woken(th, p)
  {
  }

  /** A thread that is not a woken receiver before and after. */
  lemma SetNotWoken(th: map<Tid, IThread>, t: Tid, x: IThread)
    requires t in th && th[t].wait != RecvWoken && x.wait != RecvWoken
    ensures forall p :: Woken(th[t := x], p) == Woken(th, p)
  {
    hide Woken;
    forall p ensures Woken(th[t := x], p) == Woken(th, p) {
      WokenSet(th, t, x, p);
      WokenNot(th, t, p);
    }
  }

  lemma OnlyTrans(a: IState, b: IState, c: IState, o: Obj)
    requires OnlyAt(a, b, o) && OnlyAt(b, c, o)
    ensures OnlyAt(a, c, o)
  {
    hide Woken;
  }

  /** Nothing about any object has changed but, perhaps, its receivers on the way. */
  ghost predicate SameCounts(s: IState, r: IState) {
    && r.objs.Keys == s.objs.Keys
    && forall p :: p in s.objs ==>
         |r.objs[p].sendq| == |s.objs[p].sendq| && r.objs[p].recvq == s.objs[p].recvq && Woken(r.th, p) == Woken(s.th, p)
  }

  lemma SameAttended(s: IState, r: IState)
    requires Attended(s) && SameCounts(s, r)
    ensures Attended(r)
  {
    hide Woken;
  }

  /** A sender brings a receiver on its way, if one sleeps. */
  lemma WakeCounts(s: IState, o: Obj)
    requires IInv(s) && o in s.objs && InTable(s.objs[o].recvq, s.th)
    ensures var (r, q) := (WakeReceiver(s, o), s.objs[o].recvq);
      && OnlyAt(s, r, o) && o in r.objs && r.objs[o].sendq == s.objs[o].sendq
      && (q == [] ==> r == s) && (q != [] ==> |Woken(r.th, o)| == |Woken(s.th, o)| + 1)
      && |r.objs[o].recvq| <= |q|
  {
    hide IInv, Woken, Top, Remove, NoDup;
    KnownQueues(s, o);
    var q := s.objs[o].recvq;
    if q != [] {
      var t := Top(s.th, q);
      WakeIs(s, o);
      FieldsOf(s, t);
      RemoveOk(q, t);
      var x := s.th[t].(wait := RecvWoken);
      forall p ensures Woken(s.th[t := x], p) == if p == o then Woken(s.th, o) + {t} else Woken(s.th, p) {
        WokenSet(s.th, t, x, p);
        WokenNot(s.th, t, p);
      }
      WokenNot(s.th, t, o);
      SetSize(Woken(s.th, o), t);
    }
  }

  lemma SendAttended(s: IState, c: Tid, o: Obj, size: int, user: bool, mapped: bool)
    requires IInv(s) && Attended(s) && c in s.th && s.th[c].wait == Out
    requires o in s.objs ==> InTable(s.objs[o].recvq, s.th)
    ensures Attended(MsgSend(s, c, o, size, user, mapped).0)
  {
    hide IInv, WakeReceiver, Woken, Attended;
    if o in s.objs {
      var s0 := SetThread(s, c, s.th[c].(msgsize := size));
      SetPlain(s, c, s.th[c].(msgsize := size));
      SetNotWoken(s.th, c, s.th[c].(msgsize := size));
      KnownQueues(s0, o);
      WakeCounts(s0, o);
      WakeReceiverOk(s0, o);
      var s1 := WakeReceiver(s0, o);
      SetNotWoken(s1.th, c, s1.th[c].(sendobj := Some(o), wait := SendSleep));
      var r := SetSendq(SetThread(s1, c, s1.th[c].(sendobj := Some(o), wait := SendSleep)), o, s1.objs[o].sendq + [c])
        .(log := s.log + [Sent(c)]);
      assert OnlyAt(s1, r, o);
      OnlyTrans(s0, s1, r, o);
      SameAttended(s, s0);
      AttendedWas(s0, o);
      AttendedOnly(s0, r, o);
    }
  }

  lemma AttendedWas(s: IState, o: Obj)
    requires Attended(s) && o in s.objs
    ensures AttendedAt(s, o)
  {
    hide Woken;
  }

  /** The loop of msg_receive in a receiver that has been woken: it loses a
      wake-up exactly when its copy fails while others sleep and every receiver
      on its way was needed. */
  lemma LoopAttended(s: IState, c: Tid, o: Obj, copied: bool)
    requires Looking(s, c, o) && Attended(s) && InTable(s.objs[o].sendq, s.th)
    ensures var (r, e) := ReceiveLoop(s, c, o, copied);
      && (e == EFAULT <==> CopyFails(s.th, s.objs[o].sendq, s.th[c].rsize, copied))
      && (Attended(r) <==> !(e == EFAULT && s.objs[o].recvq != [] && |s.objs[o].sendq| >= |Woken(s.th, o)|))
  {
    hide IInv, Woken, Attended, Top, Remove, NoDup;
    KnownQueues(s, o);
    AttendedWas(s, o);
    WokenHas(s.th, c, o);
    SetSize(Woken(s.th, o), c);
    var (r, e) := ReceiveLoop(s, c, o, copied);
    var q := s.objs[o].sendq;
    if q == [] {
      var x := s.th[c].(wait := RecvSleep);
      LeftWoken(s.th, c, x, o);
      AttendedOnly(s, r, o);
    } else {
      var t := Top(s.th, q);
      RemoveOk(q, t);
      FieldsOf(s, c);
      ReceiveValue(s, c, o, copied);
      var out := s.th[c].(wait := Out);
      hide ReceiveLoop;
      LeftWoken(s.th, c, out.(recvobj := None), o);
      LeftWoken(s.th, c, out.(sender := Some(t)), o);
      SetNotWoken(s.th[c := out.(sender := Some(t))], t, s.th[t].(receiver := Some(c)));
      AttendedOnly(s, r, o);
    }
  }

  lemma WokenHas(th: map<Tid, IThread>, c: Tid, o: Obj)
    requires c in th && th[c].wait == RecvWoken && th[c].recvobj == Some(o)
    ensures c in Woken(th, o)
  {
  }

  lemma LeftWoken(th: map<Tid, IThread>, c: Tid, x: IThread, o: Obj)
    requires c in th && th[c].wait == RecvWoken && th[c].recvobj == Some(o) && x.wait != RecvWoken
    ensures forall p :: Woken(th[c := x], p) == if p == o then Woken(th, o) - {c} else Woken(th, p)
  {
    hide Woken;
    forall p ensures Woken(th[c := x], p) == if p == o then Woken(th, o) - {c} else Woken(th, p) {
      WokenSet(th, c, x, p);
      if p != o {
        WokenNot(th, c, p);
      }
    }
  }

  lemma ReceiveAttended(s: IState, c: Tid, o: Obj, size: int, user: bool, copied: bool)
    requires IInv(s) && Attended(s) && c in s.th && s.th[c].wait == Out
    requires o in s.objs ==> InTable(s.objs[o].sendq, s.th)
    ensures Attended(MsgReceive(s, c, o, size, user, copied).0)
  {
    hide IInv, Woken, Attended, Top, ReceiveLoop;
    if o in s.objs && s.th[c].recvobj == None {
      ReceiveEnters(s, c, o, size, copied);
      var w := Entering(s, c, o, size);
      EnteringAttended(s, c, o, size);
      LoopAttended(w, c, o, copied);
      AttendedWas(s, o);
    }
  }

  lemma EnteringAttended(s: IState, c: Tid, o: Obj, size: int)
    requires Attended(s) && c in s.th && s.th[c].wait == Out && o in s.objs
    ensures var w := Entering(s, c, o, size);
      Attended(w) && w.objs == s.objs && |Woken(w.th, o)| == |Woken(s.th, o)| + 1
  {
    hide Woken, Attended;
    var w := Entering(s, c, o, size);
    var x := w.th[c];
    forall p ensures Woken(w.th, p) == if p == o then Woken(s.th, o) + {c} else Woken(s.th, p) {
      WokenSet(s.th, c, x, p);
      WokenNot(s.th, c, p);
    }
    WokenNot(s.th, c, o);
    SetSize(Woken(s.th, o), c);
    assert OnlyAt(s, w, o);
    AttendedWas(s, o);
    AttendedOnly(s, w, o);
  }

  lemma ReplyAttended(s: IState, c: Tid, o: Obj, size: int, user: bool, copied: bool)
    requires IInv(s) && Attended(s) && c in s.th && s.th[c].wait == Out
    requires s.th[c].sender.Some? ==> s.th[c].sender.value in s.th
    ensures Attended(MsgReply(s, c, o, size, user, copied).0)
  {
    hide IInv, Woken, Attended, StageOf;
    FieldsOf(s, c);
    if s.th[c].sender.Some? {
      var t := s.th[c].sender.value;
      SenderOf(s, c);
      ReplyValue(s, c, o, size, user, copied);
      var z := s.th[t].(wait := SendWoken, receiver := None);
      var x := s.th[c].(sender := None, recvobj := None);
      SetNotWoken(s.th, t, z);
      SetNotWoken(s.th[t := z], c, x);
      var r := MsgReply(s, c, o, size, user, copied).0;
      assert SameCounts(s, r);
      SameAttended(s, r);
    }
  }

  /** The step that can leave a queued message unattended: the copy to a woken
      receiver fails while others sleep and every receiver on its way is needed. */
  ghost predicate Abandons(s: IState, op: IOp)
    requires ICan(s, op) && Ready(s, op)
  {
    op.ReceiveResume? &&
    var o := RecvObjOr(s, op.c);
    && CopyFails(s.th, s.objs[o].sendq, s.th[op.c].rsize, op.copied)
    && s.objs[o].recvq != [] && |s.objs[o].sendq| >= |Woken(s.th, o)|
  }

  /** While wake-ups are not lost, a step loses one exactly if it abandons a
      message so. */
  lemma AttendedStep(s: IState, op: IOp)
    requires IInv(s) && Attended(s) && ICan(s, op) && Ready(s, op)
    ensures Attended(IApply(s, op).0) <==> !Abandons(s, op)
  {
    hide IInv, Woken, Attended, Top, ReceiveLoop, MsgSend, MsgReceive, MsgReply, CopyFails;
    match op
    case Send(c, o, size, user, mapped) => SendAttended(s, c, o, size, user, mapped);
    case SendResume(c) => PlainAttended(s, c, s.th[c].(sendobj := None, wait := Out), s.log + [Returned(c)]);
    case Receive(c, o, size, user, copied) => ReceiveAttended(s, c, o, size, user, copied);
    case ReceiveResume(c, copied) => LoopAttended(s, c, RecvObjOr(s, c), copied);
    case Reply(c, o, size, user, copied) => ReplyAttended(s, c, o, size, user, copied);
    case SetPriority(c, pri) => PriorityAttended(s, c, pri);
    case NewThread(c, task, pri) => NewThreadAttended(s, c, task, pri);
    case NewObject(o, task) => NewObjectAttended(s, o, task);
  }

  lemma PlainAttended(s: IState, c: Tid, x: IThread, log: seq<Event>)
    requires Attended(s) && c in s.th && s.th[c].wait != RecvWoken && x.wait != RecvWoken
    ensures Attended(IState(s.th[c := x], s.objs, log))
  {
    hide Woken, Attended;
    SetNotWoken(s.th, c, x);
    SameAttended(s, IState(s.th[c := x], s.objs, log));
  }

  lemma PriorityAttended(s: IState, c: Tid, pri: int)
    requires Attended(s) && c in s.th
    ensures Attended(SetThread(s, c, s.th[c].(priority := pri)))
  {
    hide Attended;
    var r := SetThread(s, c, s.th[c].(priority := pri));
    forall p ensures Woken(r.th, p) == Woken(s.th, p) {
    }
    hide Woken;
    SameAttended(s, r);
  }

  lemma NewThreadAttended(s: IState, c: Tid, task: Task, pri: int)
    requires Attended(s) && c !in s.th
    ensures Attended(SetThread(s, c, NewIThread(task, pri)))
  {
    hide Attended;
    var r := SetThread(s, c, NewIThread(task, pri));
    forall p ensures Woken(r.th, p) == Woken(s.th, p) {
    }
    hide Woken;
    SameAttended(s, r);
  }

  lemma NewObjectAttended(s: IState, o: Obj, task: Task)
    requires Attended(s)
    ensures Attended(s.(objs := s.objs[o := Object(task, [], [])]))
  {
    hide Woken;
  }

  // ----- Runs -----

  /** Any steps; one that its thread cannot make is passed over. */
  ghost function IExec(s: IState, ops: seq<IOp>): (r: IState)
    requires IInv(s)
    ensures IInv(r)
    decreases |ops|
  {
    hide IInv, IApply;
    if ops == [] then s
    else if ICan(s, ops[0]) then
      ReadyOk(s, ops[0]);
      IApplyOk(s, ops[0]);
      IExec(IApply(s, ops[0]).0, ops[1..])
    else IExec(s, ops[1..])
  }

  /** No step of the run abandons a message. */
  ghost predicate Faithful(s: IState, ops: seq<IOp>)
    requires IInv(s)
    decreases |ops|
  {
    hide IInv, IApply;
    if ops == [] then true
    else if ICan(s, ops[0]) then
      ReadyOk(s, ops[0]);
      IApplyOk(s, ops[0]);
      !Abandons(s, ops[0]) && Faithful(IApply(s, ops[0]).0, ops[1..])
    else Faithful(s, ops[1..])
  }

  lemma {:induction false} ExecAttended(s: IState, ops: seq<IOp>)
    requires IInv(s) && Attended(s) && Faithful(s, ops)
    ensures Attended(IExec(s, ops))
    decreases |ops|
  {
    hide IInv, IApply, Attended, Abandons;
    if ops != [] {
      if ICan(s, ops[0]) {
        ReadyOk(s, ops[0]);
        IApplyOk(s, ops[0]);
        AttendedStep(s, ops[0]);
        ExecAttended(IApply(s, ops[0]).0, ops[1..]);
      } else {
        ExecAttended(s, ops[1..]);
      }
    }
  }

  function IStart(): IState { IState(map[], map[], []) }

  lemma IStartOk()
    ensures IInv(IStart()) && Attended(IStart())
  {
  }

  /** In every run: senders and receivers agree on who serves whom; a thread
      blocked in msg_send is queued on one object, or with one receiver, or
      answered, and only one of these; and msg_send returns only after one
      reception and one reply of its message, by the same thread. */
  lemma RendezvousEveryRun(ops: seq<IOp>)
    ensures IInv(IStart())
    ensures var s := IExec(IStart(), ops);
      && (forall r, t :: r in s.th && t in s.th ==> (s.th[r].sender == Some(t) <==> s.th[t].receiver == Some(r)))
      && (forall t, o :: o in s.objs ==> (t in s.objs[o].sendq <==> Sending(s.th, t, o)))
      && (forall t :: t in s.th && s.th[t].wait in {SendSleep, SendWoken} ==>
            s.th[t].sendobj.Some? && s.th[t].sendobj.value in s.objs)
      && (forall t :: t in s.th && s.th[t].wait == SendWoken ==> s.th[t].receiver == None)
      && (forall t, k :: 0 <= k < |s.log| && s.log[k] == Returned(t) ==>
            exists r :: EndsWith(Own(s.log[..k], t), [Sent(t), Received(t, r), Replied(t, r)]))
  {
    IStartOk();
    var s := IExec(IStart(), ops);
    hide IInv, IExec, Own, EndsWith;
    forall t, k | 0 <= k < |s.log| && s.log[k] == Returned(t)
      ensures exists r :: EndsWith(Own(s.log[..k], t), [Sent(t), Received(t, r), Replied(t, r)])
    {
      NotBroken(s, t);
      ReturnMeans(s.log, t, k);
    }
    forall o | o in s.objs ensures forall t :: t in s.objs[o].sendq <==> Sending(s.th, t, o) {
      KnownQueues(s, o);
    }
    forall t | t in s.th
      ensures s.th[t].wait in {SendSleep, SendWoken} ==> s.th[t].sendobj.Some? && s.th[t].sendobj.value in s.objs
      ensures s.th[t].wait == SendWoken ==> s.th[t].receiver == None
    {
      FieldsOf(s, t);
    }
    PairsMean(s);
  }

  lemma NotBroken(s: IState, t: Tid)
    requires IInv(s)
    ensures StageOf(s.log, t) != Broken
  {
    hide Pairs, Locals, AllQueues, StageOf;
  }

  lemma PairsMean(s: IState)
    requires IInv(s)
    ensures forall r, t :: r in s.th && t in s.th ==> (s.th[r].sender == Some(t) <==> s.th[t].receiver == Some(r))
  {
    hide Locals, AllQueues, Stages;
  }

  /** In every run that abandons no message no wake-up is lost: while a receiver
      of an object sleeps, its queued messages are no more than its receivers on
      the way. */
  lemma NoLostWakeup(ops: seq<IOp>)
    requires IInv(IStart()) && Faithful(IStart(), ops)
    ensures Attended(IExec(IStart(), ops))
  {
    IStartOk();
    hide IInv, Attended;
    ExecAttended(IStart(), ops);
  }
}
