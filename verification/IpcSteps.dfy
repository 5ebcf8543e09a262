/** Each message call keeps the invariant. */
module IpcSteps {
  import opened Lists
  import opened Ipc
  import opened IpcInv

  // ----- One thread changes -----

  lemma LocalsSet(th: map<Tid, IThread>, objs: map<Obj, Object>, t: Tid, x: IThread)
    requires Locals(th, objs) && Local(x) && OnObject(x.sendobj, objs) && OnObject(x.recvobj, objs)
    ensures Locals(th[t := x], objs)
  {
    hide Local;
  }

  lemma PairsSet(th: map<Tid, IThread>, t: Tid, x: IThread)
    requires Pairs(th) && t in th && x.sender == th[t].sender && x.receiver == th[t].receiver
    ensures Pairs(th[t := x])
  {
  }

  /** Queues look only at where a thread sleeps. */
  predicate SameSpot(a: IThread, b: IThread) {
    && (a.wait == SendSleep && a.receiver == None <==> b.wait == SendSleep && b.receiver == None)
    && (a.wait == RecvSleep <==> b.wait == RecvSleep)
    && (a.wait == SendSleep ==> b.sendobj == a.sendobj)
    && (a.wait == RecvSleep ==> b.recvobj == a.recvobj)
  }

  lemma QueuesSet(th: map<Tid, IThread>, objs: map<Obj, Object>, t: Tid, x: IThread)
    requires AllQueues(th, objs) && t in th && SameSpot(th[t], x)
    ensures AllQueues(th[t := x], objs)
  {
    hide NoDup;
    forall o | o in objs ensures Queues(th[t := x], o, objs[o]) {
      assert Queues(th, o, objs[o]);
      forall u ensures Sending(th[t := x], u, o) <==> Sending(th, u, o) {
      }
    }
  }

  lemma StagesSet(th: map<Tid, IThread>, log: seq<Event>, t: Tid, x: IThread)
    requires Stages(th, log) && t in th && x.wait == th[t].wait && x.receiver == th[t].receiver
    ensures Stages(th[t := x], log)
  {
    hide StageOf;
  }

  /** Fields that no invariant looks at. */
  lemma SetPlain(s: IState, t: Tid, x: IThread)
    requires IInv(s) && t in s.th && x == s.th[t].(msgsize := x.msgsize, rsize := x.rsize, priority := x.priority)
    ensures IInv(SetThread(s, t, x))
  {
    hide Pairs, Locals, AllQueues, Stages, Local;
    LocalAt(s.th, s.objs, t);
    LocalSame(s.th[t], x);
    LocalsSet(s.th, s.objs, t, x);
    PairsSet(s.th, t, x);
    QueuesSet(s.th, s.objs, t, x);
    StagesSet(s.th, s.log, t, x);
  }

  lemma LocalAt(th: map<Tid, IThread>, objs: map<Obj, Object>, t: Tid)
    requires Locals(th, objs) && t in th
    ensures Local(th[t]) && OnObject(th[t].sendobj, objs) && OnObject(th[t].recvobj, objs)
  {
    hide Local;
  }

  lemma LocalSame(a: IThread, b: IThread)
    requires b == a.(msgsize := b.msgsize, rsize := b.rsize, priority := b.priority) && Local(a)
    ensures Local(b)
  {
  }

  lemma KnownQueues(s: IState, o: Obj)
    requires IInv(s) && o in s.objs
    ensures InTable(s.objs[o].sendq, s.th) && InTable(s.objs[o].recvq, s.th)
    ensures NoDup(s.objs[o].sendq) && NoDup(s.objs[o].recvq)
    ensures forall t :: t in s.objs[o].sendq <==> Sending(s.th, t, o)
    ensures forall t :: t in s.objs[o].recvq <==> Receiving(s.th, t, o)
  {
    hide Pairs, Locals, Stages, NoDup;
    var x := s.objs[o];
    assert Queues(s.th, o, x);
    forall i | 0 <= i < |x.sendq| ensures x.sendq[i] in s.th {
      var t := x.sendq[i];
      assert t in x.sendq;
    }
    forall i | 0 <= i < |x.recvq| ensures x.recvq[i] in s.th {
      var t := x.recvq[i];
      assert t in x.recvq;
    }
  }

  // ----- One thread enters or leaves a queue -----

  /** A thread that is on no queue is recorded anew and queued as it asks. */
  ghost predicate Moves(th: map<Tid, IThread>, objs: map<Obj, Object>, t: Tid, x: IThread, o: Obj, y: Object) {
    && t in th && o in objs && y.owner == objs[o].owner
    && NoDup(y.sendq) && NoDup(y.recvq)
    && (forall u :: u != t ==> (u in y.sendq <==> u in objs[o].sendq) && (u in y.recvq <==> u in objs[o].recvq))
    && (t in y.sendq <==> Sending(map[t := x], t, o))
    && (t in y.recvq <==> Receiving(map[t := x], t, o))
    && (forall p :: p != o ==> (Sending(map[t := x], t, p) <==> Sending(th, t, p)))
    && (forall p :: p != o ==> (Receiving(map[t := x], t, p) <==> Receiving(th, t, p)))
  }

  lemma QueuesMove(th: map<Tid, IThread>, objs: map<Obj, Object>, t: Tid, x: IThread, o: Obj, y: Object)
    requires AllQueues(th, objs) && Moves(th, objs, t, x, o, y)
    ensures AllQueues(th[t := x], objs[o := y])
  {
    hide NoDup;
    var (th', objs') := (th[t := x], objs[o := y]);
    forall p | p in objs' ensures Queues(th', p, objs'[p]) {
      assert Queues(th, p, objs[p]);
      forall u
        ensures Sending(th', u, p) <==> if u == t then Sending(map[t := x], t, p) else Sending(th, u, p)
        ensures Receiving(th', u, p) <==> if u == t then Receiving(map[t := x], t, p) else Receiving(th, u, p)
      {
      }
    }
  }

  lemma ObjsKept(th: map<Tid, IThread>, objs: map<Obj, Object>, o: Obj, y: Object)
    requires Locals(th, objs) && o in objs
    ensures Locals(th, objs[o := y])
  {
    hide Local;
  }

  // ----- Records and stages -----

  /** A step of one sender's message. */
  lemma StagesEvent(th: map<Tid, IThread>, log: seq<Event>, t: Tid, x: IThread, e: Event)
    requires Stages(th, log) && t in th && e.t == t && InStage(NextStage(StageOf(log, t), e, t), x)
    ensures Stages(th[t := x], log + [e])
  {
    hide InStage;
    forall u ensures StageOf(log + [e], u) == NextStage(StageOf(log, u), e, u) {
      assert (log + [e])[..|log|] == log;
    }
    hide StageOf;
  }

  /** Outside msg_send a thread may change as it likes. */
  lemma StagesIdle(th: map<Tid, IThread>, log: seq<Event>, t: Tid, x: IThread)
    requires Stages(th, log) && t in th
    requires th[t].wait !in {SendSleep, SendWoken} && x.wait !in {SendSleep, SendWoken}
    ensures Stages(th[t := x], log)
  {
    hide StageOf;
  }

  lemma StageAt(th: map<Tid, IThread>, log: seq<Event>, t: Tid)
    requires Stages(th, log) && t in th
    ensures InStage(StageOf(log, t), th[t])
  {
    hide StageOf, InStage;
  }

  /** A queue without one of its threads. */
  lemma RemoveOk(q: seq<Tid>, t: Tid)
    requires NoDup(q)
    ensures NoDup(Remove(q, t)) && forall u :: u in Remove(q, t) <==> u in q && u != t
    ensures t in q ==> |Remove(q, t)| == |q| - 1
  {
    RemoveFacts(q, t);
  }

  lemma EnqueueOk(q: seq<Tid>, t: Tid)
    requires NoDup(q) && t !in q
    ensures NoDup(q + [t]) && forall u :: u in q + [t] <==> u in q || u == t
  {
    NoDupCons(t, q);
  }

  // ----- msg_send -----

  lemma WakeReceiverOk(s: IState, o: Obj)
    requires IInv(s) && o in s.objs
    ensures InTable(s.objs[o].recvq, s.th)
    ensures var (r, q) := (WakeReceiver(s, o), s.objs[o].recvq);
      && IInv(r) && r.th.Keys == s.th.Keys && r.objs.Keys == s.objs.Keys && r.log == s.log
      && r.objs[o].sendq == s.objs[o].sendq
      && (forall u :: u in s.th && u !in q ==> r.th[u] == s.th[u])
  {
    hide IInv, NoDup, Top;
    KnownQueues(s, o);
    var q := s.objs[o].recvq;
    if q != [] {
      WakeIs(s, o);
      WakeTop(s, o, Top(s.th, q));
    }
  }

  lemma WakeIs(s: IState, o: Obj)
    requires o in s.objs && InTable(s.objs[o].recvq, s.th) && s.objs[o].recvq != []
    requires forall t :: t in s.objs[o].recvq ==> Receiving(s.th, t, o)
    ensures var t := Top(s.th, s.objs[o].recvq);
      WakeReceiver(s, o) == SetThread(SetRecvq(s, o, Remove(s.objs[o].recvq, t)), t, s.th[t].(wait := RecvWoken))
  {
    hide Top;
  }

  /** One sleeping receiver leaves the queue, woken. */
  lemma WakeTop(s: IState, o: Obj, t: Tid)
    requires IInv(s) && o in s.objs && Receiving(s.th, t, o) && NoDup(s.objs[o].recvq) && t in s.objs[o].recvq
    ensures IInv(SetThread(SetRecvq(s, o, Remove(s.objs[o].recvq, t)), t, s.th[t].(wait := RecvWoken)))
  {
    hide Pairs, Locals, AllQueues, Stages, NoDup;
    var x := s.th[t].(wait := RecvWoken);
    var y := s.objs[o].(recvq := Remove(s.objs[o].recvq, t));
    KnownQueues(s, o);
    RemoveOk(s.objs[o].recvq, t);
    hide Remove;
    LocalAt(s.th, s.objs, t);
    LocalsSet(s.th, s.objs, t, x);
    ObjsKept(s.th[t := x], s.objs, o, y);
    PairsSet(s.th, t, x);
    QueuesMove(s.th, s.objs, t, x, o, y);
    StagesIdle(s.th, s.log, t, x);
  }

  /** The caller goes to sleep at the end of the send queue. */
  lemma QueueSender(s: IState, c: Tid, o: Obj)
    requires IInv(s) && c in s.th && s.th[c].wait == Out && o in s.objs
    ensures var x := s.th[c].(sendobj := Some(o), wait := SendSleep);
      IInv(SetSendq(SetThread(s, c, x), o, s.objs[o].sendq + [c]).(log := s.log + [Sent(c)]))
  {
    hide Pairs, Locals, AllQueues, Stages, NoDup, StageOf;
    var x := s.th[c].(sendobj := Some(o), wait := SendSleep);
    var y := s.objs[o].(sendq := s.objs[o].sendq + [c]);
    KnownQueues(s, o);
    EnqueueOk(s.objs[o].sendq, c);
    LocalAt(s.th, s.objs, c);
    LocalsSet(s.th, s.objs, c, x);
    ObjsKept(s.th[c := x], s.objs, o, y);
    PairsSet(s.th, c, x);
    QueuesMove(s.th, s.objs, c, x, o, y);
    StageAt(s.th, s.log, c);
    StagesEvent(s.th, s.log, c, x, Sent(c));
  }

  /** msg_send either returns an error, in the order of its checks, changing
      nothing, or queues the caller and wakes the best receiver. */
  lemma MsgSendOk(s: IState, c: Tid, o: Obj, size: int, user: bool, mapped: bool)
    requires IInv(s) && c in s.th && s.th[c].wait == Out
    ensures o in s.objs ==> InTable(s.objs[o].recvq, s.th)
    ensures var (r, e) := MsgSend(s, c, o, size, user, mapped);
      && IInv(r) && r.objs.Keys == s.objs.Keys && r.th.Keys == s.th.Keys
      && (e != Blocked ==> r == s)
      && (e == Blocked <==> user && size >= HDR_SIZE && o in s.objs && s.th[c].recvobj != Some(o) && mapped)
      && (e == Blocked ==> Sending(r.th, c, o) && r.objs[o].sendq == s.objs[o].sendq + [c])
  {
    hide IInv, WakeReceiver;
    if o in s.objs {
      KnownQueues(s, o);
      var s0 := SetThread(s, c, s.th[c].(msgsize := size));
      SetPlain(s, c, s.th[c].(msgsize := size));
      KnownQueues(s0, o);
      WakeReceiverOk(s0, o);
      QueueSender(WakeReceiver(s0, o), c, o);
      FieldsOf(s, c);
    }
  }

  lemma FieldsOf(s: IState, c: Tid)
    requires IInv(s) && c in s.th
    ensures Local(s.th[c]) && OnObject(s.th[c].sendobj, s.objs) && OnObject(s.th[c].recvobj, s.objs)
  {
    hide Pairs, AllQueues, Stages, Local;
  }

  /** The guard of the failing branch: there is a message to copy, it and the
      receiver's buffer are not empty, and the copy does not succeed. */
  predicate CopyFails(th: map<Tid, IThread>, q: seq<Tid>, rsize: int, copied: bool)
    requires InTable(q, th)
  {
    q != [] && rsize > 0 && th[Top(th, q)].msgsize > 0 && !copied
  }

  /** The outcomes of the loop, spelled out. */
  lemma ReceiveValue(s: IState, c: Tid, o: Obj, copied: bool)
    requires c in s.th && o in s.objs && InTable(s.objs[o].sendq, s.th) && s.objs[o].sendq != []
    requires Top(s.th, s.objs[o].sendq) != c
    ensures var q := s.objs[o].sendq;
      var t := Top(s.th, q);
      var x := s.th[c].(wait := Out);
      var fails := (if x.rsize < s.th[t].msgsize then x.rsize else s.th[t].msgsize) > 0 && !copied;
      ReceiveLoop(s, c, o, copied) ==
        if fails then (SetThread(SetSendq(s, o, Remove(q, t) + [t]), c, x.(recvobj := None)), EFAULT)
        else
          (SetThread(SetThread(SetSendq(s, o, Remove(q, t)), c, x.(sender := Some(t))), t, s.th[t].(receiver := Some(c)))
             .(log := s.log + [Received(t, c)]), Done)
  {
    hide Top, Remove;
    var x := s.th[c].(wait := Out);
    assert s.th[c := x][c := x.(recvobj := None)] == s.th[c := x.(recvobj := None)];
    var t := Top(s.th, s.objs[o].sendq);
    assert s.th[c := x][c := x.(sender := Some(t))] == s.th[c := x.(sender := Some(t))];
  }

  /** Answered, a sender returns 0. */
  lemma MsgSendResumeOk(s: IState, c: Tid)
    requires IInv(s) && c in s.th && s.th[c].wait == SendWoken
    ensures IInv(MsgSendResume(s, c))
  {
    hide Pairs, Locals, AllQueues, Stages, StageOf;
    var x := s.th[c].(sendobj := None, wait := Out);
    LocalAt(s.th, s.objs, c);
    LocalsSet(s.th, s.objs, c, x);
    PairsSet(s.th, c, x);
    QueuesSet(s.th, s.objs, c, x);
    StageAt(s.th, s.log, c);
    StagesEvent(s.th, s.log, c, x, Returned(c));
  }

  // ----- msg_receive -----

  /** The caller holds the object and has no message, as when it was woken. */
  ghost predicate Looking(s: IState, c: Tid, o: Obj) {
    IInv(s) && c in s.th && o in s.objs && s.th[c].wait == RecvWoken && s.th[c].recvobj == Some(o)
  }

  lemma BlockReceiver(s: IState, c: Tid, o: Obj)
    requires Looking(s, c, o)
    ensures IInv(SetThread(SetRecvq(s, o, s.objs[o].recvq + [c]), c, s.th[c].(wait := RecvSleep)))
  {
    hide Pairs, Locals, AllQueues, Stages, NoDup;
    var x := s.th[c].(wait := RecvSleep);
    var y := s.objs[o].(recvq := s.objs[o].recvq + [c]);
    KnownQueues(s, o);
    EnqueueOk(s.objs[o].recvq, c);
    LocalAt(s.th, s.objs, c);
    LocalsSet(s.th, s.objs, c, x);
    ObjsKept(s.th[c := x], s.objs, o, y);
    PairsSet(s.th, c, x);
    QueuesMove(s.th, s.objs, c, x, o, y);
    StagesIdle(s.th, s.log, c, x);
  }

  /** A failed copy: the message goes to the end of the send queue. */
  lemma RefuseMessage(s: IState, c: Tid, o: Obj, t: Tid)
    requires Looking(s, c, o) && t in s.objs[o].sendq
    ensures var x := s.th[c].(wait := Out, recvobj := None);
      IInv(SetThread(SetSendq(s, o, Remove(s.objs[o].sendq, t) + [t]), c, x))
  {
    hide Pairs, Locals, AllQueues, Stages, NoDup;
    var x := s.th[c].(wait := Out, recvobj := None);
    var q := s.objs[o].sendq;
    var y := s.objs[o].(sendq := Remove(q, t) + [t]);
    KnownQueues(s, o);
    RemoveOk(q, t);
    EnqueueOk(Remove(q, t), t);
    hide Remove;
    LocalAt(s.th, s.objs, c);
    LocalsSet(s.th, s.objs, c, x);
    ObjsKept(s.th[c := x], s.objs, o, y);
    PairsSet(s.th, c, x);
    QueuesMove(s.th, s.objs, c, x, o, y);
    StagesIdle(s.th, s.log, c, x);
  }

  /** Sender and receiver point at each other. */
  lemma PairsLink(th: map<Tid, IThread>, c: Tid, t: Tid, x: IThread, z: IThread)
    requires Pairs(th) && c in th && t in th && c != t
    requires th[c].sender == None && th[t].receiver == None
    requires x.sender == Some(t) && x.receiver == th[c].receiver
    requires z.receiver == Some(c) && z.sender == th[t].sender
    ensures Pairs(th[c := x][t := z])
  {
  }

  lemma PairsUnlink(th: map<Tid, IThread>, c: Tid, t: Tid, x: IThread, z: IThread)
    requires Pairs(th) && c in th && t in th && c != t && th[c].sender == Some(t)
    requires x.sender == None && x.receiver == th[c].receiver
    requires z.receiver == None && z.sender == th[t].sender
    ensures Pairs(th[t := z][c := x])
  {
  }

  lemma TakeMessage(s: IState, c: Tid, o: Obj, t: Tid)
    requires Looking(s, c, o) && t in s.objs[o].sendq
    ensures t in s.th && t != c
    ensures var x := s.th[c].(wait := Out, sender := Some(t));
      var r := SetThread(SetSendq(s, o, Remove(s.objs[o].sendq, t)), c, x);
      IInv(SetThread(r, t, s.th[t].(receiver := Some(c))).(log := s.log + [Received(t, c)]))
  {
    hide Pairs, Locals, AllQueues, Stages, NoDup, StageOf;
    KnownQueues(s, o);
    assert Sending(s.th, t, o);
    var x := s.th[c].(wait := Out, sender := Some(t));
    var z := s.th[t].(receiver := Some(c));
    var q := s.objs[o].sendq;
    var y := s.objs[o].(sendq := Remove(q, t));
    RemoveOk(q, t);
    hide Remove;
    LocalAt(s.th, s.objs, c);
    LocalAt(s.th, s.objs, t);
    LocalsSet(s.th, s.objs, c, x);
    LocalsSet(s.th[c := x], s.objs, t, z);
    ObjsKept(s.th[c := x][t := z], s.objs, o, y);
    PairsLink(s.th, c, t, x, z);
    QueuesSet(s.th, s.objs, c, x);
    QueuesMove(s.th[c := x], s.objs, t, z, o, y);
    StageAt(s.th, s.log, t);
    StagesIdle(s.th, s.log, c, x);
    StagesEvent(s.th[c := x], s.log, t, z, Received(t, c));
  }

  /** The loop of msg_receive takes the best message, or waits if there is none. */
  lemma ReceiveLoopOk(s: IState, c: Tid, o: Obj, copied: bool)
    requires Looking(s, c, o)
    ensures InTable(s.objs[o].sendq, s.th)
    ensures var (r, e) := ReceiveLoop(s, c, o, copied);
      var q := s.objs[o].sendq;
      && IInv(r) && r.th.Keys == s.th.Keys && r.objs.Keys == s.objs.Keys
      && (e == Blocked <==> q == []) && (e == Blocked || e == Done || e == EFAULT)
      && (e == EFAULT <==> CopyFails(s.th, q, s.th[c].rsize, copied))
      && (e == Done ==> r.th[c].sender == Some(Top(s.th, q)) && r.th[c].wait == Out)
      && (e == EFAULT ==>
            && r.th == s.th[c := s.th[c].(wait := Out, recvobj := None)]
            && r.objs == s.objs[o := s.objs[o].(sendq := Remove(q, Top(s.th, q)) + [Top(s.th, q)])])
  {
    hide IInv, Top, Remove;
    KnownQueues(s, o);
    var q := s.objs[o].sendq;
    if q == [] {
      BlockReceiver(s, c, o);
    } else {
      TakeMessage(s, c, o, Top(s.th, q));
      RefuseMessage(s, c, o, Top(s.th, q));
      FieldsOf(s, c);
      ReceiveValue(s, c, o, copied);
      hide ReceiveLoop;
    }
  }

  lemma {:induction false} TopSame(a: map<Tid, IThread>, b: map<Tid, IThread>, q: seq<Tid>)
    requires q != [] && InTable(q, a) && InTable(q, b)
    requires forall i :: 0 <= i < |q| ==> b[q[i]].priority == a[q[i]].priority
    ensures Top(a, q) == Top(b, q)
    decreases |q|
  {
    if |q| > 1 {
      TopSame(a, b, q[..|q| - 1]);
    }
  }

  /** The loop does not care whether its thread starts or was woken. */
  lemma LoopSame(a: IState, b: IState, c: Tid, o: Obj, copied: bool)
    requires c in a.th && o in a.objs && InTable(a.objs[o].sendq, a.th) && c !in a.objs[o].sendq
    requires c in b.th && b == SetThread(a, c, a.th[c].(wait := b.th[c].wait))
    ensures InTable(b.objs[o].sendq, b.th) && ReceiveLoop(b, c, o, copied) == ReceiveLoop(a, c, o, copied)
  {
    hide Top, Remove;
    var q := a.objs[o].sendq;
    var x := a.th[c];
    assert forall w: Wait :: b.th[c := x.(wait := w)] == a.th[c := x.(wait := w)];
    if q != [] {
      TopSame(a.th, b.th, q);
      ReceiveValue(a, c, o, copied);
      ReceiveValue(b, c, o, copied);
      hide ReceiveLoop;
      var t := Top(a.th, q);
      assert b.th[c := x.(wait := Out, recvobj := None)] == a.th[c := x.(wait := Out, recvobj := None)];
      assert b.th[c := x.(wait := Out, sender := Some(t))] == a.th[c := x.(wait := Out, sender := Some(t))];
    }
  }

  /** The caller of msg_receive as if it had just been woken. */
  function Entering(s: IState, c: Tid, o: Obj, size: int): IState
    requires c in s.th
  {
    SetThread(s, c, s.th[c].(recvobj := Some(o), rsize := size, wait := RecvWoken))
  }

  lemma EnteringOk(s: IState, c: Tid, o: Obj, size: int)
    requires IInv(s) && c in s.th && s.th[c].wait == Out && s.th[c].recvobj == None && o in s.objs
    ensures Looking(Entering(s, c, o, size), c, o)
  {
    hide Pairs, Locals, AllQueues, Stages;
    var x := s.th[c].(recvobj := Some(o), rsize := size, wait := RecvWoken);
    LocalAt(s.th, s.objs, c);
    LocalsSet(s.th, s.objs, c, x);
    PairsSet(s.th, c, x);
    QueuesSet(s.th, s.objs, c, x);
    StagesIdle(s.th, s.log, c, x);
  }

  /** msg_receive behaves from its loop on like a receiver that has been woken. */
  lemma ReceiveEnters(s: IState, c: Tid, o: Obj, size: int, copied: bool)
    requires IInv(s) && c in s.th && s.th[c].wait == Out && s.th[c].recvobj == None && o in s.objs
    ensures InTable(s.objs[o].sendq, s.th)
    ensures var s1 := SetThread(s, c, s.th[c].(recvobj := Some(o), rsize := size));
      var w := Entering(s, c, o, size);
      && Looking(w, c, o) && InTable(w.objs[o].sendq, w.th) && w.objs == s.objs
      && ReceiveLoop(s1, c, o, copied) == ReceiveLoop(w, c, o, copied)
  {
    hide IInv, ReceiveLoop;
    KnownQueues(s, o);
    EnteringOk(s, c, o, size);
    var s1 := SetThread(s, c, s.th[c].(recvobj := Some(o), rsize := size));
    var w := Entering(s, c, o, size);
    assert w == SetThread(s1, c, s1.th[c].(wait := RecvWoken)) by {
      assert s1.th[c := w.th[c]] == w.th;
    }
    LoopSame(s1, w, c, o, copied);
  }

  /** msg_receive either returns an error of its checks, changing nothing, or
      goes on in its loop. */
  lemma MsgReceiveOk(s: IState, c: Tid, o: Obj, size: int, user: bool, copied: bool)
    requires IInv(s) && c in s.th && s.th[c].wait == Out
    ensures o in s.objs ==> InTable(s.objs[o].sendq, s.th)
    ensures var (r, e) := MsgReceive(s, c, o, size, user, copied);
      && IInv(r) && r.objs.Keys == s.objs.Keys && r.th.Keys == s.th.Keys
      && (e in {EINVAL, EACCES, EBUSY} ==> r == s)
      && (e == EBUSY <==> user && o in s.objs && s.objs[o].owner == s.th[c].task && s.th[c].recvobj.Some?)
      && (e == EFAULT <==>
            || !user
            || (&& o in s.objs && s.objs[o].owner == s.th[c].task && s.th[c].recvobj == None
                && CopyFails(s.th, s.objs[o].sendq, size, copied)))
      && (e == Blocked ==> Receiving(r.th, c, o) && s.objs[o].sendq == [])
      && (e == Done ==> s.objs[o].sendq != [] && r.th[c].sender == Some(Top(s.th, s.objs[o].sendq)))
  {
    hide IInv, ReceiveLoop, Entering, Top;
    if o in s.objs {
      KnownQueues(s, o);
      if s.th[c].recvobj == None {
        ReceiveEnters(s, c, o, size, copied);
        var w := Entering(s, c, o, size);
        ReceiveLoopOk(w, c, o, copied);
        EnteringSame(s, c, o, size);
        BlockedSleeps(w, c, o, copied);
      }
    }
  }

  lemma EnteringSame(s: IState, c: Tid, o: Obj, size: int)
    requires c in s.th && o in s.objs && InTable(s.objs[o].sendq, s.th)
    ensures var w := Entering(s, c, o, size);
      && w.objs == s.objs && w.th.Keys == s.th.Keys
      && InTable(s.objs[o].sendq, w.th) && w.th[c].rsize == size
      && (s.objs[o].sendq != [] ==> Top(w.th, s.objs[o].sendq) == Top(s.th, s.objs[o].sendq))
      && (forall t :: t in s.th ==> w.th[t].msgsize == s.th[t].msgsize)
  {
    hide Top;
    if s.objs[o].sendq != [] {
      TopSame(s.th, Entering(s, c, o, size).th, s.objs[o].sendq);
    }
  }

  lemma BlockedSleeps(s: IState, c: Tid, o: Obj, copied: bool)
    requires Looking(s, c, o) && InTable(s.objs[o].sendq, s.th)
    ensures var (r, e) := ReceiveLoop(s, c, o, copied); e == Blocked ==> Receiving(r.th, c, o)
  {
    hide IInv, Top;
  }

  // ----- msg_reply -----

  /** The thread whose message the caller holds sleeps in msg_send and waits for
      the caller. */
  lemma SenderOf(s: IState, c: Tid)
    requires IInv(s) && c in s.th && s.th[c].sender.Some?
    ensures var t := s.th[c].sender.value;
      t in s.th && s.th[t].receiver == Some(c) && s.th[t].wait == SendSleep
      && s.th[t].sendobj.Some? && StageOf(s.log, t) == Paired(c)
  {
    hide Locals, AllQueues, StageOf;
    FieldsOf(s, c);
    var t := s.th[c].sender.value;
    assert Local(s.th[t]) by {
      FieldsOf(s, t);
    }
  }

  lemma AnswerSender(s: IState, c: Tid, t: Tid)
    requires IInv(s) && c in s.th && s.th[c].wait == Out && s.th[c].sender == Some(t)
    ensures t in s.th && t != c
    ensures var z := s.th[t].(wait := SendWoken, receiver := None);
      var x := s.th[c].(sender := None, recvobj := None);
      IInv(SetThread(SetThread(s, t, z), c, x).(log := s.log + [Replied(t, c)]))
  {
    hide Pairs, Locals, AllQueues, Stages, StageOf;
    SenderOf(s, c);
    var z := s.th[t].(wait := SendWoken, receiver := None);
    var x := s.th[c].(sender := None, recvobj := None);
    LocalAt(s.th, s.objs, c);
    LocalAt(s.th, s.objs, t);
    LocalsSet(s.th, s.objs, t, z);
    LocalsSet(s.th[t := z], s.objs, c, x);
    PairsUnlink(s.th, c, t, x, z);
    QueuesSet(s.th, s.objs, t, z);
    QueuesSet(s.th[t := z], s.objs, c, x);
    StagesEvent(s.th, s.log, t, z, Replied(t, c));
    StagesIdle(s.th[t := z], s.log + [Replied(t, c)], c, x);
  }

  /** msg_reply answers exactly the message the caller holds on that object; the
      check for a vanished sender never strikes in these runs. */
  lemma MsgReplyOk(s: IState, c: Tid, o: Obj, size: int, user: bool, copied: bool)
    requires IInv(s) && c in s.th && s.th[c].wait == Out
    ensures s.th[c].sender.Some? ==> s.th[c].sender.value in s.th
    ensures var (r, e) := MsgReply(s, c, o, size, user, copied);
      && IInv(r) && r.objs == s.objs && r.th.Keys == s.th.Keys
      && (e != Done ==> r == s)
      && (e == EINVAL <==> user && (o !in s.objs || s.th[c].recvobj != Some(o)))
      && (e == Done ==>
            && s.th[c].sender.Some? && r.th[s.th[c].sender.value].wait == SendWoken
            && r.th[c].sender == None && r.th[c].recvobj == None)
  {
    hide IInv, StageOf;
    FieldsOf(s, c);
    if s.th[c].sender.Some? {
      SenderOf(s, c);
      AnswerSender(s, c, s.th[c].sender.value);
      ReplyValue(s, c, o, size, user, copied);
    }
  }

  lemma ReplyValue(s: IState, c: Tid, o: Obj, size: int, user: bool, copied: bool)
    requires c in s.th && s.th[c].sender.Some?
    requires var t := s.th[c].sender.value; t in s.th && t != c && s.th[t].wait == SendSleep
    ensures var t := s.th[c].sender.value;
      var z := s.th[t].(wait := SendWoken, receiver := None);
      var x := s.th[c].(sender := None, recvobj := None);
      MsgReply(s, c, o, size, user, copied) ==
        if !user then (s, EFAULT)
        else if o !in s.objs || s.th[c].recvobj != Some(o) then (s, EINVAL)
        else if (if size < s.th[t].msgsize then size else s.th[t].msgsize) > 0 && !copied then (s, EFAULT)
        else (SetThread(SetThread(s, t, z), c, x).(log := s.log + [Replied(t, c)]), Done)
  {
    var t := s.th[c].sender.value;
    var z := s.th[t].(wait := SendWoken, receiver := None);
    assert s.th[t := s.th[t].(wait := SendWoken)][t := z] == s.th[t := z];
  }
}
