/** The code of sys/ipc/msg.c over the thread records and object queues, between
    the sched_lock and sched_unlock of each call. */
module IpcCode {
  import opened Lists
  import opened Ipc
  import opened IpcInv
  import opened IpcSteps
  import I = Ipc

  class Messages {
    var th: map<Tid, IThread>
    var objs: map<Obj, Object>
    ghost var log: seq<Event>

    ghost function S(): IState
      reads this
    {
      IState(th, objs, log)
    }

    constructor ()
      ensures S() == IState(map[], map[], [])
    {
      th, objs, log := map[], map[], [];
    }

    /** msg_dequeue without the unlinking: the first of the best threads. */
    method Scan(q: seq<Tid>) returns (top: Tid)
      requires q != [] && InTable(q, th)
      ensures top == Top(th, q)
    {
      top := q[0];
      var i := 0;
      while i < |q|
        invariant 0 <= i <= |q| && top in th
        invariant i == 0 ==> top == q[0]
        invariant i > 0 ==> InTable(q[..i], th) && top == Top(th, q[..i])
      {
        assert q[..i + 1][..i] == q[..i];
        var t := q[i];
        if th[t].priority < th[top].priority {
          top := t;
        }
        i := i + 1;
      }
      assert q[..|q|] == q;
    }

    method SchedUnsleep(t: Tid)
      requires t in th
      modifies this
      ensures S() == Unsleep(old(S()), t)
    {
      if th[t].wait == SendSleep {
        th := th[t := th[t].(wait := SendWoken)];
      } else if th[t].wait == RecvSleep {
        th := th[t := th[t].(wait := RecvWoken)];
      }
    }

    method MsgSend(c: Tid, o: Obj, size: int, user: bool, mapped: bool) returns (e: IResult)
      requires IInv(S()) && c in th && th[c].wait == Out && (o in objs ==> InTable(objs[o].recvq, th))
      modifies this
      ensures (S(), e) == I.MsgSend(old(S()), c, o, size, user, mapped)
    {
      hide IInv, Top, I.WakeReceiver;
      if !user { return EFAULT; }
      if size < HDR_SIZE { return EINVAL; }
      if o !in objs { return EINVAL; }
      if th[c].recvobj == Some(o) { return EDEADLK; }
      if !mapped { return EFAULT; }
      ghost var s := S();
      SetPlain(s, c, th[c].(msgsize := size));
      th := th[c := th[c].(msgsize := size)];
      KnownQueues(S(), o);
      WakeReceiverOk(S(), o);
      WakeReceiver(o);
      ghost var m := th;
      th := th[c := th[c].(sendobj := Some(o))];
      objs := objs[o := objs[o].(sendq := objs[o].sendq + [c])];
      th := th[c := th[c].(wait := SendSleep)];
      assert th == m[c := m[c].(sendobj := Some(o), wait := SendSleep)];
      log := log + [Sent(c)];
      return Blocked;
    }

    /** If receivers wait, the best one is woken. */
    method WakeReceiver(o: Obj)
      requires o in objs && InTable(objs[o].recvq, th)
      modifies this
      ensures S() == I.WakeReceiver(old(S()), o)
    {
      hide Top, Remove;
      if objs[o].recvq != [] {
        var t := Scan(objs[o].recvq);
        objs := objs[o := objs[o].(recvq := Remove(objs[o].recvq, t))];
        SchedUnsleep(t);
      }
    }

    /** msg_send from the return of sched_sleep on. */
    method MsgSendResume(c: Tid)
      requires c in th
      modifies this
      ensures S() == I.MsgSendResume(old(S()), c)
    {
      th := th[c := th[c].(sendobj := None, wait := Out)];
      log := log + [Returned(c)];
    }

    /** The test of the loop in msg_receive: sleep, or go on to take a message. */
    method ReceiveLoop(c: Tid, o: Obj, copied: bool) returns (e: IResult)
      requires c in th && o in objs && InTable(objs[o].sendq, th) && c !in objs[o].sendq
      modifies this
      ensures (S(), e) == I.ReceiveLoop(old(S()), c, o, copied)
    {
      hide Top, Remove;
      if objs[o].sendq == [] {
        objs := objs[o := objs[o].(recvq := objs[o].recvq + [c])];
        th := th[c := th[c].(wait := RecvSleep)];
        return Blocked;
      }
      th := th[c := th[c].(wait := Out)];
      ScanSame(old(S()), S(), o);
      var t := Scan(objs[o].sendq);
      objs := objs[o := objs[o].(sendq := Remove(objs[o].sendq, t))];
      var len := if th[c].rsize < th[t].msgsize then th[c].rsize else th[t].msgsize;
      if len > 0 && !copied {
        ghost var before := old(objs);
        objs := objs[o := objs[o].(sendq := objs[o].sendq + [t])];
        assert objs == before[o := before[o].(sendq := Remove(before[o].sendq, t) + [t])];
        th := th[c := th[c].(recvobj := None)];
        return EFAULT;
      }
      th := th[c := th[c].(sender := Some(t))];
      th := th[t := th[t].(receiver := Some(c))];
      log := log + [Received(t, c)];
      return Done;
    }

    method MsgReceive(c: Tid, o: Obj, size: int, user: bool, copied: bool) returns (e: IResult)
      requires IInv(S()) && c in th && th[c].wait == Out && (o in objs ==> InTable(objs[o].sendq, th))
      modifies this
      ensures (S(), e) == I.MsgReceive(old(S()), c, o, size, user, copied)
    {
      hide IInv, I.ReceiveLoop;
      if !user { return EFAULT; }
      if o !in objs { return EINVAL; }
      if objs[o].owner != th[c].task { return EACCES; }
      if th[c].recvobj.Some? { return EBUSY; }
      KnownQueues(S(), o);
      th := th[c := th[c].(recvobj := Some(o), rsize := size)];
      e := ReceiveLoop(c, o, copied);
    }

    method MsgReply(c: Tid, o: Obj, size: int, user: bool, copied: bool) returns (e: IResult)
      requires c in th && (th[c].sender.Some? ==> th[c].sender.value in th)
      modifies this
      ensures (S(), e) == I.MsgReply(old(S()), c, o, size, user, copied)
    {
      if !user { return EFAULT; }
      if o !in objs || th[c].recvobj != Some(o) { return EINVAL; }
      if th[c].sender == None {
        th := th[c := th[c].(recvobj := None)];
        return EINVAL;
      }
      var t := th[c].sender.value;
      var len := if size < th[t].msgsize then size else th[t].msgsize;
      if len > 0 && !copied { return EFAULT; }
      SchedUnsleep(t);
      th := th[t := th[t].(receiver := None)];
      th := th[c := th[c].(sender := None, recvobj := None)];
      log := log + [Replied(t, c)];
      return Done;
    }
  }

  lemma ScanSame(a: IState, b: IState, o: Obj)
    requires o in a.objs && b.objs == a.objs && a.objs[o].sendq != [] && a.th.Keys == b.th.Keys
    requires InTable(a.objs[o].sendq, a.th) && forall t :: t in a.th ==> b.th[t].priority == a.th[t].priority
    ensures InTable(b.objs[o].sendq, b.th) && Top(a.th, a.objs[o].sendq) == Top(b.th, b.objs[o].sendq)
  {
    var q := a.objs[o].sendq;
    forall i | 0 <= i < |q| ensures b.th[q[i]].priority == a.th[q[i]].priority {
      var t := q[i];
      assert t in a.th;
    }
    TopSame(a.th, b.th, q);
  }
}
