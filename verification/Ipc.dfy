/** Synchronous message passing of sys/ipc/msg.c. Each call is a step up to the
    point where it returns or sleeps, and from the return of sched_sleep on. */
module Ipc {
  import opened Lists

  type Tid = int
  type Task = int
  type Obj = int

  /** sizeof(struct msg_header): task, code and status. */
  const HDR_SIZE: int := 12

  /** Where a thread is: outside the blocking calls; asleep in msg_send or
      msg_receive; or woken there and not yet run. */
  datatype Wait = Out | SendSleep | SendWoken | RecvSleep | RecvWoken

  /** The message fields of struct thread; `rsize` is the buffer size of the
      msg_receive in progress, which is kernel stack content. */
  datatype IThread = IThread(
    task: Task, priority: int, wait: Wait, sender: Option<Tid>, receiver: Option<Tid>,
    sendobj: Option<Obj>, recvobj: Option<Obj>, msgsize: int, rsize: int)

  datatype Object = Object(owner: Task, sendq: seq<Tid>, recvq: seq<Tid>)

  /** What has happened to the messages, for the record. */
  datatype Event = Sent(t: Tid) | Received(t: Tid, r: Tid) | Replied(t: Tid, r: Tid) | Returned(t: Tid)

  datatype IState = IState(th: map<Tid, IThread>, objs: map<Obj, Object>, log: seq<Event>)

  datatype IResult = Done | Blocked | EFAULT | EINVAL | EACCES | EBUSY | EDEADLK

  // ----- Queues -----

  predicate InTable(q: seq<Tid>, th: map<Tid, IThread>) {
    forall i :: 0 <= i < |q| ==> q[i] in th
  }

  /** The scan of msg_dequeue: the first thread of the best priority. */
  function Top(th: map<Tid, IThread>, q: seq<Tid>): (r: Tid)
    requires q != [] && InTable(q, th)
    ensures r in q
    ensures forall i :: 0 <= i < |q| ==> th[r].priority <= th[q[i]].priority
  {
    var last := q[|q| - 1];
    if |q| == 1 then last
    else
      var r := Top(th, q[..|q| - 1]);
      if th[last].priority < th[r].priority then last else r
  }

  function SetThread(s: IState, t: Tid, x: IThread): IState {
    s.(th := s.th[t := x])
  }

  function SetSendq(s: IState, o: Obj, q: seq<Tid>): IState
    requires o in s.objs
  {
    s.(objs := s.objs[o := s.objs[o].(sendq := q)])
  }

  function SetRecvq(s: IState, o: Obj, q: seq<Tid>): IState
    requires o in s.objs
  {
    s.(objs := s.objs[o := s.objs[o].(recvq := q)])
  }

  /** sched_unsleep(t, 0): a sleeper is woken, any other thread is left alone. */
  function Unsleep(s: IState, t: Tid): IState
    requires t in s.th
  {
    match s.th[t].wait
    case SendSleep => SetThread(s, t, s.th[t].(wait := SendWoken))
    case RecvSleep => SetThread(s, t, s.th[t].(wait := RecvWoken))
    case _ => s
  }

  // ----- msg_send -----

  /** The best receiver, if one waits, is taken off the queue and woken. */
  function WakeReceiver(s: IState, o: Obj): IState
    requires o in s.objs && InTable(s.objs[o].recvq, s.th)
  {
    var q := s.objs[o].recvq;
    if q == [] then s
    else
      var t := Top(s.th, q);
      Unsleep(SetRecvq(s, o, Remove(q, t)), t)
  }

  /** `user` and `mapped` are the oracles for user_area and kmem_map. */
  function MsgSend(s: IState, c: Tid, o: Obj, size: int, user: bool, mapped: bool): (IState, IResult)
    requires c in s.th && (o in s.objs ==> InTable(s.objs[o].recvq, s.th))
  {
    if !user then (s, EFAULT)
    else if size < HDR_SIZE then (s, EINVAL)
    else if o !in s.objs then (s, EINVAL)
    else if s.th[c].recvobj == Some(o) then (s, EDEADLK)
    else if !mapped then (s, EFAULT)
    else
      var s1 := WakeReceiver(SetThread(s, c, s.th[c].(msgsize := size)), o);
      var s2 := SetThread(s1, c, s1.th[c].(sendobj := Some(o), wait := SendSleep));
      (SetSendq(s2, o, s2.objs[o].sendq + [c]).(log := s.log + [Sent(c)]), Blocked)
  }

  /** msg_send from the return of sched_sleep with result 0 on. */
  function MsgSendResume(s: IState, c: Tid): IState
    requires c in s.th
  {
    SetThread(s, c, s.th[c].(sendobj := None, wait := Out)).(log := s.log + [Returned(c)])
  }

  // ----- msg_receive -----

  /** The test of the loop and what follows it; `copied` is the oracle for copyout. */
  function ReceiveLoop(s: IState, c: Tid, o: Obj, copied: bool): (IState, IResult)
    requires c in s.th && o in s.objs && InTable(s.objs[o].sendq, s.th)
  {
    var q := s.objs[o].sendq;
    if q == [] then
      (SetThread(SetRecvq(s, o, s.objs[o].recvq + [c]), c, s.th[c].(wait := RecvSleep)), Blocked)
    else
      var t := Top(s.th, q);
      var s1 := SetThread(s, c, s.th[c].(wait := Out));
      var len := if s1.th[c].rsize < s1.th[t].msgsize then s1.th[c].rsize else s1.th[t].msgsize;
      if len > 0 && !copied then
        (SetThread(SetSendq(s1, o, Remove(q, t) + [t]), c, s1.th[c].(recvobj := None)), EFAULT)
      else
        var s2 := SetThread(SetSendq(s1, o, Remove(q, t)), c, s1.th[c].(sender := Some(t)));
        (SetThread(s2, t, s2.th[t].(receiver := Some(c))).(log := s.log + [Received(t, c)]), Done)
  }

  function MsgReceive(s: IState, c: Tid, o: Obj, size: int, user: bool, copied: bool): (IState, IResult)
    requires c in s.th && (o in s.objs ==> InTable(s.objs[o].sendq, s.th))
  {
    if !user then (s, EFAULT)
    else if o !in s.objs then (s, EINVAL)
    else if s.objs[o].owner != s.th[c].task then (s, EACCES)
    else if s.th[c].recvobj.Some? then (s, EBUSY)
    else ReceiveLoop(SetThread(s, c, s.th[c].(recvobj := Some(o), rsize := size)), c, o, copied)
  }

  // ----- msg_reply -----

  function MsgReply(s: IState, c: Tid, o: Obj, size: int, user: bool, copied: bool): (IState, IResult)
    requires c in s.th && (s.th[c].sender.Some? ==> s.th[c].sender.value in s.th)
  {
    if !user then (s, EFAULT)
    else if o !in s.objs || s.th[c].recvobj != Some(o) then (s, EINVAL)
    else if s.th[c].sender == None then (SetThread(s, c, s.th[c].(recvobj := None)), EINVAL)
    else
      var t := s.th[c].sender.value;
      var len := if size < s.th[t].msgsize then size else s.th[t].msgsize;
      if len > 0 && !copied then (s, EFAULT)
      else
        var s1 := Unsleep(s, t);
        var s2 := SetThread(s1, t, s1.th[t].(receiver := None));
        (SetThread(s2, c, s2.th[c].(sender := None, recvobj := None)).(log := s.log + [Replied(t, c)]), Done)
  }
}
