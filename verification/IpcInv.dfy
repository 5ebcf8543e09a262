/** What every step of message passing keeps: senders and receivers agree, each
    blocked thread is in the one place its state calls for, and every message
    goes through its stages in order. */
module IpcInv {
  import opened Lists
  import opened Ipc

  // ----- The invariant -----

  /** r.sender = t exactly if t.receiver = r. */
  ghost predicate Pairs(th: map<Tid, IThread>) {
    && (forall r :: r in th && th[r].sender.Some? ==>
          th[r].sender.value in th && th[th[r].sender.value].receiver == Some(r))
    && (forall t :: t in th && th[t].receiver.Some? ==>
          th[t].receiver.value in th && th[th[t].receiver.value].sender == Some(t))
  }

  /** The fields of one thread agree with where it is. */
  predicate Local(x: IThread) {
    && (x.sendobj.Some? <==> x.wait in {SendSleep, SendWoken})
    && (x.receiver.Some? ==> x.wait == SendSleep)
    && (x.wait in {RecvSleep, RecvWoken} ==> x.recvobj.Some? && x.sender == None)
    && (x.wait !in {RecvSleep, RecvWoken} ==> (x.recvobj.Some? <==> x.sender.Some?))
  }

  predicate OnObject(x: Option<Obj>, objs: map<Obj, Object>) {
    x.Some? ==> x.value in objs
  }

  ghost predicate Locals(th: map<Tid, IThread>, objs: map<Obj, Object>) {
    forall t :: t in th ==> Local(th[t]) && OnObject(th[t].sendobj, objs) && OnObject(th[t].recvobj, objs)
  }

  /** A sender whose message waits to be received. */
  predicate Sending(th: map<Tid, IThread>, t: Tid, o: Obj) {
    t in th && th[t].wait == SendSleep && th[t].sendobj == Some(o) && th[t].receiver == None
  }

  /** A receiver without message. */
  predicate Receiving(th: map<Tid, IThread>, t: Tid, o: Obj) {
    t in th && th[t].wait == RecvSleep && th[t].recvobj == Some(o)
  }

  /** The queues of an object hold exactly those, each once. */
  ghost predicate Queues(th: map<Tid, IThread>, o: Obj, x: Object) {
    && NoDup(x.sendq) && (forall t :: t in x.sendq <==> Sending(th, t, o))
    && NoDup(x.recvq) && (forall t :: t in x.recvq <==> Receiving(th, t, o))
  }

  ghost predicate AllQueues(th: map<Tid, IThread>, objs: map<Obj, Object>) {
    forall o :: o in objs ==> Queues(th, o, objs[o])
  }

  // ----- The stages of a message -----

  datatype Stage = Idle | Queued | Paired(r: Tid) | Answered(r: Tid) | Broken

  function NextStage(p: Stage, e: Event, t: Tid): Stage {
    match e
    case Sent(u) => if u != t then p else if p == Idle then Queued else Broken
    case Received(u, r) => if u != t then p else if p == Queued then Paired(r) else Broken
    case Replied(u, r) => if u != t then p else if p == Paired(r) then Answered(r) else Broken
    case Returned(u) => if u != t then p else if p.Answered? then Idle else Broken
  }

  function StageOf(log: seq<Event>, t: Tid): Stage {
    if log == [] then Idle else NextStage(StageOf(log[..|log| - 1], t), log[|log| - 1], t)
  }

  /** The stage that the record gives agrees with the thread. */
  predicate InStage(p: Stage, x: IThread) {
    match x.wait
    case SendSleep => if x.receiver == None then p == Queued else p == Paired(x.receiver.value)
    case SendWoken => p.Answered?
    case _ => p == Idle
  }

  ghost predicate Stages(th: map<Tid, IThread>, log: seq<Event>) {
    forall t :: if t in th then InStage(StageOf(log, t), th[t]) else StageOf(log, t) == Idle
  }

  ghost predicate IInv(s: IState) {
    Pairs(s.th) && Locals(s.th, s.objs) && AllQueues(s.th, s.objs) && Stages(s.th, s.log)
  }

  /** The events of one sender. */
  function Own(log: seq<Event>, t: Tid): seq<Event> {
    if log == [] then []
    else Own(log[..|log| - 1], t) + (if log[|log| - 1].t == t then [log[|log| - 1]] else [])
  }

  predicate EndsWith(l: seq<Event>, e: seq<Event>) {
    |e| <= |l| && l[|l| - |e|..] == e
  }

  /** What the events of a sender end with at each stage. */
  lemma {:induction false} StageShape(log: seq<Event>, t: Tid)
    ensures var (p, l) := (StageOf(log, t), Own(log, t));
      && (p == Queued ==> EndsWith(l, [Sent(t)]))
      && (p.Paired? ==> EndsWith(l, [Sent(t), Received(t, p.r)]))
      && (p.Answered? ==> EndsWith(l, [Sent(t), Received(t, p.r), Replied(t, p.r)]))
    decreases |log|
  {
    hide EndsWith;
    if log != [] {
      var (h, e) := (log[..|log| - 1], log[|log| - 1]);
      var (p, l) := (StageOf(h, t), Own(h, t));
      StageShape(h, t);
      if e.t == t {
        EndsPlus(l, [], e);
        assert [] + [e] == [e];
        if p == Queued {
          EndsPlus(l, [Sent(t)], e);
          assert [Sent(t)] + [e] == [Sent(t), e];
        } else if p.Paired? {
          EndsPlus(l, [Sent(t), Received(t, p.r)], e);
          assert [Sent(t), Received(t, p.r)] + [e] == [Sent(t), Received(t, p.r), e];
        }
      } else {
        assert l + [] == l;
      }
    }
  }

  lemma EndsPlus(l: seq<Event>, e: seq<Event>, x: Event)
    ensures EndsWith(l, e) || e == [] ==> EndsWith(l + [x], e + [x])
  {
    assert e == [] ==> (l + [x])[|l|..] == [x] && e + [x] == [x];
    assert EndsWith(l, e) ==> (l + [x])[|l| - |e|..] == l[|l| - |e|..] + [x];
  }

  /** Once broken, always broken. */
  lemma {:induction false} BrokenStays(log: seq<Event>, k: nat, t: Tid)
    requires k <= |log| && StageOf(log[..k], t) == Broken
    ensures StageOf(log, t) == Broken
    decreases |log|
  {
    if k < |log| {
      assert log[..|log| - 1][..k] == log[..k];
      BrokenStays(log[..|log| - 1], k, t);
    } else {
      assert log[..k] == log;
    }
  }

  /** In a record that is not broken every return of msg_send follows exactly one
      reception and one reply since the message was sent, by the same thread. */
  lemma ReturnMeans(log: seq<Event>, t: Tid, k: nat)
    requires StageOf(log, t) != Broken && k < |log| && log[k] == Returned(t)
    ensures var l := Own(log[..k], t);
      exists r :: EndsWith(l, [Sent(t), Received(t, r), Replied(t, r)])
  {
    var p := StageOf(log[..k], t);
    assert log[..k + 1][..k] == log[..k];
    assert StageOf(log[..k + 1], t) == NextStage(p, log[k], t);
    if !p.Answered? {
      BrokenStays(log, k + 1, t);
    }
    StageShape(log[..k], t);
    assert EndsWith(Own(log[..k], t), [Sent(t), Received(t, p.r), Replied(t, p.r)]);
  }

  // ----- Lost wake-ups -----

  /** The receivers of `o` that have been woken and have not run yet. */
  function Woken(th: map<Tid, IThread>, o: Obj): set<Tid> {
    set t | t in th && th[t].wait == RecvWoken && th[t].recvobj == Some(o)
  }

  /** While some receiver sleeps, no more senders are queued than receivers are
      on their way. */
  ghost predicate Attended(s: IState) {
    forall o :: o in s.objs && s.objs[o].recvq != [] ==> |s.objs[o].sendq| <= |Woken(s.th, o)|
  }
}
