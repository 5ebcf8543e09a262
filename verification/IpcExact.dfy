/** What the message calls do, said of the states before and after alone: which thread
    is chosen, what becomes of the queues, and who is left alone. */
module IpcExact {
  import opened Lists
  import opened Ipc
  import opened IpcInv
  import opened IpcSteps

  /** The first of the best threads is the `k`-th of the queue. */
  ghost predicate Chosen(th: map<Tid, IThread>, q: seq<Tid>, k: nat) {
    && InTable(q, th) && k < |q|
    && (forall i :: 0 <= i < |q| ==> th[q[k]].priority <= th[q[i]].priority)
    && (forall i :: 0 <= i < k ==> th[q[k]].priority < th[q[i]].priority)
  }

  function Without(q: seq<Tid>, k: nat): seq<Tid>
    requires k < |q|
  {
    q[..k] + q[k + 1..]
  }

  lemma {:induction false} TopIndex(th: map<Tid, IThread>, q: seq<Tid>) returns (k: nat)
    requires q != [] && InTable(q, th)
    ensures Chosen(th, q, k) && Top(th, q) == q[k]
    decreases |q|
  {
    k := |q| - 1;
    if |q| > 1 {
      var j := TopIndex(th, q[..|q| - 1]);
      if th[q[k]].priority >= th[q[j]].priority {
        k := j;
      }
    }
  }

  lemma TopAt(th: map<Tid, IThread>, q: seq<Tid>) returns (k: nat)
    requires q != [] && InTable(q, th) && NoDup(q)
    ensures Chosen(th, q, k) && Top(th, q) == q[k] && Remove(q, q[k]) == Without(q, k)
  {
    k := TopIndex(th, q);
    RemoveAt(q, k);
  }

  /** Only object `o` has changed, and of the threads at most those of `who`. */
  ghost predicate Only(s: IState, r: IState, o: Obj, who: set<Tid>) {
    && r.th.Keys == s.th.Keys && r.objs.Keys == s.objs.Keys && o in s.objs
    && (forall x :: x in s.objs && x != o ==> r.objs[x] == s.objs[x]) && r.objs[o].owner == s.objs[o].owner
    && (forall t :: t in s.th && t !in who ==> r.th[t] == s.th[t])
  }

  // ----- msg_send -----

  lemma SendChecks(s: IState, c: Tid, o: Obj, size: int, user: bool, mapped: bool)
    requires c in s.th && (o in s.objs ==> InTable(s.objs[o].recvq, s.th))
    ensures var (r, e) := MsgSend(s, c, o, size, user, mapped);
      && (e == EINVAL <==> user && (size < 12 || o !in s.objs))
      && (e == EDEADLK <==> user && size >= 12 && o in s.objs && s.th[c].recvobj == Some(o))
      && (e == EFAULT <==> !user || (size >= 12 && o in s.objs && s.th[c].recvobj != Some(o) && !mapped))
      && (e == Blocked <==> user && size >= 12 && o in s.objs && s.th[c].recvobj != Some(o) && mapped)
      && (e != Blocked ==> r == s)
  {
    hide WakeReceiver, SetThread, SetSendq;
  }

  lemma SendQuiet(s: IState, c: Tid, o: Obj, size: int)
    requires c in s.th && o in s.objs && s.objs[o].recvq == [] && s.th[c].recvobj != Some(o) && size >= HDR_SIZE
    ensures MsgSend(s, c, o, size, true, true) == (SetSendq(
        SetThread(s, c, s.th[c].(msgsize := size, sendobj := Some(o), wait := SendSleep)), o, s.objs[o].sendq + [c])
          .(log := s.log + [Sent(c)]), Blocked)
  {
    var x := s.th[c].(msgsize := size);
    var y := x.(sendobj := Some(o), wait := SendSleep);
    assert s.th[c := x][c := y] == s.th[c := y];
  }

  lemma SendWakes(s: IState, c: Tid, o: Obj, size: int, t: Tid)
    requires c in s.th && o in s.objs && InTable(s.objs[o].recvq, s.th) && s.objs[o].recvq != []
    requires s.th[c].recvobj != Some(o) && size >= HDR_SIZE
    requires t == Top(s.th, s.objs[o].recvq) && t != c && s.th[t].wait == RecvSleep
    ensures var x := s.th[c].(msgsize := size, sendobj := Some(o), wait := SendSleep);
      MsgSend(s, c, o, size, true, true) ==
        (IState(s.th[c := x][t := s.th[t].(wait := RecvWoken)],
                s.objs[o := Object(s.objs[o].owner, s.objs[o].sendq + [c], Remove(s.objs[o].recvq, t))],
                s.log + [Sent(c)]), Blocked)
  {
    var q := s.objs[o].recvq;
    var a := s.th[c].(msgsize := size);
    var x := a.(sendobj := Some(o), wait := SendSleep);
    var z := s.th[t].(wait := RecvWoken);
    TopSame(s.th, s.th[c := a], q);
    hide Top, Remove;
    assert s.th[c := a][t := z][c := x] == s.th[c := x][t := z];
    var y := s.objs[o].(recvq := Remove(q, t));
    assert s.objs[o := y][o := y.(sendq := s.objs[o].sendq + [c])] == s.objs[o := y.(sendq := s.objs[o].sendq + [c])];
  }

  /** msg_send in the order of its checks; when it blocks the message is queued last with
      its size, and the first of the best receivers, if any waits, is taken off the queue
      and woken. */
  lemma SendExact(s: IState, c: Tid, o: Obj, size: int, user: bool, mapped: bool) returns (k: nat)
    requires IInv(s) && c in s.th && s.th[c].wait == Out
    ensures o in s.objs ==> InTable(s.objs[o].recvq, s.th)
    ensures var (r, e) := MsgSend(s, c, o, size, user, mapped);
      && (e == EINVAL <==> user && (size < 12 || o !in s.objs))
      && (e == EDEADLK <==> user && size >= 12 && o in s.objs && s.th[c].recvobj == Some(o))
      && (e == EFAULT <==> !user || (size >= 12 && o in s.objs && s.th[c].recvobj != Some(o) && !mapped))
      && (e == Blocked <==> user && size >= 12 && o in s.objs && s.th[c].recvobj != Some(o) && mapped)
      && (e != Blocked ==> r == s)
    ensures MsgSend(s, c, o, size, user, mapped).1 == Blocked ==>
      var (r, q) := (MsgSend(s, c, o, size, user, mapped).0, s.objs[o].recvq);
      && Only(s, r, o, if q == [] then {c} else {c, q[if k < |q| then k else 0]})
      && r.th[c] == s.th[c].(msgsize := size, sendobj := Some(o), wait := SendSleep)
      && r.objs[o].sendq == s.objs[o].sendq + [c]
      && (q == [] ==> r.objs[o].recvq == [])
      && (q != [] ==>
            && Chosen(s.th, q, k) && q[k] != c && r.objs[o].recvq == Without(q, k)
            && r.th[q[k]] == s.th[q[k]].(wait := RecvWoken))
  {
    hide IInv, Top, Remove, Chosen, MsgSend, Without;
    k := 0;
    if o in s.objs {
      KnownQueues(s, o);
    }
    SendChecks(s, c, o, size, user, mapped);
    if user && size >= 12 && o in s.objs && s.th[c].recvobj != Some(o) && mapped {
      var q := s.objs[o].recvq;
      if q == [] {
        SendQuiet(s, c, o, size);
      } else {
        k := TopAt(s.th, q);
        assert Receiving(s.th, q[k], o);
        SendWakes(s, c, o, size, q[k]);
      }
    }
  }

  // ----- msg_receive -----

  /** The reception by `c`, which waits in the loop: it sleeps at the end of the queue if
      no message is there; else it takes the first of the best senders, or, if the copy
      fails, puts it back at the end and gives up. */
  lemma LoopExact(s: IState, c: Tid, o: Obj, copied: bool) returns (k: nat)
    requires Looking(s, c, o)
    ensures InTable(s.objs[o].sendq, s.th)
    ensures var ((r, e), q, x) := (ReceiveLoop(s, c, o, copied), s.objs[o].sendq, s.th[c]);
      && (q == [] ==>
            && e == Blocked && Only(s, r, o, {c}) && r.th[c] == x.(wait := RecvSleep)
            && r.objs[o].sendq == [] && r.objs[o].recvq == s.objs[o].recvq + [c])
      && (q != [] ==>
            && Chosen(s.th, q, k) && q[k] != c && r.objs[o].recvq == s.objs[o].recvq
            && (e == Done || e == EFAULT)
            && (e == EFAULT <==> x.rsize > 0 && s.th[q[k]].msgsize > 0 && !copied)
            && (e == Done ==>
                  && Only(s, r, o, {c, q[k]}) && r.th[c] == x.(wait := Out, sender := Some(q[k]))
                  && r.th[q[k]] == s.th[q[k]].(receiver := Some(c)) && r.objs[o].sendq == Without(q, k))
            && (e == EFAULT ==>
                  && Only(s, r, o, {c}) && r.th[c] == x.(wait := Out, recvobj := None)
                  && r.objs[o].sendq == Without(q, k) + [q[k]]))
  {
    hide IInv, Top, Remove, Chosen, Without;
    k := 0;
    KnownQueues(s, o);
    var q := s.objs[o].sendq;
    if q != [] {
      k := TopAt(s.th, q);
      assert Sending(s.th, q[k], o);
      ReceiveValue(s, c, o, copied);
      hide ReceiveLoop;
    }
  }

  /** msg_receive: the errors of its checks, or the loop with the caller holding `o`. */
  lemma ReceiveExact(s: IState, c: Tid, o: Obj, size: int, user: bool, copied: bool)
    requires IInv(s) && c in s.th && s.th[c].wait == Out
    ensures o in s.objs ==> InTable(s.objs[o].sendq, s.th)
    ensures var ((r, e), x) := (MsgReceive(s, c, o, size, user, copied), s.th[c]);
      && (!user ==> r == s && e == EFAULT)
      && (user && o !in s.objs ==> r == s && e == EINVAL)
      && (user && o in s.objs && s.objs[o].owner != x.task ==> r == s && e == EACCES)
      && (user && o in s.objs && s.objs[o].owner == x.task && x.recvobj.Some? ==> r == s && e == EBUSY)
      && (user && o in s.objs && s.objs[o].owner == x.task && x.recvobj == None ==>
            var w := s.(th := s.th[c := x.(recvobj := Some(o), rsize := size, wait := RecvWoken)]);
            Looking(w, c, o) && InTable(w.objs[o].sendq, w.th) && (r, e) == ReceiveLoop(w, c, o, copied))
  {
    hide IInv, ReceiveLoop, Top;
    if o in s.objs {
      KnownQueues(s, o);
      if s.th[c].recvobj == None {
        ReceiveEnters(s, c, o, size, copied);
      }
    }
  }

  // ----- msg_reply -----

  /** msg_reply: the sender goes on, both forget each other, and the receiver gives the
      object up. It fails exactly on the wrong object or a bad buffer. */
  lemma ReplyExact(s: IState, c: Tid, o: Obj, size: int, user: bool, copied: bool)
    requires IInv(s) && c in s.th && s.th[c].wait == Out
    ensures s.th[c].sender.Some? ==> s.th[c].sender.value in s.th
    ensures var ((r, e), x) := (MsgReply(s, c, o, size, user, copied), s.th[c]);
      && (e == EINVAL <==> user && (o !in s.objs || x.recvobj != Some(o)))
      && (user && o in s.objs && x.recvobj == Some(o) ==> x.sender.Some?)
      && (e == EFAULT <==> !user || (o in s.objs && x.recvobj == Some(o) && size > 0 && s.th[x.sender.value].msgsize > 0 && !copied))
      && (e == Done || (r == s && e in {EINVAL, EFAULT}))
      && (e == Done ==>
            var t := x.sender.value;
            && t != c && s.th[t].wait == SendSleep && r.objs == s.objs && r.th.Keys == s.th.Keys
            && r.th[c] == x.(sender := None, recvobj := None)
            && r.th[t] == s.th[t].(wait := SendWoken, receiver := None)
            && forall u :: u in s.th && u != c && u != t ==> r.th[u] == s.th[u])
  {
    hide IInv, StageOf;
    FieldsOf(s, c);
    if s.th[c].sender.Some? {
      SenderOf(s, c);
      ReplyValue(s, c, o, size, user, copied);
    }
  }

  /** Should the sender have vanished, which none of these runs leads to, the receiver
      gives the object up and is told so. */
  lemma ReplyVanished(s: IState, c: Tid, o: Obj, size: int, copied: bool)
    requires c in s.th && s.th[c].recvobj == Some(o) && s.th[c].sender == None && o in s.objs
    ensures MsgReply(s, c, o, size, true, copied) == (s.(th := s.th[c := s.th[c].(recvobj := None)]), EINVAL)
  {
  }
}
