/** A run of message passing in which a wake-up is lost. */
module IpcLost {
  import opened Lists
  import opened Ipc
  import opened IpcInv
  import opened IpcSteps
  import opened IpcRuns

  /** Threads 1 and 2 receive on object 7, thread 3 sends to it; the copy to the
      receiver that is woken fails. */
  function LostRun(): seq<IOp> {
    [NewThread(1, 1, 100), NewThread(2, 1, 100), NewThread(3, 2, 100), NewObject(7, 1)] + LostCalls()
  }

  function LostCalls(): seq<IOp> {
    [Receive(1, 7, 100, true, true), Receive(2, 7, 100, true, true), Send(3, 7, 100, true, true),
     ReceiveResume(1, false)]
  }

  function Begun(): IState {
    IState(map[1 := NewIThread(1, 100), 2 := NewIThread(1, 100), 3 := NewIThread(2, 100)],
           map[7 := Object(1, [], [])], [])
  }

  function Waiting(w: Wait): IThread {
    NewIThread(1, 100).(wait := w, recvobj := Some(7), rsize := 100)
  }

  function Sender(): IThread {
    NewIThread(2, 100).(wait := SendSleep, sendobj := Some(7), msgsize := 100)
  }

  function OneWaits(): IState {
    IState(map[1 := Waiting(RecvSleep), 2 := NewIThread(1, 100), 3 := NewIThread(2, 100)],
           map[7 := Object(1, [], [1])], [])
  }

  function BothWait(): IState {
    IState(map[1 := Waiting(RecvSleep), 2 := Waiting(RecvSleep), 3 := NewIThread(2, 100)],
           map[7 := Object(1, [], [1, 2])], [])
  }

  function SentTo(): IState {
    IState(map[1 := Waiting(RecvWoken), 2 := Waiting(RecvSleep), 3 := Sender()],
           map[7 := Object(1, [3], [2])], [Sent(3)])
  }

  /** Thread 2 sleeps in msg_receive, thread 3 in msg_send on the same object,
      and nobody is on the way to either. */
  function Stuck(): IState {
    IState(map[1 := NewIThread(1, 100).(rsize := 100), 2 := Waiting(RecvSleep), 3 := Sender()],
           map[7 := Object(1, [3], [2])], [Sent(3)])
  }

  lemma FirstWaits()
    ensures MsgReceive(Begun(), 1, 7, 100, true, true) == (OneWaits(), Blocked)
  {
    var none: seq<Tid> := [];
    assert none + [1] == [1];
    var (r, e) := MsgReceive(Begun(), 1, 7, 100, true, true);
    assert r.th == OneWaits().th && r.objs == OneWaits().objs;
  }

  lemma SecondWaits()
    ensures MsgReceive(OneWaits(), 2, 7, 100, true, true) == (BothWait(), Blocked)
  {
    var (r, e) := MsgReceive(OneWaits(), 2, 7, 100, true, true);
    assert [1] + [2] == [1, 2];
    assert r.th == BothWait().th && r.objs == BothWait().objs;
  }

  lemma ThirdSends()
    ensures InTable(BothWait().objs[7].recvq, BothWait().th)
    ensures MsgSend(BothWait(), 3, 7, 100, true, true) == (SentTo(), Blocked)
  {
    var s := BothWait();
    assert s.objs[7].recvq == [1, 2] && [1, 2][..1] == [1];
    var s0 := SetThread(s, 3, s.th[3].(msgsize := 100));
    assert Top(s0.th, [1]) == 1;
    assert Top(s0.th, [1, 2]) == 1;
    assert Remove([1, 2], 1) == [2];
    var none: seq<Tid> := [];
    assert none + [3] == [3];
    var nil: seq<Event> := [];
    assert nil + [Sent(3)] == [Sent(3)];
    var r := MsgSend(s, 3, 7, 100, true, true).0;
    assert r.th == SentTo().th && r.objs == SentTo().objs;
  }

  lemma CopyFails()
    ensures InTable(SentTo().objs[7].sendq, SentTo().th)
    ensures ReceiveLoop(SentTo(), 1, 7, false) == (Stuck(), EFAULT)
  {
    var s := SentTo();
    assert s.objs[7].sendq == [3];
    assert Top(s.th, [3]) == 3;
    assert Remove([3], 3) + [3] == [3];
    ReceiveValue(s, 1, 7, false);
    var r := ReceiveLoop(s, 1, 7, false).0;
    assert r.th == Stuck().th && r.objs == Stuck().objs;
  }

  lemma Begin()
    ensures IInv(IStart()) && IInv(Begun())
    ensures IExec(IStart(), LostRun()) == IExec(Begun(), LostCalls())
  {
    hide IInv, LostCalls;
    IStartOk();
    var s1 := SetThread(IStart(), 1, NewIThread(1, 100));
    var s2 := SetThread(s1, 2, NewIThread(1, 100));
    var s3 := SetThread(s2, 3, NewIThread(2, 100));
    var s4 := s3.(objs := s3.objs[7 := Object(1, [], [])]);
    NewThreadOk(IStart(), 1, 1, 100);
    NewThreadOk(s1, 2, 1, 100);
    NewThreadOk(s2, 3, 2, 100);
    NewObjectOk(s3, 7, 1);
    assert s4.th == Begun().th && s4.objs == Begun().objs;
    Step(IStart(), LostRun());
    Step(s1, LostRun()[1..]);
    Step(s2, LostRun()[2..]);
    Step(s3, LostRun()[3..]);
    assert LostRun()[1..][1..] == LostRun()[2..] && LostRun()[2..][1..] == LostRun()[3..];
    assert LostRun()[3..][1..] == LostCalls();
  }

  lemma Step(s: IState, ops: seq<IOp>)
    requires IInv(s) && ops != [] && ICan(s, ops[0])
    ensures Ready(s, ops[0]) && IInv(IApply(s, ops[0]).0)
    ensures IExec(s, ops) == IExec(IApply(s, ops[0]).0, ops[1..])
  {
    hide IInv, IApply;
    ReadyOk(s, ops[0]);
    IApplyOk(s, ops[0]);
  }

  /** So a wake-up can be lost: after this run, which starts from nothing, a
      sender and a receiver sleep on the same object and nobody is on the way. */
  lemma WakeupLost()
    ensures IInv(IStart()) && IExec(IStart(), LostRun()) == Stuck()
    ensures Stuck().objs[7].sendq == [3] && Stuck().objs[7].recvq == [2] && Woken(Stuck().th, 7) == {}
    ensures !Attended(Stuck())
  {
    hide IInv, LostRun, IApply, MsgReceive, MsgSend, ReceiveLoop, IExec;
    Begin();
    FirstWaits();
    SecondWaits();
    ThirdSends();
    CopyFails();
    var ops := LostCalls();
    Calls(ops);
    assert Woken(Stuck().th, 7) == {};
  }

  lemma Calls(ops: seq<IOp>)
    requires ops == LostCalls() && IInv(Begun())
    requires MsgReceive(Begun(), 1, 7, 100, true, true).0 == OneWaits()
    requires MsgReceive(OneWaits(), 2, 7, 100, true, true).0 == BothWait()
    requires InTable(BothWait().objs[7].recvq, BothWait().th)
    requires MsgSend(BothWait(), 3, 7, 100, true, true).0 == SentTo()
    requires InTable(SentTo().objs[7].sendq, SentTo().th)
    requires ReceiveLoop(SentTo(), 1, 7, false).0 == Stuck()
    ensures IExec(Begun(), ops) == Stuck()
  {
    hide IInv, MsgReceive, MsgSend, ReceiveLoop, IExec;
    Step(Begun(), ops);
    Step(OneWaits(), ops[1..]);
    Step(BothWait(), ops[2..]);
    Step(SentTo(), ops[3..]);
    assert ops[1..][1..] == ops[2..] && ops[2..][1..] == ops[3..] && ops[3..][1..] == [];
    Finish(Stuck());
  }

  lemma Finish(s: IState)
    requires IInv(s)
    ensures IExec(s, []) == s
  {
    hide IInv;
  }
}
