/** The receiver as it is compiled: xmodemInTime asks again until a byte arrives, and
    so never reports a silence. Where a line ends, whoever reads waits. */
module XmodemWait {
  import opened Lists
  import opened Crc
  import opened CrcDetect
  import opened Xmodem

  // ----- Reading a line that may keep the reader waiting -----

  /** One answer; None if the reader waits for ever. */
  function ReadW(line: Line): Option<(Option<Byte>, Line)> {
    if line == [] then None else Some((line[0], line[1..]))
  }

  /** xmodemInFlush. */
  function FlushW(line: Line): Option<Line> {
    if line == [] then None else if line[0].None? then Some(line[1..]) else FlushW(line[1..])
  }

  function TakeW(line: Line, n: nat): Option<(seq<Byte>, Line)>
    decreases n
  {
    if n == 0 then Some(([], line))
    else if line == [] then None
    else if line[0].None? then Some(([], line[1..]))
    else
      match TakeW(line[1..], n - 1)
      case None => None
      case Some((more, rest)) => Some(([line[0].value] + more, rest))
  }

  function NakW(rx: Rx): Option<Outcome>
    requires rx.retry > 0
  {
    match FlushW(rx.input)
    case None => None
    case Some(rest) => Some(More(rx.(retry := rx.retry - 1, input := rest, response := NAK)))
  }

  /** A complete packet: only a frame that is written or repeated needs no flush. */
  function JudgeW(rx: Rx, bytes: seq<Byte>): Option<Outcome>
    requires |bytes| == 2 + rx.pktsize + CheckLen(rx.crcflag) && rx.retry > 0
  {
    if FrameOk(rx.crcflag, bytes, rx.pktsize) then
      if bytes[0] == rx.seqnum || bytes[0] == Previous(rx.seqnum) then Some(Judge(rx, bytes))
      else
        match FlushW(rx.input)
        case None => None
        case Some(rest) => Some(Returned(rx.(input := rest, sent := rx.sent + [CAN, CAN, CAN]), OUTOFSYNC))
    else NakW(rx)
  }

  function PacketW(rx: Rx): Option<Outcome>
    requires rx.retry > 0
  {
    var rx1 := rx.(crcflag := rx.response == SOLICIT || rx.crcflag);
    var n := 2 + rx1.pktsize + CheckLen(rx1.crcflag);
    match TakeW(rx1.input, n)
    case None => None
    case Some((bytes, rest)) =>
      TakeIs(rx1.input, n);
      if |bytes| < n then NakW(rx1.(input := rest)) else JudgeW(rx1.(input := rest), bytes)
  }

  /** Leaving with `reply` and `code`, after a flush. */
  function LeaveW(rx: Rx, reply: seq<Byte>, code: int): Option<Outcome> {
    match FlushW(rx.input)
    case None => None
    case Some(rest) => Some(Returned(rx.(input := rest, sent := rx.sent + reply), code))
  }

  function RoundW(rx: Rx): Option<Outcome>
    requires rx.retry > 0
  {
    match ReadW(rx.input)
    case None => None
    case Some((c, rest)) =>
      var rx1 := rx.(sent := rx.sent + [rx.response], input := rest);
      if c.None? then Some(More(rx1.(retry := rx1.retry - 1)))
      else if c.value == SOH then PacketW(rx1.(pktsize := 128))
      else if c.value == STX then PacketW(rx1.(pktsize := 1024))
      else if c.value == EOT then LeaveW(rx1, [ACK], ToLong(rx1.total))
      else if c.value == CAN then
        match ReadW(rest)
        case None => None
        case Some((c2, rest2)) =>
          if c2 == Some(CAN) then LeaveW(rx1.(input := rest2), [ACK], REMOTECANCEL)
          else PacketW(rx1.(input := rest2))
      else PacketW(rx1)
  }

  /** How a reception goes: it returns, or it waits for ever in the pass that starts
      from `rx`, in which it writes nothing more. */
  datatype Reception = Ends(rx: Rx, code: int) | Waits(rx: Rx)

  function ReceiveW(rx: Rx): Reception
    decreases |rx.input|, rx.retry
  {
    if rx.retry == 0 then
      match FlushW(rx.input)
      case None => Waits(rx)
      case Some(rest) => Ends(rx.(input := rest, sent := rx.sent + [CAN, CAN, CAN]), RETRYEXCEED)
    else
      match RoundW(rx)
      case None => Waits(rx)
      case Some(Returned(r, code)) => Ends(r, code)
      case Some(More(r)) => RoundIs(rx); RoundShrinks(rx); ReceiveW(r)
  }

  // ----- Against the receiver with time-outs -----

  /** A flush ends exactly when the line has a silence. */
  lemma {:induction false} FlushEnds(line: Line)
    ensures FlushW(line) == if None in line then Some(Flush(line)) else None
  {
    if line != [] && line[0].Some? {
      FlushEnds(line[1..]);
      assert line == [line[0]] + line[1..];
    }
  }

  lemma {:induction false} TakeIs(line: Line, n: nat)
    ensures TakeW(line, n).Some? ==> TakeW(line, n).value == Take(line, n)
    ensures TakeW(line, n).Some? ==> forall x :: x in TakeW(line, n).value.1 ==> x in line
    ensures TakeW(line, n).Some? && None !in line ==> |TakeW(line, n).value.0| == n
    decreases n
  {
    if n > 0 && line != [] {
      TakeIs(line[1..], n - 1);
      assert line == [line[0]] + line[1..];
    }
  }

  lemma JudgeIs(rx: Rx, bytes: seq<Byte>)
    requires |bytes| == 2 + rx.pktsize + CheckLen(rx.crcflag) && rx.retry > 0
    ensures JudgeW(rx, bytes).Some? ==> JudgeW(rx, bytes).value == Judge(rx, bytes)
    ensures JudgeW(rx, bytes).Some? && None !in rx.input ==>
      JudgeW(rx, bytes).value.More? && JudgeW(rx, bytes).value.rx.input == rx.input
  {
    hide FrameOk, Payload, Next, Previous, Flush;
    FlushEnds(rx.input);
  }

  lemma PacketIs(rx: Rx)
    requires rx.retry > 0
    ensures PacketW(rx).Some? ==> PacketW(rx).value == Packet(rx)
    ensures PacketW(rx).Some? && None !in rx.input ==>
      PacketW(rx).value.More? && None !in PacketW(rx).value.rx.input
  {
    hide Take, TakeW, JudgeW, Judge, Flush, FlushW;
    var rx1 := rx.(crcflag := rx.response == SOLICIT || rx.crcflag);
    var n := 2 + rx1.pktsize + CheckLen(rx1.crcflag);
    TakeIs(rx1.input, n);
    if TakeW(rx1.input, n).Some? {
      var (bytes, rest) := TakeW(rx1.input, n).value;
      FlushEnds(rest);
      if |bytes| == n {
        JudgeIs(rx1.(input := rest), bytes);
      }
    }
  }

  lemma LeaveIs(rx: Rx, reply: seq<Byte>, code: int)
    ensures LeaveW(rx, reply, code).Some? ==>
      LeaveW(rx, reply, code).value == Returned(rx.(input := Flush(rx.input), sent := rx.sent + reply), code)
    ensures None !in rx.input ==> LeaveW(rx, reply, code) == None
  {
    hide Flush, FlushW;
    FlushEnds(rx.input);
  }

  /** A pass that does not wait is a pass of the receiver with time-outs; without
      silences it is one that goes on. */
  lemma RoundIs(rx: Rx)
    requires rx.retry > 0
    ensures RoundW(rx).Some? ==> RoundW(rx).value == Round(rx)
    ensures RoundW(rx).Some? && None !in rx.input ==> RoundW(rx).value.More? && None !in RoundW(rx).value.rx.input
  {
    hide Packet, PacketW, Flush, FlushW, LeaveW, ToLong;
    if rx.input != [] {
      var c, rest := rx.input[0], rx.input[1..];
      assert rx.input == [c] + rest;
      var rx1 := rx.(sent := rx.sent + [rx.response], input := rest);
      if c == Some(SOH) {
        PacketIs(rx1.(pktsize := 128));
      } else if c == Some(STX) {
        PacketIs(rx1.(pktsize := 1024));
      } else if c == Some(EOT) {
        LeaveIs(rx1, [ACK], ToLong(rx1.total));
      } else if c == Some(CAN) {
        CanIs(rx1);
      } else if c.Some? {
        PacketIs(rx1);
      }
    }
  }

  /** The byte behind a CAN. */
  lemma CanIs(rx1: Rx)
    requires rx1.retry > 0
    ensures rx1.input != [] ==>
      var rx2 := rx1.(input := rx1.input[1..]);
      && (PacketW(rx2).Some? ==> PacketW(rx2).value == Packet(rx2))
      && (PacketW(rx2).Some? && None !in rx1.input ==> PacketW(rx2).value.More? && None !in PacketW(rx2).value.rx.input)
      && (LeaveW(rx2, [ACK], REMOTECANCEL).Some? ==>
            LeaveW(rx2, [ACK], REMOTECANCEL).value
            == Returned(rx2.(input := Flush(rx2.input), sent := rx2.sent + [ACK]), REMOTECANCEL))
      && (None !in rx1.input ==> LeaveW(rx2, [ACK], REMOTECANCEL) == None)
  {
    hide Packet, PacketW, Flush, FlushW, LeaveW;
    if rx1.input != [] {
      assert rx1.input == [rx1.input[0]] + rx1.input[1..];
      PacketIs(rx1.(input := rx1.input[1..]));
      LeaveIs(rx1.(input := rx1.input[1..]), [ACK], REMOTECANCEL);
    }
  }

  // ----- What it writes, and that it never returns -----

  lemma JudgeWrites(rx: Rx, bytes: seq<Byte>)
    requires |bytes| == 2 + rx.pktsize + CheckLen(rx.crcflag) && rx.retry > 0
    ensures rx.writes <= Judge(rx, bytes).rx.writes
  {
    hide FrameOk, Payload, Next, Previous, Flush;
  }

  lemma PacketWrites(rx: Rx)
    requires rx.retry > 0
    ensures rx.writes <= Packet(rx).rx.writes
  {
    hide Judge, Take, Flush;
    var rx1 := rx.(crcflag := rx.response == SOLICIT || rx.crcflag);
    var n := 2 + rx1.pktsize + CheckLen(rx1.crcflag);
    var (bytes, rest) := Take(rx1.input, n);
    if |bytes| == n {
      JudgeWrites(rx1.(input := rest), bytes);
    }
  }

  lemma RoundWrites(rx: Rx)
    requires rx.retry > 0
    ensures rx.writes <= Round(rx).rx.writes
  {
    hide Packet, Flush;
    var rest := Read(rx.input).1;
    var rx1 := rx.(sent := rx.sent + [rx.response], input := rest);
    PacketWrites(rx1.(pktsize := 128));
    PacketWrites(rx1.(pktsize := 1024));
    PacketWrites(rx1.(input := Read(rest).1));
    PacketWrites(rx1);
  }

  lemma {:induction false} WritesGrow(rx: Rx)
    ensures rx.writes <= Receive(rx).0.writes
    decreases |rx.input|, rx.retry
  {
    hide Round;
    if rx.retry > 0 {
      RoundWrites(rx);
      if Round(rx).More? {
        RoundShrinks(rx);
        WritesGrow(Round(rx).rx);
      }
    }
  }

  /** Waiting or not, what is written is right: a reception that returns is that of
      the receiver with time-outs, and one that waits has written a beginning of what
      that would write on the same line. */
  lemma {:induction false} ReceiveWIs(rx: Rx)
    requires RxInv(rx)
    ensures match ReceiveW(rx)
      case Ends(r, code) => Receive(rx) == (r, code)
      case Waits(r) => RxInv(r) && r.writes <= Receive(rx).0.writes
    decreases |rx.input|, rx.retry
  {
    hide RxInv, Round, RoundW, Flush;
    FlushEnds(rx.input);
    WritesGrow(rx);
    if rx.retry > 0 && RoundW(rx).Some? {
      RoundIs(rx);
      RoundOk(rx);
      if Round(rx).More? {
        RoundShrinks(rx);
        ReceiveWIs(Round(rx).rx);
      }
    }
  }

  lemma {:induction false} BytesNeverReturn(rx: Rx)
    requires None !in rx.input
    ensures ReceiveW(rx).Waits?
    decreases |rx.input|, rx.retry
  {
    hide Round, RoundW, FlushW;
    FlushEnds(rx.input);
    if rx.retry > 0 {
      RoundIs(rx);
      if RoundW(rx).Some? {
        RoundShrinks(rx);
        BytesNeverReturn(Round(rx).rx);
      }
    }
  }

  // ----- The compiled code -----

  /** What the compiled xmodemInTime returns in turn: the bytes alone. */
  function Heard(line: Line): (r: Line)
    ensures None !in r
  {
    if line == [] then [] else (if line[0].Some? then [line[0]] else []) + Heard(line[1..])
  }

  /** xmodemInTime as compiled: the next byte, or None if it waits for ever. */
  function Listen(line: Line): Option<(Byte, Line)> {
    if line == [] then None
    else if line[0].Some? then Some((line[0].value, line[1..]))
    else Listen(line[1..])
  }

  method InTime(input: Line) returns (c: Option<Byte>, rest: Line)
    ensures Listen(input) == match c case None => None case Some(b) => Some((b, rest))
  {
    rest := input;
    while rest != []
      invariant Listen(rest) == Listen(input)
      decreases |rest|
    {
      c, rest := rest[0], rest[1..];
      if c.Some? {
        return;
      }
    }
    return None, [];
  }

  lemma {:induction false} ListenHears(line: Line)
    ensures Listen(line).None? <==> Heard(line) == []
    ensures Listen(line).Some? ==> ReadW(Heard(line)) == Some((Some(Listen(line).value.0), Heard(Listen(line).value.1)))
  {
    if line != [] {
      var h := Heard(line[1..]);
      ListenHears(line[1..]);
      if line[0].Some? {
        assert Heard(line) == [line[0]] + h && ([line[0]] + h)[1..] == h;
      } else {
        assert Heard(line) == h;
      }
    }
  }

  /** As compiled, xmodemReceive returns on no line: every way out leads through a
      flush, which never ends. What it has written by then is still in order, and a
      beginning of what the receiver with time-outs writes. */
  lemma CompiledNeverReturns(line: Line)
    ensures FlushW(Heard(line)) == None
    ensures var w, t := ReceiveW(Start(Heard(line))), Receive(Start(Heard(line))).0;
      w.Waits? && RxInv(w.rx) && w.rx.writes <= t.writes
  {
    hide RxInv, ReceiveW, Receive, Heard;
    FlushEnds(Heard(line));
    StartOk(Heard(line));
    BytesNeverReturn(Start(Heard(line)));
    ReceiveWIs(Start(Heard(line)));
  }
}
