/** The code of xmodemReceive: the packet buffer and the loops. */
module XmodemCode {
  import opened Lists
  import opened Crc
  import opened CrcDetect
  import opened Xmodem
  import X = Xmodem

  const BUFFER_SIZE: nat := 1024

  /** What a part of the loop body answers: none to go on, or the result. */
  ghost predicate Says(code: Option<int>, rx: Rx, o: Outcome) {
    match o
    case More(r) => code == None && rx == r
    case Returned(r, e) => code == Some(e) && rx == r
  }

  /** One reception: the input function's answers still to come, the variables of
      xmodemReceive, and what it has handed to the output and write functions. */
  class Modem {
    var input: Line
    const xmbuf: array<Byte>
    var seqnum: Byte
    var pktsize: nat
    var response: Byte
    var retry: nat
    var crcflag: bool
    var total: nat
    var sent: seq<Byte>
    var writes: seq<seq<Byte>>
    ghost var frames: seq<Frame>

    ghost function State(): Rx
      reads this
    {
      Rx(input, seqnum, pktsize, response, retry, crcflag, total, sent, writes, frames)
    }

    ghost predicate Valid()
      reads this
    {
      xmbuf.Length == BUFFER_SIZE + 6 && (pktsize == 128 || pktsize == 1024)
    }

    constructor (line: Line)
      ensures Valid() && State() == Start(line) && fresh(xmbuf)
    {
      input := line;
      xmbuf := new Byte[BUFFER_SIZE + 6];
      seqnum, pktsize, response, retry, crcflag, total := 1, 128, SOLICIT, RETRY_LIMIT, false, 0;
      sent, writes, frames := [], [], [];
    }

    method InTime() returns (c: Option<Byte>)
      modifies this`input
      ensures (c, input) == Read(old(input))
    {
      if input == [] {
        return None;
      }
      c := input[0];
      input := input[1..];
    }

    method InFlush()
      modifies this`input
      ensures input == Flush(old(input))
    {
      var c := InTime();
      while c.Some?
        invariant if c.Some? then Flush(input) == Flush(old(input)) else input == Flush(old(input))
        decreases |input|, c.Some?
      {
        c := InTime();
      }
    }

    /** The loop that reads `n` more bytes into the buffer behind the start byte; it
        stops at a silence. */
    method ReadRest(n: nat) returns (i: nat)
      requires n < xmbuf.Length
      modifies this`input, xmbuf
      ensures i <= n && (xmbuf[1..1 + i], input) == Take(old(input), n)
    {
      i := 0;
      assert xmbuf[1..1] == [];
      Prefixed([], Take(input, n).0);
      while i < n
        invariant i <= n
        invariant Take(old(input), n) == (xmbuf[1..1 + i] + Take(input, n - i).0, Take(input, n - i).1)
      {
        ghost var before, got := input, xmbuf[1..1 + i];
        var c := InTime();
        if c.None? {
          Prefixed(got, []);
          return;
        }
        xmbuf[1 + i] := c.value;
        assert xmbuf[1..1 + (i + 1)] == got + [c.value];
        Joined(got, c.value, Take(input, n - i - 1).0);
        i := i + 1;
      }
      Prefixed(xmbuf[1..1 + i], []);
    }

    /** The checks on a complete packet, and what follows from them; `bytes` is the
        buffer behind the start byte. */
    method JudgePacket(bytes: seq<Byte>) returns (code: Option<int>)
      requires Valid() && retry > 0 && |bytes| == 2 + pktsize + CheckLen(crcflag)
      modifies this
      ensures Valid() && Says(code, State(), Judge(old(State()), bytes))
    {
      hide Judge, Next, Previous, Complement, CheckOk, Payload, Flush;
      JudgeCases(State(), bytes);
      var ok := XmodemCrcCheck(crcflag, bytes[2..], pktsize);
      if Complement(bytes[0], bytes[1]) && ok {
        if bytes[0] == seqnum {
          writes := writes + [Payload(bytes, pktsize)];
          total := (total + pktsize) % ULONG;
          seqnum := Next(seqnum);
          retry := RETRY_LIMIT;
          response := ACK;
          frames := frames + [Frame(bytes, pktsize, true)];
        } else if bytes[0] == Previous(seqnum) {
          response := ACK;
          frames := frames + [Frame(bytes, pktsize, false)];
        } else {
          InFlush();
          sent := sent + [CAN, CAN, CAN];
          return Some(OUTOFSYNC);
        }
      } else {
        retry := retry - 1;
        InFlush();
        response := NAK;
      }
      return None;
    }

    /** The packet behind the start byte `c`. */
    method ReadPacket(c: Option<Byte>) returns (code: Option<int>)
      requires Valid() && retry > 0
      modifies this, xmbuf
      ensures Valid() && Says(code, State(), Packet(old(State())))
    {
      hide Packet, Judge, Take, Flush;
      PacketCases(State());
      if response == SOLICIT {
        crcflag := true;
      }
      xmbuf[0] := if c.Some? then c.value else 0xff;
      var n := 2 + pktsize + CheckLen(crcflag);
      var i := ReadRest(n);
      if i < n {
        retry := retry - 1;
        InFlush();
        response := NAK;
        return None;
      }
      code := JudgePacket(xmbuf[1..1 + n]);
    }

    /** One pass of the loop. */
    method Pass() returns (code: Option<int>)
      requires Valid() && retry > 0
      modifies this, xmbuf
      ensures Valid() && Says(code, State(), Round(old(State())))
    {
      hide Round, Packet, Flush;
      RoundCases(State());
      sent := sent + [response];
      var c := InTime();
      if c == None {
        retry := retry - 1;
        return None;
      }
      if c == Some(SOH) {
        pktsize := 128;
      } else if c == Some(STX) {
        pktsize := 1024;
      } else if c == Some(EOT) {
        InFlush();
        sent := sent + [ACK];
        return Some(ToLong(total));
      } else if c == Some(CAN) {
        c := InTime();
        if c == Some(CAN) {
          InFlush();
          sent := sent + [ACK];
          return Some(REMOTECANCEL);
        }
      }
      code := ReadPacket(c);
    }

    /** xmodemReceive. */
    method Receive() returns (code: int)
      requires Valid()
      modifies this, xmbuf
      ensures (State(), code) == X.Receive(old(State()))
    {
      hide Round, X.Receive, Flush;
      while retry > 0
        invariant Valid() && X.Receive(State()) == X.Receive(old(State()))
        decreases |input|, retry
      {
        ReceiveStep(State());
        var done := Pass();
        if done.Some? {
          return done.value;
        }
      }
      ReceiveStep(State());
      InFlush();
      sent := sent + [CAN, CAN, CAN];
      return RETRYEXCEED;
    }
  }

  lemma Prefixed(a: seq<Byte>, b: seq<Byte>)
    ensures a == [] ==> a + b == b
    ensures b == [] ==> a + b == a
  {
  }

  lemma Joined(a: seq<Byte>, x: Byte, b: seq<Byte>)
    ensures a + ([x] + b) == a + [x] + b
  {
  }

  lemma ReceiveStep(rx: Rx)
    ensures rx.retry == 0 ==>
      X.Receive(rx) == (rx.(input := Flush(rx.input), sent := rx.sent + [CAN, CAN, CAN]), RETRYEXCEED)
    ensures rx.retry > 0 ==> match Round(rx) {
      case Returned(r, code) => X.Receive(rx) == (r, code)
      case More(r) =>
        && X.Receive(rx) == X.Receive(r)
        && (|r.input| < |rx.input| || (r.input == rx.input == [] && r.retry < rx.retry)) }
  {
    hide Round, Flush;
    if rx.retry > 0 && Round(rx).More? {
      RoundShrinks(rx);
    }
  }

  /** Round, case by case. */
  lemma RoundCases(rx: Rx)
    requires rx.retry > 0
    ensures var (c, rest) := Read(rx.input);
      var (c2, rest2) := Read(rest);
      var rx1 := rx.(sent := rx.sent + [rx.response], input := rest);
      && (c == None ==> Round(rx) == More(rx1.(retry := rx.retry - 1)))
      && (c == Some(SOH) ==> Round(rx) == Packet(rx1.(pktsize := 128)))
      && (c == Some(STX) ==> Round(rx) == Packet(rx1.(pktsize := 1024)))
      && (c == Some(EOT) ==> Round(rx) == Returned(rx1.(input := Flush(rest), sent := rx1.sent + [ACK]), ToLong(rx.total)))
      && (c == Some(CAN) && c2 == Some(CAN) ==>
            Round(rx) == Returned(rx1.(input := Flush(rest2), sent := rx1.sent + [ACK]), REMOTECANCEL))
      && (c == Some(CAN) && c2 != Some(CAN) ==> Round(rx) == Packet(rx1.(input := rest2)))
      && (c.Some? && c.value !in {SOH, STX, EOT, CAN} ==> Round(rx) == Packet(rx1))
  {
    hide Packet, Flush;
  }

  lemma PacketCases(rx: Rx)
    requires rx.retry > 0
    ensures var rx1 := rx.(crcflag := rx.response == SOLICIT || rx.crcflag);
      var n := 2 + rx.pktsize + CheckLen(rx1.crcflag);
      var (bytes, rest) := Take(rx.input, n);
      && (|bytes| < n ==> Packet(rx) == More(rx1.(retry := rx.retry - 1, input := Flush(rest), response := NAK)))
      && (|bytes| == n ==> Packet(rx) == Judge(rx1.(input := rest), bytes))
  {
    hide Judge, Flush, Take;
  }

  lemma JudgeCases(rx: Rx, bytes: seq<Byte>)
    requires |bytes| == 2 + rx.pktsize + CheckLen(rx.crcflag) && rx.retry > 0
    ensures var ok := Complement(bytes[0], bytes[1]) && CheckOk(rx.crcflag, bytes[2..], rx.pktsize);
      && (ok && bytes[0] == rx.seqnum ==> Judge(rx, bytes) == More(rx.(
            writes := rx.writes + [Payload(bytes, rx.pktsize)], total := (rx.total + rx.pktsize) % ULONG,
            seqnum := Next(rx.seqnum), retry := RETRY_LIMIT, response := ACK,
            frames := rx.frames + [Frame(bytes, rx.pktsize, true)])))
      && (ok && bytes[0] != rx.seqnum && bytes[0] == Previous(rx.seqnum) ==>
            Judge(rx, bytes) == More(rx.(response := ACK, frames := rx.frames + [Frame(bytes, rx.pktsize, false)])))
      && (ok && bytes[0] != rx.seqnum && bytes[0] != Previous(rx.seqnum) ==>
            Judge(rx, bytes) == Returned(rx.(input := Flush(rx.input), sent := rx.sent + [CAN, CAN, CAN]), OUTOFSYNC))
      && (!ok ==> Judge(rx, bytes) == More(rx.(retry := rx.retry - 1, input := Flush(rx.input), response := NAK)))
  {
    hide CheckOk, Payload, Next, Previous, Complement, Flush;
  }
}
