/** The receiver of src/cbl/xmodem.c as a state machine: one round per pass of its
    loop. The line is a sequence of answers of the input function, each a byte or
    none; when it is used up there are no more bytes. */
module Xmodem {
  import opened Lists
  import opened Crc
  import opened CrcDetect

  type Line = seq<Option<Byte>>

  const SOH: Byte := 0x01
  const STX: Byte := 0x02
  const EOT: Byte := 0x04
  const ACK: Byte := 0x06
  const NAK: Byte := 0x15
  const CAN: Byte := 0x18
  const SOLICIT: Byte := 0x43
  const RETRY_LIMIT: nat := 3
  const OUTOFSYNC: int := -1
  const REMOTECANCEL: int := -2
  const RETRYEXCEED: int := -3
  const ULONG: int := 0x1_0000_0000

  /** A frame that passed its checks: what followed its start byte, the size of its
      data, and whether the data was written. */
  datatype Frame = Frame(bytes: seq<Byte>, size: nat, written: bool)

  /** The variables of xmodemReceive, with what it has sent and written; `frames`
      lists the frames that passed, in order. */
  datatype Rx = Rx(
    input: Line, seqnum: Byte, pktsize: nat, response: Byte, retry: nat, crcflag: bool, total: nat,
    sent: seq<Byte>, writes: seq<seq<Byte>>, frames: seq<Frame>)

  datatype Outcome = More(rx: Rx) | Returned(rx: Rx, code: int)

  function Start(input: Line): Rx {
    Rx(input, 1, 128, SOLICIT, RETRY_LIMIT, false, 0, [], [], [])
  }

  /** xmodemInTime with a timeout; module XmodemWait has it as compiled. */
  function Read(input: Line): (Option<Byte>, Line) {
    if input == [] then (None, []) else (input[0], input[1..])
  }

  /** xmodemInFlush: everything up to the next silence. */
  function Flush(input: Line): (r: Line)
    ensures |r| <= |input|
  {
    if input == [] then [] else if input[0].None? then input[1..] else Flush(input[1..])
  }

  /** The loop that reads the rest of a packet: `n` bytes, or fewer before a silence. */
  function Take(input: Line, n: nat): (r: (seq<Byte>, Line))
    ensures |r.0| <= n && |r.1| <= |input|
    decreases n
  {
    if n == 0 then ([], input)
    else
      var (c, rest) := Read(input);
      if c.None? then ([], rest)
      else
        var (more, rest') := Take(rest, n - 1);
        ([c.value] + more, rest')
  }

  function CheckLen(crcflag: bool): nat {
    if crcflag then 2 else 1
  }

  predicate Complement(a: Byte, b: Byte) {
    a == b ^ 0xff
  }

  function Next(b: Byte): Byte {
    b + 1
  }

  function Previous(b: Byte): Byte {
    b - 1
  }

  /** Data of `size` bytes with a number, its complement and a check behind. */
  predicate FrameOk(crcflag: bool, bytes: seq<Byte>, size: nat)
    requires |bytes| == 2 + size + CheckLen(crcflag)
  {
    Complement(bytes[0], bytes[1]) && CheckOk(crcflag, bytes[2..], size)
  }

  function Payload(bytes: seq<Byte>, size: nat): seq<Byte>
    requires 2 + size <= |bytes|
  {
    bytes[2..2 + size]
  }

  function Nak(rx: Rx): Rx
    requires rx.retry > 0
  {
    rx.(retry := rx.retry - 1, input := Flush(rx.input), response := NAK)
  }

  /** A complete packet that has been read into `bytes`. */
  function Judge(rx: Rx, bytes: seq<Byte>): Outcome
    requires |bytes| == 2 + rx.pktsize + CheckLen(rx.crcflag) && rx.retry > 0
  {
    if FrameOk(rx.crcflag, bytes, rx.pktsize) then
      if bytes[0] == rx.seqnum then
        More(rx.(
          writes := rx.writes + [Payload(bytes, rx.pktsize)], total := (rx.total + rx.pktsize) % ULONG,
          seqnum := Next(rx.seqnum), retry := RETRY_LIMIT, response := ACK,
          frames := rx.frames + [Frame(bytes, rx.pktsize, true)]))
      else if bytes[0] == Previous(rx.seqnum) then
        More(rx.(response := ACK, frames := rx.frames + [Frame(bytes, rx.pktsize, false)]))
      else Returned(rx.(input := Flush(rx.input), sent := rx.sent + [CAN, CAN, CAN]), OUTOFSYNC)
    else More(Nak(rx))
  }

  /** From the start byte of a packet on. */
  function Packet(rx: Rx): Outcome
    requires rx.retry > 0
  {
    var rx1 := rx.(crcflag := rx.response == SOLICIT || rx.crcflag);
    var n := 2 + rx1.pktsize + CheckLen(rx1.crcflag);
    var (bytes, rest) := Take(rx1.input, n);
    var rx2 := rx1.(input := rest);
    if |bytes| < n then More(Nak(rx2)) else Judge(rx2, bytes)
  }

  /** totalbytes, returned as a signed long. */
  function ToLong(total: nat): int {
    if total < ULONG / 2 then total else total - ULONG
  }

  /** `code` is the number of bytes as a signed 32-bit value. */
  predicate LongOf(code: int, total: nat) {
    -0x8000_0000 <= code < 0x8000_0000 && (code - total) % 0x1_0000_0000 == 0
  }

  lemma ToLongIs(total: nat)
    ensures LongOf(ToLong(total % ULONG), total)
  {
  }

  /** One pass of the loop. A single CAN, or any other start byte, goes on as the
      start of a packet of the size used last. */
  function Round(rx: Rx): Outcome
    requires rx.retry > 0
  {
    var rx0 := rx.(sent := rx.sent + [rx.response]);
    var (c, rest) := Read(rx0.input);
    var rx1 := rx0.(input := rest);
    if c.None? then More(rx1.(retry := rx1.retry - 1))
    else if c.value == SOH then Packet(rx1.(pktsize := 128))
    else if c.value == STX then Packet(rx1.(pktsize := 1024))
    else if c.value == EOT then
      Returned(rx1.(input := Flush(rest), sent := rx1.sent + [ACK]), ToLong(rx1.total))
    else if c.value == CAN then
      var (c2, rest2) := Read(rest);
      if c2 == Some(CAN) then
        Returned(rx1.(input := Flush(rest2), sent := rx1.sent + [ACK]), REMOTECANCEL)
      else Packet(rx1.(input := rest2))
    else Packet(rx1)
  }

  lemma PacketShrinks(rx: Rx)
    requires rx.retry > 0
    ensures |Packet(rx).rx.input| <= |rx.input|
  {
    hide FrameOk, Payload, Next, Previous;
  }

  /** The loop ends on every line: a pass without a byte costs a retry. */
  lemma RoundShrinks(rx: Rx)
    requires rx.retry > 0 && Round(rx).More?
    ensures var r := Round(rx).rx; |r.input| < |rx.input| || (r.input == rx.input == [] && r.retry < rx.retry)
  {
    hide Packet, Flush;
    var rest := Read(rx.input).1;
    var rx1 := rx.(sent := rx.sent + [rx.response], input := rest);
    PacketShrinks(rx1.(pktsize := 128));
    PacketShrinks(rx1.(pktsize := 1024));
    PacketShrinks(rx1.(input := Read(rest).1));
    PacketShrinks(rx1);
  }

  function Receive(rx: Rx): (Rx, int)
    decreases |rx.input|, rx.retry
  {
    if rx.retry == 0 then
      (rx.(input := Flush(rx.input), sent := rx.sent + [CAN, CAN, CAN]), RETRYEXCEED)
    else
      match Round(rx)
      case Returned(r, code) => (r, code)
      case More(r) => RoundShrinks(rx); Receive(r)
  }

  // ----- What every run keeps -----

  /** The frame number of block `k`, counted from 1. */
  function NumOf(k: nat): Byte {
    if k == 0 then 0 else Next(NumOf(k - 1))
  }

  lemma {:induction false} NumOfIs(k: nat)
    ensures NumOf(k) as int == k % 256
  {
    hide NumOf, Next;
    if k == 0 {
      NumZero();
    } else {
      NumOfIs(k - 1);
      NumStep(k - 1);
      NextIs(NumOf(k - 1));
      ModStep(k - 1);
    }
  }

  lemma NumZero()
    ensures NumOf(0) as int == 0
  {
  }

  lemma NumStep(k: nat)
    ensures NumOf(k + 1) == Next(NumOf(k))
  {
  }

  lemma ModStep(k: nat)
    ensures (k % 256 + 1) % 256 == (k + 1) % 256
  {
  }

  lemma NextIs(b: Byte)
    ensures Next(b) as int == (b as int + 1) % 256
    ensures Previous(Next(b)) == b
  {
  }

  function Bytes(writes: seq<seq<Byte>>): nat
    decreases |writes|
  {
    if writes == [] then 0 else Bytes(writes[..|writes| - 1]) + |writes[|writes| - 1]|
  }

  /** The data of the written frames, in order. */
  function Written(frames: seq<Frame>): seq<seq<Byte>>
    requires forall f :: f in frames ==> 2 + f.size <= |f.bytes|
    decreases |frames|
  {
    if frames == [] then []
    else
      var f := frames[|frames| - 1];
      Written(frames[..|frames| - 1]) + if f.written then [Payload(f.bytes, f.size)] else []
  }

  ghost predicate Sound(f: Frame) {
    && |f.bytes| == f.size + 4 && (f.size == 128 || f.size == 1024)
    && FrameOk(true, f.bytes, f.size)
  }

  ghost predicate AllSound(frames: seq<Frame>) {
    forall f :: f in frames ==> Sound(f) && 2 + f.size <= |f.bytes|
  }

  /** Each frame that passed has a correct complement and CRC; a written one carries
      the number of the next block, and any other the number of the block before. */
  ghost predicate Numbered(frames: seq<Frame>)
    requires AllSound(frames)
    decreases |frames|
  {
    frames == [] || (
      var init, f := frames[..|frames| - 1], frames[|frames| - 1];
      && Numbered(init)
      && f.bytes[0] == NumOf(|Written(init)| + if f.written then 1 else 0))
  }

  ghost predicate RxInv(rx: Rx) {
    && AllSound(rx.frames) && Numbered(rx.frames)
    && rx.writes == Written(rx.frames) && rx.total == Bytes(rx.writes) % ULONG
    && rx.seqnum == NumOf(|rx.writes| + 1)
    && (rx.pktsize == 128 || rx.pktsize == 1024) && (rx.response == SOLICIT || rx.crcflag) && rx.retry <= RETRY_LIMIT
  }

  lemma BytesAdd(writes: seq<seq<Byte>>, b: seq<Byte>)
    ensures Bytes(writes + [b]) == Bytes(writes) + |b|
  {
    assert (writes + [b])[..|writes|] == writes;
  }

  lemma FrameAdded(frames: seq<Frame>, f: Frame)
    requires AllSound(frames) && Numbered(frames) && Sound(f)
    requires f.bytes[0] == NumOf(|Written(frames)| + if f.written then 1 else 0)
    ensures AllSound(frames + [f]) && Numbered(frames + [f])
    ensures Written(frames + [f]) == Written(frames) + if f.written then [Payload(f.bytes, f.size)] else []
  {
    hide FrameOk, NumOf, Payload;
    assert (frames + [f])[..|frames|] == frames;
  }

  lemma SeqnumFacts(k: nat)
    ensures Previous(NumOf(k + 1)) == NumOf(k) && Next(NumOf(k + 1)) == NumOf(k + 2)
  {
    hide NumOf, Next, Previous;
    NumStep(k);
    NumStep(k + 1);
    NextIs(NumOf(k));
  }

  /** From `rx` on, bytes are only added to what was sent, and a frame that passes
      leaves ACK as the next byte to send. */
  ghost predicate Answered(rx: Rx, o: Outcome) {
    && rx.sent <= o.rx.sent
    && (o.rx.frames != rx.frames ==> o.More? && o.rx.response == ACK && o.rx.retry > 0)
    && (o.Returned? ==> o.code == OUTOFSYNC)
  }

  lemma JudgeOk(rx: Rx, bytes: seq<Byte>)
    requires RxInv(rx) && rx.crcflag && rx.retry > 0 && |bytes| == 4 + rx.pktsize
    ensures RxInv(Judge(rx, bytes).rx) && Answered(rx, Judge(rx, bytes))
  {
    hide Numbered, NumOf, Next, Previous, FrameOk, Written, Bytes;
    SeqnumFacts(|rx.writes|);
    if FrameOk(true, bytes, rx.pktsize) {
      if bytes[0] == rx.seqnum {
        FrameAdded(rx.frames, Frame(bytes, rx.pktsize, true));
        BytesAdd(rx.writes, Payload(bytes, rx.pktsize));
        TotalAdds(Bytes(rx.writes), rx.pktsize);
      } else if bytes[0] == Previous(rx.seqnum) {
        FrameAdded(rx.frames, Frame(bytes, rx.pktsize, false));
      }
    }
  }

  lemma TotalAdds(a: nat, b: nat)
    ensures (a % ULONG + b) % ULONG == (a + b) % ULONG
  {
  }

  lemma PacketOk(rx: Rx)
    requires RxInv(rx) && rx.retry > 0
    ensures RxInv(Packet(rx).rx) && Answered(rx, Packet(rx))
  {
    hide Numbered, NumOf, Written, Bytes, AllSound, Judge, Take, Flush;
    var rx1 := rx.(crcflag := true);
    var (bytes, rest) := Take(rx1.input, 4 + rx1.pktsize);
    if |bytes| == 4 + rx1.pktsize {
      JudgeOk(rx1.(input := rest), bytes);
    }
  }

  /** Every pass checks by CRC: the flag is set at the first byte that arrives, and
      is never cleared. */
  lemma RoundOk(rx: Rx)
    requires RxInv(rx) && rx.retry > 0
    ensures RxInv(Round(rx).rx)
    ensures Round(rx).Returned? ==>
      Round(rx).code == ToLong(Round(rx).rx.total) || Round(rx).code == OUTOFSYNC || Round(rx).code == REMOTECANCEL
  {
    hide RxInv, Packet, Flush, Answered;
    RoundPackets(rx);
    var rest := Read(rx.input).1;
    var rx1 := rx.(sent := rx.sent + [rx.response], input := rest);
    RxInvSame(rx, rx1.(retry := rx.retry - 1));
    RxInvSame(rx, rx1.(input := Flush(rest), sent := rx1.sent + [ACK]));
    RxInvSame(rx, rx1.(input := Flush(Read(rest).1), sent := rx1.sent + [ACK]));
    AnsweredCode(rx1);
    AnsweredCode(rx1.(pktsize := 128));
    AnsweredCode(rx1.(pktsize := 1024));
    AnsweredCode(rx1.(input := Read(rest).1));
  }

  lemma AnsweredCode(rx: Rx)
    requires rx.retry > 0 && Answered(rx, Packet(rx))
    ensures Packet(rx).Returned? ==> Packet(rx).code == OUTOFSYNC
  {
    hide Packet;
  }

  /** The line and what was sent do not matter to the invariant. */
  lemma RxInvSame(rx: Rx, r: Rx)
    requires RxInv(rx) && r.retry <= rx.retry
    requires r == rx.(input := r.input, sent := r.sent, retry := r.retry)
    ensures RxInv(r)
  {
    hide Numbered, NumOf, Written, Bytes, AllSound;
  }

  lemma RoundPackets(rx: Rx)
    requires RxInv(rx) && rx.retry > 0
    ensures var rest := Read(rx.input).1;
      var rx1 := rx.(sent := rx.sent + [rx.response], input := rest);
      forall p :: p in [rx1.(pktsize := 128), rx1.(pktsize := 1024), rx1.(input := Read(rest).1), rx1] ==>
                    RxInv(Packet(p).rx) && Answered(p, Packet(p))
  {
    hide Numbered, NumOf, Written, Bytes, AllSound, Packet, Answered;
    var rest := Read(rx.input).1;
    var rx1 := rx.(sent := rx.sent + [rx.response], input := rest);
    PacketOk(rx1.(pktsize := 128));
    PacketOk(rx1.(pktsize := 1024));
    PacketOk(rx1.(input := Read(rest).1));
    PacketOk(rx1);
  }

  lemma RoundSends(rx: Rx)
    requires RxInv(rx) && rx.retry > 0
    ensures rx.sent + [rx.response] <= Round(rx).rx.sent
    ensures var o := Round(rx); o.rx.frames != rx.frames ==> o.More? && o.rx.response == ACK && o.rx.retry > 0
  {
    hide RxInv, Packet, Flush;
    RoundPackets(rx);
  }

  /** A frame that passes, written or repeated, is acknowledged: the receiver goes
      on, and the next byte it sends is ACK. */
  lemma FrameAcknowledged(rx: Rx)
    requires RxInv(rx) && rx.retry > 0 && Round(rx).rx.frames != rx.frames
    ensures var o := Round(rx); o.More? && o.rx.retry > 0 && o.rx.sent + [ACK] <= Round(o.rx).rx.sent
  {
    hide RxInv, Round;
    RoundOk(rx);
    RoundSends(rx);
    RoundSends(Round(rx).rx);
  }

  /** Exactly once and in order, for every line: the writes are the data of the
      frames that carry the next number, repeats are not written, and a normal
      return gives the number of bytes written. */
  lemma {:induction false} ReceiveEveryLine(rx: Rx)
    requires RxInv(rx)
    ensures var (r, code) := Receive(rx);
      RxInv(r) && (LongOf(code, Bytes(r.writes)) || code == OUTOFSYNC || code == REMOTECANCEL || code == RETRYEXCEED)
    decreases |rx.input|, rx.retry
  {
    hide Numbered, NumOf, Written, Bytes, AllSound, Round;
    if rx.retry > 0 {
      RoundOk(rx);
      if Round(rx).More? {
        RoundShrinks(rx);
        ReceiveEveryLine(Round(rx).rx);
      } else {
        ToLongIs(Bytes(Round(rx).rx.writes));
      }
    }
  }

  lemma StartOk(input: Line)
    ensures RxInv(Start(input))
  {
    assert NumOf(1) == Next(NumOf(0)) == 1;
  }

  /** Write number k (from 1) carries the data of a frame numbered k mod 256. */
  lemma {:induction false} KthWrite(frames: seq<Frame>, k: nat)
    requires AllSound(frames) && Numbered(frames) && 1 <= k <= |Written(frames)|
    ensures exists f :: f in frames && f.written && Sound(f)
                        && f.bytes[0] as int == k % 256 && Payload(f.bytes, f.size) == Written(frames)[k - 1]
    decreases |frames|
  {
    hide NumOf, Payload, FrameOk;
    var init, f := frames[..|frames| - 1], frames[|frames| - 1];
    if k <= |Written(init)| {
      KthWrite(init, k);
    } else {
      NumOfIs(k);
      assert f in frames && f.written && Sound(f);
    }
  }

  /** So for every line: write k of the whole reception carries the data of an accepted
      frame whose number is k mod 256, with a right complement and CRC. */
  lemma WriteNumbered(line: Line, k: nat)
    requires 1 <= k <= |Receive(Start(line)).0.writes|
    ensures var r := Receive(Start(line)).0;
      exists f :: f in r.frames && f.written && Sound(f)
                  && f.bytes[0] as int == k % 256 && Payload(f.bytes, f.size) == r.writes[k - 1]
  {
    hide NumOf, Payload, FrameOk, Receive, Start, Written, Numbered;
    StartOk(line);
    ReceiveEveryLine(Start(line));
    KthWrite(Receive(Start(line)).0.frames, k);
  }

  // ----- Against a sender -----

  /** The frame is a copy of a block of the sender that lies within 254 blocks of
      the one the receiver waits for after `at` blocks. */
  ghost predicate CopyOf(f: Frame, at: nat, blocks: seq<seq<Byte>>, k: nat)
  {
    && f.size + 2 <= |f.bytes| && 1 <= k <= |blocks| && -254 <= k - (at + 1) <= 254
    && f.bytes[0] == NumOf(k) && Payload(f.bytes, f.size) == blocks[k - 1]
  }

  ghost predicate Genuine(frames: seq<Frame>, blocks: seq<seq<Byte>>)
    decreases |frames|
  {
    frames == [] || (
      var init, f := frames[..|frames| - 1], frames[|frames| - 1];
      && Genuine(init, blocks) && AllSound(init) && exists k: nat :: CopyOf(f, |Written(init)|, blocks, k))
  }

  lemma SameNumber(a: nat, b: nat)
    requires NumOf(a) == NumOf(b) && -255 <= a - b <= 255
    ensures a == b
  {
    hide NumOf;
    NumOfIs(a);
    NumOfIs(b);
  }

  /** A copy within reach is the block the receiver takes it for. */
  lemma CopyIs(f: Frame, at: nat, blocks: seq<seq<Byte>>, k: nat)
    requires Sound(f) && CopyOf(f, at, blocks, k) && f.bytes[0] == NumOf(at + if f.written then 1 else 0)
    ensures k == at + if f.written then 1 else 0
  {
    hide NumOf, FrameOk, Payload;
    SameNumber(k, at + if f.written then 1 else 0);
  }

  lemma {:induction false} WrittenPrefix(frames: seq<Frame>, blocks: seq<seq<Byte>>)
    requires AllSound(frames) && Numbered(frames) && Genuine(frames, blocks)
    ensures Written(frames) <= blocks
    decreases |frames|
  {
    hide NumOf, Sound, Payload;
    if frames != [] {
      var init, f := frames[..|frames| - 1], frames[|frames| - 1];
      WrittenPrefix(init, blocks);
      var k: nat :| CopyOf(f, |Written(init)|, blocks, k);
      CopyIs(f, |Written(init)|, blocks, k);
    }
  }

  /** If every accepted frame is a copy of a nearby block of the sender, the output
      is a prefix of what the sender has, whatever the line lost or repeated. */
  lemma OutputIsPrefix(input: Line, blocks: seq<seq<Byte>>)
    requires Genuine(Receive(Start(input)).0.frames, blocks)
    ensures Receive(Start(input)).0.writes <= blocks
  {
    hide NumOf, Numbered, Genuine, AllSound, Written, Receive, Start;
    StartOk(input);
    ReceiveEveryLine(Start(input));
    WrittenPrefix(Receive(Start(input)).0.frames, blocks);
  }
}
