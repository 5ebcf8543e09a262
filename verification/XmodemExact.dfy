/** What a pass of xmodemReceive does, said of the bytes on the line alone, and which
    way out of the loop gives which result. */
module XmodemExact {
  import opened Lists
  import opened Crc
  import opened CrcDetect
  import opened Xmodem

  // ----- What is on the line -----

  /** The line starts with these bytes. */
  predicate Begins(line: Line, b: seq<Byte>) {
    |b| <= |line| && forall i :: 0 <= i < |b| ==> line[i] == Some(b[i])
  }

  /** Nothing arrives in time. */
  predicate Silent(line: Line) {
    line == [] || line[0].None?
  }

  function Tail(line: Line, n: nat): Line {
    if n <= |line| then line[n..] else []
  }

  /** `rest` is what is left behind the first silence. */
  ghost predicate Flushed(line: Line, rest: Line) {
    exists i :: 0 <= i <= |line| && (forall j :: 0 <= j < i ==> line[j].Some?)
                && Silent(line[i..]) && rest == Tail(line, i + 1)
  }

  lemma {:induction false} FlushIs(line: Line)
    ensures Flushed(line, Flush(line))
  {
    if Silent(line) {
      assert line[0..] == line;
    } else {
      FlushIs(line[1..]);
      var l := line[1..];
      var i :| 0 <= i <= |l| && (forall j :: 0 <= j < i ==> l[j].Some?) && Silent(l[i..]) && Flush(l) == Tail(l, i + 1);
      assert line[i + 1..] == l[i..];
      assert forall j :: 0 <= j < i + 1 ==> line[j].Some? by {
        forall j | 0 <= j < i + 1 ensures line[j].Some? {
          assert j > 0 ==> line[j] == l[j - 1];
        }
      }
      assert Tail(line, i + 2) == Tail(l, i + 1);
    }
  }

  /** A packet of `size` bytes starts, with `body` behind its start byte: SOH and STX set
      the size, and any other byte leaves it, a CAN together with the byte after it. */
  ghost predicate Opens(rx: Rx, size: nat, body: Line) {
    var line := rx.input;
    && !Silent(line) && !Begins(line, [EOT]) && !Begins(line, [CAN, CAN])
    && size == (if Begins(line, [SOH]) then 128 else if Begins(line, [STX]) then 1024 else rx.pktsize)
    && body == Tail(line, if Begins(line, [CAN]) then 2 else 1)
  }

  /** Fewer than `n` bytes arrive; `rest` is what is left behind the silence. */
  ghost predicate Short(body: Line, n: nat, rest: Line) {
    exists k: nat :: k < n && k <= |body| && (forall j :: 0 <= j < k ==> body[j].Some?)
                     && Silent(body[k..]) && rest == Tail(body, k + 1)
  }

  /** The complement is right and the CRC over data and check bytes is 0. */
  ghost predicate Right(bytes: seq<Byte>, size: nat) {
    |bytes| == size + 4 && bytes[0] as int + bytes[1] as int == 255 && CrcOf(0, bytes[2..]) == 0
  }

  /** A whole frame with number `num` is on the line. */
  ghost predicate Arrives(rx: Rx, size: nat, bytes: seq<Byte>, rest: Line) {
    |bytes| == size + 4 && exists body :: Opens(rx, size, body) && Begins(body, bytes) && rest == body[|bytes|..]
  }

  lemma {:induction false} TakeAll(line: Line, b: seq<Byte>)
    requires Begins(line, b)
    ensures Take(line, |b|) == (b, line[|b|..])
    decreases |b|
  {
    if b != [] {
      TakeAll(line[1..], b[1..]);
      assert [b[0]] + b[1..] == b && line[1..][|b| - 1..] == line[|b|..];
    }
  }

  lemma {:induction false} TakeShort(line: Line, n: nat, k: nat)
    requires k < n && k <= |line| && (forall j :: 0 <= j < k ==> line[j].Some?) && Silent(line[k..])
    ensures |Take(line, n).0| == k && Take(line, n).1 == Tail(line, k + 1)
    decreases k
  {
    if k == 0 {
      assert line[0..] == line;
    } else {
      assert line[1..][k - 1..] == line[k..];
      TakeShort(line[1..], n - 1, k - 1);
      assert Tail(line[1..], k) == Tail(line, k + 1);
    }
  }

  lemma ComplementIs(a: Byte, b: Byte)
    ensures Complement(a, b) <==> a as int + b as int == 255
  {
  }

  lemma RightIs(bytes: seq<Byte>, size: nat)
    requires |bytes| == size + 4
    ensures FrameOk(true, bytes, size) <==> Right(bytes, size)
  {
    ComplementIs(bytes[0], bytes[1]);
    AcceptedIffZero(bytes[2..], size);
    hide Complement, CheckOk, CrcOf;
  }

  // ----- One pass -----

  /** Nothing was accepted: one retry less. */
  ghost predicate Failed(rx: Rx, o: Outcome, response: Byte) {
    && o.More? && o.rx.retry == rx.retry - 1 && o.rx.response == response
    && o.rx.writes == rx.writes && o.rx.sent == rx.sent + [rx.response]
  }

  /** The loop ends, after a flush of `rest`. */
  ghost predicate Leaves(rx: Rx, o: Outcome, code: int, reply: seq<Byte>, rest: Line) {
    && o.Returned? && o.code == code && o.rx.writes == rx.writes
    && o.rx.sent == rx.sent + [rx.response] + reply && Flushed(rest, o.rx.input)
  }

  lemma PassSilent(rx: Rx)
    requires rx.retry > 0 && Silent(rx.input)
    ensures Failed(rx, Round(rx), rx.response) && Round(rx).rx.input == Tail(rx.input, 1)
  {
    hide Packet, Flush;
  }

  lemma PassEnds(rx: Rx)
    requires RxInv(rx) && rx.retry > 0
    ensures Begins(rx.input, [EOT]) ==>
      LongOf(Round(rx).code, Bytes(rx.writes)) && Leaves(rx, Round(rx), Round(rx).code, [ACK], rx.input[1..])
    ensures Begins(rx.input, [CAN, CAN]) ==> Leaves(rx, Round(rx), -2, [ACK], rx.input[2..])
  {
    hide Packet, Flush, AllSound, Numbered, Written, Bytes, NumOf, Flushed;
    ToLongIs(Bytes(rx.writes));
    if Begins(rx.input, [EOT]) {
      FlushIs(rx.input[1..]);
      assert [rx.response] + [ACK] == [rx.response, ACK];
    }
    if Begins(rx.input, [CAN, CAN]) {
      FlushIs(rx.input[2..]);
      assert rx.input[1..][1..] == rx.input[2..];
      assert rx.input[0] == Some(CAN) && rx.input[1] == Some(CAN);
    }
  }

  /** A pass on a packet is Packet on what is behind the start byte. */
  lemma OpensIs(rx: Rx, size: nat, body: Line)
    requires rx.retry > 0 && Opens(rx, size, body)
    ensures Round(rx) == Packet(rx.(sent := rx.sent + [rx.response], pktsize := size, input := body))
  {
    hide Packet, Flush;
    var line := rx.input;
    assert line[0] == Some(line[0].value);
    assert Begins(line, [line[0].value]);
    if Begins(line, [CAN]) && |line| >= 2 {
      assert line[1] == Some(CAN) ==> Begins(line, [CAN, CAN]);
      assert line[1..][1..] == line[2..];
    }
  }

  lemma PacketShort(rx: Rx, k: nat)
    requires rx.retry > 0 && (rx.response == SOLICIT || rx.crcflag)
    requires k < rx.pktsize + 4 && k <= |rx.input| && (forall j :: 0 <= j < k ==> rx.input[j].Some?) && Silent(rx.input[k..])
    ensures Packet(rx) == More(Nak(rx.(crcflag := true, input := Tail(rx.input, k + 1))))
  {
    TakeShort(rx.input, rx.pktsize + 4, k);
    hide Take, Judge, Nak, Silent, Tail;
  }

  lemma PacketWhole(rx: Rx, bytes: seq<Byte>)
    requires rx.retry > 0 && (rx.response == SOLICIT || rx.crcflag)
    requires |bytes| == rx.pktsize + 4 && Begins(rx.input, bytes)
    ensures Packet(rx) == Judge(rx.(crcflag := true, input := rx.input[|bytes|..]), bytes)
  {
    TakeAll(rx.input, bytes);
    hide Take, Judge, Nak;
  }

  lemma InvMode(rx: Rx)
    requires RxInv(rx)
    ensures rx.response == SOLICIT || rx.crcflag
  {
    hide AllSound, Numbered, Written, Bytes, NumOf;
  }

  /** A packet cut off by a silence is flushed and answered with NAK. */
  lemma PassShort(rx: Rx, size: nat, body: Line, rest: Line)
    requires RxInv(rx) && rx.retry > 0 && Opens(rx, size, body) && Short(body, size + 4, rest)
    ensures Failed(rx, Round(rx), NAK) && Flushed(rest, Round(rx).rx.input)
  {
    hide RxInv, Flushed, Flush, Round, Packet, Opens, Silent, Tail;
    InvMode(rx);
    OpensIs(rx, size, body);
    var k: nat :| k < size + 4 && k <= |body| && (forall j :: 0 <= j < k ==> body[j].Some?)
      && Silent(body[k..]) && rest == Tail(body, k + 1);
    PacketShort(rx.(sent := rx.sent + [rx.response], pktsize := size, input := body), k);
    FlushIs(rest);
  }

  /** The frame is the next one, the last one again, or another. */
  ghost predicate Fresh(rx: Rx, bytes: seq<Byte>, size: nat) {
    Right(bytes, size) && bytes[0] as int == (|rx.writes| + 1) % 256
  }

  ghost predicate Again(rx: Rx, bytes: seq<Byte>, size: nat) {
    Right(bytes, size) && bytes[0] as int == |rx.writes| % 256
  }

  ghost predicate Foreign(rx: Rx, bytes: seq<Byte>, size: nat) {
    Right(bytes, size) && !Fresh(rx, bytes, size) && !Again(rx, bytes, size)
  }

  lemma Numbers(rx: Rx)
    requires RxInv(rx)
    ensures rx.seqnum as int == (|rx.writes| + 1) % 256 && Previous(rx.seqnum) as int == |rx.writes| % 256
  {
    hide AllSound, Numbered, Written, Bytes, NumOf, Next, Previous;
    NumOfIs(|rx.writes| + 1);
    NumOfIs(|rx.writes|);
    SeqnumFacts(|rx.writes|);
  }

  lemma JudgeIs(rx: Rx, bytes: seq<Byte>)
    requires rx.retry > 0 && rx.crcflag && |bytes| == rx.pktsize + 4
    ensures var o := Judge(rx, bytes);
      && (!Right(bytes, rx.pktsize) ==> o == More(Nak(rx)))
      && (Right(bytes, rx.pktsize) && (bytes[0] == rx.seqnum || bytes[0] == Previous(rx.seqnum)) ==>
            && o.More? && o.rx.response == ACK && o.rx.input == rx.input && o.rx.sent == rx.sent
            && o.rx.retry == (if bytes[0] == rx.seqnum then 3 else rx.retry)
            && o.rx.writes == rx.writes + (if bytes[0] == rx.seqnum then [bytes[2..rx.pktsize + 2]] else [])
            && o.rx.frames == rx.frames + [Frame(bytes, rx.pktsize, bytes[0] == rx.seqnum)])
      && (Right(bytes, rx.pktsize) && bytes[0] != rx.seqnum && bytes[0] != Previous(rx.seqnum) ==>
            o == Returned(rx.(input := Flush(rx.input), sent := rx.sent + [CAN, CAN, CAN]), -1))
  {
    RightIs(bytes, rx.pktsize);
    hide Right, FrameOk, Previous, Next, Flush, Nak;
    assert rx.writes + [] == rx.writes;
  }

  lemma Behind(rx: Rx, size: nat, bytes: seq<Byte>, rest: Line) returns (body: Line)
    requires Arrives(rx, size, bytes, rest)
    ensures Opens(rx, size, body) && Begins(body, bytes) && |bytes| <= |body| && rest == body[|bytes|..]
  {
    body :| Opens(rx, size, body) && Begins(body, bytes) && rest == body[|bytes|..];
  }

  lemma FrameRound(rx: Rx, size: nat, bytes: seq<Byte>, rest: Line)
    requires RxInv(rx) && rx.retry > 0 && Arrives(rx, size, bytes, rest)
    ensures Round(rx) ==
      Judge(rx.(sent := rx.sent + [rx.response], pktsize := size, crcflag := true, input := rest), bytes)
  {
    hide RxInv, Round, Packet, Opens, Judge, Begins;
    InvMode(rx);
    var body := Behind(rx, size, bytes, rest);
    OpensIs(rx, size, body);
    PacketWhole(rx.(sent := rx.sent + [rx.response], pktsize := size, input := body), bytes);
  }

  lemma Which(rx: Rx, b: Byte)
    requires RxInv(rx)
    ensures b == rx.seqnum <==> b as int == (|rx.writes| + 1) % 256
    ensures b == Previous(rx.seqnum) <==> b as int == |rx.writes| % 256
    ensures Previous(rx.seqnum) != rx.seqnum
  {
    hide RxInv, Previous;
    Numbers(rx);
    ModApart(|rx.writes|);
    var x, y := (|rx.writes| + 1) % 256, |rx.writes| % 256;
    SameByte(b, rx.seqnum, x);
    SameByte(b, Previous(rx.seqnum), y);
    SameByte(rx.seqnum, Previous(rx.seqnum), y);
  }

  lemma ModApart(k: nat)
    ensures (k + 1) % 256 != k % 256
  {
  }

  lemma SameByte(a: Byte, b: Byte, n: int)
    requires b as int == n
    ensures a == b <==> a as int == n
  {
  }

  /** A whole packet: a damaged frame is flushed and answered with NAK; the next frame is
      written and acknowledged with all retries back; the last one again is only
      acknowledged; any other ends the reception. */
  lemma PassFrame(rx: Rx, size: nat, bytes: seq<Byte>, rest: Line)
    requires RxInv(rx) && rx.retry > 0 && Arrives(rx, size, bytes, rest)
    ensures !Right(bytes, size) ==> Failed(rx, Round(rx), NAK) && Flushed(rest, Round(rx).rx.input)
    ensures Fresh(rx, bytes, size) || Again(rx, bytes, size) ==> var o := Round(rx);
      && o.More? && o.rx.response == ACK && o.rx.input == rest && o.rx.sent == rx.sent + [rx.response]
      && o.rx.retry == (if Fresh(rx, bytes, size) then 3 else rx.retry)
      && o.rx.writes == rx.writes + (if Fresh(rx, bytes, size) then [bytes[2..size + 2]] else [])
      && o.rx.frames == rx.frames + [Frame(bytes, size, Fresh(rx, bytes, size))]
    ensures Foreign(rx, bytes, size) ==> Leaves(rx, Round(rx), -1, [CAN, CAN, CAN], rest)
  {
    hide RxInv, Flushed, Flush, Round, Judge, Right, Previous, Arrives;
    assert |bytes| == size + 4 by { ArrivesSize(rx, size, bytes, rest); }
    FrameRound(rx, size, bytes, rest);
    Which(rx, bytes[0]);
    FlushIs(rest);
    JudgeIs(rx.(sent := rx.sent + [rx.response], pktsize := size, crcflag := true, input := rest), bytes);
    assert rx.writes + [] == rx.writes;
  }

  lemma ArrivesSize(rx: Rx, size: nat, bytes: seq<Byte>, rest: Line)
    requires Arrives(rx, size, bytes, rest)
    ensures |bytes| == size + 4
  {
  }

  ghost predicate Cut(body: Line, n: nat) {
    exists rest :: Short(body, n, rest)
  }

  ghost predicate Whole(rx: Rx, size: nat) {
    exists bytes, rest :: Arrives(rx, size, bytes, rest)
  }

  lemma ShortLonger(line: Line, n: nat, rest: Line)
    requires !Silent(line) && n > 0 && Short(line[1..], n - 1, rest)
    ensures Short(line, n, rest)
  {
    var l := line[1..];
    var k: nat :| k < n - 1 && k <= |l| && (forall j :: 0 <= j < k ==> l[j].Some?) && Silent(l[k..]) && rest == Tail(l, k + 1);
    forall j | 0 <= j < k + 1 ensures line[j].Some? {
      assert j > 0 ==> line[j] == l[j - 1];
    }
    assert line[k + 1..] == l[k..];
    assert Tail(line, k + 2) == Tail(l, k + 1);
  }

  lemma {:induction false} TakeSplits(line: Line, n: nat)
    ensures var (bytes, rest) := Take(line, n);
      if |bytes| == n then Begins(line, bytes) && rest == line[n..] else Short(line, n, rest)
    decreases n
  {
    if n == 0 {
    } else if Silent(line) {
      assert line[0..] == line;
      assert Short(line, n, Tail(line, 1));
    } else {
      var (bytes, rest) := Take(line[1..], n - 1);
      TakeSplits(line[1..], n - 1);
      if |bytes| == n - 1 {
        assert line[1..][n - 1..] == line[n..];
      } else {
        ShortLonger(line, n, rest);
      }
    }
  }

  lemma Starts(rx: Rx) returns (size: nat, body: Line)
    requires !Silent(rx.input) && !Begins(rx.input, [EOT]) && !Begins(rx.input, [CAN, CAN])
    ensures Opens(rx, size, body)
  {
    size := if Begins(rx.input, [SOH]) then 128 else if Begins(rx.input, [STX]) then 1024 else rx.pktsize;
    body := Tail(rx.input, if Begins(rx.input, [CAN]) then 2 else 1);
  }

  /** Every line falls under one of these lemmas. */
  lemma PassCases(rx: Rx)
    ensures Silent(rx.input) || Begins(rx.input, [EOT]) || Begins(rx.input, [CAN, CAN])
      || exists size: nat, body :: Opens(rx, size, body) && (Cut(body, size + 4) || Whole(rx, size))
  {
    hide Opens, Silent, Short;
    if !Silent(rx.input) && !Begins(rx.input, [EOT]) && !Begins(rx.input, [CAN, CAN]) {
      var size, body := Starts(rx);
      var (bytes, rest) := Take(body, size + 4);
      TakeSplits(body, size + 4);
      hide Take, Begins;
      if |bytes| == size + 4 {
        assert Arrives(rx, size, bytes, rest);
      }
    }
  }

  // ----- Whole receptions -----

  /** The first `n` passes all go on. */
  ghost predicate Goes(rx: Rx, n: nat)
    decreases n
  {
    n == 0 || (rx.retry > 0 && Round(rx).More? && Goes(Round(rx).rx, n - 1))
  }

  /** The state after them. */
  function After(rx: Rx, n: nat): Rx
    decreases n
  {
    if n == 0 || rx.retry == 0 then rx else After(Round(rx).rx, n - 1)
  }

  ghost predicate TakesNew(rx: Rx) {
    exists size, bytes, rest :: Arrives(rx, size, bytes, rest) && Fresh(rx, bytes, size)
  }

  ghost predicate TakesOld(rx: Rx) {
    exists size, bytes, rest :: Arrives(rx, size, bytes, rest) && Again(rx, bytes, size)
  }

  ghost predicate LosesTrack(rx: Rx) {
    exists size, bytes, rest :: Arrives(rx, size, bytes, rest) && Foreign(rx, bytes, size)
  }

  /** How the reception leaves the loop from its last state `p`: each result has its own
      cause, which a result that counts bytes cannot be taken for. */
  ghost predicate WayOut(p: Rx, r: Rx, code: int) {
    && r.writes == p.writes
    && (code == -3 <==> p.retry == 0)
    && (code == -2 <==> p.retry > 0 && Begins(p.input, [CAN, CAN]))
    && (code == -1 <==> p.retry > 0 && LosesTrack(p))
    && (code !in {-1, -2, -3} <==> p.retry > 0 && Begins(p.input, [EOT]))
    && (code !in {-1, -2, -3} ==> LongOf(code, Bytes(r.writes)))
    && r.sent == p.sent + (if p.retry == 0 then [] else [p.response]) + (if code in {-1, -3} then [CAN, CAN, CAN] else [ACK])
    && (code != -1 ==> Flushed(Tail(p.input, if code == -3 then 0 else if code == -2 then 2 else 1), r.input))
  }

  lemma {:induction false} BytesWhole(frames: seq<Frame>)
    requires AllSound(frames)
    ensures Bytes(Written(frames)) % 128 == 0
    decreases |frames|
  {
    hide FrameOk;
    if frames != [] {
      var init, f := frames[..|frames| - 1], frames[|frames| - 1];
      assert f in frames && Sound(f);
      BytesWhole(init);
      if f.written {
        BytesAdd(Written(init), Payload(f.bytes, f.size));
      } else {
        assert Written(init) + [] == Written(init);
      }
    }
  }

  lemma CodeApart(rx: Rx, code: int)
    requires RxInv(rx) && LongOf(code, Bytes(rx.writes))
    ensures code !in {-1, -2, -3}
  {
    BytesWhole(rx.frames);
    hide AllSound, Numbered, Written, Bytes, NumOf;
  }

  /** A pass that does not go on is one of the three. */
  lemma LastPass(p: Rx)
    requires RxInv(p) && p.retry > 0 && Round(p).Returned?
    ensures WayOut(p, Round(p).rx, Round(p).code)
  {
    hide RxInv, Round, Flushed, Opens, Right, LongOf, Begins, Silent, Arrives, Short;
    PassCases(p);
    PassEnds(p);
    if Silent(p.input) {
      PassSilent(p);
    } else if Begins(p.input, [EOT]) {
      CodeApart(p, Round(p).code);
      NotBoth(p);
    } else if Begins(p.input, [CAN, CAN]) {
      NotBoth(p);
    } else {
      var size: nat, body :| Opens(p, size, body) && (Cut(body, size + 4) || Whole(p, size));
      if Cut(body, size + 4) {
        var rest :| Short(body, size + 4, rest);
        PassShort(p, size, body, rest);
      } else {
        var bytes, rest :| Arrives(p, size, bytes, rest);
        PassFrame(p, size, bytes, rest);
        assert LosesTrack(p);
      }
    }
  }

  lemma NotBoth(p: Rx)
    ensures Begins(p.input, [EOT]) || Begins(p.input, [CAN, CAN]) ==> !LosesTrack(p)
    ensures !(Begins(p.input, [EOT]) && Begins(p.input, [CAN, CAN]))
    ensures (Begins(p.input, [EOT]) ==> |p.input| >= 1) && (Begins(p.input, [CAN, CAN]) ==> |p.input| >= 2)
  {
    assert Begins(p.input, [EOT]) ==> p.input[0] == Some([EOT][0]);
    assert Begins(p.input, [CAN, CAN]) ==> p.input[0] == Some([CAN, CAN][0]);
  }

  /** Every reception ends in one of the four ways, after `n` passes that go on. */
  lemma {:induction false} WaysOut(rx: Rx) returns (n: nat)
    requires RxInv(rx)
    ensures Goes(rx, n) && RxInv(After(rx, n)) && WayOut(After(rx, n), Receive(rx).0, Receive(rx).1)
    decreases |rx.input|, rx.retry
  {
    hide RxInv, Round, WayOut;
    n := 0;
    if rx.retry == 0 {
      NoRetry(rx);
    } else if Round(rx).Returned? {
      LastPass(rx);
    } else {
      RoundOk(rx);
      RoundShrinks(rx);
      n := WaysOut(Round(rx).rx);
      n := n + 1;
    }
  }

  lemma NoRetry(p: Rx)
    requires p.retry == 0
    ensures WayOut(p, Receive(p).0, Receive(p).1)
  {
    hide Flush, Begins, LosesTrack, Flushed;
    FlushIs(p.input);
    assert Tail(p.input, 0) == p.input;
  }

  /** The passes without a frame since the last new one. */
  ghost function Failures(rx: Rx, n: nat, f: nat): nat
    decreases n
  {
    if n == 0 || rx.retry == 0 then f
    else Failures(Round(rx).rx, n - 1, if TakesNew(rx) then 0 else if TakesOld(rx) then f else f + 1)
  }

  lemma GoesOn(rx: Rx)
    requires RxInv(rx) && rx.retry > 0 && Round(rx).More?
    ensures Round(rx).rx.retry == if TakesNew(rx) then 3 else if TakesOld(rx) then rx.retry else rx.retry - 1
  {
    hide RxInv, Round, Flushed, Opens, Right, LongOf, Begins, Silent, Arrives, Short;
    PassCases(rx);
    PassEnds(rx);
    if Silent(rx.input) {
      PassSilent(rx);
      NoFrame(rx);
    } else {
      var size: nat, body :| Opens(rx, size, body) && (Cut(body, size + 4) || Whole(rx, size));
      if Cut(body, size + 4) {
        var rest :| Short(body, size + 4, rest);
        PassShort(rx, size, body, rest);
        CutNoFrame(rx, size, body, rest);
      } else {
        var bytes, rest :| Arrives(rx, size, bytes, rest);
        PassFrame(rx, size, bytes, rest);
        OneFrame(rx, size, bytes, rest);
      }
    }
  }

  lemma NoFrame(rx: Rx)
    requires Silent(rx.input)
    ensures !TakesNew(rx) && !TakesOld(rx)
  {
  }

  lemma OpensOnce(rx: Rx, a: nat, x: Line, b: nat, y: Line)
    requires Opens(rx, a, x) && Opens(rx, b, y)
    ensures a == b && x == y
  {
  }

  lemma CutNoFrame(rx: Rx, size: nat, body: Line, rest: Line)
    requires Opens(rx, size, body) && Short(body, size + 4, rest)
    ensures !TakesNew(rx) && !TakesOld(rx)
  {
    hide Opens, Right;
    var k: nat :| k < size + 4 && k <= |body| && Silent(body[k..]);
    assert body[k..] != [] ==> body[k..][0] == body[k];
    forall n, bytes, rest' ensures !Arrives(rx, n, bytes, rest') {
      if Arrives(rx, n, bytes, rest') {
        var b :| Opens(rx, n, b) && Begins(b, bytes) && rest' == b[|bytes|..];
        OpensOnce(rx, size, body, n, b);
      }
    }
  }

  lemma OneFrame(rx: Rx, size: nat, bytes: seq<Byte>, rest: Line)
    requires Arrives(rx, size, bytes, rest)
    ensures TakesNew(rx) <==> Fresh(rx, bytes, size)
    ensures TakesOld(rx) <==> Again(rx, bytes, size)
  {
    hide Opens, Right;
    forall n, b, rest' | Arrives(rx, n, b, rest') ensures n == size && b == bytes {
      var x :| Opens(rx, size, x) && Begins(x, bytes) && rest == x[|bytes|..];
      var y :| Opens(rx, n, y) && Begins(y, b) && rest' == y[|b|..];
      OpensOnce(rx, size, x, n, y);
      forall i | 0 <= i < |b| ensures b[i] == bytes[i] {
        assert x[i] == Some(b[i]) == Some(bytes[i]);
      }
    }
  }

  /** The retries left are three less the passes that failed since the last new frame. */
  lemma {:induction false} RetriesCount(rx: Rx, n: nat, f: nat)
    requires RxInv(rx) && Goes(rx, n) && rx.retry + f == 3
    ensures After(rx, n).retry + Failures(rx, n, f) == 3
    decreases n
  {
    hide RxInv, Round, TakesNew, TakesOld;
    if n > 0 {
      GoesOn(rx);
      RoundOk(rx);
      RetriesCount(Round(rx).rx, n - 1, if TakesNew(rx) then 0 else if TakesOld(rx) then f else f + 1);
    }
  }

  /** For every line: the result names the cause for which the reception ended, and
      counts the bytes written when it was EOT; retries run out at the third pass without
      a frame since the last new one. */
  lemma ResultMeans(line: Line) returns (n: nat)
    ensures var (p, (r, code)) := (After(Start(line), n), Receive(Start(line)));
      && Goes(Start(line), n) && WayOut(p, r, code) && p.retry + Failures(Start(line), n, 0) == 3
      && (code == -3 <==> Failures(Start(line), n, 0) == 3)
      && (code !in {-1, -2, -3} && Bytes(r.writes) < 0x8000_0000 ==> code == Bytes(r.writes))
  {
    StartOk(line);
    hide RxInv, Round, Receive, Goes, After, Failures, Begins, LosesTrack, Bytes;
    n := WaysOut(Start(line));
    RetriesCount(Start(line), n, 0);
  }
}
