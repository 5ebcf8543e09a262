/** What the CRC check accepts and rejects. */
module CrcDetect {
  import opened Crc

  /** The checksum of xmodemCrcCheck without the CRC option. */
  function Sum(sum: Byte, buffer: seq<Byte>): Byte
    decreases |buffer|
  {
    if buffer == [] then sum else Sum(Add(sum, buffer[0]), buffer[1..])
  }

  function Add(a: Byte, b: Byte): Byte {
    a + b
  }

  function TwoBytes(hi: Byte, lo: Byte): Word {
    ((hi as Word) << 8) + lo as Word
  }

  /** xmodemCrcCheck on a buffer of `size` data bytes and its check bytes. */
  predicate CheckOk(crcflag: bool, buffer: seq<Byte>, size: nat)
    requires size + (if crcflag then 2 else 1) <= |buffer|
  {
    if crcflag then CrcOf(0, buffer[..size]) == TwoBytes(buffer[size], buffer[size + 1])
    else Sum(0, buffer[..size]) == buffer[size]
  }

  /** The CRC loop of xmodemCrcCheck. */
  method CrcLoop(buffer: seq<Byte>) returns (crc: Word)
    ensures crc == CrcOf(0, buffer)
  {
    hide Update;
    crc := 0;
    var n := 0;
    while n < |buffer|
      invariant n <= |buffer| && CrcOf(crc, buffer[n..]) == CrcOf(0, buffer)
    {
      assert buffer[n..][0] == buffer[n] && buffer[n..][1..] == buffer[n + 1..];
      crc := CrcXmodemUpdate(crc, buffer[n]);
      n := n + 1;
    }
  }

  /** The checksum loop of xmodemCrcCheck. */
  method SumLoop(buffer: seq<Byte>) returns (cksum: Byte)
    ensures cksum == Sum(0, buffer)
  {
    hide Add;
    cksum := 0;
    for i := 0 to |buffer|
      invariant Sum(cksum, buffer[i..]) == Sum(0, buffer)
    {
      assert buffer[i..][0] == buffer[i] && buffer[i..][1..] == buffer[i + 1..];
      cksum := Add(cksum, buffer[i]);
    }
  }

  method XmodemCrcCheck(crcflag: bool, buffer: seq<Byte>, size: nat) returns (ok: bool)
    requires size + (if crcflag then 2 else 1) <= |buffer|
    ensures ok == CheckOk(crcflag, buffer, size)
  {
    hide CrcOf, Sum, TwoBytes;
    if crcflag {
      var pktcrc := TwoBytes(buffer[size], buffer[size + 1]);
      var crc := CrcLoop(buffer[..size]);
      return crc == pktcrc;
    } else {
      var cksum := SumLoop(buffer[..size]);
      return cksum == buffer[size];
    }
  }

  // ----- Acceptance in terms of the register -----

  lemma LowRound(w: Word)
    requires !Top(w)
    ensures Shift(w) == Left(w)
  {
    XorZero(Left(w));
  }

  lemma LowTops(w: Word)
    requires w & 0xf000 == 0
    ensures !Top(w) && !Top(Left(w)) && !Top(Left(Left(w))) && !Top(Left(Left(Left(w))))
  {
  }

  lemma LowShifts4(w: Word)
    requires w & 0xf000 == 0
    ensures Shifts(w, 4) == w << 4
  {
    hide Top, Left, Shift;
    var a, b, c := Left(w), Left(Left(w)), Left(Left(Left(w)));
    LowTops(w);
    LowRound(w);
    LowRound(a);
    LowRound(b);
    LowRound(c);
    Left4(w);
    assert Shifts(w, 4) == Shifts(a, 3) == Shifts(b, 2) == Shifts(c, 1) == Shifts(Left(c), 0);
  }

  /** A byte at the bottom of the register reaches the top unchanged. */
  lemma LowShifts(lo: Byte)
    ensures Shifts(lo as Word, 8) == High(lo)
  {
    hide Shifts;
    LowByteFits(lo);
    LowShifts4(lo as Word);
    LowShifts4((lo as Word) << 4);
    ShiftsMore(lo as Word, 4, 4);
  }

  lemma LowByteFits(lo: Byte)
    ensures (lo as Word) & 0xf000 == 0 && ((lo as Word) << 4) & 0xf000 == 0
    ensures (lo as Word) << 4 << 4 == High(lo)
  {
  }

  lemma {:induction false} ShiftsXor(a: Word, b: Word, n: nat)
    ensures Shifts(Xor(a, b), n) == Xor(Shifts(a, n), Shifts(b, n))
    decreases n
  {
    hide Xor, Shift;
    if n > 0 {
      ShiftXor(a, b);
      ShiftsXor(Shift(a), Shift(b), n - 1);
    }
  }

  lemma {:induction false} ShiftsMore(a: Word, m: nat, n: nat)
    ensures Shifts(a, m + n) == Shifts(Shifts(a, m), n)
    decreases m
  {
    hide Shift;
    if m > 0 {
      ShiftsMore(Shift(a), m - 1, n);
    }
  }

  lemma TwoBytesXor(hi: Byte, lo: Byte)
    ensures TwoBytes(hi, lo) == Xor(High(hi), lo as Word)
  {
  }

  /** Two bytes into the register are sixteen rounds on their word. */
  lemma UpdateTwice(c: Word, hi: Byte, lo: Byte)
    ensures Update(Update(c, hi), lo) == Shifts(Xor(c, TwoBytes(hi, lo)), 16)
  {
    hide Xor, High, Shifts, TwoBytes;
    var a := Xor(c, High(hi));
    TwoBytesXor(hi, lo);
    LowShifts(lo);
    ShiftsXor(a, lo as Word, 8);
    XorAssoc(c, High(hi), lo as Word);
    ShiftsMore(Xor(a, lo as Word), 8, 8);
  }

  lemma {:induction false} CrcAppend(c: Word, a: seq<Byte>, b: seq<Byte>)
    ensures CrcOf(c, a + b) == CrcOf(CrcOf(c, a), b)
    decreases |a|
  {
    hide Update;
    if a == [] {
      assert a + b == b;
    } else {
      assert (a + b)[1..] == a[1..] + b;
      CrcAppend(Update(c, a[0]), a[1..], b);
    }
  }

  /** A frame passes the check exactly when its CRC, check bytes included, is 0. */
  lemma AcceptedIffZero(frame: seq<Byte>, size: nat)
    requires |frame| == size + 2
    ensures CheckOk(true, frame, size) <==> CrcOf(0, frame) == 0
  {
    hide Xor, Update, TwoBytes, Shifts;
    var hi, lo, c := frame[size], frame[size + 1], CrcOf(0, frame[..size]);
    assert frame == frame[..size] + [hi, lo];
    CrcAppend(0, frame[..size], [hi, lo]);
    assert [hi, lo][1..] == [lo] && [lo][1..] == [];
    assert CrcOf(c, [hi, lo]) == CrcOf(Update(c, hi), [lo]) == CrcOf(Update(Update(c, hi), lo), []);
    UpdateTwice(c, hi, lo);
    ShiftsZero(Xor(c, TwoBytes(hi, lo)), 16);
    XorSame(c, TwoBytes(hi, lo));
  }

  function HighByte(w: Word): Byte {
    (w >> 8) as Byte
  }

  function LowByte(w: Word): Byte {
    (w & 0xff) as Byte
  }

  lemma SplitWord(w: Word)
    ensures TwoBytes(HighByte(w), LowByte(w)) == w
  {
  }

  /** Data followed by its own CRC, high byte first, leaves the remainder 0. */
  lemma OwnCrc(data: seq<Byte>)
    ensures CrcOf(0, data + [HighByte(CrcOf(0, data)), LowByte(CrcOf(0, data))]) == 0
  {
    hide HighByte, LowByte, TwoBytes, CrcOf;
    var frame := data + [HighByte(CrcOf(0, data)), LowByte(CrcOf(0, data))];
    assert frame[..|data|] == data;
    SplitWord(CrcOf(0, data));
    AcceptedIffZero(frame, |data|);
  }

  // ----- Errors -----

  /** The bit sequence with the bits of `e` flipped. */
  function Flip(s: seq<bool>, e: seq<bool>): (r: seq<bool>)
    requires |s| == |e|
    ensures |r| == |s|
  {
    if s == [] then [] else [s[0] != e[0]] + Flip(s[1..], e[1..])
  }

  lemma FeedXor(a: Word, b: Word, x: bool, y: bool)
    ensures Feed(Xor(a, b), x != y) == Xor(Feed(a, x), Feed(b, y))
  {
    hide Xor, Shift, Unit;
    UnitXor(x, y);
    Xor4(a, b, Unit(x), Unit(y));
    ShiftXor(Xor(a, Unit(x)), Xor(b, Unit(y)));
  }

  /** The register is linear in what is fed to it. */
  lemma {:induction false} FeedFlip(a: Word, b: Word, s: seq<bool>, e: seq<bool>)
    requires |s| == |e|
    ensures FeedAll(Xor(a, b), Flip(s, e)) == Xor(FeedAll(a, s), FeedAll(b, e))
    decreases |s|
  {
    hide Xor, Feed;
    if s != [] {
      FeedXor(a, b, s[0], e[0]);
      assert Flip(s, e)[1..] == Flip(s[1..], e[1..]);
      FeedFlip(Feed(a, s[0]), Feed(b, e[0]), s[1..], e[1..]);
    }
  }

  function Zeros(n: nat): (s: seq<bool>)
    ensures |s| == n && forall i :: 0 <= i < n ==> !s[i]
    decreases n
  {
    if n == 0 then [] else [false] + Zeros(n - 1)
  }

  lemma FeedFalse(c: Word)
    ensures Feed(c, false) == Shift(c)
  {
    hide Xor, Shift;
    XorZero(c);
  }

  lemma {:induction false} FeedZeros(c: Word, n: nat)
    ensures FeedAll(c, Zeros(n)) == Shifts(c, n)
    decreases n
  {
    hide Feed, Shift;
    if n > 0 {
      FeedFalse(c);
      assert Zeros(n)[1..] == Zeros(n - 1);
      FeedZeros(Shift(c), n - 1);
    }
  }

  /** The word with the given bits. */
  function WordOf(s: seq<bool>): Word
    decreases |s|
  {
    if s == [] then 0 else Xor(Unit(s[0]), Right(WordOf(s[1..])))
  }

  function Right(w: Word): Word {
    w >> 1
  }

  lemma RightTop(w: Word)
    ensures !Top(Right(w)) && (w & 1 == 0 ==> Left(Right(w)) == w)
  {
  }

  lemma By15(w: Word)
    ensures Left(Left(Left(w << 8 << 4))) == 0 ==> w & 1 == 0
  {
  }

  /** A bit at the bottom is still in the word after up to 15 shifts. */
  lemma LowBit(w: Word, n: nat)
    requires n <= 15 && Shl(w, n) == 0
    ensures w & 1 == 0
  {
    hide Left;
    ShlMore(w, n, 15 - n);
    ShlZero(15 - n);
    ShlMore(w, 8, 7);
    Shl8(w);
    ShlMore(w << 8, 4, 3);
    Shl4(w << 8);
    var v := w << 8 << 4;
    assert Shl(v, 3) == Shl(Left(v), 2) == Shl(Left(Left(v)), 1) == Shl(Left(Left(Left(v))), 0);
    By15(w);
  }

  lemma {:induction false} ShlZero(n: nat)
    ensures Shl(0, n) == 0
    decreases n
  {
    if n > 0 {
      ShlZero(n - 1);
    }
  }

  lemma {:induction false} WordBits(s: seq<bool>)
    requires |s| <= 16
    ensures Bits(WordOf(s), |s|) == s && Shl(WordOf(s), |s|) == 0
    decreases |s|
  {
    hide Xor, Left, Right, Top, Unit;
    if s != [] {
      var w := WordOf(s[1..]);
      WordBits(s[1..]);
      LowBit(w, |s| - 1);
      RightTop(w);
      UnitTop(s[0]);
      TopXor(Unit(s[0]), Right(w));
      XorLeft(Unit(s[0]), Right(w));
      XorZero(w);
    }
  }

  lemma {:induction false} BitsZero(n: nat)
    ensures Bits(0, n) == Zeros(n)
    decreases n
  {
    hide Top, Left;
    ZeroLeft();
    if n > 0 {
      BitsZero(n - 1);
    }
  }

  lemma ZeroLeft()
    ensures Left(0) == 0 && !Top(0)
  {
  }

  /** From zero, up to 16 bits leave zero in the register only if all are zero. */
  lemma ShortFeed(s: seq<bool>)
    requires |s| <= 16
    ensures FeedAll(0, s) == 0 <==> s == Zeros(|s|)
  {
    hide Xor, FeedAll, Shifts, Zeros, Shl;
    var w := WordOf(s);
    WordBits(s);
    FeedWord(0, w, |s|);
    XorZero(w);
    XorZero(FeedAll(0, s));
    ShiftsZero(w, |s|);
    BitsZero(|s|);
    FeedZeros(0, |s|);
    ShiftsZero(0, |s|);
  }

  /** An error burst: the flipped bits lie within at most 16 consecutive ones. */
  ghost predicate Burst(e: seq<bool>) {
    exists i: nat, b: seq<bool>, j: nat :: IsBurst(e, i, b, j)
  }

  ghost predicate IsBurst(e: seq<bool>, i: nat, b: seq<bool>, j: nat) {
    |b| <= 16 && b != Zeros(|b|) && e == Zeros(i) + b + Zeros(j)
  }

  lemma BurstFeed(e: seq<bool>)
    requires Burst(e)
    ensures FeedAll(0, e) != 0
  {
    hide FeedAll, Shifts, Zeros;
    var i: nat, b: seq<bool>, j: nat :| IsBurst(e, i, b, j);
    FeedAppend(0, Zeros(i) + b, Zeros(j));
    FeedAppend(0, Zeros(i), b);
    FeedZeros(0, i);
    ShiftsZero(0, i);
    ShortFeed(b);
    FeedZeros(FeedAll(0, b), j);
    ShiftsZero(FeedAll(0, b), j);
  }

  /** A received frame passes, when the sent one did, exactly if the flipped bits
      alone leave zero in the register. */
  lemma UndetectedIff(sent: seq<Byte>, received: seq<Byte>, size: nat, e: seq<bool>)
    requires |sent| == |received| == size + 2 && |e| == |BufferBits(sent)|
    requires CheckOk(true, sent, size) && BufferBits(received) == Flip(BufferBits(sent), e)
    ensures CheckOk(true, received, size) <==> FeedAll(0, e) == 0
  {
    hide CheckOk, CrcOf, FeedAll, BufferBits, Xor, Flip;
    AcceptedIffZero(sent, size);
    AcceptedIffZero(received, size);
    CrcFeeds(0, sent);
    CrcFeeds(0, received);
    FeedFlip(0, 0, BufferBits(sent), e);
    XorZero(0);
    XorZero(FeedAll(0, e));
  }

  /** Every frame that differs from an accepted one by a burst is rejected. */
  lemma BurstsDetected(sent: seq<Byte>, received: seq<Byte>, size: nat, e: seq<bool>)
    requires |sent| == |received| == size + 2 && |e| == |BufferBits(sent)|
    requires CheckOk(true, sent, size) && BufferBits(received) == Flip(BufferBits(sent), e) && Burst(e)
    ensures !CheckOk(true, received, size)
  {
    hide CheckOk, FeedAll, BufferBits, Flip, Burst;
    BurstFeed(e);
    UndetectedIff(sent, received, size, e);
  }
}
