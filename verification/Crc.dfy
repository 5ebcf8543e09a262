/** The CRC-16 of src/cbl/xmodem.c as a shift register, and what it means: the
    remainder of polynomial division by x^16 + x^12 + x^5 + 1 over GF(2)
    (sections 4.2 and 8.1 of Forsberg's XMODEM/YMODEM Protocol Reference). */
module Crc {
  type Byte = bv8
  type Word = bv16

  // ----- Words -----

  predicate Top(w: Word) {
    w & 0x8000 != 0
  }

  function Xor(a: Word, b: Word): Word {
    a ^ b
  }

  function Left(w: Word): Word {
    w << 1
  }

  /** A word that has only the top bit, or none. */
  function Unit(b: bool): Word {
    if b then 0x8000 else 0
  }

  /** What a round of the register mixes in. */
  function Poly(b: bool): Word {
    if b then 0x1021 else 0
  }

  function High(data: Byte): Word {
    (data as Word) << 8
  }

  lemma XorAssoc(a: Word, b: Word, c: Word)
    ensures Xor(Xor(a, b), c) == Xor(a, Xor(b, c))
  {
  }

  lemma XorComm(a: Word, b: Word)
    ensures Xor(a, b) == Xor(b, a)
  {
  }

  lemma XorZero(a: Word)
    ensures Xor(a, 0) == a && Xor(0, a) == a
  {
  }

  lemma XorSame(a: Word, b: Word)
    ensures Xor(a, b) == 0 <==> a == b
  {
  }

  lemma Xor4(a: Word, b: Word, c: Word, d: Word)
    ensures Xor(Xor(a, b), Xor(c, d)) == Xor(Xor(a, c), Xor(b, d))
  {
    hide Xor;
    XorAssoc(a, b, Xor(c, d));
    XorAssoc(b, c, d);
    XorComm(b, c);
    XorAssoc(c, b, d);
    XorAssoc(a, c, Xor(b, d));
  }

  lemma XorLeft(a: Word, b: Word)
    ensures Left(Xor(a, b)) == Xor(Left(a), Left(b))
  {
  }

  lemma TopCases(a: Word)
    ensures a & 0x8000 == 0 || a & 0x8000 == 0x8000
  {
  }

  lemma TopXor(a: Word, b: Word)
    ensures Top(Xor(a, b)) <==> Top(a) != Top(b)
  {
    TopCases(a);
    TopCases(b);
    assert (a ^ b) & 0x8000 == (a & 0x8000) ^ (b & 0x8000);
  }

  lemma PolyXor(a: bool, b: bool)
    ensures Xor(Poly(a), Poly(b)) == Poly(a != b)
  {
  }

  lemma UnitXor(a: bool, b: bool)
    ensures Xor(Unit(a), Unit(b)) == Unit(a != b)
  {
  }

  lemma UnitTop(b: bool)
    ensures Top(Unit(b)) == b && Left(Unit(b)) == 0
  {
  }

  /** The register has no state from which it falls to zero, but zero. */
  lemma PolyOdd(a: Word)
    requires Xor(Left(a), Poly(Top(a))) == 0
    ensures a == 0
  {
    OddRound(a);
  }

  lemma OddRound(a: Word)
    ensures (a << 1) ^ 0x1021 != 0
  {
    assert ((a << 1) ^ 0x1021) & 1 == 1;
  }

  // ----- The code -----

  /** One round of the loop of crc_xmodem_update. */
  function Shift(crc: Word): Word {
    Xor(Left(crc), Poly(Top(crc)))
  }

  function Shifts(crc: Word, n: nat): Word
    decreases n
  {
    if n == 0 then crc else Shifts(Shift(crc), n - 1)
  }

  function Update(crc: Word, data: Byte): Word {
    Shifts(Xor(crc, High(data)), 8)
  }

  /** crc_xmodem_update. */
  method CrcXmodemUpdate(crc: Word, data: Byte) returns (r: Word)
    ensures r == Update(crc, data)
  {
    hide Xor, Left, Top;
    r := crc ^ ((data as Word) << 8);
    ghost var start := r;
    assert start == Xor(crc, High(data)) by { XorIs(crc, High(data)); }
    for i := 0 to 8
      invariant Shifts(r, 8 - i) == Shifts(start, 8)
    {
      RoundIs(r);
      if r & 0x8000 != 0 {
        r := (r << 1) ^ 0x1021;
      } else {
        r := r << 1;
      }
    }
  }

  lemma XorIs(a: Word, b: Word)
    ensures Xor(a, b) == a ^ b
  {
  }

  lemma RoundIs(r: Word)
    ensures Shift(r) == if r & 0x8000 != 0 then (r << 1) ^ 0x1021 else r << 1
  {
    XorZero(Left(r));
  }

  /** The CRC of a buffer, from the register `crc` on. */
  function CrcOf(crc: Word, buffer: seq<Byte>): Word
    decreases |buffer|
  {
    if buffer == [] then crc else CrcOf(Update(crc, buffer[0]), buffer[1..])
  }

  // ----- The register, one bit at a time -----

  function Feed(crc: Word, b: bool): Word {
    Shift(Xor(crc, Unit(b)))
  }

  function FeedAll(crc: Word, bits: seq<bool>): Word
    decreases |bits|
  {
    if bits == [] then crc else FeedAll(Feed(crc, bits[0]), bits[1..])
  }

  /** The first `n` bits of a word, the highest first, zeros behind the word. */
  function Bits(w: Word, n: nat): (s: seq<bool>)
    ensures |s| == n
    decreases n
  {
    if n == 0 then [] else [Top(w)] + Bits(Left(w), n - 1)
  }

  function Shl(w: Word, n: nat): Word
    decreases n
  {
    if n == 0 then w else Shl(Left(w), n - 1)
  }

  /** The bits of a buffer in the order of transmission. */
  function BufferBits(buffer: seq<Byte>): seq<bool> {
    if buffer == [] then [] else Bits(High(buffer[0]), 8) + BufferBits(buffer[1..])
  }

  /** The register is linear. */
  lemma ShiftXor(a: Word, b: Word)
    ensures Shift(Xor(a, b)) == Xor(Shift(a), Shift(b))
  {
    hide Xor, Left, Poly, Top;
    TopXor(a, b);
    XorLeft(a, b);
    PolyXor(Top(a), Top(b));
    Xor4(Left(a), Poly(Top(a)), Left(b), Poly(Top(b)));
  }

  lemma ShiftZero(a: Word)
    ensures Shift(a) == 0 <==> a == 0
  {
    hide Xor, Left, Poly, Top;
    if Shift(a) == 0 {
      PolyOdd(a);
    }
    ZeroRound();
  }

  lemma ZeroRound()
    ensures Shift(0) == 0
  {
  }

  lemma {:induction false} ShiftsZero(a: Word, n: nat)
    ensures Shifts(a, n) == 0 <==> a == 0
    decreases n
  {
    hide Shift;
    if n > 0 {
      ShiftZero(a);
      ShiftsZero(Shift(a), n - 1);
    }
  }

  lemma FeedOne(f: Word, w: Word)
    ensures Xor(Feed(f, Top(w)), Left(w)) == Shift(Xor(f, w))
  {
    hide Xor, Left, Poly, Top, Unit;
    var u := Unit(Top(w));
    ShiftXor(f, u);
    ShiftXor(f, w);
    UnitTop(Top(w));
    XorZero(Poly(Top(w)));
    XorComm(Left(w), Poly(Top(w)));
    XorAssoc(Shift(f), Poly(Top(w)), Left(w));
  }

  /** Mixing a word in at the top and shifting is feeding its bits. */
  lemma {:induction false} FeedWord(f: Word, w: Word, n: nat)
    ensures Shifts(Xor(f, w), n) == Xor(FeedAll(f, Bits(w, n)), Shl(w, n))
    decreases n
  {
    hide Xor, Left, Shift, Top, Feed;
    if n > 0 {
      FeedOne(f, w);
      var b := Bits(w, n);
      assert b[0] == Top(w) && b[1..] == Bits(Left(w), n - 1);
      FeedWord(Feed(f, Top(w)), Left(w), n - 1);
    }
  }

  lemma {:induction false} ShlMore(w: Word, m: nat, n: nat)
    ensures Shl(w, m + n) == Shl(Shl(w, m), n)
    decreases m
  {
    hide Left;
    if m > 0 {
      ShlMore(Left(w), m - 1, n);
    }
  }

  lemma Left4(w: Word)
    ensures Left(Left(Left(Left(w)))) == w << 4
  {
  }

  lemma Shl4(w: Word)
    ensures Shl(w, 4) == w << 4
  {
    hide Left;
    Left4(w);
    var a, b, c := Left(w), Left(Left(w)), Left(Left(Left(w)));
    assert Shl(w, 4) == Shl(a, 3) == Shl(b, 2) == Shl(c, 1) == Shl(Left(c), 0);
  }

  lemma Shl8(w: Word)
    ensures Shl(w, 8) == w << 8
  {
    hide Shl;
    Shl4(w);
    Shl4(w << 4);
    ShlMore(w, 4, 4);
    By8(w);
  }

  lemma By8(w: Word)
    ensures w << 4 << 4 == w << 8
  {
  }

  lemma Shl16(w: Word)
    ensures Shl(w, 16) == 0
  {
    hide Shl;
    Shl8(w);
    Shl8(w << 8);
    ShlMore(w, 8, 8);
    By16(w);
  }

  lemma By16(w: Word)
    ensures w << 8 << 8 == 0
  {
  }

  /** Eight rounds of the code are eight bits into the register. */
  lemma UpdateFeeds(crc: Word, data: Byte)
    ensures Update(crc, data) == FeedAll(crc, Bits(High(data), 8))
  {
    hide Xor, High, Shl, Shifts, FeedAll, Bits;
    FeedWord(crc, High(data), 8);
    Shl8(High(data));
    ByteGone(data);
    XorZero(FeedAll(crc, Bits(High(data), 8)));
  }

  lemma ByteGone(data: Byte)
    ensures High(data) << 8 == 0
  {
  }

  /** Feeding the 16 bits of a word. */
  lemma FeedWhole(f: Word, w: Word)
    ensures FeedAll(f, Bits(w, 16)) == Shifts(Xor(f, w), 16)
  {
    hide Xor, Shl, Shifts, FeedAll, Bits;
    FeedWord(f, w, 16);
    Shl16(w);
    XorZero(FeedAll(f, Bits(w, 16)));
  }

  lemma {:induction false} FeedAppend(c: Word, a: seq<bool>, b: seq<bool>)
    ensures FeedAll(c, a + b) == FeedAll(FeedAll(c, a), b)
    decreases |a|
  {
    hide Feed;
    if a == [] {
      assert a + b == b;
    } else {
      assert (a + b)[1..] == a[1..] + b;
      FeedAppend(Feed(c, a[0]), a[1..], b);
    }
  }

  /** The CRC of the code is the register fed with the bits of the buffer. */
  lemma {:induction false} CrcFeeds(crc: Word, buffer: seq<Byte>)
    ensures CrcOf(crc, buffer) == FeedAll(crc, BufferBits(buffer))
    decreases |buffer|
  {
    hide Update, Bits, High;
    if buffer != [] {
      UpdateFeeds(crc, buffer[0]);
      CrcFeeds(Update(crc, buffer[0]), buffer[1..]);
      FeedAppend(crc, Bits(High(buffer[0]), 8), BufferBits(buffer[1..]));
    }
  }
}
