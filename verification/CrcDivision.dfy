/** The CRC as polynomial division over GF(2). A sequence of bits, the highest
    first, stands for a polynomial; sequences of equal length are added by
    flipping. */
module CrcDivision {
  import opened Crc
  import opened CrcDetect

  /** x^16 + x^12 + x^5 + 1. */
  const G: seq<bool> := [
    true, false, false, false, true, false, false, false, false,
    false, false, true, false, false, false, false, true]

  function Scaled(q: bool, p: seq<bool>): (r: seq<bool>)
    ensures |r| == |p|
  {
    if q then p else Zeros(|p|)
  }

  /** The product of `q` and `p`, as the sum of shifted copies of `p`. */
  function Times(q: seq<bool>, p: seq<bool>): (r: seq<bool>)
    requires p != []
    ensures |r| == |q| + |p| - 1
    decreases |q|
  {
    if q == [] then Zeros(|p| - 1)
    else Flip(Scaled(q[0], p) + Zeros(|q| - 1), [false] + Times(q[1..], p))
  }

  /** The bits that the register feeds back while it takes in `m`. */
  function Quotient(c: Word, m: seq<bool>): (q: seq<bool>)
    ensures |q| == |m|
    decreases |m|
  {
    if m == [] then [] else [Top(c) != m[0]] + Quotient(Feed(c, m[0]), m[1..])
  }

  /** The polynomial m * x^16 with the register added at the top. */
  function Pending(c: Word, m: seq<bool>): (r: seq<bool>)
    ensures |r| == |m| + 16
  {
    Flip(m + Zeros(16), Bits(c, 16) + Zeros(|m|))
  }

  // ----- Flip -----

  lemma {:induction false} FlipAt(a: seq<bool>, b: seq<bool>, i: nat)
    requires |a| == |b| && i < |a|
    ensures Flip(a, b)[i] == (a[i] != b[i])
  {
    if i > 0 {
      FlipAt(a[1..], b[1..], i - 1);
    }
  }

  lemma FlipAll(a: seq<bool>, b: seq<bool>)
    requires |a| == |b|
    ensures forall i :: 0 <= i < |a| ==> Flip(a, b)[i] == (a[i] != b[i])
  {
    hide Flip;
    forall i | 0 <= i < |a| ensures Flip(a, b)[i] == (a[i] != b[i]) {
      FlipAt(a, b, i);
    }
  }

  lemma FlipAssoc(a: seq<bool>, b: seq<bool>, c: seq<bool>)
    requires |a| == |b| == |c|
    ensures Flip(Flip(a, b), c) == Flip(a, Flip(b, c))
  {
    hide Flip;
    FlipAll(a, b);
    FlipAll(b, c);
    FlipAll(Flip(a, b), c);
    FlipAll(a, Flip(b, c));
  }

  lemma FlipCancel(a: seq<bool>, b: seq<bool>, c: seq<bool>)
    requires |a| == |b| == |c| && Flip(a, b) == Flip(a, c)
    ensures b == c
  {
    hide Flip;
    FlipAll(a, b);
    FlipAll(a, c);
    forall i | 0 <= i < |b| ensures b[i] == c[i] {
      assert Flip(a, b)[i] == Flip(a, c)[i];
    }
  }

  lemma FlipZeros(b: seq<bool>)
    ensures Flip(Zeros(|b|), b) == b && Flip(b, Zeros(|b|)) == b
  {
    hide Flip;
    FlipAll(Zeros(|b|), b);
    FlipAll(b, Zeros(|b|));
  }

  lemma ConsFlip(a: bool, b: bool, x: seq<bool>, y: seq<bool>)
    requires |x| == |y|
    ensures Flip([a] + x, [b] + y) == [a != b] + Flip(x, y)
  {
    assert ([a] + x)[1..] == x && ([b] + y)[1..] == y;
  }

  // ----- One step of the division -----

  lemma {:induction false} BitsMore(w: Word, m: nat, n: nat)
    ensures Bits(w, m + n) == Bits(w, m) + Bits(Shl(w, m), n)
    decreases m
  {
    hide Top, Left;
    if m > 0 {
      BitsMore(Left(w), m - 1, n);
    }
  }

  lemma Bits4(w: Word)
    ensures Bits(w, 4) == [w & 0x8000 != 0, w & 0x4000 != 0, w & 0x2000 != 0, w & 0x1000 != 0]
  {
    hide Top, Left;
    var a, b, c := Left(w), Left(Left(w)), Left(Left(Left(w)));
    assert Bits(w, 4) == [Top(w)] + Bits(a, 3);
    assert Bits(a, 3) == [Top(a)] + Bits(b, 2);
    assert Bits(b, 2) == [Top(b)] + Bits(c, 1);
    assert Bits(c, 1) == [Top(c)] + Bits(Left(c), 0);
    Tops(w);
  }

  lemma Tops(w: Word)
    ensures Top(w) == (w & 0x8000 != 0) && Top(Left(w)) == (w & 0x4000 != 0)
    ensures Top(Left(Left(w))) == (w & 0x2000 != 0) && Top(Left(Left(Left(w)))) == (w & 0x1000 != 0)
  {
  }

  lemma PolyBits(b: bool)
    ensures [b] + Bits(Poly(b), 16) == Scaled(b, G)
  {
    hide Bits, Shl, Left, Top;
    if b {
      var w: Word := 0x1021;
      BitsMore(w, 4, 12);
      Shl4(w);
      BitsMore(w << 4, 4, 8);
      Shl4(w << 4);
      BitsMore(w << 4 << 4, 4, 4);
      Shl4(w << 4 << 4);
      Bits4(w);
      Bits4(w << 4);
      Bits4(w << 4 << 4);
      Bits4(w << 4 << 4 << 4);
      assert Bits(w, 16) == Bits(w, 4) + (Bits(w << 4, 4) + (Bits(w << 4 << 4, 4) + Bits(w << 4 << 4 << 4, 4)));
    } else {
      BitsZero(16);
      assert [false] + Zeros(16) == Zeros(17);
    }
  }

  lemma {:induction false} BitsXor(a: Word, b: Word, n: nat)
    ensures Bits(Xor(a, b), n) == Flip(Bits(a, n), Bits(b, n))
    decreases n
  {
    hide Top, Left, Xor;
    if n > 0 {
      TopXor(a, b);
      XorLeft(a, b);
      BitsXor(Left(a), Left(b), n - 1);
      assert Bits(a, n)[1..] == Bits(Left(a), n - 1) && Bits(b, n)[1..] == Bits(Left(b), n - 1);
    }
  }

  lemma BitsLeft(c: Word)
    ensures Bits(c, 16) + [false] == [Top(c)] + Bits(Left(c), 16)
  {
    hide Top, Left, Shl;
    assert Bits(c, 17) == [Top(c)] + Bits(Left(c), 16);
    BitsMore(c, 16, 1);
    Shl16(c);
    ZeroLeft();
    assert Bits(0, 1) == [Top(0)] + Bits(Left(0), 0);
  }

  lemma FeedIs(c: Word, b: bool)
    ensures Feed(c, b) == Xor(Left(c), Poly(Top(c) != b))
  {
    hide Xor, Left, Top, Unit, Poly;
    UnitTop(b);
    TopXor(c, Unit(b));
    XorLeft(c, Unit(b));
    XorZero(Left(c));
  }

  lemma RegisterStep(c: Word, b: bool)
    ensures Bits(Feed(c, b), 16) == Flip(Bits(Left(c), 16), Bits(Poly(Top(c) != b), 16))
  {
    hide Xor, Left, Top, Poly, Feed, Bits, Flip;
    FeedIs(c, b);
    BitsXor(Left(c), Poly(Top(c) != b), 16);
  }

  lemma Reassoc(b: seq<bool>, t: bool, l: seq<bool>, z: seq<bool>)
    requires b + [false] == [t] + l
    ensures b + ([false] + z) == [t] + (l + z)
  {
    assert b + ([false] + z) == (b + [false]) + z;
  }

  lemma ConsAppend(m: seq<bool>, z: seq<bool>)
    requires m != []
    ensures m + z == [m[0]] + (m[1..] + z)
  {
  }

  /** What is pending, with its highest power apart. */
  lemma PendingHead(c: Word, m: seq<bool>)
    requires m != []
    ensures Pending(c, m) ==
      [m[0] != Top(c)] + Flip(m[1..] + Zeros(16), Bits(Left(c), 16) + Zeros(|m| - 1))
  {
    hide Top, Left, Bits, Flip, Zeros;
    BitsLeft(c);
    ZerosCons(|m|);
    Reassoc(Bits(c, 16), Top(c), Bits(Left(c), 16), Zeros(|m| - 1));
    ConsAppend(m, Zeros(16));
    ConsFlip(m[0], Top(c), m[1..] + Zeros(16), Bits(Left(c), 16) + Zeros(|m| - 1));
  }

  /** The same step with the parts named. */
  lemma StepParts(q: bool, w: seq<bool>, l: seq<bool>, p: seq<bool>, z: seq<bool>, g: seq<bool>, x: seq<bool>)
    requires |l| == |p| && |w| == |l| + |z| && z == Zeros(|z|) && g == [q] + p
    requires x == Flip(w, Flip(l, p) + z)
    ensures |g + z| == |[false] + x| && [q] + Flip(w, l + z) == Flip(g + z, [false] + x)
  {
    hide Flip, Zeros;
    Middle(w, l, p, z);
    assert g + z == [q] + (p + z);
    ConsFlip(q, false, p + z, x);
  }

  lemma PendingNext(c: Word, m: seq<bool>)
    requires m != []
    ensures Pending(Feed(c, m[0]), m[1..]) ==
      Flip(m[1..] + Zeros(16), Flip(Bits(Left(c), 16), Bits(Poly(Top(c) != m[0]), 16)) + Zeros(|m| - 1))
  {
    hide Top, Left, Poly, Feed, Bits, Flip, Zeros;
    RegisterStep(c, m[0]);
  }

  /** One bit into the register takes one shifted copy of G, or none, off what is
      pending, and the highest power with it. */
  lemma DivisionStep(c: Word, m: seq<bool>)
    requires m != []
    ensures Pending(c, m) ==
      Flip(Scaled(Top(c) != m[0], G) + Zeros(|m| - 1), [false] + Pending(Feed(c, m[0]), m[1..]))
  {
    hide Top, Left, Poly, Feed, Bits, Flip, Zeros, Scaled, Pending;
    var q := Top(c) != m[0];
    PendingHead(c, m);
    PendingNext(c, m);
    PolyBits(q);
    StepParts(q, m[1..] + Zeros(16), Bits(Left(c), 16), Bits(Poly(q), 16), Zeros(|m| - 1), Scaled(q, G),
              Pending(Feed(c, m[0]), m[1..]));
  }

  lemma ZerosCons(n: nat)
    requires n > 0
    ensures Zeros(n) == [false] + Zeros(n - 1)
  {
  }

  lemma Middle(w: seq<bool>, l: seq<bool>, p: seq<bool>, z: seq<bool>)
    requires |l| == |p| && |w| == |l| + |z| && z == Zeros(|z|)
    ensures Flip(w, l + z) == Flip(p + z, Flip(w, Flip(l, p) + z))
  {
    hide Flip, Zeros;
    FlipAll(w, l + z);
    FlipAll(l, p);
    var x := Flip(l, p) + z;
    FlipAll(w, x);
    FlipAll(p + z, Flip(w, x));
    assert forall i :: 0 <= i < |z| ==> !z[i];
  }

  // ----- Quotient and remainder -----

  lemma PendingEmpty(c: Word)
    ensures Pending(c, []) == Bits(c, 16)
  {
    hide Bits, Flip;
    FlipZeros(Bits(c, 16));
    assert [] + Zeros(16) == Zeros(16) && Bits(c, 16) + Zeros(0) == Bits(c, 16);
  }

  lemma TimesParts(a: seq<bool>, t: seq<bool>, y: seq<bool>)
    requires |a| == 1 + |t| && |t| == |y|
    ensures Flip(Flip(a, [false] + t), [false] + y) == Flip(a, [false] + Flip(t, y))
  {
    hide Flip;
    FlipAssoc(a, [false] + t, [false] + y);
    ConsFlip(false, false, t, y);
  }

  lemma TimesStep(q: seq<bool>, r: seq<bool>)
    requires q != [] && |r| == 16
    ensures Flip(Times(q, G), Zeros(|q|) + r) ==
      Flip(Scaled(q[0], G) + Zeros(|q| - 1), [false] + Flip(Times(q[1..], G), Zeros(|q| - 1) + r))
  {
    hide Flip, Zeros, Scaled;
    ZerosCons(|q|);
    ConsAppend(Zeros(|q|), r);
    TimesParts(Scaled(q[0], G) + Zeros(|q| - 1), Times(q[1..], G), Zeros(|q| - 1) + r);
  }

  /** The division: m * x^16, with the start of the register added at the top, is
      the quotient times G plus the register at the end. */
  lemma {:induction false} Division(c: Word, m: seq<bool>)
    ensures Pending(c, m) == Flip(Times(Quotient(c, m), G), Zeros(|m|) + Bits(FeedAll(c, m), 16))
    decreases |m|
  {
    hide Flip, Bits, Feed, Pending, Zeros, Scaled, Top;
    if m == [] {
      PendingEmpty(c);
      FlipZeros(Bits(c, 16));
      ZerosNone();
      assert [] + Bits(c, 16) == Bits(c, 16);
    } else {
      DivisionStep(c, m);
      Division(Feed(c, m[0]), m[1..]);
      TimesStep(Quotient(c, m), Bits(FeedAll(c, m), 16));
    }
  }

  lemma ZerosNone()
    ensures Zeros(0) == []
  {
  }

  /** Quotient and remainder are unique. */
  lemma {:induction false} DivisionUnique(c: Word, m: seq<bool>, q: seq<bool>, r: seq<bool>)
    requires |q| == |m| && |r| == 16 && Pending(c, m) == Flip(Times(q, G), Zeros(|m|) + r)
    ensures q == Quotient(c, m) && r == Bits(FeedAll(c, m), 16)
    decreases |m|
  {
    hide Flip, Bits, Feed, Pending, Zeros, Scaled, Top, Times;
    if m == [] {
      PendingEmpty(c);
      FlipZeros(r);
      ZerosNone();
      assert [] + r == r;
      TimesNone();
    } else {
      DivisionStep(c, m);
      TimesStep(q, r);
      var a, b := Scaled(Top(c) != m[0], G) + Zeros(|m| - 1), Scaled(q[0], G) + Zeros(|m| - 1);
      var x, y := Pending(Feed(c, m[0]), m[1..]), Flip(Times(q[1..], G), Zeros(|m| - 1) + r);
      FlipAll(a, [false] + x);
      FlipAll(b, [false] + y);
      ScaledHead(Top(c) != m[0]);
      ScaledHead(q[0]);
      assert a[0] == b[0];
      FlipCancel(a, [false] + x, [false] + y);
      assert ([false] + x)[1..] == x && ([false] + y)[1..] == y;
      DivisionUnique(Feed(c, m[0]), m[1..], q[1..], r);
      assert q == [q[0]] + q[1..];
    }
  }

  lemma TimesNone()
    ensures Times([], G) == Zeros(16)
  {
  }

  lemma ScaledHead(b: bool)
    ensures Scaled(b, G)[0] == b
  {
  }

  /** The meaning of the CRC: for the bits `m` of a buffer, q and r are quotient and
      remainder of m * x^16 by G exactly when r is what the code computes. */
  lemma CrcIsRemainder(buffer: seq<Byte>, q: seq<bool>, r: seq<bool>)
    requires |q| == |BufferBits(buffer)| && |r| == 16
    ensures var m := BufferBits(buffer);
      m + Zeros(16) == Flip(Times(q, G), Zeros(|m|) + r)
      <==> q == Quotient(0, m) && r == Bits(CrcOf(0, buffer), 16)
  {
    hide Flip, Bits, BufferBits, Zeros, Times, FeedAll, CrcOf, Quotient;
    var m := BufferBits(buffer);
    CrcFeeds(0, buffer);
    BitsZero(16);
    ZerosMore(16, |m|);
    FlipZeros(m + Zeros(16));
    assert Pending(0, m) == m + Zeros(16);
    Division(0, m);
    if m + Zeros(16) == Flip(Times(q, G), Zeros(|m|) + r) {
      DivisionUnique(0, m, q, r);
    }
  }

  lemma {:induction false} ZerosMore(a: nat, b: nat)
    ensures Zeros(a) + Zeros(b) == Zeros(a + b)
    decreases a
  {
    if a > 0 {
      ZerosMore(a - 1, b);
    }
  }

  /** An error goes undetected exactly when, times x^16, it is a multiple of G. */
  lemma UndetectedIffMultiple(sent: seq<Byte>, received: seq<Byte>, size: nat, e: seq<bool>)
    requires |sent| == |received| == size + 2 && |e| == |BufferBits(sent)|
    requires CheckOk(true, sent, size) && BufferBits(received) == Flip(BufferBits(sent), e)
    ensures CheckOk(true, received, size) <==> exists q :: |q| == |e| && e + Zeros(16) == Times(q, G)
  {
    hide Flip, Bits, BufferBits, Zeros, Times, FeedAll, CheckOk, Quotient;
    UndetectedIff(sent, received, size, e);
    BitsZero(16);
    ZerosMore(16, |e|);
    ZerosMore(|e|, 16);
    FlipZeros(e + Zeros(16));
    assert Pending(0, e) == e + Zeros(16);
    Division(0, e);
    var q0 := Quotient(0, e);
    FlipZeros(Times(q0, G));
    if FeedAll(0, e) == 0 {
      assert |q0| == |e| && e + Zeros(16) == Times(q0, G);
    }
    forall q: seq<bool> | |q| == |e| && e + Zeros(16) == Times(q, G) ensures FeedAll(0, e) == 0 {
      FlipZeros(Times(q, G));
      DivisionUnique(0, e, q, Zeros(16));
      ZeroBits(FeedAll(0, e));
    }
  }

  lemma ZeroBits(w: Word)
    requires Bits(w, 16) == Zeros(16)
    ensures w == 0
  {
    hide Bits, Zeros, Xor, FeedAll, Shifts;
    FeedWhole(0, w);
    XorZero(w);
    FeedZeros(0, 16);
    ShiftsZero(0, 16);
    ShiftsZero(w, 16);
  }
}
