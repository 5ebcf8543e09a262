/** The segment list of a map: how splitting, occupying and freeing segments
    change the tiling, the sum and what each address is mapped to. */
module VmSegs {
  import opened Lists
  import opened Page
  import opened Vm

  // ----- The invariant of the list -----

  /** The segments fill [from, to) in address order, in whole pages. */
  predicate STiles(s: seq<Seg>, from: int, to: int) {
    if s == [] then from == to
    else s[0].addr == from && s[0].size > 0 && Aligned(s[0].size) && STiles(s[1..], s[0].End(), to)
  }

  /** No two adjacent segments are free. */
  predicate NoTouch(s: seq<Seg>) {
    |s| > 1 ==> !(s[0].IsFree() && s[1].IsFree()) && NoTouch(s[1..])
  }

  /** The bytes in segments that are not free. */
  function Sum(s: seq<Seg>): int {
    if s == [] then 0 else (if s[0].IsFree() then 0 else s[0].size) + Sum(s[1..])
  }

  ghost predicate SegsOk(s: seq<Seg>) {
    STiles(s, PAGE_SIZE, USERLIMIT) && NoTouch(s)
  }

  /** The flags of the segment at address `y` and the byte it is mapped to. */
  function Status(s: seq<Seg>, y: int): Option<(SegFlags, int)> {
    if s == [] then None
    else if s[0].addr <= y < s[0].End() then
      if s[0].IsFree() then None else Some((s[0].flags, s[0].phys + (y - s[0].addr)))
    else Status(s[1..], y)
  }

  /** The physical byte `x` backs some segment. */
  predicate Backs(s: seq<Seg>, x: int) {
    s != [] && ((!s[0].IsFree() && s[0].phys <= x < s[0].phys + s[0].size) || Backs(s[1..], x))
  }

  /** Each segment has memory of its own. */
  ghost predicate OwnMemory(s: seq<Seg>) {
    s != [] ==>
      && (!s[0].IsFree() ==>
            && Whole(Blk(s[0].phys, s[0].size))
            && forall x :: s[0].phys <= x < s[0].phys + s[0].size ==> !Backs(s[1..], x))
      && OwnMemory(s[1..])
  }

  // ----- Concatenation -----

  predicate Meets(a: seq<Seg>, b: seq<Seg>) {
    a != [] && b != [] && a[|a| - 1].IsFree() && b[0].IsFree()
  }

  lemma {:induction false} STilesAppend(a: seq<Seg>, b: seq<Seg>, from: int, mid: int, to: int)
    requires STiles(a, from, mid)
    ensures STiles(a + b, from, to) <==> STiles(b, mid, to)
    decreases |a|
  {
    hide Aligned;
    if a == [] {
      assert a + b == b;
    } else {
      assert (a + b)[1..] == a[1..] + b;
      STilesAppend(a[1..], b, a[0].End(), mid, to);
    }
  }

  lemma {:induction false} STilesAt(s: seq<Seg>, from: int, to: int, i: nat)
    requires STiles(s, from, to) && i < |s|
    ensures s == s[..i] + ([s[i]] + s[i + 1..])
    ensures STiles(s[..i], from, s[i].addr) && STiles(s[i + 1..], s[i].End(), to)
    ensures s[i].size > 0 && Aligned(s[i].size) && (Aligned(from) ==> Aligned(s[i].addr))
    ensures from <= s[i].addr && s[i].End() <= to
    decreases |s|
  {
    assert s == s[..i] + ([s[i]] + s[i + 1..]);
    if Aligned(from) {
      AlignedSum(from, s[0].size);
    }
    hide Aligned;
    if i > 0 {
      var t := s[1..];
      STilesAt(t, s[0].End(), to, i - 1);
      assert s[..i][1..] == t[..i - 1] && s[i + 1..] == t[i..];
    }
    STilesLength(s[i + 1..], s[i].End(), to);
  }

  lemma {:induction false} STilesLength(s: seq<Seg>, from: int, to: int)
    requires STiles(s, from, to)
    ensures from <= to
    decreases |s|
  {
    hide Aligned;
    if s != [] {
      STilesLength(s[1..], s[0].End(), to);
    }
  }

  lemma {:induction false} NoTouchAppend(a: seq<Seg>, b: seq<Seg>)
    ensures NoTouch(a + b) <==> NoTouch(a) && NoTouch(b) && !Meets(a, b)
    decreases |a|
  {
    if a == [] {
      assert a + b == b;
    } else {
      assert (a + b)[1..] == a[1..] + b;
      NoTouchAppend(a[1..], b);
    }
  }

  lemma {:induction false} SumAppend(a: seq<Seg>, b: seq<Seg>)
    ensures Sum(a + b) == Sum(a) + Sum(b)
    decreases |a|
  {
    if a == [] {
      assert a + b == b;
    } else {
      assert (a + b)[1..] == a[1..] + b;
      SumAppend(a[1..], b);
    }
  }

  lemma {:induction false} BacksAppend(a: seq<Seg>, b: seq<Seg>, x: int)
    ensures Backs(a + b, x) <==> Backs(a, x) || Backs(b, x)
    decreases |a|
  {
    if a == [] {
      assert a + b == b;
    } else {
      assert (a + b)[1..] == a[1..] + b;
      BacksAppend(a[1..], b, x);
    }
  }

  /** Below its end an address is looked up in the first part, else in the second. */
  lemma {:induction false} StatusAppend(a: seq<Seg>, b: seq<Seg>, from: int, mid: int, y: int)
    requires STiles(a, from, mid) && from <= y
    ensures Status(a + b, y) == if y < mid then Status(a, y) else Status(b, y)
    decreases |a|
  {
    hide Aligned;
    if a == [] {
      assert a + b == b;
    } else {
      assert (a + b)[1..] == a[1..] + b;
      STilesLength(a[1..], a[0].End(), mid);
      if y >= a[0].End() {
        StatusAppend(a[1..], b, a[0].End(), mid, y);
      }
    }
  }

  lemma {:induction false} OwnAppend(a: seq<Seg>, b: seq<Seg>)
    ensures OwnMemory(a + b) <==> OwnMemory(a) && OwnMemory(b) && BackApart(a, b)
    decreases |a|
  {
    hide Aligned, Whole;
    if a == [] {
      assert a + b == b;
      assert forall x :: !Backs(a, x);
    } else {
      assert (a + b)[1..] == a[1..] + b && (a + b)[0] == a[0];
      OwnAppend(a[1..], b);
      forall x ensures Backs((a + b)[1..], x) <==> Backs(a[1..], x) || Backs(b, x) {
        BacksAppend(a[1..], b, x);
      }
      OwnHead(a, b);
    }
  }

  /** The first segment and the rest. */
  ghost predicate HeadApart(c: Seg, t: seq<Seg>) {
    !c.IsFree() ==> Whole(Blk(c.phys, c.size)) && forall x :: c.phys <= x < c.phys + c.size ==> !Backs(t, x)
  }

  ghost predicate BackApart(a: seq<Seg>, b: seq<Seg>) {
    forall x :: !(Backs(a, x) && Backs(b, x))
  }

  predicate InSeg(c: Seg, x: int) {
    !c.IsFree() && c.phys <= x < c.phys + c.size
  }

  lemma OwnHead(a: seq<Seg>, b: seq<Seg>)
    requires a != [] && forall x :: Backs((a + b)[1..], x) <==> Backs(a[1..], x) || Backs(b, x)
    requires OwnMemory((a + b)[1..]) <==> OwnMemory(a[1..]) && OwnMemory(b) && BackApart(a[1..], b)
    ensures OwnMemory(a + b) <==> OwnMemory(a) && OwnMemory(b) && BackApart(a, b)
  {
    hide Whole;
    assert (a + b)[0] == a[0];
    assert OwnMemory(a + b) <==> HeadApart(a[0], (a + b)[1..]) && OwnMemory((a + b)[1..]);
    assert OwnMemory(a) <==> HeadApart(a[0], a[1..]) && OwnMemory(a[1..]);
    assert forall x :: Backs(a, x) <==> InSeg(a[0], x) || Backs(a[1..], x);
    hide OwnMemory;
    HeadSplit(a, a[0], a[1..], b, (a + b)[1..]);
  }

  lemma HeadSplit(a: seq<Seg>, c: Seg, u: seq<Seg>, b: seq<Seg>, t: seq<Seg>)
    requires forall x :: Backs(t, x) <==> Backs(u, x) || Backs(b, x)
    requires forall x :: Backs(a, x) <==> InSeg(c, x) || Backs(u, x)
    ensures HeadApart(c, t) && BackApart(u, b) <==> HeadApart(c, u) && BackApart(a, b)
  {
    hide Backs, Whole;
    if HeadApart(c, u) && BackApart(a, b) {
      forall x | InSeg(c, x) ensures !Backs(t, x) {
        assert Backs(a, x);
      }
      forall x | Backs(u, x) ensures !Backs(b, x) {
        assert Backs(a, x);
      }
    }
    if HeadApart(c, t) && BackApart(u, b) {
      forall x | Backs(b, x) ensures !Backs(a, x) {
        assert Backs(t, x);
      }
    }
  }

  // ----- Replacing the middle of the list -----

  lemma ReplaceTiles(h: seq<Seg>, m: seq<Seg>, t: seq<Seg>, from: int, a: int, e: int, to: int)
    requires STiles(h, from, a) && STiles(m, a, e) && STiles(t, e, to)
    ensures STiles(h + m + t, from, to) && from <= a <= e <= to
  {
    STilesLength(h, from, a);
    STilesLength(m, a, e);
    STilesLength(t, e, to);
    hide STiles;
    STilesAppend(h, m, from, a, e);
    STilesAppend(h + m, t, from, e, to);
  }

  lemma ReplaceSum(h: seq<Seg>, m: seq<Seg>, t: seq<Seg>)
    ensures Sum(h + m + t) == Sum(h) + Sum(m) + Sum(t)
  {
    SumAppend(h + m, t);
    SumAppend(h, m);
  }

  lemma ReplaceBacks(h: seq<Seg>, m: seq<Seg>, t: seq<Seg>, x: int)
    ensures Backs(h + m + t, x) <==> Backs(h, x) || Backs(m, x) || Backs(t, x)
  {
    BacksAppend(h + m, t, x);
    BacksAppend(h, m, x);
  }

  lemma ReplaceStatus(h: seq<Seg>, m: seq<Seg>, t: seq<Seg>, from: int, a: int, e: int, to: int, y: int)
    requires STiles(h, from, a) && STiles(m, a, e) && STiles(t, e, to) && from <= y
    ensures Status(h + m + t, y) == if y < a then Status(h, y) else if y < e then Status(m, y) else Status(t, y)
  {
    ReplaceTiles(h, m, t, from, a, e, to);
    STilesAppend(h, m, from, a, e);
    hide STiles, Status;
    StatusAppend(h + m, t, from, e, y);
    StatusAppend(h, m, from, a, y);
  }

  /** No free segment at either end of `m` meets a free neighbour. */
  predicate Fits(h: seq<Seg>, m: seq<Seg>, t: seq<Seg>) {
    m != [] && !Meets(h, m) && !Meets(m, t)
  }

  lemma ReplaceTouch(h: seq<Seg>, m: seq<Seg>, t: seq<Seg>)
    requires m != []
    ensures NoTouch(h + m + t) <==> NoTouch(h) && NoTouch(m) && NoTouch(t) && Fits(h, m, t)
  {
    NoTouchAppend(h + m, t);
    NoTouchAppend(h, m);
    hide NoTouch;
  }

  lemma ReplaceOwn(h: seq<Seg>, m: seq<Seg>, t: seq<Seg>)
    ensures OwnMemory(h + m + t) <==>
      OwnMemory(h) && OwnMemory(m) && OwnMemory(t) && BackApart(h, m) && BackApart(h, t) && BackApart(m, t)
  {
    hide OwnMemory, Backs;
    OwnAppend(h + m, t);
    OwnAppend(h, m);
    ApartUnion(h, m, t);
  }

  lemma ApartUnion(h: seq<Seg>, m: seq<Seg>, t: seq<Seg>)
    ensures BackApart(h + m, t) <==> BackApart(h, t) && BackApart(m, t)
  {
    hide Backs;
    if BackApart(h + m, t) {
      forall x ensures !(Backs(h, x) && Backs(t, x)) && !(Backs(m, x) && Backs(t, x)) {
        BacksAppend(h, m, x);
      }
    }
    if BackApart(h, t) && BackApart(m, t) {
      forall x ensures !(Backs(h + m, x) && Backs(t, x)) {
        BacksAppend(h, m, x);
      }
    }
  }

  /** The parts of a well-formed list around segment `i`. */
  lemma Parts(s: seq<Seg>, i: nat)
    requires SegsOk(s) && i < |s|
    ensures var (h, b, t) := (s[..i], s[i], s[i + 1..]);
      && s == h + [b] + t
      && STiles(h, PAGE_SIZE, b.addr) && STiles(t, b.End(), USERLIMIT)
      && b.size > 0 && Aligned(b.size) && Aligned(b.addr) && PAGE_SIZE <= b.addr && b.End() <= USERLIMIT
      && NoTouch(h) && NoTouch(t) && Fits(h, [b], t)
  {
    assert Aligned(PAGE_SIZE);
    STilesAt(s, PAGE_SIZE, USERLIMIT, i);
    hide STiles, NoTouch, Aligned;
    assert s == s[..i] + [s[i]] + s[i + 1..];
    ReplaceTouch(s[..i], [s[i]], s[i + 1..]);
  }

  // ----- Carving out of a free segment -----

  /** A free segment with [lo, lo + n) of it set apart. */
  function Carved(b: Seg, lo: int, n: int, n1: int, n2: int, flags: SegFlags, phys: int): seq<Seg> {
    (if lo == 0 then [] else [b.(size := lo)])
    + [Seg(if lo == 0 then b.node else n1, b.addr + lo, n, flags, phys)]
    + (if lo + n == b.size then [] else [Seg(n2, b.addr + lo + n, b.size - lo - n, Vacant, 0)])
  }

  predicate CarveOk(b: Seg, lo: int, n: int) {
    b.IsFree() && Aligned(b.size) && 0 <= lo && 0 < n && lo + n <= b.size && Aligned(lo) && Aligned(n)
  }

  lemma CarvedTiles(b: Seg, lo: int, n: int, n1: int, n2: int, flags: SegFlags, phys: int)
    requires CarveOk(b, lo, n)
    ensures STiles(Carved(b, lo, n, n1, n2, flags, phys), b.addr, b.End())
  {
    AlignedSum(lo, n);
    AlignedSum(b.size, lo + n);
    hide Aligned;
    var p := if lo == 0 then [] else [b.(size := lo)];
    var c := [Seg(if lo == 0 then b.node else n1, b.addr + lo, n, flags, phys)];
    var q := if lo + n == b.size then [] else [Seg(n2, b.addr + lo + n, b.size - lo - n, Vacant, 0)];
    ReplaceTiles(p, c, q, b.addr, b.addr + lo, b.addr + lo + n, b.End());
  }

  lemma CarvedIs(b: Seg, lo: int, n: int, n1: int, n2: int, flags: SegFlags, phys: int, y: int, x: int)
    requires CarveOk(b, lo, n) && flags != Vacant && b.addr <= y < b.End()
    ensures var m := Carved(b, lo, n, n1, n2, flags, phys);
      && NoTouch(m) && Sum(m) == n
      && Status(m, y) == (if b.addr + lo <= y < b.addr + lo + n then Some((flags, phys + (y - b.addr - lo))) else None)
      && (Backs(m, x) <==> phys <= x < phys + n)
      && (OwnMemory(m) <==> Whole(Blk(phys, n)))
  {
    hide Aligned, Whole;
    var p := if lo == 0 then [] else [b.(size := lo)];
    var c := [Seg(if lo == 0 then b.node else n1, b.addr + lo, n, flags, phys)];
    var q := if lo + n == b.size then [] else [Seg(n2, b.addr + lo + n, b.size - lo - n, Vacant, 0)];
    CarvedTiles(b, lo, n, n1, n2, flags, phys);
    assert STiles(c, b.addr + lo, b.addr + lo + n);
    FreeOnly(p);
    FreeOnly(q);
    OneSeg(c[0], y, x);
    ReplaceTouch(p, c, q);
    ReplaceSum(p, c, q);
    ReplaceBacks(p, c, q, x);
    ReplaceOwn(p, c, q);
    CarvedStatus(b, p, c, q, lo, n, y);
    hide Status, Backs, OwnMemory, Sum, NoTouch, STiles;
  }

  lemma FewTiles(s: seq<Seg>, from: int, to: int)
    requires |s| <= 1 && (s == [] ==> from == to)
    requires s != [] ==> s[0].addr == from && s[0].size > 0 && Aligned(s[0].size) && s[0].End() == to
    ensures STiles(s, from, to)
  {
    assert s != [] ==> s[1..] == [];
  }

  lemma CarvedStatus(b: Seg, p: seq<Seg>, c: seq<Seg>, q: seq<Seg>, lo: int, n: int, y: int)
    requires CarveOk(b, lo, n) && b.addr <= y < b.End()
    requires p == (if lo == 0 then [] else [b.(size := lo)])
    requires |c| == 1 && c[0].addr == b.addr + lo && c[0].size == n
    requires |q| == (if lo + n == b.size then 0 else 1)
    requires q != [] ==> q[0].addr == b.addr + lo + n && q[0].size == b.size - lo - n && q[0].IsFree()
    ensures Status(p + c + q, y) == if b.addr + lo <= y < b.addr + lo + n then Status(c, y) else None
  {
    AlignedSum(lo, n);
    AlignedSum(b.size, lo + n);
    FewTiles(p, b.addr, b.addr + lo);
    FewTiles(c, b.addr + lo, b.addr + lo + n);
    FewTiles(q, b.addr + lo + n, b.End());
    hide Aligned, STiles;
    ReplaceStatus(p, c, q, b.addr, b.addr + lo, b.addr + lo + n, b.End(), y);
  }

  lemma FreeOnly(p: seq<Seg>)
    requires |p| <= 1 && (p != [] ==> p[0].IsFree())
    ensures NoTouch(p) && Sum(p) == 0 && OwnMemory(p) && forall x :: !Backs(p, x)
  {
    assert p != [] ==> p[1..] == [];
  }

  lemma OneSeg(c: Seg, y: int, x: int)
    requires !c.IsFree()
    ensures NoTouch([c]) && Sum([c]) == c.size
    ensures Status([c], y) == if c.addr <= y < c.End() then Some((c.flags, c.phys + (y - c.addr))) else None
    ensures Backs([c], x) <==> c.phys <= x < c.phys + c.size
    ensures OwnMemory([c]) <==> Whole(Blk(c.phys, c.size))
  {
    hide Whole;
    assert [c][1..] == [];
    assert forall z :: !Backs([], z);
  }

  /** What the map says once the part set apart is in use with memory at `phys`. */
  ghost predicate Mapped(s: seq<Seg>, r: seq<Seg>, a: int, n: int, phys: int) {
    forall y :: PAGE_SIZE <= y < USERLIMIT ==>
      Status(r, y) == if a <= y < a + n then Some((ReadWrite, phys + (y - a))) else Status(s, y)
  }

  ghost predicate BacksAlso(s: seq<Seg>, r: seq<Seg>, a: int, n: int) {
    forall x :: Backs(r, x) <==> Backs(s, x) || a <= x < a + n
  }

  lemma CarvedEnds(h: seq<Seg>, b: Seg, t: seq<Seg>, lo: int, n: int, n1: int, n2: int, flags: SegFlags, phys: int)
    requires b.IsFree() && flags != Vacant && Fits(h, [b], t)
    ensures Fits(h, Carved(b, lo, n, n1, n2, flags, phys), t)
  {
  }

  /** Using a part of a free segment. */
  lemma CarvedOk(s: seq<Seg>, i: nat, lo: int, n: int, n1: int, n2: int, phys: int)
    requires SegsOk(s) && i < |s| && CarveOk(s[i], lo, n)
    ensures var r := s[..i] + Carved(s[i], lo, n, n1, n2, ReadWrite, phys) + s[i + 1..];
      && r != [] && SegsOk(r) && Sum(r) == Sum(s) + n
      && Mapped(s, r, s[i].addr + lo, n, phys) && BacksAlso(s, r, phys, n)
  {
    hide STiles, NoTouch, Sum, Status, Backs, Aligned, Carved;
    Parts(s, i);
    var (h, b, t) := (s[..i], s[i], s[i + 1..]);
    var m := Carved(b, lo, n, n1, n2, ReadWrite, phys);
    CarvedTiles(b, lo, n, n1, n2, ReadWrite, phys);
    CarvedEnds(h, b, t, lo, n, n1, n2, ReadWrite, phys);
    CarvedIs(b, lo, n, n1, n2, ReadWrite, phys, b.addr, 0);
    FreeOnly([b]);
    ReplaceTouch(h, m, t);
    ReplaceTiles(h, m, t, PAGE_SIZE, b.addr, b.End(), USERLIMIT);
    ReplaceSum(h, m, t);
    ReplaceSum(h, [b], t);
    forall y | PAGE_SIZE <= y < USERLIMIT
      ensures Status(h + m + t, y) ==
        if b.addr + lo <= y < b.addr + lo + n then Some((ReadWrite, phys + (y - (b.addr + lo)))) else Status(s, y)
    {
      StatusAround(h, b, t, m, y);
      if b.addr <= y < b.End() {
        CarvedIs(b, lo, n, n1, n2, ReadWrite, phys, y, 0);
      }
    }
    forall x ensures Backs(h + m + t, x) <==> Backs(s, x) || phys <= x < phys + n {
      ReplaceBacks(h, m, t, x);
      ReplaceBacks(h, [b], t, x);
      CarvedIs(b, lo, n, n1, n2, ReadWrite, phys, b.addr, x);
    }
  }

  lemma StatusAround(h: seq<Seg>, b: Seg, t: seq<Seg>, m: seq<Seg>, y: int)
    requires STiles(h, PAGE_SIZE, b.addr) && STiles(m, b.addr, b.End()) && STiles(t, b.End(), USERLIMIT)
    requires b.IsFree() && b.size > 0 && Aligned(b.size) && PAGE_SIZE <= y
    ensures Status(h + m + t, y) == if b.addr <= y < b.End() then Status(m, y) else Status(h + [b] + t, y)
    ensures b.addr <= y < b.End() ==> Status(h + [b] + t, y) == None
  {
    OneTile(b);
    hide STiles, Status, Aligned;
    ReplaceStatus(h, m, t, PAGE_SIZE, b.addr, b.End(), USERLIMIT, y);
    ReplaceStatus(h, [b], t, PAGE_SIZE, b.addr, b.End(), USERLIMIT, y);
    FreeStatus(b, y);
  }

  lemma OneTile(b: Seg)
    requires b.size > 0 && Aligned(b.size)
    ensures STiles([b], b.addr, b.End())
  {
    assert [b][1..] == [];
  }

  lemma FreeStatus(b: Seg, y: int)
    requires b.IsFree()
    ensures Status([b], y) == None
  {
    assert [b][1..] == [];
  }

  /** The memory taken for a part that comes into use. */
  lemma CarvedOwn(s: seq<Seg>, i: nat, lo: int, n: int, n1: int, n2: int, phys: int)
    requires SegsOk(s) && i < |s| && CarveOk(s[i], lo, n) && Whole(Blk(phys, n)) && OwnMemory(s)
    requires forall x :: phys <= x < phys + n ==> !Backs(s, x)
    ensures OwnMemory(s[..i] + Carved(s[i], lo, n, n1, n2, ReadWrite, phys) + s[i + 1..])
  {
    hide STiles, NoTouch, Sum, Status, Backs, Aligned, Carved, Whole, OwnMemory;
    Parts(s, i);
    var (h, b, t) := (s[..i], s[i], s[i + 1..]);
    var m := Carved(b, lo, n, n1, n2, ReadWrite, phys);
    CarvedIs(b, lo, n, n1, n2, ReadWrite, phys, b.addr, 0);
    ReplaceOwn(h, [b], t);
    ReplaceOwn(h, m, t);
    forall x | Backs(m, x) ensures !Backs(h, x) && !Backs(t, x) {
      CarvedIs(b, lo, n, n1, n2, ReadWrite, phys, b.addr, x);
      ReplaceBacks(h, [b], t, x);
    }
  }
}
