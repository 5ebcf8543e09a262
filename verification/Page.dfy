/** The physical page allocator of sys/mem/page.c: a free list of blocks of
    whole pages, in address order, that never touch. Addresses are physical;
    ptokv and kvtop only shift them. */
module Page {
  import opened Lists

  const PAGE_SIZE: int := 4096
  const PAGE_MASK: int := 4095

  /** psize_t and vaddr_t have 32 bits. */
  const WORD: int := 0x1_0000_0000

  /** Unsigned arithmetic. */
  function Wrap(x: int): int { x % WORD }

  function RoundPage(x: int): int { (x + PAGE_MASK) % WORD / PAGE_SIZE * PAGE_SIZE }

  predicate Aligned(x: int) { x % PAGE_SIZE == 0 }

  function TruncPage(x: int): int { x / PAGE_SIZE * PAGE_SIZE }

  /** struct page, kept at the start of each free block. */
  datatype Blk = Blk(addr: int, size: int) {
    function End(): int { addr + size }
  }

  predicate Holds(b: Blk, x: int) { b.addr <= x < b.End() }

  /** The byte at `x` is in a free block. */
  predicate Free(l: seq<Blk>, x: int) {
    l != [] && (Holds(l[0], x) || Free(l[1..], x))
  }

  ghost predicate AllFree(l: seq<Blk>, a: int, n: int) {
    forall x :: a <= x < a + n ==> Free(l, x)
  }

  ghost predicate NoneFree(l: seq<Blk>, a: int, n: int) {
    forall x :: a <= x < a + n ==> !Free(l, x)
  }

  predicate Whole(b: Blk) {
    b.addr >= 0 && b.size > 0 && Aligned(b.addr) && Aligned(b.size) && b.End() < WORD
  }

  /** Whole pages in address order with a gap between any two blocks. */
  predicate Canon(l: seq<Blk>) {
    l != [] ==> Whole(l[0]) && (|l| > 1 ==> l[0].End() < l[1].addr) && Canon(l[1..])
  }

  function Total(l: seq<Blk>): int {
    if l == [] then 0 else l[0].size + Total(l[1..])
  }

  // ----- Concatenation -----

  predicate Apart(a: seq<Blk>, b: seq<Blk>) {
    a != [] && b != [] ==> a[|a| - 1].End() < b[0].addr
  }

  lemma {:induction false} CanonAppend(a: seq<Blk>, b: seq<Blk>)
    ensures Canon(a + b) <==> Canon(a) && Canon(b) && Apart(a, b)
    decreases |a|
  {
    hide Whole;
    if a == [] {
      assert a + b == b;
    } else {
      assert (a + b)[1..] == a[1..] + b;
      CanonAppend(a[1..], b);
    }
  }

  lemma {:induction false} FreeAppend(a: seq<Blk>, b: seq<Blk>, x: int)
    ensures Free(a + b, x) <==> Free(a, x) || Free(b, x)
    decreases |a|
  {
    if a == [] {
      assert a + b == b;
    } else {
      assert (a + b)[1..] == a[1..] + b;
      FreeAppend(a[1..], b, x);
    }
  }

  /** All bytes of a canonical list lie between its first and its last block. */
  lemma {:induction false} FreeWithin(l: seq<Blk>, x: int)
    requires Canon(l) && Free(l, x)
    ensures l[0].addr <= x < l[|l| - 1].End()
    decreases |l|
  {
    hide Aligned;
    if !Holds(l[0], x) {
      FreeWithin(l[1..], x);
    } else if |l| > 1 {
      LastAfter(l);
    }
  }

  lemma {:induction false} LastAfter(l: seq<Blk>)
    requires Canon(l) && l != []
    ensures l[0].End() <= l[|l| - 1].End() && Whole(l[|l| - 1])
    decreases |l|
  {
    hide Aligned;
    if |l| > 1 {
      LastAfter(l[1..]);
    }
  }

  lemma {:induction false} Ordered(l: seq<Blk>, i: nat, j: nat)
    requires Canon(l) && i < j < |l|
    ensures l[i].addr < l[i].End() < l[j].addr
    decreases |l|
  {
    hide Aligned;
    if i > 0 {
      Ordered(l[1..], i - 1, j - 1);
    } else if j > 1 {
      Ordered(l[1..], 0, j - 1);
    }
  }

  /** The list around block `i`. */
  lemma {:induction false} SplitAt(l: seq<Blk>, i: nat)
    requires Canon(l) && i < |l|
    ensures l == l[..i] + [l[i]] + l[i + 1..]
    ensures Canon(l[..i]) && Canon(l[i + 1..]) && Whole(l[i])
    ensures Apart(l[..i], [l[i]]) && Apart([l[i]], l[i + 1..])
    decreases |l|
  {
    hide Whole;
    assert l == l[..i] + [l[i]] + l[i + 1..];
    if i > 0 {
      var t := l[1..];
      SplitAt(t, i - 1);
      assert l[..i][1..] == t[..i - 1] && l[i + 1..] == t[i..];
    }
  }

  lemma FreeSplit(h: seq<Blk>, m: seq<Blk>, t: seq<Blk>, x: int)
    ensures Free(h + m + t, x) <==> Free(h, x) || Free(m, x) || Free(t, x)
  {
    FreeAppend(h + m, t, x);
    FreeAppend(h, m, x);
  }

  lemma FreeOne(b: Blk, x: int)
    ensures Free([b], x) <==> Holds(b, x)
  {
  }

  lemma BlockRun(l: seq<Blk>, i: nat, a: int, n: int)
    requires Canon(l) && i < |l| && l[i].addr <= a && a + n <= l[i].End()
    ensures AllFree(l, a, n)
  {
    SplitAt(l, i);
    hide Canon, Whole, Apart, Free;
    forall x | a <= x < a + n ensures Free(l, x) {
      FreeSplit(l[..i], [l[i]], l[i + 1..], x);
      FreeOne(l[i], x);
    }
  }

  // ----- The list is a function of the set of free pages -----

  /** The first block ends where the first run of free bytes ends. */
  lemma FirstBlock(l: seq<Blk>)
    requires Canon(l) && l != []
    ensures forall x :: Free(l, x) ==> x >= l[0].addr
    ensures !Free(l, l[0].End())
    ensures AllFree(l, l[0].addr, l[0].size)
  {
    hide Aligned;
    forall x | Free(l, x) ensures x >= l[0].addr {
      FreeWithin(l, x);
    }
    if Free(l[1..], l[0].End()) {
      FreeWithin(l[1..], l[0].End());
    }
  }

  /** A run of free bytes lies inside one block. */
  lemma {:induction false} RunInBlock(l: seq<Blk>, a: int, n: int) returns (i: nat)
    requires Canon(l) && n > 0 && AllFree(l, a, n)
    ensures i < |l| && l[i].addr <= a && a + n <= l[i].End()
    decreases |l|
  {
    hide Aligned;
    assert Free(l, a);
    FirstBlock(l);
    if Holds(l[0], a) {
      i := 0;
    } else {
      TailFree(l);
      FreeWithin(l[1..], a);
      var j := RunInBlock(l[1..], a, n);
      i := j + 1;
    }
  }

  /** Two canonical lists with the same free bytes are the same list. */
  lemma {:induction false} Unique(l: seq<Blk>, k: seq<Blk>)
    requires Canon(l) && Canon(k) && forall x :: Free(l, x) <==> Free(k, x)
    ensures l == k
    decreases |l|
  {
    if l == [] {
      NoFree(k);
    } else {
      FirstBlock(l);
      SameHead(l, k);
      TailFree(l);
      TailFree(k);
      hide Free, AllFree, Aligned;
      Unique(l[1..], k[1..]);
      assert l == [l[0]] + l[1..] && k == [k[0]] + k[1..];
    }
  }

  lemma NoFree(k: seq<Blk>)
    requires Canon(k) && forall x :: !Free(k, x)
    ensures k == []
  {
    assert k != [] ==> Free(k, k[0].addr);
  }

  lemma SameHead(l: seq<Blk>, k: seq<Blk>)
    requires Canon(l) && Canon(k) && l != [] && forall x :: Free(l, x) <==> Free(k, x)
    ensures k != [] && l[0] == k[0]
  {
    var a := l[0].addr;
    assert Free(l, a) && Free(k, a);
    FirstBlock(l);
    FirstBlock(k);
    hide Aligned, Canon;
    var b, d, e := k[0].addr, l[0].End(), k[0].End();
    assert Holds(k[0], b) && Free(k, b);
    assert b <= d < e ==> Free(k, d);
    assert a <= e < d ==> Free(l, e);
  }

  /** The bytes after the first block are those of the rest. */
  lemma TailFree(l: seq<Blk>)
    requires Canon(l) && l != []
    ensures Canon(l[1..]) && forall x :: Free(l[1..], x) <==> Free(l, x) && !Holds(l[0], x)
  {
    forall x | Free(l[1..], x) ensures !Holds(l[0], x) {
      FreeWithin(l[1..], x);
    }
  }

  // ----- Total size -----

  lemma {:induction false} TotalAppend(a: seq<Blk>, b: seq<Blk>)
    ensures Total(a + b) == Total(a) + Total(b)
    decreases |a|
  {
    if a == [] {
      assert a + b == b;
    } else {
      assert (a + b)[1..] == a[1..] + b;
      TotalAppend(a[1..], b);
    }
  }

  /** Replacing one block by a short list. */
  lemma TotalSplice(l: seq<Blk>, i: nat, m: seq<Blk>)
    requires i < |l|
    ensures Total(l[..i] + m + l[i + 1..]) == Total(l) - l[i].size + Total(m)
  {
    assert l == l[..i] + ([l[i]] + l[i + 1..]);
    TotalAppend(l[..i], [l[i]] + l[i + 1..]);
    TotalAppend([l[i]], l[i + 1..]);
    assert l[..i] + m + l[i + 1..] == l[..i] + (m + l[i + 1..]);
    TotalAppend(l[..i], m + l[i + 1..]);
    TotalAppend(m, l[i + 1..]);
  }

  lemma {:induction false} TotalBound(l: seq<Blk>)
    requires Canon(l)
    ensures 0 <= Total(l) && (l != [] ==> Total(l) <= l[|l| - 1].End() - l[0].addr)
    decreases |l|
  {
    if l != [] {
      hide Aligned;
      TotalBound(l[1..]);
    }
  }

  // ----- page_alloc -----

  /** First fit: the first block of at least `n` bytes, or the length of the list. */
  function Fit(l: seq<Blk>, n: int): (i: nat)
    ensures i <= |l| && (i < |l| ==> l[i].size >= n)
    ensures forall j :: 0 <= j < i ==> l[j].size < n
  {
    if l == [] || l[0].size >= n then 0 else 1 + Fit(l[1..], n)
  }

  /** The first half of block `i` is used for the allocation. */
  function TakeFront(l: seq<Blk>, i: nat, n: int): seq<Blk>
    requires i < |l|
  {
    var b := l[i];
    var rest := if b.size == n then [] else [Blk(b.addr + n, b.size - n)];
    l[..i] + rest + l[i + 1..]
  }

  datatype PState = PState(free: seq<Blk>, used: int)

  /** The result 0 stands for failure. */
  function PageAlloc(p: PState, psize: int): (PState, int) {
    var n := RoundPage(psize);
    var i := Fit(p.free, n);
    if i == |p.free| then (p, 0)
    else (PState(TakeFront(p.free, i, n), Wrap(p.used + n)), p.free[i].addr)
  }

  /** One block is replaced by what is left of it at either end. */
  function Leftovers(b: Blk, s: int, e: int): seq<Blk> {
    (if b.addr == s then [] else [Blk(b.addr, s - b.addr)]) + (if b.End() == e then [] else [Blk(e, b.End() - e)])
  }

  lemma CutBlock(l: seq<Blk>, i: nat, s: int, e: int)
    requires Canon(l) && i < |l| && l[i].addr <= s < e <= l[i].End() && Aligned(s) && Aligned(e)
    ensures var r := l[..i] + Leftovers(l[i], s, e) + l[i + 1..];
      && Canon(r) && Total(r) == Total(l) - (e - s)
      && forall x :: Free(r, x) <==> Free(l, x) && !(s <= x < e)
  {
    var m := Leftovers(l[i], s, e);
    TotalSplice(l, i, m);
    CutTotal(l[i], s, e);
    CutCanon(l, i, s, e);
    hide Canon, Free, Total, Leftovers, Aligned;
    forall x ensures Free(l[..i] + m + l[i + 1..], x) <==> Free(l, x) && !(s <= x < e) {
      CutFree(l, i, s, e, x);
    }
  }

  lemma CutTotal(b: Blk, s: int, e: int)
    ensures Total(Leftovers(b, s, e)) == b.size - (e - s)
  {
    var f := if b.addr == s then [] else [Blk(b.addr, s - b.addr)];
    var g := if b.End() == e then [] else [Blk(e, b.End() - e)];
    TotalAppend(f, g);
  }

  lemma LeftCanon(b: Blk, s: int, e: int)
    requires Whole(b) && b.addr <= s < e <= b.End() && Aligned(s) && Aligned(e)
    ensures var m := Leftovers(b, s, e);
      Canon(m) && (m != [] ==> b.addr <= m[0].addr && m[|m| - 1].End() <= b.End())
  {
    AlignedSum(b.addr, b.size);
    AlignedSum(s, b.addr);
    AlignedSum(b.End(), e);
    hide Aligned;
    var f := if b.addr == s then [] else [Blk(b.addr, s - b.addr)];
    var g := if b.End() == e then [] else [Blk(e, b.End() - e)];
    CanonAppend(f, g);
  }

  lemma CutCanon(l: seq<Blk>, i: nat, s: int, e: int)
    requires Canon(l) && i < |l| && l[i].addr <= s < e <= l[i].End() && Aligned(s) && Aligned(e)
    ensures Canon(l[..i] + Leftovers(l[i], s, e) + l[i + 1..])
  {
    var m := Leftovers(l[i], s, e);
    SplitAt(l, i);
    LeftCanon(l[i], s, e);
    CanonAppend(l[..i], [l[i]]);
    CanonAppend([l[i]], l[i + 1..]);
    BothSides(l, i);
    hide Canon, Leftovers, Aligned, Whole;
    CanonAppend(l[..i], m);
    CanonAppend(l[..i] + m, l[i + 1..]);
  }

  /** The blocks on either side of block `i` do not touch. */
  lemma BothSides(l: seq<Blk>, i: nat)
    requires Canon(l) && i < |l|
    ensures Apart(l[..i], l[i + 1..])
  {
    SplitAt(l, i);
  }

  lemma CutFree(l: seq<Blk>, i: nat, s: int, e: int, x: int)
    requires Canon(l) && i < |l| && l[i].addr <= s < e <= l[i].End()
    ensures Free(l[..i] + Leftovers(l[i], s, e) + l[i + 1..], x) <==> Free(l, x) && !(s <= x < e)
  {
    SplitAt(l, i);
    var m := Leftovers(l[i], s, e);
    FreeSplit(l[..i], m, l[i + 1..], x);
    FreeSplit(l[..i], [l[i]], l[i + 1..], x);
    FreeOne(l[i], x);
    LeftFree(l[i], s, e, x);
    if Free(l[..i], x) {
      FreeWithin(l[..i], x);
    }
    if Free(l[i + 1..], x) {
      FreeWithin(l[i + 1..], x);
    }
    hide Canon, Free, Leftovers, Aligned;
  }

  lemma LeftFree(b: Blk, s: int, e: int, x: int)
    requires b.addr <= s < e <= b.End()
    ensures Free(Leftovers(b, s, e), x) <==> Holds(b, x) && !(s <= x < e)
  {
    var f := if b.addr == s then [] else [Blk(b.addr, s - b.addr)];
    var g := if b.End() == e then [] else [Blk(e, b.End() - e)];
    FreeAppend(f, g, x);
  }

  lemma FrontIsCut(l: seq<Blk>, i: nat, n: int)
    requires i < |l|
    ensures TakeFront(l, i, n) == l[..i] + Leftovers(l[i], l[i].addr, l[i].addr + n) + l[i + 1..]
  {
    var b := l[i];
    assert Leftovers(b, b.addr, b.addr + n) == if b.size == n then [] else [Blk(b.addr + n, b.size - n)];
  }

  /** RoundPage loses its carry only at the very top of the address space. */
  lemma RoundPageFacts(x: int)
    requires 0 <= x < WORD
    ensures Aligned(RoundPage(x)) && 0 <= RoundPage(x) <= WORD - PAGE_SIZE
    ensures x <= RoundPage(x) < x + PAGE_SIZE <==> x <= WORD - PAGE_SIZE
    ensures x > WORD - PAGE_SIZE ==> RoundPage(x) == 0
    ensures 0 < x <= WORD - PAGE_SIZE ==> RoundPage(x) > 0
  {
  }

  /** First fit finds the lowest run, if there is one. */
  lemma FitMeans(l: seq<Blk>, n: int)
    requires Canon(l) && n > 0
    ensures var i := Fit(l, n);
      && (i == |l| <==> forall b :: !AllFree(l, b, n))
      && (i < |l| ==> AllFree(l, l[i].addr, n) && forall b :: AllFree(l, b, n) ==> l[i].addr <= b)
  {
    var i := Fit(l, n);
    forall b | AllFree(l, b, n) ensures i < |l| && l[i].addr <= b {
      var j := RunInBlock(l, b, n);
      if i < j {
        Ordered(l, i, j);
      }
    }
    if i < |l| {
      BlockRun(l, i, l[i].addr, n);
    }
  }

  lemma TakeFrontOk(l: seq<Blk>, i: nat, n: int)
    requires Canon(l) && i < |l| && 0 < n <= l[i].size && Aligned(n)
    ensures var (a, r) := (l[i].addr, TakeFront(l, i, n));
      && Canon(r) && Total(r) == Total(l) - n && Whole(Blk(a, n))
      && forall x :: Free(r, x) <==> Free(l, x) && !(a <= x < a + n)
  {
    hide Canon, Free, Total, TakeFront, Leftovers, Aligned;
    WholeAt(l, i);
    AlignedSum(l[i].addr, n);
    FrontIsCut(l, i, n);
    CutBlock(l, i, l[i].addr, l[i].addr + n);
  }

  lemma WholeAt(l: seq<Blk>, i: nat)
    requires Canon(l) && i < |l|
    ensures Whole(l[i])
  {
    SplitAt(l, i);
    hide Canon, Whole;
  }

  lemma AlignedSum(a: int, b: int)
    requires Aligned(a) && Aligned(b)
    ensures Aligned(a + b) && Aligned(a - b)
  {
  }

  /** page_alloc fails only if no run of free bytes of the rounded size exists;
      otherwise it takes the lowest one, and nothing else. The caller reads a result
      of 0 as failure; the pages are gone all the same exactly when the run at
      address 0 is free, because that is then the lowest. */
  lemma PageAllocMeans(p: PState, psize: int)
    requires Canon(p.free) && 0 < psize <= WORD - PAGE_SIZE
    ensures var (r, a) := PageAlloc(p, psize);
      var n := RoundPage(psize);
      && Aligned(n) && psize <= n < psize + PAGE_SIZE
      && Canon(r.free)
      && ((forall b :: !AllFree(p.free, b, n)) ==> r == p && a == 0)
      && ((exists b :: AllFree(p.free, b, n)) ==>
            && AllFree(p.free, a, n) && (forall b :: AllFree(p.free, b, n) ==> a <= b)
            && (forall x :: Free(r.free, x) <==> Free(p.free, x) && !(a <= x < a + n))
            && Whole(Blk(a, n))
            && Total(r.free) == Total(p.free) - n && r.used == Wrap(p.used + n))
      && (a == 0 && r != p <==> AllFree(p.free, 0, n))
  {
    var n := RoundPage(psize);
    var i := Fit(p.free, n);
    RoundPageFacts(psize);
    FitMeans(p.free, n);
    if i < |p.free| {
      TakeFrontOk(p.free, i, n);
    }
    hide RoundPage, Canon, Free, AllFree, Total, TakeFront, Fit, Wrap;
  }

  /** A request within a page of the top of the address space is rounded to
      nothing: it succeeds without allocating. */
  lemma PageAllocTooBig(p: PState, psize: int)
    requires Canon(p.free) && WORD - PAGE_SIZE < psize < WORD && p.free != [] && 0 <= p.used < WORD
    ensures PageAlloc(p, psize) == (p, p.free[0].addr)
  {
    RoundPageFacts(psize);
    assert Whole(p.free[0]);
    hide RoundPage, Canon;
    assert TakeFront(p.free, 0, 0) == p.free;
  }

  // ----- page_free -----

  /** How many blocks lie before address `a`. */
  function Before(l: seq<Blk>, a: int): (i: nat)
    ensures i <= |l| && (i < |l| ==> l[i].addr >= a)
    ensures forall j :: 0 <= j < i ==> l[j].addr < a
  {
    if l == [] || l[0].addr >= a then 0 else 1 + Before(l[1..], a)
  }

  function InsertAt(l: seq<Blk>, i: nat, b: Blk): seq<Blk>
    requires i <= |l|
  {
    l[..i] + [b] + l[i..]
  }

  /** A block and the rest of the list after it, joined if they touch. */
  function Glue(b: Blk, t: seq<Blk>): seq<Blk> {
    if t != [] && b.End() == t[0].addr then [Blk(b.addr, b.size + t[0].size)] + t[1..] else [b] + t
  }

  /** Block `i` and the next become one if they touch. */
  function JoinAt(l: seq<Blk>, i: int): seq<Blk> {
    if 0 <= i < |l| then l[..i] + Glue(l[i], l[i + 1..]) else l
  }

  function FreeBlock(l: seq<Blk>, b: Blk): seq<Blk> {
    var i := Before(l, b.addr);
    JoinAt(JoinAt(InsertAt(l, i, b), i), i - 1)
  }

  function PageFree(p: PState, paddr: int, psize: int): PState {
    var n := RoundPage(psize);
    PState(FreeBlock(p.free, Blk(paddr, n)), Wrap(p.used - n))
  }

  /** The blocks before `a` end by then, and those after start at its end. */
  lemma Around(l: seq<Blk>, b: Blk)
    requires Canon(l) && Whole(b) && NoneFree(l, b.addr, b.size)
    ensures var i := Before(l, b.addr);
      && l == l[..i] + l[i..] && Canon(l[..i]) && Canon(l[i..]) && Apart(l[..i], l[i..])
      && (i > 0 ==> l[i - 1].End() <= b.addr) && (i < |l| ==> b.End() <= l[i].addr)
  {
    var i := Before(l, b.addr);
    assert l == l[..i] + l[i..];
    CanonAppend(l[..i], l[i..]);
    hide Canon, Aligned, Before;
    if i > 0 {
      NotInside(l, i - 1, b);
    }
    if i < |l| {
      NotInside(l, i, b);
    }
  }

  lemma NotInside(l: seq<Blk>, i: nat, b: Blk)
    requires Canon(l) && Whole(b) && NoneFree(l, b.addr, b.size) && i < |l|
    ensures l[i].End() <= b.addr || b.End() <= l[i].addr
  {
    SplitAt(l, i);
    BlockRun(l, i, l[i].addr, l[i].size);
    hide Canon, Aligned, Free;
    var x, y := l[i].addr, b.addr;
    assert b.addr <= x < b.End() ==> Free(l, x);
    assert Holds(l[i], y) ==> Free(l, y);
  }

  lemma GlueOk(b: Blk, t: seq<Blk>)
    requires Whole(b) && Canon(t) && (t != [] ==> b.End() <= t[0].addr)
    ensures Canon(Glue(b, t)) && Total(Glue(b, t)) == b.size + Total(t)
    ensures forall x :: Free(Glue(b, t), x) <==> Holds(b, x) || Free(t, x)
    ensures Glue(b, t)[0].addr == b.addr
  {
    if t != [] {
      AlignedSum(b.size, t[0].size);
    }
    assert ([b] + t)[1..] == t;
    hide Aligned;
    if t != [] && b.End() == t[0].addr {
      var c := Blk(b.addr, b.size + t[0].size);
      assert ([c] + t[1..])[1..] == t[1..];
    }
  }

  lemma GlueLast(h: seq<Blk>, u: seq<Blk>)
    requires Canon(h) && Canon(u) && u != [] && (h != [] ==> h[|h| - 1].End() <= u[0].addr)
    ensures var r := JoinAt(h + u, |h| - 1);
      Canon(r) && Total(r) == Total(h) + Total(u) && forall x :: Free(r, x) <==> Free(h, x) || Free(u, x)
  {
    if h == [] {
      assert h + u == u;
    } else {
      var n := |h| - 1;
      var b := h[n];
      SplitAt(h, n);
      assert h[n + 1..] == [] && h == h[..n] + [b];
      GlueOk(b, u);
      JoinIsGlue(h, u);
      TotalAppend(h[..n], Glue(b, u));
      TotalAppend(h[..n], [b]);
      CanonAppend(h[..n], Glue(b, u));
      assert Total([b]) == b.size;
      hide Canon, Free, Total, Glue, JoinAt, Whole;
      forall x ensures Free(h[..n] + Glue(b, u), x) <==> Free(h, x) || Free(u, x) {
        FreeAppend(h[..n], Glue(b, u), x);
        FreeAppend(h[..n], [b], x);
        FreeOne(b, x);
      }
    }
  }

  lemma JoinIsGlue(h: seq<Blk>, u: seq<Blk>)
    requires h != []
    ensures JoinAt(h + u, |h| - 1) == h[..|h| - 1] + Glue(h[|h| - 1], u)
  {
    hide Glue;
    var n := |h| - 1;
    var l := h + u;
    assert l[..n] == h[..n] && l[n + 1..] == u;
  }

  /** Freeing a block that is not free keeps the list canonical and adds
      exactly its bytes. */
  lemma FreeBlockOk(l: seq<Blk>, b: Blk)
    requires Canon(l) && Whole(b) && NoneFree(l, b.addr, b.size)
    ensures Canon(FreeBlock(l, b)) && Total(FreeBlock(l, b)) == Total(l) + b.size
    ensures forall x :: Free(FreeBlock(l, b), x) <==> Free(l, x) || Holds(b, x)
  {
    var i: int := Before(l, b.addr);
    var (h, t) := (l[..i], l[i..]);
    Around(l, b);
    hide Canon, Free, NoneFree, Total, Before, Whole, FreeBlock, Glue, JoinAt;
    GlueOk(b, t);
    FreeBlockIs(l, i, b);
    GlueStarts(b, t);
    GlueLast(h, Glue(b, t));
    TotalAppend(h, t);
    forall x ensures Free(FreeBlock(l, b), x) <==> Free(l, x) || Holds(b, x) {
      FreeAppend(h, t, x);
    }
  }

  lemma GlueStarts(b: Blk, t: seq<Blk>)
    ensures Glue(b, t) != []
  {
  }

  lemma FreeBlockIs(l: seq<Blk>, i: int, b: Blk)
    requires i == Before(l, b.addr)
    ensures FreeBlock(l, b) == JoinAt(l[..i] + Glue(b, l[i..]), i - 1)
  {
    hide Before, Glue;
    var l1 := InsertAt(l, i, b);
    assert l1[..i] == l[..i] && l1[i + 1..] == l[i..];
  }

  /** Freeing what was just allocated restores the list and the counter. */
  lemma AllocThenFree(p: PState, psize: int)
    requires Canon(p.free) && 0 < psize <= WORD - PAGE_SIZE && 0 <= p.used < WORD
    requires exists b :: AllFree(p.free, b, RoundPage(psize))
    ensures var (r, a) := PageAlloc(p, psize); PageFree(r, a, psize) == p
  {
    hide RoundPage, Canon, Free, Total, FreeBlock, AllFree, TakeFront, Whole, Wrap, PageAlloc, Fit;
    var n := RoundPage(psize);
    RoundPageFacts(psize);
    var b :| AllFree(p.free, b, n);
    FitMeans(p.free, n);
    var i := Fit(p.free, n);
    AllocIs(p, psize);
    FitRestored(p.free, i, n);
    UsedBack(p.used, n);
    FreeIs(PState(TakeFront(p.free, i, n), Wrap(p.used + n)), p.free[i].addr, psize);
    hide PageFree;
  }

  lemma FreeIs(p: PState, a: int, psize: int)
    ensures var n := RoundPage(psize); PageFree(p, a, psize) == PState(FreeBlock(p.free, Blk(a, n)), Wrap(p.used - n))
  {
  }

  lemma AllocIs(p: PState, psize: int)
    requires Fit(p.free, RoundPage(psize)) < |p.free|
    ensures var n := RoundPage(psize);
      var i := Fit(p.free, n);
      PageAlloc(p, psize) == (PState(TakeFront(p.free, i, n), Wrap(p.used + n)), p.free[i].addr)
  {
    hide Fit, TakeFront, RoundPage, Wrap;
  }

  lemma FitRestored(l: seq<Blk>, i: nat, n: int)
    requires Canon(l) && i < |l| && 0 < n <= l[i].size && Aligned(n)
    ensures FreeBlock(TakeFront(l, i, n), Blk(l[i].addr, n)) == l
  {
    hide Canon, Free, Total, FreeBlock, TakeFront, Whole;
    TakeFrontOk(l, i, n);
    BlockRun(l, i, l[i].addr, n);
    RestoreBlock(l, TakeFront(l, i, n), l[i].addr, n);
  }

  lemma UsedBack(u: int, n: int)
    requires 0 <= u < WORD
    ensures Wrap(Wrap(u + n) - n) == u
  {
  }

  lemma RestoreBlock(l: seq<Blk>, k: seq<Blk>, a: int, n: int)
    requires Canon(l) && Canon(k) && Whole(Blk(a, n)) && AllFree(l, a, n)
    requires forall x :: Free(k, x) <==> Free(l, x) && !(a <= x < a + n)
    ensures FreeBlock(k, Blk(a, n)) == l
  {
    hide Canon, Free, FreeBlock, Total, Whole;
    FreeBlockOk(k, Blk(a, n));
    Unique(FreeBlock(k, Blk(a, n)), l);
  }

  // ----- page_reserve -----

  /** The block that includes [s, e), or the length of the list. */
  function Including(l: seq<Blk>, s: int, e: int): (i: nat)
    ensures i <= |l| && (i < |l| ==> l[i].addr <= s && e <= l[i].End())
    ensures forall j :: 0 <= j < i ==> !(l[j].addr <= s && e <= l[j].End())
  {
    if l == [] || (l[0].addr <= s && e <= l[0].End()) then 0 else 1 + Including(l[1..], s, e)
  }

  function PageReserve(p: PState, paddr: int, psize: int): (PState, bool) {
    var s, e := TruncPage(paddr), RoundPage(paddr + psize);
    var i := Including(p.free, s, e);
    if psize == 0 then (p, true)
    else if i == |p.free| then (p, false)
    else (PState(p.free[..i] + Leftovers(p.free[i], s, e) + p.free[i + 1..], Wrap(p.used + (e - s))), true)
  }

  lemma TruncFacts(x: int)
    requires 0 <= x
    ensures Aligned(TruncPage(x)) && 0 <= TruncPage(x) <= x < TruncPage(x) + PAGE_SIZE
  {
  }

  /** page_reserve succeeds exactly when all the pages are free, and then takes
      exactly those. */
  lemma PageReserveMeans(p: PState, paddr: int, psize: int)
    requires Canon(p.free) && 0 <= paddr && 0 < psize && paddr + psize <= WORD - PAGE_SIZE
    ensures var (r, ok) := PageReserve(p, paddr, psize);
      var s, e := TruncPage(paddr), RoundPage(paddr + psize);
      && s <= paddr && paddr + psize <= e && e - s < psize + 2 * PAGE_SIZE
      && Canon(r.free)
      && (ok <==> AllFree(p.free, s, e - s))
      && (!ok ==> r == p)
      && (ok ==>
            && (forall x :: Free(r.free, x) <==> Free(p.free, x) && !(s <= x < e))
            && Total(r.free) == Total(p.free) - (e - s) && r.used == Wrap(p.used + (e - s)))
  {
    var s, e := TruncPage(paddr), RoundPage(paddr + psize);
    RoundPageFacts(paddr + psize);
    TruncFacts(paddr);
    hide RoundPage, TruncPage, Leftovers, Wrap, Aligned;
    var i := Including(p.free, s, e);
    if AllFree(p.free, s, e - s) {
      var j := RunInBlock(p.free, s, e - s);
    }
    if i < |p.free| {
      BlockRun(p.free, i, s, e - s);
      CutBlock(p.free, i, s, e);
    }
  }
}
