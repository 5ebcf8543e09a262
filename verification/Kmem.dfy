/** The kernel heap of sys/mem/kmem.c on the 32-bit layout: pages are cut into
    blocks, free blocks are listed by size class, and a page is returned when
    its last block is freed. */
module Kmem {
  import opened Lists
  import opened Page

  const BLKHDR_SIZE: int := 16
  const NR_BLOCK_LIST: int := 256
  const MAX_ALLOC_SIZE: int := 4076
  const MIN_BLOCK_SIZE: int := 32
  const MAX_BLOCK_SIZE: int := 4092

  /** The first block starts with the last member of the page header. */
  const FIRST_BLK: int := 4

  type FreeLists = f: seq<seq<int>> | |f| == 256 witness seq(256, _ => [])

  /** A kernel page: its allocation count and its blocks along pg_next. */
  datatype KPage = KPage(nallocs: int, blks: seq<Blk>)

  datatype KState = KState(p: PState, pages: map<int, KPage>, free: FreeLists)

  datatype KResult = Panic | Null | Ptr(ptr: int)

  /** BLKNDX; the type of a size class keeps the index in range. */
  function Ndx(size: int): int { size / 16 }

  /** Headers included, rounded up to 16 bytes; requests within 31 bytes of the
      top of the address space, for which the sum wraps, are not modelled. */
  function AllocSize(n: int): int { (n + BLKHDR_SIZE + 15) / 16 * 16 }

  function PageTop(a: int): int { TruncPage(a) }

  // ----- Specification functions -----

  /** block_find: the first non-empty list from class `i` on. */
  function FindClass(f: FreeLists, i: nat): (r: nat)
    requires i <= NR_BLOCK_LIST
    ensures i <= r <= NR_BLOCK_LIST && (r < NR_BLOCK_LIST ==> f[r] != [])
    ensures forall j :: i <= j < r ==> f[j] == []
    decreases NR_BLOCK_LIST - i
  {
    if i == NR_BLOCK_LIST || f[i] != [] then i else FindClass(f, i + 1)
  }

  /** Where a block of the page is in its chain. */
  function IndexOf(blks: seq<Blk>, a: int): (i: nat)
    ensures i <= |blks| && (i < |blks| ==> blks[i].addr == a)
    ensures forall j :: 0 <= j < i ==> blks[j].addr != a
  {
    if blks == [] || blks[0].addr == a then 0 else 1 + IndexOf(blks[1..], a)
  }

  function Push(f: FreeLists, i: int, a: int): FreeLists {
    if 0 <= i < NR_BLOCK_LIST then f[i := [a] + f[i]] else f
  }

  function Unlist(f: FreeLists, i: int, a: int): FreeLists {
    if 0 <= i < NR_BLOCK_LIST then f[i := Remove(f[i], a)] else f
  }

  /** A block that leaves at least MIN_BLOCK_SIZE is split; the rest is free. */
  function SplitBlock(k: KState, pg: int, i: nat, size: int): KState
    requires pg in k.pages && i < |k.pages[pg].blks|
  {
    var blks := k.pages[pg].blks;
    var b := blks[i];
    if b.size - size >= MIN_BLOCK_SIZE then
      var rest := Blk(b.addr + size, b.size - size);
      k.(pages := k.pages[pg := k.pages[pg].(blks := blks[..i] + [Blk(b.addr, size), rest] + blks[i + 1..])],
         free := Push(k.free, Ndx(rest.size), rest.addr))
    else k
  }

  function CountUp(k: KState, pg: int): KState
    requires pg in k.pages
  {
    k.(pages := k.pages[pg := k.pages[pg].(nallocs := k.pages[pg].nallocs + 1)])
  }

  /** Block `a` of page `pg` is handed out, cut to `size`. */
  function Grant(k: KState, pg: int, a: int, size: int): KState
    requires pg in k.pages && IndexOf(k.pages[pg].blks, a) < |k.pages[pg].blks|
  {
    var k1 := SplitBlock(k, pg, IndexOf(k.pages[pg].blks, a), size);
    CountUp(k1, pg)
  }

  /** A page fresh from page_alloc: one block. */
  function NewPage(k: KState, pg: int, p: PState): KState {
    k.(p := p, pages := k.pages[pg := KPage(0, [Blk(pg + FIRST_BLK, MAX_BLOCK_SIZE)])])
  }

  function KmemAlloc(k: KState, n: int): (KState, KResult)
    requires 0 < n <= WORD - 32 && Headed(k.free, k.pages)
  {
    var size := AllocSize(n);
    if size > MAX_ALLOC_SIZE then (k, Panic)
    else
      var c := FindClass(k.free, Ndx(size));
      if c < NR_BLOCK_LIST then
        var a := k.free[c][0];
        (Grant(k.(free := k.free[c := k.free[c][1..]]), PageTop(a), a, size), Ptr(a + BLKHDR_SIZE))
      else
        var (p, pa) := PageAlloc(k.p, PAGE_SIZE);
        if pa == 0 then (k.(p := p), Null)
        else (Grant(NewPage(k, pa, p), pa, pa + FIRST_BLK, size), Ptr(pa + FIRST_BLK + BLKHDR_SIZE))
  }

  /** The first block of each list is a block of a kernel page. */
  predicate Headed(f: FreeLists, pages: map<int, KPage>) {
    forall c :: 0 <= c < NR_BLOCK_LIST && f[c] != [] ==> Listed(pages, f[c][0], c)
  }

  /** `a` is the address of a block of class `c` of a kernel page. */
  predicate Listed(pages: map<int, KPage>, a: int, c: int) {
    && PageTop(a) in pages
    && var blks := pages[PageTop(a)].blks;
       var i := IndexOf(blks, a);
       i < |blks| && Ndx(blks[i].size) == c
  }

  /** All blocks of a page leave the free lists. */
  function UnlistAll(f: FreeLists, blks: seq<Blk>): FreeLists
    decreases |blks|
  {
    if blks == [] then f else UnlistAll(Unlist(f, Ndx(blks[0].size), blks[0].addr), blks[1..])
  }

  /** kmem_free of the block with header at `a`. */
  function KmemFree(k: KState, ptr: int): KState
    requires HasBlock(k.pages, ptr - BLKHDR_SIZE)
  {
    var a := ptr - BLKHDR_SIZE;
    var pg := PageTop(a);
    var b := BlockAt(k.pages, a);
    var f := Push(k.free, Ndx(b.size), a);
    var n := k.pages[pg].nallocs - 1;
    if n == 0 then
      KState(PageFree(k.p, pg, PAGE_SIZE), k.pages - {pg}, UnlistAll(f, k.pages[pg].blks))
    else k.(free := f, pages := k.pages[pg := k.pages[pg].(nallocs := n)])
  }

  predicate HasBlock(pages: map<int, KPage>, a: int) {
    PageTop(a) in pages && IndexOf(pages[PageTop(a)].blks, a) < |pages[PageTop(a)].blks|
  }

  function BlockAt(pages: map<int, KPage>, a: int): Blk
    requires HasBlock(pages, a)
  {
    pages[PageTop(a)].blks[IndexOf(pages[PageTop(a)].blks, a)]
  }

  // ----- The invariant -----

  /** The blocks fill [from, to), one after the other. */
  predicate Tiles(blks: seq<Blk>, from: int, to: int) {
    if blks == [] then from == to
    else blks[0].addr == from && blks[0].size >= MIN_BLOCK_SIZE && Tiles(blks[1..], blks[0].End(), to)
  }

  predicate OnList(f: FreeLists, b: Blk) {
    0 <= Ndx(b.size) < NR_BLOCK_LIST && b.addr in f[Ndx(b.size)]
  }

  /** How many blocks are not on their free list. */
  function Used(blks: seq<Blk>, f: FreeLists): nat {
    if blks == [] then 0 else (if OnList(f, blks[0]) then 0 else 1) + Used(blks[1..], f)
  }

  /** The chain tiles the page after its header, and the count is right but for `d`. */
  predicate PageOk(pg: int, page: KPage, f: FreeLists, d: int) {
    && 0 < pg && Aligned(pg) && pg + PAGE_SIZE < WORD
    && Tiles(page.blks, pg + FIRST_BLK, pg + PAGE_SIZE)
    && page.nallocs + d == Used(page.blks, f)
  }

  /** All pages are in order; the count of `hot` is off by `d`. */
  ghost predicate Pages(pages: map<int, KPage>, f: FreeLists, hot: int, d: int) {
    forall pg :: pg in pages ==> PageOk(pg, pages[pg], f, if pg == hot then d else 0)
  }

  /** No list holds a block twice, and each holds blocks of its class only. */
  ghost predicate Classes(f: FreeLists, pages: map<int, KPage>) {
    && (forall c :: 0 <= c < NR_BLOCK_LIST ==> NoDup(f[c]))
    && (forall c, a :: 0 <= c < NR_BLOCK_LIST && a in f[c] ==> Listed(pages, a, c))
  }

  /** The page allocator does not hold the pages of the heap, nor page 0. */
  ghost predicate Backed(p: PState, pages: map<int, KPage>) {
    && Canon(p.free) && !Free(p.free, 0)
    && (forall pg :: pg in pages ==> NoneFree(p.free, pg, PAGE_SIZE))
  }

  /** Every kernel page has an allocated block. */
  ghost predicate Busy(pages: map<int, KPage>) {
    forall pg :: pg in pages ==> pages[pg].nallocs > 0
  }

  ghost predicate KInv(k: KState) {
    && Pages(k.pages, k.free, 0, 0)
    && Classes(k.free, k.pages)
    && Backed(k.p, k.pages)
    && Busy(k.pages)
  }

  /** The block with header at `a` is allocated. */
  predicate Live(k: KState, a: int) { Allotted(k.pages, k.free, a) }

  predicate Allotted(pages: map<int, KPage>, f: FreeLists, a: int) {
    HasBlock(pages, a) && !OnList(f, BlockAt(pages, a))
  }

  /** The byte belongs to the heap or to the page allocator. */
  predicate Managed(k: KState, x: int) { Free(k.p.free, x) || PageTop(x) in k.pages }

  // ----- Chains -----

  lemma {:induction false} TileBounds(blks: seq<Blk>, from: int, to: int, i: nat)
    requires Tiles(blks, from, to) && i < |blks|
    ensures from <= blks[i].addr && blks[i].size >= MIN_BLOCK_SIZE && blks[i].End() <= to
    ensures i == 0 ==> blks[i].addr == from
    ensures from + MIN_BLOCK_SIZE * i <= blks[i].addr
    decreases |blks|
  {
    if i > 0 {
      TileBounds(blks[1..], blks[0].End(), to, i - 1);
    } else {
      TileEnd(blks[1..], blks[0].End(), to);
    }
  }

  lemma {:induction false} TileEnd(blks: seq<Blk>, from: int, to: int)
    requires Tiles(blks, from, to)
    ensures from <= to
    decreases |blks|
  {
    if blks != [] {
      TileEnd(blks[1..], blks[0].End(), to);
    }
  }

  lemma {:induction false} TileOrder(blks: seq<Blk>, from: int, to: int, i: nat, j: nat)
    requires Tiles(blks, from, to) && i < j < |blks|
    ensures blks[i].End() <= blks[j].addr && blks[i].addr < blks[j].addr
    decreases |blks|
  {
    if i > 0 {
      TileOrder(blks[1..], blks[0].End(), to, i - 1, j - 1);
    } else {
      TileBounds(blks[1..], blks[0].End(), to, j - 1);
    }
  }

  lemma {:induction false} TileAppend(a: seq<Blk>, b: seq<Blk>, from: int, mid: int, to: int)
    requires Tiles(a, from, mid)
    ensures Tiles(a + b, from, to) <==> Tiles(b, mid, to)
    decreases |a|
  {
    if a == [] {
      assert a + b == b;
    } else {
      assert (a + b)[1..] == a[1..] + b;
      TileAppend(a[1..], b, a[0].End(), mid, to);
    }
  }

  /** The chain before and after block `i`. */
  lemma {:induction false} TileAround(blks: seq<Blk>, from: int, to: int, i: nat)
    requires Tiles(blks, from, to) && i < |blks|
    ensures blks == blks[..i] + ([blks[i]] + blks[i + 1..])
    ensures Tiles(blks[..i], from, blks[i].addr) && Tiles(blks[i + 1..], blks[i].End(), to)
    decreases |blks|
  {
    assert blks == blks[..i] + ([blks[i]] + blks[i + 1..]);
    if i > 0 {
      var t := blks[1..];
      TileAround(t, blks[0].End(), to, i - 1);
      assert blks[..i][1..] == t[..i - 1] && blks[i + 1..] == t[i..];
    }
  }

  /** A block is found by its address. */
  lemma FoundAt(blks: seq<Blk>, from: int, to: int, i: nat)
    requires Tiles(blks, from, to) && i < |blks|
    ensures IndexOf(blks, blks[i].addr) == i
  {
    var j := IndexOf(blks, blks[i].addr);
    if j < i {
      TileOrder(blks, from, to, j, i);
    }
  }

  lemma {:induction false} UsedAppend(a: seq<Blk>, b: seq<Blk>, f: FreeLists)
    ensures Used(a + b, f) == Used(a, f) + Used(b, f)
    decreases |a|
  {
    hide OnList;
    if a == [] {
      assert a + b == b;
    } else {
      assert (a + b)[1..] == a[1..] + b;
      UsedAppend(a[1..], b, f);
    }
  }

  /** The count depends only on which blocks of the page are listed. */
  lemma {:induction false} UsedFrame(blks: seq<Blk>, f: FreeLists, g: FreeLists)
    requires forall i :: 0 <= i < |blks| ==> (OnList(f, blks[i]) <==> OnList(g, blks[i]))
    ensures Used(blks, f) == Used(blks, g)
    decreases |blks|
  {
    hide OnList;
    if blks != [] {
      forall i | 0 <= i < |blks[1..]| ensures OnList(f, blks[1..][i]) <==> OnList(g, blks[1..][i]) {
        assert blks[1..][i] == blks[i + 1];
      }
      UsedFrame(blks[1..], f, g);
    }
  }

  /** A page without allocated blocks has all its blocks listed. */
  lemma {:induction false} UsedNone(blks: seq<Blk>, f: FreeLists, i: nat)
    requires Used(blks, f) == 0 && i < |blks|
    ensures OnList(f, blks[i])
    decreases |blks|
  {
    hide OnList;
    if i > 0 {
      UsedNone(blks[1..], f, i - 1);
    }
  }

  lemma {:induction false} UsedSome(blks: seq<Blk>, f: FreeLists) returns (i: nat)
    requires Used(blks, f) > 0
    ensures i < |blks| && !OnList(f, blks[i])
    decreases |blks|
  {
    hide OnList;
    if OnList(f, blks[0]) {
      var j := UsedSome(blks[1..], f);
      i := j + 1;
    } else {
      i := 0;
    }
  }
}
