/** The memory under an address space: records from the heap, pages from the
    page allocator, and when the page allocator is back where it was. */
module VmMem {
  import opened Lists
  import opened Page
  import opened PageRuns
  import opened Kmem
  import opened KmemSteps
  import opened KmemRuns
  import opened Vm

  /** The allocated blocks of `r` are those of `k` without `del` and with `add`. */
  ghost predicate Lives(k: KState, r: KState, add: set<int>, del: set<int>) {
    forall a :: Live(r, a) <==> (Live(k, a) && a !in del) || a in add
  }

  ghost predicate SameMemory(k: KState, r: KState) {
    forall x :: Managed(r, x) <==> Managed(k, x)
  }

  lemma NodeAllocOk(l0: seq<Blk>, k: KState)
    requires Within(l0, k)
    ensures var (r, res) := NodeAlloc(k);
      && Within(l0, r) && SameMemory(k, r)
      && (res.Ptr? ==> Lives(k, r, {res.ptr - BLKHDR_SIZE}, {}) && !Live(k, res.ptr - BLKHDR_SIZE))
      && (!res.Ptr? ==> r == k)
  {
    hide KInv, Managed, PInv, Live, Exhausted, KmemAlloc, Free, Headed;
    KmemAllocOk(k, SEG_SIZE);
    KAllocWithin(l0, k, SEG_SIZE);
    var (r, res) := KmemAlloc(k, SEG_SIZE);
    if res.Ptr? {
      HandedLives(k, r, res.ptr - BLKHDR_SIZE, SEG_SIZE);
    }
  }

  lemma HandedLives(k: KState, r: KState, a: int, n: int)
    requires HandedOut(k, r, a, n)
    ensures Lives(k, r, {a}, {})
  {
    hide HasBlock, OnList, BlockAt;
  }

  lemma NodeFreeOk(l0: seq<Blk>, k: KState, node: int)
    requires Within(l0, k) && Live(k, node - BLKHDR_SIZE)
    ensures var r := NodeFree(k, node);
      Within(l0, r) && SameMemory(k, r) && Lives(k, r, {}, {node - BLKHDR_SIZE})
  {
    var a := node - BLKHDR_SIZE;
    LiveHas(k, a);
    hide KInv, Managed, PInv, Live, Last, KmemFree, Free, HasBlock;
    KmemFreeOk(k, node);
    KFreeWithin(l0, k, node);
    FreedLives(k, KmemFree(k, node), a);
  }

  lemma FreedLives(k: KState, r: KState, a: int)
    requires LiveBut(k.pages, k.free, r, a) && !Live(r, a)
    ensures Lives(k, r, {}, {a})
  {
    hide HasBlock, OnList, BlockAt;
  }

  // ----- Pages -----

  /** Memory that neither allocator holds, in whole pages. */
  ghost predicate Outside(l0: seq<Blk>, k: KState, a: int, n: int) {
    && Whole(Blk(a, n)) && a > 0
    && forall x :: a <= x < a + n ==> Free(l0, x) && !Managed(k, x)
  }

  lemma SwapPages(k: KState, p: PState)
    requires KInv(k) && Backed(p, k.pages)
    ensures KInv(k.(p := p)) && forall a :: Live(k.(p := p), a) <==> Live(k, a)
  {
    hide Pages, Classes, Backed, HasBlock, OnList, BlockAt;
  }

  /** Taking pages from the page allocator beside the heap. */
  lemma PagesTaken(l0: seq<Blk>, k: KState, n: int)
    requires Within(l0, k) && 0 < n <= WORD - PAGE_SIZE && Aligned(n)
    requires exists b :: AllFree(k.p.free, b, n)
    ensures var (p, pa) := PageAlloc(k.p, n);
      var r := k.(p := p);
      && pa > 0 && Within(l0, r) && Lives(k, r, {}, {}) && Outside(l0, r, pa, n)
      && (forall x :: Managed(r, x) <==> Managed(k, x) && !(pa <= x < pa + n))
      && (forall x :: pa <= x < pa + n ==> Managed(k, x))
      && PageFree(p, pa, n) == k.p
  {
    var (p, pa) := PageAlloc(k.p, n);
    WholeRound(n);
    KInvParts(k);
    PUsed(l0, k.p);
    hide KInv, PInv, PageAlloc, PageFree, Free, Canon, RoundPage, Managed;
    PageAllocMeans(k.p, n);
    AllocThenFree(k.p, n);
    PAllocOk(l0, k.p, n);
    NotPageZero(k.p, pa, n);
    TakenBacked(k, p, pa, n);
    SwapPages(k, p);
    TakenManaged(k, p, pa, n);
  }

  lemma NotPageZero(p: PState, a: int, n: int)
    requires !Free(p.free, 0) && AllFree(p.free, a, n) && Whole(Blk(a, n))
    ensures a > 0
  {
    hide Free;
    assert a == 0 ==> Free(p.free, a);
  }

  lemma PUsed(l0: seq<Blk>, p: PState)
    requires PInv(l0, p)
    ensures 0 <= p.used < WORD && Canon(p.free)
  {
    hide Canon, Free, Total;
  }

  lemma WholeRound(n: int)
    requires Aligned(n) && 0 < n <= WORD - PAGE_SIZE
    ensures RoundPage(n) == n
  {
  }

  lemma TakenBacked(k: KState, p: PState, pa: int, n: int)
    requires KInv(k) && Canon(p.free)
    requires forall x :: Free(p.free, x) <==> Free(k.p.free, x) && !(pa <= x < pa + n)
    ensures Backed(p, k.pages)
  {
    hide Pages, Classes, Canon, Free;
    forall pg | pg in k.pages ensures NoneFree(p.free, pg, PAGE_SIZE) {
      assert NoneFree(k.p.free, pg, PAGE_SIZE);
    }
  }

  /** Free memory is in no kernel page. */
  lemma FreeApart(k: KState, x: int)
    requires KInv(k) && Free(k.p.free, x)
    ensures PageTop(x) !in k.pages
  {
    hide Pages, Classes, Free, Canon;
    TopRange(x);
    assert PageTop(x) in k.pages ==> NoneFree(k.p.free, PageTop(x), PAGE_SIZE);
  }

  lemma TopRange(x: int)
    ensures PageTop(x) <= x < PageTop(x) + PAGE_SIZE
  {
  }

  lemma TakenManaged(k: KState, p: PState, pa: int, n: int)
    requires KInv(k) && AllFree(k.p.free, pa, n)
    requires forall x :: Free(p.free, x) <==> Free(k.p.free, x) && !(pa <= x < pa + n)
    ensures forall x :: Managed(k.(p := p), x) <==> Managed(k, x) && !(pa <= x < pa + n)
    ensures forall x :: pa <= x < pa + n ==> Managed(k, x)
  {
    hide KInv, Free, PageTop;
    forall x | pa <= x < pa + n ensures PageTop(x) !in k.pages {
      FreeApart(k, x);
    }
  }

  /** Giving pages back. */
  lemma PagesGiven(l0: seq<Blk>, k: KState, a: int, n: int)
    requires Within(l0, k) && Outside(l0, k, a, n)
    ensures var r := k.(p := PageFree(k.p, a, n));
      && Within(l0, r) && Lives(k, r, {}, {})
      && (forall x :: Managed(r, x) <==> Managed(k, x) || a <= x < a + n)
  {
    GivenFree(l0, k, a, n);
    WholeLimits(a, n);
    WholeRound(n);
    var p := PageFree(k.p, a, n);
    hide KInv, PInv, Free, Canon, RoundPage, Managed, PageFree, Whole;
    PFreeOk(l0, k.p, a, n);
    PUsed(l0, p);
    SwapPages(k, p);
  }

  lemma WholeLimits(a: int, n: int)
    requires Whole(Blk(a, n))
    ensures Aligned(n) && 0 < n <= WORD - PAGE_SIZE
  {
  }

  lemma GivenFree(l0: seq<Blk>, k: KState, a: int, n: int)
    requires Within(l0, k) && Outside(l0, k, a, n)
    ensures InUse(l0, k.p.free, a, RoundPage(n))
    ensures var p := PageFree(k.p, a, n);
      && (forall x :: Free(p.free, x) <==> Free(k.p.free, x) || a <= x < a + n)
      && Backed(p, k.pages)
      && (forall x :: Managed(k.(p := p), x) <==> Managed(k, x) || a <= x < a + n)
  {
    WholeLimits(a, n);
    WholeRound(n);
    KInvParts(k);
    hide PInv, RoundPage, Canon, Free, Pages, Classes, PageTop, FreeBlock, Whole;
    assert NoneFree(k.p.free, a, n);
    FreeBlockOk(k.p.free, Blk(a, n));
    var p := PageFree(k.p, a, n);
    forall pg | pg in k.pages ensures NoneFree(p.free, pg, PAGE_SIZE) {
      assert NoneFree(k.p.free, pg, PAGE_SIZE);
      forall x | pg <= x < pg + PAGE_SIZE ensures !Free(p.free, x) {
        InKernelPage(k, pg, x);
        assert Managed(k, x);
      }
    }
  }

  lemma InKernelPage(k: KState, pg: int, x: int)
    requires Pages(k.pages, k.free, 0, 0) && pg in k.pages && pg <= x < pg + PAGE_SIZE
    ensures PageTop(x) == pg
  {
    hide Tiles, Used;
    assert PageOk(pg, k.pages[pg], k.free, 0);
  }

  // ----- When the page allocator is back where it was -----

  lemma ManagedParts(k: KState, x: int)
    requires KInv(k)
    ensures Free(k.p.free, x) <==> Managed(k, x) && PageTop(x) !in k.pages
  {
    hide KInv, Free, PageTop;
    if Free(k.p.free, x) {
      FreeApart(k, x);
    }
  }

  /** The kernel pages are those with an allocated block. */
  lemma SamePages(k: KState, r: KState)
    requires KInv(k) && KInv(r) && Lives(k, r, {}, {})
    ensures k.pages.Keys == r.pages.Keys
  {
    hide KInv, Live, PageTop;
    forall pg | pg in k.pages ensures pg in r.pages {
      var a := BusyLive(k, pg);
      LiveHas(r, a);
      HasTop(r.pages, a);
    }
    forall pg | pg in r.pages ensures pg in k.pages {
      var a := BusyLive(r, pg);
      LiveHas(k, a);
      HasTop(k.pages, a);
    }
  }

  /** With the same blocks allocated and the same memory shared out, the page
      allocator is in the same state, however the heap is arranged. */
  lemma SamePageList(l0: seq<Blk>, k: KState, r: KState)
    requires Within(l0, k) && Within(l0, r) && Lives(k, r, {}, {}) && SameMemory(k, r)
    ensures r.p == k.p
  {
    SamePages(k, r);
    hide KInv, Free, PageTop, Managed, Canon, Total;
    forall x ensures Free(k.p.free, x) <==> Free(r.p.free, x) {
      ManagedParts(k, x);
      ManagedParts(r, x);
    }
    Unique(k.p.free, r.p.free);
  }

  lemma LivesTrans(a: KState, b: KState, c: KState, add: set<int>, del: set<int>, add': set<int>, del': set<int>)
    requires Lives(a, b, add, del) && Lives(b, c, add', del')
    ensures Lives(a, c, (add - del') + add', del + del')
  {
    hide Live;
  }

  lemma SameTrans(a: KState, b: KState, c: KState)
    requires SameMemory(a, b) && SameMemory(b, c)
    ensures SameMemory(a, c)
  {
    hide Managed;
  }

  /** An added block has been freed again. */
  lemma LivesUndo(a: KState, b: KState, c: KState, add: set<int>, x: int)
    requires Lives(a, b, add, {}) && Lives(b, c, {}, {x}) && !Live(a, x)
    ensures Lives(a, c, add - {x}, {})
  {
    hide Live;
  }

  lemma LivesHas(a: KState, b: KState, add: set<int>, x: int)
    requires Lives(a, b, add, {}) && x in add
    ensures Live(b, x)
  {
    hide Live;
  }
}
