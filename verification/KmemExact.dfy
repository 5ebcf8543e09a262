/** What kmem_alloc computes, said of sizes and blocks alone: how much a request
    takes, which block serves it, what becomes of the rest, and when nothing does. */
module KmemExact {
  import opened Lists
  import opened Page
  import opened PageRuns
  import opened Kmem
  import opened KmemSteps
  import opened KmemRuns

  /** The least multiple of 16 that holds `n` bytes behind a header of 16. */
  predicate Takes(n: int, need: int) {
    need % 16 == 0 && n + 16 <= need < n + 32
  }

  lemma TakesIs(n: int, need: int)
    requires 0 < n && Takes(n, need)
    ensures AllocSize(n) == need && Ndx(need) == need / 16 && 32 <= need
  {
  }

  /** A block of the heap that is not allocated. */
  predicate Spare(k: KState, x: int) {
    HasBlock(k.pages, x) && !Live(k, x)
  }

  /** Of the block at `a`, `had` bytes long, `need` are handed out if the rest is worth
      a block, which is then spare; else all are. No other block changed. */
  ghost predicate Parted(pages: map<int, KPage>, r: KState, a: int, had: int, need: int) {
    && HasBlock(r.pages, a) && BlockAt(r.pages, a) == Blk(a, if had - need >= 32 then need else had)
    && (had - need >= 32 ==>
          !HasBlock(pages, a + need) && Spare(r, a + need) && BlockAt(r.pages, a + need) == Blk(a + need, had - need))
    && (forall x :: x != a && !(x == a + need && had - need >= 32) ==>
          && (HasBlock(r.pages, x) <==> HasBlock(pages, x))
          && (HasBlock(pages, x) ==> BlockAt(r.pages, x) == BlockAt(pages, x)))
  }

  lemma CountUpSame(k: KState, pg: int)
    requires pg in k.pages
    ensures var r := CountUp(k, pg);
      && r.free == k.free
      && forall x :: (HasBlock(r.pages, x) <==> HasBlock(k.pages, x))
           && (HasBlock(k.pages, x) ==> BlockAt(r.pages, x) == BlockAt(k.pages, x))
  {
    hide PageTop, IndexOf;
  }

  lemma CutParted(k: KState, a: int, need: int)
    requires SplitReady(k.pages, k.free, a, need)
    ensures var r := SplitBlock(k, PageTop(a), IndexOf(k.pages[PageTop(a)].blks, a), need);
      Parted(k.pages, r, a, BlockAt(k.pages, a).size, need)
  {
    SplitIsCut(k, a, need);
    CutBlocks(k.pages, k.free, a, need, a);
    BlockFacts(k.pages, k.free, PageTop(a), 1, a);
    NdxRange(BlockAt(k.pages, a).size - need);
    PushLists(k.free, Ndx(BlockAt(k.pages, a).size - need), a + need);
    var r := SplitBlock(k, PageTop(a), IndexOf(k.pages[PageTop(a)].blks, a), need);
    assert OnList(r.free, BlockAt(r.pages, a + need));
    hide SplitReady, HasBlock, BlockAt, OnList, CutPage, PageTop, IndexOf, Ndx, Push, SplitBlock;
    forall x | x != a && x != a + need
      ensures (HasBlock(r.pages, x) <==> HasBlock(k.pages, x))
        && (HasBlock(k.pages, x) ==> BlockAt(r.pages, x) == BlockAt(k.pages, x))
    {
      CutBlocks(k.pages, k.free, a, need, x);
    }
  }

  lemma GrantParted(k: KState, a: int, need: int)
    requires HasBlock(k.pages, a) && Pages(k.pages, k.free, PageTop(a), 1) && Classes(k.free, k.pages)
    requires !OnList(k.free, BlockAt(k.pages, a)) && MIN_BLOCK_SIZE <= need <= BlockAt(k.pages, a).size
    ensures Parted(k.pages, Grant(k, PageTop(a), a, need), a, BlockAt(k.pages, a).size, need)
  {
    AddrAt(k.pages, a);
    var pg := PageTop(a);
    var k1 := SplitBlock(k, pg, IndexOf(k.pages[pg].blks, a), need);
    if BlockAt(k.pages, a).size - need >= MIN_BLOCK_SIZE {
      CutParted(k, a, need);
    } else {
      assert k1 == k;
    }
    GrantIs(k, pg, a, need);
    CountUpSame(k1, pg);
    hide SplitBlock, OnList, Pages, Classes, PageTop, Ndx, IndexOf, HasBlock, BlockAt, Grant, CountUp;
  }

  // ----- Which block -----

  /** A spare block is on the list of its class. */
  lemma SpareListed(k: KState, x: int)
    requires KInv(k) && Spare(k, x)
    ensures 0 <= BlockAt(k.pages, x).size / 16 < NR_BLOCK_LIST && x in k.free[BlockAt(k.pages, x).size / 16]
  {
    AddrAt(k.pages, x);
    hide IndexOf, PageTop, Pages, Classes;
  }

  lemma HeadSpare(k: KState, c: int)
    requires KInv(k) && 0 <= c < NR_BLOCK_LIST && k.free[c] != []
    ensures var a := k.free[c][0]; Spare(k, a) && BlockAt(k.pages, a).size / 16 == c
  {
    TakeFirst(k.pages, k.free, c);
    hide IndexOf, PageTop, Pages, Classes;
  }

  /** Nothing spare is large enough. */
  ghost predicate NoneFits(k: KState, need: int) {
    forall x :: Spare(k, x) ==> BlockAt(k.pages, x).size < need
  }

  lemma ClassSearch(k: KState, need: int)
    requires KInv(k) && need % 16 == 0 && 0 <= need / 16 < NR_BLOCK_LIST
    ensures var c := FindClass(k.free, need / 16);
      && (c == NR_BLOCK_LIST <==> NoneFits(k, need))
      && (c < NR_BLOCK_LIST ==>
            var a := k.free[c][0];
            && Spare(k, a) && BlockAt(k.pages, a).size >= need
            && forall x :: Spare(k, x) && BlockAt(k.pages, x).size >= need ==>
                 BlockAt(k.pages, a).size / 16 <= BlockAt(k.pages, x).size / 16)
  {
    hide KInv, Live, BlockAt, HasBlock;
    var c := FindClass(k.free, need / 16);
    if c < NR_BLOCK_LIST {
      HeadSpare(k, c);
    }
    forall x | Spare(k, x) && BlockAt(k.pages, x).size >= need ensures c <= BlockAt(k.pages, x).size / 16 < NR_BLOCK_LIST {
      SpareListed(k, x);
    }
  }

  // ----- kmem_alloc -----

  /** The block at `a` of the smallest class that fits, or one cut from a new page if no
      spare block fits. */
  ghost predicate Served(k: KState, r: KState, a: int, need: int) {
    if HasBlock(k.pages, a) then
      && Spare(k, a) && BlockAt(k.pages, a).size >= need
      && (forall x :: Spare(k, x) && BlockAt(k.pages, x).size >= need ==>
            BlockAt(k.pages, a).size / 16 <= BlockAt(k.pages, x).size / 16)
      && Parted(k.pages, r, a, BlockAt(k.pages, a).size, need) && r.p == k.p
    else
      && NoneFits(k, need) && AllFree(k.p.free, a - 4, PAGE_SIZE) && (r.p, a - 4) == PageAlloc(k.p, PAGE_SIZE)
      && Parted(k.pages, r, a, 4092, need)
  }

  lemma ListServes(k: KState, n: int, need: int, c: int)
    requires KInv(k) && 0 < n <= 4048 && Takes(n, need) && Headed(k.free, k.pages)
    requires 0 <= need / 16 < NR_BLOCK_LIST && c == FindClass(k.free, need / 16) < NR_BLOCK_LIST
    ensures var (r, res) := KmemAlloc(k, n); res.Ptr? && Served(k, r, res.ptr - 16, need)
  {
    TakesIs(n, need);
    ClassSearch(k, need);
    var (a, g) := (k.free[c][0], k.free[c := k.free[c][1..]]);
    TakeFirst(k.pages, k.free, c);
    hide KInv, Pages, Classes, OnList, PageTop, Ndx, SameBut, FindClass, IndexOf, Spare, AllocSize, Parted, HasBlock, BlockAt,
      Grant, Headed;
    GrantParted(k.(free := g), a, need);
  }

  /** A page fresh from page_alloc, before a block is cut from it. */
  lemma FreshPage(k: KState)
    requires KInv(k) && exists b :: AllFree(k.p.free, b, PAGE_SIZE)
    ensures var (p, pa) := PageAlloc(k.p, PAGE_SIZE);
      var (m, a) := (NewPage(k, pa, p), pa + FIRST_BLK);
      && pa > 0 && AllFree(k.p.free, pa, PAGE_SIZE) && PageTop(a) == pa && !HasBlock(k.pages, a)
      && HasBlock(m.pages, a) && Pages(m.pages, m.free, pa, 1) && Classes(m.free, m.pages)
      && !OnList(m.free, BlockAt(m.pages, a)) && BlockAt(m.pages, a).size == MAX_BLOCK_SIZE
      && (forall x :: x != a ==> (HasBlock(m.pages, x) <==> HasBlock(k.pages, x)))
      && (forall x :: HasBlock(k.pages, x) ==> BlockAt(m.pages, x) == BlockAt(k.pages, x))
  {
    KInvParts(k);
    OnePage();
    PageAllocMeans(k.p, PAGE_SIZE);
    var (p, pa) := PageAlloc(k.p, PAGE_SIZE);
    PageNotZero(k.p, pa);
    hide KInv, Pages, Classes, OnList, Ndx, IndexOf, PageAlloc, RoundPage, Canon, Free, AllFree, NewPage, HasBlock, BlockAt, PageTop;
    NewPageOk(k, pa, p);
  }

  lemma PageServes(k: KState, n: int, need: int)
    requires KInv(k) && 0 < n <= 4048 && Takes(n, need) && Headed(k.free, k.pages)
    requires 0 <= need / 16 < NR_BLOCK_LIST && FindClass(k.free, need / 16) == NR_BLOCK_LIST
    requires exists b :: AllFree(k.p.free, b, PAGE_SIZE)
    ensures var (r, res) := KmemAlloc(k, n); res.Ptr? && Served(k, r, res.ptr - 16, need)
  {
    hide KInv, Pages, Classes, OnList, Ndx, SameBut, FindClass, IndexOf, Spare, AllocSize, Parted, PageAlloc, RoundPage,
      Canon, Free, Whole, AllFree, NewPage, KmemAlloc, HasBlock, BlockAt, Grant, PageTop, Headed, NoneFits;
    TakesIs(n, need);
    ClassSearch(k, need);
    AllocSizeFacts(n);
    FreshPage(k);
    var (p, pa) := PageAlloc(k.p, PAGE_SIZE);
    var m := NewPage(k, pa, p);
    HasTop(m.pages, pa + FIRST_BLK);
    GrantParted(m, pa + FIRST_BLK, need);
    AllocFreshIs(k, n);
    GrantPages(m, pa, pa + FIRST_BLK, need);
    PartedFresh(k.pages, m.pages, Grant(m, pa, pa + FIRST_BLK, need), pa + FIRST_BLK, need);
    NewPagePages(k, pa, p);
  }

  lemma GrantPages(k: KState, pg: int, a: int, size: int)
    requires HasBlock(k.pages, a) && PageTop(a) == pg
    ensures Grant(k, pg, a, size).p == k.p
  {
    hide PageTop, IndexOf, Ndx;
  }

  lemma NewPagePages(k: KState, pg: int, p: PState)
    ensures NewPage(k, pg, p).p == p
  {
  }

  lemma PartedFresh(pages: map<int, KPage>, m: map<int, KPage>, r: KState, a: int, need: int)
    requires !HasBlock(pages, a) && HasBlock(m, a) && Parted(m, r, a, MAX_BLOCK_SIZE, need)
    requires forall x :: x != a ==> (HasBlock(m, x) <==> HasBlock(pages, x))
    requires forall x :: HasBlock(pages, x) ==> BlockAt(m, x) == BlockAt(pages, x)
    requires need > 0
    ensures Parted(pages, r, a, 4092, need)
  {
    hide HasBlock, BlockAt, Spare;
  }

  lemma ServedFacts(k: KState, r: KState, a: int, n: int, need: int)
    requires HandedOut(k, r, a, n) && Served(k, r, a, need) && Takes(n, need)
    ensures Live(r, a) && n + 16 <= BlockAt(r.pages, a).size < n + 64
    ensures forall x :: x != a ==> (Live(r, x) <==> Live(k, x))
  {
    hide HasBlock, BlockAt, OnList, AllFree, NoneFits;
  }

  /** kmem_alloc serves a request of `n` bytes with exactly `need` bytes, unless the rest
      of the block would be too small for one of its own. It returns NULL exactly when
      no spare block holds that many and no page is free. */
  lemma AllocExact(k: KState, n: int, need: int)
    requires KInv(k) && 0 < n <= WORD - 32 && Takes(n, need)
    ensures Headed(k.free, k.pages)
    ensures var (r, res) := KmemAlloc(k, n);
      && (res == Panic <==> n > 4048)
      && (res == Null <==> n <= 4048 && NoneFits(k, need) && forall b :: !AllFree(k.p.free, b, PAGE_SIZE))
      && (res.Ptr? ==>
            && Served(k, r, res.ptr - 16, need)
            && Live(r, res.ptr - 16) && n + 16 <= BlockAt(r.pages, res.ptr - 16).size < n + 64
            && (forall x :: x != res.ptr - 16 ==> (Live(r, x) <==> Live(k, x))))
  {
    hide KInv, Headed, HasBlock, BlockAt, Live, Served, KmemAlloc, AllFree, FindClass, AllocSize, HandedOut, NoneFits;
    KInvClasses(k);
    HeadedOk(k);
    KmemAllocOk(k, n);
    AllocSizeFacts(n);
    TakesIs(n, need);
    if n <= 4048 {
      ClassSearch(k, need);
      if FindClass(k.free, need / 16) < NR_BLOCK_LIST {
        ListServes(k, n, need, FindClass(k.free, need / 16));
        ServedFacts(k, KmemAlloc(k, n).0, KmemAlloc(k, n).1.ptr - 16, n, need);
      } else if exists b :: AllFree(k.p.free, b, PAGE_SIZE) {
        PageServes(k, n, need);
        ServedFacts(k, KmemAlloc(k, n).0, KmemAlloc(k, n).1.ptr - 16, n, need);
      } else {
        AllocNone(k, n);
      }
    }
  }

  lemma KInvClasses(k: KState)
    requires KInv(k)
    ensures Classes(k.free, k.pages)
  {
  }
}
