/** The guarantees of kmem_alloc and kmem_free over whole runs. */
module KmemRuns {
  import opened Lists
  import opened Page
  import opened PageRuns
  import opened Kmem
  import opened KmemSteps

  // ----- kmem_alloc -----

  lemma HeadedOk(k: KState)
    requires Classes(k.free, k.pages)
    ensures Headed(k.free, k.pages)
  {
    hide Listed, NoDup;
    forall c | 0 <= c < NR_BLOCK_LIST && k.free[c] != [] ensures Listed(k.pages, k.free[c][0], c) {
      var a := k.free[c][0];
      assert a in k.free[c];
    }
  }

  lemma AllocSizeFacts(n: int)
    requires 0 < n
    ensures AllocSize(n) >= n + BLKHDR_SIZE && AllocSize(n) >= MIN_BLOCK_SIZE
    ensures AllocSize(n) > MAX_ALLOC_SIZE <==> n > 4048
    ensures forall b :: Ndx(b) >= Ndx(AllocSize(n)) ==> b >= AllocSize(n)
    ensures 0 <= Ndx(AllocSize(n)) && (n <= 4048 ==> Ndx(AllocSize(n)) < NR_BLOCK_LIST)
  {
  }

  /** Same blocks handed out, but for `a`. */
  ghost predicate LiveBut(pages: map<int, KPage>, f: FreeLists, r: KState, a: int) {
    && (forall x :: x != a && Allotted(pages, f, x) ==>
          Allotted(r.pages, r.free, x) && BlockAt(r.pages, x) == BlockAt(pages, x))
    && (forall x :: x != a && Allotted(r.pages, r.free, x) ==> Allotted(pages, f, x))
  }

  lemma AllottedBut(pages: map<int, KPage>, f: FreeLists, g: FreeLists, a: int)
    requires SameBut(f, g, a)
    ensures forall x :: x != a ==> (Allotted(pages, f, x) <==> Allotted(pages, g, x))
  {
    hide OnList, IndexOf, PageTop;
    forall x | x != a ensures Allotted(pages, f, x) <==> Allotted(pages, g, x) {
      if HasBlock(pages, x) {
        AddrAt(pages, x);
      }
    }
  }

  /** The part of kmem_alloc after a listed block has been found. */
  lemma FromList(k: KState, c: int, size: int)
    requires KInv(k) && 0 <= c < NR_BLOCK_LIST && k.free[c] != []
    requires MIN_BLOCK_SIZE <= size && forall b :: Ndx(b) == c ==> b >= size
    ensures var a := k.free[c][0];
      && HasBlock(k.pages, a) && !Live(k, a)
      && var r := Grant(k.(free := k.free[c := k.free[c][1..]]), PageTop(a), a, size);
         && KInv(r) && Live(r, a) && BlockAt(r.pages, a).size >= size && LiveBut(k.pages, k.free, r, a)
         && r.p == k.p && r.pages.Keys == k.pages.Keys
  {
    var (a, g) := (k.free[c][0], k.free[c := k.free[c][1..]]);
    TakeFirst(k.pages, k.free, c);
    AllottedBut(k.pages, k.free, g, a);
    hide Pages, Classes, OnList, HasBlock, BlockAt, PageTop, Ndx, SameBut;
    GrantOk(k.(free := g), a, size);
    hide Grant, NoneFree, Canon, Free;
  }

  lemma NewPageOk(k: KState, pg: int, p: PState)
    requires KInv(k) && Whole(Blk(pg, PAGE_SIZE)) && pg > 0 && AllFree(k.p.free, pg, PAGE_SIZE)
    ensures var r := NewPage(k, pg, p); var a := pg + FIRST_BLK;
      && pg !in k.pages && PageTop(a) == pg
      && Pages(r.pages, r.free, pg, 1) && Classes(r.free, r.pages)
      && HasBlock(r.pages, a) && !OnList(r.free, BlockAt(r.pages, a)) && BlockAt(r.pages, a).size == MAX_BLOCK_SIZE
      && !HasBlock(k.pages, a)
      && (forall x :: x != a ==> (HasBlock(r.pages, x) <==> HasBlock(k.pages, x)))
      && (forall x :: HasBlock(k.pages, x) ==> BlockAt(r.pages, x) == BlockAt(k.pages, x))
  {
    assert Free(k.p.free, pg);
    var a := pg + FIRST_BLK;
    FirstTop(pg);
    var r := NewPage(k, pg, p);
    var b := Blk(a, MAX_BLOCK_SIZE);
    assert NoneFree(k.p.free, pg, PAGE_SIZE) ==> !Free(k.p.free, pg);
    hide PageTop, Ndx, Free, Canon, NoneFree;
    FirstUnlisted(k.pages, k.free, a);
    assert [b][1..] == [];
    assert Used([b], k.free) == 1 && Tiles([b], a, pg + PAGE_SIZE);
    hide Tiles, Used, OnList, IndexOf;
    FreshLookup(b);
  }

  lemma FreshLookup(b: Blk)
    ensures forall x :: IndexOf([b], x) < 1 <==> x == b.addr
  {
  }

  lemma FirstTop(pg: int)
    requires Aligned(pg)
    ensures PageTop(pg + FIRST_BLK) == pg
  {
  }

  lemma FirstUnlisted(pages: map<int, KPage>, f: FreeLists, a: int)
    requires Classes(f, pages) && PageTop(a) !in pages
    ensures forall b: Blk :: b.addr == a ==> !OnList(f, b)
  {
    forall b: Blk | b.addr == a ensures !OnList(f, b) {
      if OnList(f, b) {
        ListedBlock(pages, f, Ndx(b.size), a);
      }
    }
  }

  /** The part of kmem_alloc on a page fresh from page_alloc. */
  lemma FromPage(k: KState, pg: int, p: PState, size: int)
    requires KInv(k) && Whole(Blk(pg, PAGE_SIZE)) && AllFree(k.p.free, pg, PAGE_SIZE)
    requires Canon(p.free) && MIN_BLOCK_SIZE <= size <= MAX_ALLOC_SIZE
    requires forall x :: Free(p.free, x) <==> Free(k.p.free, x) && !(pg <= x < pg + PAGE_SIZE)
    ensures var a := pg + FIRST_BLK; pg > 0 && PageTop(a) == pg && HasBlock(NewPage(k, pg, p).pages, a) && !Live(k, a)
    ensures var a := pg + FIRST_BLK;
      var r := Grant(NewPage(k, pg, p), pg, a, size);
      && KInv(r) && Live(r, a) && BlockAt(r.pages, a).size >= size && LiveBut(k.pages, k.free, r, a)
      && r.p == p && r.pages.Keys == k.pages.Keys + {pg}
  {
    var a := pg + FIRST_BLK;
    var m := NewPage(k, pg, p);
    PageNotZero(k.p, pg);
    NewPageOk(k, pg, p);
    NewBacked(k, pg, p);
    hide Pages, Classes, OnList, HasBlock, BlockAt, PageTop, Ndx, SameBut, Tiles, Used;
    GrantOk(m, a, size);
    hide Grant, NoneFree, Canon, Free, AllFree;
  }

  lemma PageNotZero(p: PState, pg: int)
    requires !Free(p.free, 0) && AllFree(p.free, pg, PAGE_SIZE) && Whole(Blk(pg, PAGE_SIZE))
    ensures pg > 0
  {
    hide Free;
    assert pg == 0 ==> Free(p.free, pg);
  }

  lemma NewBacked(k: KState, pg: int, p: PState)
    requires Backed(k.p, k.pages) && Canon(p.free)
    requires forall x :: Free(p.free, x) <==> Free(k.p.free, x) && !(pg <= x < pg + PAGE_SIZE)
    ensures Backed(p, NewPage(k, pg, p).pages)
  {
    hide Canon, Free;
    forall q | q in k.pages || q == pg ensures NoneFree(p.free, q, PAGE_SIZE) {
      assert q in k.pages ==> NoneFree(k.p.free, q, PAGE_SIZE);
    }
  }

  /** No block can serve the request: the lists from its class on are empty and
      no page is left. */
  ghost predicate Exhausted(k: KState, n: int) {
    && (forall c :: 0 <= c < NR_BLOCK_LIST && Ndx(AllocSize(n)) <= c ==> k.free[c] == [])
    && (forall b :: !AllFree(k.p.free, b, PAGE_SIZE))
  }

  /** The state after handing out the block at `a`. */
  ghost predicate HandedOut(k: KState, r: KState, a: int, n: int) {
    && !Live(k, a) && Live(r, a) && BlockAt(r.pages, a).size >= n + BLKHDR_SIZE
    && LiveBut(k.pages, k.free, r, a)
  }

  /** kmem_alloc keeps the invariant. It panics exactly on requests over 4048
      bytes and fails, changing nothing, exactly when lists and pages are
      exhausted; else it hands out one block that was not in use and holds the
      request behind its header. Memory only moves between the two allocators. */
  lemma KmemAllocOk(k: KState, n: int)
    requires KInv(k) && 0 < n <= WORD - 32
    ensures Headed(k.free, k.pages)
    ensures var (r, res) := KmemAlloc(k, n);
      && KInv(r)
      && (res == Panic <==> n > 4048)
      && (res == Null <==> n <= 4048 && Exhausted(k, n))
      && (res.Ptr? ==> HandedOut(k, r, res.ptr - BLKHDR_SIZE, n))
      && (!res.Ptr? ==> r == k)
      && (forall x :: Managed(r, x) <==> Managed(k, x))
  {
    HeadedOk(k);
    AllocSizeFacts(n);
    var size := AllocSize(n);
    if size <= MAX_ALLOC_SIZE {
      var c := FindClass(k.free, Ndx(size));
      hide AllocSize, KInv, LiveBut, Headed, HasBlock, BlockAt, Live;
      if c < NR_BLOCK_LIST {
        AllocListed(k, n, c);
      } else {
        AllocFresh(k, n);
      }
    } else {
      hide KInv, AllocSize, Headed;
    }
  }

  lemma SameManaged(k: KState, r: KState)
    requires r.p == k.p && r.pages.Keys == k.pages.Keys
    ensures forall x :: Managed(r, x) <==> Managed(k, x)
  {
    hide Free, PageTop;
  }

  lemma AllocListed(k: KState, n: int, c: int)
    requires KInv(k) && 0 < n <= 4048 && Headed(k.free, k.pages)
    requires 0 <= Ndx(AllocSize(n)) < NR_BLOCK_LIST && c == FindClass(k.free, Ndx(AllocSize(n))) < NR_BLOCK_LIST
    ensures var (r, res) := KmemAlloc(k, n);
      && KInv(r) && res.Ptr? && HandedOut(k, r, res.ptr - BLKHDR_SIZE, n) && !Exhausted(k, n)
      && (forall x :: Managed(r, x) <==> Managed(k, x))
  {
    hide AllocSize, KInv, LiveBut, Live, HasBlock, BlockAt, Grant, Ndx, FindClass, Headed, PageTop, Managed;
    AllocSizeFacts(n);
    FromList(k, c, AllocSize(n));
    SameManaged(k, KmemAlloc(k, n).0);
  }

  lemma AllocFresh(k: KState, n: int)
    requires KInv(k) && 0 < n <= 4048 && Headed(k.free, k.pages)
    requires 0 <= Ndx(AllocSize(n)) < NR_BLOCK_LIST && FindClass(k.free, Ndx(AllocSize(n))) == NR_BLOCK_LIST
    ensures var (r, res) := KmemAlloc(k, n);
      && KInv(r) && (res == Null || res.Ptr?) && (res == Null <==> Exhausted(k, n))
      && (res.Ptr? ==> HandedOut(k, r, res.ptr - BLKHDR_SIZE, n))
      && (res == Null ==> r == k)
      && (forall x :: Managed(r, x) <==> Managed(k, x))
  {
    AllocSizeFacts(n);
    hide AllocSize, KInv, Managed, HandedOut, Ndx, FindClass, Headed, PageTop, KmemAlloc, AllFree;
    if exists b :: AllFree(k.p.free, b, PAGE_SIZE) {
      AllocPage(k, n);
    } else {
      AllocNone(k, n);
    }
  }

  lemma AllocNone(k: KState, n: int)
    requires KInv(k) && 0 < n <= 4048 && Headed(k.free, k.pages)
    requires 0 <= Ndx(AllocSize(n)) < NR_BLOCK_LIST && FindClass(k.free, Ndx(AllocSize(n))) == NR_BLOCK_LIST
    requires forall b :: !AllFree(k.p.free, b, PAGE_SIZE)
    ensures KmemAlloc(k, n) == (k, Null)
  {
    AllocSizeFacts(n);
    PageAllocMeans(k.p, PAGE_SIZE);
    assert RoundPage(PAGE_SIZE) == PAGE_SIZE;
    hide AllocSize, Ndx, FindClass, Headed, PageTop, PageAlloc, RoundPage, AllFree, Pages, Classes;
    AllocFreshIs(k, n);
    hide KmemAlloc;
  }

  lemma AllocPage(k: KState, n: int)
    requires KInv(k) && 0 < n <= 4048 && Headed(k.free, k.pages)
    requires 0 <= Ndx(AllocSize(n)) < NR_BLOCK_LIST && FindClass(k.free, Ndx(AllocSize(n))) == NR_BLOCK_LIST
    requires exists b :: AllFree(k.p.free, b, PAGE_SIZE)
    ensures var (r, res) := KmemAlloc(k, n);
      KInv(r) && res.Ptr? && HandedOut(k, r, res.ptr - BLKHDR_SIZE, n) && forall x :: Managed(r, x) <==> Managed(k, x)
  {
    hide AllocSize, LiveBut, Live, HasBlock, BlockAt, Grant, Ndx, FindClass, Headed, PageTop, PageAlloc, RoundPage,
      Canon, Free, KInv, Whole, AllFree, NewPage, KmemAlloc, Managed;
    var (p, pa) := PageAlloc(k.p, PAGE_SIZE);
    AllocSizeFacts(n);
    KInvParts(k);
    OnePage();
    PageAllocMeans(k.p, PAGE_SIZE);
    PageNotZero(k.p, pa);
    FromPage(k, pa, p, AllocSize(n));
    WholeAligned(Blk(pa, PAGE_SIZE));
    HasTop(NewPage(k, pa, p).pages, pa + FIRST_BLK);
    MovedPage(k, Grant(NewPage(k, pa, p), pa, pa + FIRST_BLK, AllocSize(n)), pa);
    AllocFreshIs(k, n);
  }

  lemma OnePage()
    ensures RoundPage(PAGE_SIZE) == PAGE_SIZE
  {
  }

  lemma KInvParts(k: KState)
    requires KInv(k)
    ensures Canon(k.p.free) && !Free(k.p.free, 0)
  {
    hide Canon, Free, Pages, Classes;
  }

  lemma WholeAligned(b: Blk)
    requires Whole(b)
    ensures Aligned(b.addr)
  {
  }

  lemma AllocFreshIs(k: KState, n: int)
    requires 0 < n <= 4048 && Headed(k.free, k.pages) && AllocSize(n) <= MAX_ALLOC_SIZE
    requires 0 <= Ndx(AllocSize(n)) < NR_BLOCK_LIST && FindClass(k.free, Ndx(AllocSize(n))) == NR_BLOCK_LIST
    requires var (p, pa) := PageAlloc(k.p, PAGE_SIZE);
      pa != 0 ==> HasBlock(NewPage(k, pa, p).pages, pa + FIRST_BLK) && PageTop(pa + FIRST_BLK) == pa
    ensures var (p, pa) := PageAlloc(k.p, PAGE_SIZE);
      KmemAlloc(k, n) ==
        if pa == 0 then (k.(p := p), Null)
        else (Grant(NewPage(k, pa, p), pa, pa + FIRST_BLK, AllocSize(n)), Ptr(pa + FIRST_BLK + BLKHDR_SIZE))
  {
    hide PageAlloc, AllocSize, Ndx, FindClass, Grant, NewPage, IndexOf, PageTop, Headed;
  }

  lemma MovedPage(k: KState, r: KState, pg: int)
    requires forall x :: Free(r.p.free, x) <==> Free(k.p.free, x) && !(pg <= x < pg + PAGE_SIZE)
    requires r.pages.Keys == k.pages.Keys + {pg} && Aligned(pg)
    requires AllFree(k.p.free, pg, PAGE_SIZE)
    ensures forall x :: Managed(r, x) <==> Managed(k, x)
  {
    hide Free;
    forall x ensures PageTop(x) == pg <==> pg <= x < pg + PAGE_SIZE {
    }
    hide PageTop;
  }

  // ----- Payloads -----

  /** The bytes behind the header of an allocated block. */
  predicate InPayload(k: KState, a: int, x: int)
    requires HasBlock(k.pages, a)
  {
    a + BLKHDR_SIZE <= x < BlockAt(k.pages, a).End()
  }

  /** Payloads never overlap, lie in pages of the heap, and are not free memory. */
  lemma PayloadsApart(k: KState, a: int, b: int, x: int)
    requires KInv(k) && Live(k, a) && Live(k, b) && InPayload(k, a, x)
    ensures a != b ==> !InPayload(k, b, x)
    ensures PageTop(x) == PageTop(a) && PageTop(x) in k.pages && !Free(k.p.free, x)
  {
    hide OnList, Classes, Busy;
    BlockFacts(k.pages, k.free, 0, 0, a);
    BlockFacts(k.pages, k.free, 0, 0, b);
    InPage(PageTop(a), a, x);
    assert NoneFree(k.p.free, PageTop(a), PAGE_SIZE);
    if a != b && InPayload(k, b, x) {
      InPage(PageTop(b), b, x);
      SameChain(k, a, b);
    }
  }

  lemma SameChain(k: KState, a: int, b: int)
    requires KInv(k) && HasBlock(k.pages, a) && HasBlock(k.pages, b) && a != b && PageTop(a) == PageTop(b)
    ensures BlockAt(k.pages, a).End() <= b || BlockAt(k.pages, b).End() <= a
  {
    hide Classes, Backed, Busy, OnList, Used;
    var pg := PageTop(a);
    var blks := k.pages[pg].blks;
    assert PageOk(pg, k.pages[pg], k.free, 0);
    hide PageTop, Pages;
    BetweenBlocks(blks, pg + FIRST_BLK, pg + PAGE_SIZE, IndexOf(blks, a), IndexOf(blks, b));
    BetweenBlocks(blks, pg + FIRST_BLK, pg + PAGE_SIZE, IndexOf(blks, b), IndexOf(blks, a));
  }

  // ----- kmem_free -----

  /** The heap with the block at `a` listed again and its page counting one less. */
  function Relisted(k: KState, a: int): KState
    requires HasBlock(k.pages, a)
  {
    var pg := PageTop(a);
    k.(free := Push(k.free, Ndx(BlockAt(k.pages, a).size), a),
       pages := k.pages[pg := k.pages[pg].(nallocs := k.pages[pg].nallocs - 1)])
  }

  lemma RelistedPages(k: KState, a: int)
    requires KInv(k) && Live(k, a)
    ensures var r := Relisted(k, a);
      Pages(r.pages, r.free, 0, 0) && SameBut(k.free, r.free, a) && OnList(r.free, BlockAt(k.pages, a))
  {
    var c := Ndx(BlockAt(k.pages, a).size);
    var g := Push(k.free, c, a);
    BlockFacts(k.pages, k.free, 0, 0, a);
    hide Classes, Backed, Busy, PageTop, OnList, SameBut, Ndx, HasBlock, BlockAt;
    PushLists(k.free, c, a);
    JoinsList(k.pages, k.free, g, a);
    CountDown(k.pages, g, PageTop(a));
  }

  lemma CountDown(pages: map<int, KPage>, f: FreeLists, pg: int)
    requires pg in pages && Pages(pages, f, pg, -1)
    ensures Pages(pages[pg := pages[pg].(nallocs := pages[pg].nallocs - 1)], f, 0, 0)
  {
    hide Tiles, Used;
    assert PageOk(pg, pages[pg], f, -1);
  }

  lemma RelistedClasses(k: KState, a: int)
    requires KInv(k) && Live(k, a)
    ensures var r := Relisted(k, a); Classes(r.free, r.pages)
    ensures var r := Relisted(k, a);
      && (forall x :: HasBlock(r.pages, x) <==> HasBlock(k.pages, x))
      && (forall x :: HasBlock(k.pages, x) ==> BlockAt(r.pages, x) == BlockAt(k.pages, x))
      && r.pages.Keys == k.pages.Keys && r.p == k.p
  {
    var r := Relisted(k, a);
    var c := Ndx(BlockAt(k.pages, a).size);
    BlockFacts(k.pages, k.free, 0, 0, a);
    OnNoList(k.pages, k.free, a);
    PushLists(k.free, c, a);
    hide Pages, Backed, Busy, PageTop, OnList, SameBut, Ndx, IndexOf, Push;
    assert forall d :: 0 <= d < NR_BLOCK_LIST ==> r.free[d] == if d == c then [a] + k.free[d] else k.free[d] by {
      PushIs(k.free, c, a);
    }
    forall d | 0 <= d < NR_BLOCK_LIST ensures NoDup(r.free[d]) {
      NoDupCons(a, k.free[d]);
    }
    forall d, x | 0 <= d < NR_BLOCK_LIST && x in r.free[d] ensures Listed(r.pages, x, d) {
      if x != a {
        assert Listed(k.pages, x, d);
      }
    }
  }

  lemma PushIs(f: FreeLists, c: int, a: int)
    requires 0 <= c < NR_BLOCK_LIST
    ensures forall d :: 0 <= d < NR_BLOCK_LIST ==> Push(f, c, a)[d] == if d == c then [a] + f[d] else f[d]
  {
  }

  /** Some block of the chain has this address and class. */
  ghost predicate InChain(blks: seq<Blk>, x: int, d: int) {
    exists i :: 0 <= i < |blks| && blks[i].addr == x && Ndx(blks[i].size) == d
  }

  ghost predicate NoDups(f: FreeLists) {
    forall d :: 0 <= d < NR_BLOCK_LIST ==> NoDup(f[d])
  }

  lemma {:induction false} UnlistAllOk(f: FreeLists, blks: seq<Blk>, x: int, d: int)
    requires NoDups(f) && 0 <= d < NR_BLOCK_LIST
    requires forall i :: 0 <= i < |blks| ==> 0 <= Ndx(blks[i].size) < NR_BLOCK_LIST
    ensures NoDups(UnlistAll(f, blks))
    ensures x in UnlistAll(f, blks)[d] <==> x in f[d] && !InChain(blks, x, d)
    decreases |blks|
  {
    hide NoDup, Ndx, Unlist;
    if blks != [] {
      var g := Unlist(f, Ndx(blks[0].size), blks[0].addr);
      UnlistLists(f, Ndx(blks[0].size), blks[0].addr);
      hide NoDups;
      UnlistAllOk(g, blks[1..], x, d);
      hide UnlistAll;
      ChainCons(blks, x, d);
    }
  }

  lemma ChainCons(blks: seq<Blk>, x: int, d: int)
    requires blks != []
    ensures InChain(blks, x, d) <==> (blks[0].addr == x && Ndx(blks[0].size) == d) || InChain(blks[1..], x, d)
  {
    hide Ndx;
    if InChain(blks, x, d) {
      var i :| 0 <= i < |blks| && blks[i].addr == x && Ndx(blks[i].size) == d;
      assert i > 0 ==> blks[1..][i - 1] == blks[i];
    }
    if InChain(blks[1..], x, d) {
      var i :| 0 <= i < |blks[1..]| && blks[1..][i].addr == x && Ndx(blks[1..][i].size) == d;
      assert blks[i + 1] == blks[1..][i];
    }
  }

  /** The lists of `g` are those of `f` without the blocks of page `pg`. */
  ghost predicate Cleared(f: FreeLists, g: FreeLists, pg: int) {
    forall x, d :: 0 <= d < NR_BLOCK_LIST ==> ClearedAt(f, g, pg, x, d)
  }

  predicate ClearedAt(f: FreeLists, g: FreeLists, pg: int, x: int, d: int)
    requires 0 <= d < NR_BLOCK_LIST
  {
    x in g[d] <==> x in f[d] && PageTop(x) != pg
  }

  lemma ChainOfPage(pages: map<int, KPage>, f: FreeLists, pg: int, x: int, d: int)
    requires Pages(pages, f, 0, 0) && Classes(f, pages) && pg in pages && 0 <= d < NR_BLOCK_LIST && x in f[d]
    ensures InChain(pages[pg].blks, x, d) <==> PageTop(x) == pg
  {
    var blks := pages[pg].blks;
    hide NoDup, Ndx, PageTop;
    assert PageOk(pg, pages[pg], f, 0);
    assert Listed(pages, x, d);
    if InChain(blks, x, d) {
      var i :| 0 <= i < |blks| && blks[i].addr == x && Ndx(blks[i].size) == d;
      TopOf(pg, pages[pg], f, 0, i);
    }
    if PageTop(x) == pg {
      var i := IndexOf(blks, x);
      assert blks[i].addr == x && Ndx(blks[i].size) == d;
    }
  }

  /** Unlinking all blocks of a page clears that page off the lists and leaves
      the others alone. */
  lemma PageUnlisted(pages: map<int, KPage>, f: FreeLists, pg: int)
    requires Pages(pages, f, 0, 0) && Classes(f, pages) && pg in pages
    ensures NoDups(UnlistAll(f, pages[pg].blks)) && Cleared(f, UnlistAll(f, pages[pg].blks), pg)
  {
    var blks := pages[pg].blks;
    forall i | 0 <= i < |blks| ensures 0 <= Ndx(blks[i].size) < NR_BLOCK_LIST {
      assert PageOk(pg, pages[pg], f, 0);
      TopOf(pg, pages[pg], f, 0, i);
    }
    assert NoDups(f);
    hide NoDups, Ndx, PageTop, Pages, UnlistAll, Classes, InChain;
    UnlistAllOk(f, blks, 0, 0);
    forall x, d | 0 <= d < NR_BLOCK_LIST ensures ClearedAt(f, UnlistAll(f, blks), pg, x, d) {
      UnlistAllOk(f, blks, x, d);
      if x in f[d] {
        ChainOfPage(pages, f, pg, x, d);
      }
    }
  }

  lemma RestPages(pages: map<int, KPage>, f: FreeLists, g: FreeLists, pg: int)
    requires Pages(pages, f, 0, 0) && Classes(f, pages) && NoDups(g)
    requires Cleared(f, g, pg)
    ensures Pages(pages - {pg}, g, 0, 0) && Classes(g, pages - {pg})
    ensures forall b: Blk :: PageTop(b.addr) != pg ==> (OnList(f, b) <==> OnList(g, b))
  {
    hide PageTop, Ndx, NoDup, IndexOf;
    forall b: Blk | PageTop(b.addr) != pg ensures OnList(f, b) <==> OnList(g, b) {
      assert 0 <= Ndx(b.size) < NR_BLOCK_LIST ==> ClearedAt(f, g, pg, b.addr, Ndx(b.size));
    }
    forall p | p in pages && p != pg ensures PageOk(p, pages[p], g, 0) {
      hide Tiles;
      assert PageOk(p, pages[p], f, 0);
      forall i | 0 <= i < |pages[p].blks| ensures OnList(f, pages[p].blks[i]) <==> OnList(g, pages[p].blks[i]) {
        TopOf(p, pages[p], f, 0, i);
      }
      hide OnList;
      UsedFrame(pages[p].blks, f, g);
    }
    forall d, x | 0 <= d < NR_BLOCK_LIST && x in g[d] ensures Listed(pages - {pg}, x, d) {
      assert ClearedAt(f, g, pg, x, d);
      assert Listed(pages, x, d);
    }
  }

  /** After the last block of a page has been freed. */
  function PageReturned(k: KState, pg: int): KState
    requires pg in k.pages
  {
    KState(PageFree(k.p, pg, PAGE_SIZE), k.pages - {pg}, UnlistAll(k.free, k.pages[pg].blks))
  }

  lemma ReturnedBacked(p: PState, pages: map<int, KPage>, f: FreeLists, pg: int)
    requires Backed(p, pages) && Pages(pages, f, 0, 0) && pg in pages
    ensures Backed(PageFree(p, pg, PAGE_SIZE), pages - {pg})
    ensures forall x :: Free(PageFree(p, pg, PAGE_SIZE).free, x) <==> Free(p.free, x) || pg <= x < pg + PAGE_SIZE
  {
    hide Tiles, Used;
    assert PageOk(pg, pages[pg], f, 0);
    OnePage();
    WholePage(pg);
    hide RoundPage, Canon, Free, Wrap, FreeBlock;
    FreeBlockOk(p.free, Blk(pg, PAGE_SIZE));
    var q := PageFree(p, pg, PAGE_SIZE);
    forall o | o in pages && o != pg ensures NoneFree(q.free, o, PAGE_SIZE) {
      assert PageOk(o, pages[o], f, 0) && NoneFree(p.free, o, PAGE_SIZE);
      AlignedApart(o, pg);
    }
  }

  lemma WholePage(pg: int)
    requires 0 < pg && Aligned(pg) && pg + PAGE_SIZE < WORD
    ensures Whole(Blk(pg, PAGE_SIZE))
  {
  }

  lemma AlignedApart(a: int, b: int)
    requires Aligned(a) && Aligned(b) && a != b
    ensures a + PAGE_SIZE <= b || b + PAGE_SIZE <= a
  {
  }

  lemma ReturnedOk(k: KState, pg: int)
    requires Pages(k.pages, k.free, 0, 0) && Classes(k.free, k.pages) && Backed(k.p, k.pages) && pg in k.pages
    ensures var r := PageReturned(k, pg);
      && Pages(r.pages, r.free, 0, 0) && Classes(r.free, r.pages) && Backed(r.p, r.pages)
      && Cleared(k.free, r.free, pg)
      && (forall x :: PageTop(x) != pg ==>
            (Allotted(r.pages, r.free, x) <==> Allotted(k.pages, k.free, x))
            && (HasBlock(k.pages, x) ==> HasBlock(r.pages, x) && BlockAt(r.pages, x) == BlockAt(k.pages, x)))
      && (forall x :: Free(r.p.free, x) <==> Free(k.p.free, x) || pg <= x < pg + PAGE_SIZE)
  {
    PageUnlisted(k.pages, k.free, pg);
    hide Pages, Classes, Backed, UnlistAll, Cleared, NoDups, PageTop, OnList, IndexOf, PageFree, Free;
    RestPages(k.pages, k.free, UnlistAll(k.free, k.pages[pg].blks), pg);
    ReturnedBacked(k.p, k.pages, k.free, pg);
    forall x | PageTop(x) != pg && HasBlock(k.pages, x) ensures BlockAt(k.pages, x).addr == x {
      AddrAt(k.pages, x);
    }
  }

  /** No other allocated block in the page of `a`. */
  ghost predicate Last(k: KState, a: int) {
    forall x :: x != a && PageTop(x) == PageTop(a) ==> !Live(k, x)
  }

  lemma LastIs(k: KState, a: int)
    requires KInv(k) && Live(k, a) && Pages(Relisted(k, a).pages, Relisted(k, a).free, 0, 0)
    requires SameBut(k.free, Relisted(k, a).free, a) && OnList(Relisted(k, a).free, BlockAt(k.pages, a))
    ensures k.pages[PageTop(a)].nallocs == 1 <==> Last(k, a)
  {
    var r := Relisted(k, a);
    var pg := PageTop(a);
    var blks := k.pages[pg].blks;
    assert PageOk(pg, r.pages[pg], r.free, 0) && r.pages[pg].blks == blks;
    var f := r.free;
    assert r.pages[pg].nallocs == k.pages[pg].nallocs - 1;
    hide Ndx, OnList, Classes, Backed, Push, Tiles, IndexOf;
    if k.pages[pg].nallocs == 1 {
      forall x | x != a && PageTop(x) == pg ensures !Live(k, x) {
        if HasBlock(k.pages, x) {
          AddrAt(k.pages, x);
          UsedNone(blks, f, IndexOf(blks, x));
        }
      }
    } else {
      assert k.pages[pg].nallocs > 0;
      var i := UsedSome(blks, f);
      TopOf(pg, r.pages[pg], f, 0, i);
      AddrAt(k.pages, a);
      assert Live(k, blks[i].addr);
    }
  }

  /** kmem_free keeps the invariant: exactly that block is given back, and its
      page goes to the page allocator exactly when it held no other allocated
      block; then none of its blocks is left on a list. */
  lemma KmemFreeOk(k: KState, ptr: int)
    requires KInv(k) && Live(k, ptr - BLKHDR_SIZE)
    ensures var (r, a) := (KmemFree(k, ptr), ptr - BLKHDR_SIZE);
      && KInv(r) && !Live(r, a) && LiveBut(k.pages, k.free, r, a)
      && (PageTop(a) !in r.pages <==> Last(k, a))
      && (Last(k, a) ==> r.p == PageFree(k.p, PageTop(a), PAGE_SIZE) && r.pages.Keys == k.pages.Keys - {PageTop(a)})
      && (Last(k, a) ==> forall x, c :: 0 <= c < NR_BLOCK_LIST && x in r.free[c] ==> PageTop(x) != PageTop(a))
      && (!Last(k, a) ==> r.p == k.p && r.pages.Keys == k.pages.Keys)
      && (forall x :: Managed(r, x) <==> Managed(k, x))
  {
    var a := ptr - BLKHDR_SIZE;
    var m := Relisted(k, a);
    RelistedPages(k, a);
    RelistedClasses(k, a);
    LastIs(k, a);
    FreeIsRelist(k, ptr);
    AllottedBut(k.pages, k.free, m.free, a);
    hide Last, SameBut, KmemFree, Relisted;
    if k.pages[PageTop(a)].nallocs == 1 {
      FreeLast(k, a, m);
    } else {
      FreeMore(k, a, m);
    }
  }

  /** `m` is the heap with `a` listed again and counted down. */
  ghost predicate Counted(k: KState, a: int, m: KState) {
    && HasBlock(k.pages, a) && m.p == k.p && m.pages.Keys == k.pages.Keys
    && Pages(m.pages, m.free, 0, 0) && Classes(m.free, m.pages)
    && (forall x :: HasBlock(m.pages, x) <==> HasBlock(k.pages, x))
    && (forall x :: HasBlock(k.pages, x) ==> BlockAt(m.pages, x) == BlockAt(k.pages, x))
    && OnList(m.free, BlockAt(k.pages, a))
    && (forall x :: x != a ==> (Allotted(k.pages, k.free, x) <==> Allotted(k.pages, m.free, x)))
    && (forall p :: p in k.pages ==> m.pages[p].nallocs == k.pages[p].nallocs - (if p == PageTop(a) then 1 else 0))
  }

  lemma FreeMore(k: KState, a: int, m: KState)
    requires KInv(k) && Live(k, a) && Counted(k, a, m) && k.pages[PageTop(a)].nallocs != 1
    ensures KInv(m) && !Live(m, a) && LiveBut(k.pages, k.free, m, a)
    ensures forall x :: Managed(m, x) <==> Managed(k, x)
  {
    hide Pages, Classes, OnList, BlockAt, IndexOf, PageTop, Canon, Free, NoneFree, HasBlock;
    CountsPositive(k, PageTop(a));
    HasTop(k.pages, a);
  }

  lemma HasTop(pages: map<int, KPage>, a: int)
    requires HasBlock(pages, a)
    ensures PageTop(a) in pages && IndexOf(pages[PageTop(a)].blks, a) < |pages[PageTop(a)].blks|
  {
  }

  lemma CountsPositive(k: KState, pg: int)
    requires Busy(k.pages)
    ensures forall p :: p in k.pages ==> k.pages[p].nallocs >= 1
  {
  }

  lemma FreeLast(k: KState, a: int, m: KState)
    requires KInv(k) && Live(k, a) && Counted(k, a, m) && k.pages[PageTop(a)].nallocs == 1 && Last(k, a)
    ensures PageTop(a) in m.pages
    ensures var r := PageReturned(m, PageTop(a));
      && KInv(r) && !Live(r, a) && LiveBut(k.pages, k.free, r, a)
      && (forall x, c :: 0 <= c < NR_BLOCK_LIST && x in r.free[c] ==> PageTop(x) != PageTop(a))
      && (forall x :: Managed(r, x) <==> Managed(k, x))
  {
    var pg := PageTop(a);
    var r := PageReturned(m, pg);
    HasTop(k.pages, a);
    assert Backed(m.p, m.pages) by {
      hide Pages, Classes;
    }
    ReturnedOk(m, pg);
    hide PageReturned, Pages, Classes, OnList, BlockAt, IndexOf, Canon, Free, NoneFree, HasBlock, UnlistAll, PageFree, Backed;
    TopSpan(k, a);
    hide PageTop;
  }

  lemma TopSpan(k: KState, a: int)
    requires KInv(k) && HasBlock(k.pages, a)
    ensures forall x :: PageTop(x) == PageTop(a) <==> PageTop(a) <= x < PageTop(a) + PAGE_SIZE
  {
  }

  lemma FreeIsRelist(k: KState, ptr: int)
    requires HasBlock(k.pages, ptr - BLKHDR_SIZE)
    ensures var a := ptr - BLKHDR_SIZE;
      var m := Relisted(k, a);
      PageTop(a) in m.pages &&
      KmemFree(k, ptr) == if k.pages[PageTop(a)].nallocs == 1 then PageReturned(m, PageTop(a)) else m
  {
    hide PageTop, Ndx, IndexOf, Push, UnlistAll, PageFree;
    var a := ptr - BLKHDR_SIZE;
    assert Relisted(k, a).pages - {PageTop(a)} == k.pages - {PageTop(a)};
  }

  // ----- Runs -----

  datatype KOp = KAlloc(n: int) | KFree(ptr: int)

  /** Sizes are not 0, and only allocated blocks are freed. */
  predicate KCan(k: KState, op: KOp) {
    match op
    case KAlloc(n) => 0 < n <= WORD - 32
    case KFree(ptr) => Live(k, ptr - BLKHDR_SIZE)
  }

  /** The heap and the page allocator hold only memory of the start. */
  ghost predicate Within(l0: seq<Blk>, k: KState) {
    KInv(k) && PInv(l0, k.p) && forall x :: Managed(k, x) ==> Free(l0, x)
  }

  /** They share out all of it. */
  ghost predicate Shared(l0: seq<Blk>, k: KState) {
    Within(l0, k) && forall x :: Free(l0, x) ==> Managed(k, x)
  }

  ghost function KApply(k: KState, op: KOp): KState
    requires KInv(k) && KCan(k, op)
  {
    match op
    case KAlloc(n) => KmemAllocOk(k, n); KmemAlloc(k, n).0
    case KFree(ptr) => KmemFree(k, ptr)
  }

  /** The heap takes pages with page_alloc only. */
  lemma AllocPages(k: KState, n: int)
    requires KInv(k) && 0 < n <= WORD - 32 && Headed(k.free, k.pages)
    ensures var r := KmemAlloc(k, n).0; r.p == k.p || r.p == PageAlloc(k.p, PAGE_SIZE).0
  {
    hide PageAlloc, AllocSize, Ndx, IndexOf, PageTop, Pages, Classes, Backed, Busy, Headed, Listed;
    forall q: KState, pg, a, size | pg in q.pages && IndexOf(q.pages[pg].blks, a) < |q.pages[pg].blks|
      ensures Grant(q, pg, a, size).p == q.p
    {
      GrantKeeps(q, pg, a, size);
    }
    hide Grant;
    KmemAllocOk(k, n);
  }

  lemma GrantKeeps(k: KState, pg: int, a: int, size: int)
    requires pg in k.pages && IndexOf(k.pages[pg].blks, a) < |k.pages[pg].blks|
    ensures Grant(k, pg, a, size).p == k.p
  {
    hide IndexOf, Push, Ndx;
  }

  lemma ReturnedInUse(l0: seq<Blk>, k: KState, a: int)
    requires Within(l0, k) && HasBlock(k.pages, a)
    ensures InUse(l0, k.p.free, PageTop(a), PAGE_SIZE)
  {
    TopSpan(k, a);
    HasTop(k.pages, a);
    PageFacts(k, PageTop(a));
    hide HasBlock, Free, PInv, PageTop, Canon, Pages, Classes, Busy;
    forall x | PageTop(a) <= x < PageTop(a) + PAGE_SIZE ensures Free(l0, x) {
      assert Managed(k, x);
    }
  }

  lemma PageFacts(k: KState, pg: int)
    requires KInv(k) && pg in k.pages
    ensures Whole(Blk(pg, PAGE_SIZE)) && NoneFree(k.p.free, pg, PAGE_SIZE)
  {
    hide Free, Tiles, Used;
    assert PageOk(pg, k.pages[pg], k.free, 0);
    WholePage(pg);
  }

  lemma KAllocWithin(l0: seq<Blk>, k: KState, n: int)
    requires Within(l0, k) && 0 < n <= WORD - 32
    ensures Headed(k.free, k.pages) && Within(l0, KmemAlloc(k, n).0)
  {
    hide KInv, Managed, PInv, HandedOut, Exhausted, PageAlloc, Free, InUse, KmemAlloc;
    KmemAllocOk(k, n);
    AllocPages(k, n);
    PAllocOk(l0, k.p, PAGE_SIZE);
  }

  lemma KFreeWithin(l0: seq<Blk>, k: KState, ptr: int)
    requires Within(l0, k) && Live(k, ptr - BLKHDR_SIZE)
    ensures Within(l0, KmemFree(k, ptr))
  {
    var a := ptr - BLKHDR_SIZE;
    LiveHas(k, a);
    hide KInv, Managed, PInv, Live, Last, LiveBut, KmemFree, PageFree, Free, InUse, HasBlock, RoundPage;
    KmemFreeOk(k, ptr);
    ReturnedInUse(l0, k, a);
    OnePage();
    PFreeOk(l0, k.p, PageTop(a), PAGE_SIZE);
  }

  lemma KApplyOk(l0: seq<Blk>, k: KState, op: KOp)
    requires Shared(l0, k) && KCan(k, op)
    ensures Shared(l0, KApply(k, op))
  {
    hide KInv, Managed, PInv, Live, Last, LiveBut, HandedOut, Exhausted, KmemFree, KmemAlloc, Free;
    match op
    case KAlloc(n) =>
      KmemAllocOk(k, n);
      KAllocWithin(l0, k, n);
    case KFree(ptr) =>
      KmemFreeOk(k, ptr);
      KFreeWithin(l0, k, ptr);
  }

  lemma LiveHas(k: KState, a: int)
    requires Live(k, a)
    ensures HasBlock(k.pages, a)
  {
  }

  ghost function KExec(k: KState, ops: seq<KOp>): (r: KState)
    requires KInv(k)
    ensures KInv(r)
    decreases |ops|
  {
    hide KInv, KCan, KApply;
    if ops == [] then k
    else if KCan(k, ops[0]) then KApplyInv(k, ops[0]); KExec(KApply(k, ops[0]), ops[1..])
    else KExec(k, ops[1..])
  }

  lemma KApplyInv(k: KState, op: KOp)
    requires KInv(k) && KCan(k, op)
    ensures KInv(KApply(k, op))
  {
    hide KInv, KmemFree;
    match op
    case KAlloc(n) => KmemAllocOk(k, n);
    case KFree(ptr) => KmemFreeOk(k, ptr);
  }

  lemma {:induction false} KExecShared(l0: seq<Blk>, k: KState, ops: seq<KOp>)
    requires Shared(l0, k)
    ensures Shared(l0, KExec(k, ops))
    decreases |ops|
  {
    SharedInv(l0, k);
    hide KInv, KCan, KApply, Shared;
    if ops != [] {
      if KCan(k, ops[0]) {
        KApplyOk(l0, k, ops[0]);
        KApplyInv(k, ops[0]);
        KExecShared(l0, KApply(k, ops[0]), ops[1..]);
      } else {
        KExecShared(l0, k, ops[1..]);
      }
    }
  }

  lemma SharedInv(l0: seq<Blk>, k: KState)
    requires Shared(l0, k)
    ensures KInv(k)
  {
    hide KInv, PInv;
  }

  /** A kernel page has an allocated block. */
  lemma BusyLive(k: KState, pg: int) returns (a: int)
    requires KInv(k) && pg in k.pages
    ensures Live(k, a) && PageTop(a) == pg
  {
    hide Tiles, Classes, Backed, OnList, Ndx;
    assert PageOk(pg, k.pages[pg], k.free, 0);
    var i := UsedSome(k.pages[pg].blks, k.free);
    TopOf(pg, k.pages[pg], k.free, 0, i);
    a := k.pages[pg].blks[i].addr;
  }

  function KStart(l0: seq<Blk>): KState {
    KState(PState(l0, 0), map[], seq(256, _ => []))
  }

  lemma KStartOk(l0: seq<Blk>)
    requires Canon(l0) && !Free(l0, 0)
    ensures Shared(l0, KStart(l0))
  {
    TotalFits(l0);
    hide Canon, Free, Total;
    var f := KStart(l0).free;
    assert forall c :: 0 <= c < 256 ==> f[c] == [];
  }

  /** In every run of kmem_alloc and kmem_free the heap invariant holds, every
      byte belongs either to the page allocator or to a kernel page, as the
      first says, and a page is kept exactly while it holds an allocated block;
      once all blocks are freed, the page allocator is as it was. */
  lemma HeapEveryRun(l0: seq<Blk>, ops: seq<KOp>)
    requires Canon(l0) && !Free(l0, 0)
    ensures Shared(l0, KStart(l0)) && KInv(KStart(l0))
    ensures var k := KExec(KStart(l0), ops);
      && Shared(l0, k)
      && (forall pg :: pg in k.pages <==> exists a :: Live(k, a) && PageTop(a) == pg)
      && ((forall a :: !Live(k, a)) ==> k.p == PState(l0, 0) && k.pages == map[])
  {
    KStartOk(l0);
    KExecShared(l0, KStart(l0), ops);
    var k := KExec(KStart(l0), ops);
    hide KInv, Free, PInv, KExec, PageTop, Live, Canon;
    forall pg ensures pg in k.pages <==> exists a :: Live(k, a) && PageTop(a) == pg {
      if pg in k.pages {
        var a := BusyLive(k, pg);
      }
      if a :| Live(k, a) && PageTop(a) == pg {
        LiveHas(k, a);
        HasTop(k.pages, a);
      }
    }
    if forall a :: !Live(k, a) {
      assert k.pages == map[];
      AllBack(l0, k);
    }
  }

  lemma AllBack(l0: seq<Blk>, k: KState)
    requires Shared(l0, k) && k.pages == map[]
    ensures k.p == PState(l0, 0)
  {
    hide KInv, Free, Canon, Total;
    assert forall x :: Managed(k, x) <==> Free(k.p.free, x);
    Unique(k.p.free, l0);
  }
}
