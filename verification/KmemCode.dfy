/** The code of sys/mem/kmem.c over the block and page headers in memory:
    `size` and `pgnext` are the fields of block headers, `nallocs` that of page
    headers, by address. */
module KmemCode {
  import opened Lists
  import opened Page
  import opened PageRuns
  import opened PageCode
  import opened Kmem
  import opened KmemSteps
  import opened KmemRuns
  import K = Kmem
  import P = Page

  /** The block after block `i` of its page, or NULL. */
  function NextOf(blks: seq<Blk>, i: nat): int {
    if i + 1 < |blks| then blks[i + 1].addr else 0
  }

  predicate HeaderOk(size: map<int, int>, pgnext: map<int, int>, blks: seq<Blk>, i: nat)
    requires i < |blks|
  {
    var a := blks[i].addr;
    a in size && size[a] == blks[i].size && a in pgnext && pgnext[a] == NextOf(blks, i)
  }

  /** The headers of a page hold its chain. */
  ghost predicate ChainOk(size: map<int, int>, pgnext: map<int, int>, blks: seq<Blk>) {
    forall i :: 0 <= i < |blks| ==> HeaderOk(size, pgnext, blks, i)
  }

  ghost predicate Chains(size: map<int, int>, pgnext: map<int, int>, nallocs: map<int, int>, pages: map<int, KPage>) {
    forall pg :: pg in pages ==>
      ChainOk(size, pgnext, pages[pg].blks) && pg in nallocs && nallocs[pg] == pages[pg].nallocs
  }

  /** The page list head is not in a heap page. */
  ghost predicate HeadOutside(head: int, pages: map<int, KPage>) {
    forall pg :: pg in pages ==> !(pg <= head < pg + PAGE_SIZE)
  }

  lemma FindIs(f: FreeLists, i: nat, c: nat)
    requires i <= c <= NR_BLOCK_LIST && (c < NR_BLOCK_LIST ==> f[c] != [])
    requires forall j :: i <= j < c ==> f[j] == []
    ensures FindClass(f, i) == c
  {
  }

  /** The chain of one page does not depend on headers in other pages. */
  lemma ChainElsewhere(k: KState, pg: int, size: map<int, int>, pgnext: map<int, int>,
                       size': map<int, int>, pgnext': map<int, int>, at: int)
    requires Pages(k.pages, k.free, at, 1) && pg in k.pages && pg != at && ChainOk(size, pgnext, k.pages[pg].blks)
    requires forall a :: PageTop(a) != at ==> (a in size ==> a in size' && size'[a] == size[a])
    requires forall a :: PageTop(a) != at ==> (a in pgnext ==> a in pgnext' && pgnext'[a] == pgnext[a])
    ensures ChainOk(size', pgnext', k.pages[pg].blks)
  {
    var blks := k.pages[pg].blks;
    assert PageOk(pg, k.pages[pg], k.free, 0);
    hide PageTop, PageOk, IndexOf;
    forall i | 0 <= i < |blks| ensures HeaderOk(size', pgnext', blks, i) {
      assert HeaderOk(size, pgnext, blks, i);
      TopOf(pg, k.pages[pg], k.free, 0, i);
    }
  }

  /** Writing the header of the new block and shortening the old one splits it. */
  lemma ChainCut(size: map<int, int>, pgnext: map<int, int>, blks: seq<Blk>, from: int, to: int, i: nat, n: int)
    requires Tiles(blks, from, to) && i < |blks| && MIN_BLOCK_SIZE <= n <= blks[i].size - MIN_BLOCK_SIZE
    requires ChainOk(size, pgnext, blks) && blks[i].addr in pgnext
    ensures var (a, b) := (blks[i].addr, blks[i].addr + n);
      ChainOk(size[b := blks[i].size - n][a := n], pgnext[b := pgnext[a]][a := b], Cut(blks, i, n))
  {
    var (a, b) := (blks[i].addr, blks[i].addr + n);
    var r := Cut(blks, i, n);
    var size' := size[b := blks[i].size - n][a := n];
    var pgnext' := pgnext[b := pgnext[a]][a := b];
    CutElems(blks, i, n);
    CutTiles(blks, from, to, i, n);
    hide Tiles, Cut;
    forall j | 0 <= j < |r| ensures HeaderOk(size', pgnext', r, j) {
      assert HeaderOk(size, pgnext, blks, i);
      if j != i && j != i + 1 {
        assert HeaderOk(size, pgnext, blks, if j < i then j else j - 1);
        if j < i {
          TileOrder(r, from, to, j, i);
          TileOrder(r, from, to, j, i + 1);
        } else {
          TileOrder(r, from, to, i, j);
          TileOrder(r, from, to, i + 1, j);
        }
      }
    }
  }

  class Heap {
    const mem: PageList
    var nallocs: map<int, int>
    var size: map<int, int>
    var pgnext: map<int, int>
    var free: FreeLists
    ghost var pages: map<int, KPage>

    ghost function KS(): KState
      reads this`pages, this`free, mem
    {
      KState(mem.S(), pages, free)
    }

    ghost predicate Headers()
      reads this`size, this`pgnext, this`nallocs, this`pages
    {
      Chains(size, pgnext, nallocs, pages)
    }

    ghost predicate Valid()
      reads this, mem
    {
      mem.Valid() && Headers() && KInv(KS()) && HeadOutside(mem.head, pages)
    }

    /** kmem_init. */
    constructor (list: PageList)
      requires list.Valid() && !Free(list.blks, 0)
      ensures mem == list && Valid() && KS() == KState(list.S(), map[], seq(256, _ => []))
    {
      mem := list;
      nallocs, size, pgnext := map[], map[], map[];
      free := seq(256, _ => []);
      pages := map[];
    }

    /** block_find; the result 0 is NULL. */
    method BlockFind(n: int) returns (blk: int)
      requires 0 <= Ndx(n) < NR_BLOCK_LIST
      requires forall c :: 0 <= c < NR_BLOCK_LIST ==> 0 !in free[c]
      ensures var c := FindClass(free, Ndx(n)); blk == if c < NR_BLOCK_LIST then free[c][0] else 0
      ensures blk != 0 <==> FindClass(free, Ndx(n)) < NR_BLOCK_LIST
    {
      hide Ndx, FindClass;
      var i := Ndx(n);
      while i < NR_BLOCK_LIST
        invariant Ndx(n) <= i <= NR_BLOCK_LIST
        invariant forall j :: Ndx(n) <= j < i ==> free[j] == []
      {
        if free[i] != [] {
          break;
        }
        i := i + 1;
      }
      FindIs(free, Ndx(n), i);
      if i >= NR_BLOCK_LIST {
        return 0;
      }
      blk := free[i][0];
      assert blk in free[i];
    }

    /** The size of a block is in its header. */
    lemma SizeIs(blk: int)
      requires Headers() && HasBlock(pages, blk)
      ensures blk in size && size[blk] == BlockAt(pages, blk).size && blk in pgnext && BlockAt(pages, blk).addr == blk
      ensures PageTop(blk) in nallocs && nallocs[PageTop(blk)] == pages[PageTop(blk)].nallocs
    {
      var blks := pages[PageTop(blk)].blks;
      assert ChainOk(size, pgnext, blks);
      assert HeaderOk(size, pgnext, blks, IndexOf(blks, blk));
      hide PageTop;
    }

    /** The second half of the block becomes a block of its own, on its list. */
    method SplitHeaders(pg: int, blk: int, n: int)
      requires Headers() && HasBlock(pages, blk) && pg == PageTop(blk)
      requires Pages(pages, free, pg, 1) && MIN_BLOCK_SIZE <= n <= BlockAt(pages, blk).size - MIN_BLOCK_SIZE
      modifies this
      ensures Headers() && nallocs == old(nallocs) && pages.Keys == old(pages.Keys)
      ensures KS() == SplitBlock(old(KS()), pg, old(IndexOf(pages[pg].blks, blk)), n)
    {
      ghost var k := KS();
      ghost var i := IndexOf(pages[pg].blks, blk);
      SizeIs(blk);
      SplitIsCut(k, blk, n);
      BlockFacts(pages, free, pg, 1, blk);
      NdxRange(BlockAt(pages, blk).size - n);
      CutChains(k, size, pgnext, nallocs, blk, n);
      hide Pages, PageTop, IndexOf, Chains, SplitBlock, HasBlock, BlockAt, CutPage;
      var newblk := blk + n;
      size := size[newblk := size[blk] - n];
      var ndx := Ndx(size[newblk]);
      free := free[ndx := [newblk] + free[ndx]];
      pgnext := pgnext[newblk := pgnext[blk]];
      pgnext := pgnext[blk := newblk];
      size := size[blk := n];
      pages := CutPage(pages, pg, i, n);
    }

    /** A large enough block is split; its page counts one more. */
    method GrantBlock(pg: int, blk: int, n: int)
      requires Headers() && HasBlock(pages, blk) && pg == PageTop(blk)
      requires Pages(pages, free, pg, 1) && MIN_BLOCK_SIZE <= n <= BlockAt(pages, blk).size
      modifies this
      ensures Headers() && KS() == Grant(old(KS()), pg, blk, n) && pages.Keys == old(pages.Keys)
    {
      ghost var k := KS();
      SizeIs(blk);
      HasTop(pages, blk);
      GrantIs(k, pg, blk, n);
      SplitNone(k, pg, IndexOf(pages[pg].blks, blk), n);
      hide Chains, Pages, PageTop, Ndx, IndexOf, Grant, SplitBlock;
      if size[blk] - n >= MIN_BLOCK_SIZE {
        SplitHeaders(pg, blk, n);
      }
      CountChains(size, pgnext, nallocs, pages, pg);
      nallocs := nallocs[pg := nallocs[pg] + 1];
      pages := pages[pg := pages[pg].(nallocs := pages[pg].nallocs + 1)];
    }

    /** list_remove of a listed block. */
    method TakeListed(blk: int, ghost c: nat)
      requires KInv(KS()) && Headers() && c < NR_BLOCK_LIST && free[c] != [] && blk == free[c][0]
      modifies this`free
      ensures free == old(free[c := free[c][1..]])
      ensures HasBlock(pages, blk) && Pages(pages, free, PageTop(blk), 1)
      ensures Ndx(BlockAt(pages, blk).size) == c
    {
      TakeFirst(pages, free, c);
      SizeIs(blk);
      assert NoDup(free[c]);
      hide Pages, Ndx, PageTop, Classes, Chains;
      var ndx := Ndx(size[blk]);
      free := free[ndx := Remove(free[ndx], blk)];
    }

    /** A page fresh from page_alloc gets its header and first block. */
    method StartPage(pg: int)
      requires Headers() && pg !in pages && Aligned(pg) && KInvPages(pages, free)
      modifies this
      ensures Headers() && free == old(free)
      ensures pages == old(pages)[pg := KPage(0, [Blk(pg + FIRST_BLK, MAX_BLOCK_SIZE)])]
    {
      FirstTop(pg);
      StartChains(pages, free, size, pgnext, nallocs, pg);
      hide Chains;
      nallocs := nallocs[pg := 0];
      var blk := pg + FIRST_BLK;
      size := size[blk := MAX_BLOCK_SIZE];
      pgnext := pgnext[blk := 0];
      pages := pages[pg := KPage(0, [Blk(blk, MAX_BLOCK_SIZE)])];
    }

    method KmemAlloc(n: int) returns (res: KResult)
      requires Valid() && 0 < n <= WORD - 32 && Headed(free, pages)
      modifies this, mem
      ensures Valid() && (KS(), res) == K.KmemAlloc(old(KS()), n)
    {
      hide KInv, Headers, Headed, HeadOutside, AllocSize, Ndx, Live, LiveBut, Exhausted, HandedOut, Managed, PageTop, HasBlock;
      ghost var k := KS();
      KmemAllocOk(k, n);
      AllocSizeFacts(n);
      NoNull(k);
      var sz := AllocSize(n);
      if sz > MAX_ALLOC_SIZE {
        return Panic;
      }
      var blk := BlockFind(sz);
      if blk != 0 {
        AllocFromList(n, blk);
      } else {
        blk := AllocFromPage(n);
        if blk == 0 {
          return Null;
        }
      }
      return Ptr(blk + BLKHDR_SIZE);
    }

    /** The block found is taken off its list and handed out. */
    method AllocFromList(n: int, blk: int)
      requires Valid() && 0 < n <= 4048 && Headed(free, pages)
      requires 0 <= Ndx(AllocSize(n)) < NR_BLOCK_LIST
      requires var c := FindClass(free, Ndx(AllocSize(n))); c < NR_BLOCK_LIST && blk == free[c][0]
      modifies this
      ensures Valid() && (KS(), Ptr(blk + BLKHDR_SIZE)) == K.KmemAlloc(old(KS()), n)
    {
      hide Headers, Headed, HeadOutside, AllocSize, Ndx, PageTop, FindClass, Grant;
      ghost var k := KS();
      ghost var c := FindClass(free, Ndx(AllocSize(n)));
      AllocSizeFacts(n);
      KmemAllocOk(k, n);
      AllocListedIs(k, n, c);
      hide KInv, K.KmemAlloc, Live, Exhausted, Managed;
      TakeListed(blk, c);
      GrantBlock(PageTop(blk), blk, AllocSize(n));
      SameKeys(mem.head, k.pages, pages);
    }

    /** A new page is taken; its first block is handed out. The result 0 is failure. */
    method AllocFromPage(n: int) returns (blk: int)
      requires Valid() && 0 < n <= 4048 && Headed(free, pages)
      requires 0 <= Ndx(AllocSize(n)) < NR_BLOCK_LIST && FindClass(free, Ndx(AllocSize(n))) == NR_BLOCK_LIST
      modifies this, mem
      ensures Valid()
      ensures (KS(), if blk == 0 then Null else Ptr(blk + BLKHDR_SIZE)) == K.KmemAlloc(old(KS()), n)
    {
      hide Headers, Headed, HeadOutside, AllocSize, Ndx, PageTop, FindClass, Grant, KInv, K.KmemAlloc, Live, Exhausted,
        Managed, P.PageAlloc, RoundPage, Canon, Free;
      ghost var k := KS();
      AllocSizeFacts(n);
      KmemAllocOk(k, n);
      KInvParts(k);
      FreshPage(k, mem.head, n);
      var pa := mem.PageAlloc(PAGE_SIZE);
      if pa == 0 {
        return 0;
      }
      StartPage(pa);
      ghost var started := pages;
      blk := pa + FIRST_BLK;
      GrantBlock(pa, blk, AllocSize(n));
      SameKeys(mem.head, started, pages);
    }

    /** The loop that unlinks all blocks of an unused page. */
    method UnlinkBlocks(pg: int)
      requires Headers() && pg in pages && Pages(pages, free, 0, 0) && Classes(free, pages)
      modifies this`free
      ensures free == UnlistAll(old(free), pages[pg].blks)
    {
      ghost var blks := pages[pg].blks;
      ghost var i := 0;
      ghost var f0 := free;
      PageChain(pages, free, size, pgnext, nallocs, pg);
      hide Chains, Pages, Classes, Ndx, UnlistAll, Tiles;
      var blk := pg + FIRST_BLK;
      assert blks[i..] == blks;
      while blk != 0
        invariant 0 <= i <= |blks| && blk == if i < |blks| then blks[i].addr else 0
        invariant UnlistAll(f0, blks) == UnlistAll(free, blks[i..])
        decreases |blks| - i
      {
        assert HeaderOk(size, pgnext, blks, i);
        UnlistStep(free, blks[i..]);
        assert blks[i..][1..] == blks[i + 1..];
        var ndx := Ndx(size[blk]);
        free := free[ndx := Remove(free[ndx], blk)];
        blk := pgnext[blk];
        i := i + 1;
      }
      assert blks[i..] == [];
      UnlistEnd(free);
    }

    method KmemFree(ptr: int)
      requires Valid() && Live(KS(), ptr - BLKHDR_SIZE)
      modifies this, mem
      ensures Valid() && KS() == K.KmemFree(old(KS()), ptr)
    {
      hide KInv, Chains, PageTop, Ndx, Live, LiveBut, HeadOutside, OnList, Pages, Classes, K.KmemFree, HasBlock, BlockAt, Backed;
      ghost var k := KS();
      var blk := ptr - BLKHDR_SIZE;
      FreeParts(k, ptr);
      SizeIs(blk);
      var ndx := Ndx(size[blk]);
      free := free[ndx := [blk] + free[ndx]];
      var pg := PageTop(blk);
      CountChains(size, pgnext, nallocs, pages, pg);
      nallocs := nallocs[pg := nallocs[pg] - 1];
      pages := pages[pg := pages[pg].(nallocs := pages[pg].nallocs - 1)];
      SameKeys(mem.head, k.pages, pages);
      assert KS() == Relisted(k, blk);
      if nallocs[pg] == 0 {
        ReleasePage(k, ptr, pg);
      }
    }

    /** No block of the page is in use: its blocks are unlinked, then it is freed. */
    method ReleasePage(ghost k: KState, ptr: int, pg: int)
      requires KInv(k) && Live(k, ptr - BLKHDR_SIZE) && pg == PageTop(ptr - BLKHDR_SIZE)
      requires HasBlock(k.pages, ptr - BLKHDR_SIZE) && KS() == Relisted(k, ptr - BLKHDR_SIZE)
      requires pg in pages && k.pages[pg].nallocs == 1
      requires mem.Valid() && Headers() && HeadOutside(mem.head, pages)
      requires Pages(pages, free, 0, 0) && Classes(free, pages) && Backed(mem.S(), pages)
      modifies this, mem
      ensures Valid() && KS() == K.KmemFree(k, ptr)
    {
      hide KInv, Chains, PageTop, Ndx, Live, Last, LiveBut, Managed, HeadOutside, Relisted, Pages, Classes, K.KmemFree,
        UnlistAll, HasBlock, Backed, RoundPage, P.PageFree, Whole, NoneFree;
      KmemFreeOk(k, ptr);
      FreeIsRelist(k, ptr);
      FreeablePage(mem.S(), pages, free, pg, mem.head);
      DropChains(size, pgnext, nallocs, pages, mem.head, pg);
      UnlinkBlocks(pg);
      mem.PageFree(pg, PAGE_SIZE);
      pages := pages - {pg};
    }
  }

  /** What kmem_free relies on, and its two outcomes. */
  lemma FreeParts(k: KState, ptr: int)
    requires KInv(k) && Live(k, ptr - BLKHDR_SIZE)
    ensures var a := ptr - BLKHDR_SIZE;
      && HasBlock(k.pages, a) && PageTop(a) in k.pages
      && 0 <= Ndx(BlockAt(k.pages, a).size) < NR_BLOCK_LIST
      && var m := Relisted(k, a);
        && Pages(m.pages, m.free, 0, 0) && Classes(m.free, m.pages) && Backed(m.p, m.pages)
        && KInv(K.KmemFree(k, ptr)) && (k.pages[PageTop(a)].nallocs != 1 ==> K.KmemFree(k, ptr) == m)
  {
    hide Pages, Classes, PageTop, Ndx, Live, LiveBut, Last, Managed, OnList, HasBlock, BlockAt, K.KmemFree;
    var a := ptr - BLKHDR_SIZE;
    KmemFreeOk(k, ptr);
    LiveHas(k, a);
    FreeIsRelist(k, ptr);
    HasTop(k.pages, a);
    BlockFacts(k.pages, k.free, 0, 0, a);
    RelistedPages(k, a);
    RelistedClasses(k, a);
  }

  ghost predicate KInvPages(pages: map<int, KPage>, f: FreeLists) {
    Pages(pages, f, 0, 0)
  }

  lemma SplitNone(k: KState, pg: int, i: nat, n: int)
    requires pg in k.pages && i < |k.pages[pg].blks|
    ensures k.pages[pg].blks[i].size - n < MIN_BLOCK_SIZE ==> SplitBlock(k, pg, i, n) == k
  {
  }

  lemma CutChains(k: KState, size: map<int, int>, pgnext: map<int, int>, nallocs: map<int, int>, blk: int, n: int)
    requires Chains(size, pgnext, nallocs, k.pages) && HasBlock(k.pages, blk) && blk in pgnext
    requires Pages(k.pages, k.free, PageTop(blk), 1)
    requires MIN_BLOCK_SIZE <= n <= BlockAt(k.pages, blk).size - MIN_BLOCK_SIZE
    ensures var (a, b, m) := (blk, blk + n, BlockAt(k.pages, blk).size);
      var i := IndexOf(k.pages[PageTop(blk)].blks, blk);
      Chains(size[b := m - n][a := n], pgnext[b := pgnext[a]][a := b], nallocs, CutPage(k.pages, PageTop(blk), i, n))
  {
    var pg := PageTop(blk);
    var blks := k.pages[pg].blks;
    var i := IndexOf(blks, blk);
    var (a, b, m) := (blk, blk + n, BlockAt(k.pages, blk).size);
    var size' := size[b := m - n][a := n];
    var pgnext' := pgnext[b := pgnext[a]][a := b];
    assert PageOk(pg, k.pages[pg], k.free, 1);
    BlockFacts(k.pages, k.free, pg, 1, blk);
    InPage(pg, a, b);
    hide PageTop, Pages, ChainOk, IndexOf, Tiles, Used, Cut;
    ChainCut(size, pgnext, blks, pg + FIRST_BLK, pg + PAGE_SIZE, i, n);
    forall p | p in k.pages && p != pg ensures ChainOk(size', pgnext', k.pages[p].blks) {
      ChainElsewhere(k, p, size, pgnext, size', pgnext', pg);
    }
  }

  lemma CountChains(size: map<int, int>, pgnext: map<int, int>, nallocs: map<int, int>, pages: map<int, KPage>, pg: int)
    requires Chains(size, pgnext, nallocs, pages) && pg in pages
    ensures pg in nallocs && forall n :: Chains(size, pgnext, nallocs[pg := n], pages[pg := pages[pg].(nallocs := n)])
    ensures nallocs[pg] == pages[pg].nallocs
  {
    hide ChainOk;
  }

  lemma StartChains(pages: map<int, KPage>, f: FreeLists, size: map<int, int>, pgnext: map<int, int>,
                    nallocs: map<int, int>, pg: int)
    requires Chains(size, pgnext, nallocs, pages) && pg !in pages && Pages(pages, f, 0, 0)
    requires PageTop(pg + FIRST_BLK) == pg
    ensures var a := pg + FIRST_BLK;
      Chains(size[a := MAX_BLOCK_SIZE], pgnext[a := 0], nallocs[pg := 0],
        pages[pg := KPage(0, [Blk(a, MAX_BLOCK_SIZE)])])
  {
    var a := pg + FIRST_BLK;
    var (size', pgnext') := (size[a := MAX_BLOCK_SIZE], pgnext[a := 0]);
    hide PageTop, IndexOf, PageOk;
    forall p | p in pages ensures ChainOk(size', pgnext', pages[p].blks) {
      assert PageOk(p, pages[p], f, 0);
      forall i | 0 <= i < |pages[p].blks| ensures HeaderOk(size', pgnext', pages[p].blks, i) {
        assert HeaderOk(size, pgnext, pages[p].blks, i);
        TopOf(p, pages[p], f, 0, i);
      }
    }
  }

  /** No list holds the NULL pointer. */
  lemma NoNull(k: KState)
    requires KInv(k)
    ensures forall c :: 0 <= c < NR_BLOCK_LIST ==> 0 !in k.free[c]
  {
    hide Backed, Busy, PageTop, Ndx;
    forall c | 0 <= c < NR_BLOCK_LIST ensures 0 !in k.free[c] {
      if 0 in k.free[c] {
        ListedBlock(k.pages, k.free, c, 0);
        BlockFacts(k.pages, k.free, 0, 0, 0);
      }
    }
  }

  lemma SameKeys(head: int, a: map<int, KPage>, b: map<int, KPage>)
    requires HeadOutside(head, a) && b.Keys == a.Keys
    ensures HeadOutside(head, b)
  {
  }

  lemma AllocListedIs(k: KState, n: int, c: nat)
    requires 0 < n <= 4048 && Headed(k.free, k.pages) && AllocSize(n) <= MAX_ALLOC_SIZE
    requires 0 <= Ndx(AllocSize(n)) < NR_BLOCK_LIST && c == FindClass(k.free, Ndx(AllocSize(n))) < NR_BLOCK_LIST
    ensures HasBlock(k.pages, k.free[c][0])
    ensures var a := k.free[c][0];
      K.KmemAlloc(k, n) ==
        (Grant(k.(free := k.free[c := k.free[c][1..]]), PageTop(a), a, AllocSize(n)), Ptr(a + BLKHDR_SIZE))
  {
    hide AllocSize, Ndx, FindClass, Grant, IndexOf, PageTop;
  }

  /** What a page from page_alloc is to the heap. */
  lemma FreshPage(k: KState, head: int, n: int)
    requires KInv(k) && 0 < n <= 4048 && Headed(k.free, k.pages) && !Free(k.p.free, head) && HeadOutside(head, k.pages)
    requires 0 <= Ndx(AllocSize(n)) < NR_BLOCK_LIST && FindClass(k.free, Ndx(AllocSize(n))) == NR_BLOCK_LIST
    ensures var (p, pa) := P.PageAlloc(k.p, PAGE_SIZE);
      && (pa == 0 ==> K.KmemAlloc(k, n) == (k.(p := p), Null))
      && (pa != 0 ==>
            && var m := NewPage(k, pa, p); var a := pa + FIRST_BLK;
            && Aligned(pa) && pa !in k.pages && PageTop(a) == pa && HasBlock(m.pages, a)
            && Pages(m.pages, m.free, pa, 1) && BlockAt(m.pages, a).size == MAX_BLOCK_SIZE
            && HeadOutside(head, m.pages) && Pages(k.pages, k.free, 0, 0)
            && K.KmemAlloc(k, n) == (Grant(m, pa, a, AllocSize(n)), Ptr(a + BLKHDR_SIZE)))
  {
    hide AllocSize, Ndx, FindClass, Grant, IndexOf, PageTop, P.PageAlloc, K.KmemAlloc, Free, Canon, RoundPage, Headed;
    var (p, pa) := P.PageAlloc(k.p, PAGE_SIZE);
    AllocSizeFacts(n);
    OnePage();
    PageAllocMeans(k.p, PAGE_SIZE);
    if exists b :: AllFree(k.p.free, b, PAGE_SIZE) {
      PageNotZero(k.p, pa);
      NewPageOk(k, pa, p);
      assert HeadOutside(head, NewPage(k, pa, p).pages);
      HasTop(NewPage(k, pa, p).pages, pa + FIRST_BLK);
    }
    hide AllFree, Pages, Classes, NewPage, Whole, HasBlock, BlockAt, HeadOutside;
    AllocFreshIs(k, n);
  }

  lemma UnlistStep(f: FreeLists, blks: seq<Blk>)
    requires blks != [] && 0 <= Ndx(blks[0].size) < NR_BLOCK_LIST
    ensures var c := Ndx(blks[0].size);
      UnlistAll(f, blks) == UnlistAll(f[c := Remove(f[c], blks[0].addr)], blks[1..])
  {
    hide Ndx, Remove;
  }

  lemma UnlistEnd(f: FreeLists)
    ensures UnlistAll(f, []) == f
  {
  }

  /** Walking the chain of a page from its header. */
  lemma PageChain(pages: map<int, KPage>, f: FreeLists, size: map<int, int>, pgnext: map<int, int>,
                  nallocs: map<int, int>, pg: int)
    requires Chains(size, pgnext, nallocs, pages) && Pages(pages, f, 0, 0) && pg in pages
    ensures var blks := pages[pg].blks;
      && blks != [] && blks[0].addr == pg + FIRST_BLK
      && ChainOk(size, pgnext, blks)
      && (forall i :: 0 <= i < |blks| ==> blks[i].addr != 0 && 0 <= Ndx(blks[i].size) < NR_BLOCK_LIST)
  {
    var blks := pages[pg].blks;
    assert PageOk(pg, pages[pg], f, 0);
    hide ChainOk, Used, IndexOf;
    forall i | 0 <= i < |blks| ensures blks[i].addr != 0 && 0 <= Ndx(blks[i].size) < NR_BLOCK_LIST {
      TopOf(pg, pages[pg], f, 0, i);
      TileBounds(blks, pg + FIRST_BLK, pg + PAGE_SIZE, i);
    }
  }

  lemma FreeablePage(p: PState, pages: map<int, KPage>, f: FreeLists, pg: int, head: int)
    requires Backed(p, pages) && Pages(pages, f, 0, 0) && pg in pages && HeadOutside(head, pages)
    ensures RoundPage(PAGE_SIZE) == PAGE_SIZE && Whole(Blk(pg, PAGE_SIZE))
    ensures NoneFree(p.free, pg, PAGE_SIZE) && !Holds(Blk(pg, PAGE_SIZE), head)
  {
    OnePage();
    hide Free, Tiles, Used, RoundPage;
    assert PageOk(pg, pages[pg], f, 0);
    WholePage(pg);
  }

  lemma DropChains(size: map<int, int>, pgnext: map<int, int>, nallocs: map<int, int>, pages: map<int, KPage>,
                   head: int, pg: int)
    requires Chains(size, pgnext, nallocs, pages) && HeadOutside(head, pages)
    ensures Chains(size, pgnext, nallocs, pages - {pg}) && HeadOutside(head, pages - {pg})
  {
    hide ChainOk;
  }
}
