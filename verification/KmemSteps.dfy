/** kmem_alloc and kmem_free keep the heap invariant, and what they do to the
    allocated blocks and to the memory the heap and the page allocator share. */
module KmemSteps {
  import opened Lists
  import opened Page
  import opened Kmem

  // ----- Lists -----

  /** The two sets of lists agree but for the block at `a`. */
  ghost predicate SameBut(f: FreeLists, g: FreeLists, a: int) {
    forall b: Blk :: b.addr != a ==> (OnList(f, b) <==> OnList(g, b))
  }

  lemma PushLists(f: FreeLists, c: int, a: int)
    requires 0 <= c < NR_BLOCK_LIST
    ensures SameBut(f, Push(f, c, a), a)
    ensures forall b: Blk :: b.addr == a && Ndx(b.size) == c ==> OnList(Push(f, c, a), b)
    ensures forall x, d :: 0 <= d < NR_BLOCK_LIST ==> (x in Push(f, c, a)[d] <==> x in f[d] || (d == c && x == a))
  {
    hide Ndx;
  }

  lemma UnlistLists(f: FreeLists, c: int, a: int)
    requires 0 <= c < NR_BLOCK_LIST && forall d :: 0 <= d < NR_BLOCK_LIST ==> NoDup(f[d])
    ensures forall d :: 0 <= d < NR_BLOCK_LIST ==> NoDup(Unlist(f, c, a)[d])
    ensures forall x, d :: 0 <= d < NR_BLOCK_LIST ==> (x in Unlist(f, c, a)[d] <==> x in f[d] && !(d == c && x == a))
  {
    RemoveFacts(f[c], a);
    hide NoDup, Remove;
  }

  lemma UnlistSame(f: FreeLists, g: FreeLists, c: int, a: int)
    requires forall x, d :: 0 <= d < NR_BLOCK_LIST ==> (x in g[d] <==> x in f[d] && !(d == c && x == a))
    ensures SameBut(f, g, a)
    ensures forall b: Blk :: b.addr == a && Ndx(b.size) == c ==> !OnList(g, b)
  {
    hide Ndx;
  }

  // ----- Pages -----

  lemma TopOf(pg: int, page: KPage, f: FreeLists, d: int, i: nat)
    requires PageOk(pg, page, f, d) && i < |page.blks|
    ensures PageTop(page.blks[i].addr) == pg && PageTop(page.blks[i].End() - 1) == pg
    ensures IndexOf(page.blks, page.blks[i].addr) == i
    ensures MIN_BLOCK_SIZE <= page.blks[i].size <= MAX_BLOCK_SIZE && 0 <= Ndx(page.blks[i].size) < NR_BLOCK_LIST
  {
    TileBounds(page.blks, pg + FIRST_BLK, pg + PAGE_SIZE, i);
    FoundAt(page.blks, pg + FIRST_BLK, pg + PAGE_SIZE, i);
    hide Tiles, Used, IndexOf;
  }

  /** A page that does not hold the changed block is as before. */
  lemma PageElsewhere(pg: int, page: KPage, f: FreeLists, g: FreeLists, d: int, a: int)
    requires PageOk(pg, page, f, d) && SameBut(f, g, a) && PageTop(a) != pg
    ensures PageOk(pg, page, g, d)
  {
    hide PageTop, OnList;
    forall i | 0 <= i < |page.blks| ensures OnList(f, page.blks[i]) <==> OnList(g, page.blks[i]) {
      TopOf(pg, page, f, d, i);
    }
    hide SameBut;
    UsedFrame(page.blks, f, g);
  }

  /** One block of the page leaves its list. */
  lemma UsedFlip(blks: seq<Blk>, from: int, to: int, i: nat, f: FreeLists, g: FreeLists)
    requires Tiles(blks, from, to) && i < |blks|
    requires SameBut(f, g, blks[i].addr) && OnList(f, blks[i]) && !OnList(g, blks[i])
    ensures Used(blks, g) == Used(blks, f) + 1
  {
    TileAround(blks, from, to, i);
    var (h, b, t) := (blks[..i], blks[i], blks[i + 1..]);
    forall j | 0 <= j < |h| ensures h[j].addr != b.addr {
      TileOrder(blks, from, to, j, i);
    }
    forall j | 0 <= j < |t| ensures t[j].addr != b.addr {
      TileOrder(blks, from, to, i, i + 1 + j);
    }
    hide OnList, Tiles;
    UsedFrame(h, f, g);
    UsedFrame(t, f, g);
    UsedAppend(h, [b] + t, f);
    UsedAppend(h, [b] + t, g);
    UsedAppend([b], t, f);
    UsedAppend([b], t, g);
    assert Used([b], f) == 0 && Used([b], g) == 1;
  }

  /** A block of a page in order. */
  lemma BlockFacts(pages: map<int, KPage>, f: FreeLists, hot: int, d: int, a: int)
    requires Pages(pages, f, hot, d) && HasBlock(pages, a)
    ensures var (b, pg) := (BlockAt(pages, a), PageTop(a));
      && b.addr == a && MIN_BLOCK_SIZE <= b.size <= MAX_BLOCK_SIZE && 0 <= Ndx(b.size) < NR_BLOCK_LIST
      && pg + FIRST_BLK <= a && b.End() <= pg + PAGE_SIZE && 0 < pg && pg + PAGE_SIZE < WORD
  {
    var (pg, i) := (PageTop(a), IndexOf(pages[PageTop(a)].blks, a));
    TopOf(pg, pages[pg], f, if pg == hot then d else 0, i);
    TileBounds(pages[pg].blks, pg + FIRST_BLK, pg + PAGE_SIZE, i);
    hide Tiles, Used, IndexOf, Ndx, PageTop;
  }

  /** After one listed block has left its list, its page counts one too few. */
  lemma LeavesList(pages: map<int, KPage>, f: FreeLists, g: FreeLists, a: int)
    requires Pages(pages, f, 0, 0) && HasBlock(pages, a) && SameBut(f, g, a)
    requires OnList(f, BlockAt(pages, a)) && !OnList(g, BlockAt(pages, a))
    ensures Pages(pages, g, PageTop(a), 1)
  {
    var pg := PageTop(a);
    var blks := pages[pg].blks;
    assert PageOk(pg, pages[pg], f, 0);
    hide PageTop, OnList, SameBut;
    UsedFlip(blks, pg + FIRST_BLK, pg + PAGE_SIZE, IndexOf(blks, a), f, g);
    hide Tiles, Used, IndexOf;
    forall p | p in pages && p != pg ensures PageOk(p, pages[p], g, 0) {
      hide Aligned;
      assert PageOk(p, pages[p], f, 0);
      hide PageOk;
      PageElsewhere(p, pages[p], f, g, 0, a);
    }
  }

  /** After an allocated block has been listed, its page counts one too many. */
  lemma JoinsList(pages: map<int, KPage>, f: FreeLists, g: FreeLists, a: int)
    requires Pages(pages, f, 0, 0) && HasBlock(pages, a) && SameBut(f, g, a)
    requires !OnList(f, BlockAt(pages, a)) && OnList(g, BlockAt(pages, a))
    ensures Pages(pages, g, PageTop(a), -1)
  {
    var pg := PageTop(a);
    var blks := pages[pg].blks;
    assert PageOk(pg, pages[pg], f, 0);
    assert SameBut(g, f, a);
    hide PageTop, OnList, SameBut;
    UsedFlip(blks, pg + FIRST_BLK, pg + PAGE_SIZE, IndexOf(blks, a), g, f);
    hide Tiles, Used, IndexOf;
    forall p | p in pages && p != pg ensures PageOk(p, pages[p], g, 0) {
      hide Aligned;
      assert PageOk(p, pages[p], f, 0);
      hide PageOk;
      PageElsewhere(p, pages[p], f, g, 0, a);
    }
  }

  // ----- Allocation from a free list -----

  lemma ListedBlock(pages: map<int, KPage>, f: FreeLists, c: int, a: int)
    requires Classes(f, pages) && 0 <= c < NR_BLOCK_LIST && a in f[c]
    ensures HasBlock(pages, a) && Ndx(BlockAt(pages, a).size) == c && BlockAt(pages, a).addr == a
    ensures OnList(f, BlockAt(pages, a))
  {
    assert Listed(pages, a, c);
    hide Ndx, PageTop, NoDup;
  }

  /** A block that is not on its own list is on none. */
  lemma OnNoList(pages: map<int, KPage>, f: FreeLists, a: int)
    requires Classes(f, pages) && HasBlock(pages, a) && !OnList(f, BlockAt(pages, a))
    ensures forall d :: 0 <= d < NR_BLOCK_LIST ==> a !in f[d]
  {
    forall d | 0 <= d < NR_BLOCK_LIST ensures a !in f[d] {
      if a in f[d] {
        ListedBlock(pages, f, d, a);
      }
    }
  }

  lemma TakeFirst(pages: map<int, KPage>, f: FreeLists, c: int)
    requires Pages(pages, f, 0, 0) && Classes(f, pages) && 0 <= c < NR_BLOCK_LIST && f[c] != []
    ensures var (a, g) := (f[c][0], f[c := f[c][1..]]);
      && HasBlock(pages, a) && Ndx(BlockAt(pages, a).size) == c && !OnList(g, BlockAt(pages, a))
      && OnList(f, BlockAt(pages, a)) && SameBut(f, g, a)
      && Pages(pages, g, PageTop(a), 1) && Classes(g, pages)
  {
    var (a, g) := (f[c][0], f[c := f[c][1..]]);
    assert a in f[c] && NoDup(f[c]);
    ListedBlock(pages, f, c, a);
    assert g == Unlist(f, c, a);
    UnlistLists(f, c, a);
    UnlistSame(f, g, c, a);
    hide OnList, SameBut, Pages, HasBlock, BlockAt, Ndx, Unlist, PageTop, NoDup, Listed;
    LeavesList(pages, f, g, a);
    BlockFacts(pages, f, 0, 0, a);
  }

  // ----- Splitting -----

  /** The chain with block `i` split at `size`. */
  function Cut(blks: seq<Blk>, i: nat, size: int): seq<Blk>
    requires i < |blks|
  {
    var b := blks[i];
    blks[..i] + [Blk(b.addr, size), Blk(b.addr + size, b.size - size)] + blks[i + 1..]
  }

  lemma CutElems(blks: seq<Blk>, i: nat, size: int)
    requires i < |blks|
    ensures var r := Cut(blks, i, size);
      && |r| == |blks| + 1 && r[i] == Blk(blks[i].addr, size) && r[i + 1] == Blk(blks[i].addr + size, blks[i].size - size)
      && (forall j :: 0 <= j < i ==> r[j] == blks[j])
      && (forall j :: i + 1 < j < |r| ==> r[j] == blks[j - 1])
  {
  }

  lemma CutTiles(blks: seq<Blk>, from: int, to: int, i: nat, size: int)
    requires Tiles(blks, from, to) && i < |blks| && MIN_BLOCK_SIZE <= size <= blks[i].size - MIN_BLOCK_SIZE
    ensures Tiles(Cut(blks, i, size), from, to)
  {
    var (h, b, t) := (blks[..i], blks[i], blks[i + 1..]);
    var m := [Blk(b.addr, size), Blk(b.addr + size, b.size - size)];
    TileAround(blks, from, to, i);
    assert Cut(blks, i, size) == h + (m + t);
    assert m[1..] == [m[1]] && m[1..][1..] == [];
    TileAppend(m, t, b.addr, b.End(), to);
    TileAppend(h, m + t, from, b.addr, to);
  }

  /** What the blocks of a page are after the split, by address. */
  lemma CutLookup(blks: seq<Blk>, from: int, to: int, i: nat, size: int, x: int)
    requires Tiles(blks, from, to) && i < |blks| && MIN_BLOCK_SIZE <= size <= blks[i].size - MIN_BLOCK_SIZE
    ensures var (r, j) := (Cut(blks, i, size), IndexOf(blks, x));
      var k := IndexOf(r, x);
      && (j < |blks| && j != i ==> k < |r| && r[k] == blks[j])
      && (j == i ==> k == i && r[k] == Blk(x, size))
      && (x == blks[i].addr + size ==> j == |blks| && k < |r| && r[k] == Blk(x, blks[i].size - size))
      && (k < |r| && x != blks[i].addr + size ==> j < |blks|)
  {
    var r := Cut(blks, i, size);
    CutElems(blks, i, size);
    CutTiles(blks, from, to, i, size);
    hide Cut, Tiles;
    var j := IndexOf(blks, x);
    if j < |blks| {
      var n := if j <= i then j else j + 1;
      FoundAt(r, from, to, n);
      if j != i {
        BetweenBlocks(blks, from, to, i, j);
      }
    }
    FoundAt(r, from, to, i + 1);
    var k := IndexOf(r, x);
    if k < |r| && k != i + 1 {
      var n := if k <= i then k else k - 1;
      assert blks[n].addr == x;
      FoundAt(blks, from, to, n);
    }
  }

  lemma BetweenBlocks(blks: seq<Blk>, from: int, to: int, i: nat, j: nat)
    requires Tiles(blks, from, to) && i < |blks| && j < |blks| && j != i
    ensures blks[j].addr < blks[i].addr || blks[j].addr >= blks[i].End()
  {
    if j < i {
      TileOrder(blks, from, to, j, i);
    } else {
      TileOrder(blks, from, to, i, j);
    }
  }

  lemma CutUsed(blks: seq<Blk>, from: int, to: int, i: nat, size: int, f: FreeLists, g: FreeLists)
    requires Tiles(blks, from, to) && i < |blks| && MIN_BLOCK_SIZE <= size <= blks[i].size - MIN_BLOCK_SIZE
    requires !OnList(f, blks[i]) && !OnList(g, Blk(blks[i].addr, size))
    requires OnList(g, Blk(blks[i].addr + size, blks[i].size - size)) && SameBut(f, g, blks[i].addr + size)
    ensures Used(Cut(blks, i, size), g) == Used(blks, f)
  {
    var (h, b, t) := (blks[..i], blks[i], blks[i + 1..]);
    var (u, v) := (Blk(b.addr, size), Blk(b.addr + size, b.size - size));
    TileAround(blks, from, to, i);
    forall j | 0 <= j < |h| ensures h[j].addr != v.addr {
      TileOrder(blks, from, to, j, i);
    }
    forall j | 0 <= j < |t| ensures t[j].addr != v.addr {
      TileOrder(blks, from, to, i, i + 1 + j);
      TileBounds(blks, from, to, i + 1 + j);
    }
    hide OnList, Tiles;
    UsedFrame(h, f, g);
    UsedFrame(t, f, g);
    assert Cut(blks, i, size) == h + ([u, v] + t);
    UsedAppend(h, [b] + t, f);
    UsedAppend([b], t, f);
    UsedAppend(h, [u, v] + t, g);
    UsedAppend([u, v], t, g);
    assert [u, v][1..] == [v];
    assert Used([u, v], g) == 1 && Used([b], f) == 1;
  }

  /** The pages after a split. */
  function CutPage(pages: map<int, KPage>, pg: int, i: nat, size: int): map<int, KPage>
    requires pg in pages && i < |pages[pg].blks|
  {
    pages[pg := pages[pg].(blks := Cut(pages[pg].blks, i, size))]
  }

  /** `b` is the block that is handed out; a split lists the rest of it. */
  ghost predicate SplitReady(pages: map<int, KPage>, f: FreeLists, a: int, size: int) {
    && Pages(pages, f, PageTop(a), 1) && Classes(f, pages)
    && HasBlock(pages, a) && !OnList(f, BlockAt(pages, a))
    && MIN_BLOCK_SIZE <= size <= BlockAt(pages, a).size - MIN_BLOCK_SIZE
  }

  lemma CutEnds(pages: map<int, KPage>, f: FreeLists, a: int, size: int)
    requires SplitReady(pages, f, a, size)
    ensures PageTop(a + size) == PageTop(a)
    ensures var pages' := CutPage(pages, PageTop(a), IndexOf(pages[PageTop(a)].blks, a), size);
      && HasBlock(pages', a) && BlockAt(pages', a) == Blk(a, size)
      && !HasBlock(pages, a + size)
      && HasBlock(pages', a + size) && BlockAt(pages', a + size) == Blk(a + size, BlockAt(pages, a).size - size)
  {
    var pg := PageTop(a);
    BlockFacts(pages, f, pg, 1, a);
    InPage(pg, a, a + size);
    assert PageOk(pg, pages[pg], f, 1);
    hide Pages, Tiles, PageTop, Cut, IndexOf, OnList, Classes, Ndx, Used;
    var blks := pages[pg].blks;
    var i := IndexOf(blks, a);
    CutLookup(blks, pg + FIRST_BLK, pg + PAGE_SIZE, i, size, a);
    CutLookup(blks, pg + FIRST_BLK, pg + PAGE_SIZE, i, size, a + size);
  }

  lemma CutOther(pages: map<int, KPage>, f: FreeLists, a: int, size: int, x: int)
    requires SplitReady(pages, f, a, size) && x != a && x != a + size
    ensures var pages' := CutPage(pages, PageTop(a), IndexOf(pages[PageTop(a)].blks, a), size);
      && (HasBlock(pages', x) <==> HasBlock(pages, x))
      && (HasBlock(pages, x) ==> BlockAt(pages', x) == BlockAt(pages, x))
  {
    var pg := PageTop(a);
    assert PageOk(pg, pages[pg], f, 1);
    hide Pages, Tiles, PageTop, Cut, OnList, Classes, Ndx, Used, IndexOf;
    var blks := pages[pg].blks;
    var i := IndexOf(blks, a);
    if PageTop(x) == pg {
      assert IndexOf(blks, x) < |blks| ==> blks[IndexOf(blks, x)].addr == x;
      CutLookup(blks, pg + FIRST_BLK, pg + PAGE_SIZE, i, size, x);
    }
  }

  lemma CutBlocks(pages: map<int, KPage>, f: FreeLists, a: int, size: int, x: int)
    requires SplitReady(pages, f, a, size)
    ensures var pages' := CutPage(pages, PageTop(a), IndexOf(pages[PageTop(a)].blks, a), size);
      && (HasBlock(pages, x) && x != a ==> HasBlock(pages', x) && BlockAt(pages', x) == BlockAt(pages, x))
      && HasBlock(pages', a) && BlockAt(pages', a) == Blk(a, size)
      && !HasBlock(pages, a + size)
      && HasBlock(pages', a + size) && BlockAt(pages', a + size) == Blk(a + size, BlockAt(pages, a).size - size)
      && (HasBlock(pages', x) && x != a + size ==> HasBlock(pages, x))
  {
    CutEnds(pages, f, a, size);
    if x != a && x != a + size {
      CutOther(pages, f, a, size, x);
    }
    hide CutPage, IndexOf, Pages, OnList, Classes, PageTop, Ndx;
  }

  lemma InPage(pg: int, a: int, x: int)
    requires PageTop(a) == pg && a <= x < pg + PAGE_SIZE
    ensures PageTop(x) == pg
  {
  }

  /** The lists after a split. */
  function CutLists(pages: map<int, KPage>, f: FreeLists, a: int, size: int): FreeLists
    requires HasBlock(pages, a)
  {
    Push(f, Ndx(BlockAt(pages, a).size - size), a + size)
  }

  lemma CutFresh(pages: map<int, KPage>, f: FreeLists, a: int, size: int)
    requires SplitReady(pages, f, a, size)
    ensures forall d :: 0 <= d < NR_BLOCK_LIST ==> a !in f[d] && a + size !in f[d]
    ensures 0 <= Ndx(BlockAt(pages, a).size - size) < NR_BLOCK_LIST
  {
    BlockFacts(pages, f, PageTop(a), 1, a);
    NdxRange(BlockAt(pages, a).size - size);
    OnNoList(pages, f, a);
    CutBlocks(pages, f, a, size, a);
    hide Ndx, OnList, Pages, PageTop, CutPage, IndexOf, HasBlock, BlockAt, Cut;
    forall d | 0 <= d < NR_BLOCK_LIST ensures a + size !in f[d] {
      if a + size in f[d] {
        ListedBlock(pages, f, d, a + size);
      }
    }
  }

  lemma CutListedAt(pages: map<int, KPage>, f: FreeLists, a: int, size: int, x: int, d: int)
    requires SplitReady(pages, f, a, size) && 0 <= d < NR_BLOCK_LIST
    requires x in f[d] || (x == a + size && d == Ndx(BlockAt(pages, a).size - size))
    ensures Listed(CutPage(pages, PageTop(a), IndexOf(pages[PageTop(a)].blks, a), size), x, d)
  {
    CutFresh(pages, f, a, size);
    CutBlocks(pages, f, a, size, x);
    if x != a + size {
      ListedBlock(pages, f, d, x);
    }
    hide Ndx, OnList, Pages, PageTop, CutPage, IndexOf, Classes, Cut, HasBlock, BlockAt;
    HasListed(CutPage(pages, PageTop(a), IndexOf(pages[PageTop(a)].blks, a), size), x, d);
  }

  lemma CutClasses(pages: map<int, KPage>, f: FreeLists, a: int, size: int)
    requires SplitReady(pages, f, a, size)
    ensures var i := IndexOf(pages[PageTop(a)].blks, a);
      Classes(CutLists(pages, f, a, size), CutPage(pages, PageTop(a), i, size))
    ensures forall d :: 0 <= d < NR_BLOCK_LIST ==> a !in f[d] && a + size !in f[d]
  {
    var pages' := CutPage(pages, PageTop(a), IndexOf(pages[PageTop(a)].blks, a), size);
    var g := CutLists(pages, f, a, size);
    CutFresh(pages, f, a, size);
    hide Ndx, OnList, Pages, PageTop, CutPage, IndexOf, HasBlock, BlockAt, Listed, Cut;
    forall d, x | 0 <= d < NR_BLOCK_LIST && x in g[d] ensures Listed(pages', x, d) {
      CutListedAt(pages, f, a, size, x, d);
    }
    forall d | 0 <= d < NR_BLOCK_LIST ensures NoDup(g[d]) {
      NoDupCons(a + size, f[d]);
    }
  }

  lemma HasListed(pages: map<int, KPage>, a: int, c: int)
    requires HasBlock(pages, a) && Ndx(BlockAt(pages, a).size) == c
    ensures Listed(pages, a, c)
  {
  }

  lemma NdxRange(n: int)
    requires 0 <= n <= MAX_BLOCK_SIZE
    ensures 0 <= Ndx(n) < NR_BLOCK_LIST
  {
  }

  lemma OtherPages(pages: map<int, KPage>, f: FreeLists, g: FreeLists, d: int, x: int)
    requires Pages(pages, f, PageTop(x), d) && SameBut(f, g, x)
    ensures forall p :: p in pages && p != PageTop(x) ==> PageOk(p, pages[p], g, 0)
  {
    hide PageTop, SameBut, PageOk;
    forall p | p in pages && p != PageTop(x) ensures PageOk(p, pages[p], g, 0) {
      assert PageOk(p, pages[p], f, 0);
      PageElsewhere(p, pages[p], f, g, 0, x);
    }
  }

  lemma CutListed(pages: map<int, KPage>, f: FreeLists, a: int, size: int)
    requires SplitReady(pages, f, a, size)
    ensures var g := CutLists(pages, f, a, size);
      && !OnList(g, Blk(a, size)) && OnList(g, Blk(a + size, BlockAt(pages, a).size - size))
      && SameBut(f, g, a + size)
  {
    BlockFacts(pages, f, PageTop(a), 1, a);
    NdxRange(BlockAt(pages, a).size - size);
    CutClasses(pages, f, a, size);
    hide Ndx, Pages, Classes, PageTop, HasBlock, BlockAt, IndexOf, SameBut;
    PushLists(f, Ndx(BlockAt(pages, a).size - size), a + size);
  }

  lemma CutHot(pages: map<int, KPage>, f: FreeLists, a: int, size: int)
    requires SplitReady(pages, f, a, size)
    ensures var (pg, g) := (PageTop(a), CutLists(pages, f, a, size));
      var i := IndexOf(pages[pg].blks, a);
      PageOk(pg, pages[pg].(blks := Cut(pages[pg].blks, i, size)), g, 1)
    ensures !OnList(CutLists(pages, f, a, size), Blk(a, size))
    ensures SameBut(f, CutLists(pages, f, a, size), a + size)
  {
    var pg := PageTop(a);
    var blks := pages[pg].blks;
    var i := IndexOf(blks, a);
    var g := CutLists(pages, f, a, size);
    CutListed(pages, f, a, size);
    hide PageTop, Classes, Ndx, IndexOf, SameBut, OnList, CutLists, Used;
    assert PageOk(pg, pages[pg], f, 1);
    CutUsed(blks, pg + FIRST_BLK, pg + PAGE_SIZE, i, size, f, g);
    CutTiles(blks, pg + FIRST_BLK, pg + PAGE_SIZE, i, size);
    hide Tiles, Cut;
  }

  lemma CutPages(pages: map<int, KPage>, f: FreeLists, a: int, size: int)
    requires SplitReady(pages, f, a, size)
    ensures var i := IndexOf(pages[PageTop(a)].blks, a);
      Pages(CutPage(pages, PageTop(a), i, size), CutLists(pages, f, a, size), PageTop(a), 1)
    ensures !OnList(CutLists(pages, f, a, size), Blk(a, size))
    ensures SameBut(f, CutLists(pages, f, a, size), a + size)
  {
    CutHot(pages, f, a, size);
    BlockFacts(pages, f, PageTop(a), 1, a);
    InPage(PageTop(a), a, a + size);
    hide PageTop, OnList, SameBut, Classes, Ndx, IndexOf, CutLists, Cut, PageOk;
    OtherPages(pages, f, CutLists(pages, f, a, size), 1, a + size);
  }

  // ----- Handing out a block -----

  /** From the heap with block `a` off the lists to the heap with the block
      handed out: its size covers the request and nothing else changes hands. */
  ghost predicate Granted(pages: map<int, KPage>, f: FreeLists, r: KState, a: int, size: int) {
    && Pages(r.pages, r.free, 0, 0) && Classes(r.free, r.pages) && r.pages.Keys == pages.Keys
    && HasBlock(r.pages, a) && !OnList(r.free, BlockAt(r.pages, a))
    && BlockAt(r.pages, a).addr == a && BlockAt(r.pages, a).size >= size
    && (forall x :: x != a && Allotted(pages, f, x) ==>
          Allotted(r.pages, r.free, x) && BlockAt(r.pages, x) == BlockAt(pages, x))
    && (forall x :: x != a && Allotted(r.pages, r.free, x) ==> Allotted(pages, f, x))
  }

  lemma CountUpOk(k: KState, pg: int)
    requires pg in k.pages && Pages(k.pages, k.free, pg, 1) && Classes(k.free, k.pages)
    ensures var r := CountUp(k, pg);
      && Pages(r.pages, r.free, 0, 0) && Classes(r.free, r.pages) && r.pages.Keys == k.pages.Keys && r.free == k.free
      && r.p == k.p
      && (forall x :: HasBlock(r.pages, x) <==> HasBlock(k.pages, x))
      && (forall x :: HasBlock(k.pages, x) ==> BlockAt(r.pages, x) == BlockAt(k.pages, x))
      && (forall p :: p in k.pages ==> r.pages[p].nallocs == k.pages[p].nallocs + (if p == pg then 1 else 0))
  {
    hide PageTop, IndexOf, Used, Tiles, Ndx, NoDup;
    assert PageOk(pg, k.pages[pg], k.free, 1);
  }

  lemma CutAllotted(pages: map<int, KPage>, f: FreeLists, a: int, size: int)
    requires SplitReady(pages, f, a, size)
    ensures var pages' := CutPage(pages, PageTop(a), IndexOf(pages[PageTop(a)].blks, a), size);
      var g := CutLists(pages, f, a, size);
      && (forall x :: x != a && Allotted(pages, f, x) ==>
            Allotted(pages', g, x) && BlockAt(pages', x) == BlockAt(pages, x))
      && (forall x :: x != a && Allotted(pages', g, x) ==> Allotted(pages, f, x))
  {
    var pages' := CutPage(pages, PageTop(a), IndexOf(pages[PageTop(a)].blks, a), size);
    var g := CutLists(pages, f, a, size);
    CutPages(pages, f, a, size);
    CutBlocks(pages, f, a, size, a);
    BlockFacts(pages, f, PageTop(a), 1, a);
    NdxRange(BlockAt(pages, a).size - size);
    PushLists(f, Ndx(BlockAt(pages, a).size - size), a + size);
    assert OnList(g, BlockAt(pages', a + size));
    forall x | x != a && HasBlock(pages, x) ensures BlockAt(pages, x).addr == x {
      AddrAt(pages, x);
    }
    hide SplitReady, HasBlock, BlockAt, OnList, CutLists, CutPage, PageTop, IndexOf, Ndx, Push;
    forall x | x != a && x != a + size
      ensures Allotted(pages, f, x) ==> Allotted(pages', g, x) && BlockAt(pages', x) == BlockAt(pages, x)
      ensures Allotted(pages', g, x) ==> Allotted(pages, f, x)
    {
      CutBlocks(pages, f, a, size, x);
    }
  }

  lemma AddrAt(pages: map<int, KPage>, x: int)
    requires HasBlock(pages, x)
    ensures BlockAt(pages, x).addr == x
  {
  }

  /** The same, before the count of the page goes up. */
  ghost predicate Prepared(pages: map<int, KPage>, f: FreeLists, r: KState, a: int, size: int) {
    && Pages(r.pages, r.free, PageTop(a), 1) && Classes(r.free, r.pages) && r.pages.Keys == pages.Keys
    && HasBlock(r.pages, a) && !OnList(r.free, BlockAt(r.pages, a))
    && BlockAt(r.pages, a).addr == a && BlockAt(r.pages, a).size >= size
    && (forall x :: x != a && Allotted(pages, f, x) ==>
          Allotted(r.pages, r.free, x) && BlockAt(r.pages, x) == BlockAt(pages, x))
    && (forall x :: x != a && Allotted(r.pages, r.free, x) ==> Allotted(pages, f, x))
    && (forall p :: p in pages ==> r.pages[p].nallocs == pages[p].nallocs)
  }

  lemma SplitPrepares(k: KState, a: int, size: int)
    requires HasBlock(k.pages, a) && Pages(k.pages, k.free, PageTop(a), 1) && Classes(k.free, k.pages)
    requires !OnList(k.free, BlockAt(k.pages, a)) && MIN_BLOCK_SIZE <= size <= BlockAt(k.pages, a).size
    ensures var r := SplitBlock(k, PageTop(a), IndexOf(k.pages[PageTop(a)].blks, a), size);
      Prepared(k.pages, k.free, r, a, size) && r.p == k.p
  {
    AddrAt(k.pages, a);
    if BlockAt(k.pages, a).size - size >= MIN_BLOCK_SIZE {
      CutPages(k.pages, k.free, a, size);
      CutClasses(k.pages, k.free, a, size);
      CutAllotted(k.pages, k.free, a, size);
      CutBlocks(k.pages, k.free, a, size, a);
      SplitIsCut(k, a, size);
      hide SplitBlock, OnList, Pages, Classes, PageTop, CutLists, Ndx, IndexOf, HasBlock, Allotted, Cut;
    }
    hide OnList, Pages, Classes, PageTop, Ndx, IndexOf, HasBlock, BlockAt, Allotted;
  }

  lemma GrantOk(k: KState, a: int, size: int)
    requires HasBlock(k.pages, a) && Pages(k.pages, k.free, PageTop(a), 1) && Classes(k.free, k.pages)
    requires !OnList(k.free, BlockAt(k.pages, a)) && MIN_BLOCK_SIZE <= size <= BlockAt(k.pages, a).size
    ensures var r := Grant(k, PageTop(a), a, size);
      Granted(k.pages, k.free, r, a, size) && r.p == k.p
    ensures var r := Grant(k, PageTop(a), a, size);
      forall p :: p in k.pages ==> r.pages[p].nallocs == k.pages[p].nallocs + (if p == PageTop(a) then 1 else 0)
  {
    var k1 := SplitBlock(k, PageTop(a), IndexOf(k.pages[PageTop(a)].blks, a), size);
    SplitPrepares(k, a, size);
    GrantIs(k, PageTop(a), a, size);
    hide SplitBlock, OnList, Pages, Classes, PageTop, Ndx, IndexOf, HasBlock, BlockAt, Grant;
    CountUpOk(k1, PageTop(a));
    hide CountUp;
  }

  lemma GrantIs(k: KState, pg: int, a: int, size: int)
    requires pg in k.pages && IndexOf(k.pages[pg].blks, a) < |k.pages[pg].blks|
    ensures var k1 := SplitBlock(k, pg, IndexOf(k.pages[pg].blks, a), size);
      pg in k1.pages && Grant(k, pg, a, size) == CountUp(k1, pg)
  {
  }

  lemma SplitIsCut(k: KState, a: int, size: int)
    requires HasBlock(k.pages, a) && BlockAt(k.pages, a).size - size >= MIN_BLOCK_SIZE
    ensures var i := IndexOf(k.pages[PageTop(a)].blks, a);
      SplitBlock(k, PageTop(a), i, size) ==
        k.(pages := CutPage(k.pages, PageTop(a), i, size), free := CutLists(k.pages, k.free, a, size))
  {
    hide Ndx, Push, PageTop;
  }
}
