/** Freeing segments, changing their attribute, and whole lives of a map. */
module VmFree {
  import opened Lists
  import opened Page
  import opened PageRuns
  import opened Kmem
  import opened KmemRuns
  import opened Vm
  import opened VmSegs
  import opened VmMem
  import opened VmSteps
  import opened VmRuns

  // ----- The neighbourhood of a segment that is freed -----

  function Prev(s: seq<Seg>, i: nat): seq<Seg>
    requires i < |s|
  {
    if i > 0 && s[i - 1].IsFree() then [s[i - 1]] else []
  }

  function Next(s: seq<Seg>, i: nat): seq<Seg>
    requires i < |s|
  {
    if i + 1 < |s| && s[i + 1].IsFree() then [s[i + 1]] else []
  }

  function Front(s: seq<Seg>, i: nat): seq<Seg>
    requires i < |s|
  {
    s[..i - |Prev(s, i)|]
  }

  function Back(s: seq<Seg>, i: nat): seq<Seg>
    requires i < |s|
  {
    s[i + 1 + |Next(s, i)|..]
  }

  /** The free segment that results. */
  function Joined(s: seq<Seg>, i: nat): Seg
    requires i < |s|
  {
    var (p, q) := (Prev(s, i), Next(s, i));
    var e := s[i].(flags := Vacant, size := s[i].size + (if q == [] then 0 else q[0].size));
    if p == [] then e else p[0].(size := p[0].size + e.size)
  }

  function Freed(s: seq<Seg>, i: nat): seq<Seg>
    requires i < |s|
  {
    Front(s, i) + [Joined(s, i)] + Back(s, i)
  }

  lemma NeighbourSeqs(s: seq<Seg>, i: nat)
    requires i < |s|
    ensures var (h, p, q, t) := (Front(s, i), Prev(s, i), Next(s, i), Back(s, i));
      && s == h + (p + [s[i]] + q) + t && s[..i] == h + p && s[i + 1..] == q + t
  {
    var (h, p, q, t) := (Front(s, i), Prev(s, i), Next(s, i), Back(s, i));
    assert s[..i] == h + p;
    assert s[i + 1..] == q + t;
    assert s == s[..i] + [s[i]] + s[i + 1..];
    Regroup(h, p, s[i], q, t);
  }

  lemma Regroup(h: seq<Seg>, p: seq<Seg>, b: Seg, q: seq<Seg>, t: seq<Seg>)
    ensures (h + p) + [b] + (q + t) == h + (p + [b] + q) + t
  {
  }

  /** The tiles around and under the joined segment. */
  ghost predicate JoinTiles(s: seq<Seg>, i: nat)
    requires i < |s|
  {
    var (h, p, q, t, e) := (Front(s, i), Prev(s, i), Next(s, i), Back(s, i), Joined(s, i));
    && STiles(h, PAGE_SIZE, e.addr) && STiles(t, e.End(), USERLIMIT) && STiles(p + [s[i]] + q, e.addr, e.End())
    && STiles(p, e.addr, s[i].addr) && STiles(q, s[i].End(), e.End()) && STiles([s[i]], s[i].addr, s[i].End())
    && STiles([e], e.addr, e.End())
  }

  lemma NeighbourTiles(s: seq<Seg>, i: nat)
    requires SegsOk(s) && i < |s|
    ensures JoinTiles(s, i)
  {
    hide STiles, NoTouch, Aligned, Front, Back;
    NeighbourSeqs(s, i);
    Parts(s, i);
    PrevTiles(s, i);
    NextTiles(s, i);
    var (p, b, q, e) := (Prev(s, i), s[i], Next(s, i), Joined(s, i));
    OneTile(b);
    assert e.addr == (if p == [] then b.addr else p[0].addr) && e.End() == if q == [] then b.End() else q[0].End();
    ReplaceTiles(p, [b], q, e.addr, b.addr, b.End(), e.End());
    JoinedAligned(s, i);
    OneTile(e);
  }

  lemma JoinedAligned(s: seq<Seg>, i: nat)
    requires i < |s| && s[i].size > 0 && Aligned(s[i].size)
    requires forall b :: b in Prev(s, i) + Next(s, i) ==> b.size > 0 && Aligned(b.size)
    ensures Joined(s, i).size > 0 && Aligned(Joined(s, i).size)
  {
    var (p, q) := (Prev(s, i), Next(s, i));
    if q != [] {
      assert q[0] in p + q;
      AlignedSum(s[i].size, q[0].size);
    }
    if p != [] {
      assert p[0] in p + q;
      AlignedSum(p[0].size, s[i].size + (if q == [] then 0 else q[0].size));
    }
  }

  lemma NeighbourTouch(s: seq<Seg>, i: nat)
    requires SegsOk(s) && i < |s|
    ensures var (h, t) := (Front(s, i), Back(s, i));
      && NoTouch(h) && NoTouch(t) && (h != [] ==> !h[|h| - 1].IsFree()) && (t != [] ==> !t[0].IsFree())
  {
    hide STiles, NoTouch, Aligned;
    NeighbourSeqs(s, i);
    Parts(s, i);
    NoTouchAppend(Front(s, i), Prev(s, i));
    NoTouchAppend(Next(s, i), Back(s, i));
  }

  lemma PrevTiles(s: seq<Seg>, i: nat)
    requires SegsOk(s) && i < |s| && STiles(s[..i], PAGE_SIZE, s[i].addr) && s[..i] == Front(s, i) + Prev(s, i)
    ensures var a := if Prev(s, i) == [] then s[i].addr else Prev(s, i)[0].addr;
      && STiles(Front(s, i), PAGE_SIZE, a) && STiles(Prev(s, i), a, s[i].addr)
      && (Prev(s, i) != [] ==> Prev(s, i)[0].End() == s[i].addr && Prev(s, i)[0].size > 0 && Aligned(Prev(s, i)[0].size))
  {
    if Prev(s, i) != [] {
      STilesAt(s[..i], PAGE_SIZE, s[i].addr, i - 1);
      assert s[..i][..i - 1] == Front(s, i) && s[..i][i - 1] == Prev(s, i)[0] && s[..i][i..] == [];
    }
  }

  lemma NextTiles(s: seq<Seg>, i: nat)
    requires SegsOk(s) && i < |s| && STiles(s[i + 1..], s[i].End(), USERLIMIT) && s[i + 1..] == Next(s, i) + Back(s, i)
    ensures var e := if Next(s, i) == [] then s[i].End() else Next(s, i)[0].End();
      && STiles(Back(s, i), e, USERLIMIT) && STiles(Next(s, i), s[i].End(), e)
      && (Next(s, i) != [] ==> Next(s, i)[0].addr == s[i].End() && Next(s, i)[0].size > 0 && Aligned(Next(s, i)[0].size))
  {
    if Next(s, i) != [] {
      assert s[i + 1..][0] == Next(s, i)[0] && s[i + 1..][1..] == Back(s, i);
      assert Next(s, i)[1..] == [];
    }
  }

  /** The map without the segment that starts at `a`. */
  ghost predicate Unmapped(s: seq<Seg>, r: seq<Seg>, a: int, n: int) {
    forall y :: PAGE_SIZE <= y < USERLIMIT ==> Status(r, y) == if a <= y < a + n then None else Status(s, y)
  }

  lemma MiddleFacts(p: seq<Seg>, b: Seg, q: seq<Seg>, x: int)
    requires |p| <= 1 && |q| <= 1 && (p != [] ==> p[0].IsFree()) && (q != [] ==> q[0].IsFree()) && !b.IsFree()
    ensures Sum(p + [b] + q) == b.size
    ensures Backs(p + [b] + q, x) <==> b.phys <= x < b.phys + b.size
    ensures OwnMemory(p + [b] + q) ==> Whole(Blk(b.phys, b.size))
  {
    hide Aligned, Whole;
    FreeOnly(p);
    FreeOnly(q);
    OneSeg(b, 0, x);
    hide Sum, Backs, OwnMemory;
    ReplaceSum(p, [b], q);
    ReplaceBacks(p, [b], q, x);
    ReplaceOwn(p, [b], q);
  }

  lemma NeighbourShape(s: seq<Seg>, i: nat)
    requires i < |s|
    ensures var (p, q, e) := (Prev(s, i), Next(s, i), Joined(s, i));
      && |p| <= 1 && |q| <= 1 && (p != [] ==> p[0].IsFree()) && (q != [] ==> q[0].IsFree()) && e.IsFree()
      && e.node == (if p == [] then s[i] else p[0]).node
  {
  }

  lemma FreedStatus(s: seq<Seg>, i: nat, y: int)
    requires SegsOk(s) && i < |s| && !s[i].IsFree() && JoinTiles(s, i) && PAGE_SIZE <= y
    ensures Status(Freed(s, i), y) == if s[i].addr <= y < s[i].End() then None else Status(s, y)
  {
    hide STiles, NoTouch, Status, Front, Back, Prev, Next, Joined;
    NeighbourSeqs(s, i);
    NeighbourShape(s, i);
    var (h, p, b, q, t, e) := (Front(s, i), Prev(s, i), s[i], Next(s, i), Back(s, i), Joined(s, i));
    ReplaceStatus(h, [e], t, PAGE_SIZE, e.addr, e.End(), USERLIMIT, y);
    ReplaceStatus(h, p + [b] + q, t, PAGE_SIZE, e.addr, e.End(), USERLIMIT, y);
    FreeStatus(e, y);
    if e.addr <= y < e.End() {
      ReplaceStatus(p, [b], q, e.addr, b.addr, b.End(), e.End(), y);
      SmallStatus(p, y);
      SmallStatus(q, y);
    }
    TileOrderly(p, e.addr, b.addr);
    TileOrderly(q, b.End(), e.End());
  }

  lemma TileOrderly(s: seq<Seg>, from: int, to: int)
    requires STiles(s, from, to)
    ensures from <= to
  {
    STilesLength(s, from, to);
  }

  lemma SmallStatus(p: seq<Seg>, y: int)
    requires |p| <= 1 && (p != [] ==> p[0].IsFree())
    ensures Status(p, y) == None
  {
    if p != [] {
      FreeStatus(p[0], y);
      assert p == [p[0]];
    }
  }

  /** The list after seg_free of segment `i`. */
  lemma FreedSegs(s: seq<Seg>, i: nat)
    requires SegsOk(s) && i < |s| && !s[i].IsFree()
    ensures var r := Freed(s, i);
      && r != [] && SegsOk(r) && Sum(r) == Sum(s) - s[i].size
      && Unmapped(s, r, s[i].addr, s[i].size)
  {
    hide STiles, NoTouch, Status, Front, Back, Prev, Next, Joined, Sum;
    NeighbourSeqs(s, i);
    NeighbourTiles(s, i);
    NeighbourTouch(s, i);
    NeighbourShape(s, i);
    var (h, p, b, q, t, e) := (Front(s, i), Prev(s, i), s[i], Next(s, i), Back(s, i), Joined(s, i));
    ReplaceTiles(h, [e], t, PAGE_SIZE, e.addr, e.End(), USERLIMIT);
    OneTouch(e);
    ReplaceTouch(h, [e], t);
    ReplaceSum(h, [e], t);
    ReplaceSum(h, p + [b] + q, t);
    MiddleFacts(p, b, q, 0);
    forall y | PAGE_SIZE <= y < USERLIMIT
      ensures Status(Freed(s, i), y) == if b.addr <= y < b.addr + b.size then None else Status(s, y)
    {
      FreedStatus(s, i, y);
    }
  }

  lemma OneTouch(e: Seg)
    ensures NoTouch([e]) && (e.IsFree() ==> Sum([e]) == 0 && OwnMemory([e]) && forall x :: !Backs([e], x))
  {
    if e.IsFree() {
      FreeOnly([e]);
    }
  }

  /** The pages of the segment are no longer behind any other. */
  lemma FreedOwn(s: seq<Seg>, i: nat)
    requires i < |s| && !s[i].IsFree() && OwnMemory(s)
    ensures var r := Freed(s, i);
      && OwnMemory(r) && Whole(Blk(s[i].phys, s[i].size))
      && forall x :: Backs(r, x) <==> Backs(s, x) && !(s[i].phys <= x < s[i].phys + s[i].size)
    ensures forall x :: s[i].phys <= x < s[i].phys + s[i].size ==> Backs(s, x)
  {
    hide Front, Back, Prev, Next, Joined, Backs, OwnMemory, Whole;
    NeighbourSeqs(s, i);
    NeighbourShape(s, i);
    var (h, p, b, q, t, e) := (Front(s, i), Prev(s, i), s[i], Next(s, i), Back(s, i), Joined(s, i));
    OneTouch(e);
    ReplaceOwn(h, [e], t);
    ReplaceOwn(h, p + [b] + q, t);
    MiddleFacts(p, b, q, 0);
    forall x
      ensures Backs(Freed(s, i), x) <==> Backs(s, x) && !(b.phys <= x < b.phys + b.size)
      ensures b.phys <= x < b.phys + b.size ==> Backs(s, x)
    {
      MiddleFacts(p, b, q, x);
      ReplaceBacks(h, [e], t, x);
      ReplaceBacks(h, p + [b] + q, t, x);
    }
  }

  // ----- The records that seg_free gives back -----

  function HdrSet(q: seq<Seg>): set<int> {
    if q == [] then {} else {HeaderOf(q[0])}
  }

  /** `r` is `w` with the blocks in `del` freed and this list. */
  ghost predicate Dropped(l0: seq<Blk>, w: VState, r: VState, del: set<int>, s: seq<Seg>) {
    && Within(l0, r.k) && SameMemory(w.k, r.k) && Lives(w.k, r.k, {}, del)
    && r.total == w.total && r.segs == s
  }

  lemma NoneDropped(l0: seq<Blk>, w: VState, s: seq<Seg>)
    requires Within(l0, w.k) && w.segs == s
    ensures Dropped(l0, w, w, {}, s)
  {
    hide Within, SameMemory, Lives;
    LivesNone(w.k);
  }

  lemma NodeDropped(l0: seq<Blk>, w: VState, b: Seg, s: seq<Seg>)
    requires Within(l0, w.k) && Live(w.k, HeaderOf(b))
    ensures Dropped(l0, w, w.(k := NodeFree(w.k, b.node), segs := s), {HeaderOf(b)}, s)
  {
    hide Within, SameMemory, Lives, Live, NodeFree;
    NodeFreeOk(l0, w.k, b.node);
  }

  lemma NextJoined(l0: seq<Blk>, w: VState, a: seq<Seg>, d: Seg, q: seq<Seg>, t: seq<Seg>)
    requires Within(l0, w.k) && w.segs == a + [d] + (q + t) && d.IsFree() && |q| <= 1
    requires q != [] ==> q[0].IsFree() && Live(w.k, HeaderOf(q[0]))
    requires q == [] ==> t == [] || !t[0].IsFree()
    ensures var e := d.(size := d.size + if q == [] then 0 else q[0].size);
      Dropped(l0, w, Merge(w, |a|), HdrSet(q), a + [e] + t)
  {
    hide Within, Dropped, Live, Merge, NodeFree;
    MergeIs(w, a, d, q + t);
    if q == [] {
      assert q + t == t;
      assert d.(size := d.size + 0) == d;
      NoneDropped(l0, w, a + [d] + t);
    } else {
      assert (q + t)[0] == q[0] && (q + t)[1..] == t;
      NodeDropped(l0, w, q[0], a + [d.(size := d.size + q[0].size)] + t);
    }
  }

  lemma PrevJoined(l0: seq<Blk>, w: VState, h: seq<Seg>, p: seq<Seg>, e: Seg, t: seq<Seg>)
    requires Within(l0, w.k) && w.segs == (h + p) + [e] + t && e.IsFree() && |p| <= 1
    requires p != [] ==> p[0].IsFree() && Live(w.k, HeaderOf(e))
    requires p == [] ==> h == [] || !h[|h| - 1].IsFree()
    ensures var f := if p == [] then e else p[0].(size := p[0].size + e.size);
      Dropped(l0, w, Merge(w, |h| + |p| - 1), if p == [] then {} else {HeaderOf(e)}, h + [f] + t)
  {
    hide Within, Dropped, Live, Merge, NodeFree;
    if p == [] {
      assert h + p == h;
      if h != [] {
        assert w.segs[|h| - 1] == h[|h| - 1];
      }
      MergeNot(w, |h| - 1);
      NoneDropped(l0, w, h + [e] + t);
    } else {
      assert w.segs == h + [p[0]] + ([e] + t);
      MergeIs(w, h, p[0], [e] + t);
      assert ([e] + t)[1..] == t;
      NodeDropped(l0, w, e, h + [p[0].(size := p[0].size + e.size)] + t);
    }
  }

  /** The headers of the records that are given up. */
  function Given(s: seq<Seg>, i: nat): set<int>
    requires i < |s|
  {
    HdrSet(Next(s, i)) + (if Prev(s, i) == [] then {} else {HeaderOf(s[i])})
  }

  lemma DroppedTwice(l0: seq<Blk>, a: VState, b: VState, c: VState, d1: set<int>, s1: seq<Seg>, d2: set<int>, s2: seq<Seg>)
    requires Dropped(l0, a, b, d1, s1) && Dropped(l0, b, c, d2, s2)
    ensures Dropped(l0, a, c, d1 + d2, s2)
  {
    hide Within, SameMemory, Lives;
    SameTrans(a.k, b.k, c.k);
    var none: set<int> := {};
    LivesTrans(a.k, b.k, c.k, none, d1, none, d2);
    assert (none - d2) + none == none;
  }

  lemma DroppedLive(l0: seq<Blk>, a: VState, b: VState, del: set<int>, s: seq<Seg>, x: int)
    requires Dropped(l0, a, b, del, s) && Live(a.k, x) && x !in del
    ensures Live(b.k, x) && Within(l0, b.k)
  {
    hide Within, SameMemory, Live;
  }

  /** seg_free of a segment in use. */
  lemma SegFreeOk(l0: seq<Blk>, v: VState, i: nat)
    requires Within(l0, v.k) && SegsOk(v.segs) && i < |v.segs| && !v.segs[i].IsFree()
    requires Records(v.k, v.segs)
    ensures Dropped(l0, v, SegFree(v, i), Given(v.segs, i), Freed(v.segs, i))
  {
    hide Within, SegsOk, Records, Dropped, Live, Merge, Front, Back, Prev, Next, HdrSet, Joined, SegFree, Given, Freed;
    var s := v.segs;
    NeighbourSeqs(s, i);
    NeighbourShape(s, i);
    NeighbourTouch(s, i);
    GivenLive(v.k, s, i);
    var (h, p, b, q, t) := (Front(s, i), Prev(s, i), s[i], Next(s, i), Back(s, i));
    var d := b.(flags := Vacant);
    var v1 := v.(segs := s[i := d]);
    Vacated(s, i, h + p, q + t, d);
    SegFreeIs(v, i);
    NextJoined(l0, v1, h + p, d, q, t);
    FreeRest(l0, v, v1, i);
  }

  lemma SegFreeIs(v: VState, i: nat)
    requires i < |v.segs|
    ensures SegFree(v, i) == Merge(Merge(v.(segs := v.segs[i := v.segs[i].(flags := Vacant)]), i), i - 1)
  {
    hide Merge;
  }

  lemma Vacated(s: seq<Seg>, i: nat, a: seq<Seg>, c: seq<Seg>, d: Seg)
    requires i < |s| && s[..i] == a && s[i + 1..] == c
    ensures |a| == i && s[i := d] == a + [d] + c
  {
  }

  /** What is left after the merge with the next segment. */
  function Half(s: seq<Seg>, i: nat): Seg
    requires i < |s|
  {
    s[i].(flags := Vacant, size := s[i].size + if Next(s, i) == [] then 0 else Next(s, i)[0].size)
  }

  lemma JoinedIs(s: seq<Seg>, i: nat)
    requires i < |s|
    ensures var (p, e) := (Prev(s, i), Half(s, i));
      Joined(s, i) == if p == [] then e else p[0].(size := p[0].size + e.size)
    ensures Freed(s, i) == Front(s, i) + [Joined(s, i)] + Back(s, i)
    ensures Given(s, i) == HdrSet(Next(s, i)) + if Prev(s, i) == [] then {} else {HeaderOf(s[i])}
    ensures |Front(s, i)| + |Prev(s, i)| == i && |Prev(s, i)| <= 1
  {
  }

  lemma FreeRest(l0: seq<Blk>, v: VState, v1: VState, i: nat)
    requires Within(l0, v.k) && i < |v.segs| && SegsOk(v.segs) && !v.segs[i].IsFree() && Records(v.k, v.segs)
    requires v1 == v.(segs := v.segs[i := v.segs[i].(flags := Vacant)])
    requires var s := v.segs;
      Dropped(l0, v1, Merge(v1, i), HdrSet(Next(s, i)), (Front(s, i) + Prev(s, i)) + [Half(s, i)] + Back(s, i))
    ensures Dropped(l0, v, Merge(Merge(v1, i), i - 1), Given(v.segs, i), Freed(v.segs, i))
  {
    hide Within, SegsOk, Records, Dropped, Live, Merge, Front, Back, Prev, Next, HdrSet, Joined, Given, Freed;
    var s := v.segs;
    NeighbourShape(s, i);
    NeighbourTouch(s, i);
    FrontTouch(s, i);
    GivenLive(v.k, s, i);
    JoinedIs(s, i);
    var (h, p, b, q, t, e) := (Front(s, i), Prev(s, i), s[i], Next(s, i), Back(s, i), Half(s, i));
    var v2 := Merge(v1, i);
    DroppedIs(l0, v1, v2, HdrSet(q), (h + p) + [e] + t);
    if p != [] {
      DroppedLive(l0, v1, v2, HdrSet(q), (h + p) + [e] + t, HeaderOf(b));
    }
    PrevJoined(l0, v2, h, p, e, t);
    DroppedTwice(l0, v1, v2, Merge(v2, i - 1), HdrSet(q), (h + p) + [e] + t,
      if p == [] then {} else {HeaderOf(e)}, Freed(s, i));
    DroppedFrom(l0, v, v1, Merge(v2, i - 1), Given(s, i), Freed(s, i));
  }

  lemma FrontTouch(s: seq<Seg>, i: nat)
    requires i < |s|
    ensures Prev(s, i) == [] ==> Front(s, i) == [] || !Front(s, i)[|Front(s, i)| - 1].IsFree()
  {
  }

  lemma DroppedIs(l0: seq<Blk>, a: VState, b: VState, del: set<int>, s: seq<Seg>)
    requires Dropped(l0, a, b, del, s)
    ensures b.segs == s && Within(l0, b.k)
  {
    hide Within, SameMemory, Lives;
  }

  lemma DroppedFrom(l0: seq<Blk>, v: VState, w: VState, r: VState, del: set<int>, s: seq<Seg>)
    requires w.k == v.k && w.total == v.total && Dropped(l0, w, r, del, s)
    ensures Dropped(l0, v, r, del, s)
  {
    hide Within, SameMemory, Lives;
  }

  lemma GivenLive(k: KState, s: seq<Seg>, i: nat)
    requires Records(k, s) && i < |s|
    ensures Live(k, HeaderOf(s[i]))
    ensures Next(s, i) != [] ==> Live(k, HeaderOf(Next(s, i)[0]))
    ensures HeaderOf(s[i]) !in HdrSet(Next(s, i))
  {
    hide Live;
    assert Hdrs(s)[i] == HeaderOf(s[i]) && HeaderOf(s[i]) in Hdrs(s);
    if Next(s, i) != [] {
      assert Hdrs(s)[i + 1] == HeaderOf(s[i + 1]) && HeaderOf(s[i + 1]) in Hdrs(s);
    }
  }

  /** The records left are still blocks of their own. */
  lemma RecordsFreed(k: KState, r: KState, s: seq<Seg>, i: nat)
    requires Records(k, s) && i < |s| && Lives(k, r, {}, Given(s, i))
    ensures Records(r, Freed(s, i))
  {
    hide Live, NoDup, Hdrs, Lives, Records, Front, Back, Prev, Next;
    NeighbourSeqs(s, i);
    NeighbourShape(s, i);
    RecordsUnfold(k, s);
    var (h, p, b, q, t, e) := (Front(s, i), Prev(s, i), s[i], Next(s, i), Back(s, i), Joined(s, i));
    Hdrs3(h, p + [b] + q, t);
    Hdrs3(p, [b], q);
    Hdrs3(h, [e], t);
    HdrsOne(b);
    HdrsOne(e);
    SmallHdrs(p);
    SmallHdrs(q);
    LessHeaders(k, r, Hdrs(h), Hdrs(p), HeaderOf(b), Hdrs(q), Hdrs(t), Given(s, i));
    RecordsFold(r, Freed(s, i));
  }

  lemma SmallHdrs(p: seq<Seg>)
    requires |p| <= 1
    ensures Hdrs(p) == if p == [] then [] else [HeaderOf(p[0])]
  {
  }

  lemma LessHeaders(k: KState, r: KState, a: seq<int>, p: seq<int>, b: int, q: seq<int>, c: seq<int>, del: set<int>)
    requires |p| <= 1 && |q| <= 1 && NoDup(a + (p + [b] + q) + c) && Lives(k, r, {}, del)
    requires forall x :: x in a + (p + [b] + q) + c ==> Live(k, x)
    requires forall x :: x in del ==> x in q || (p != [] && x == b)
    ensures var l := a + [if p == [] then b else p[0]] + c; NoDup(l) && forall x :: x in l ==> Live(r, x)
  {
    hide Live, NoDup;
    if p == [] {
      assert a + (p + [b] + q) + c == (a + [b]) + q + c;
      DropMiddle(a + [b], q, c);
    } else {
      assert p == [p[0]];
      assert a + (p + [b] + q) + c == (a + p) + ([b] + q) + c;
      DropMiddle(a + p, [b] + q, c);
    }
  }

  lemma DropMiddle(a: seq<int>, x: seq<int>, c: seq<int>)
    requires NoDup(a + x + c)
    ensures NoDup(a + c)
    ensures forall y :: y in a + c ==> y in a + x + c && y !in x
  {
    var s, r := a + x + c, a + c;
    assert forall i :: 0 <= i < |r| ==> r[i] == s[if i < |a| then i else i + |x|];
    assert forall j :: 0 <= j < |x| ==> x[j] == s[|a| + j];
  }

  // ----- do_free and do_attribute -----

  lemma SegOutside(l0: seq<Blk>, k: KState, s: seq<Seg>, i: nat)
    requires Backing(l0, k, s) && i < |s| && !s[i].IsFree()
    ensures Outside(l0, k, s[i].phys, s[i].size)
  {
    hide Backs, Managed, Free, OwnMemory, Whole;
    FreedOwn(s, i);
    WholeStart(s[i].phys, s[i].size);
    var x := s[i].phys;
    assert Backs(s, x);
  }

  lemma WholeStart(a: int, n: int)
    requires Whole(Blk(a, n))
    ensures n > 0
  {
  }

  /** The address space without segment `i`. */
  lemma GiveUp(l0: seq<Blk>, v: VState, i: nat)
    requires VInv(l0, v) && i < |v.segs| && !v.segs[i].IsFree()
    ensures var b := v.segs[i];
      var r := SegFree(v.(k := v.k.(p := PageFree(v.k.p, b.phys, b.size)), total := v.total - b.size), i);
      && VInv(l0, r) && Conserved(v, r) && r.total == v.total - b.size && Unmapped(v.segs, r.segs, b.addr, b.size)
  {
    hide Within, SegsOk, Records, Backing, SegFree, Managed, Backs, PageFree, Lives, Freed, Given, Unmapped, Sum, Outside, VInv;
    VParts(l0, v);
    var b := v.segs[i];
    SegOutside(l0, v.k, v.segs, i);
    PagesGiven(l0, v.k, b.phys, b.size);
    var v1 := v.(k := v.k.(p := PageFree(v.k.p, b.phys, b.size)), total := v.total - b.size);
    SameRecords(v.k, v1.k, v.segs);
    SegFreeOk(l0, v1, i);
    var r := SegFree(v1, i);
    RecordsFreed(v1.k, r.k, v.segs, i);
    FreedSegs(v.segs, i);
    GivenBacking(l0, v, v1, r, i);
    TotalSmaller(l0, v, r, i);
  }

  lemma TotalSmaller(l0: seq<Blk>, v: VState, r: VState, i: nat)
    requires VInv(l0, v) && i < |v.segs| && Within(l0, r.k) && SegsOk(r.segs) && Records(r.k, r.segs) && r.segs != []
    requires Sum(r.segs) == Sum(v.segs) - v.segs[i].size && r.total == v.total - v.segs[i].size
    requires Backing(l0, r.k, r.segs)
    ensures VInv(l0, r)
  {
    hide Within, STiles, NoTouch, Records, Backing, Sum, Aligned;
    Parts(v.segs, i);
  }

  lemma GivenBacking(l0: seq<Blk>, v: VState, w: VState, r: VState, i: nat)
    requires Backing(l0, v.k, v.segs) && i < |v.segs| && !v.segs[i].IsFree() && r.segs == Freed(v.segs, i)
    requires var b := v.segs[i];
      forall x :: Managed(w.k, x) <==> Managed(v.k, x) || b.phys <= x < b.phys + b.size
    requires SameMemory(w.k, r.k)
    ensures Backing(l0, r.k, r.segs) && Conserved(v, r)
  {
    hide Backs, Managed, Free, OwnMemory, Whole, Freed;
    FreedOwn(v.segs, i);
  }

  /** The segment that starts at the page of `addr` and is in use. */
  ghost predicate Starts(s: seq<Seg>, addr: int, i: int) {
    0 <= i < |s| && s[i].addr == TruncPage(addr) && !s[i].IsFree()
  }

  /** do_free and do_attribute find that segment if there is one. */
  lemma TargetOk(s: seq<Seg>, addr: int, i: nat)
    requires SegsOk(s) && i < |s|
    ensures Target(s, addr) == i <==> Starts(s, addr, i)
    ensures Target(s, addr) < |s| ==> Starts(s, addr, Target(s, addr))
  {
    hide Aligned, TruncPage, NoTouch;
    var a := TruncPage(addr);
    if Starts(s, addr, i) {
      STilesAt(s, PAGE_SIZE, USERLIMIT, i);
      LookupFinds(s, PAGE_SIZE, USERLIMIT, i, a, 1);
    }
  }

  /** do_free gives up exactly the segment that starts at the page of `addr`, and
      fails, changing nothing, exactly when there is none. */
  lemma DoFreeOk(l0: seq<Blk>, v: VState, addr: int)
    requires VInv(l0, v)
    ensures var (r, e) := DoFree(v, addr);
      var i := Target(v.segs, addr);
      && VInv(l0, r) && Conserved(v, r)
      && (e.Fail? <==> forall j :: !Starts(v.segs, addr, j))
      && (e.Fail? ==> r == v && e == Fail(EINVAL))
      && (e.Ok? ==>
            && Starts(v.segs, addr, i) && r.total == v.total - v.segs[i].size
            && Unmapped(v.segs, r.segs, v.segs[i].addr, v.segs[i].size))
  {
    hide VInv, Conserved, SegsOk, Unmapped, Starts, Target, SegFree, PageFree, Within, Records, Backing;
    VParts(l0, v);
    NothingDone(l0, v);
    var i := Target(v.segs, addr);
    forall j | 0 <= j < |v.segs| ensures Target(v.segs, addr) == j <==> Starts(v.segs, addr, j) {
      TargetOk(v.segs, addr, j);
    }
    StartsIn(v.segs, addr);
    if i < |v.segs| {
      GiveUp(l0, v, i);
    }
  }

  lemma StartsIn(s: seq<Seg>, addr: int)
    ensures forall j :: Starts(s, addr, j) ==> 0 <= j < |s| && !s[j].IsFree()
  {
    hide TruncPage;
  }

  /** The map with other flags on one segment. */
  ghost predicate Reflagged(s: seq<Seg>, r: seq<Seg>, b: Seg, flags: SegFlags) {
    forall y :: PAGE_SIZE <= y < USERLIMIT ==>
      Status(r, y) == if b.addr <= y < b.End() then Some((flags, b.phys + (y - b.addr))) else Status(s, y)
  }

  lemma {:induction false} FlagStatus(s: seq<Seg>, from: int, to: int, i: nat, flags: SegFlags, y: int)
    requires STiles(s, from, to) && i < |s| && flags != Vacant && from <= y
    ensures Status(s[i := s[i].(flags := flags)], y) ==
      if s[i].addr <= y < s[i].End() then Some((flags, s[i].phys + (y - s[i].addr))) else Status(s, y)
    decreases |s|
  {
    hide Aligned;
    var r := s[i := s[i].(flags := flags)];
    if i > 0 {
      assert r[1..] == s[1..][i - 1 := s[i].(flags := flags)];
      STilesAt(s[1..], s[0].End(), to, i - 1);
      if y >= s[0].End() {
        FlagStatus(s[1..], s[0].End(), to, i - 1, flags, y);
      }
    } else {
      assert r[1..] == s[1..];
    }
  }

  lemma {:induction false} FlagList(s: seq<Seg>, from: int, to: int, i: nat, flags: SegFlags)
    requires STiles(s, from, to) && NoTouch(s) && i < |s| && flags != Vacant && !s[i].IsFree()
    ensures var r := s[i := s[i].(flags := flags)];
      && STiles(r, from, to) && NoTouch(r) && Sum(r) == Sum(s) && (OwnMemory(s) ==> OwnMemory(r))
      && forall x :: Backs(r, x) <==> Backs(s, x)
    decreases |s|
  {
    hide Aligned, Whole;
    var r := s[i := s[i].(flags := flags)];
    if i > 0 {
      assert r[1..] == s[1..][i - 1 := s[i].(flags := flags)];
      FlagList(s[1..], s[0].End(), to, i - 1, flags);
      if |s| > 1 {
        assert r[1] == r[1..][0];
      }
    } else {
      assert r[1..] == s[1..];
    }
  }

  lemma ReflagOk(l0: seq<Blk>, v: VState, i: nat, flags: SegFlags)
    requires VInv(l0, v) && i < |v.segs| && flags != Vacant && !v.segs[i].IsFree()
    ensures var r := v.(segs := v.segs[i := v.segs[i].(flags := flags)]);
      VInv(l0, r) && Conserved(v, r) && Reflagged(v.segs, r.segs, v.segs[i], flags)
  {
    hide Within, Records, Status, STiles, NoTouch, Sum, Backs, OwnMemory, Managed, Free;
    var r := v.(segs := v.segs[i := v.segs[i].(flags := flags)]);
    FlagList(v.segs, PAGE_SIZE, USERLIMIT, i, flags);
    forall y | PAGE_SIZE <= y < USERLIMIT
      ensures Status(r.segs, y) ==
        if v.segs[i].addr <= y < v.segs[i].End() then Some((flags, v.segs[i].phys + (y - v.segs[i].addr)))
        else Status(v.segs, y)
    {
      FlagStatus(v.segs, PAGE_SIZE, USERLIMIT, i, flags, y);
    }
    FlagRecords(v.k, v.segs, r.segs);
  }

  lemma FlagRecords(k: KState, s: seq<Seg>, r: seq<Seg>)
    requires Records(k, s) && |r| == |s| && forall i :: 0 <= i < |s| ==> r[i].node == s[i].node
    ensures Records(k, r)
  {
    hide Live, NoDup;
    assert Hdrs(r) == Hdrs(s);
  }

  /** do_attribute makes exactly the segment at `addr` writable or read-only; it
      fails, changing nothing, exactly when there is none, or when its access has to
      change and the mapping fails. */
  lemma DoAttributeOk(l0: seq<Blk>, v: VState, addr: int, write: bool, mapped: bool)
    requires VInv(l0, v)
    ensures var (r, e) := DoAttribute(v, addr, write, mapped);
      var i := Target(v.segs, addr);
      && VInv(l0, r) && Conserved(v, r) && r.k == v.k && r.total == v.total
      && (e == Fail(EINVAL) <==> forall j :: !Starts(v.segs, addr, j))
      && (e.Fail? ==> r == v)
      && (e == Fail(ENOMEM) <==>
            !mapped && exists j :: Starts(v.segs, addr, j) && (v.segs[j].flags == ReadWrite) != write)
      && (e.Ok? ==> Starts(v.segs, addr, i))
      && (e.Ok? && r != v ==> Reflagged(v.segs, r.segs, v.segs[i], if write then ReadWrite else ReadOnly))
      && (e.Ok? ==> (r.segs[i].flags == ReadWrite <==> write))
  {
    hide VInv, Conserved, SegsOk, Reflagged, Starts, Target, Within, Records, Backing;
    VParts(l0, v);
    NothingDone(l0, v);
    var i := Target(v.segs, addr);
    forall j | 0 <= j < |v.segs| ensures Target(v.segs, addr) == j <==> Starts(v.segs, addr, j) {
      TargetOk(v.segs, addr, j);
    }
    StartsIn(v.segs, addr);
    if i < |v.segs| {
      ReflagOk(l0, v, i, if write then ReadWrite else ReadOnly);
    }
  }
}
