/** do_allocate, do_free and do_attribute keep the address space in order, and
    a failure leaves no trace. */
module VmSteps {
  import opened Lists
  import opened Page
  import opened PageRuns
  import opened Kmem
  import opened KmemSteps
  import opened KmemRuns
  import opened Vm
  import opened VmSegs
  import opened VmMem

  // ----- The invariant of a map -----

  function HeaderOf(b: Seg): int { b.node - BLKHDR_SIZE }

  function Hdrs(s: seq<Seg>): (r: seq<int>)
    ensures |r| == |s| && forall i :: 0 <= i < |s| ==> r[i] == HeaderOf(s[i])
  {
    seq(|s|, i requires 0 <= i < |s| => HeaderOf(s[i]))
  }

  /** Every record is a heap block of its own. */
  ghost predicate Records(k: KState, s: seq<Seg>) {
    NoDup(Hdrs(s)) && forall x :: x in Hdrs(s) ==> Live(k, x)
  }

  /** Each segment has pages of its own, which neither allocator holds. */
  ghost predicate Backing(l0: seq<Blk>, k: KState, s: seq<Seg>) {
    && OwnMemory(s)
    && forall x :: Backs(s, x) ==> x > 0 && Free(l0, x) && !Managed(k, x)
  }

  ghost predicate VInv(l0: seq<Blk>, v: VState) {
    && Within(l0, v.k) && v.segs != [] && SegsOk(v.segs)
    && v.total == Sum(v.segs) && v.total <= MAXMEM
    && Records(v.k, v.segs) && Backing(l0, v.k, v.segs)
  }

  // ----- Taking a part of a free segment -----

  /** From `v`, segment `i` has been carved; `add` are the headers of the new records. */
  ghost predicate CarvedFrom(l0: seq<Blk>, v: VState, w: VState, i: nat, lo: int, n: int, n1: int, n2: int,
                             flags: SegFlags, phys: int)
    requires i < |v.segs|
  {
    && CarveOk(v.segs[i], lo, n)
    && w.segs == v.segs[..i] + Carved(v.segs[i], lo, n, n1, n2, flags, phys) + v.segs[i + 1..]
    && w.total == v.total && Within(l0, w.k) && SameMemory(v.k, w.k)
    && Lives(v.k, w.k, NewNodes(v.segs[i], lo, n, n1, n2), {})
    && (lo > 0 ==> !Live(v.k, n1 - BLKHDR_SIZE))
    && (lo + n < v.segs[i].size ==> !Live(v.k, n2 - BLKHDR_SIZE))
    && (lo > 0 && lo + n < v.segs[i].size ==> n1 != n2)
  }

  function NewNodes(b: Seg, lo: int, n: int, n1: int, n2: int): set<int> {
    (if lo > 0 then {n1 - BLKHDR_SIZE} else {}) + (if lo + n < b.size then {n2 - BLKHDR_SIZE} else {})
  }

  /** Where the part is. */
  function CarvedAt(i: nat, lo: int): nat { if lo == 0 then i else i + 1 }

  lemma LivesNone(k: KState)
    ensures Lives(k, k, {}, {}) && SameMemory(k, k)
  {
    hide Live, Managed;
  }

  lemma WholeSeg(s: seq<Seg>, i: nat, flags: SegFlags)
    requires i < |s|
    ensures var b := s[i];
      s[i := b.(flags := flags)] == s[..i] + Carved(b, 0, b.size, 0, 0, flags, b.phys) + s[i + 1..]
  {
    var b := s[i];
    assert b.addr + 0 == b.addr;
    assert Carved(b, 0, b.size, 0, 0, flags, b.phys) == [b.(flags := flags)];
  }

  lemma FrontSeg(s: seq<Seg>, i: nat, n: int, n2: int, flags: SegFlags)
    requires i < |s| && 0 < n < s[i].size
    ensures var r := SplitSeg(s, i, n2, n);
      && i < |r| && r[i] == s[i].(size := n)
      && r[i := r[i].(flags := flags)] == s[..i] + Carved(s[i], 0, n, 0, n2, flags, s[i].phys) + s[i + 1..]
  {
    var b := s[i];
    assert b.addr + 0 == b.addr;
    var rest := Seg(n2, b.addr + n, b.size - n, Vacant, 0);
    var c := b.(size := n, flags := flags);
    assert Carved(b, 0, n, 0, n2, flags, b.phys) == [c, rest];
    var r := SplitSeg(s, i, n2, n);
    assert r[i := r[i].(flags := flags)] == s[..i] + [c, rest] + s[i + 1..];
  }

  /** seg_alloc sets apart the front of the first free segment that is large
      enough, unless no record can be had; then nothing has changed. */
  lemma SegAllocOk(l0: seq<Blk>, v: VState, n: int) returns (n2: int)
    requires Within(l0, v.k) && SegsOk(v.segs) && 0 < n && Aligned(n)
    ensures var (w, r) := SegAlloc(v, n);
      var i := SegFit(v.segs, n);
      && (r.Some? ==> r == Some(i) && i < |v.segs| && CarvedFrom(l0, v, w, i, 0, n, 0, n2, Vacant, v.segs[i].phys))
      && (r.None? ==> w == v)
  {
    hide Within, SegFit, Aligned, SegsOk, SameMemory, Lives, NodeAlloc, Live, Carved, SplitSeg, STiles, NoTouch;
    var i := SegFit(v.segs, n);
    n2 := 0;
    if i < |v.segs| {
      Parts(v.segs, i);
      AlignedZero();
      LivesNone(v.k);
      NodeAllocOk(l0, v.k);
      var (k, res) := NodeAlloc(v.k);
      if v.segs[i].size == n {
        WholeSeg(v.segs, i, Vacant);
        assert v.segs[i := v.segs[i].(flags := Vacant)] == v.segs;
      } else if res.Ptr? {
        n2 := res.ptr;
        FrontSeg(v.segs, i, n, n2, Vacant);
        SplitCarved(v.segs, i, n, n2);
      }
      NodesFront(v.segs[i], n, n2);
    }
  }

  /** Splitting alone carves out the front, still free. */
  lemma SplitCarved(s: seq<Seg>, i: nat, n: int, n2: int)
    requires i < |s| && 0 < n < s[i].size && s[i].IsFree()
    ensures SplitSeg(s, i, n2, n) == s[..i] + Carved(s[i], 0, n, 0, n2, Vacant, s[i].phys) + s[i + 1..]
  {
    var b := s[i];
    assert b.addr + 0 == b.addr;
    assert Carved(b, 0, n, 0, n2, Vacant, b.phys) ==
      [b.(size := n), Seg(n2, b.addr + n, b.size - n, Vacant, 0)];
  }

  lemma NodesFront(b: Seg, n: int, n2: int)
    ensures NewNodes(b, 0, n, 0, n2) == if n < b.size then {n2 - BLKHDR_SIZE} else {}
  {
  }

  lemma AlignedZero()
    ensures Aligned(0)
  {
  }

  /** The second half of seg_reserve on a free segment that starts at the address. */
  lemma ReserveFrontOk(l0: seq<Blk>, v: VState, i: nat, n: int) returns (n2: int)
    requires Within(l0, v.k) && i < |v.segs| && v.segs[i].IsFree() && 0 < n <= v.segs[i].size
    requires Aligned(v.segs[i].size) && Aligned(n)
    ensures var (w, r) := ReserveFront(v, i, n);
      && (r.Some? ==> r == Some(i) && CarvedFrom(l0, v, w, i, 0, n, 0, n2, NoAccess, v.segs[i].phys))
      && (r.None? ==> w == v)
  {
    hide Within, Aligned, SameMemory, Lives, NodeAlloc, Live, Carved, SplitSeg;
    n2 := 0;
    AlignedZero();
    LivesNone(v.k);
    NodeAllocOk(l0, v.k);
    var (k, res) := NodeAlloc(v.k);
    if v.segs[i].size == n {
      WholeSeg(v.segs, i, NoAccess);
    } else if res.Ptr? {
      n2 := res.ptr;
      FrontSeg(v.segs, i, n, n2, NoAccess);
    }
    NodesFront(v.segs[i], n, n2);
  }

  /** Splitting off the front and carving the second part out of the rest. */
  lemma CarveTwice(s: seq<Seg>, i: nat, lo: int, n: int, n1: int, n2: int)
    requires i < |s| && 0 < lo && 0 < n && lo + n <= s[i].size && s[i].IsFree()
    ensures var r := SplitSeg(s, i, n1, lo);
      && i + 1 < |r| && r[i + 1] == Seg(n1, s[i].addr + lo, s[i].size - lo, Vacant, 0)
      && r[..i + 1] + Carved(r[i + 1], 0, n, 0, n2, NoAccess, 0) + r[i + 2..]
           == s[..i] + Carved(s[i], lo, n, n1, n2, NoAccess, 0) + s[i + 1..]
  {
    var b := s[i];
    var r := SplitSeg(s, i, n1, lo);
    var c := Seg(n1, b.addr + lo, n, NoAccess, 0);
    var q := if lo + n == b.size then [] else [Seg(n2, b.addr + lo + n, b.size - lo - n, Vacant, 0)];
    assert r[..i + 1] == s[..i] + [b.(size := lo)] && r[i + 2..] == s[i + 1..];
    assert b.addr + lo + 0 == b.addr + lo;
    assert Carved(r[i + 1], 0, n, 0, n2, NoAccess, 0) == [c] + q;
    assert Carved(b, lo, n, n1, n2, NoAccess, 0) == [b.(size := lo)] + ([c] + q);
  }

  lemma FirstSplit(l0: seq<Blk>, v: VState, i: nat, lo: int)
    requires Within(l0, v.k) && i < |v.segs|
    ensures var (w, ok) := SegCreate(v, i, lo);
      && (!ok ==> w == v)
      && (ok ==> Within(l0, w.k) && SameMemory(v.k, w.k) && w.total == v.total
                 && w.segs == SplitSeg(v.segs, i, NodeAlloc(v.k).1.ptr, lo)
                 && NodeAlloc(v.k).1.Ptr?
                 && Lives(v.k, w.k, {NodeAlloc(v.k).1.ptr - BLKHDR_SIZE}, {})
                 && !Live(v.k, NodeAlloc(v.k).1.ptr - BLKHDR_SIZE))
  {
    hide Within, SameMemory, Lives, NodeAlloc, Live, SplitSeg;
    NodeAllocOk(l0, v.k);
  }

  // ----- Undoing -----

  /** What Merge does around a free segment `d`. */
  lemma MergeIs(v: VState, a: seq<Seg>, d: Seg, u: seq<Seg>)
    requires v.segs == a + [d] + u && d.IsFree()
    ensures u != [] && u[0].IsFree() ==>
      Merge(v, |a|) == v.(segs := a + [d.(size := d.size + u[0].size)] + u[1..], k := NodeFree(v.k, u[0].node))
    ensures u == [] || !u[0].IsFree() ==> Merge(v, |a|) == v
  {
    hide NodeFree;
    var r, j := v.segs, |a|;
    assert r[j] == d && r[..j] == a;
    if u != [] {
      assert r[j + 1] == u[0] && r[j + 2..] == u[1..];
    }
  }

  /** What Merge does when the segment before is in use. */
  lemma MergeNot(v: VState, j: int)
    requires j < |v.segs| && (j >= 0 ==> !v.segs[j].IsFree())
    ensures Merge(v, j) == v
  {
  }

  /** The state between the two merges of seg_free. */
  ghost predicate Undoing(l0: seq<Blk>, v: VState, w: VState, add: set<int>) {
    Within(l0, w.k) && SameMemory(v.k, w.k) && Lives(v.k, w.k, add, {}) && w.total == v.total
  }

  /** One of the added records is freed. */
  lemma NodeUndone(l0: seq<Blk>, v: VState, w: VState, add: set<int>, b: Seg, r: seq<Seg>)
    requires Undoing(l0, v, w, add) && HeaderOf(b) in add && !Live(v.k, HeaderOf(b))
    ensures Undoing(l0, v, w.(k := NodeFree(w.k, b.node), segs := r), add - {HeaderOf(b)})
  {
    hide Within, SameMemory, Lives, Live, NodeFree;
    LivesHas(v.k, w.k, add, HeaderOf(b));
    NodeFreeOk(l0, w.k, b.node);
    LivesUndo(v.k, w.k, NodeFree(w.k, b.node), add, HeaderOf(b));
    SameTrans(v.k, w.k, NodeFree(w.k, b.node));
  }

  lemma NextMerged(l0: seq<Blk>, v: VState, w: VState, a: seq<Seg>, d: Seg, q: seq<Seg>, t: seq<Seg>, add: set<int>)
    requires Undoing(l0, v, w, add) && w.segs == a + [d] + (q + t) && d.IsFree() && |q| <= 1
    requires q != [] ==> q[0].IsFree() && HeaderOf(q[0]) in add && !Live(v.k, HeaderOf(q[0]))
    requires q == [] ==> t == [] || !t[0].IsFree()
    ensures var r := Merge(w, |a|);
      && Undoing(l0, v, r, if q == [] then add else add - {HeaderOf(q[0])})
      && r.segs == a + [if q == [] then d else d.(size := d.size + q[0].size)] + t
  {
    hide Undoing, Live, Merge, NodeFree;
    MergeIs(w, a, d, q + t);
    if q == [] {
      assert q + t == t;
    } else {
      assert (q + t)[0] == q[0] && (q + t)[1..] == t;
      NodeUndone(l0, v, w, add, q[0], a + [d.(size := d.size + q[0].size)] + t);
    }
  }

  lemma PrevMerged(l0: seq<Blk>, v: VState, w: VState, h: seq<Seg>, p: seq<Seg>, e: Seg, t: seq<Seg>, add: set<int>)
    requires Undoing(l0, v, w, add) && w.segs == (h + p) + [e] + t && e.IsFree() && |p| <= 1
    requires p != [] ==> p[0].IsFree() && HeaderOf(e) in add && !Live(v.k, HeaderOf(e))
    requires p == [] ==> h == [] || !h[|h| - 1].IsFree()
    ensures var r := Merge(w, |h| + |p| - 1);
      && Undoing(l0, v, r, if p == [] then add else add - {HeaderOf(e)})
      && r.segs == if p == [] then h + [e] + t else h + [p[0].(size := p[0].size + e.size)] + t
  {
    hide Undoing, Live, Merge, NodeFree;
    if p == [] {
      assert h + p == h;
      if h != [] {
        assert w.segs[|h| - 1] == h[|h| - 1];
      }
      MergeNot(w, |h| - 1);
    } else {
      assert w.segs == h + [p[0]] + ([e] + t);
      MergeIs(w, h, p[0], [e] + t);
      assert ([e] + t)[1..] == t;
      NodeUndone(l0, v, w, add, e, h + [p[0].(size := p[0].size + e.size)] + t);
    }
  }

  /** The pieces of a carved segment. */
  function Low(b: Seg, lo: int): seq<Seg> { if lo == 0 then [] else [b.(size := lo)] }

  function Part(b: Seg, lo: int, n: int, n1: int, flags: SegFlags, phys: int): Seg {
    Seg(if lo == 0 then b.node else n1, b.addr + lo, n, flags, phys)
  }

  function High(b: Seg, lo: int, n: int, n2: int): seq<Seg> {
    if lo + n == b.size then [] else [Seg(n2, b.addr + lo + n, b.size - lo - n, Vacant, 0)]
  }

  lemma CarvedPieces(h: seq<Seg>, b: Seg, t: seq<Seg>, i: nat, lo: int, n: int, n1: int, n2: int,
                     flags: SegFlags, phys: int)
    requires |h| == i
    ensures var (p, c, q) := (Low(b, lo), Part(b, lo, n, n1, flags, phys), High(b, lo, n, n2));
      var s := h + Carved(b, lo, n, n1, n2, flags, phys) + t;
      && |h + p| == CarvedAt(i, lo) < |s| && s[CarvedAt(i, lo)] == c && s == (h + p) + [c] + (q + t)
      && forall d :: s[CarvedAt(i, lo) := d] == (h + p) + [d] + (q + t)
  {
    var (p, c, q) := (Low(b, lo), Part(b, lo, n, n1, flags, phys), High(b, lo, n, n2));
    assert Carved(b, lo, n, n1, n2, flags, phys) == p + [c] + q;
    hide Low, High, Part, Carved;
    var s := h + (p + [c] + q) + t;
    assert s == (h + p) + [c] + (q + t);
  }

  /** seg_free of a part that was carved out gives the old list and frees the
      records that the carving took. */
  lemma UncarveOk(l0: seq<Blk>, v: VState, w: VState, i: nat, lo: int, n: int, n1: int, n2: int,
                  flags: SegFlags, phys: int)
    requires SegsOk(v.segs) && i < |v.segs| && (lo == 0 ==> phys == v.segs[i].phys)
    requires CarvedFrom(l0, v, w, i, lo, n, n1, n2, flags, phys)
    ensures CarvedAt(i, lo) < |w.segs|
    ensures var r := SegFree(w, CarvedAt(i, lo)); Undoing(l0, v, r, {}) && r.segs == v.segs
  {
    hide Within, STiles, NoTouch, Aligned, SameMemory, Lives, Live, NodeFree, Carved, Merge;
    Parts(v.segs, i);
    var (h, b, t) := (v.segs[..i], v.segs[i], v.segs[i + 1..]);
    var (p, c, q) := (Low(b, lo), Part(b, lo, n, n1, flags, phys), High(b, lo, n, n2));
    CarvedPieces(h, b, t, i, lo, n, n1, n2, flags, phys);
    var d := c.(flags := Vacant);
    var w1 := w.(segs := w.segs[CarvedAt(i, lo) := d]);
    var add := NewNodes(b, lo, n, n1, n2);
    NextMerged(l0, v, w1, h + p, d, q, t, add);
    var w2 := Merge(w1, CarvedAt(i, lo));
    var e := if q == [] then d else d.(size := d.size + q[0].size);
    var add2 := if q == [] then add else add - {HeaderOf(q[0])};
    PrevMerged(l0, v, w2, h, p, e, t, add2);
    assert (if p == [] then add2 else add2 - {HeaderOf(e)}) == {};
    assert (if p == [] then e else p[0].(size := p[0].size + e.size)) == b;
  }

  // ----- seg_reserve -----

  lemma SplitIsCarved(s: seq<Seg>, i: nat, lo: int, n1: int)
    requires i < |s| && 0 < lo < s[i].size && s[i].IsFree()
    ensures var b := s[i];
      SplitSeg(s, i, n1, lo) == s[..i] + Carved(b, lo, b.size - lo, n1, 0, Vacant, 0) + s[i + 1..]
  {
    var b := s[i];
    assert Carved(b, lo, b.size - lo, n1, 0, Vacant, 0) ==
      [b.(size := lo), Seg(n1, b.addr + lo, b.size - lo, Vacant, 0)];
  }

  lemma NodesSplit(b: Seg, lo: int, n1: int)
    requires 0 < lo
    ensures NewNodes(b, lo, b.size - lo, n1, 0) == {n1 - BLKHDR_SIZE}
  {
  }

  /** The first split of seg_reserve, as a carving. */
  lemma SplitOff(l0: seq<Blk>, v: VState, i: nat, lo: int) returns (n1: int)
    requires Within(l0, v.k) && i < |v.segs| && v.segs[i].IsFree() && 0 < lo < v.segs[i].size
    requires Aligned(lo) && Aligned(v.segs[i].size)
    ensures var (w, ok) := SegCreate(v, i, lo);
      && (!ok ==> w == v)
      && (ok ==> CarvedFrom(l0, v, w, i, lo, v.segs[i].size - lo, n1, 0, Vacant, 0))
      && (ok ==> w.segs == SplitSeg(v.segs, i, n1, lo))
  {
    hide Within, SameMemory, Lives, NodeAlloc, Live, SplitSeg, Carved;
    AlignedSum(v.segs[i].size, lo);
    hide Aligned;
    FirstSplit(l0, v, i, lo);
    var res := NodeAlloc(v.k).1;
    n1 := if res.Ptr? then res.ptr else 0;
    SplitIsCarved(v.segs, i, lo, n1);
    NodesSplit(v.segs[i], lo, n1);
  }

  /** Carving the front of the second part: both carvings in one. */
  lemma CarvedTwice(l0: seq<Blk>, v: VState, w: VState, x: VState, i: nat, lo: int, n: int, n1: int, n2: int)
    requires i < |v.segs| && lo > 0 && CarvedFrom(l0, v, w, i, lo, v.segs[i].size - lo, n1, 0, Vacant, 0)
    requires w.segs == SplitSeg(v.segs, i, n1, lo) && i + 1 < |w.segs|
    requires CarvedFrom(l0, w, x, i + 1, 0, n, 0, n2, NoAccess, w.segs[i + 1].phys)
    ensures CarvedFrom(l0, v, x, i, lo, n, n1, n2, NoAccess, 0)
  {
    hide Within, SameMemory, Lives, Live, SplitSeg, Carved, Aligned;
    SplitParts(v.segs, i, lo, n1);
    var b := v.segs[i];
    var rest := w.segs[i + 1];
    CarveTwice(v.segs, i, lo, n, n1, n2);
    NodesSplit(b, lo, n1);
    NodesFront(rest, n, n2);
    LivesHas(v.k, w.k, {n1 - BLKHDR_SIZE}, n1 - BLKHDR_SIZE);
    SameTrans(v.k, w.k, x.k);
    var add := NewNodes(rest, 0, n, 0, n2);
    var none: set<int> := {};
    LivesTrans(v.k, w.k, x.k, {n1 - BLKHDR_SIZE}, none, add, none);
    assert ({n1 - BLKHDR_SIZE} - none) + add == NewNodes(b, lo, n, n1, n2) && none + none == none;
    if n < rest.size {
      LivesBefore(v.k, w.k, {n1 - BLKHDR_SIZE}, n2 - BLKHDR_SIZE);
    }
  }

  lemma LivesBefore(a: KState, b: KState, add: set<int>, x: int)
    requires Lives(a, b, add, {}) && !Live(b, x)
    ensures !Live(a, x)
  {
    hide Live;
  }

  lemma SplitParts(s: seq<Seg>, i: nat, lo: int, n1: int)
    requires i < |s|
    ensures var r := SplitSeg(s, i, n1, lo);
      |r| == |s| + 1 && r[i + 1] == Seg(n1, s[i].addr + lo, s[i].size - lo, Vacant, 0)
  {
  }

  /** seg_reserve sets the range apart if it lies in one free segment and the
      records can be had; else the list is as it was, also after the undo. */
  lemma SegReserveOk(l0: seq<Blk>, v: VState, start: int, n: int) returns (n1: int, n2: int)
    requires Within(l0, v.k) && SegsOk(v.segs) && 0 < n && Aligned(n) && Aligned(start)
    ensures var (w, r) := SegReserve(v, start, n);
      var i := SegLookup(v.segs, start, n);
      && (r.Some? ==>
            && i < |v.segs| && v.segs[i].IsFree()
            && var lo := start - v.segs[i].addr;
            && r == Some(CarvedAt(i, lo))
            && CarvedFrom(l0, v, w, i, lo, n, n1, n2, NoAccess, if lo == 0 then v.segs[i].phys else 0))
      && (r.None? ==> Undoing(l0, v, w, {}) && w.segs == v.segs)
  {
    hide Within, SegLookup, SameMemory, Lives, Live, Carved, SplitSeg, STiles, NoTouch, NodeAlloc, SegFree, ReserveFront,
      SegCreate, CarvedFrom;
    n1, n2 := 0, 0;
    LivesNone(v.k);
    var i := SegLookup(v.segs, start, n);
    if i < |v.segs| && v.segs[i].IsFree() {
      Parts(v.segs, i);
      var lo := start - v.segs[i].addr;
      if lo == 0 {
        n2 := ReserveFrontOk(l0, v, i, n);
      } else {
        AlignedSum(start, v.segs[i].addr);
        hide Aligned;
        n1 := SplitOff(l0, v, i, lo);
        var (w, ok) := SegCreate(v, i, lo);
        if ok {
          n2 := ReserveSecond(l0, v, w, i, lo, n, n1);
        }
      }
    }
  }

  lemma ReserveSecond(l0: seq<Blk>, v: VState, w: VState, i: nat, lo: int, n: int, n1: int) returns (n2: int)
    requires SegsOk(v.segs) && i < |v.segs| && 0 < lo && 0 < n && lo + n <= v.segs[i].size && Aligned(n)
    requires CarvedFrom(l0, v, w, i, lo, v.segs[i].size - lo, n1, 0, Vacant, 0) && w.segs == SplitSeg(v.segs, i, n1, lo)
    ensures i + 1 < |w.segs|
    ensures var (x, r) := ReserveFront(w, i + 1, n);
      && (r.Some? ==> r == Some(i + 1) && CarvedFrom(l0, v, x, i, lo, n, n1, n2, NoAccess, 0))
      && (r.None? ==> i + 1 < |x.segs| && Undoing(l0, v, SegFree(x, i + 1), {}) && SegFree(x, i + 1).segs == v.segs)
  {
    hide Within, SameMemory, Lives, Live, Carved, SplitSeg, STiles, NoTouch, SegFree, ReserveFront, Undoing;
    SplitParts(v.segs, i, lo, n1);
    AlignedSum(v.segs[i].size, lo);
    hide Aligned;
    n2 := ReserveFrontOk(l0, w, i + 1, n);
    var (x, r) := ReserveFront(w, i + 1, n);
    if r.Some? {
      CarvedTwice(l0, v, w, x, i, lo, n, n1, n2);
    } else {
      UncarveOk(l0, v, w, i, lo, v.segs[i].size - lo, n1, 0, Vacant, 0);
    }
  }
}
