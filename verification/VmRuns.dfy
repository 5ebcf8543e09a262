/** The operations on an address space over whole runs. */
module VmRuns {
  import opened Lists
  import opened Page
  import opened PageRuns
  import opened Kmem
  import opened KmemRuns
  import opened Vm
  import opened VmSegs
  import opened VmMem
  import opened VmSteps

  // ----- Records -----

  lemma HdrsAppend(a: seq<Seg>, b: seq<Seg>)
    ensures Hdrs(a + b) == Hdrs(a) + Hdrs(b)
  {
  }

  lemma Hdrs3(a: seq<Seg>, b: seq<Seg>, c: seq<Seg>)
    ensures Hdrs(a + b + c) == Hdrs(a) + Hdrs(b) + Hdrs(c)
  {
    HdrsAppend(a + b, c);
    HdrsAppend(a, b);
  }

  lemma InsertFresh(a: seq<int>, x: int, c: seq<int>)
    requires NoDup(a + c) && x !in a + c
    ensures NoDup(a + [x] + c)
  {
    var s, r := a + c, a + [x] + c;
    assert forall i :: 0 <= i < |a| ==> r[i] == s[i];
    assert r[|a|] == x;
    assert forall i :: |a| < i < |r| ==> r[i] == s[i - 1];
  }

  /** The headers of a carved segment: its own and the new ones. */
  lemma CarvedHdrs(b: Seg, lo: int, n: int, n1: int, n2: int, flags: SegFlags, phys: int)
    requires CarveOk(b, lo, n)
    ensures Hdrs(Carved(b, lo, n, n1, n2, flags, phys)) ==
      [HeaderOf(b)] + (if lo > 0 then [n1 - BLKHDR_SIZE] else [])
        + (if lo + n < b.size then [n2 - BLKHDR_SIZE] else [])
  {
  }

  lemma CarvedRecords(l0: seq<Blk>, v: VState, w: VState, i: nat, lo: int, n: int, n1: int, n2: int,
                      flags: SegFlags, phys: int)
    requires i < |v.segs| && CarvedFrom(l0, v, w, i, lo, n, n1, n2, flags, phys) && Records(v.k, v.segs)
    ensures Records(w.k, w.segs)
  {
    hide Within, SameMemory, Live, NoDup, Carved, Lives, Hdrs, Records;
    var (h, b, t) := (v.segs[..i], v.segs[i], v.segs[i + 1..]);
    assert v.segs == h + [b] + t;
    var m := Carved(b, lo, n, n1, n2, flags, phys);
    RecordsUnfold(v.k, v.segs);
    Hdrs3(h, [b], t);
    Hdrs3(h, m, t);
    HdrsOne(b);
    CarvedHdrs(b, lo, n, n1, n2, flags, phys);
    var x1 := if lo > 0 then [n1 - BLKHDR_SIZE] else [];
    var x2 := if lo + n < b.size then [n2 - BLKHDR_SIZE] else [];
    AddHeaders(v.k, w.k, Hdrs(h) + [HeaderOf(b)], Hdrs(t), x1, x2, NewNodes(b, lo, n, n1, n2));
    Assoc(Hdrs(h), [HeaderOf(b)], x1, x2, Hdrs(t));
    RecordsFold(w.k, w.segs);
  }

  lemma HdrsOne(b: Seg)
    ensures Hdrs([b]) == [HeaderOf(b)]
  {
  }

  lemma Assoc(a: seq<int>, b: seq<int>, c: seq<int>, d: seq<int>, e: seq<int>)
    ensures a + (b + c + d) + e == (a + b) + c + d + e
  {
  }

  lemma RecordsUnfold(k: KState, s: seq<Seg>)
    requires Records(k, s)
    ensures NoDup(Hdrs(s)) && forall x :: x in Hdrs(s) ==> Live(k, x)
  {
    hide Live, NoDup;
  }

  lemma RecordsFold(k: KState, s: seq<Seg>)
    requires NoDup(Hdrs(s)) && forall x :: x in Hdrs(s) ==> Live(k, x)
    ensures Records(k, s)
  {
    hide Live, NoDup;
  }

  lemma AddHeaders(k: KState, r: KState, a: seq<int>, c: seq<int>, x1: seq<int>, x2: seq<int>, add: set<int>)
    requires NoDup(a + c) && forall x :: x in a + c ==> Live(k, x)
    requires |x1| <= 1 && |x2| <= 1 && Lives(k, r, add, {})
    requires forall x :: x in x1 || x in x2 ==> x in add && !Live(k, x)
    requires x1 != [] && x2 != [] ==> x1[0] != x2[0]
    ensures NoDup(a + x1 + x2 + c) && forall x :: x in a + x1 + x2 + c ==> Live(r, x)
  {
    hide Live, NoDup;
    if x1 != [] {
      assert x1 == [x1[0]] && x1[0] in x1;
      InsertFresh(a, x1[0], c);
    } else {
      assert a + x1 == a;
    }
    assert NoDup(a + x1 + c);
    if x2 != [] {
      assert x2 == [x2[0]] && x2[0] in x2;
      InsertFresh(a + x1, x2[0], c);
    } else {
      assert a + x1 + x2 == a + x1;
    }
  }

  // ----- do_allocate -----

  lemma VParts(l0: seq<Blk>, v: VState)
    requires VInv(l0, v)
    ensures Within(l0, v.k) && SegsOk(v.segs) && Records(v.k, v.segs) && Backing(l0, v.k, v.segs) && v.segs != []
  {
    hide Within, SegsOk, Records, Backing;
  }

  /** An operation that was undone has left no trace: the segments, the total and
      the page allocator are as before. */
  lemma UndoneOk(l0: seq<Blk>, v: VState, r: VState)
    requires VInv(l0, v) && Undoing(l0, v, r, {}) && r.segs == v.segs
    ensures VInv(l0, r) && NoTrace(v, r)
  {
    hide Within, SegsOk, NoDup, OwnMemory, Backs, Live, Managed, Free, Sum, Hdrs;
    SamePageList(l0, v.k, r.k);
  }

  /** From the part set apart to the part in use. */
  lemma InUseOk(l0: seq<Blk>, v: VState, w: VState, i: nat, lo: int, n: int, n1: int, n2: int, p: PState, pa: int)
    requires VInv(l0, v) && i < |v.segs| && CarvedFrom(l0, v, w, i, lo, n, n1, n2, ReadWrite, pa)
    requires v.total + n <= MAXMEM
    requires var k := w.k.(p := p);
      && Within(l0, k) && Lives(w.k, k, {}, {}) && Outside(l0, k, pa, n)
      && (forall x :: Managed(k, x) <==> Managed(w.k, x) && !(pa <= x < pa + n))
      && (forall x :: pa <= x < pa + n ==> Managed(w.k, x))
    ensures var r := w.(k := w.k.(p := p), total := v.total + n);
      && VInv(l0, r) && Mapped(v.segs, r.segs, v.segs[i].addr + lo, n, pa) && Conserved(v, r)
  {
    hide Within, SegsOk, NoDup, OwnMemory, Backs, Live, Managed, Free;
    hide Sum, Hdrs, Mapped, Whole, Records, Lives, SameMemory, Carved;
    VParts(l0, v);
    var r := w.(k := w.k.(p := p), total := v.total + n);
    CarvedOk(v.segs, i, lo, n, n1, n2, pa);
    CarvedRecords(l0, v, w, i, lo, n, n1, n2, ReadWrite, pa);
    SameRecords(w.k, r.k, w.segs);
    TakenBacking(l0, v, w, r, i, lo, n, n1, n2, pa);
  }

  lemma SameRecords(k: KState, r: KState, s: seq<Seg>)
    requires Records(k, s) && Lives(k, r, {}, {})
    ensures Records(r, s)
  {
    hide Live, NoDup;
  }

  /** Every byte is still in one of the two allocators or behind a segment. */
  ghost predicate Conserved(v: VState, r: VState) {
    forall x :: Managed(r.k, x) || Backs(r.segs, x) <==> Managed(v.k, x) || Backs(v.segs, x)
  }

  lemma TakenBacking(l0: seq<Blk>, v: VState, w: VState, r: VState, i: nat, lo: int, n: int, n1: int, n2: int, pa: int)
    requires SegsOk(v.segs) && i < |v.segs| && CarveOk(v.segs[i], lo, n) && Backing(l0, v.k, v.segs)
    requires r.segs == v.segs[..i] + Carved(v.segs[i], lo, n, n1, n2, ReadWrite, pa) + v.segs[i + 1..]
    requires BacksAlso(v.segs, r.segs, pa, n) && SameMemory(v.k, w.k) && Outside(l0, r.k, pa, n)
    requires forall x :: Managed(r.k, x) <==> Managed(w.k, x) && !(pa <= x < pa + n)
    requires forall x :: pa <= x < pa + n ==> Managed(w.k, x)
    ensures Backing(l0, r.k, r.segs) && Conserved(v, r)
  {
    hide SegsOk, OwnMemory, Backs, Managed, Free, Carved, Whole;
    forall x | pa <= x < pa + n ensures !Backs(v.segs, x) {
      assert Managed(w.k, x);
    }
    CarvedOwn(v.segs, i, lo, n, n1, n2, pa);
  }

  /** do_allocate from the part set apart on: success maps exactly that part to
      pages of its own; failure leaves no trace. */
  lemma PopulateOk(l0: seq<Blk>, v: VState, w: VState, i: nat, lo: int, n: int, n1: int, n2: int,
                   flags: SegFlags, phys: int, mapped: bool)
    requires VInv(l0, v) && i < |v.segs| && CarvedFrom(l0, v, w, i, lo, n, n1, n2, flags, phys)
    requires (lo == 0 ==> phys == v.segs[i].phys) && v.total + n <= MAXMEM
    ensures CarvedAt(i, lo) < |w.segs|
    ensures var (r, e) := Populate(w, CarvedAt(i, lo), n, mapped);
      && VInv(l0, r) && Conserved(v, r)
      && (e.Ok? ==> e.addr == v.segs[i].addr + lo && MappedSome(v.segs, r.segs, e.addr, n) && r.total == v.total + n)
      && (e.Fail? ==> e == Fail(ENOMEM) && NoTrace(v, r))
      && (e.Ok? <==> mapped && exists b :: AllFree(w.k.p.free, b, n))
  {
    hide VInv, Within, Carved, SameMemory, Lives, Live, Conserved, SegFree, PageAlloc, AllFree, PageFree, Aligned, Outside,
      MappedSome, NoTrace, Undoing, Managed;
    WholeIn(l0, v, i, lo, n);
    var (h, b, t) := (v.segs[..i], v.segs[i], v.segs[i + 1..]);
    CarvedPieces(h, b, t, i, lo, n, n1, n2, flags, phys);
    CarvedPieces(h, b, t, i, lo, n, n1, n2, ReadWrite, phys);
    var j := CarvedAt(i, lo);
    var w1 := Occupy(w, j, ReadWrite, w.segs[j].phys);
    PartWith(b, lo, n, n1, flags, phys);
    assert w1.segs == h + Carved(b, lo, n, n1, n2, ReadWrite, phys) + t;
    if exists x :: AllFree(w.k.p.free, x, n) {
      PagesTaken(l0, w.k, n);
      var (p, pa) := PageAlloc(w.k.p, n);
      if mapped {
        CarvedPieces(h, b, t, i, lo, n, n1, n2, ReadWrite, pa);
        PartWith(b, lo, n, n1, ReadWrite, pa);
        var u := w.(segs := h + Carved(b, lo, n, n1, n2, ReadWrite, pa) + t);
        assert Occupy(w1, j, ReadWrite, pa).segs == u.segs;
        InUseOk(l0, v, u, i, lo, n, n1, n2, p, pa);
        MappedIs(v.segs, u.segs, v.segs[i].addr + lo, n, pa);
      } else {
        assert w1.(k := w1.k.(p := w.k.p)) == w1;
        PopulateFails(l0, v, w1, i, lo, n, n1, n2, phys);
      }
    } else {
      NoPages(l0, w.k, n);
      assert w1.(k := w1.k.(p := w.k.p)) == w1;
      PopulateFails(l0, v, w1, i, lo, n, n1, n2, phys);
    }
  }

  ghost predicate MappedSome(s: seq<Seg>, r: seq<Seg>, a: int, n: int) {
    exists phys :: Mapped(s, r, a, n, phys)
  }

  lemma MappedIs(s: seq<Seg>, r: seq<Seg>, a: int, n: int, phys: int)
    requires Mapped(s, r, a, n, phys)
    ensures MappedSome(s, r, a, n)
  {
    hide Mapped;
  }

  /** Segments, total and page allocator are as before. */
  predicate NoTrace(v: VState, r: VState) {
    r.segs == v.segs && r.total == v.total && r.k.p == v.k.p
  }

  lemma PartWith(b: Seg, lo: int, n: int, n1: int, flags: SegFlags, phys: int)
    ensures var c := Part(b, lo, n, n1, flags, phys);
      c.phys == phys && forall f, q :: c.(flags := f, phys := q) == Part(b, lo, n, n1, f, q)
  {
  }

  lemma WholeIn(l0: seq<Blk>, v: VState, i: nat, lo: int, n: int)
    requires VInv(l0, v) && i < |v.segs| && CarveOk(v.segs[i], lo, n)
    ensures SegsOk(v.segs) && 0 < n <= WORD - PAGE_SIZE && Aligned(n)
  {
    hide Within, STiles, NoTouch, Records, Backing, Aligned, Sum;
    Parts(v.segs, i);
  }

  lemma NoPages(l0: seq<Blk>, k: KState, n: int)
    requires Within(l0, k) && 0 < n <= WORD - PAGE_SIZE && Aligned(n) && forall b :: !AllFree(k.p.free, b, n)
    ensures PageAlloc(k.p, n) == (k.p, 0)
  {
    KInvParts(k);
    WholeRound(n);
    hide KInv, PInv, PageAlloc, RoundPage, Canon, Free;
    PageAllocMeans(k.p, n);
  }

  lemma PopulateFails(l0: seq<Blk>, v: VState, w: VState, i: nat, lo: int, n: int, n1: int, n2: int, phys: int)
    requires VInv(l0, v) && i < |v.segs| && CarvedFrom(l0, v, w, i, lo, n, n1, n2, ReadWrite, phys)
    requires lo == 0 ==> phys == v.segs[i].phys
    ensures CarvedAt(i, lo) < |w.segs|
    ensures var r := SegFree(w, CarvedAt(i, lo)); VInv(l0, r) && Conserved(v, r) && NoTrace(v, r)
  {
    hide VInv, SegsOk, Records, Backing, SegFree, CarvedFrom, Within;
    VParts(l0, v);
    UncarveOk(l0, v, w, i, lo, n, n1, n2, ReadWrite, phys);
    UndoneOk(l0, v, SegFree(w, CarvedAt(i, lo)));
    UndoneConserved(l0, v, SegFree(w, CarvedAt(i, lo)));
  }

  lemma UndoneConserved(l0: seq<Blk>, v: VState, r: VState)
    requires Undoing(l0, v, r, {}) && r.segs == v.segs
    ensures Conserved(v, r)
  {
    hide Managed, Backs, Within, Lives;
  }

  // ----- do_allocate as a whole -----

  /** The size do_allocate works with after its checks. */
  function Rounded(addr: int, size: int, anywhere: bool): int {
    if anywhere then RoundPage(size) else RoundPage(TruncPage(addr) + size) - TruncPage(addr)
  }

  lemma RoundedOk(addr: int, size: int, anywhere: bool, total: int)
    requires 0 < size && 0 <= total && total + size < MAXMEM && 0 <= addr < USERLIMIT && Aligned(total)
    ensures var n := Rounded(addr, size, anywhere);
      && 0 < size <= n < size + PAGE_SIZE && Aligned(n) && total + n <= MAXMEM
      && Aligned(TruncPage(addr)) && 0 <= TruncPage(addr) <= addr < TruncPage(addr) + PAGE_SIZE
  {
    RoundPageFacts(size);
    TruncFacts(addr);
    RoundPageFacts(TruncPage(addr) + size);
    AlignedSum(RoundPage(TruncPage(addr) + size), TruncPage(addr));
    var n := Rounded(addr, size, anywhere);
    assert n < size + PAGE_SIZE;
    hide RoundPage, TruncPage, Rounded;
    WholePages(total, n);
  }

  lemma WholePages(total: int, n: int)
    requires Aligned(total) && Aligned(n) && total + n < MAXMEM + PAGE_SIZE
    ensures total + n <= MAXMEM
  {
  }

  lemma {:induction false} SumAligned(s: seq<Seg>, from: int, to: int)
    requires STiles(s, from, to)
    ensures Aligned(Sum(s)) && 0 <= Sum(s)
    decreases |s|
  {
    if s == [] {
      AlignedZero();
    } else {
      SumAligned(s[1..], s[0].End(), to);
      AlignedSum(s[0].size, Sum(s[1..]));
    }
  }

  lemma TotalAligned(l0: seq<Blk>, v: VState)
    requires VInv(l0, v)
    ensures 0 <= v.total && Aligned(v.total)
  {
    hide Within, Records, Backing, Aligned, NoTouch;
    SumAligned(v.segs, PAGE_SIZE, USERLIMIT);
  }

  /** do_allocate keeps the invariant. A success maps a whole number of pages
      that covers the request, in what was free space: at the page of `addr`, or
      at the lowest free segment that is large enough; nothing else changes. A
      failure leaves segments, total and page allocator as they were, on every
      path. All memory stays accounted for. */
  lemma DoAllocateOk(l0: seq<Blk>, v: VState, addr: int, size: int, anywhere: bool, mapped: bool)
    requires VInv(l0, v) && 0 <= size && 0 <= addr < USERLIMIT
    ensures var (r, e) := DoAllocate(v, addr, size, anywhere, mapped);
      var n := Rounded(addr, size, anywhere);
      && VInv(l0, r) && Conserved(v, r)
      && (e == Fail(EINVAL) <==> size == 0)
      && (e.Fail? ==> NoTrace(v, r))
      && (e.Ok? ==>
            && 0 < size <= n < size + PAGE_SIZE && Aligned(n) && r.total == v.total + n && MappedSome(v.segs, r.segs, e.addr, n) && Vacancy(v.segs, e.addr, n)
            && (!anywhere ==> e.addr == TruncPage(addr) && Aligned(e.addr) && e.addr <= addr < e.addr + PAGE_SIZE)
            && (anywhere ==> SegFit(v.segs, n) < |v.segs| && e.addr == v.segs[SegFit(v.segs, n)].addr))
      && (size > 0 && v.total + size >= MAXMEM ==> e == Fail(ENOMEM))
  {
    hide VInv, Conserved, MappedSome, Vacancy, SegAlloc, SegReserve, Populate, RoundPage, TruncPage, SegFit;
    if size == 0 || v.total + size >= MAXMEM {
      NothingDone(l0, v);
    } else {
      TotalAligned(l0, v);
      RoundedOk(addr, size, anywhere, v.total);
      hide Aligned;
      if anywhere {
        AllocateAnywhere(l0, v, Rounded(addr, size, anywhere), mapped);
      } else {
        AllocateAt(l0, v, TruncPage(addr), Rounded(addr, size, anywhere), mapped);
      }
    }
  }

  /** The range lies in one free segment. */
  ghost predicate Vacancy(s: seq<Seg>, a: int, n: int) {
    exists i :: 0 <= i < |s| && s[i].IsFree() && s[i].addr <= a && a + n <= s[i].End()
  }

  lemma NothingDone(l0: seq<Blk>, v: VState)
    ensures Conserved(v, v) && NoTrace(v, v)
  {
    hide Managed, Backs;
  }

  /** What do_allocate with the rounded size `n` promises; on success the memory is at `a`. */
  ghost predicate Allocated(l0: seq<Blk>, v: VState, r: VState, e: VResult, a: int, n: int) {
    && VInv(l0, r) && Conserved(v, r)
    && (e.Fail? ==> e == Fail(ENOMEM) && NoTrace(v, r))
    && (e.Ok? ==>
          e.addr == a && r.total == v.total + n && MappedSome(v.segs, r.segs, a, n) && Vacancy(v.segs, a, n))
  }

  lemma PopulateDone(l0: seq<Blk>, v: VState, w: VState, i: nat, lo: int, n: int, n1: int, n2: int,
                     flags: SegFlags, phys: int, mapped: bool)
    requires VInv(l0, v) && i < |v.segs| && CarvedFrom(l0, v, w, i, lo, n, n1, n2, flags, phys)
    requires (lo == 0 ==> phys == v.segs[i].phys) && v.total + n <= MAXMEM
    ensures CarvedAt(i, lo) < |w.segs|
    ensures var (r, e) := Populate(w, CarvedAt(i, lo), n, mapped); Allocated(l0, v, r, e, v.segs[i].addr + lo, n)
  {
    hide VInv, Conserved, MappedSome, Populate, CarvedFrom, CarvedAt, NoTrace, Vacancy;
    PartVacant(l0, v, w, i, lo, n, n1, n2, flags, phys);
    PopulateOk(l0, v, w, i, lo, n, n1, n2, flags, phys, mapped);
  }

  lemma PartVacant(l0: seq<Blk>, v: VState, w: VState, i: nat, lo: int, n: int, n1: int, n2: int,
                   flags: SegFlags, phys: int)
    requires i < |v.segs| && CarvedFrom(l0, v, w, i, lo, n, n1, n2, flags, phys)
    ensures Vacancy(v.segs, v.segs[i].addr + lo, n)
  {
    hide Within, SameMemory, Lives, Live, Carved;
    VacancyAt(v.segs, i, v.segs[i].addr + lo, n);
  }

  lemma UndoneDone(l0: seq<Blk>, v: VState, r: VState, a: int, n: int)
    requires VInv(l0, v) && Undoing(l0, v, r, {}) && r.segs == v.segs
    ensures Allocated(l0, v, r, Fail(ENOMEM), a, n)
  {
    hide VInv, Conserved, MappedSome, NoTrace, Vacancy, Undoing;
    UndoneOk(l0, v, r);
    UndoneConserved(l0, v, r);
  }

  lemma NothingUndone(l0: seq<Blk>, v: VState)
    requires VInv(l0, v)
    ensures Undoing(l0, v, v, {})
  {
    hide Within, SegsOk, Records, Backing, Lives, SameMemory;
    LivesNone(v.k);
  }

  lemma AllocateAnywhere(l0: seq<Blk>, v: VState, n: int, mapped: bool)
    requires VInv(l0, v) && 0 < n && Aligned(n) && v.total + n <= MAXMEM
    ensures var (w, i) := SegAlloc(v, n);
      var (r, e) := if i.Some? then Populate(w, i.value, n, mapped) else (w, Fail(ENOMEM));
      var f := SegFit(v.segs, n);
      && Allocated(l0, v, r, e, if f < |v.segs| then v.segs[f].addr else 0, n)
      && (e.Ok? ==> f < |v.segs|)
  {
    hide VInv, Allocated, SegAlloc, Populate, SegFit, CarvedFrom, Within, SegsOk, Records, Backing, Aligned, Undoing;
    VParts(l0, v);
    var n2 := SegAllocOk(l0, v, n);
    var (w, i) := SegAlloc(v, n);
    if i.Some? {
      PopulateDone(l0, v, w, i.value, 0, n, 0, n2, Vacant, v.segs[i.value].phys, mapped);
    } else {
      var f := SegFit(v.segs, n);
      NothingUndone(l0, v);
      UndoneDone(l0, v, w, if f < |v.segs| then v.segs[f].addr else 0, n);
    }
  }

  lemma AllocateAt(l0: seq<Blk>, v: VState, start: int, n: int, mapped: bool)
    requires VInv(l0, v) && 0 < n && Aligned(n) && Aligned(start) && v.total + n <= MAXMEM
    ensures var (w, i) := SegReserve(v, start, n);
      var (r, e) := if i.Some? then Populate(w, i.value, n, mapped) else (w, Fail(ENOMEM));
      Allocated(l0, v, r, e, start, n)
  {
    hide VInv, Allocated, SegReserve, Populate, SegLookup, CarvedFrom, Within, SegsOk, Records, Backing, Aligned, Undoing,
      CarvedAt;
    VParts(l0, v);
    var n1, n2 := SegReserveOk(l0, v, start, n);
    var (w, j) := SegReserve(v, start, n);
    var i := SegLookup(v.segs, start, n);
    if j.Some? {
      var lo := start - v.segs[i].addr;
      PopulateDone(l0, v, w, i, lo, n, n1, n2, NoAccess, if lo == 0 then v.segs[i].phys else 0, mapped);
    } else {
      UndoneDone(l0, v, w, start, n);
    }
  }

  lemma VacancyAt(s: seq<Seg>, i: nat, a: int, n: int)
    requires i < |s| && s[i].IsFree() && s[i].addr <= a && a + n <= s[i].End()
    ensures Vacancy(s, a, n)
  {
  }

  // ----- When do_allocate succeeds -----

  /** Two records, or after them the pages, cannot be had. */
  ghost predicate Short(k: KState, n: int) {
    var (k1, r1) := NodeAlloc(k);
    var (k2, r2) := NodeAlloc(k1);
    !r1.Ptr? || !r2.Ptr? || forall b :: !AllFree(k2.p.free, b, n)
  }

  ghost predicate Shrinks(k: KState, r: KState) {
    forall x :: Free(r.p.free, x) ==> Free(k.p.free, x)
  }

  lemma NodeAllocShrinks(l0: seq<Blk>, k: KState)
    requires Within(l0, k)
    ensures Shrinks(k, NodeAlloc(k).0)
  {
    hide KInv, PInv, KmemAlloc, Free, Managed, PageAlloc, Canon;
    KAllocWithin(l0, k, SEG_SIZE);
    AllocPages(k, SEG_SIZE);
    KInvParts(k);
    OnePage();
    PageAllocMeans(k.p, PAGE_SIZE);
  }

  lemma RunKept(k: KState, r: KState, n: int)
    requires Shrinks(k, r) && exists b :: AllFree(r.p.free, b, n)
    ensures exists b :: AllFree(k.p.free, b, n)
  {
    hide Free;
    var b :| AllFree(r.p.free, b, n);
    assert AllFree(k.p.free, b, n);
  }

  /** If memory is not short, pages are left after none, one or two records. */
  lemma NotShort(l0: seq<Blk>, k: KState, n: int)
    requires Within(l0, k) && !Short(k, n)
    ensures var (k1, r1) := NodeAlloc(k);
      var (k2, r2) := NodeAlloc(k1);
      && r1.Ptr? && r2.Ptr?
      && (exists b :: AllFree(k.p.free, b, n)) && (exists b :: AllFree(k1.p.free, b, n))
      && (exists b :: AllFree(k2.p.free, b, n))
  {
    hide Within, NodeAlloc, AllFree, Shrinks;
    var k1 := NodeAlloc(k).0;
    NodeAllocOk(l0, k);
    NodeAllocShrinks(l0, k);
    NodeAllocShrinks(l0, k1);
    RunKept(k1, NodeAlloc(k1).0, n);
    RunKept(k, k1, n);
  }

  /** A range of bytes lies in at most one segment, so seg_lookup finds it. */
  lemma {:induction false} LookupFinds(s: seq<Seg>, from: int, to: int, i: nat, a: int, n: int)
    requires STiles(s, from, to) && i < |s| && n > 0 && s[i].addr <= a && a + n <= s[i].End()
    ensures SegLookup(s, a, n) == i
    decreases |s|
  {
    hide Aligned;
    if i > 0 {
      STilesAt(s[1..], s[0].End(), to, i - 1);
      LookupFinds(s[1..], s[0].End(), to, i - 1, a, n);
    }
  }

  lemma AnywhereSome(v: VState, n: int)
    requires SegFit(v.segs, n) < |v.segs| && NodeAlloc(v.k).1.Ptr?
    ensures var (w, r) := SegAlloc(v, n); r.Some? && (w.k == v.k || w.k == NodeAlloc(v.k).0)
  {
    hide SegFit, NodeAlloc, SplitSeg;
  }

  lemma ReserveSome(v: VState, start: int, n: int)
    requires var i := SegLookup(v.segs, start, n); i < |v.segs| && v.segs[i].IsFree()
    requires NodeAlloc(v.k).1.Ptr? && NodeAlloc(NodeAlloc(v.k).0).1.Ptr?
    ensures var (w, r) := SegReserve(v, start, n);
      r.Some? && (w.k == v.k || w.k == NodeAlloc(v.k).0 || w.k == NodeAlloc(NodeAlloc(v.k).0).0)
  {
    hide SegLookup, NodeAlloc, Merge;
    var i := SegLookup(v.segs, start, n);
    var lo := start - v.segs[i].addr;
    if lo != 0 {
      SplitParts(v.segs, i, lo, NodeAlloc(v.k).1.ptr);
    }
  }

  /** There is a free segment for the request. */
  ghost predicate Room(s: seq<Seg>, addr: int, n: int, anywhere: bool) {
    if anywhere then SegFit(s, n) < |s| else Vacancy(s, TruncPage(addr), n)
  }

  /** do_allocate succeeds on every request that its checks let through, if the
      mapping works, a free segment has room and memory is not short; and it
      never succeeds without mapping or room. */
  lemma DoAllocateSucceeds(l0: seq<Blk>, v: VState, addr: int, size: int, anywhere: bool, mapped: bool)
    requires VInv(l0, v) && 0 <= size && 0 <= addr < USERLIMIT
    ensures var e := DoAllocate(v, addr, size, anywhere, mapped).1;
      var n := Rounded(addr, size, anywhere);
      && (e.Ok? ==> size > 0 && v.total + size < MAXMEM && mapped && Room(v.segs, addr, n, anywhere))
      && (size > 0 && v.total + size < MAXMEM && mapped && Room(v.segs, addr, n, anywhere) && !Short(v.k, n) ==> e.Ok?)
  {
    hide VInv, SegAlloc, SegReserve, Populate, RoundPage, TruncPage;
    hide SegFit, Vacancy, Short, Conserved, MappedSome, Aligned, NoTrace;
    DoAllocateOk(l0, v, addr, size, anywhere, mapped);
    var n := Rounded(addr, size, anywhere);
    if size > 0 && v.total + size < MAXMEM {
      TotalAligned(l0, v);
      RoundedOk(addr, size, anywhere, v.total);
      hide Rounded;
      if anywhere {
        AnywhereDecides(l0, v, n, mapped);
      } else {
        AtDecides(l0, v, TruncPage(addr), n, mapped);
      }
    }
  }

  lemma AnywhereDecides(l0: seq<Blk>, v: VState, n: int, mapped: bool)
    requires VInv(l0, v) && 0 < n && Aligned(n) && v.total + n <= MAXMEM
    ensures var (w, i) := SegAlloc(v, n);
      var e := if i.Some? then Populate(w, i.value, n, mapped).1 else Fail(ENOMEM);
      && (e.Ok? ==> mapped)
      && (mapped && SegFit(v.segs, n) < |v.segs| && !Short(v.k, n) ==> e.Ok?)
  {
    hide VInv, SegAlloc, Populate, SegFit, CarvedFrom, Within, SegsOk, Records, Backing, Aligned, Conserved, MappedSome, Short,
      AllFree, NodeAlloc, NoTrace;
    VParts(l0, v);
    var n2 := SegAllocOk(l0, v, n);
    var (w, i) := SegAlloc(v, n);
    if i.Some? {
      PopulateOk(l0, v, w, i.value, 0, n, 0, n2, Vacant, v.segs[i.value].phys, mapped);
    }
    if SegFit(v.segs, n) < |v.segs| && !Short(v.k, n) {
      NotShort(l0, v.k, n);
      AnywhereSome(v, n);
    }
  }

  lemma AtDecides(l0: seq<Blk>, v: VState, start: int, n: int, mapped: bool)
    requires VInv(l0, v) && 0 < n && Aligned(n) && Aligned(start) && v.total + n <= MAXMEM
    ensures var (w, i) := SegReserve(v, start, n);
      var e := if i.Some? then Populate(w, i.value, n, mapped).1 else Fail(ENOMEM);
      && (e.Ok? ==> mapped)
      && (mapped && Vacancy(v.segs, start, n) && !Short(v.k, n) ==> e.Ok?)
  {
    hide VInv, SegReserve, Populate, SegLookup, CarvedFrom, Within, SegsOk, Records, Backing, Aligned, Conserved, MappedSome,
      Short, AllFree, NodeAlloc, NoTrace, CarvedAt, Undoing;
    VParts(l0, v);
    var n1, n2 := SegReserveOk(l0, v, start, n);
    var (w, j) := SegReserve(v, start, n);
    var i := SegLookup(v.segs, start, n);
    if j.Some? {
      var lo := start - v.segs[i].addr;
      PopulateOk(l0, v, w, i, lo, n, n1, n2, NoAccess, if lo == 0 then v.segs[i].phys else 0, mapped);
    }
    if Vacancy(v.segs, start, n) && !Short(v.k, n) {
      var f :| 0 <= f < |v.segs| && v.segs[f].IsFree() && v.segs[f].addr <= start && start + n <= v.segs[f].End();
      TilesOf(v.segs);
      LookupFinds(v.segs, PAGE_SIZE, USERLIMIT, f, start, n);
      NotShort(l0, v.k, n);
      ReserveSome(v, start, n);
    }
  }

  lemma TilesOf(s: seq<Seg>)
    requires SegsOk(s)
    ensures STiles(s, PAGE_SIZE, USERLIMIT)
  {
  }
}
