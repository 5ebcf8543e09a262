/** The code of sys/mem/vm.c over the segment list of a map, between the
    sched_lock and sched_unlock of each call. */
module VmCode {
  import opened Lists
  import opened Page
  import opened PageRuns
  import opened PageCode
  import opened Kmem
  import opened KmemRuns
  import opened KmemCode
  import opened Vm
  import opened VmSegs
  import opened VmMem
  import opened VmSteps
  import opened VmRuns
  import opened VmFree
  import V = Vm
  import K = Kmem
  import P = Page

  lemma LookupIs(s: seq<Seg>, addr: int, size: int, i: nat)
    requires i <= |s| && (i < |s| ==> s[i].addr <= addr && addr + size <= s[i].End())
    requires forall j :: 0 <= j < i ==> !(s[j].addr <= addr && addr + size <= s[j].End())
    ensures SegLookup(s, addr, size) == i
  {
  }

  lemma SegFitIs(s: seq<Seg>, size: int, i: nat)
    requires i <= |s| && (i < |s| ==> s[i].IsFree() && s[i].size >= size)
    requires forall j :: 0 <= j < i ==> !(s[j].IsFree() && s[j].size >= size)
    ensures SegFit(s, size) == i
  {
  }

  lemma NodeAllocIs(k: KState)
    requires KInv(k)
    ensures Headed(k.free, k.pages) && NodeAlloc(k) == KmemAlloc(k, SEG_SIZE)
  {
    hide Pages, Backed, Busy, Classes, KmemAlloc, Headed;
    HeadedOk(k);
  }

  class Space {
    const heap: Heap
    var segs: seq<Seg>
    var total: int

    /** vm_create, once the map record has been allocated at `node`. */
    constructor (h: Heap, node: int)
      ensures heap == h && segs == SegInit(node) && total == 0
    {
      heap := h;
      segs := [Seg(node, PAGE_SIZE, USERLIMIT - PAGE_SIZE, Vacant, 0)];
      total := 0;
    }

    ghost function VS(): VState
      reads this, heap, heap.mem
    {
      VState(heap.KS(), segs, total)
    }

    /** The heap below is in order and the page list head lies outside memory. */
    ghost predicate Below(l0: seq<Blk>)
      reads heap, heap.mem
    {
      heap.Valid() && Within(l0, heap.KS()) && !Free(l0, heap.mem.head)
    }

    ghost predicate Valid(l0: seq<Blk>)
      reads this, heap, heap.mem
    {
      Below(l0) && VInv(l0, VS())
    }

    method Lookup(addr: int, size: int) returns (i: nat)
      ensures i == SegLookup(segs, addr, size)
    {
      i := 0;
      while i < |segs|
        invariant 0 <= i <= |segs|
        invariant forall j :: 0 <= j < i ==> !(segs[j].addr <= addr && addr + size <= segs[j].End())
      {
        if segs[i].addr <= addr && segs[i].addr + segs[i].size >= addr + size {
          break;
        }
        i := i + 1;
      }
      LookupIs(segs, addr, size, i);
    }

    method FindFit(size: int) returns (i: nat)
      ensures i == SegFit(segs, size)
    {
      i := 0;
      while i < |segs|
        invariant 0 <= i <= |segs|
        invariant forall j :: 0 <= j < i ==> !(segs[j].IsFree() && segs[j].size >= size)
      {
        if segs[i].IsFree() && segs[i].size >= size {
          break;
        }
        i := i + 1;
      }
      SegFitIs(segs, size, i);
    }

    /** seg_create after segment `i`, and the write to the size of `i`. */
    method SegCreate(i: nat, left: int, ghost l0: seq<Blk>) returns (ok: bool)
      requires Below(l0) && i < |segs|
      modifies this, heap, heap.mem
      ensures Below(l0) && (VS(), ok) == V.SegCreate(old(VS()), i, left) && |segs| >= |old(segs)|
    {
      hide KInv, NodeAlloc, Chains, HeadOutside, Free, K.KmemAlloc, Live;
      NodeAllocIs(heap.KS());
      KAllocWithin(l0, heap.KS(), SEG_SIZE);
      var res := heap.KmemAlloc(SEG_SIZE);
      if !res.Ptr? {
        return false;
      }
      var b := segs[i];
      var seg := Seg(res.ptr, b.addr + left, b.size - left, Vacant, 0);
      segs := segs[..i] + [b.(size := left), seg] + segs[i + 1..];
      return true;
    }

    /** The next segment, if both are free, is taken up and its record freed. */
    method Merge(i: int, ghost l0: seq<Blk>)
      requires Below(l0) && (BothFree(segs, i) ==> Live(heap.KS(), HeaderOf(segs[i + 1])))
      modifies this, heap, heap.mem
      ensures Below(l0) && VS() == V.Merge(old(VS()), i)
    {
      hide KInv, Chains, HeadOutside, Free, K.KmemFree;
      if 0 <= i && i + 1 < |segs| && segs[i].IsFree() && segs[i + 1].IsFree() {
        var next := segs[i + 1];
        LiveHas(heap.KS(), HeaderOf(next));
        KFreeWithin(l0, heap.KS(), next.node);
        segs := segs[..i] + [segs[i].(size := segs[i].size + next.size)] + segs[i + 2..];
        heap.KmemFree(next.node);
      }
    }

    method SegFree(i: nat, ghost l0: seq<Blk>)
      requires Below(l0) && i < |segs| && Records(heap.KS(), segs)
      modifies this, heap, heap.mem
      ensures Below(l0) && VS() == V.SegFree(old(VS()), i)
    {
      hide Records, V.Merge, Live, KInv;
      RecordsLive(heap.KS(), segs, i);
      SegFreeIs(VS(), i);
      ghost var s := segs;
      segs := segs[i := segs[i].(flags := Vacant)];
      BelowParts(l0);
      SecondLive(l0, VS(), s, i);
      Merge(i, l0);
      Merge(i - 1, l0);
    }

    lemma BelowParts(l0: seq<Blk>)
      requires Below(l0)
      ensures Within(l0, heap.KS())
    {
    }

    /** The second half of seg_reserve. */
    method ReserveFront(i: nat, n: int, ghost l0: seq<Blk>) returns (r: Option<nat>)
      requires Below(l0) && i < |segs|
      modifies this, heap, heap.mem
      ensures Below(l0) && (VS(), r) == V.ReserveFront(old(VS()), i, n)
    {
      hide V.SegCreate;
      if segs[i].size != n {
        var ok := SegCreate(i, n, l0);
        if !ok {
          return None;
        }
      }
      segs := segs[i := segs[i].(flags := NoAccess)];
      return Some(i);
    }

    method SegAlloc(n: int, ghost l0: seq<Blk>) returns (r: Option<nat>)
      requires Below(l0)
      modifies this, heap, heap.mem
      ensures Below(l0) && (VS(), r) == V.SegAlloc(old(VS()), n)
    {
      hide V.SegCreate, SegFit;
      var i := FindFit(n);
      if i == |segs| {
        return None;
      }
      if segs[i].size != n {
        var ok := SegCreate(i, n, l0);
        if !ok {
          return None;
        }
      }
      return Some(i);
    }

    method SegReserve(start: int, n: int, ghost l0: seq<Blk>) returns (r: Option<nat>)
      requires Valid(l0) && 0 < n && Aligned(n) && Aligned(start)
      modifies this, heap, heap.mem
      ensures Below(l0) && (VS(), r) == V.SegReserve(old(VS()), start, n)
    {
      hide VInv, V.SegCreate, V.ReserveFront, V.SegFree, SegLookup, Records, KInv, Aligned;
      ghost var v := VS();
      var i := Lookup(start, n);
      if i == |segs| || !segs[i].IsFree() {
        return None;
      }
      if segs[i].addr == start {
        r := ReserveFront(i, n, l0);
        return;
      }
      SplitReady(l0, v, i, start, n);
      var ok := SegCreate(i, start - segs[i].addr, l0);
      if !ok {
        return None;
      }
      r := ReserveFront(i + 1, n, l0);
      if r == None {
        SegFree(i + 1, l0);
      }
    }

    /** do_allocate from the segment found on. */
    method Populate(i: nat, n: int, mapped: bool, ghost l0: seq<Blk>) returns (e: VResult)
      requires Below(l0) && i < |segs| && Records(heap.KS(), segs) && 0 < n <= WORD - PAGE_SIZE && Aligned(n)
      modifies this, heap, heap.mem
      ensures Below(l0) && (VS(), e) == V.Populate(old(VS()), i, n, mapped)
    {
      hide V.SegFree, P.PageAlloc, P.PageFree, KInv, PInv, Records, Managed, Free, Aligned, Chains, HeadOutside, AllFree, Outside,
        RoundPage;
      ghost var k := heap.KS();
      segs := segs[i := segs[i].(flags := ReadWrite)];
      ReflagRecords(k, old(segs), i, ReadWrite);
      if exists b :: AllFree(k.p.free, b, n) {
        PagesTaken(l0, k, n);
      } else {
        NoPages(l0, k, n);
      }
      var pa := heap.mem.PageAlloc(n);
      assert Below(l0);
      SameRecords(k, heap.KS(), segs);
      if pa == 0 {
        SegFree(i, l0);
        return Fail(ENOMEM);
      }
      if !mapped {
        GiveBack(l0, heap.KS(), pa, n, heap.mem.head);
        heap.mem.PageFree(pa, n);
        assert heap.KS() == k;
        SegFree(i, l0);
        return Fail(ENOMEM);
      }
      segs := segs[i := segs[i].(phys := pa)];
      total := total + n;
      return Ok(segs[i].addr);
    }

    method DoAllocate(addr: int, size: int, anywhere: bool, mapped: bool, ghost l0: seq<Blk>) returns (e: VResult)
      requires Valid(l0) && 0 <= size && 0 <= addr < USERLIMIT
      modifies this, heap, heap.mem
      ensures Valid(l0) && (VS(), e) == V.DoAllocate(old(VS()), addr, size, anywhere, mapped)
    {
      hide VInv, V.SegAlloc, V.SegReserve, V.Populate, RoundPage, TruncPage, Records, Conserved, MappedSome, Vacancy, SegFit,
        KInv, Aligned;
      ghost var v := VS();
      DoAllocateOk(l0, v, addr, size, anywhere, mapped);
      if size == 0 {
        return Fail(EINVAL);
      }
      if total + size >= MAXMEM {
        return Fail(ENOMEM);
      }
      TotalAligned(l0, v);
      RoundedOk(addr, size, anywhere, total);
      var n := RoundPage(size);
      var i: Option<nat>;
      if anywhere {
        AnywhereReady(l0, v, n);
        i := SegAlloc(n, l0);
      } else {
        var start := TruncPage(addr);
        n := RoundPage(start + size) - start;
        AtReady(l0, v, start, n);
        i := SegReserve(start, n, l0);
      }
      if i == None {
        return Fail(ENOMEM);
      }
      e := Populate(i.value, n, mapped, l0);
    }

    method FindTarget(addr: int) returns (i: nat)
      ensures i == Target(segs, addr)
    {
      hide TruncPage, SegLookup;
      var va := TruncPage(addr);
      i := Lookup(va, 1);
      if i < |segs| && (segs[i].addr != va || segs[i].IsFree()) {
        i := |segs|;
      }
    }

    method DoFree(addr: int, ghost l0: seq<Blk>) returns (e: VResult)
      requires Valid(l0)
      modifies this, heap, heap.mem
      ensures Valid(l0) && (VS(), e) == V.DoFree(old(VS()), addr)
    {
      hide VInv, V.SegFree, Records, Conserved, Target, KInv, Unmapped, Starts, P.PageFree, RoundPage, HeadOutside, Chains,
        Outside, PInv, Managed, Free;
      ghost var v := VS();
      DoFreeOk(l0, v, addr);
      var i := FindTarget(addr);
      if i == |segs| {
        return Fail(EINVAL);
      }
      var b := segs[i];
      FreeReady(l0, v, i, addr, heap.mem.head);
      heap.mem.PageFree(b.phys, b.size);
      total := total - b.size;
      assert Below(l0);
      SegFree(i, l0);
      return Ok(b.addr);
    }

    method DoAttribute(addr: int, write: bool, mapped: bool, ghost l0: seq<Blk>) returns (e: VResult)
      requires Valid(l0)
      modifies this
      ensures Valid(l0) && (VS(), e) == V.DoAttribute(old(VS()), addr, write, mapped)
    {
      hide VInv, Conserved, Target, KInv, Starts, Reflagged, Within;
      ghost var v := VS();
      DoAttributeOk(l0, v, addr, write, mapped);
      var i := FindTarget(addr);
      if i == |segs| {
        return Fail(EINVAL);
      }
      var flags := if write then ReadWrite else ReadOnly;
      if (segs[i].flags == ReadWrite) == write {
        return Ok(segs[i].addr);
      }
      if !mapped {
        return Fail(ENOMEM);
      }
      segs := segs[i := segs[i].(flags := flags)];
      return Ok(segs[i].addr);
    }
  }

  lemma RecordsLive(k: KState, s: seq<Seg>, i: nat)
    requires Records(k, s) && i < |s|
    ensures Live(k, HeaderOf(s[i]))
    ensures i + 1 < |s| ==> Live(k, HeaderOf(s[i + 1])) && HeaderOf(s[i + 1]) != HeaderOf(s[i])
  {
    hide Live;
    assert Hdrs(s)[i] == HeaderOf(s[i]) && HeaderOf(s[i]) in Hdrs(s);
    if i + 1 < |s| {
      assert Hdrs(s)[i + 1] == HeaderOf(s[i + 1]) && HeaderOf(s[i + 1]) in Hdrs(s);
    }
  }

  /** After the first merge the record of segment `i` is still a heap block. */
  lemma SecondLive(l0: seq<Blk>, v: VState, s: seq<Seg>, i: nat)
    requires Within(l0, v.k) && i < |s| && v.segs == s[i := s[i].(flags := Vacant)]
    requires Live(v.k, HeaderOf(s[i]))
    requires i + 1 < |s| ==> Live(v.k, HeaderOf(s[i + 1])) && HeaderOf(s[i + 1]) != HeaderOf(s[i])
    ensures var w := V.Merge(v, i);
      BothFree(w.segs, i - 1) ==> Live(w.k, HeaderOf(w.segs[i]))
  {
    hide Live, Within, NodeFree;
    if BothFree(v.segs, i) {
      assert v.segs[i + 1] == s[i + 1];
      NodeFreeOk(l0, v.k, s[i + 1].node);
    }
  }

  lemma ReflagRecords(k: KState, s: seq<Seg>, i: nat, flags: SegFlags)
    requires Records(k, s) && i < |s|
    ensures Records(k, s[i := s[i].(flags := flags)])
  {
    FlagRecords(k, s, s[i := s[i].(flags := flags)]);
    hide Records;
  }

  /** What page_free needs to take back pages just allocated. */
  lemma GiveBack(l0: seq<Blk>, k: KState, pa: int, n: int, head: int)
    requires Outside(l0, k, pa, n) && !Free(l0, head)
    ensures RoundPage(n) == n && n > 0 && Whole(Blk(pa, n)) && NoneFree(k.p.free, pa, n) && !Holds(Blk(pa, n), head)
  {
    hide Free, RoundPage, Aligned, PageTop;
    WholeLimits(pa, n);
    WholeRound(n);
    forall x | pa <= x < pa + n ensures !Free(k.p.free, x) {
      assert !Managed(k, x);
    }
  }

  /** The records after the first split of seg_reserve. */
  lemma SplitReady(l0: seq<Blk>, v: VState, i: nat, start: int, n: int)
    requires VInv(l0, v) && i < |v.segs| && v.segs[i].IsFree() && 0 < n && Aligned(start) && Aligned(n)
    requires v.segs[i].addr < start && start + n <= v.segs[i].End()
    ensures var (w, ok) := V.SegCreate(v, i, start - v.segs[i].addr);
      ok ==>
        i + 1 < |w.segs| && Records(w.k, w.segs) && (V.ReserveFront(w, i + 1, n).1 == None ==> V.ReserveFront(w, i + 1, n).0 == w)
  {
    hide VInv, Within, SegsOk, Records, Backing, V.SegCreate, V.ReserveFront, STiles, NoTouch, Carved, Live, SplitSeg;
    VParts(l0, v);
    Parts(v.segs, i);
    var lo := start - v.segs[i].addr;
    AlignedSum(start, v.segs[i].addr);
    AlignedSum(v.segs[i].size, lo);
    hide Aligned;
    var n1 := SplitOff(l0, v, i, lo);
    var (w, ok) := V.SegCreate(v, i, lo);
    if ok {
      SplitParts(v.segs, i, lo, n1);
      CarvedRecords(l0, v, w, i, lo, v.segs[i].size - lo, n1, 0, Vacant, 0);
      var n2 := ReserveFrontOk(l0, w, i + 1, n);
    }
  }

  lemma AnywhereReady(l0: seq<Blk>, v: VState, n: int)
    requires VInv(l0, v) && 0 < n && Aligned(n)
    ensures var (w, i) := V.SegAlloc(v, n);
      i.Some? ==> Records(w.k, w.segs) && n <= WORD - PAGE_SIZE
  {
    hide VInv, V.SegAlloc, SegFit, CarvedFrom, Within, SegsOk, Records, Backing, Aligned;
    VParts(l0, v);
    var n2 := SegAllocOk(l0, v, n);
    var (w, i) := V.SegAlloc(v, n);
    if i.Some? {
      CarvedRecords(l0, v, w, i.value, 0, n, 0, n2, Vacant, v.segs[i.value].phys);
      CarvedFits(l0, v, w, i.value, 0, n, 0, n2, Vacant, v.segs[i.value].phys);
    }
  }

  lemma CarvedFits(l0: seq<Blk>, v: VState, w: VState, i: nat, lo: int, n: int, n1: int, n2: int,
                   flags: SegFlags, phys: int)
    requires VInv(l0, v) && i < |v.segs| && CarvedFrom(l0, v, w, i, lo, n, n1, n2, flags, phys)
    ensures n <= WORD - PAGE_SIZE
  {
    hide VInv, Within, Carved, SameMemory, Lives, Live, Aligned;
    WholeIn(l0, v, i, lo, n);
  }

  lemma AtReady(l0: seq<Blk>, v: VState, start: int, n: int)
    requires VInv(l0, v) && 0 < n && Aligned(n) && Aligned(start)
    ensures var (w, i) := V.SegReserve(v, start, n);
      i.Some? ==> Records(w.k, w.segs) && n <= WORD - PAGE_SIZE
  {
    hide VInv, V.SegReserve, SegLookup, CarvedFrom, Within, SegsOk, Records, Backing, Aligned, CarvedAt, Undoing;
    VParts(l0, v);
    var n1, n2 := SegReserveOk(l0, v, start, n);
    var (w, j) := V.SegReserve(v, start, n);
    var i := SegLookup(v.segs, start, n);
    if j.Some? {
      var lo := start - v.segs[i].addr;
      var phys := if lo == 0 then v.segs[i].phys else 0;
      CarvedRecords(l0, v, w, i, lo, n, n1, n2, NoAccess, phys);
      CarvedFits(l0, v, w, i, lo, n, n1, n2, NoAccess, phys);
    }
  }

  /** What do_free passes to page_free, and the heap after it. */
  lemma FreeReady(l0: seq<Blk>, v: VState, i: nat, addr: int, head: int)
    requires VInv(l0, v) && i == Target(v.segs, addr) < |v.segs| && !Free(l0, head)
    ensures var (b, k) := (v.segs[i], v.k);
      && RoundPage(b.size) == b.size && b.size > 0 && Whole(Blk(b.phys, b.size))
      && NoneFree(k.p.free, b.phys, b.size) && !Holds(Blk(b.phys, b.size), head)
      && var r := k.(p := P.PageFree(k.p, b.phys, b.size)); Within(l0, r) && Records(r, v.segs)
  {
    hide VInv, Records, Target, KInv, Starts, P.PageFree, RoundPage, Outside, Managed, Free, Within, SegsOk, Backing, Whole,
      NoneFree, Live;
    VParts(l0, v);
    TargetOk(v.segs, addr, i);
    StartsIn(v.segs, addr);
    var b := v.segs[i];
    SegOutside(l0, v.k, v.segs, i);
    GiveBack(l0, v.k, b.phys, b.size, head);
    PagesGiven(l0, v.k, b.phys, b.size);
    SameRecords(v.k, v.k.(p := P.PageFree(v.k.p, b.phys, b.size)), v.segs);
  }
}
