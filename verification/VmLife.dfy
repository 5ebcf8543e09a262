/** The life of a map: vm_create, any operations, vm_terminate. */
module VmLife {
  import opened Lists
  import opened Page
  import opened PageRuns
  import opened Kmem
  import opened KmemRuns
  import opened Vm
  import opened VmSegs
  import opened VmMem
  import opened VmSteps
  import opened VmRuns
  import opened VmFree

  // ----- The heap blocks that are not records of the map -----

  predicate Other(v: VState, x: int) {
    Live(v.k, x) && x !in Hdrs(v.segs)
  }

  /** Only records of the map come and go. */
  ghost predicate OthersKept(v: VState, r: VState) {
    forall x :: Other(r, x) <==> Other(v, x)
  }

  lemma CarvedOthers(l0: seq<Blk>, v: VState, w: VState, i: nat, lo: int, n: int, n1: int, n2: int,
                     flags: SegFlags, phys: int)
    requires i < |v.segs| && CarvedFrom(l0, v, w, i, lo, n, n1, n2, flags, phys)
    ensures OthersKept(v, w)
  {
    hide Within, SameMemory, Live, Carved, Hdrs;
    var (h, b, t) := (v.segs[..i], v.segs[i], v.segs[i + 1..]);
    assert v.segs == h + [b] + t;
    Hdrs3(h, [b], t);
    Hdrs3(h, Carved(b, lo, n, n1, n2, flags, phys), t);
    HdrsOne(b);
    CarvedHdrs(b, lo, n, n1, n2, flags, phys);
    forall x ensures x in Hdrs(w.segs) <==> x in Hdrs(v.segs) || x in NewNodes(b, lo, n, n1, n2) {
    }
  }

  lemma FreedOthers(v: VState, r: VState, i: nat)
    requires i < |v.segs| && Records(v.k, v.segs) && Lives(v.k, r.k, {}, Given(v.segs, i)) && r.segs == Freed(v.segs, i)
    ensures OthersKept(v, r)
  {
    hide Live, Hdrs, Front, Back, Prev, Next, NoDup;
    FreedHdrs(v.segs, i);
  }

  /** The headers that are left are those not given up. */
  lemma FreedHdrs(s: seq<Seg>, i: nat)
    requires i < |s| && NoDup(Hdrs(s))
    ensures forall x :: x in Hdrs(Freed(s, i)) <==> x in Hdrs(s) && x !in Given(s, i)
    ensures forall x :: x in Given(s, i) ==> x in Hdrs(s)
  {
    hide Hdrs, Front, Back, Prev, Next, Joined, Freed, NoDup;
    NeighbourSeqs(s, i);
    NeighbourShape(s, i);
    var (h, p, b, q, t, e) := (Front(s, i), Prev(s, i), s[i], Next(s, i), Back(s, i), Joined(s, i));
    FreedIs(s, i);
    Hdrs3(h, p + [b] + q, t);
    Hdrs3(p, [b], q);
    Hdrs3(h, [e], t);
    HdrsOne(b);
    HdrsOne(e);
    SmallHdrs(p);
    SmallHdrs(q);
    DropHeaders(Hdrs(h), Hdrs(p), HeaderOf(b), Hdrs(q), Hdrs(t), Given(s, i));
  }

  lemma FreedIs(s: seq<Seg>, i: nat)
    requires i < |s|
    ensures Freed(s, i) == Front(s, i) + [Joined(s, i)] + Back(s, i)
  {
  }

  lemma DropHeaders(a: seq<int>, p: seq<int>, b: int, q: seq<int>, c: seq<int>, gone: set<int>)
    requires |p| <= 1 && NoDup(a + (p + [b] + q) + c) && forall y :: y in gone <==> y in q || (p != [] && y == b)
    ensures var (s, r) := (a + (p + [b] + q) + c, a + [if p == [] then b else p[0]] + c);
      (forall y :: y in r <==> y in s && y !in gone) && (forall y :: y in gone ==> y in s)
  {
    hide NoDup;
    if p == [] {
      assert a + (p + [b] + q) + c == (a + [b]) + q + c;
      DropExact(a + [b], q, c, gone);
    } else {
      assert p == [p[0]] && a + (p + [b] + q) + c == (a + p) + ([b] + q) + c;
      DropExact(a + p, [b] + q, c, gone);
    }
  }

  lemma DropExact(a: seq<int>, x: seq<int>, c: seq<int>, gone: set<int>)
    requires NoDup(a + x + c) && forall y :: y in gone <==> y in x
    ensures forall y :: y in a + c <==> y in a + x + c && y !in gone
    ensures forall y :: y in gone ==> y in a + x + c
  {
    DropMiddle(a, x, c);
    hide NoDup;
  }

  lemma UndoneOthers(l0: seq<Blk>, v: VState, r: VState)
    requires Undoing(l0, v, r, {}) && r.segs == v.segs
    ensures OthersKept(v, r)
  {
    hide Live, Within, SameMemory, Hdrs;
  }

  lemma OthersTrans(a: VState, b: VState, c: VState)
    requires OthersKept(a, b) && OthersKept(b, c)
    ensures OthersKept(a, c)
  {
    hide Live, Hdrs;
  }

  lemma PopulateOthers(l0: seq<Blk>, v: VState, w: VState, i: nat, lo: int, n: int, n1: int, n2: int,
                       flags: SegFlags, phys: int, mapped: bool)
    requires VInv(l0, v) && i < |v.segs| && CarvedFrom(l0, v, w, i, lo, n, n1, n2, flags, phys)
    requires (lo == 0 ==> phys == v.segs[i].phys) && v.total + n <= MAXMEM
    ensures CarvedAt(i, lo) < |w.segs|
    ensures OthersKept(v, Populate(w, CarvedAt(i, lo), n, mapped).0)
  {
    hide VInv, Within, Carved, SameMemory, Lives, Live, SegFree, PageAlloc, AllFree, PageFree, Aligned, Outside, Undoing,
      Managed, OthersKept, Hdrs;
    WholeIn(l0, v, i, lo, n);
    var (h, b, t) := (v.segs[..i], v.segs[i], v.segs[i + 1..]);
    CarvedPieces(h, b, t, i, lo, n, n1, n2, flags, phys);
    CarvedPieces(h, b, t, i, lo, n, n1, n2, ReadWrite, phys);
    var j := CarvedAt(i, lo);
    var w1 := Occupy(w, j, ReadWrite, w.segs[j].phys);
    PartWith(b, lo, n, n1, flags, phys);
    assert w1.segs == h + Carved(b, lo, n, n1, n2, ReadWrite, phys) + t;
    CarvedOthers(l0, v, w1, i, lo, n, n1, n2, ReadWrite, phys);
    UncarveOk(l0, v, w1, i, lo, n, n1, n2, ReadWrite, phys);
    if exists x :: AllFree(w.k.p.free, x, n) {
      PagesTaken(l0, w.k, n);
      var (p, pa) := PageAlloc(w.k.p, n);
      if mapped {
        var r := Occupy(w1, j, ReadWrite, pa).(k := w.k.(p := p), total := w.total + n);
        SameHeap(w1, r);
        OthersTrans(v, w1, r);
      } else {
        assert w1.(k := w1.k.(p := w.k.p)) == w1;
        UndoneOthers(l0, v, SegFree(w1, j));
      }
    } else {
      NoPages(l0, w.k, n);
      assert w1.(k := w1.k.(p := w.k.p)) == w1;
      UndoneOthers(l0, v, SegFree(w1, j));
    }
  }

  lemma SameHeap(w: VState, r: VState)
    requires Lives(w.k, r.k, {}, {}) && |r.segs| == |w.segs|
    requires forall i :: 0 <= i < |w.segs| ==> r.segs[i].node == w.segs[i].node
    ensures OthersKept(w, r)
  {
    hide Live;
    assert Hdrs(r.segs) == Hdrs(w.segs);
  }

  lemma DoAllocateOthers(l0: seq<Blk>, v: VState, addr: int, size: int, anywhere: bool, mapped: bool)
    requires VInv(l0, v) && 0 <= size && 0 <= addr < USERLIMIT
    ensures OthersKept(v, DoAllocate(v, addr, size, anywhere, mapped).0)
  {
    hide VInv, SegAlloc, SegReserve, Populate, RoundPage, TruncPage, SegFit, OthersKept;
    SelfOthers(v);
    if size > 0 && v.total + size < MAXMEM {
      TotalAligned(l0, v);
      RoundedOk(addr, size, anywhere, v.total);
      hide Aligned;
      if anywhere {
        AnywhereOthers(l0, v, Rounded(addr, size, anywhere), mapped);
      } else {
        AtOthers(l0, v, TruncPage(addr), Rounded(addr, size, anywhere), mapped);
      }
    }
  }

  lemma SelfOthers(v: VState)
    ensures OthersKept(v, v)
  {
    hide Live, Hdrs;
  }

  lemma AnywhereOthers(l0: seq<Blk>, v: VState, n: int, mapped: bool)
    requires VInv(l0, v) && 0 < n && Aligned(n) && v.total + n <= MAXMEM
    ensures var (w, i) := SegAlloc(v, n);
      OthersKept(v, if i.Some? then Populate(w, i.value, n, mapped).0 else w)
  {
    hide VInv, SegAlloc, Populate, SegFit, CarvedFrom, Within, SegsOk, Records, Backing, Aligned, OthersKept;
    VParts(l0, v);
    SelfOthers(v);
    var n2 := SegAllocOk(l0, v, n);
    var (w, i) := SegAlloc(v, n);
    if i.Some? {
      PopulateOthers(l0, v, w, i.value, 0, n, 0, n2, Vacant, v.segs[i.value].phys, mapped);
    }
  }

  lemma AtOthers(l0: seq<Blk>, v: VState, start: int, n: int, mapped: bool)
    requires VInv(l0, v) && 0 < n && Aligned(n) && Aligned(start) && v.total + n <= MAXMEM
    ensures var (w, i) := SegReserve(v, start, n);
      OthersKept(v, if i.Some? then Populate(w, i.value, n, mapped).0 else w)
  {
    hide VInv, SegReserve, Populate, SegLookup, CarvedFrom, Within, SegsOk, Records, Backing, Aligned, OthersKept, CarvedAt,
      Undoing;
    VParts(l0, v);
    var n1, n2 := SegReserveOk(l0, v, start, n);
    var (w, j) := SegReserve(v, start, n);
    var i := SegLookup(v.segs, start, n);
    if j.Some? {
      var lo := start - v.segs[i].addr;
      PopulateOthers(l0, v, w, i, lo, n, n1, n2, NoAccess, if lo == 0 then v.segs[i].phys else 0, mapped);
    } else {
      UndoneOthers(l0, v, w);
    }
  }

  lemma DoFreeOthers(l0: seq<Blk>, v: VState, addr: int)
    requires VInv(l0, v)
    ensures OthersKept(v, DoFree(v, addr).0)
  {
    hide VInv, Within, SegsOk, Records, Backing, SegFree, PageFree, Lives, Freed, Given, Outside, OthersKept, Target, Managed;
    VParts(l0, v);
    SelfOthers(v);
    var i := Target(v.segs, addr);
    if i < |v.segs| {
      TargetOk(v.segs, addr, i);
      var b := v.segs[i];
      SegOutside(l0, v.k, v.segs, i);
      PagesGiven(l0, v.k, b.phys, b.size);
      var v1 := v.(k := v.k.(p := PageFree(v.k.p, b.phys, b.size)), total := v.total - b.size);
      SameRecords(v.k, v1.k, v.segs);
      SegFreeOk(l0, v1, i);
      SameHeap(v, v1);
      FreedOthers(v1, SegFree(v1, i), i);
      OthersTrans(v, v1, SegFree(v1, i));
    }
  }

  // ----- Runs -----

  datatype VOp =
    | VAllocate(addr: int, size: int, anywhere: bool, mapped: bool)
    | VFree(addr: int) | VAttribute(addr: int, write: bool, mapped: bool)

  /** Addresses are in the user area. */
  predicate VCan(op: VOp) {
    match op
    case VAllocate(addr, size, _, _) => 0 <= addr < USERLIMIT && 0 <= size
    case _ => true
  }

  function VApply(v: VState, op: VOp): VState {
    match op
    case VAllocate(addr, size, anywhere, mapped) => DoAllocate(v, addr, size, anywhere, mapped).0
    case VFree(addr) => DoFree(v, addr).0
    case VAttribute(addr, write, mapped) => DoAttribute(v, addr, write, mapped).0
  }

  lemma VApplyOk(l0: seq<Blk>, v: VState, op: VOp)
    requires VInv(l0, v) && VCan(op)
    ensures var r := VApply(v, op); VInv(l0, r) && Conserved(v, r) && OthersKept(v, r)
  {
    hide VInv, Conserved, OthersKept, DoAllocate, DoFree, Unmapped, Starts, Target, MappedSome, Vacancy;
    match op
    case VAllocate(addr, size, anywhere, mapped) =>
      DoAllocateOk(l0, v, addr, size, anywhere, mapped);
      DoAllocateOthers(l0, v, addr, size, anywhere, mapped);
    case VFree(addr) =>
      DoFreeOk(l0, v, addr);
      DoFreeOthers(l0, v, addr);
    case VAttribute(addr, write, mapped) =>
      DoAttributeOk(l0, v, addr, write, mapped);
      AttributeOthers(v, addr, write, mapped);
  }

  lemma AttributeOthers(v: VState, addr: int, write: bool, mapped: bool)
    ensures OthersKept(v, DoAttribute(v, addr, write, mapped).0)
  {
    hide Live, Target;
    SelfOthers(v);
    var r := DoAttribute(v, addr, write, mapped).0;
    assert forall i :: 0 <= i < |v.segs| ==> r.segs[i].node == v.segs[i].node;
    assert Hdrs(r.segs) == Hdrs(v.segs);
  }

  function VExec(v: VState, ops: seq<VOp>): VState
    decreases |ops|
  {
    if ops == [] then v
    else VExec(if VCan(ops[0]) then VApply(v, ops[0]) else v, ops[1..])
  }

  lemma ConservedTrans(a: VState, b: VState, c: VState)
    requires Conserved(a, b) && Conserved(b, c)
    ensures Conserved(a, c)
  {
    hide Managed, Backs;
  }

  lemma {:induction false} VExecOk(l0: seq<Blk>, v: VState, ops: seq<VOp>)
    requires VInv(l0, v)
    ensures var r := VExec(v, ops); VInv(l0, r) && Conserved(v, r) && OthersKept(v, r)
    decreases |ops|
  {
    hide VInv, Conserved, OthersKept, VApply;
    SelfOthers(v);
    NothingDone(l0, v);
    if ops != [] && VCan(ops[0]) {
      var w := VApply(v, ops[0]);
      VApplyOk(l0, v, ops[0]);
      VExecOk(l0, w, ops[1..]);
      ConservedTrans(v, w, VExec(w, ops[1..]));
      OthersTrans(v, w, VExec(w, ops[1..]));
    } else if ops != [] {
      VExecOk(l0, v, ops[1..]);
    }
  }

  // ----- vm_create and vm_terminate -----

  /** `pgd` is the oracle for mmu_newmap; without page directory the record is freed. */
  function VmCreate(k: KState, pgd: bool): (KState, Option<VState>) {
    var (k1, res) := if Headed(k.free, k.pages) then KmemAlloc(k, MAP_SIZE) else (k, Panic);
    if !res.Ptr? then (k1, None)
    else if !pgd then (NodeFree(k1, res.ptr), None)
    else (k1, Some(VState(k1, SegInit(res.ptr), 0)))
  }

  /** The loop of vm_terminate; the head is not a heap block of its own. */
  function TermSegs(k: KState, s: seq<Seg>, head: bool): KState
    decreases |s|
  {
    if s == [] then k
    else
      var k1 := if s[0].IsFree() then k else k.(p := PageFree(k.p, s[0].phys, s[0].size));
      TermSegs(if head then k1 else NodeFree(k1, s[0].node), s[1..], false)
  }

  /** vm_terminate by the last user of the map: the map record goes last. */
  function VmTerminate(v: VState): KState
    requires v.segs != []
  {
    NodeFree(TermSegs(v.k, v.segs, true), v.segs[0].node)
  }

  lemma InitSegsOk(node: int)
    ensures var s := SegInit(node);
      SegsOk(s) && Sum(s) == 0 && OwnMemory(s) && (forall x :: !Backs(s, x)) && Hdrs(s) == [node - BLKHDR_SIZE]
  {
    var b := SegInit(node)[0];
    WholePages0();
    OneTile(b);
    OneTouch(b);
  }

  lemma WholePages0()
    ensures Aligned(USERLIMIT - PAGE_SIZE)
  {
  }

  /** Creation fails exactly without page directory or memory for the record. A new
      map is one free segment; all that was taken is its record. */
  lemma VmCreateOk(l0: seq<Blk>, k: KState, pgd: bool)
    requires Within(l0, k)
    ensures var (r, m) := VmCreate(k, pgd);
      && (m.None? <==> !pgd || Exhausted(k, MAP_SIZE))
      && (m.None? ==> r.p == k.p && Lives(k, r, {}, {}))
      && (m.Some? ==>
            && VInv(l0, m.value) && m.value.k == r && SameMemory(k, r)
            && (forall x :: !Backs(m.value.segs, x))
            && (forall x :: Other(m.value, x) <==> Live(k, x)))
  {
    hide KInv, Managed, PInv, Live, Exhausted, KmemAlloc, Free, Headed, Lives, SameMemory, SegInit;
    KmemAllocOk(k, MAP_SIZE);
    KAllocWithin(l0, k, MAP_SIZE);
    LivesNone(k);
    var (k1, res) := KmemAlloc(k, MAP_SIZE);
    if res.Ptr? {
      var a := res.ptr - BLKHDR_SIZE;
      HandedLives(k, k1, a, MAP_SIZE);
      SameOf(k, k1);
      LivesHas(k, k1, {a}, a);
      if pgd {
        NewMapOk(l0, k, k1, res.ptr);
      } else {
        NodeFreeOk(l0, k1, res.ptr);
        var r := NodeFree(k1, res.ptr);
        LivesUndo(k, k1, r, {a}, a);
        assert {a} - {a} == {};
        SameTrans(k, k1, r);
        SamePageList(l0, k, r);
      }
    }
  }

  lemma SameOf(k: KState, r: KState)
    requires forall x :: Managed(r, x) <==> Managed(k, x)
    ensures SameMemory(k, r)
  {
    hide Managed;
  }

  lemma NewMapOk(l0: seq<Blk>, k: KState, r: KState, node: int)
    requires Within(l0, r) && Lives(k, r, {node - BLKHDR_SIZE}, {}) && !Live(k, node - BLKHDR_SIZE)
    ensures var v := VState(r, SegInit(node), 0);
      VInv(l0, v) && (forall x :: !Backs(v.segs, x)) && (forall x :: Other(v, x) <==> Live(k, x))
  {
    hide Within, SegsOk, Live, OwnMemory, Backs, Managed, Free, Sum, SegInit, Hdrs;
    InitSegsOk(node);
    SegInitNonempty(node);
  }

  lemma SegInitNonempty(node: int)
    ensures SegInit(node) != []
  {
  }

  function HdrsOf(s: seq<Seg>): set<int> { set x | x in Hdrs(s) }

  /** What the loop of vm_terminate gives back: all memory behind the segments
      and all records but the head's. */
  lemma {:induction false} TermSegsOk(l0: seq<Blk>, k: KState, s: seq<Seg>, head: bool)
    requires Within(l0, k) && Records(k, s) && Backing(l0, k, s)
    ensures var r := TermSegs(k, s, head);
      && Within(l0, r) && (forall x :: Managed(r, x) <==> Managed(k, x) || Backs(s, x))
      && Lives(k, r, {}, if head && s != [] then HdrsOf(s[1..]) else HdrsOf(s))
    decreases |s|
  {
    hide Within, Managed, Live, Records, Backing, Lives, HdrsOf, PageFree, NodeFree, Backs;
    if s == [] {
      LivesNone(k);
      EmptyHdrs();
    } else {
      var k1 := if s[0].IsFree() then k else k.(p := PageFree(k.p, s[0].phys, s[0].size));
      TermPages(l0, k, s);
      var k2 := if head then k1 else NodeFree(k1, s[0].node);
      TermNode(l0, k, k1, s, head);
      TermSegsOk(l0, k2, s[1..], false);
      var r := TermSegs(k2, s[1..], false);
      var none: set<int> := {};
      LivesTrans(k, k2, r, none, if head then {} else {HeaderOf(s[0])}, none, HdrsOf(s[1..]));
      assert (none - HdrsOf(s[1..])) + none == none;
      HdrsTail(s);
      assert (if head then none else {HeaderOf(s[0])}) + HdrsOf(s[1..]) == if head then HdrsOf(s[1..]) else HdrsOf(s);
    }
  }

  lemma EmptyHdrs()
    ensures HdrsOf([]) == {} && forall x :: !Backs([], x)
  {
  }

  lemma HdrsTail(s: seq<Seg>)
    requires s != []
    ensures HdrsOf(s) == {HeaderOf(s[0])} + HdrsOf(s[1..])
  {
    assert s == [s[0]] + s[1..];
    HdrsAppend([s[0]], s[1..]);
    HdrsOne(s[0]);
    hide Hdrs;
  }

  /** The pages of the first segment go back. */
  lemma TermPages(l0: seq<Blk>, k: KState, s: seq<Seg>)
    requires Within(l0, k) && Records(k, s) && Backing(l0, k, s) && s != []
    ensures var r := if s[0].IsFree() then k else k.(p := PageFree(k.p, s[0].phys, s[0].size));
      && Within(l0, r) && Lives(k, r, {}, {}) && Backing(l0, r, s[1..]) && Records(r, s)
      && (forall x :: Managed(r, x) || Backs(s[1..], x) <==> Managed(k, x) || Backs(s, x))
  {
    hide Within, Managed, Live, Records, Lives, PageFree, Free, Whole, Backs, OwnMemory;
    LivesNone(k);
    TailBacking(s);
    if !s[0].IsFree() {
      SegOutside(l0, k, s, 0);
      PagesGiven(l0, k, s[0].phys, s[0].size);
      SameRecords(k, k.(p := PageFree(k.p, s[0].phys, s[0].size)), s);
    }
  }

  lemma TailBacking(s: seq<Seg>)
    requires s != [] && OwnMemory(s)
    ensures OwnMemory(s[1..])
    ensures forall x :: Backs(s, x) <==> InSeg(s[0], x) || Backs(s[1..], x)
    ensures forall x :: InSeg(s[0], x) ==> !Backs(s[1..], x)
  {
    hide Whole;
  }

  /** Then its record, unless it is the head. */
  lemma TermNode(l0: seq<Blk>, k: KState, k1: KState, s: seq<Seg>, head: bool)
    requires s != [] && Within(l0, k1) && Lives(k, k1, {}, {}) && Backing(l0, k1, s[1..]) && Records(k1, s)
    ensures var r := if head then k1 else NodeFree(k1, s[0].node);
      && Within(l0, r) && Lives(k, r, {}, if head then {} else {HeaderOf(s[0])}) && Backing(l0, r, s[1..])
      && Records(r, s[1..]) && (forall x :: Managed(r, x) <==> Managed(k1, x))
  {
    hide Within, Managed, Live, Lives, Free, NodeFree, Backs, OwnMemory, NoDup, Hdrs;
    assert s == [s[0]] + s[1..];
    HdrsAppend([s[0]], s[1..]);
    HdrsOne(s[0]);
    FirstHeader(Hdrs(s), HeaderOf(s[0]), Hdrs(s[1..]));
    if !head {
      NodeFreeOk(l0, k1, s[0].node);
      var none: set<int> := {};
      var del := {HeaderOf(s[0])};
      LivesTrans(k, k1, NodeFree(k1, s[0].node), none, none, none, del);
      assert (none - del) + none == none && none + del == del;
      StillLive(k1, NodeFree(k1, s[0].node), HeaderOf(s[0]), Hdrs(s[1..]));
    }
  }

  lemma FirstHeader(l: seq<int>, x: int, t: seq<int>)
    requires l == [x] + t && NoDup(l)
    ensures NoDup(t) && x !in t && x in l && forall y :: y in t ==> y in l
  {
    assert l[0] == x;
    assert forall i :: 0 <= i < |t| ==> t[i] == l[i + 1];
  }

  lemma StillLive(k: KState, r: KState, x: int, t: seq<int>)
    requires Lives(k, r, {}, {x}) && x !in t && forall y :: y in t ==> Live(k, y)
    ensures forall y :: y in t ==> Live(r, y)
  {
    hide Live;
  }

  /** vm_terminate gives back everything the map held, record and pages. */
  lemma VmTerminateOk(l0: seq<Blk>, v: VState)
    requires VInv(l0, v)
    ensures var r := VmTerminate(v);
      && Within(l0, r) && (forall x :: Managed(r, x) <==> Managed(v.k, x) || Backs(v.segs, x))
      && (forall x :: Live(r, x) <==> Other(v, x))
  {
    hide VInv, Within, SegsOk, Records, Backing, Managed, Backs, Live, TermSegs, NodeFree, HdrsOf;
    VParts(l0, v);
    var s := v.segs;
    var k1 := TermSegs(v.k, s, true);
    TermSegsOk(l0, v.k, s, true);
    HeadLives(v.k, s);
    HdrsTail(s);
    NodeFreeOk(l0, k1, s[0].node);
    HdrsMean(s);
    hide Hdrs;
  }

  lemma HdrsMean(s: seq<Seg>)
    ensures forall x :: x in HdrsOf(s) <==> x in Hdrs(s)
  {
  }

  lemma HeadLives(k: KState, s: seq<Seg>)
    requires Records(k, s) && s != []
    ensures Live(k, HeaderOf(s[0])) && HeaderOf(s[0]) !in HdrsOf(s[1..])
  {
    hide Live;
    assert s == [s[0]] + s[1..];
    HdrsAppend([s[0]], s[1..]);
    HdrsOne(s[0]);
    hide Hdrs, NoDup;
    FirstHeader(Hdrs(s), HeaderOf(s[0]), Hdrs(s[1..]));
  }

  /** Over its whole life a map keeps its segments in order, and when it ends the
      heap blocks in use and the state of the page allocator are those of before
      it was created, whatever was allocated, freed or failed in between. */
  lemma MapLife(l0: seq<Blk>, k0: KState, ops: seq<VOp>)
    requires Within(l0, k0)
    ensures var m := VmCreate(k0, true).1;
      m.Some? ==>
        var v := VExec(m.value, ops);
        && VInv(l0, v) && STiles(v.segs, PAGE_SIZE, USERLIMIT) && NoTouch(v.segs)
        && v.total == Sum(v.segs) && v.total <= MAXMEM
        && (forall x :: Managed(v.k, x) || Backs(v.segs, x) <==> Managed(k0, x))
        && VmTerminate(v).p == k0.p && Lives(k0, VmTerminate(v), {}, {})
  {
    hide Within, Managed, Backs, Live, VmCreate, VmTerminate, VExec, SegsOk, Records, Backing, Sum, Hdrs, Other;
    VmCreateOk(l0, k0, true);
    var m := VmCreate(k0, true).1;
    if m.Some? {
      VExecOk(l0, m.value, ops);
      var v := VExec(m.value, ops);
      SegsParts(v.segs);
      VmTerminateOk(l0, v);
      SamePageList(l0, k0, VmTerminate(v));
    }
  }

  lemma SegsParts(s: seq<Seg>)
    requires SegsOk(s)
    ensures STiles(s, PAGE_SIZE, USERLIMIT) && NoTouch(s)
  {
    hide STiles, NoTouch;
  }
}
