/** What every run of the page allocator keeps, from page_init on. */
module PageRuns {
  import opened Lists
  import opened Page

  // ----- page_init -----

  datatype RamType = Usable | MemHole | Reserved | BootDisk
  datatype Ram = Ram(base: int, size: int, kind: RamType)

  /** The first loop: all usable memory is freed. */
  function FreeRams(p: PState, rams: seq<Ram>): PState
    decreases |rams|
  {
    if rams == [] then p
    else if rams[0].kind == Usable then FreeRams(PageFree(p, rams[0].base, rams[0].size), rams[1..])
    else FreeRams(p, rams[1..])
  }

  /** The second loop; None is a panic. */
  function ReserveRams(p: PState, rams: seq<Ram>): Option<PState>
    decreases |rams|
  {
    if rams == [] then Some(p)
    else if rams[0].kind == Usable then ReserveRams(p, rams[1..])
    else
      var (r, ok) := PageReserve(p, rams[0].base, rams[0].size);
      if ok then ReserveRams(r, rams[1..]) else None
  }

  function PageInit(rams: seq<Ram>): Option<PState> {
    match ReserveRams(FreeRams(PState([], 0), rams), rams)
    case None => None
    case Some(p) => Some(p.(used := 0))
  }

  /** The regions of usable memory, in whole pages. */
  function UsableRegions(rams: seq<Ram>): seq<Blk> {
    if rams == [] then []
    else if rams[0].kind == Usable then [Blk(rams[0].base, RoundPage(rams[0].size))] + UsableRegions(rams[1..])
    else UsableRegions(rams[1..])
  }

  /** The pages that hold a byte of some region that must not be allocated. */
  function Span(r: Ram): Blk {
    Blk(TruncPage(r.base), RoundPage(r.base + r.size) - TruncPage(r.base))
  }

  function ReservedRegions(rams: seq<Ram>): seq<Blk> {
    if rams == [] then []
    else if rams[0].kind == Usable || rams[0].size == 0 then ReservedRegions(rams[1..])
    else [Span(rams[0])] + ReservedRegions(rams[1..])
  }

  /** No two regions share a byte. */
  ghost predicate Disjoint(l: seq<Blk>) {
    l != [] ==> (forall x :: Holds(l[0], x) ==> !Free(l[1..], x)) && Disjoint(l[1..])
  }

  /** A boot record the allocator can work with: the regions lie inside the
      address space and usable ones start on a page and do not overlap. */
  ghost predicate BootOk(rams: seq<Ram>) {
    && (forall i :: 0 <= i < |rams| ==> RamOk(rams[i]))
    && Disjoint(UsableRegions(rams))
  }

  predicate RamOk(r: Ram) {
    && 0 <= r.base && 0 <= r.size && r.base + r.size <= WORD - 2 * PAGE_SIZE
    && (r.kind == Usable ==> Aligned(r.base) && r.size > 0)
  }

  lemma {:induction false} FreeRamsOk(p: PState, rams: seq<Ram>)
    requires Canon(p.free) && BootOk(rams)
    requires forall x :: Free(UsableRegions(rams), x) ==> !Free(p.free, x)
    ensures var r := FreeRams(p, rams);
      Canon(r.free) && forall x :: Free(r.free, x) <==> Free(p.free, x) || Free(UsableRegions(rams), x)
    decreases |rams|
  {
    if rams != [] && rams[0].kind == Usable {
      var b := Blk(rams[0].base, RoundPage(rams[0].size));
      var t := UsableRegions(rams[1..]);
      UsableWhole(rams[0]);
      assert ([b] + t)[0] == b && ([b] + t)[1..] == t;
      assert NoneFree(p.free, b.addr, b.size) by {
        forall x | Holds(b, x) ensures !Free(p.free, x) {
          assert Free([b] + t, x);
        }
      }
      FreeBlockOk(p.free, b);
      hide Canon, RoundPage, FreeBlock, Wrap;
      FreeRamsOk(PageFree(p, rams[0].base, rams[0].size), rams[1..]);
    } else if rams != [] {
      FreeRamsOk(p, rams[1..]);
    }
  }

  lemma UsableWhole(r: Ram)
    requires RamOk(r) && r.kind == Usable
    ensures Whole(Blk(r.base, RoundPage(r.size)))
  {
    RoundPageFacts(r.size);
    hide RoundPage;
  }

  /** All reserved spans are free and no two of them share a page. */
  ghost predicate Reservable(l: seq<Blk>, spans: seq<Blk>) {
    Disjoint(spans) && forall x :: Free(spans, x) ==> Free(l, x)
  }

  lemma {:induction false} ReserveRamsOk(p: PState, rams: seq<Ram>)
    requires Canon(p.free) && forall i :: 0 <= i < |rams| ==> RamOk(rams[i])
    ensures var r, spans := ReserveRams(p, rams), ReservedRegions(rams);
      && (r.Some? <==> Reservable(p.free, spans))
      && (r.Some? ==> Canon(r.value.free))
      && (r.Some? ==> forall x :: Free(r.value.free, x) <==> Free(p.free, x) && !Free(spans, x))
    decreases |rams|
  {
    if rams != [] {
      var ram := rams[0];
      if ram.kind == Usable || ram.size == 0 {
        ReserveRamsOk(p, rams[1..]);
      } else {
        var b, t := Span(ram), ReservedRegions(rams[1..]);
        var (q, ok) := PageReserve(p, ram.base, ram.size);
        PageReserveMeans(p, ram.base, ram.size);
        assert ([b] + t)[1..] == t;
        hide PageReserve, Canon, Disjoint, ReserveRams;
        SpanStep(p.free, q.free, b, t, ok);
        if ok {
          ReserveRamsOk(q, rams[1..]);
        }
        UnfoldReserve(p, rams);
        hide Reservable;
      }
    }
  }

  lemma UnfoldReserve(p: PState, rams: seq<Ram>)
    requires rams != [] && rams[0].kind != Usable
    ensures var (q, ok) := PageReserve(p, rams[0].base, rams[0].size);
      ReserveRams(p, rams) == if ok then ReserveRams(q, rams[1..]) else None
  {
    hide PageReserve;
  }

  /** Taking the first span leaves the rest reservable exactly if all were. */
  lemma SpanStep(l: seq<Blk>, k: seq<Blk>, b: Blk, t: seq<Blk>, ok: bool)
    requires ok <==> AllFree(l, b.addr, b.size)
    requires ok ==> forall x :: Free(k, x) <==> Free(l, x) && !Holds(b, x)
    ensures Reservable(l, [b] + t) <==> ok && Reservable(k, t)
    ensures forall x :: Free([b] + t, x) <==> Holds(b, x) || Free(t, x)
  {
    var s := [b] + t;
    assert s[0] == b && s[1..] == t;
    forall x ensures Free(s, x) <==> Holds(b, x) || Free(t, x) {
    }
  }

  /** page_init leaves exactly the usable pages that no reserved region touches,
      with nothing counted as used; it panics exactly when a reserved region
      reaches outside usable memory or two of them share a page. */
  lemma PageInitMeans(rams: seq<Ram>)
    requires BootOk(rams)
    ensures var u, spans := UsableRegions(rams), ReservedRegions(rams);
      && (PageInit(rams).None? <==> !Reservable(u, spans))
      && (PageInit(rams).Some? ==>
            && Canon(PageInit(rams).value.free) && PageInit(rams).value.used == 0
            && forall x :: Free(PageInit(rams).value.free, x) <==> Free(u, x) && !Free(spans, x))
  {
    var p := FreeRams(PState([], 0), rams);
    NothingFree();
    FreeRamsOk(PState([], 0), rams);
    ReserveRamsOk(p, rams);
    hide Canon, Free, FreeRams, ReserveRams, Reservable, UsableRegions, ReservedRegions, BootOk;
    ReservableSame(p.free, UsableRegions(rams), ReservedRegions(rams));
  }

  lemma ReservableSame(l: seq<Blk>, k: seq<Blk>, spans: seq<Blk>)
    requires forall x :: Free(l, x) <==> Free(k, x)
    ensures Reservable(l, spans) <==> Reservable(k, spans)
  {
    hide Free, Disjoint;
  }

  lemma NothingFree()
    ensures forall x :: !Free([], x)
  {
  }

  // ----- Runs -----

  datatype POp = Alloc(psize: int) | FreeOp(paddr: int, psize: int) | Reserve(paddr: int, psize: int)

  /** What the source demands of callers: sizes are not 0, only memory in use
      is freed, in whole pages, and regions lie inside the address space. */
  ghost predicate PCan(l0: seq<Blk>, p: PState, op: POp) {
    match op
    case Alloc(n) => 0 < n < WORD
    case FreeOp(a, n) => 0 < n <= WORD - PAGE_SIZE && InUse(l0, p.free, a, RoundPage(n))
    case Reserve(a, n) => 0 <= a && 0 <= n && a + n <= WORD - PAGE_SIZE
  }

  /** Whole pages of the original memory, none of them free. */
  ghost predicate InUse(l0: seq<Blk>, l: seq<Blk>, a: int, n: int) {
    Whole(Blk(a, n)) && AllFree(l0, a, n) && NoneFree(l, a, n)
  }

  function PApply(p: PState, op: POp): PState {
    match op
    case Alloc(n) => PageAlloc(p, n).0
    case FreeOp(a, n) => PageFree(p, a, n)
    case Reserve(a, n) => PageReserve(p, a, n).0
  }

  /** The list is canonical, holds only memory it was given, and every byte is
      either free or counted as used. */
  ghost predicate PInv(l0: seq<Blk>, p: PState) {
    && Canon(l0) && Canon(p.free)
    && (forall x :: Free(p.free, x) ==> Free(l0, x))
    && p.used + Total(p.free) == Total(l0)
    && 0 <= p.used < WORD
  }

  lemma TotalFits(l: seq<Blk>)
    requires Canon(l)
    ensures 0 <= Total(l) < WORD
  {
    TotalBound(l);
    if l != [] {
      LastAfter(l);
    }
    hide Total;
  }

  lemma WrapFits(x: int)
    ensures 0 <= x < WORD ==> Wrap(x) == x
  {
  }

  lemma PAllocOk(l0: seq<Blk>, p: PState, n: int)
    requires PInv(l0, p) && 0 < n < WORD
    ensures PInv(l0, PageAlloc(p, n).0)
  {
    if n > WORD - PAGE_SIZE {
      if p.free == [] {
        hide RoundPage;
      } else {
        PageAllocTooBig(p, n);
        hide PageAlloc;
      }
    } else {
      hide PageAlloc, Canon, Free, Total, RoundPage, Wrap, AllFree;
      PageAllocMeans(p, n);
      TotalFits(l0);
      TotalFits(PageAlloc(p, n).0.free);
      WrapFits(p.used + RoundPage(n));
    }
  }

  lemma PFreeOk(l0: seq<Blk>, p: PState, a: int, n: int)
    requires PInv(l0, p) && InUse(l0, p.free, a, RoundPage(n))
    ensures PInv(l0, PageFree(p, a, n))
  {
    var r := RoundPage(n);
    hide RoundPage;
    hide Canon, Free, Total, Wrap, FreeBlock;
    var k := FreeBlock(p.free, Blk(a, r));
    FreeBlockOk(p.free, Blk(a, r));
    FreedWithin(l0, p.free, k, a, r);
    TotalFits(l0);
    TotalFits(k);
    WrapFits(p.used - r);
  }

  lemma FreedWithin(l0: seq<Blk>, l: seq<Blk>, k: seq<Blk>, a: int, n: int)
    requires Canon(l0) && Canon(l) && Canon(k) && InUse(l0, l, a, n) && Total(k) == Total(l) + n
    requires forall x :: Free(l, x) ==> Free(l0, x)
    requires forall x :: Free(k, x) <==> Free(l, x) || Holds(Blk(a, n), x)
    ensures forall x :: Free(k, x) ==> Free(l0, x)
    ensures Total(k) <= Total(l0)
  {
    hide Canon, Free, Total;
    SubTotal(k, l0);
  }

  /** Fewer free bytes, smaller total. */
  lemma {:induction false} SubTotal(k: seq<Blk>, l: seq<Blk>)
    requires Canon(k) && Canon(l) && forall x :: Free(k, x) ==> Free(l, x)
    ensures Total(k) <= Total(l)
    decreases |k|
  {
    if k == [] {
      TotalBound(l);
    } else {
      var b := k[0];
      FirstBlock(k);
      hide Aligned;
      forall x | Holds(b, x) ensures Free(l, x) {
      }
      var i := RunInBlock(l, b.addr, b.size);
      TailFree(k);
      SplitAligned(k);
      CutBlock(l, i, b.addr, b.End());
      hide Canon, Free, Leftovers;
      SubTotal(k[1..], l[..i] + Leftovers(l[i], b.addr, b.End()) + l[i + 1..]);
    }
  }

  lemma SplitAligned(k: seq<Blk>)
    requires Canon(k) && k != []
    ensures Aligned(k[0].addr) && Aligned(k[0].End())
  {
    AlignedSum(k[0].addr, k[0].size);
  }

  lemma PReserveOk(l0: seq<Blk>, p: PState, a: int, n: int)
    requires PInv(l0, p) && 0 <= a && 0 <= n && a + n <= WORD - PAGE_SIZE
    ensures PInv(l0, PageReserve(p, a, n).0)
  {
    hide PageReserve, Canon, Free, Total, RoundPage, TruncPage, Wrap, AllFree;
    var (r, ok) := PageReserve(p, a, n);
    if n == 0 {
      ReserveNothing(p, a);
    } else {
      PageReserveMeans(p, a, n);
      if ok {
        TotalFits(l0);
        TotalFits(r.free);
        WrapFits(p.used + (RoundPage(a + n) - TruncPage(a)));
      }
    }
  }

  lemma ReserveNothing(p: PState, a: int)
    ensures PageReserve(p, a, 0) == (p, true)
  {
  }

  lemma PStepOk(l0: seq<Blk>, p: PState, op: POp)
    requires PInv(l0, p) && PCan(l0, p, op)
    ensures PInv(l0, PApply(p, op))
  {
    hide PInv, PageAlloc, PageFree, PageReserve, InUse, RoundPage;
    match op
    case Alloc(n) => PAllocOk(l0, p, n);
    case FreeOp(a, n) => PFreeOk(l0, p, a, n);
    case Reserve(a, n) => PReserveOk(l0, p, a, n);
  }

  /** Any sequence of calls; one that the source forbids is passed over. */
  ghost function PExec(l0: seq<Blk>, p: PState, ops: seq<POp>): PState
    decreases |ops|
  {
    if ops == [] then p
    else if PCan(l0, p, ops[0]) then PExec(l0, PApply(p, ops[0]), ops[1..])
    else PExec(l0, p, ops[1..])
  }

  lemma {:induction false} PExecOk(l0: seq<Blk>, p: PState, ops: seq<POp>)
    requires PInv(l0, p)
    ensures PInv(l0, PExec(l0, p, ops))
    decreases |ops|
  {
    hide PInv, PCan, PApply;
    if ops != [] {
      if PCan(l0, p, ops[0]) {
        PStepOk(l0, p, ops[0]);
        PExecOk(l0, PApply(p, ops[0]), ops[1..]);
      } else {
        PExecOk(l0, p, ops[1..]);
      }
    }
  }

  /** In every run the free list is the canonical one of its free bytes, and
      used_size plus the free bytes is constant. Once all that was taken has
      been given back, in any order and in any pieces, the list and the counter
      are those of the start. */
  lemma PagesEveryRun(l0: seq<Blk>, ops: seq<POp>)
    requires Canon(l0)
    ensures var p := PExec(l0, PState(l0, 0), ops);
      && PInv(l0, p) && p.used + Total(p.free) == Total(l0)
      && ((forall x :: Free(l0, x) ==> Free(p.free, x)) ==> p == PState(l0, 0))
  {
    TotalFits(l0);
    PExecOk(l0, PState(l0, 0), ops);
    var p := PExec(l0, PState(l0, 0), ops);
    hide Canon, Free, Total, PExec;
    if forall x :: Free(l0, x) ==> Free(p.free, x) {
      Unique(p.free, l0);
    }
  }

  /** Two runs that leave the same bytes free leave the same state. */
  lemma OrderIrrelevant(l0: seq<Blk>, a: seq<POp>, b: seq<POp>)
    requires Canon(l0)
    requires var p, q := PExec(l0, PState(l0, 0), a), PExec(l0, PState(l0, 0), b);
      forall x :: Free(p.free, x) <==> Free(q.free, x)
    ensures PExec(l0, PState(l0, 0), a) == PExec(l0, PState(l0, 0), b)
  {
    PagesEveryRun(l0, a);
    PagesEveryRun(l0, b);
    hide Canon, Free, Total, PExec;
    Unique(PExec(l0, PState(l0, 0), a).free, PExec(l0, PState(l0, 0), b).free);
  }
}
