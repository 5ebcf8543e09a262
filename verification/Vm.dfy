/** The address space of a task in sys/mem/vm.c: segments that tile the user
    address space, over the kernel heap and the page allocator. Shared and
    mapped segments do not occur in these runs. */
module Vm {
  import opened Lists
  import opened Page
  import opened Kmem

  const USERLIMIT: int := 0x8000_0000
  const MAXMEM: int := 4 * 1024 * 1024
  const SEG_SIZE: int := 32
  const MAP_SIZE: int := 44

  /** The flag words a segment takes: SEG_FREE, 0, SEG_READ, SEG_READ | SEG_WRITE. */
  datatype SegFlags = Vacant | NoAccess | ReadOnly | ReadWrite

  /** struct seg; `node` is its address. */
  datatype Seg = Seg(node: int, addr: int, size: int, flags: SegFlags, phys: int) {
    function End(): int { addr + size }
    predicate IsFree() { flags == Vacant }
  }

  /** A map with the memory below it; `segs` is the ring from its head on. */
  datatype VState = VState(k: KState, segs: seq<Seg>, total: int)

  datatype VError = EINVAL | ENOMEM
  datatype VResult = Ok(addr: int) | Fail(error: VError)

  // ----- Segment records -----

  /** kmem_alloc of a record; the free lists always hold blocks of the heap. */
  function NodeAlloc(k: KState): (KState, KResult) {
    if Headed(k.free, k.pages) then KmemAlloc(k, SEG_SIZE) else (k, Panic)
  }

  /** kmem_free of a record; an address without block header, which would be a
      panic, never occurs. */
  function NodeFree(k: KState, node: int): KState {
    if HasBlock(k.pages, node - BLKHDR_SIZE) then KmemFree(k, node) else k
  }

  // ----- Segments -----

  /** seg_init: the head is part of the map record. */
  function SegInit(node: int): seq<Seg> {
    [Seg(node, PAGE_SIZE, USERLIMIT - PAGE_SIZE, Vacant, 0)]
  }

  /** A new segment record after segment `i`, which is cut to `left` bytes. */
  function SplitSeg(s: seq<Seg>, i: nat, node: int, left: int): seq<Seg>
    requires i < |s|
  {
    s[..i] + [s[i].(size := left), Seg(node, s[i].addr + left, s[i].size - left, Vacant, 0)] + s[i + 1..]
  }

  /** seg_create with the write to the size of the segment before; false is NULL. */
  function SegCreate(v: VState, i: nat, left: int): (VState, bool)
    requires i < |v.segs|
  {
    var (k, res) := NodeAlloc(v.k);
    if res.Ptr? then (v.(k := k, segs := SplitSeg(v.segs, i, res.ptr, left)), true)
    else (v.(k := k), false)
  }

  /** seg_lookup: the first segment that includes the range, or the length. */
  function SegLookup(s: seq<Seg>, addr: int, size: int): (i: nat)
    ensures i <= |s| && (i < |s| ==> s[i].addr <= addr && addr + size <= s[i].End())
    ensures forall j :: 0 <= j < i ==> !(s[j].addr <= addr && addr + size <= s[j].End())
  {
    if s == [] || (s[0].addr <= addr && addr + size <= s[0].End()) then 0 else 1 + SegLookup(s[1..], addr, size)
  }

  /** The first free segment of at least `size` bytes, or the length. */
  function SegFit(s: seq<Seg>, size: int): (i: nat)
    ensures i <= |s| && (i < |s| ==> s[i].IsFree() && s[i].size >= size)
    ensures forall j :: 0 <= j < i ==> !(s[j].IsFree() && s[j].size >= size)
  {
    if s == [] || (s[0].IsFree() && s[0].size >= size) then 0 else 1 + SegFit(s[1..], size)
  }

  /** seg_alloc: the index of the segment found. */
  function SegAlloc(v: VState, size: int): (r: (VState, Option<nat>))
    ensures r.1.Some? ==> r.1.value < |r.0.segs|
  {
    var i := SegFit(v.segs, size);
    if i == |v.segs| then (v, None)
    else if v.segs[i].size == size then (v, Some(i))
    else
      var (w, ok) := SegCreate(v, i, size);
      (w, if ok then Some(i) else None)
  }

  predicate BothFree(s: seq<Seg>, i: int) {
    0 <= i < |s| - 1 && s[i].IsFree() && s[i + 1].IsFree()
  }

  /** Segment `i` takes up the next one if both are free; its record is freed. */
  function Merge(v: VState, i: int): VState {
    if BothFree(v.segs, i) then
      v.(segs := v.segs[..i] + [v.segs[i].(size := v.segs[i].size + v.segs[i + 1].size)] + v.segs[i + 2..],
         k := NodeFree(v.k, v.segs[i + 1].node))
    else v
  }

  /** seg_free: first the next segment, then the previous one is merged. */
  function SegFree(v: VState, i: nat): VState
    requires i < |v.segs|
  {
    Merge(Merge(v.(segs := v.segs[i := v.segs[i].(flags := Vacant)]), i), i - 1)
  }

  /** The second half of seg_reserve: the segment starts at the address. */
  function ReserveFront(v: VState, i: nat, size: int): (r: (VState, Option<nat>))
    requires i < |v.segs|
    ensures i < |r.0.segs| && (r.1.Some? ==> r.1 == Some(i))
  {
    if v.segs[i].size == size then (v.(segs := v.segs[i := v.segs[i].(flags := NoAccess)]), Some(i))
    else
      var (w, ok) := SegCreate(v, i, size);
      if ok then (w.(segs := w.segs[i := w.segs[i].(flags := NoAccess)]), Some(i)) else (w, None)
  }

  /** seg_reserve; the result is the index of the segment, now with flags 0. */
  function SegReserve(v: VState, addr: int, size: int): (r: (VState, Option<nat>))
    ensures r.1.Some? ==> r.1.value < |r.0.segs|
  {
    var i := SegLookup(v.segs, addr, size);
    if i == |v.segs| || !v.segs[i].IsFree() then (v, None)
    else if v.segs[i].addr == addr then ReserveFront(v, i, size)
    else
      var (w, ok) := SegCreate(v, i, addr - v.segs[i].addr);
      if !ok then (w, None)
      else
        var (x, r) := ReserveFront(w, i + 1, size);
        if r == None then (SegFree(x, i + 1), None) else (x, r)
  }

  // ----- The operations on a map -----

  function Occupy(v: VState, i: nat, flags: SegFlags, phys: int): VState
    requires i < |v.segs|
  {
    v.(segs := v.segs[i := v.segs[i].(flags := flags, phys := phys)])
  }

  /** do_allocate from the segment found: pages are taken and mapped; `mapped`
      is the oracle for mmu_map. */
  function Populate(v: VState, i: nat, size: int, mapped: bool): (VState, VResult)
    requires i < |v.segs|
  {
    var v1 := Occupy(v, i, ReadWrite, v.segs[i].phys);
    var (p, pa) := PageAlloc(v.k.p, size);
    if pa != 0 && mapped then
      (Occupy(v1, i, ReadWrite, pa).(k := v.k.(p := p), total := v.total + size), Ok(v.segs[i].addr))
    else
      var q := if pa == 0 then p else PageFree(p, pa, size);
      (SegFree(v1.(k := v.k.(p := q)), i), Fail(ENOMEM))
  }

  function DoAllocate(v: VState, addr: int, size: int, anywhere: bool, mapped: bool): (VState, VResult) {
    if size == 0 then (v, Fail(EINVAL))
    else if v.total + size >= MAXMEM then (v, Fail(ENOMEM))
    else
      var start := TruncPage(addr);
      var n := if anywhere then RoundPage(size) else RoundPage(start + size) - start;
      var (w, r) := if anywhere then SegAlloc(v, n) else SegReserve(v, start, n);
      match r
      case None => (w, Fail(ENOMEM))
      case Some(i) => Populate(w, i, n, mapped)
  }

  /** The segment allocated exactly at the page of `addr`, or the length. */
  function Target(s: seq<Seg>, addr: int): (i: nat)
    ensures i <= |s|
  {
    var i := SegLookup(s, TruncPage(addr), 1);
    if i < |s| && (s[i].addr != TruncPage(addr) || s[i].IsFree()) then |s| else i
  }

  function DoFree(v: VState, addr: int): (VState, VResult) {
    var i := Target(v.segs, addr);
    if i == |v.segs| then (v, Fail(EINVAL))
    else
      var b := v.segs[i];
      (SegFree(v.(k := v.k.(p := PageFree(v.k.p, b.phys, b.size)), total := v.total - b.size), i), Ok(b.addr))
  }

  /** do_attribute; `write` is the PROT_WRITE bit of the attribute. */
  function DoAttribute(v: VState, addr: int, write: bool, mapped: bool): (VState, VResult) {
    var i := Target(v.segs, addr);
    if i == |v.segs| then (v, Fail(EINVAL))
    else
      var b := v.segs[i];
      var flags := if write then ReadWrite else ReadOnly;
      if (b.flags == ReadWrite) == write then (v, Ok(b.addr))
      else if !mapped then (v, Fail(ENOMEM))
      else (v.(segs := v.segs[i := b.(flags := flags)]), Ok(b.addr))
  }
}
