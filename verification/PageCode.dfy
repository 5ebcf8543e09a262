/** The code of sys/mem/page.c over the page structures in memory: `next`,
    `prev` and `size` are their fields, by address. */
module PageCode {
  import opened Page
  import P = Page

  /** Node `i` of the ring that starts and ends at the list head. */
  function Node(l: seq<Blk>, head: int, i: int): int {
    if 0 <= i < |l| then l[i].addr else head
  }

  predicate LinkAt(next: map<int, int>, prev: map<int, int>, head: int, l: seq<Blk>, i: int) {
    var a, b := Node(l, head, i - 1), Node(l, head, i);
    a in next && next[a] == b && b in prev && prev[b] == a
  }

  predicate SizeAt(size: map<int, int>, b: Blk) {
    b.addr in size && size[b.addr] == b.size
  }

  /** The ring holds the blocks of `l` in order, in both directions. */
  ghost predicate Linked(next: map<int, int>, prev: map<int, int>, size: map<int, int>, head: int, l: seq<Blk>) {
    && (forall i :: 0 <= i < |l| ==> SizeAt(size, l[i]))
    && (forall i :: 0 <= i <= |l| ==> LinkAt(next, prev, head, l, i))
  }

  ghost predicate Distinct(head: int, l: seq<Blk>) {
    && (forall i :: 0 <= i < |l| ==> l[i].addr != head)
    && (forall i, j :: 0 <= i < j < |l| ==> l[i].addr != l[j].addr)
  }

  lemma CanonDistinct(head: int, l: seq<Blk>)
    requires Canon(l) && !Free(l, head)
    ensures Distinct(head, l)
  {
    forall i, j | 0 <= i < j < |l| ensures l[i].addr != l[j].addr {
      Ordered(l, i, j);
    }
    forall i | 0 <= i < |l| ensures l[i].addr != head {
      SplitAt(l, i);
      BlockRun(l, i, l[i].addr, l[i].size);
    }
  }

  // ----- What pointer writes do to the list -----

  function Without(l: seq<Blk>, i: nat): (r: seq<Blk>)
    requires i < |l|
    ensures |r| == |l| - 1 && forall j :: 0 <= j < |r| ==> r[j] == l[if j < i then j else j + 1]
  {
    l[..i] + l[i + 1..]
  }

  /** Unlinking block `i`. */
  lemma UnlinkOk(next: map<int, int>, prev: map<int, int>, size: map<int, int>, head: int, l: seq<Blk>, i: nat)
    requires Linked(next, prev, size, head, l) && Distinct(head, l) && i < |l|
    ensures var (a, b) := (Node(l, head, i - 1), Node(l, head, i + 1));
      Linked(next[a := b], prev[b := a], size, head, Without(l, i)) && Distinct(head, Without(l, i))
  {
    var (a, b) := (Node(l, head, i - 1), Node(l, head, i + 1));
    var r := Without(l, i);
    var (next', prev') := (next[a := b], prev[b := a]);
    forall j | 0 <= j <= |r| ensures LinkAt(next', prev', head, r, j) {
      var k := if j <= i - 1 then j else j + 1;
      assert LinkAt(next, prev, head, l, k);
      assert Node(r, head, j) == Node(l, head, k);
      assert j != i ==> Node(r, head, j - 1) == Node(l, head, k - 1);
      assert j == i ==> Node(r, head, j - 1) == a && Node(r, head, j) == b;
    }
    forall j | 0 <= j < |r| ensures SizeAt(size, r[j]) {
      assert SizeAt(size, l[if j < i then j else j + 1]);
    }
  }

  lemma InsertElems(l: seq<Blk>, i: nat, b: Blk)
    requires i <= |l|
    ensures var r := InsertAt(l, i, b);
      |r| == |l| + 1 && forall k :: 0 <= k < |r| ==> r[k] == if k < i then l[k] else if k == i then b else l[k - 1]
  {
  }

  /** Linking a new block before block `i`. */
  lemma LinkOk(next: map<int, int>, prev: map<int, int>, size: map<int, int>, head: int, l: seq<Blk>, i: nat, b: Blk)
    requires Linked(next, prev, size, head, l) && i <= |l| && Distinct(head, l) && Distinct(head, InsertAt(l, i, b))
    ensures var (u, v) := (Node(l, head, i - 1), Node(l, head, i));
      Linked(next[b.addr := v][u := b.addr], prev[b.addr := u][v := b.addr], size[b.addr := b.size], head, InsertAt(l, i, b))
  {
    var (u, v) := (Node(l, head, i - 1), Node(l, head, i));
    var r := InsertAt(l, i, b);
    InsertElems(l, i, b);
    assert r[i] == b && u != b.addr && v != b.addr by {
      assert forall j :: 0 <= j < |l| ==> l[j] == r[if j < i then j else j + 1];
    }
    var (next', prev') := (next[b.addr := v][u := b.addr], prev[b.addr := u][v := b.addr]);
    hide InsertAt;
    forall j | 0 <= j <= |r| ensures LinkAt(next', prev', head, r, j) {
      if j == i {
        assert Node(r, head, j - 1) == u && Node(r, head, j) == b.addr;
      } else if j == i + 1 {
        assert Node(r, head, j - 1) == b.addr && Node(r, head, j) == v;
      } else {
        var k := if j < i then j else j - 1;
        assert LinkAt(next, prev, head, l, k);
        assert Node(r, head, j) == Node(l, head, k) && Node(r, head, j - 1) == Node(l, head, k - 1);
        OtherLink(r, head, i, j);
      }
    }
    forall j | 0 <= j < |r| ensures SizeAt(size[b.addr := b.size], r[j]) {
      assert j != i ==> SizeAt(size, l[if j < i then j else j - 1]) && r[j].addr != r[i].addr;
    }
  }

  /** A link away from block `i` starts and ends at other nodes than its neighbours do. */
  lemma OtherLink(r: seq<Blk>, head: int, i: nat, j: nat)
    requires Distinct(head, r) && i < |r| && j <= |r| && j != i && j != i + 1
    ensures Node(r, head, j - 1) != Node(r, head, i - 1) && Node(r, head, j - 1) != r[i].addr
    ensures Node(r, head, j) != Node(r, head, i + 1) && Node(r, head, j) != r[i].addr
  {
  }

  lemma ResizeOk(next: map<int, int>, prev: map<int, int>, size: map<int, int>, head: int, l: seq<Blk>, i: nat, n: int)
    requires Linked(next, prev, size, head, l) && Distinct(head, l) && i < |l|
    ensures var r := l[i := Blk(l[i].addr, n)];
      Linked(next, prev, size[l[i].addr := n], head, r) && Distinct(head, r)
  {
    var r := l[i := Blk(l[i].addr, n)];
    forall j | 0 <= j <= |r| ensures LinkAt(next, prev, head, r, j) {
      assert LinkAt(next, prev, head, l, j);
      assert Node(r, head, j) == Node(l, head, j) && Node(r, head, j - 1) == Node(l, head, j - 1);
    }
    forall j | 0 <= j < |r| ensures SizeAt(size[l[i].addr := n], r[j]) {
      assert SizeAt(size, l[j]);
    }
  }

  lemma BeforeIs(l: seq<Blk>, a: int, i: nat)
    requires i <= |l| && (i < |l| ==> l[i].addr >= a) && forall j :: 0 <= j < i ==> l[j].addr < a
    ensures i == Before(l, a)
  {
  }

  /** What page_alloc leaves is canonical and still without the list head. */
  lemma AllocStays(l: seq<Blk>, head: int, i: nat, n: int, psize: int)
    requires Canon(l) && !Free(l, head) && i < |l| && n == RoundPage(psize) && n <= l[i].size && 0 < psize < WORD
    ensures var r := TakeFront(l, i, n); Canon(r) && !Free(r, head) && Distinct(head, r)
  {
    RoundPageFacts(psize);
    hide RoundPage;
    if n == 0 {
      SplitAt(l, i);
      assert TakeFront(l, i, n) == l;
    } else {
      TakeFrontOk(l, i, n);
    }
    hide TakeFront;
    CanonDistinct(head, TakeFront(l, i, n));
  }

  lemma TakeFrontIs(l: seq<Blk>, i: nat, n: int)
    requires i < |l|
    ensures l[i].size == n ==> TakeFront(l, i, n) == Without(l, i)
    ensures l[i].size != n ==>
      TakeFront(l, i, n) == l[..i] + [Blk(l[i].addr + n, l[i].size - n)] + l[i + 1..]
  {
    assert l[..i] + [] + l[i + 1..] == l[..i] + l[i + 1..];
  }

  lemma FitIs(l: seq<Blk>, n: int, i: nat)
    requires i <= |l| && (i < |l| ==> l[i].size >= n) && forall j :: 0 <= j < i ==> l[j].size < n
    ensures i == Fit(l, n)
  {
  }

  lemma IncludingIs(l: seq<Blk>, s: int, e: int, i: nat)
    requires i <= |l| && (i < |l| ==> l[i].addr <= s && e <= l[i].End())
    requires forall j :: 0 <= j < i ==> !(l[j].addr <= s && e <= l[j].End())
    ensures i == Including(l, s, e)
  {
  }

  /** Following the ring from node `i`. */
  lemma NextNode(next: map<int, int>, prev: map<int, int>, size: map<int, int>, head: int, l: seq<Blk>, i: int)
    requires Linked(next, prev, size, head, l) && Distinct(head, l) && -1 <= i < |l|
    ensures Node(l, head, i) in next && next[Node(l, head, i)] == Node(l, head, i + 1)
    ensures Node(l, head, i + 1) in prev && prev[Node(l, head, i + 1)] == Node(l, head, i)
    ensures Node(l, head, i + 1) == head <==> i + 1 == |l|
    ensures i >= 0 ==> SizeAt(size, l[i])
  {
    assert LinkAt(next, prev, head, l, i + 1);
  }

  /** Replacing block `i` by one at another address, as page_alloc does. */
  lemma SplitOk(next: map<int, int>, prev: map<int, int>, size: map<int, int>, head: int, l: seq<Blk>, i: nat, b: Blk)
    requires Linked(next, prev, size, head, l) && Distinct(head, l) && i < |l|
    requires Distinct(head, l[..i] + [b] + l[i + 1..])
    ensures var (u, v) := (Node(l, head, i - 1), Node(l, head, i + 1));
      Linked(next[b.addr := v][u := b.addr], prev[b.addr := u][v := b.addr], size[b.addr := b.size], head,
        l[..i] + [b] + l[i + 1..])
  {
    var (u, v) := (Node(l, head, i - 1), Node(l, head, i + 1));
    var r := Without(l, i);
    UnlinkOk(next, prev, size, head, l, i);
    assert r[..i] == l[..i] && r[i..] == l[i + 1..];
    assert InsertAt(r, i, b) == l[..i] + [b] + l[i + 1..];
    assert Node(r, head, i - 1) == u && Node(r, head, i) == v;
    hide Linked, Distinct, Node;
    LinkOk(next[u := v], prev[v := u], size, head, r, i, b);
    assert next[u := v][b.addr := v][u := b.addr] == next[b.addr := v][u := b.addr];
    assert prev[v := u][b.addr := u][v := b.addr] == prev[b.addr := u][v := b.addr];
  }

  /** Neither neighbour is the block itself. */
  lemma Neighbours(l: seq<Blk>, head: int, i: nat)
    requires Distinct(head, l) && i < |l|
    ensures Node(l, head, i - 1) != l[i].addr && Node(l, head, i + 1) != l[i].addr
  {
  }

  class PageList {
    const head: int
    var next: map<int, int>
    var prev: map<int, int>
    var size: map<int, int>
    var used: int
    ghost var blks: seq<Blk>

    ghost predicate Ring()
      reads this`next, this`prev, this`size, this`blks
    {
      Linked(next, prev, size, head, blks) && Distinct(head, blks)
    }

    /** The list head lies outside the memory it manages. */
    ghost predicate Valid()
      reads this
    {
      Ring() && Canon(blks) && !Free(blks, head)
    }

    ghost function S(): PState
      reads this
    {
      PState(blks, used)
    }

    /** The empty list, before page_init frees the memory of the system. */
    constructor (listHead: int)
      ensures Valid() && S() == PState([], 0) && head == listHead
    {
      head := listHead;
      next, prev, size, used := map[listHead := listHead], map[listHead := listHead], map[], 0;
      blks := [];
    }

    lemma Around(i: int)
      requires Ring() && -1 <= i < |blks|
      ensures var a, b := Node(blks, head, i), Node(blks, head, i + 1);
        && a in next && next[a] == b && b in prev && prev[b] == a
        && (b == head <==> i + 1 == |blks|)
        && (i >= 0 ==> a == blks[i].addr && SizeAt(size, blks[i]))
    {
      NextNode(next, prev, size, head, blks, i);
    }

    /** The first free block of at least `n` bytes, or the list head. */
    method FindFit(n: int) returns (blk: int)
      requires Ring()
      ensures blk == Node(blks, head, Fit(blks, n)) && (blk == head <==> Fit(blks, n) == |blks|)
    {
      hide Ring, Fit;
      blk := head;
      ghost var i := -1;
      while true
        invariant -1 <= i < |blks| && blk == Node(blks, head, i)
        invariant forall j :: 0 <= j <= i ==> blks[j].size < n
        decreases |blks| - i
      {
        Around(i);
        blk := next[blk];
        i := i + 1;
        if blk == head {
          FitIs(blks, n, i);
          return;
        }
        Around(i);
        if size[blk] >= n {
          break;
        }
      }
      FitIs(blks, n, i);
    }

    /** blk->prev->next = blk->next; blk->next->prev = blk->prev. */
    method Unlink(blk: int, ghost i: nat)
      requires Ring() && i < |blks| && blk == blks[i].addr
      modifies this
      ensures Ring() && used == old(used) && blks == Without(old(blks), i) && size == old(size)
    {
      Around(i);
      Around(i - 1);
      Neighbours(blks, head, i);
      UnlinkOk(next, prev, size, head, blks, i);
      hide Linked, Distinct, Node;
      next := next[prev[blk] := next[blk]];
      prev := prev[next[blk] := prev[blk]];
      blks := Without(blks, i);
    }

    /** The block is divided and its second half takes its place in the list. */
    method SplitFront(blk: int, n: int, ghost i: nat)
      requires Ring() && i < |blks| && blk == blks[i].addr
      requires Distinct(head, blks[..i] + [Blk(blk + n, blks[i].size - n)] + blks[i + 1..])
      modifies this
      ensures Ring() && used == old(used)
      ensures blks == old(blks[..i] + [Blk(blk + n, blks[i].size - n)] + blks[i + 1..])
    {
      Around(i);
      Around(i - 1);
      Neighbours(blks, head, i);
      SplitOk(next, prev, size, head, blks, i, Blk(blk + n, blks[i].size - n));
      hide Linked, Distinct, Node;
      var tmp := blk + n;
      size := size[tmp := size[blk] - n];
      prev := prev[tmp := prev[blk]];
      next := next[tmp := next[blk]];
      next := next[prev[blk] := tmp];
      prev := prev[next[blk] := tmp];
      blks := blks[..i] + [Blk(blk + n, blks[i].size - n)] + blks[i + 1..];
    }

    method PageAlloc(psize: int) returns (a: int)
      requires Valid() && 0 < psize < WORD
      modifies this
      ensures Valid() && (S(), a) == P.PageAlloc(old(S()), psize)
    {
      hide Ring, Canon, RoundPage, Free, Wrap;
      var n := RoundPage(psize);
      var blk := FindFit(n);
      ghost var i := Fit(blks, n);
      if blk == head {
        return 0;
      }
      Around(i);
      AllocStays(blks, head, i, n, psize);
      TakeFrontIs(blks, i, n);
      hide TakeFront, Fit;
      if size[blk] == n {
        Unlink(blk, i);
      } else {
        SplitFront(blk, n, i);
      }
      used := Wrap(used + n);
      return blk;
    }
  
    // ----- page_free -----

    /** The last block before `paddr`, or the list head. */
    method FindPrev(paddr: int) returns (prv: int)
      requires Ring() && head != paddr
      ensures prv == Node(blks, head, Before(blks, paddr) - 1)
    {
      hide Ring, Before;
      prv := head;
      ghost var i := 0;
      Around(i - 1);
      while next[prv] < paddr
        invariant 0 <= i <= |blks| && prv == Node(blks, head, i - 1)
        invariant prv in next && next[prv] == Node(blks, head, i) && (next[prv] == head <==> i == |blks|)
        invariant forall j :: 0 <= j < i ==> blks[j].addr < paddr
        decreases |blks| - i
      {
        if next[prv] == head {
          break;
        }
        prv := next[prv];
        Around(i);
        i := i + 1;
      }
      BeforeIs(blks, paddr, i);
    }

    /** A new block is linked after `prv`. */
    method LinkAfter(prv: int, blk: int, n: int, ghost i: nat)
      requires Ring() && i <= |blks| && prv == Node(blks, head, i - 1)
      requires Distinct(head, InsertAt(blks, i, Blk(blk, n)))
      modifies this
      ensures Ring() && used == old(used) && blks == InsertAt(old(blks), i, Blk(blk, n))
    {
      Around(i - 1);
      LinkOk(next, prev, size, head, blks, i, Blk(blk, n));
      FreshNode(blks, head, i, Blk(blk, n));
      hide Linked, Distinct, Node, InsertAt;
      size := size[blk := n];
      prev := prev[blk := prv];
      next := next[blk := next[prv]];
      prev := prev[next[prv] := blk];
      next := next[prv := blk];
      blks := InsertAt(blks, i, Blk(blk, n));
    }

    /** The block takes up the next one if they touch. */
    method JoinNext(blk: int, ghost i: nat)
      requires Ring() && i < |blks| && blk == blks[i].addr
      modifies this
      ensures Ring() && used == old(used) && blks == JoinAt(old(blks), i)
    {
      Around(i);
      JoinParts(blks, i);
      hide Linked, Distinct, Ring, JoinAt;
      if next[blk] != head && blk + size[blk] == next[blk] {
        var nxt := next[blk];
        Around(i + 1);
        ghost var l := blks;
        Unlink(nxt, i + 1);
        Resize(blk, size[blk] + size[nxt], i);
      }
    }

    method Resize(blk: int, n: int, ghost i: nat)
      requires Ring() && i < |blks| && blk == blks[i].addr
      modifies this
      ensures Ring() && used == old(used) && blks == old(blks[i := Blk(blk, n)])
    {
      ResizeOk(next, prev, size, head, blks, i, n);
      hide Linked, Distinct;
      size := size[blk := n];
      blks := blks[i := Blk(blk, n)];
    }

    /** A block just linked is joined with its neighbours. */
    method Coalesce(blk: int, ghost i: int)
      requires Ring() && 0 <= i < |blks| && blk == blks[i].addr
      modifies this
      ensures Ring() && used == old(used) && blks == JoinAt(JoinAt(old(blks), i), i - 1)
    {
      hide Ring;
      JoinKeeps(blks, i);
      JoinNone(blks, i);
      JoinNext(blk, i);
      Around(i);
      Around(i - 1);
      if i > 0 {
        Around(i - 2);
      }
      hide JoinAt;
      if prev[blk] != head {
        JoinNext(prev[blk], i - 1);
      }
    }

    method PageFree(paddr: int, psize: int)
      requires Valid() && RoundPage(psize) > 0
      requires Whole(Blk(paddr, RoundPage(psize))) && NoneFree(blks, paddr, RoundPage(psize))
      requires !Holds(Blk(paddr, RoundPage(psize)), head)
      modifies this
      ensures Valid() && S() == P.PageFree(old(S()), paddr, psize)
    {
      hide Ring, Canon, RoundPage, Free, Wrap, NoneFree;
      var n := RoundPage(psize);
      ghost var l, b := blks, Blk(paddr, n);
      ghost var i: int := Before(l, paddr);
      var prv := FindPrev(paddr);
      FreeStays(l, head, b);
      LinkAfter(prv, paddr, n, i);
      InsertElems(l, i, b);
      hide JoinAt, InsertAt, Before;
      Coalesce(paddr, i);
      used := Wrap(used - n);
    }

    // ----- page_reserve -----

    /** The block that includes [start, end), or the list head. */
    method FindIncluding(start: int, end: int) returns (blk: int)
      requires Ring()
      ensures blk == Node(blks, head, Including(blks, start, end))
      ensures blk == head <==> Including(blks, start, end) == |blks|
    {
      hide Ring, Including;
      Around(-1);
      blk := next[head];
      ghost var i := 0;
      while true
        invariant 0 <= i <= |blks| && blk == Node(blks, head, i) && (blk == head <==> i == |blks|)
        invariant forall j :: 0 <= j < i ==> !(blks[j].addr <= start && end <= blks[j].End())
        decreases |blks| - i
      {
        if blk == head {
          break;
        }
        Around(i);
        if blk <= start && end <= blk + size[blk] {
          break;
        }
        blk := next[blk];
        i := i + 1;
      }
      IncludingIs(blks, start, end, i);
    }

    /** The end of the block is cut off as a block of its own. */
    method SplitBack(blk: int, end: int, ghost i: nat)
      requires Ring() && i < |blks| && blk == blks[i].addr
      requires Distinct(head, InsertAt(blks, i + 1, Blk(end, blks[i].End() - end)))
      modifies this
      ensures Ring() && used == old(used)
      ensures blks == InsertAt(old(blks), i + 1, Blk(end, old(blks[i].End()) - end))[i := Blk(blk, end - blk)]
    {
      Around(i);
      ghost var tail := Blk(end, blks[i].End() - end);
      LinkOk(next, prev, size, head, blks, i + 1, tail);
      InsertElems(blks, i + 1, tail);
      FreshNode(blks, head, i + 1, tail);
      hide Linked, Distinct, Node, InsertAt;
      var tmp := end;
      var rest := blk + size[blk] - end;
      size := size[tmp := rest];
      next := next[tmp := next[blk]];
      prev := prev[tmp := blk];
      prev := prev[next[blk] := tmp];
      next := next[blk := tmp];
      blks := InsertAt(blks, i + 1, tail);
      assert Ring();
      Resize(blk, size[blk] - size[tmp], i);
    }

    method PageReserve(paddr: int, psize: int) returns (ok: bool)
      requires Valid() && 0 <= paddr && 0 <= psize && paddr + psize <= WORD - PAGE_SIZE
      modifies this
      ensures Valid() && (S(), ok) == P.PageReserve(old(S()), paddr, psize)
    {
      hide Ring, Canon, RoundPage, TruncPage, Free, Wrap, Leftovers, Distinct;
      if psize == 0 {
        return true;
      }
      var start, end := TruncPage(paddr), RoundPage(paddr + psize);
      var blk := FindIncluding(start, end);
      ghost var i := Including(blks, start, end);
      if blk == head {
        return false;
      }
      Around(i);
      ReserveStays(blks, head, i, paddr, psize);
      hide Including;
      Carve(blk, start, end, i);
      used := Wrap(used + (end - start));
      return true;
    }

    /** [start, end) is taken out of the block. */
    method Carve(blk: int, start: int, end: int, ghost i: nat)
      requires Ring() && i < |blks| && blk == blks[i].addr && blk <= start < end <= blks[i].End()
      requires Distinct(head, InsertAt(blks, i + 1, Blk(end, blks[i].End() - end))) || end == blks[i].End()
      modifies this
      ensures Ring() && used == old(used)
      ensures blks == old(blks[..i] + Leftovers(blks[i], start, end) + blks[i + 1..])
    {
      hide Ring, Distinct;
      Around(i);
      CarveIs(blks, i, start, end);
      hide Leftovers, InsertAt;
      if blk == start && size[blk] == end - start {
        Unlink(blk, i);
      } else {
        if blk + size[blk] != end {
          InsertElems(blks, i + 1, Blk(end, blks[i].End() - end));
          SplitBack(blk, end, i);
        }
        if blk == start {
          Unlink(blk, i);
        } else {
          Resize(blk, start - blk, i);
        }
      }
    }
  }

  lemma CarveIs(l: seq<Blk>, i: nat, s: int, e: int)
    requires i < |l| && l[i].addr <= s < e <= l[i].End()
    ensures var b := l[i];
      var r := l[..i] + Leftovers(b, s, e) + l[i + 1..];
      var m := if b.End() == e then l else InsertAt(l, i + 1, Blk(e, b.End() - e))[i := Blk(b.addr, e - b.addr)];
      && i < |m|
      && (b.addr == s ==> r == Without(m, i))
      && (b.addr != s ==> r == m[i := Blk(b.addr, s - b.addr)])
  {
    assert l == l[..i] + ([l[i]] + l[i + 1..]);
  }

  lemma ReserveStays(l: seq<Blk>, head: int, i: nat, paddr: int, psize: int)
    requires Canon(l) && !Free(l, head) && i < |l|
    requires 0 <= paddr && 0 < psize && paddr + psize <= WORD - PAGE_SIZE
    requires var s, e := TruncPage(paddr), RoundPage(paddr + psize); l[i].addr <= s && e <= l[i].End()
    ensures var s, e := TruncPage(paddr), RoundPage(paddr + psize);
      && s < e
      && (Distinct(head, InsertAt(l, i + 1, Blk(e, l[i].End() - e))) || e == l[i].End())
      && var r := l[..i] + Leftovers(l[i], s, e) + l[i + 1..]; Canon(r) && !Free(r, head)
  {
    var s, e := TruncPage(paddr), RoundPage(paddr + psize);
    RoundPageFacts(paddr + psize);
    TruncFacts(paddr);
    hide RoundPage, TruncPage;
    CutBlock(l, i, s, e);
    if e < l[i].End() {
      TailDistinct(l, head, i, e);
    }
    hide Canon, Free, InsertAt, Leftovers, Distinct;
  }

  lemma TailDistinct(l: seq<Blk>, head: int, i: nat, e: int)
    requires Canon(l) && !Free(l, head) && i < |l| && l[i].addr < e < l[i].End()
    ensures Distinct(head, InsertAt(l, i + 1, Blk(e, l[i].End() - e)))
  {
    var b := Blk(e, l[i].End() - e);
    CanonDistinct(head, l);
    BlockRun(l, i, l[i].addr, l[i].size);
    InsertElems(l, i + 1, b);
    hide Canon, Free, InsertAt;
    forall j | 0 <= j < |l| ensures l[j].addr != e {
      if j < i {
        Ordered(l, j, i);
      } else if i < j {
        Ordered(l, i, j);
      }
    }
  }

  /** The new block is none of its neighbours. */
  lemma FreshNode(l: seq<Blk>, head: int, i: nat, b: Blk)
    requires i <= |l| && Distinct(head, InsertAt(l, i, b))
    ensures Node(l, head, i - 1) != b.addr && Node(l, head, i) != b.addr
  {
    InsertElems(l, i, b);
    var r := InsertAt(l, i, b);
    hide InsertAt;
    assert r[i] == b && (i > 0 ==> r[i - 1] == l[i - 1]) && (i < |l| ==> r[i + 1] == l[i]);
  }

  lemma JoinParts(l: seq<Blk>, i: nat)
    requires i < |l|
    ensures var touch := i + 1 < |l| && l[i].End() == l[i + 1].addr;
      JoinAt(l, i) == if touch then Without(l, i + 1)[i := Blk(l[i].addr, l[i].size + l[i + 1].size)] else l
  {
    var t := l[i + 1..];
    assert l == l[..i] + ([l[i]] + t);
    if t != [] && l[i].End() == t[0].addr {
      var c := Blk(l[i].addr, l[i].size + t[0].size);
      assert t[1..] == l[i + 2..];
      assert Glue(l[i], t) == [c] + l[i + 2..];
      hide Glue;
      MergedIs(l, i, c);
    }
  }

  lemma MergedIs(l: seq<Blk>, i: nat, c: Blk)
    requires i + 1 < |l|
    ensures l[..i] + ([c] + l[i + 2..]) == Without(l, i + 1)[i := c]
  {
  }

  lemma JoinNone(l: seq<Blk>, i: int)
    ensures i == 0 ==> JoinAt(JoinAt(l, i), i - 1) == JoinAt(l, i)
  {
  }

  lemma JoinKeeps(l: seq<Blk>, i: nat)
    requires i < |l|
    ensures var r := JoinAt(l, i); i < |r| && r[i].addr == l[i].addr && forall j :: 0 <= j < i ==> r[j] == l[j]
  {
    JoinParts(l, i);
    hide JoinAt;
  }

  lemma NewBlock(l: seq<Blk>, head: int, b: Blk)
    requires Canon(l) && Whole(b) && NoneFree(l, b.addr, b.size) && !Free(l, head) && !Holds(b, head)
    ensures Distinct(head, InsertAt(l, Before(l, b.addr), b))
  {
    CanonDistinct(head, l);
    forall j | 0 <= j < |l| ensures l[j].addr != b.addr {
      NotInside(l, j, b);
      SplitAt(l, j);
    }
    InsertElems(l, Before(l, b.addr), b);
    hide Canon, Free, NoneFree, Before, InsertAt, Aligned;
  }

  /** The block to be freed is new to the list, and freeing it keeps the list
      canonical and without the list head. */
  lemma FreeStays(l: seq<Blk>, head: int, b: Blk)
    requires Canon(l) && Whole(b) && NoneFree(l, b.addr, b.size) && !Free(l, head) && !Holds(b, head)
    ensures Distinct(head, InsertAt(l, Before(l, b.addr), b))
    ensures Canon(FreeBlock(l, b)) && !Free(FreeBlock(l, b), head)
  {
    hide Canon, Free, NoneFree, FreeBlock, Distinct, Whole;
    NewBlock(l, head, b);
    FreeBlockOk(l, b);
  }
}
