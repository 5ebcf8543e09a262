/** The intrusive rings of sys/lib/queue.c and include/sys/list.h: the pointer
    code against the sequence operations used everywhere else. */
module Links {
  import opened Lists

  /** struct queue and struct list. */
  class Link {
    var next: Link?
    var prev: Link?

    /** queue_init and list_init. */
    constructor ()
      ensures Ring(this, [])
    {
      next, prev := this, this;
    }
  }

  /** Node `i` of the ring through `head` and then `s`. */
  function At(head: Link, s: seq<Link>, i: nat): Link {
    if i == 0 || i > |s| then head else s[i - 1]
  }

  /** The ring through the head and then `s`, except for the links behind the
      nodes numbered from `lo` up to `hi`. */
  ghost predicate RingBut(head: Link, s: seq<Link>, lo: nat, hi: nat)
    reads head, s
  {
    && NoDup(s) && head !in s
    && (forall i: nat :: i <= |s| && !(lo <= i < hi) ==> At(head, s, i).next == At(head, s, i + 1))
    && (forall i: nat :: i <= |s| && !(lo <= i < hi) ==> At(head, s, i + 1).prev == At(head, s, i))
  }

  /** From the head the `next` fields lead through `s` in order and back to the
      head, and the `prev` fields lead back. */
  ghost predicate Ring(head: Link, s: seq<Link>)
    reads head, s
  {
    RingBut(head, s, 0, 0)
  }

  lemma Distinct(head: Link, s: seq<Link>, i: nat, j: nat)
    requires NoDup(s) && head !in s && i <= |s| && j <= |s| && i != j
    ensures At(head, s, i) != At(head, s, j)
    ensures At(head, s, i + 1) != At(head, s, j + 1)
  {
  }

  lemma Apart(head: Link, s: seq<Link>, k: nat)
    requires NoDup(s) && head !in s && k <= |s|
    ensures forall i: nat :: i <= |s| && i != k ==> At(head, s, i) != At(head, s, k)
    ensures forall i: nat :: 1 <= i <= |s| + 1 && i != k + 1 ==> At(head, s, i) != At(head, s, k + 1)
  {
    forall i: nat | i <= |s| && i != k ensures At(head, s, i) != At(head, s, k) {
      Distinct(head, s, i, k);
    }
    forall i: nat | 1 <= i <= |s| + 1 && i != k + 1 ensures At(head, s, i) != At(head, s, k + 1) {
      Distinct(head, s, i - 1, k);
    }
  }

  /** `s` with `item` put behind node `k`. */
  function Inserted(s: seq<Link>, k: nat, item: Link): seq<Link>
    requires k <= |s|
  {
    s[..k] + [item] + s[k..]
  }

  lemma InsertedAt(head: Link, s: seq<Link>, k: nat, item: Link, i: nat)
    requires k <= |s| && i <= |s| + 2
    ensures |Inserted(s, k, item)| == |s| + 1
    ensures At(head, Inserted(s, k, item), i) ==
      if i <= k then At(head, s, i) else if i == k + 1 then item else At(head, s, i - 1)
  {
  }

  lemma InsertedNew(head: Link, s: seq<Link>, k: nat, item: Link)
    requires k <= |s| && NoDup(s) && head !in s && item !in s && item != head
    ensures NoDup(Inserted(s, k, item)) && head !in Inserted(s, k, item)
  {
  }

  /** The four link fields that an insertion writes make the longer ring. */
  lemma RingInserted(head: Link, s: seq<Link>, k: nat, item: Link)
    requires k <= |s| && RingBut(head, s, k, k + 1) && item !in s && item != head
    requires At(head, s, k).next == item && item.next == At(head, s, k + 1)
    requires item.prev == At(head, s, k) && At(head, s, k + 1).prev == item
    ensures Ring(head, Inserted(s, k, item))
  {
    hide NoDup, Inserted, At;
    InsertedNew(head, s, k, item);
    InsertedAt(head, s, k, item, 0);
    var t := Inserted(s, k, item);
    forall i: nat | i <= |s| + 1
      ensures At(head, t, i).next == At(head, t, i + 1) && At(head, t, i + 1).prev == At(head, t, i)
    {
      InsertedAt(head, s, k, item, i);
      InsertedAt(head, s, k, item, i + 1);
      if i > k + 1 {
        assert At(head, s, i - 1).next == At(head, s, i - 1 + 1);
      }
    }
  }

  /** queue_insert. */
  method QueueInsert(prev: Link, item: Link, ghost head: Link, ghost s: seq<Link>, ghost k: nat)
    requires Ring(head, s) && k <= |s| && prev == At(head, s, k) && item !in s && item != head
    modifies prev, prev.next, item
    ensures Ring(head, Inserted(s, k, item))
  {
    hide NoDup, Inserted;
    assert At(head, s, k).next == At(head, s, k + 1);
    Apart(head, s, k);
    item.prev := prev;
    item.next := prev.next;
    prev.next.prev := item;
    prev.next := item;
    RingInserted(head, s, k, item);
  }

  /** list_insert. */
  method ListInsert(prev: Link, node: Link, ghost head: Link, ghost s: seq<Link>, ghost k: nat)
    requires Ring(head, s) && k <= |s| && prev == At(head, s, k) && node !in s && node != head
    modifies prev, prev.next, node
    ensures Ring(head, Inserted(s, k, node))
  {
    hide NoDup, Inserted;
    assert At(head, s, k).next == At(head, s, k + 1);
    Apart(head, s, k);
    prev.next.prev := node;
    node.next := prev.next;
    node.prev := prev;
    prev.next := node;
    RingInserted(head, s, k, node);
  }

  /** enqueue: the item goes to the tail. */
  method Enqueue(head: Link, item: Link, ghost s: seq<Link>)
    requires Ring(head, s) && item !in s && item != head
    modifies head, head.prev, item
    ensures Ring(head, s + [item])
  {
    hide NoDup;
    assert At(head, s, |s| + 1).prev == At(head, s, |s|);
    Apart(head, s, |s|);
    item.next := head;
    item.prev := head.prev;
    item.prev.next := item;
    head.prev := item;
    RingInserted(head, s, |s|, item);
    assert Inserted(s, |s|, item) == s + [item];
  }

  lemma RemovedAt(head: Link, s: seq<Link>, k: nat, i: nat)
    requires NoDup(s) && k < |s| && i <= |s|
    ensures |Remove(s, s[k])| == |s| - 1
    ensures At(head, Remove(s, s[k]), i) == if i <= k then At(head, s, i) else At(head, s, i + 1)
  {
    hide NoDup, Remove;
    RemoveAt(s, k);
  }

  /** The two link fields that a removal writes make the shorter ring. */
  lemma RingRemoved(head: Link, s: seq<Link>, k: nat)
    requires k < |s| && RingBut(head, s, k, k + 2)
    requires At(head, s, k).next == At(head, s, k + 2) && At(head, s, k + 2).prev == At(head, s, k)
    ensures Ring(head, Remove(s, s[k]))
  {
    hide NoDup, Remove, At;
    RemoveFacts(s, s[k]);
    var t := Remove(s, s[k]);
    forall i: nat | i <= |t|
      ensures At(head, t, i).next == At(head, t, i + 1) && At(head, t, i + 1).prev == At(head, t, i)
    {
      RemovedAt(head, s, k, i);
      RemovedAt(head, s, k, i + 1);
      if i > k {
        assert At(head, s, i + 1).next == At(head, s, i + 1 + 1);
      }
    }
  }

  /** queue_remove; list_remove is the same code. */
  method QueueRemove(item: Link, ghost head: Link, ghost s: seq<Link>)
    requires Ring(head, s) && item in s
    modifies item.prev, item.next
    ensures Ring(head, Remove(s, item))
  {
    hide NoDup, Remove;
    ghost var k: nat :| k < |s| && s[k] == item;
    assert At(head, s, k).next == At(head, s, k + 1) == item;
    assert item.next == At(head, s, k + 2) && item.prev == At(head, s, k);
    Apart(head, s, k);
    Apart(head, s, k + 1);
    item.prev.next := item.next;
    item.next.prev := item.prev;
    RingRemoved(head, s, k);
  }

  /** dequeue: null for the empty queue, else the first item, which is unlinked. */
  method Dequeue(head: Link, ghost s: seq<Link>) returns (item: Link?)
    requires Ring(head, s)
    modifies head, if |s| > 1 then {s[1]} else {}
    ensures item == null <==> s == []
    ensures if s == [] then Ring(head, s) else item == s[0] && Ring(head, s[1..])
  {
    hide NoDup, Remove;
    assert At(head, s, 0).next == At(head, s, 1);
    if head.next == head {
      return null;
    }
    Apart(head, s, 0);
    item := head.next;
    assert At(head, s, 1).next == At(head, s, 2);
    Apart(head, s, 1);
    item.next.prev := head;
    head.next := item.next;
    RingRemoved(head, s, 0);
    RemoveAt(s, 0);
    assert s[..0] + s[1..] == s[1..];
  }
}
