/** The sequence view of the kernel's intrusive queues and lists: what a queue
    holds, in order, once the link fields are abstracted away (module Links
    shows that the pointer code implements these operations). */
module Lists {
  datatype Option<+T> = None | Some(value: T)

  /** Every node is linked at most once. */
  ghost predicate NoDup<T>(q: seq<T>) {
    forall i, j :: 0 <= i < j < |q| ==> q[i] != q[j]
  }

  /** The queue after unlinking the node `x`; a queue without `x` is unchanged. */
  function Remove<T(==)>(q: seq<T>, x: T): seq<T> {
    if q == [] then []
    else if q[0] == x then q[1..]
    else [q[0]] + Remove(q[1..], x)
  }

  lemma NoDupCons<T>(x: T, q: seq<T>)
    requires NoDup(q) && x !in q
    ensures NoDup([x] + q) && NoDup(q + [x])
  {
  }

  /** Unlinking takes out exactly the node asked for. */
  lemma {:induction false} RemoveFacts<T>(q: seq<T>, x: T)
    requires NoDup(q)
    ensures NoDup(Remove(q, x))
    ensures forall y :: y in Remove(q, x) <==> y in q && y != x
    ensures |Remove(q, x)| == if x in q then |q| - 1 else |q|
    ensures x !in q ==> Remove(q, x) == q
  {
    if q != [] {
      assert q == [q[0]] + q[1..];
      if q[0] != x {
        RemoveFacts(q[1..], x);
        NoDupCons(q[0], Remove(q[1..], x));
      }
    }
  }

  lemma {:induction false} RemoveAt<T>(q: seq<T>, k: nat)
    requires NoDup(q) && k < |q|
    ensures Remove(q, q[k]) == q[..k] + q[k + 1..]
  {
    if k > 0 {
      RemoveAt(q[1..], k - 1);
      assert q[1..][..k - 1] == q[1..k] && q[1..][k..] == q[k + 1..];
      assert q[..k] == [q[0]] + q[1..k];
    }
  }

  /** The list with its elements in the opposite order. */
  function Reverse<T>(q: seq<T>): (r: seq<T>)
    ensures |r| == |q|
    ensures forall k :: 0 <= k < |q| ==> r[k] == q[|q| - 1 - k]
  {
    if q == [] then [] else Reverse(q[1..]) + [q[0]]
  }
}
