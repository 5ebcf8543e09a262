/** Pointer graphs with at most one edge out of each node, as the mutex_waiting
    and holder fields make them. */
module Graph {
  import opened Lists

  type Node = int
  type Edges = map<Node, Node>

  /** The node `n` edges from `t`, if the chain is that long. */
  function Walk(g: Edges, t: Node, n: nat): Option<Node>
    decreases n
  {
    if n == 0 then Some(t)
    else if t in g then Walk(g, g[t], n - 1)
    else None
  }

  /** No node reaches itself. */
  ghost predicate Acyclic(g: Edges) {
    forall t, n: nat :: n > 0 ==> Walk(g, t, n) != Some(t)
  }

  ghost predicate Reaches(g: Edges, a: Node, b: Node) {
    exists n: nat :: Walk(g, a, n) == Some(b)
  }

  lemma {:induction false} WalkPlus(g: Edges, t: Node, m: nat, n: nat)
    ensures Walk(g, t, m + n) == match Walk(g, t, m) case None => None case Some(u) => Walk(g, u, n)
    decreases m
  {
    if m > 0 && t in g {
      WalkPlus(g, g[t], m - 1, n);
    }
  }

  lemma {:induction false} WalkSub(g: Edges, h: Edges, t: Node, n: nat)
    requires forall x :: x in g ==> x in h && h[x] == g[x]
    requires Walk(g, t, n).Some?
    ensures Walk(h, t, n) == Walk(g, t, n)
    decreases n
  {
    if n > 0 {
      WalkSub(g, h, g[t], n - 1);
    }
  }

  /** Dropping edges keeps a graph acyclic. */
  lemma AcyclicSub(g: Edges, h: Edges)
    requires forall x :: x in g ==> x in h && h[x] == g[x]
    requires Acyclic(h)
    ensures Acyclic(g)
  {
    forall t, n: nat | n > 0 ensures Walk(g, t, n) != Some(t) {
      if Walk(g, t, n) == Some(t) {
        WalkSub(g, h, t, n);
      }
    }
  }

  /** A walk that may use the new edge out of `a` reaches `a` without it. */
  lemma {:induction false} WalkToNewEdge(g: Edges, a: Node, b: Node, t: Node, n: nat)
    requires a !in g && Walk(g[a := b], t, n) == Some(a)
    ensures Reaches(g, t, a)
    decreases n
  {
    if t == a {
      assert Walk(g, t, 0) == Some(a);
    } else {
      WalkToNewEdge(g, a, b, g[t], n - 1);
      var k: nat :| Walk(g, g[t], k) == Some(a);
      assert Walk(g, t, k + 1) == Some(a);
    }
  }

  /** Either a walk avoids the new edge or it passes through its start. */
  lemma {:induction false} WalkSplit(g: Edges, h: Edges, a: Node, b: Node, t: Node, n: nat)
    requires a !in g && h == g[a := b] && Walk(h, t, n).Some?
    ensures Walk(g, t, n) == Walk(h, t, n) || exists i: nat :: i < n && Walk(h, t, i) == Some(a)
    decreases n
  {
    if n > 0 {
      if t == a {
        assert Walk(h, t, 0) == Some(a);
      } else {
        var u := h[t];
        WalkSplit(g, h, a, b, u, n - 1);
        if Walk(g, u, n - 1) != Walk(h, u, n - 1) {
          var i: nat :| i < n - 1 && Walk(h, u, i) == Some(a);
          assert Walk(h, t, i + 1) == Some(a);
        } else {
          assert t in g && g[t] == u;
        }
      }
    }
  }

  lemma CycleAt(g: Edges, t: Node, n: nat, i: nat, u: Node)
    requires Walk(g, t, n) == Some(t) && Walk(g, t, i) == Some(u)
    ensures Walk(g, u, n) == Some(u)
  {
    WalkPlus(g, t, n, i);
    WalkPlus(g, t, i, n);
    assert n + i == i + n;
  }

  /** A new edge closes a cycle exactly when its end already reaches its start. */
  lemma AddEdge(g: Edges, a: Node, b: Node)
    requires Acyclic(g) && a !in g
    ensures Acyclic(g[a := b]) <==> !Reaches(g, b, a)
  {
    var h := g[a := b];
    if Reaches(g, b, a) {
      var n: nat :| Walk(g, b, n) == Some(a);
      WalkSub(g, h, b, n);
      assert Walk(h, a, n + 1) == Some(a);
    } else {
      forall t, n: nat | n > 0 ensures Walk(h, t, n) != Some(t) {
        if Walk(h, t, n) == Some(t) {
          WalkSplit(g, h, a, b, t, n);
          if Walk(g, t, n) != Some(t) {
            var i: nat :| i < n && Walk(h, t, i) == Some(a);
            CycleAt(h, t, n, i, a);
            assert Walk(h, b, n - 1) == Some(a);
            WalkToNewEdge(g, a, b, b, n - 1);
          }
        }
      }
    }
  }

  lemma {:induction false} WalkRedirected(g: Edges, h: Edges, z: Node, u: Node, t: Node, n: nat)
    requires z !in h && forall x :: x in h ==> h[x] == z || (x in g && h[x] == g[x])
    requires Walk(h, u, n) == Some(t) && t in h
    ensures Walk(g, u, n) == Some(t)
    decreases n
  {
    if n > 0 {
      WalkRedirected(g, h, z, h[u], t, n - 1);
    }
  }

  /** Pointing any edges at a node without one keeps a graph acyclic. */
  lemma Redirect(g: Edges, h: Edges, z: Node)
    requires z !in h && forall x :: x in h ==> h[x] == z || (x in g && h[x] == g[x])
    requires Acyclic(g)
    ensures Acyclic(h)
  {
    forall t, n: nat | n > 0 ensures Walk(h, t, n) != Some(t) {
      if Walk(h, t, n) == Some(t) {
        WalkRedirected(g, h, z, t, t, n);
      }
    }
  }

  // ----- Chains -----

  /** Consecutive nodes are joined by edges. */
  ghost predicate Trail(g: Edges, p: seq<Node>) {
    forall i :: 0 <= i < |p| - 1 ==> p[i] in g && g[p[i]] == p[i + 1]
  }

  lemma {:induction false} TrailWalk(g: Edges, p: seq<Node>, i: nat, j: nat)
    requires Trail(g, p) && i <= j < |p|
    ensures Walk(g, p[i], j - i) == Some(p[j])
    decreases j - i
  {
    if i < j {
      TrailWalk(g, p, i + 1, j);
    }
  }

  lemma {:induction false} SizeBound(p: seq<Node>, s: set<Node>)
    requires NoDup(p) && forall i :: 0 <= i < |p| ==> p[i] in s
    ensures |p| <= |s|
    decreases |p|
  {
    if p != [] {
      SizeBound(p[1..], s - {p[0]});
    }
  }

  /** In an acyclic graph a trail repeats no node, so it is no longer than the
      graph has edges, plus one. */
  lemma TrailBound(g: Edges, p: seq<Node>)
    requires Acyclic(g) && Trail(g, p)
    ensures NoDup(p) && |p| <= |g| + 1
  {
    forall i, j | 0 <= i < j < |p| ensures p[i] != p[j] {
      TrailWalk(g, p, i, j);
    }
    if p != [] {
      SizeBound(p[..|p| - 1], g.Keys);
    }
  }

  /** The last node of a trail is reached from the first. */
  lemma TrailReaches(g: Edges, p: seq<Node>)
    requires Trail(g, p) && p != []
    ensures Reaches(g, p[0], p[|p| - 1])
  {
    TrailWalk(g, p, 0, |p| - 1);
  }

  /** A trail that ends where no edge leaves passes every node its start reaches. */
  lemma TrailComplete(g: Edges, p: seq<Node>, t: Node)
    requires Trail(g, p) && p != [] && p[|p| - 1] !in g && Reaches(g, p[0], t)
    ensures t in p
  {
    var n: nat :| Walk(g, p[0], n) == Some(t);
    if n < |p| {
      TrailWalk(g, p, 0, n);
    } else {
      TrailWalk(g, p, 0, |p| - 1);
      WalkPlus(g, p[0], |p| - 1, n - (|p| - 1));
    }
  }

  // ----- Two graphs that agree where both have an edge -----

  lemma ReachesStep(g: Edges, a: Node, t: Node)
    ensures a in g ==> (Reaches(g, a, t) <==> a == t || Reaches(g, g[a], t))
    ensures a !in g ==> (Reaches(g, a, t) <==> a == t)
  {
    if a == t {
      assert Walk(g, a, 0) == Some(t);
    }
    if a in g && Reaches(g, g[a], t) {
      var n: nat :| Walk(g, g[a], n) == Some(t);
      assert Walk(g, a, n + 1) == Some(t);
    }
    if Reaches(g, a, t) {
      var n: nat :| Walk(g, a, n) == Some(t);
      if n > 0 {
        assert Walk(g, g[a], n - 1) == Some(t);
      }
    }
  }

  /** A chain of `g` that ends at `c` is also there in `p` exactly when every node
      with an edge on it has one in `p`. */
  lemma {:induction false} PathShared(p: Edges, g: Edges, b: Node, c: Node, n: nat)
    requires Walk(g, b, n) == Some(c) && c !in g && c !in p
    requires forall t :: t in p && t in g ==> p[t] == g[t]
    ensures Reaches(p, b, c) <==> forall t :: Reaches(g, b, t) && t in g ==> t in p
    decreases n
  {
    hide Reaches;
    forall t ensures b !in g && Reaches(g, b, t) ==> t == b {
      ReachesStep(g, b, t);
    }
    ReachesStep(p, b, c);
    ReachesStep(g, b, b);
    if n > 0 {
      forall t ensures Reaches(g, b, t) <==> b == t || Reaches(g, g[b], t) {
        ReachesStep(g, b, t);
      }
      PathShared(p, g, g[b], c, n - 1);
    }
  }

  lemma {:induction false} SelfLoop(g: Edges, a: Node, n: nat)
    requires a in g && g[a] == a
    ensures Walk(g, a, n) == Some(a)
    decreases n
  {
    if n > 0 {
      SelfLoop(g, a, n - 1);
    }
  }
}
