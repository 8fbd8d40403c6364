/**
 * Walks in a weighted graph: the reference against which computed distances are judged.
 */
module Walks {
  import opened Kernels

  // The idx-th edge of vertex `from`; duplicate edges are different hops.
  datatype Hop = Hop(from: nat, idx: nat)

  type Walk = seq<Hop>

  ghost predicate IsHop(g: Graph, h: Hop, k: nat) {
    h.from < |g| && h.idx < |g[h.from]| && g[h.from][h.idx].target == k
  }

  ghost predicate IsWalk(g: Graph, src: nat, w: Walk, k: nat)
    decreases |w|
  {
    if |w| == 0 then src == k && k < |g|
    else IsHop(g, w[|w| - 1], k) && IsWalk(g, src, w[..|w| - 1], w[|w| - 1].from)
  }

  function Weight(g: Graph, h: Hop): real {
    if h.from < |g| && h.idx < |g[h.from]| then g[h.from][h.idx].weight else 0.0
  }

  function Length(g: Graph, w: Walk): real {
    if |w| == 0 then 0.0 else Length(g, w[..|w| - 1]) + Weight(g, w[|w| - 1])
  }

  ghost predicate NonNegativeWeights(g: Graph) {
    forall i, e | 0 <= i < |g| && 0 <= e < |g[i]| :: g[i][e].weight >= 0.0
  }

  // x is the distance from src to k: attained by a walk if finite, and below every walk.
  ghost predicate IsDistance(g: Graph, src: nat, k: nat, x: Dist) {
    && Attained(g, src, k, x)
    && forall w | IsWalk(g, src, w, k) :: Leq(x, Fin(Length(g, w)))
  }

  ghost predicate Attained(g: Graph, src: nat, k: nat, x: Dist) {
    x.Fin? ==> exists w :: IsWalk(g, src, w, k) && Length(g, w) == x.r
  }

  lemma Extend(g: Graph, src: nat, w: Walk, h: Hop, k: nat)
    requires IsWalk(g, src, w, h.from) && IsHop(g, h, k)
    ensures IsWalk(g, src, w + [h], k) && Length(g, w + [h]) == Length(g, w) + Weight(g, h)
  {
  }

  // ---------- loops can be cut out ----------

  // The vertex a walk to k visits before its p-th hop.
  function Stop(w: Walk, k: nat, p: nat): nat
    requires p <= |w|
  {
    if p == |w| then k else w[p].from
  }

  lemma {:induction false} PrefixIsWalk(g: Graph, src: nat, w: Walk, k: nat, p: nat)
    requires IsWalk(g, src, w, k) && p <= |w|
    ensures IsWalk(g, src, w[..p], Stop(w, k, p))
    decreases |w|
  {
    if p == |w| {
      assert w[..p] == w;
    } else {
      var front := w[..|w| - 1];
      PrefixIsWalk(g, src, front, w[|w| - 1].from, p);
      assert front[..p] == w[..p];
    }
  }

  lemma {:induction false} StopInGraph(g: Graph, src: nat, w: Walk, k: nat, p: nat)
    requires Closed(g) && IsWalk(g, src, w, k) && p <= |w|
    ensures Stop(w, k, p) < |g|
  {
    PrefixIsWalk(g, src, w, k, p);
    var q := w[..p];
    if |q| > 0 {
      assert IsHop(g, q[|q| - 1], Stop(w, k, p));
    }
  }

  // Replacing the first j hops of w by a walk to the same place.
  lemma {:induction false} Splice(g: Graph, src: nat, a: Walk, w: Walk, k: nat, j: nat)
    requires IsWalk(g, src, w, k) && j <= |w| && IsWalk(g, src, a, Stop(w, k, j))
    ensures IsWalk(g, src, a + w[j..], k)
    ensures Length(g, a + w[j..]) == Length(g, a) + Length(g, w) - Length(g, w[..j])
    decreases |w|
  {
    if j == |w| {
      assert a + w[j..] == a && w[..j] == w;
    } else {
      var h, front := w[|w| - 1], w[..|w| - 1];
      Splice(g, src, a, front, h.from, j);
      assert front[..j] == w[..j];
      assert a + w[j..] == (a + front[j..]) + [h];
      Extend(g, src, a + front[j..], h, k);
    }
  }

  lemma {:induction false} LengthGrows(g: Graph, w: Walk, i: nat, j: nat)
    requires NonNegativeWeights(g) && i <= j <= |w|
    ensures Length(g, w[..i]) <= Length(g, w[..j])
  {
    if i < j {
      LengthGrows(g, w, i, j - 1);
      assert w[..j][..j - 1] == w[..j - 1];
    }
  }

  // More stops than vertices: two of them coincide.
  lemma {:induction false} Pigeonhole(n: nat, f: seq<nat>) returns (i: nat, j: nat)
    requires |f| > n && forall p | 0 <= p < |f| :: f[p] < n
    ensures i < j < |f| && f[i] == f[j]
    decreases n
  {
    var top := n - 1;
    assert n > 0 by { assert f[0] < n; }
    if p, q :| 0 <= p < q < |f| && f[p] == top && f[q] == top {
      i, j := p, q;
    } else if p :| 0 <= p < |f| && f[p] == top {
      var rest := f[..p] + f[p + 1..];
      forall q | 0 <= q < |rest| ensures rest[q] < top {
        assert rest[q] == f[if q < p then q else q + 1];
      }
      i, j := Pigeonhole(top, rest);
      i, j := if i < p then i else i + 1, if j < p then j else j + 1;
    } else {
      forall q | 0 <= q < |f| ensures f[q] < top {
        assert f[q] != top;
      }
      i, j := Pigeonhole(top, f);
    }
  }

  // With non-negative weights some walk of fewer than |V| hops is at least as short.
  lemma {:induction false} ShortWalkSuffices(g: Graph, src: nat, w: Walk, k: nat) returns (u: Walk)
    requires Closed(g) && NonNegativeWeights(g) && IsWalk(g, src, w, k)
    ensures IsWalk(g, src, u, k) && |u| < |g| && Length(g, u) <= Length(g, w)
    decreases |w|
  {
    if |w| < |g| {
      u := w;
    } else {
      var stops := seq(|w| + 1, p requires 0 <= p <= |w| => Stop(w, k, p));
      forall p | 0 <= p < |stops| ensures stops[p] < |g| {
        StopInGraph(g, src, w, k, p);
      }
      var i, j := Pigeonhole(|g|, stops);
      PrefixIsWalk(g, src, w, k, i);
      Splice(g, src, w[..i], w, k, j);
      LengthGrows(g, w, i, j);
      u := ShortWalkSuffices(g, src, w[..i] + w[j..], k);
    }
  }
}
