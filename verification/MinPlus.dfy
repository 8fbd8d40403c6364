/**
 * Shortest path on the atomic system.
 */
module MinPlus {
  import opened Kernels
  import opened Atomic
  import opened Walks

  type Distances = State<Dist>

  // ---------- soundness: every number in the system is the length of a walk ----------

  ghost predicate AllAttained(g: Graph, src: nat, ms: seq<Msg<Dist>>) {
    forall i | 0 <= i < |ms| :: Attained(g, src, ms[i].target, ms[i].value)
  }

  ghost predicate Grounded(g: Graph, src: nat, s: Distances)
    requires Shape(g, s)
  {
    && (forall k | 0 <= k < |g| :: Attained(g, src, k, s.v[k]) && Attained(g, src, k, s.d[k]))
    && (forall t | 0 <= t < |s.out| :: AllAttained(g, src, s.out[t]))
  }

  lemma MessagesAttained(g: Graph, src: nat, k: nat, x: Dist)
    requires k < |g| && Attained(g, src, k, x)
    ensures AllAttained(g, src, Messages(ShortestPath(), g[k], x))
  {
    var ms := Messages(ShortestPath(), g[k], x);
    OutgoingShape(ShortestPath(), g[k], 0, x);
    forall i | 0 <= i < |ms| ensures Attained(g, src, ms[i].target, ms[i].value) {
      assert ms[i] == Msg(g[k][i].target, Plus(x, g[k][i].weight));
      if x.Fin? {
        var w :| IsWalk(g, src, w, k) && Length(g, w) == x.r;
        Extend(g, src, w, Hop(k, i), g[k][i].target);
      }
    }
  }

  lemma GroundedStep(g: Graph, src: nat, s: Distances, a: Act)
    requires Shape(g, s) && Enabled(g, s, a) && Grounded(g, src, s)
    ensures Shape(g, Apply(ShortestPath(), g, s, a))
    ensures Grounded(g, src, Apply(ShortestPath(), g, s, a))
  {
    ApplyShape(ShortestPath(), g, s, a);
    match a {
      case Absorb(t, k) =>
        MessagesAttained(g, src, k, s.d[k]);
      case Deliver(t) =>
        assert AllAttained(g, src, s.out[t]) && AllAttained(g, src, s.out[t][1..]);
    }
  }

  // ---------- the edge invariant ----------

  // A value of at most x has arrived at j or is on its way there.
  ghost predicate Coming(ms: seq<Msg<Dist>>, j: nat, x: Dist) {
    exists p | 0 <= p < |ms| :: ms[p].target == j && Leq(ms[p].value, x)
  }

  ghost predicate Held(s: Distances, j: nat, x: Dist)
    requires j < |s.v| && j < |s.d|
  {
    Leq(s.v[j], x) || Leq(s.d[j], x)
  }

  ghost predicate Reached(s: Distances, j: nat, x: Dist)
    requires j < |s.v| && j < |s.d|
  {
    Held(s, j, x) || exists t | 0 <= t < |s.out| :: Coming(s.out[t], j, x)
  }

  // No step takes an arrived value back, raises a value, or loses a message.
  lemma HeldStep(g: Graph, s: Distances, a: Act, j: nat, x: Dist)
    requires Shape(g, s) && Enabled(g, s, a) && j < |g| && Held(s, j, x)
    ensures Held(Apply(ShortestPath(), g, s, a), j, x)
    ensures Leq(Apply(ShortestPath(), g, s, a).v[j], s.v[j])
    ensures a.Absorb? && a.k == j ==> Leq(Apply(ShortestPath(), g, s, a).v[j], x)
  {
  }

  lemma ValueNeverGrows(g: Graph, s: Distances, a: Act, j: nat)
    requires Shape(g, s) && Enabled(g, s, a) && j < |g|
    ensures Leq(Apply(ShortestPath(), g, s, a).v[j], s.v[j])
  {
  }

  lemma ReachedStep(g: Graph, s: Distances, a: Act, j: nat, x: Dist)
    requires Shape(g, s) && Enabled(g, s, a) && j < |g| && Reached(s, j, x)
    ensures Reached(Apply(ShortestPath(), g, s, a), j, x)
  {
    var s' := Apply(ShortestPath(), g, s, a);
    if Held(s, j, x) {
      HeldStep(g, s, a, j, x);
    } else {
      var t :| 0 <= t < |s.out| && Coming(s.out[t], j, x);
      var p :| 0 <= p < |s.out[t]| && s.out[t][p].target == j && Leq(s.out[t][p].value, x);
      if a == Deliver(t) && p == 0 {
        assert Leq(s'.d[j], x);
      } else if a == Deliver(t) {
        assert s'.out[t][p - 1] == s.out[t][p];
        assert Coming(s'.out[t], j, x);
      } else {
        assert s'.out[t] == s.out[t];
      }
    }
  }

  // For every edge i -> j of weight w something of at most v_i + w is at j or on its way.
  ghost predicate EdgeOk(g: Graph, s: Distances, i: nat, e: nat)
    requires Shape(g, s) && i < |g| && e < |g[i]|
  {
    g[i][e].target < |g| && Reached(s, g[i][e].target, Plus(s.v[i], g[i][e].weight))
  }

  ghost predicate EdgesOk(g: Graph, src: nat, s: Distances)
    requires Shape(g, s)
  {
    && (src < |g| ==> Reached(s, src, Fin(0.0)))
    && forall i, e | 0 <= i < |g| && 0 <= e < |g[i]| :: EdgeOk(g, s, i, e)
  }

  lemma EdgeStep(g: Graph, s: Distances, a: Act, i: nat, e: nat)
    requires Shape(g, s) && Enabled(g, s, a) && i < |g| && e < |g[i]| && EdgeOk(g, s, i, e)
    requires Shape(g, Apply(ShortestPath(), g, s, a))
    ensures EdgeOk(g, Apply(ShortestPath(), g, s, a), i, e)
  {
    var s' := Apply(ShortestPath(), g, s, a);
    var j, w := g[i][e].target, g[i][e].weight;
    if s'.v[i] == s.v[i] {
      ReachedStep(g, s, a, j, Plus(s.v[i], w));
    } else {
      assert a.Absorb? && a.k == i && s'.v[i] == s.d[i];
      OutgoingShape(ShortestPath(), g[i], 0, s.d[i]);
      assert s'.out[a.t][e] == Msg(j, Plus(s.d[i], w));
      assert Coming(s'.out[a.t], j, Plus(s'.v[i], w));
    }
  }

  lemma EdgesStep(g: Graph, src: nat, s: Distances, a: Act)
    requires Shape(g, s) && Enabled(g, s, a) && EdgesOk(g, src, s)
    ensures Shape(g, Apply(ShortestPath(), g, s, a))
    ensures EdgesOk(g, src, Apply(ShortestPath(), g, s, a))
  {
    ApplyShape(ShortestPath(), g, s, a);
    if src < |g| {
      ReachedStep(g, s, a, src, Fin(0.0));
    }
    forall i, e | 0 <= i < |g| && 0 <= e < |g[i]| ensures EdgeOk(g, Apply(ShortestPath(), g, s, a), i, e) {
      EdgeStep(g, s, a, i, e);
    }
  }

  lemma DrainedIsHeld(s: Distances, j: nat, x: Dist)
    requires j < |s.v| && j < |s.d| && Drained(s) && Reached(s, j, x)
    ensures Held(s, j, x)
  {
  }

  // ---------- exactness at quiescence ----------

  // With nothing in flight and no delta below its value, every walk is accounted for; no
  // assumption on weights.
  lemma {:induction false} SettledBelowWalk(g: Graph, src: nat, s: Distances, w: Walk, k: nat)
    requires Shape(g, s) && EdgesOk(g, src, s) && Drained(s) && IsWalk(g, src, w, k) && k < |g|
    requires forall j | 0 <= j < |g| :: Leq(s.v[j], s.d[j])
    ensures Leq(s.v[k], Fin(Length(g, w)))
    decreases |w|
  {
    if |w| == 0 {
      DrainedIsHeld(s, k, Fin(0.0));
    } else {
      var h := w[|w| - 1];
      assert IsHop(g, h, k);
      SettledBelowWalk(g, src, s, w[..|w| - 1], h.from);
      assert EdgeOk(g, s, h.from, h.idx);
      DrainedIsHeld(s, k, Plus(s.v[h.from], g[h.from][h.idx].weight));
    }
  }

  lemma SettledIsExact(g: Graph, src: nat, s: Distances, k: nat)
    requires Shape(g, s) && Grounded(g, src, s) && EdgesOk(g, src, s) && Drained(s) && k < |g|
    requires forall j | 0 <= j < |g| :: Leq(s.v[j], s.d[j])
    ensures IsDistance(g, src, k, s.v[k])
  {
    forall w | IsWalk(g, src, w, k) ensures Leq(s.v[k], Fin(Length(g, w))) {
      SettledBelowWalk(g, src, s, w, k);
    }
  }

  // ---------- passes ----------

  // v_k, or v_k together with delta_k, accounts for every walk of at most h hops.
  ghost predicate ValuesCover(g: Graph, src: nat, s: Distances, h: int)
    requires Shape(g, s)
  {
    forall w: Walk, k: nat | IsWalk(g, src, w, k) && |w| <= h && k < |g| :: Leq(s.v[k], Fin(Length(g, w)))
  }

  ghost predicate RowsCover(g: Graph, src: nat, s: Distances, h: int)
    requires Shape(g, s)
  {
    forall w: Walk, k: nat | IsWalk(g, src, w, k) && |w| <= h && k < |g| :: Held(s, k, Fin(Length(g, w)))
  }

  // During a pass: covered by the row, and by the value alone once the vertex was absorbed.
  ghost predicate PassCover(g: Graph, src: nat, s: Distances, h: int, done: set<nat>)
    requires Shape(g, s)
  {
    forall w: Walk, k: nat | IsWalk(g, src, w, k) && |w| <= h && k < |g| ::
      && Held(s, k, Fin(Length(g, w)))
      && (k in done ==> Leq(s.v[k], Fin(Length(g, w))))
  }

  lemma PassCoverStep(g: Graph, src: nat, s: Distances, a: Act, h: int, done: set<nat>)
    requires Shape(g, s) && Enabled(g, s, a) && PassCover(g, src, s, h, done)
    ensures Shape(g, Apply(ShortestPath(), g, s, a))
    ensures PassCover(g, src, Apply(ShortestPath(), g, s, a), h, done + Absorbs(a))
  {
    var s' := Apply(ShortestPath(), g, s, a);
    ApplyShape(ShortestPath(), g, s, a);
    forall w: Walk, k: nat | IsWalk(g, src, w, k) && |w| <= h && k < |g|
      ensures Held(s', k, Fin(Length(g, w))) && (k in done + Absorbs(a) ==> Leq(s'.v[k], Fin(Length(g, w))))
    {
      HeldStep(g, s, a, k, Fin(Length(g, w)));
    }
  }

  // When a pass has absorbed every vertex and drained, the horizon has grown by one hop.
  lemma HorizonGrows(g: Graph, src: nat, s: Distances, h: nat)
    requires Shape(g, s) && EdgesOk(g, src, s) && Drained(s) && ValuesCover(g, src, s, h)
    ensures RowsCover(g, src, s, h + 1)
  {
    forall w: Walk, k: nat | IsWalk(g, src, w, k) && |w| <= h + 1 && k < |g| ensures Held(s, k, Fin(Length(g, w))) {
      if |w| == 0 {
        DrainedIsHeld(s, k, Fin(0.0));
      } else {
        var p := w[|w| - 1];
        assert IsHop(g, p, k) && IsWalk(g, src, w[..|w| - 1], p.from);
        assert Leq(s.v[p.from], Fin(Length(g, w[..|w| - 1])));
        assert EdgeOk(g, s, p.from, p.idx);
        DrainedIsHeld(s, k, Plus(s.v[p.from], g[p.from][p.idx].weight));
      }
    }
  }

  // With non-negative weights, walks of fewer than |V| hops decide the distance.
  lemma CoveredIsExact(g: Graph, src: nat, s: Distances, k: nat)
    requires Shape(g, s) && Grounded(g, src, s) && k < |g| && NonNegativeWeights(g)
    requires ValuesCover(g, src, s, |g| - 1)
    ensures IsDistance(g, src, k, s.v[k])
  {
    forall w | IsWalk(g, src, w, k) ensures Leq(s.v[k], Fin(Length(g, w))) {
      var u := ShortWalkSuffices(g, src, w, k);
      assert Leq(s.v[k], Fin(Length(g, u)));
    }
  }
}
