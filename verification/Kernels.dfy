/**
 * The user-supplied part of a computation: the adjacency row of a vertex, the row of the
 * state table it lives in, and the operations of IterateKernel.  The four shipped
 * algorithms are values of Kernel; their g_func loops are methods proved against Outgoing.
 */
module Kernels {

  // One entry of the adjacency list; PageRank and Katz ignore the weight.
  datatype Edge = Edge(target: nat, weight: real)

  type Graph = seq<seq<Edge>>

  // Every target has a line of its own: accumulateF1 on a missing key is fatal.
  ghost predicate Closed(g: Graph) {
    forall i, e | 0 <= i < |g| && 0 <= e < |g[i]| :: g[i][e].target < |g|
  }

  datatype Msg<V> = Msg(target: nat, value: V)

  // v2, v1 and the cached priority of one bucket.
  datatype Row<V> = Row(v: V, delta: V, pri: V)

  /**
   * message(row, e, delta) is what g_func sends along edge e of the row; lowest is the
   * literal 0 that updateF1 stores as priority.
   */
  datatype Kernel<!V> = Kernel(
    accumulate: (V, V) -> V,
    priority: (V, V) -> V,
    message: (seq<Edge>, Edge, V) -> V,
    default: V,
    lowest: V)

  // The row operations of the state table.

  function AccumulateF2<V>(K: Kernel<V>, r: Row<V>, x: V): Row<V> {
    r.(v := K.accumulate(r.v, x))
  }

  function UpdateF1<V>(K: Kernel<V>, r: Row<V>, x: V): Row<V> {
    r.(delta := x, pri := K.lowest)
  }

  function AccumulateF1<V>(K: Kernel<V>, r: Row<V>, x: V): Row<V> {
    var d := K.accumulate(r.delta, x);
    Row(r.v, d, K.priority(r.v, d))
  }

  function PutRow<V>(K: Kernel<V>, v1: V, v2: V): Row<V> {
    Row(v2, v1, K.priority(v2, v1))
  }

  // The cached priority is computed from v2 and v1 by put and accumulateF1, replaced by the
  // literal by updateF1, and left alone by accumulateF2.
  lemma RowOperations<V>(K: Kernel<V>, r: Row<V>, x: V, y: V)
    ensures AccumulateF2(K, r, x) == Row(K.accumulate(r.v, x), r.delta, r.pri)
    ensures UpdateF1(K, r, x) == Row(r.v, x, K.lowest)
    ensures AccumulateF1(K, r, x).v == r.v && AccumulateF1(K, r, x).delta == K.accumulate(r.delta, x)
    ensures AccumulateF1(K, r, x) == PutRow(K, AccumulateF1(K, r, x).delta, r.v)
    ensures PutRow(K, x, y) == Row(y, x, K.priority(y, x))
  {
  }

  // Resetting a delta to the default makes the priority recomputed from scratch the
  // literal that updateF1 stores without computing it.
  ghost predicate QuietPriority<V(!new)>(K: Kernel<V>) {
    forall v :: K.priority(v, K.default) == K.lowest
  }

  // The messages for edges i, i+1, ... of a row.
  function Outgoing<V>(K: Kernel<V>, row: seq<Edge>, i: nat, delta: V): (ms: seq<Msg<V>>)
    requires i <= |row|
    decreases |row| - i
  {
    if i == |row| then [] else [Msg(row[i].target, K.message(row, row[i], delta))] + Outgoing(K, row, i + 1, delta)
  }

  function Messages<V>(K: Kernel<V>, row: seq<Edge>, delta: V): seq<Msg<V>> {
    Outgoing(K, row, 0, delta)
  }

  ghost predicate Targets<V>(ms: seq<Msg<V>>, n: nat) {
    forall i | 0 <= i < |ms| :: ms[i].target < n
  }

  lemma {:induction false} OutgoingShape<V>(K: Kernel<V>, row: seq<Edge>, i: nat, delta: V)
    requires i <= |row|
    ensures |Outgoing(K, row, i, delta)| == |row| - i
    ensures forall p | 0 <= p < |row| - i ::
              Outgoing(K, row, i, delta)[p] == Msg(row[i + p].target, K.message(row, row[i + p], delta))
    decreases |row| - i
  {
    if i < |row| {
      OutgoingShape(K, row, i + 1, delta);
    }
  }

  lemma MessagesTargets<V>(K: Kernel<V>, g: Graph, k: nat, delta: V)
    requires Closed(g) && k < |g|
    ensures Targets(Messages(K, g[k], delta), |g|)
  {
    OutgoingShape(K, g[k], 0, delta);
  }

  // A buffer to which one message per edge has been appended, in order.
  lemma AppendedMessages<V>(K: Kernel<V>, row: seq<Edge>, delta: V, output0: seq<Msg<V>>, output: seq<Msg<V>>)
    requires |output| == |output0| + |row| && output[..|output0|] == output0
    requires forall p | 0 <= p < |row| ::
               output[|output0| + p] == Msg(row[p].target, K.message(row, row[p], delta))
    ensures output == output0 + Messages(K, row, delta)
  {
    OutgoingShape(K, row, 0, delta);
    var ms := Messages(K, row, delta);
    forall q | 0 <= q < |output| ensures output[q] == (output0 + ms)[q] {
      if q < |output0| {
        assert output[q] == output[..|output0|][q];
      } else {
        var p := q - |output0|;
        assert ms[p] == Msg(row[0 + p].target, K.message(row, row[0 + p], delta));
        assert output[|output0| + p] == ms[p];
      }
    }
  }

  // ---------- linear kernels: PageRank, Katz, Adsorption ----------

  function LinearKernel(coef: (seq<Edge>, Edge) -> real): Kernel<real> {
    Kernel((a, b) => a + b, (v, d) => d, (row, e, d) => coef(row, e) * d, 0.0, 0.0)
  }

  // The quotient 0.8 / size is only used when the row has an edge.
  function PageRankCoef(row: seq<Edge>, e: Edge): real {
    if |row| == 0 then 0.0 else 0.8 / |row| as real
  }

  function PageRank(): Kernel<real> {
    LinearKernel(PageRankCoef)
  }

  function KatzCoef(beta: real): (seq<Edge>, Edge) -> real {
    (row, e) => beta
  }

  function Katz(beta: real): Kernel<real> {
    LinearKernel(KatzCoef(beta))
  }

  function AdsorptionCoef(damping: real): (seq<Edge>, Edge) -> real {
    (row, e: Edge) => damping * e.weight
  }

  function Adsorption(damping: real): Kernel<real> {
    LinearKernel(AdsorptionCoef(damping))
  }

  method PageRankGFunc(row: seq<Edge>, delta: real, output0: seq<Msg<real>>) returns (output: seq<Msg<real>>)
    ensures output == output0 + Messages(PageRank(), row, delta)
    ensures |output| == |output0| + |row| && output[..|output0|] == output0
    ensures forall p | 0 <= p < |row| :: output[|output0| + p] == Msg(row[p].target, delta * 0.8 / |row| as real)
  {
    output := output0;
    var size := |row|;
    if size == 0 {
      return;
    }
    var outv := delta * 0.8 / size as real;
    QuotientCommutes(delta, size as real);
    var i := 0;
    while i < |row|
      invariant 0 <= i <= |row|
      invariant |output| == |output0| + i && output[..|output0|] == output0
      invariant forall p | 0 <= p < i :: output[|output0| + p] == Msg(row[p].target, outv)
    {
      output := output + [Msg(row[i].target, outv)];
      i := i + 1;
    }
    forall p | 0 <= p < |row| ensures PageRank().message(row, row[p], delta) == outv {
      assert PageRank().message(row, row[p], delta) == PageRankCoef(row, row[p]) * delta;
    }
    AppendedMessages(PageRank(), row, delta, output0, output);
  }

  lemma QuotientCommutes(delta: real, size: real)
    requires size > 0.0
    ensures delta * 0.8 / size == (0.8 / size) * delta
  {
  }

  method KatzGFunc(beta: real, row: seq<Edge>, delta: real, output0: seq<Msg<real>>) returns (output: seq<Msg<real>>)
    ensures output == output0 + Messages(Katz(beta), row, delta)
    ensures |output| == |output0| + |row| && output[..|output0|] == output0
    ensures forall p | 0 <= p < |row| :: output[|output0| + p] == Msg(row[p].target, beta * delta)
  {
    output := output0;
    var outv := beta * delta;
    var i := 0;
    while i < |row|
      invariant 0 <= i <= |row|
      invariant |output| == |output0| + i && output[..|output0|] == output0
      invariant forall p | 0 <= p < i :: output[|output0| + p] == Msg(row[p].target, outv)
    {
      output := output + [Msg(row[i].target, outv)];
      i := i + 1;
    }
    forall p | 0 <= p < |row| ensures Katz(beta).message(row, row[p], delta) == outv {
      assert Katz(beta).message(row, row[p], delta) == KatzCoef(beta)(row, row[p]) * delta;
    }
    AppendedMessages(Katz(beta), row, delta, output0, output);
  }

  method AdsorptionGFunc(damping: real, row: seq<Edge>, delta: real, output0: seq<Msg<real>>)
    returns (output: seq<Msg<real>>)
    ensures output == output0 + Messages(Adsorption(damping), row, delta)
    ensures |output| == |output0| + |row| && output[..|output0|] == output0
    ensures forall p | 0 <= p < |row| ::
              output[|output0| + p].target == row[p].target
              && output[|output0| + p].value == delta * damping * row[p].weight
  {
    output := output0;
    ghost var shares := seq(|row|, p requires 0 <= p < |row| => delta * damping * row[p].weight);
    var i := 0;
    while i < |row|
      invariant 0 <= i <= |row|
      invariant |output| == |output0| + i && output[..|output0|] == output0
      invariant forall p | 0 <= p < i :: output[|output0| + p] == Msg(row[p].target, shares[p])
    {
      var outv := delta * damping * row[i].weight;
      assert outv == shares[i];
      output := output + [Msg(row[i].target, outv)];
      i := i + 1;
    }
    forall p | 0 <= p < |row| ensures Adsorption(damping).message(row, row[p], delta) == shares[p] {
      assert Adsorption(damping).message(row, row[p], delta) == AdsorptionCoef(damping)(row, row[p]) * delta;
    }
    AppendedMessages(Adsorption(damping), row, delta, output0, output);
    forall p | 0 <= p < |row| ensures output[|output0| + p].value == delta * damping * row[p].weight {
      assert output[|output0| + p].value == shares[p];
    }
  }

  // ---------- the min-plus kernel: shortest path ----------

  // Top is imax: adding a weight leaves it alone, and it is above every finite value.
  datatype Dist = Fin(r: real) | Top

  predicate Leq(a: Dist, b: Dist) {
    b.Top? || (a.Fin? && a.r <= b.r)
  }

  function Min(a: Dist, b: Dist): (m: Dist)
    ensures Leq(m, a) && Leq(m, b) && (m == a || m == b)
  {
    if Leq(a, b) then a else b
  }

  function Plus(a: Dist, w: real): Dist {
    if a.Top? then Top else Fin(a.r + w)
  }

  // imax - imax is 0, and imax minus a finite value is as large as anything gets.
  function Minus(a: Dist, b: Dist): Dist {
    if a.Fin? && b.Fin? then Fin(a.r - b.r)
    else if a.Top? && b.Fin? then Top
    else Fin(0.0)
  }

  function ShortestPath(): Kernel<Dist> {
    Kernel((a, b) => Min(a, b), (v, d) => Minus(v, Min(v, d)), (row, e: Edge, d) => Plus(d, e.weight), Top, Fin(0.0))
  }

  method ShortestPathGFunc(row: seq<Edge>, delta: Dist, output0: seq<Msg<Dist>>) returns (output: seq<Msg<Dist>>)
    ensures output == output0 + Messages(ShortestPath(), row, delta)
    ensures |output| == |output0| + |row| && output[..|output0|] == output0
    ensures forall p | 0 <= p < |row| ::
              output[|output0| + p] == Msg(row[p].target, if delta.Top? then Top else Fin(delta.r + row[p].weight))
  {
    output := output0;
    var i := 0;
    while i < |row|
      invariant 0 <= i <= |row|
      invariant |output| == |output0| + i && output[..|output0|] == output0
      invariant forall p | 0 <= p < i :: output[|output0| + p] == Msg(row[p].target, Plus(delta, row[p].weight))
    {
      var outv := Plus(delta, row[i].weight);
      output := output + [Msg(row[i].target, outv)];
      i := i + 1;
    }
    AppendedMessages(ShortestPath(), row, delta, output0, output);
  }

  // accumulate is the minimum, with imax above everything.
  lemma AccumulateIsMinimum(a: real, b: real, d: Dist)
    ensures ShortestPath().accumulate(Fin(a), Fin(b)) == Fin(if a <= b then a else b)
    ensures ShortestPath().accumulate(Top, d) == d == ShortestPath().accumulate(d, Top)
    ensures Leq(Fin(a), Fin(b)) <==> a <= b
    ensures Leq(d, Top) && (Leq(Top, d) <==> d == Top)
  {
  }

  // The priority is what the delta would take off the value, and never below the literal 0.
  lemma PriorityIsGain(v: Dist, d: Dist)
    ensures v.Fin? && d.Fin? ==>
              ShortestPath().priority(v, d) == if d.r <= v.r then Fin(v.r - d.r) else Fin(0.0)
    ensures v.Top? && d.Fin? ==> ShortestPath().priority(v, d) == Top
    ensures d.Top? ==> ShortestPath().priority(v, d) == Fin(0.0)
    ensures ShortestPath().lowest == Fin(0.0) && Leq(ShortestPath().lowest, ShortestPath().priority(v, d))
  {
  }

  // Of two vertices with the same value the one with the smaller delta is never behind.
  lemma SmallerDeltaComesFirst(v: Dist, d: Dist, e: Dist)
    requires Leq(d, e)
    ensures Leq(ShortestPath().priority(v, e), ShortestPath().priority(v, d))
  {
    PriorityIsGain(v, d);
    PriorityIsGain(v, e);
  }

  // The sums of the linear kernels: accumulate adds, the priority is the delta, whatever the
  // value, and resetting to 0 is neutral.
  lemma LinearPriorityIsDelta(coef: (seq<Edge>, Edge) -> real, v: real, d: real)
    ensures var K := LinearKernel(coef);
            K.priority(v, d) == d && K.accumulate(v, d) == v + d && K.default == 0.0 && K.lowest == 0.0
  {
    var K := LinearKernel(coef);
    assert K.priority(v, d) == d && K.accumulate(v, d) == v + d;
  }

  // A stored priority of 0 says exactly that the pending delta cannot improve the value.
  lemma ZeroPriorityMeansSettled(v: Dist, d: Dist)
    ensures ShortestPath().priority(v, d) == ShortestPath().lowest <==> Leq(v, d)
  {
  }

  lemma AllKernelsAreQuiet(coef: (seq<Edge>, Edge) -> real)
    ensures QuietPriority(LinearKernel(coef)) && QuietPriority(ShortestPath())
  {
  }
}
