/**
 * run_iter on the state table, by a worker that nobody interrupts: the table operations
 * perform exactly the atomic absorb and deliver steps that the interleaved program refines.
 */
module RunIter {
  import opened Kernels
  import opened Buckets
  import opened Ledger
  import opened StateTable
  import opened Linear
  import Atomic

  // The table holds the vertices of g with these values, deltas and rows.
  ghost predicate Represents<V>(m: map<int, Record<V>>, g: Graph, s: Atomic.State<V>) {
    match s
    case State(v, d, _) =>
      && |v| == |g| == |d| && (forall k :: k in m <==> 0 <= k < |g|)
      && forall k | 0 <= k < |g| :: m[k].row.v == v[k] && m[k].row.delta == d[k] && m[k].v3 == g[k]
  }

  // One worker, with a buffer still to deliver.
  ghost predicate Single<V>(g: Graph, s: Atomic.State<V>) {
    Atomic.Shape(g, s) && |s.out| == 1
  }

  // All remaining messages delivered.
  ghost function Delivered<V>(K: Kernel<V>, g: Graph, s: Atomic.State<V>): Atomic.State<V>
    requires Single(g, s)
    decreases |s.out[0]|
  {
    if |s.out[0]| == 0 then s
    else
      Atomic.ApplyShape(K, g, s, Atomic.Deliver(0));
      Delivered(K, g, Atomic.Apply(K, g, s, Atomic.Deliver(0)))
  }

  ghost function Absorbed<V>(K: Kernel<V>, g: Graph, s: Atomic.State<V>, k: nat): (s': Atomic.State<V>)
    requires Single(g, s) && k < |g| && |s.out[0]| == 0
    ensures Single(g, s')
  {
    Atomic.ApplyShape(K, g, s, Atomic.Absorb(0, k));
    Atomic.Apply(K, g, s, Atomic.Absorb(0, k))
  }

  // What the three table operations between lock and unlock add up to.
  lemma AbsorbRepresents<V>(K: Kernel<V>, g: Graph, s: Atomic.State<V>, k: nat,
                            m: map<int, Record<V>>, m': map<int, Record<V>>)
    requires Single(g, s) && k < |g| && |s.out[0]| == 0 && Represents(m, g, s)
    requires m' == m[k := m[k].(row := UpdateF1(K, AccumulateF2(K, m[k].row, m[k].row.delta), K.default))]
    ensures Represents(m', g, Absorbed(K, g, s, k))
    ensures Absorbed(K, g, s, k).out[0] == Messages(K, m[k].v3, m[k].row.delta)
  {
  }

  lemma DeliverRepresents<V>(K: Kernel<V>, g: Graph, s: Atomic.State<V>,
                             m: map<int, Record<V>>, m': map<int, Record<V>>)
    requires Single(g, s) && |s.out[0]| > 0 && Represents(m, g, s)
    requires var x := s.out[0][0];
             && x.target in m
             && m' == m[x.target := m[x.target].(row := AccumulateF1(K, m[x.target].row, x.value))]
    ensures Atomic.Shape(g, Atomic.Apply(K, g, s, Atomic.Deliver(0)))
    ensures Represents(m', g, Atomic.Apply(K, g, s, Atomic.Deliver(0)))
  {
  }

  method AbsorbVertex<V>(table: StateTable<V>, k: nat, ghost g: Graph, ghost s: Atomic.State<V>)
    returns (output: seq<Msg<V>>)
    requires table.Valid() && Single(g, s) && k < |g| && |s.out[0]| == 0 && Represents(table.Contents(), g, s)
    modifies table.buckets
    ensures table.Valid() && Represents(table.Contents(), g, Absorbed(table.K, g, s, k))
    ensures output == Absorbed(table.K, g, s, k).out[0]
  {
    ghost var m := table.Contents();
    var v1 := table.GetF1(k);
    var ok := table.AccumulateF2(k, v1.value);
    var delta := table.GetF1(k);
    var v3 := table.GetF3(k);
    output := Messages(table.K, v3.value, delta.value);
    ok := table.UpdateF1(k, table.K.default);
    AbsorbRepresents(table.K, g, s, k, m, table.Contents());
  }

  // run_iter: afterwards the table is the atomic state after one absorb and all deliveries.
  method RunIter<V>(table: StateTable<V>, k: nat, ghost g: Graph, ghost s: Atomic.State<V>)
    requires table.Valid() && Single(g, s) && k < |g| && |s.out[0]| == 0 && Represents(table.Contents(), g, s)
    modifies table.buckets
    ensures table.Valid() && Represents(table.Contents(), g, Delivered(table.K, g, Absorbed(table.K, g, s, k)))
  {
    var output := AbsorbVertex(table, k, g, s);
    ghost var K := table.K;
    ghost var cur := Absorbed(K, g, s, k);
    var iter := 0;
    while iter < |output|
      invariant 0 <= iter <= |output| && table.Valid() && Single(g, cur)
      invariant cur.out[0] == output[iter..] && Represents(table.Contents(), g, cur)
      invariant Delivered(K, g, cur) == Delivered(K, g, Absorbed(K, g, s, k))
    {
      ghost var m := table.Contents();
      assert cur.out[0][0] == output[iter];
      var ok := table.AccumulateF1(output[iter].target, output[iter].value);
      DeliverRepresents(K, g, cur, m, table.Contents());
      cur := Atomic.Apply(K, g, cur, Atomic.Deliver(0));
      iter := iter + 1;
    }
  }

  // For a linear kernel the residual equation survives.
  lemma {:induction false} DeliveredResidual(coef: Coef, g: Graph, b: Vec, s: Atomic.State<real>)
    requires Single(g, s) && |b| == |g| && Residual(coef, g, b, s)
    ensures var s' := Delivered(LinearKernel(coef), g, s);
            Atomic.Shape(g, s') && Atomic.Drained(s') && Residual(coef, g, b, s')
    decreases |s.out[0]|
  {
    if |s.out[0]| > 0 {
      Atomic.ApplyShape(LinearKernel(coef), g, s, Atomic.Deliver(0));
      ResidualStep(coef, g, b, s, Atomic.Deliver(0));
      DeliveredResidual(coef, g, b, Atomic.Apply(LinearKernel(coef), g, s, Atomic.Deliver(0)));
    }
  }

  // Running a vertex from a drained, balanced state ends in one.
  lemma RunIterKeepsResidual(coef: Coef, g: Graph, b: Vec, s: Atomic.State<real>, k: nat)
    requires Single(g, s) && k < |g| && |s.out[0]| == 0 && |b| == |g| && Residual(coef, g, b, s)
    ensures var s' := Delivered(LinearKernel(coef), g, Absorbed(LinearKernel(coef), g, s, k));
            Atomic.Shape(g, s') && Atomic.Drained(s') && Residual(coef, g, b, s')
  {
    ResidualStep(coef, g, b, s, Atomic.Absorb(0, k));
    DeliveredResidual(coef, g, b, Absorbed(LinearKernel(coef), g, s, k));
  }
}
