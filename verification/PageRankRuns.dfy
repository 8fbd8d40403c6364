/**
 * PageRank: damping 0.8, initial delta 0.2 at every vertex.  Its budget of mass, and the
 * distance to the fixed point.
 */
module PageRankRuns {
  import opened Vectors
  import opened Kernels
  import opened Linear
  import opened Update
  import opened Convergence
  import opened PositiveRuns
  import Atomic

  // init_c.
  function Start(g: Graph): (b: Vec)
    ensures |b| == |g| && forall k | 0 <= k < |g| :: b[k] == 0.2
  {
    seq(|g|, j => 0.2)
  }

  ghost predicate PageRankRun(g: Graph, ss: seq<State<real>>, acts: seq<Act>) {
    LinearRun(PageRankCoef, g, Start(g), ss, acts)
  }

  ghost function Ranks(g: Graph, s: State<real>): Atomic.State<real>
    requires Shape(g, s)
  {
    View(PageRankCoef, g, s)
  }

  ghost predicate NoDangling(g: Graph) {
    forall k | 0 <= k < |g| :: |g[k]| > 0
  }

  // A vertex passes on 0.8 of what it absorbs, or nothing if it has no out-edge.
  lemma RowPassesOn(row: seq<Edge>)
    ensures RowWeight(PageRankCoef, row, 0) == if |row| == 0 then 0.0 else 0.8
  {
    if |row| > 0 {
      var q := 0.8 / |row| as real;
      assert q > 0.0;
      forall p | 0 <= p < |row| ensures Weights(PageRankCoef, row, 0)[p] == q {
        assert PageRankCoef(row, row[0 + p]) == q;
        assert Weights(PageRankCoef, row, 0)[p] == Abs(PageRankCoef(row, row[0 + p]));
      }
      TotalOfConstant(Weights(PageRankCoef, row, 0), q);
      assert q * |row| as real == 0.8;
    }
  }

  lemma PageRankContracts(g: Graph)
    ensures Contractive(PageRankCoef, g, 0.8)
  {
    forall k | 0 <= k < |g| ensures RowWeight(PageRankCoef, g[k], 0) <= 0.8 {
      RowPassesOn(g[k]);
    }
  }

  lemma PageRankIsPositive(g: Graph)
    ensures PositiveCoef(PageRankCoef, g) && PositiveVec(Start(g))
  {
    forall k, e | 0 <= k < |g| && 0 <= e < |g[k]| ensures PageRankCoef(g[k], g[k][e]) >= 0.0 {
      assert 0.8 / |g[k]| as real >= 0.0;
    }
  }

  // ---------- the budget ----------

  /**
   * A rank as it counts in the budget: five times at a dangling vertex, which passes on nothing
   * of what it absorbs, and once elsewhere.
   */
  function Credited(g: Graph, v: Vec): (w: Vec)
    requires |v| == |g|
    ensures |w| == |g| && forall k | 0 <= k < |g| :: w[k] == if |g[k]| == 0 then 5.0 * v[k] else v[k]
  {
    seq(|g|, k requires 0 <= k < |g| => if |g[k]| == 0 then 5.0 * v[k] else v[k])
  }

  // The part of a vector at dangling vertices.
  function AtDangling(g: Graph, v: Vec): (w: Vec)
    requires |v| == |g|
    ensures |w| == |g| && forall k | 0 <= k < |g| :: w[k] == if |g[k]| == 0 then v[k] else 0.0
  {
    seq(|g|, k requires 0 <= k < |g| => if |g[k]| == 0 then v[k] else 0.0)
  }

  lemma CreditedTotal(g: Graph, v: Vec)
    requires |v| == |g|
    ensures Total(Credited(g, v)) == Total(v) + 4.0 * Total(AtDangling(g, v))
    ensures NoDangling(g) ==> Total(Credited(g, v)) == Total(v) && Total(AtDangling(g, v)) == 0.0
  {
    TotalWithFourfold(Credited(g, v), v, AtDangling(g, v));
    if NoDangling(g) {
      TotalOfZeros(AtDangling(g, v));
    }
  }

  // 0.2 per vertex, spent as credited rank or still pending, on every graph to the last bit.
  ghost predicate Budget(g: Graph, s: Atomic.State<real>) {
    |s.v| == |g| && 0.2 * Total(Credited(g, s.v)) + Mass(s) == 0.2 * |g| as real
  }

  lemma BudgetAbsorb(g: Graph, s: Atomic.State<real>, t: nat, k: nat)
    requires Atomic.Shape(g, s) && Atomic.Enabled(g, s, Atomic.Absorb(t, k)) && NonNegative(s)
    ensures var s' := Atomic.Apply(LinearKernel(PageRankCoef), g, s, Atomic.Absorb(t, k));
            && |s'.v| == |g| && |s.v| == |g|
            && Total(Credited(g, s'.v)) == Total(Credited(g, s.v)) + (if |g[k]| == 0 then 5.0 else 1.0) * s.d[k]
            && Mass(s') == Mass(s) - s.d[k] + (if |g[k]| == 0 then 0.0 else 0.8 * s.d[k])
  {
    var K := LinearKernel(PageRankCoef);
    var s' := Atomic.Apply(K, g, s, Atomic.Absorb(t, k));
    assert K.accumulate(s.v[k], s.d[k]) == s.v[k] + s.d[k];
    assert s'.v == s.v[k := s.v[k] + s.d[k]] && s'.d == s.d[k := 0.0];
    assert Credited(g, s'.v) == Credited(g, s.v)[k := Credited(g, s'.v)[k]];
    TotalUpdate(Credited(g, s.v), k, Credited(g, s'.v)[k]);
    L1Update(s.d, k, 0.0);
    OutMassUpdate(s.out, t, Messages(K, g[k], s.d[k]));
    OutgoingMass(PageRankCoef, g[k], 0, s.d[k]);
    RowPassesOn(g[k]);
  }

  lemma BudgetDeliver(g: Graph, s: Atomic.State<real>, t: nat)
    requires Atomic.Shape(g, s) && Atomic.Enabled(g, s, Atomic.Deliver(t)) && NonNegative(s)
    ensures var s' := Atomic.Apply(LinearKernel(PageRankCoef), g, s, Atomic.Deliver(t));
            s'.v == s.v && Mass(s') == Mass(s)
  {
    var K := LinearKernel(PageRankCoef);
    var m := s.out[t][0];
    assert AllPositive(s.out[t]);
    assert K.accumulate(s.d[m.target], m.value) == s.d[m.target] + m.value;
    L1Update(s.d, m.target, s.d[m.target] + m.value);
    OutMassUpdate(s.out, t, s.out[t][1..]);
  }

  lemma BudgetStep(g: Graph, s: Atomic.State<real>, a: Atomic.Act)
    requires Atomic.Shape(g, s) && Atomic.Enabled(g, s, a) && NonNegative(s) && Budget(g, s)
    ensures Budget(g, Atomic.Apply(LinearKernel(PageRankCoef), g, s, a))
  {
    match a {
      case Absorb(t, k) => BudgetAbsorb(g, s, t, k);
      case Deliver(t) => BudgetDeliver(g, s, t);
    }
  }

  lemma BudgetAdvance(g: Graph, s: State<real>, a: Act, s': State<real>)
    requires Simulates(LinearKernel(PageRankCoef), g, s, a, s')
    requires NonNegative(Ranks(g, s)) && Budget(g, Ranks(g, s))
    ensures NonNegative(Ranks(g, s')) && Budget(g, Ranks(g, s'))
    ensures forall k | 0 <= k < |g| :: Ranks(g, s').v[k] >= Ranks(g, s).v[k]
  {
    if Effect(s, a).Some? {
      PageRankIsPositive(g);
      SignsStep(PageRankCoef, g, Ranks(g, s), Effect(s, a).value);
      BudgetStep(g, Ranks(g, s), Effect(s, a).value);
    }
  }

  lemma InitialBudget(g: Graph, s: State<real>)
    requires Initial(LinearKernel(PageRankCoef), g, s, seq(|g|, j => 0.0), Start(g))
    ensures Shape(g, s) && NonNegative(Ranks(g, s)) && Budget(g, Ranks(g, s))
    ensures Mass(Ranks(g, s)) == 0.2 * |g| as real
  {
    InitialInv(LinearKernel(PageRankCoef), g, s, seq(|g|, j => 0.0), Start(g));
    InitialResidual(PageRankCoef, g, Start(g), s);
    TotalOfConstant(Start(g), 0.2);
    L1OfNonNegative(Start(g));
    TotalOfZeros(Credited(g, Ranks(g, s).v));
  }

  // At every moment 0.2 times the credited rank plus the pending mass is exactly 0.2 * N.
  lemma {:induction false} BudgetAlways(g: Graph, ss: seq<State<real>>, acts: seq<Act>, i: nat)
    requires PageRankRun(g, ss, acts) && i <= |acts|
    ensures Shape(g, ss[i]) && NonNegative(Ranks(g, ss[i])) && Budget(g, Ranks(g, ss[i]))
  {
    if i == 0 {
      InitialBudget(g, ss[0]);
    } else {
      BudgetAlways(g, ss, acts, i - 1);
      BudgetAlongStep(g, ss, acts, i);
    }
  }

  lemma BudgetAlongStep(g: Graph, ss: seq<State<real>>, acts: seq<Act>, i: nat)
    requires PageRankRun(g, ss, acts) && 0 < i <= |acts|
    requires Shape(g, ss[i - 1]) && NonNegative(Ranks(g, ss[i - 1])) && Budget(g, Ranks(g, ss[i - 1]))
    ensures Shape(g, ss[i]) && NonNegative(Ranks(g, ss[i])) && Budget(g, Ranks(g, ss[i]))
    ensures forall k | 0 <= k < |g| :: Ranks(g, ss[i]).v[k] >= Ranks(g, ss[i - 1]).v[k]
  {
    LinearRunStep(PageRankCoef, g, Start(g), ss, acts, i);
    BudgetAdvance(g, ss[i - 1], acts[i - 1], ss[i]);
  }

  // A stored rank never decreases.
  lemma RanksGrow(g: Graph, ss: seq<State<real>>, acts: seq<Act>, i: nat, j: nat, k: nat)
    requires PageRankRun(g, ss, acts) && i <= j <= |acts| && k < |g|
    ensures Shape(g, ss[i]) && Shape(g, ss[j]) && ss[i].table[k].v <= ss[j].table[k].v
  {
    PageRankIsPositive(g);
    ValuesGrow(PageRankCoef, g, Start(g), ss, acts, i, j, k);
  }

  // In terms of the ranks themselves: 0.2 * sum(v), and 0.8 times what has settled at dangling
  // vertices, and what is pending.
  lemma BudgetOfRanks(g: Graph, ss: seq<State<real>>, acts: seq<Act>, i: nat)
    requires PageRankRun(g, ss, acts) && i <= |acts|
    ensures Shape(g, ss[i])
    ensures var s := Ranks(g, ss[i]);
            0.2 * Total(s.v) + 0.8 * Total(AtDangling(g, s.v)) + Mass(s) == 0.2 * |g| as real
  {
    BudgetAlways(g, ss, acts, i);
    CreditedTotal(g, Ranks(g, ss[i]).v);
  }

  lemma TotalRankBounded(g: Graph, ss: seq<State<real>>, acts: seq<Act>, i: nat)
    requires PageRankRun(g, ss, acts) && i <= |acts|
    ensures Shape(g, ss[i]) && Total(Ranks(g, ss[i]).v) <= |g| as real
  {
    BudgetAlways(g, ss, acts, i);
    L1NonNegative(Ranks(g, ss[i]).d);
    TotalMonotone(Ranks(g, ss[i]).v, Credited(g, Ranks(g, ss[i]).v));
  }

  // ---------- the fixed point ----------

  // Any exact solution of x_j = 0.2 + sum over edges i->j of 0.8 * x_i / out-degree(i).
  ghost predicate IsPageRank(g: Graph, x: Vec) {
    Solves(PageRankCoef, g, Start(g), x)
  }

  // The computed ranks approach the solution from below: no schedule ever overshoots.
  lemma NeverOvershoots(g: Graph, ss: seq<State<real>>, acts: seq<Act>, i: nat, x: Vec)
    requires PageRankRun(g, ss, acts) && i <= |acts| && IsPageRank(g, x)
    ensures Shape(g, ss[i]) && forall j | 0 <= j < |g| :: ss[i].table[j].v <= x[j]
  {
    PageRankIsPositive(g);
    PageRankContracts(g);
    ErrorIsMissingTotal(PageRankCoef, g, Start(g), ss, acts, i, x, 0.8);
  }

  // ---------- the exact error ----------

  lemma {:induction false} CarriedTotal(ms: seq<Msg<real>>, n: nat)
    requires Targets(ms, n) && AllPositive(ms)
    ensures Total(CarriedVec(ms, n)) == MsgMass(ms)
  {
    if |ms| == 0 {
      TotalOfZeros(CarriedVec(ms, n));
    } else {
      var rest := CarriedVec(ms[1..], n);
      CarriedTotal(ms[1..], n);
      var k, y := ms[0].target, ms[0].value;
      assert CarriedVec(ms, n) == rest[k := y + rest[k]];
      TotalUpdate(rest, k, y + rest[k]);
    }
  }

  lemma CreditedHead(g: Graph, x: Vec)
    requires |x| == |g| > 0
    ensures Total(Credited(g, x)) == (if |g[0]| == 0 then 5.0 else 1.0) * x[0] + Total(Credited(g[1..], x[1..]))
  {
    assert Credited(g, x)[1..] == Credited(g[1..], x[1..]);
  }

  // The matrix loses 0.2 of the credited total.
  lemma {:induction false} IncomingTotal(g: Graph, x: Vec, n: nat)
    requires |x| == |g| && Within(g, n) && PositiveVec(x)
    ensures Total(IncomingVec(PageRankCoef, g, x, n)) == Total(x) - 0.2 * Total(Credited(g, x))
  {
    if |g| == 0 {
      TotalOfZeros(IncomingVec(PageRankCoef, g, x, n));
    } else {
      var ms := Messages(LinearKernel(PageRankCoef), g[0], x[0]);
      OutgoingShape(LinearKernel(PageRankCoef), g[0], 0, x[0]);
      PageRankIsPositive(g);
      MessagesPositive(PageRankCoef, g, 0, x[0]);
      CarriedTotal(ms, n);
      OutgoingMass(PageRankCoef, g[0], 0, x[0]);
      RowPassesOn(g[0]);
      CreditedHead(g, x);
      IncomingTotal(g[1..], x[1..], n);
      forall j: nat | j < n
        ensures IncomingVec(PageRankCoef, g, x, n)[j]
                == CarriedVec(ms, n)[j] + IncomingVec(PageRankCoef, g[1..], x[1..], n)[j]
      {
        OutgoingIsFlow(PageRankCoef, g[0], 0, x[0], j);
      }
      TotalSum(IncomingVec(PageRankCoef, g, x, n), CarriedVec(ms, n), IncomingVec(PageRankCoef, g[1..], x[1..], n));
    }
  }

  lemma SolutionTotal(g: Graph, x: Vec)
    requires Closed(g) && IsPageRank(g, x) && PositiveVec(x)
    ensures Total(Credited(g, x)) == |g| as real
  {
    assert Within(g, |g|);
    IncomingTotal(g, x, |g|);
    TotalSum(x, Start(g), IncomingVec(PageRankCoef, g, x, |g|));
    TotalOfConstant(Start(g), 0.2);
  }

  // The distance to the solution is at most five times the pending mass ...
  lemma DistanceBound(g: Graph, ss: seq<State<real>>, acts: seq<Act>, i: nat, x: Vec)
    requires PageRankRun(g, ss, acts) && i <= |acts| && IsPageRank(g, x)
    ensures Shape(g, ss[i])
    ensures L1(Difference(x, Ranks(g, ss[i]).v)) <= 5.0 * Mass(Ranks(g, ss[i]))
  {
    PageRankContracts(g);
    DistanceToSolution(PageRankCoef, g, Start(g), ss, acts, i, x, 0.8);
  }

  // ... and exactly: distances at dangling vertices counted five times add up to five times the
  // pending mass.
  lemma DistanceIsPendingMass(g: Graph, ss: seq<State<real>>, acts: seq<Act>, i: nat, x: Vec)
    requires PageRankRun(g, ss, acts) && i <= |acts| && IsPageRank(g, x)
    ensures Shape(g, ss[i])
    ensures var s := Ranks(g, ss[i]);
            && L1(Difference(x, s.v)) + 4.0 * L1(AtDangling(g, Difference(x, s.v))) == 5.0 * Mass(s)
            && Mass(s) <= L1(Difference(x, s.v))
            && (NoDangling(g) ==> L1(Difference(x, s.v)) == 5.0 * Mass(s))
  {
    BudgetAlways(g, ss, acts, i);
    NeverOvershoots(g, ss, acts, i, x);
    RunShape(PageRankCoef, g, Start(g), ss, acts, i);
    ExactDistance(g, Ranks(g, ss[i]), x);
  }

  lemma ExactDistance(g: Graph, s: Atomic.State<real>, x: Vec)
    requires Atomic.Shape(g, s) && NonNegative(s) && Budget(g, s) && IsPageRank(g, x)
    requires forall j | 0 <= j < |g| :: s.v[j] <= x[j]
    ensures var e := Difference(x, s.v);
            && L1(e) + 4.0 * L1(AtDangling(g, e)) == 5.0 * Mass(s) == |g| as real - Total(Credited(g, s.v))
            && Mass(s) <= L1(e)
            && (NoDangling(g) ==> L1(e) == 5.0 * Mass(s))
  {
    var e := Difference(x, s.v);
    SolutionTotal(g, x);
    CreditedTotal(g, e);
    TotalSum(Credited(g, x), Credited(g, e), Credited(g, s.v));
    L1OfNonNegative(e);
    L1OfNonNegative(AtDangling(g, e));
    TotalMonotone(AtDangling(g, e), e);
  }
}
