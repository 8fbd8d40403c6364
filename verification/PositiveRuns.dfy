/**
 * Linear kernels with non-negative coefficients and start: values only grow, no schedule
 * overshoots the solution, and the error is a difference of totals.
 */
module PositiveRuns {
  import opened Vectors
  import opened Kernels
  import opened Linear
  import opened Update
  import opened Convergence
  import Atomic

  ghost predicate PositiveCoef(coef: Coef, g: Graph) {
    forall k, e | 0 <= k < |g| && 0 <= e < |g[k]| :: coef(g[k], g[k][e]) >= 0.0
  }

  ghost predicate PositiveVec(b: Vec) {
    forall j | 0 <= j < |b| :: b[j] >= 0.0
  }

  ghost predicate PositiveRun(coef: Coef, g: Graph, b: Vec, ss: seq<State<real>>, acts: seq<Act>) {
    PositiveCoef(coef, g) && PositiveVec(b) && LinearRun(coef, g, b, ss, acts)
  }

  // ---------- signs ----------

  ghost predicate AllPositive(ms: seq<Msg<real>>) {
    forall i | 0 <= i < |ms| :: ms[i].value >= 0.0
  }

  ghost predicate NonNegative(s: Atomic.State<real>) {
    && PositiveVec(s.d) && PositiveVec(s.v)
    && (forall t | 0 <= t < |s.out| :: AllPositive(s.out[t]))
  }

  lemma MessagesPositive(coef: Coef, g: Graph, k: nat, x: real)
    requires PositiveCoef(coef, g) && k < |g| && x >= 0.0
    ensures AllPositive(Messages(LinearKernel(coef), g[k], x))
  {
    var K := LinearKernel(coef);
    OutgoingShape(K, g[k], 0, x);
    forall p | 0 <= p < |g[k]| ensures K.message(g[k], g[k][p], x) >= 0.0 {
      assert K.message(g[k], g[k][p], x) == coef(g[k], g[k][p]) * x;
      assert coef(g[k], g[k][p]) * x >= 0.0;
    }
  }

  lemma SignsStep(coef: Coef, g: Graph, s: Atomic.State<real>, a: Atomic.Act)
    requires PositiveCoef(coef, g) && Atomic.Shape(g, s) && Atomic.Enabled(g, s, a) && NonNegative(s)
    ensures var s' := Atomic.Apply(LinearKernel(coef), g, s, a);
            NonNegative(s') && forall k | 0 <= k < |g| :: s'.v[k] >= s.v[k]
  {
    var K := LinearKernel(coef);
    match a {
      case Absorb(t, k) =>
        MessagesPositive(coef, g, k, s.d[k]);
        assert K.accumulate(s.v[k], s.d[k]) == s.v[k] + s.d[k];
      case Deliver(t) =>
        var m := s.out[t][0];
        assert AllPositive(s.out[t]) && AllPositive(s.out[t][1..]);
        assert K.accumulate(s.d[m.target], m.value) == s.d[m.target] + m.value;
    }
  }

  // Well formed, and without a negative number anywhere.
  // One conjunction under a match, so that it stays one fact where it is proved.
  ghost predicate Positive(coef: Coef, g: Graph, s: State<real>) {
    match s
    case State(_, _, _) => Shape(g, s) && NonNegative(View(coef, g, s))
  }

  lemma SignsAdvance(coef: Coef, g: Graph, s: State<real>, a: Act, s': State<real>)
    requires PositiveCoef(coef, g) && Simulates(LinearKernel(coef), g, s, a, s') && NonNegative(View(coef, g, s))
    ensures Positive(coef, g, s')
    ensures forall k | 0 <= k < |g| :: View(coef, g, s').v[k] >= View(coef, g, s).v[k]
  {
    if Effect(s, a).Some? {
      SignsStep(coef, g, View(coef, g, s), Effect(s, a).value);
    }
  }

  lemma SignsAlongStep(coef: Coef, g: Graph, b: Vec, ss: seq<State<real>>, acts: seq<Act>, i: nat)
    requires PositiveRun(coef, g, b, ss, acts) && 0 < i <= |acts| && Positive(coef, g, ss[i - 1])
    ensures Positive(coef, g, ss[i])
    ensures forall k | 0 <= k < |g| :: ss[i - 1].table[k].v <= ss[i].table[k].v
  {
    LinearRunStep(coef, g, b, ss, acts, i);
    SignsAdvance(coef, g, ss[i - 1], acts[i - 1], ss[i]);
    forall k | 0 <= k < |g| ensures ss[i - 1].table[k].v <= ss[i].table[k].v {
      assert View(coef, g, ss[i]).v[k] >= View(coef, g, ss[i - 1]).v[k];
    }
  }

  // No value, delta or message is ever negative.
  lemma {:induction false} SignsAlways(coef: Coef, g: Graph, b: Vec, ss: seq<State<real>>, acts: seq<Act>, i: nat)
    requires PositiveRun(coef, g, b, ss, acts) && i <= |acts|
    ensures Positive(coef, g, ss[i])
  {
    if i == 0 {
      InitialInv(LinearKernel(coef), g, ss[0], seq(|g|, j => 0.0), b);
    } else {
      SignsAlways(coef, g, b, ss, acts, i - 1);
      SignsAlongStep(coef, g, b, ss, acts, i);
      assert Positive(coef, g, ss[i]);
    }
  }

  // A stored value never decreases, so an unlocked reader sees an underestimate of any
  // later state.
  lemma {:induction false} ValuesGrow(coef: Coef, g: Graph, b: Vec, ss: seq<State<real>>, acts: seq<Act>,
                                      i: nat, j: nat, k: nat)
    requires PositiveRun(coef, g, b, ss, acts) && i <= j <= |acts| && k < |g|
    ensures Shape(g, ss[i]) && Shape(g, ss[j]) && ss[i].table[k].v <= ss[j].table[k].v
  {
    if i == j {
      RunShape(coef, g, b, ss, acts, i);
    } else {
      ValuesGrow(coef, g, b, ss, acts, i, j - 1, k);
      SignsAlways(coef, g, b, ss, acts, j - 1);
      SignsAlongStep(coef, g, b, ss, acts, j);
      RunShape(coef, g, b, ss, acts, j);
    }
  }

  // ---------- below the solution ----------

  lemma {:induction false} FlowMonotone(coef: Coef, row: seq<Edge>, i: nat, x: real, y: real, j: nat)
    requires i <= |row| && x <= y && forall e | 0 <= e < |row| :: coef(row, row[e]) >= 0.0
    ensures Flow(coef, row, i, x, j) <= Flow(coef, row, i, y, j)
    decreases |row| - i
  {
    if i < |row| {
      FlowMonotone(coef, row, i + 1, x, y, j);
      assert coef(row, row[i]) * (y - x) >= 0.0;
    }
  }

  lemma {:induction false} IncomingMonotone(coef: Coef, g: Graph, x: Vec, y: Vec, j: nat)
    requires PositiveCoef(coef, g) && |x| == |y| == |g| && forall i | 0 <= i < |g| :: x[i] <= y[i]
    ensures Incoming(coef, g, x, j) <= Incoming(coef, g, y, j)
  {
    if |g| > 0 {
      assert forall e | 0 <= e < |g[0]| :: coef(g[0], g[0][e]) >= 0.0;
      FlowMonotone(coef, g[0], 0, x[0], y[0], j);
      IncomingMonotone(coef, g[1..], x[1..], y[1..], j);
    }
  }

  lemma FractionOfItself(c: real, x: real)
    requires c < 1.0 && 0.0 <= x <= Scaled(c, x)
    ensures x == 0.0
  {
    assert Scaled(1.0 - c, x) == x - Scaled(c, x);
    NothingLeft(1.0 - c, x);
  }

  // A vector below its own image under a contractive matrix is not positive anywhere.
  lemma SubInvariantIsZero(coef: Coef, g: Graph, n: Vec, c: real)
    requires Closed(g) && |n| == |g| && PositiveVec(n) && Contractive(coef, g, c) && c < 1.0
    requires forall j | 0 <= j < |g| :: n[j] <= Incoming(coef, g, n, j)
    ensures forall j | 0 <= j < |n| :: n[j] == 0.0
  {
    var flow := IncomingVec(coef, g, n, |g|);
    assert Within(g, |g|);
    IncomingNorm(coef, g, n, |g|, c);
    L1OfNonNegative(n);
    L1OfNonNegative(flow);
    TotalMonotone(n, flow);
    L1NonNegative(n);
    FractionOfItself(c, L1(n));
    forall j | 0 <= j < |n| ensures n[j] == 0.0 {
      L1Coordinate(n, j);
    }
  }

  lemma {:induction false} CarriedPositive(ms: seq<Msg<real>>, j: nat)
    requires AllPositive(ms)
    ensures Carried(ms, j) >= 0.0
  {
    if |ms| > 0 {
      CarriedPositive(ms[1..], j);
    }
  }

  lemma {:induction false} InFlightPositive(out: Buffers, j: nat)
    requires forall t | 0 <= t < |out| :: AllPositive(out[t])
    ensures Linear.InFlight(out, j) >= 0.0
  {
    if |out| > 0 {
      CarriedPositive(out[0], j);
      InFlightPositive(out[1..], j);
    }
  }

  lemma BelowSolution(coef: Coef, g: Graph, b: Vec, s: Atomic.State<real>, x: Vec, c: real)
    requires PositiveCoef(coef, g) && Contractive(coef, g, c) && c < 1.0
    requires Atomic.Shape(g, s) && NonNegative(s) && |b| == |g| && Residual(coef, g, b, s) && Solves(coef, g, b, x)
    ensures forall j | 0 <= j < |g| :: s.v[j] <= x[j]
  {
    var e := Difference(x, s.v);
    var shortfall := seq(|g|, j requires 0 <= j < |g| => if e[j] < 0.0 then -e[j] else 0.0);
    var lower := seq(|g|, j requires 0 <= j < |g| => -shortfall[j]);
    var zero := seq(|g|, j => 0.0);
    forall j | 0 <= j < |g| ensures shortfall[j] <= Incoming(coef, g, shortfall, j) {
      assert s.v[j] + s.d[j] + Linear.InFlight(s.out, j) == b[j] + Incoming(coef, g, s.v, j);
      assert x[j] == b[j] + Incoming(coef, g, x, j);
      InFlightPositive(s.out, j);
      IncomingDifference(coef, g, e, x, s.v, j);
      IncomingMonotone(coef, g, lower, e, j);
      IncomingDifference(coef, g, lower, zero, shortfall, j);
      IncomingOfZero(coef, g, zero, j);
      IncomingMonotone(coef, g, zero, shortfall, j);
    }
    SubInvariantIsZero(coef, g, shortfall, c);
    forall j | 0 <= j < |g| ensures s.v[j] <= x[j] {
      assert shortfall[j] == 0.0;
    }
  }

  lemma ErrorIsShortfall(s: Atomic.State<real>, x: Vec)
    requires |x| == |s.v| && forall j | 0 <= j < |x| :: s.v[j] <= x[j]
    ensures L1(Difference(x, s.v)) == Total(x) - Total(s.v)
  {
    TotalSum(x, Difference(x, s.v), s.v);
    L1OfNonNegative(Difference(x, s.v));
  }

  // Values approach any exact solution from below, so the error is exactly what is missing
  // from the total.
  lemma ErrorIsMissingTotal(coef: Coef, g: Graph, b: Vec, ss: seq<State<real>>, acts: seq<Act>, i: nat, x: Vec, c: real)
    requires PositiveRun(coef, g, b, ss, acts) && i <= |acts| && Solves(coef, g, b, x)
    requires Contractive(coef, g, c) && c < 1.0
    ensures Shape(g, ss[i]) && forall j | 0 <= j < |g| :: ss[i].table[j].v <= x[j]
    ensures L1(Difference(x, View(coef, g, ss[i]).v)) == Total(x) - Total(View(coef, g, ss[i]).v)
  {
    SignsAlways(coef, g, b, ss, acts, i);
    ResidualAlways(coef, g, b, ss, acts, i);
    BelowSolution(coef, g, b, View(coef, g, ss[i]), x, c);
    ErrorIsShortfall(View(coef, g, ss[i]), x);
    forall j | 0 <= j < |g| ensures ss[i].table[j].v <= x[j] {
      assert View(coef, g, ss[i]).v[j] <= x[j];
    }
  }
}
