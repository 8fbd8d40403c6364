/**
 * Linear kernels on the atomic system: the residual equation, the L1 error bound, the
 * monotone residual mass, and the potential that makes one pass a contraction.
 */
module Linear {
  import opened Vectors
  import opened Kernels
  import opened Atomic

  type Vec = seq<real>
  type Coef = (seq<Edge>, Edge) -> real
  type Buffers = seq<seq<Msg<real>>>

  // ---------- messages as vectors ----------

  // What a list of messages carries to vertex j.
  function Carried(ms: seq<Msg<real>>, j: nat): real {
    if |ms| == 0 then 0.0 else (if ms[0].target == j then ms[0].value else 0.0) + Carried(ms[1..], j)
  }

  function MsgMass(ms: seq<Msg<real>>): (m: real)
    ensures m >= 0.0
  {
    if |ms| == 0 then 0.0 else Abs(ms[0].value) + MsgMass(ms[1..])
  }

  function InFlight(out: Buffers, j: nat): real {
    if |out| == 0 then 0.0 else Carried(out[0], j) + InFlight(out[1..], j)
  }

  function OutMass(out: Buffers): (m: real)
    ensures m >= 0.0
  {
    if |out| == 0 then 0.0 else MsgMass(out[0]) + OutMass(out[1..])
  }

  lemma {:induction false} InFlightUpdate(out: Buffers, t: nat, ms: seq<Msg<real>>, j: nat)
    requires t < |out|
    ensures InFlight(out[t := ms], j) == InFlight(out, j) - Carried(out[t], j) + Carried(ms, j)
  {
    if t == 0 {
      assert out[t := ms][1..] == out[1..];
    } else {
      assert out[t := ms][1..] == out[1..][t - 1 := ms];
      InFlightUpdate(out[1..], t - 1, ms, j);
    }
  }

  lemma {:induction false} OutMassUpdate(out: Buffers, t: nat, ms: seq<Msg<real>>)
    requires t < |out|
    ensures OutMass(out[t := ms]) == OutMass(out) - MsgMass(out[t]) + MsgMass(ms)
  {
    if t == 0 {
      assert out[t := ms][1..] == out[1..];
    } else {
      assert out[t := ms][1..] == out[1..][t - 1 := ms];
      OutMassUpdate(out[1..], t - 1, ms);
    }
  }

  lemma {:induction false} DrainedCarriesNothing(out: Buffers, j: nat)
    requires forall t | 0 <= t < |out| :: |out[t]| == 0
    ensures InFlight(out, j) == 0.0 && OutMass(out) == 0.0
  {
    if |out| > 0 {
      DrainedCarriesNothing(out[1..], j);
    }
  }

  function CarriedVec(ms: seq<Msg<real>>, n: nat): Vec {
    seq(n, (j: nat) => Carried(ms, j))
  }

  // Splitting a message list over its targets loses nothing and adds nothing.
  lemma {:induction false} CarriedNorm(ms: seq<Msg<real>>, n: nat)
    requires Targets(ms, n)
    ensures L1(CarriedVec(ms, n)) <= MsgMass(ms)
  {
    if |ms| == 0 {
      L1OfZeros(CarriedVec(ms, n));
    } else {
      var rest := CarriedVec(ms[1..], n);
      CarriedNorm(ms[1..], n);
      var k, x := ms[0].target, ms[0].value;
      assert CarriedVec(ms, n) == rest[k := x + rest[k]];
      L1Update(rest, k, x + rest[k]);
    }
  }

  function InFlightVec(out: Buffers, n: nat): Vec {
    seq(n, (j: nat) => InFlight(out, j))
  }

  lemma {:induction false} InFlightNorm(out: Buffers, n: nat)
    requires forall t | 0 <= t < |out| :: Targets(out[t], n)
    ensures L1(InFlightVec(out, n)) <= OutMass(out)
  {
    if |out| == 0 {
      L1OfZeros(InFlightVec(out, n));
    } else {
      CarriedNorm(out[0], n);
      InFlightNorm(out[1..], n);
      L1Triangle(InFlightVec(out, n), CarriedVec(out[0], n), InFlightVec(out[1..], n));
    }
  }

  lemma AbsProduct(a: real, x: real)
    ensures Abs(a * x) == Scaled(Abs(a), Abs(x))
  {
  }

  lemma Distribute(a: real, x: real, y: real)
    ensures a * (x + y) == a * x + a * y && (x + y) * a == x * a + y * a
  {
  }

  // ---------- the influence matrix ----------

  ghost predicate Within(g: Graph, n: nat) {
    forall i, e | 0 <= i < |g| && 0 <= e < |g[i]| :: g[i][e].target < n
  }

  // What the edges i, i+1, ... of a row send to vertex j for a value x.
  function Flow(coef: Coef, row: seq<Edge>, i: nat, x: real, j: nat): real
    requires i <= |row|
    decreases |row| - i
  {
    if i == |row| then 0.0
    else (if row[i].target == j then coef(row, row[i]) * x else 0.0) + Flow(coef, row, i + 1, x, j)
  }

  // (A^T x)_j : what vertex j receives when every vertex i emits for x_i.
  function Incoming(coef: Coef, g: Graph, x: Vec, j: nat): real
    requires |x| == |g|
  {
    if |g| == 0 then 0.0 else Flow(coef, g[0], 0, x[0], j) + Incoming(coef, g[1..], x[1..], j)
  }

  // The magnitudes of the coefficients of edges i, i+1, ... of a row.
  function Weights(coef: Coef, row: seq<Edge>, i: nat): seq<real>
    requires i <= |row|
  {
    seq(|row| - i, p requires 0 <= p < |row| - i => Abs(coef(row, row[i + p])))
  }

  function RowWeight(coef: Coef, row: seq<Edge>, i: nat): real
    requires i <= |row|
  {
    Total(Weights(coef, row, i))
  }

  lemma RowWeightHead(coef: Coef, row: seq<Edge>, i: nat)
    requires i < |row|
    ensures RowWeight(coef, row, i) == Abs(coef(row, row[i])) + RowWeight(coef, row, i + 1)
  {
    assert Weights(coef, row, i)[1..] == Weights(coef, row, i + 1);
  }

  lemma OutgoingUnfolds(coef: Coef, row: seq<Edge>, i: nat, x: real)
    requires i < |row|
    ensures Outgoing(LinearKernel(coef), row, i, x)
            == [Msg(row[i].target, coef(row, row[i]) * x)] + Outgoing(LinearKernel(coef), row, i + 1, x)
  {
    var K := LinearKernel(coef);
    assert K.message(row, row[i], x) == coef(row, row[i]) * x;
  }

  lemma CarriedHead(m: Msg<real>, ms: seq<Msg<real>>, j: nat)
    ensures Carried([m] + ms, j) == (if m.target == j then m.value else 0.0) + Carried(ms, j)
    ensures MsgMass([m] + ms) == Abs(m.value) + MsgMass(ms)
  {
  }

  // g_func sends exactly Flow ...
  lemma {:induction false} OutgoingIsFlow(coef: Coef, row: seq<Edge>, i: nat, x: real, j: nat)
    requires i <= |row|
    ensures Carried(Outgoing(LinearKernel(coef), row, i, x), j) == Flow(coef, row, i, x, j)
    decreases |row| - i
  {
    if i < |row| {
      OutgoingIsFlow(coef, row, i + 1, x, j);
      OutgoingUnfolds(coef, row, i, x);
      CarriedHead(Msg(row[i].target, coef(row, row[i]) * x), Outgoing(LinearKernel(coef), row, i + 1, x), j);
    }
  }

  lemma OutgoingHeadMass(coef: Coef, row: seq<Edge>, i: nat, x: real)
    requires i < |row|
    ensures MsgMass(Outgoing(LinearKernel(coef), row, i, x))
            == Scaled(Abs(coef(row, row[i])), Abs(x)) + MsgMass(Outgoing(LinearKernel(coef), row, i + 1, x))
  {
    OutgoingUnfolds(coef, row, i, x);
    CarriedHead(Msg(row[i].target, coef(row, row[i]) * x), Outgoing(LinearKernel(coef), row, i + 1, x), 0);
    AbsProduct(coef(row, row[i]), x);
  }

  // ... and its messages weigh RowWeight times what is absorbed.
  lemma {:induction false} OutgoingMass(coef: Coef, row: seq<Edge>, i: nat, x: real)
    requires i <= |row|
    ensures MsgMass(Outgoing(LinearKernel(coef), row, i, x)) == Scaled(RowWeight(coef, row, i), Abs(x))
    decreases |row| - i
  {
    if i == |row| {
      ScaledUnits(Abs(x));
    } else {
      RowWeightHead(coef, row, i);
      OutgoingHeadMass(coef, row, i, x);
      OutgoingMass(coef, row, i + 1, x);
      ScaledFacts(Abs(coef(row, row[i])), RowWeight(coef, row, i + 1), Abs(x), 0.0);
    }
  }

  lemma {:induction false} FlowAdds(coef: Coef, row: seq<Edge>, i: nat, x: real, y: real, j: nat)
    requires i <= |row|
    ensures Flow(coef, row, i, x + y, j) == Flow(coef, row, i, x, j) + Flow(coef, row, i, y, j)
    decreases |row| - i
  {
    if i < |row| {
      FlowAdds(coef, row, i + 1, x, y, j);
      Distribute(coef(row, row[i]), x, y);
    }
  }

  lemma {:induction false} IncomingUpdate(coef: Coef, g: Graph, x: Vec, k: nat, y: real, j: nat)
    requires |x| == |g| && k < |g|
    ensures Incoming(coef, g, x[k := x[k] + y], j)
            == Incoming(coef, g, x, j) + Flow(coef, g[k], 0, y, j)
  {
    var x' := x[k := x[k] + y];
    if k == 0 {
      assert x'[1..] == x[1..];
      FlowAdds(coef, g[0], 0, x[0], y, j);
    } else {
      assert x'[1..] == x[1..][k - 1 := x[1..][k - 1] + y];
      IncomingUpdate(coef, g[1..], x[1..], k - 1, y, j);
    }
  }

  lemma {:induction false} IncomingDifference(coef: Coef, g: Graph, e: Vec, x: Vec, y: Vec, j: nat)
    requires |e| == |x| == |y| == |g|
    requires forall i | 0 <= i < |g| :: e[i] == x[i] - y[i]
    ensures Incoming(coef, g, e, j) == Incoming(coef, g, x, j) - Incoming(coef, g, y, j)
  {
    if |g| > 0 {
      FlowAdds(coef, g[0], 0, e[0], y[0], j);
      assert e[0] + y[0] == x[0];
      IncomingDifference(coef, g[1..], e[1..], x[1..], y[1..], j);
    }
  }

  lemma {:induction false} IncomingOfZero(coef: Coef, g: Graph, x: Vec, j: nat)
    requires |x| == |g| && forall i | 0 <= i < |g| :: x[i] == 0.0
    ensures Incoming(coef, g, x, j) == 0.0
  {
    if |g| > 0 {
      FlowAdds(coef, g[0], 0, 0.0, 0.0, j);
      IncomingOfZero(coef, g[1..], x[1..], j);
    }
  }

  // ---------- contraction of the matrix ----------

  // Each row sends out at most the fraction c of what it absorbs.
  ghost predicate Contractive(coef: Coef, g: Graph, c: real) {
    forall k | 0 <= k < |g| :: RowWeight(coef, g[k], 0) <= c
  }

  lemma MessagesMass(coef: Coef, g: Graph, k: nat, x: real, c: real)
    requires k < |g| && Contractive(coef, g, c)
    ensures MsgMass(Messages(LinearKernel(coef), g[k], x)) <= Scaled(c, Abs(x))
  {
    OutgoingMass(coef, g[k], 0, x);
    ScaledFacts(RowWeight(coef, g[k], 0), c, Abs(x), 0.0);
  }

  function IncomingVec(coef: Coef, g: Graph, x: Vec, n: nat): Vec
    requires |x| == |g|
  {
    seq(n, (j: nat) => Incoming(coef, g, x, j))
  }

  lemma {:induction false} IncomingNorm(coef: Coef, g: Graph, x: Vec, n: nat, c: real)
    requires |x| == |g| && Within(g, n) && Contractive(coef, g, c)
    ensures L1(IncomingVec(coef, g, x, n)) <= Scaled(c, L1(x))
  {
    if |g| == 0 {
      L1OfZeros(IncomingVec(coef, g, x, n));
      L1OfZeros(x);
      ScaledUnits(c);
    } else {
      var ms := Messages(LinearKernel(coef), g[0], x[0]);
      OutgoingShape(LinearKernel(coef), g[0], 0, x[0]);
      CarriedNorm(ms, n);
      MessagesMass(coef, g, 0, x[0], c);
      assert Contractive(coef, g[1..], c) by {
        forall k | 0 <= k < |g[1..]| ensures RowWeight(coef, g[1..][k], 0) <= c {
          assert g[1..][k] == g[k + 1];
        }
      }
      IncomingNorm(coef, g[1..], x[1..], n, c);
      forall j: nat | j < n
        ensures IncomingVec(coef, g, x, n)[j] == CarriedVec(ms, n)[j] + IncomingVec(coef, g[1..], x[1..], n)[j]
      {
        OutgoingIsFlow(coef, g[0], 0, x[0], j);
      }
      L1Triangle(IncomingVec(coef, g, x, n), CarriedVec(ms, n), IncomingVec(coef, g[1..], x[1..], n));
      L1Head(x);
      ScaledFacts(c, c, Abs(x[0]), L1(x[1..]));
    }
  }

  // ---------- the residual equation ----------

  // v_j + delta_j + inflight_j = b_j + sum_i coef(i, j) * v_i.
  ghost predicate Residual(coef: Coef, g: Graph, b: Vec, s: State<real>)
    requires |s.v| == |s.d| == |b| == |g|
  {
    forall j | 0 <= j < |g| :: s.v[j] + s.d[j] + InFlight(s.out, j) == b[j] + Incoming(coef, g, s.v, j)
  }

  lemma ResidualStep(coef: Coef, g: Graph, b: Vec, s: State<real>, a: Act)
    requires Shape(g, s) && Enabled(g, s, a) && |b| == |g| && Residual(coef, g, b, s)
    ensures Residual(coef, g, b, Apply(LinearKernel(coef), g, s, a))
  {
    var K := LinearKernel(coef);
    var s' := Apply(K, g, s, a);
    forall j | 0 <= j < |g| ensures s'.v[j] + s'.d[j] + InFlight(s'.out, j) == b[j] + Incoming(coef, g, s'.v, j) {
      assert s.v[j] + s.d[j] + InFlight(s.out, j) == b[j] + Incoming(coef, g, s.v, j);
      match a {
        case Absorb(t, k) =>
          var ms := Messages(K, g[k], s.d[k]);
          assert K.accumulate(s.v[k], s.d[k]) == s.v[k] + s.d[k];
          assert s'.v == s.v[k := s.v[k] + s.d[k]];
          assert s'.d == s.d[k := 0.0];
          OutgoingIsFlow(coef, g[k], 0, s.d[k], j);
          InFlightUpdate(s.out, t, ms, j);
          IncomingUpdate(coef, g, s.v, k, s.d[k], j);
        case Deliver(t) =>
          var m := s.out[t][0];
          assert K.accumulate(s.d[m.target], m.value) == s.d[m.target] + m.value;
          assert s'.d == s.d[m.target := s.d[m.target] + m.value];
          InFlightUpdate(s.out, t, s.out[t][1..], j);
      }
    }
  }

  // ---------- mass and error ----------

  function Mass(s: State<real>): real {
    L1(s.d) + OutMass(s.out)
  }

  function Difference(x: Vec, y: Vec): (e: Vec)
    requires |x| == |y|
    ensures |e| == |x| && forall j | 0 <= j < |e| :: e[j] == x[j] - y[j]
  {
    seq(|x|, j requires 0 <= j < |x| => x[j] - y[j])
  }

  // delta plus in-flight, as one vector; the state's mass bounds its norm.
  function Pending(s: State<real>): (r: Vec)
    ensures |r| == |s.d| && forall j | 0 <= j < |r| :: r[j] == s.d[j] + InFlight(s.out, j)
  {
    seq(|s.d|, j requires 0 <= j < |s.d| => s.d[j] + InFlight(s.out, j))
  }

  lemma PendingNorm(g: Graph, s: State<real>)
    requires Shape(g, s)
    ensures L1(Pending(s)) <= Mass(s)
  {
    InFlightNorm(s.out, |g|);
    L1Triangle(Pending(s), s.d, InFlightVec(s.out, |g|));
  }

  // The difference of two value vectors is one step of the matrix on itself, plus the
  // difference of what is pending.
  lemma DifferenceFlows(coef: Coef, g: Graph, b: Vec, s: State<real>, s': State<real>)
    requires Shape(g, s) && Shape(g, s') && |b| == |g|
    requires Residual(coef, g, b, s) && Residual(coef, g, b, s')
    ensures var e := Difference(s.v, s'.v);
            forall j | 0 <= j < |g| :: e[j] == Incoming(coef, g, e, j) + (Pending(s')[j] - Pending(s)[j])
  {
    var e := Difference(s.v, s'.v);
    forall j | 0 <= j < |g| ensures e[j] == Incoming(coef, g, e, j) + (Pending(s')[j] - Pending(s)[j]) {
      IncomingDifference(coef, g, e, s.v, s'.v, j);
      assert s.v[j] + s.d[j] + InFlight(s.out, j) == b[j] + Incoming(coef, g, s.v, j);
      assert s'.v[j] + s'.d[j] + InFlight(s'.out, j) == b[j] + Incoming(coef, g, s'.v, j);
    }
  }

  lemma DifferenceNorm(coef: Coef, g: Graph, b: Vec, s: State<real>, s': State<real>)
    requires Shape(g, s) && Shape(g, s') && |b| == |g|
    requires Residual(coef, g, b, s) && Residual(coef, g, b, s')
    ensures var e := Difference(s.v, s'.v);
            L1(e) <= L1(IncomingVec(coef, g, e, |g|)) + Mass(s) + Mass(s')
  {
    var e := Difference(s.v, s'.v);
    var r := Difference(Pending(s'), Pending(s));
    DifferenceFlows(coef, g, b, s, s');
    L1Triangle(e, IncomingVec(coef, g, e, |g|), r);
    L1Triangle(r, Pending(s'), Pending(s));
    PendingNorm(g, s);
    PendingNorm(g, s');
  }

  // Any two states of runs with the same initial deltas, whatever their schedules and
  // thread counts, are as close as their unsettled mass allows.
  lemma StatesAreClose(coef: Coef, g: Graph, b: Vec, s: State<real>, s': State<real>, c: real)
    requires Shape(g, s) && Shape(g, s') && |b| == |g|
    requires Residual(coef, g, b, s) && Residual(coef, g, b, s')
    requires Contractive(coef, g, c)
    ensures Scaled(1.0 - c, L1(Difference(s.v, s'.v))) <= Mass(s) + Mass(s')
  {
    DifferenceNorm(coef, g, b, s, s');
    assert Within(g, |g|);
    IncomingNorm(coef, g, Difference(s.v, s'.v), |g|, c);
    AbsorbFraction(c, L1(Difference(s.v, s'.v)), Mass(s) + Mass(s'));
  }

  lemma AbsorbFraction(c: real, e: real, m: real)
    requires e <= Scaled(c, e) + m
    ensures Scaled(1.0 - c, e) <= m
  {
  }

  // x solves x = b + A^T x.
  ghost predicate Solves(coef: Coef, g: Graph, b: Vec, x: Vec) {
    && |x| == |b| == |g|
    && forall j | 0 <= j < |g| :: x[j] == b[j] + Incoming(coef, g, x, j)
  }

  // A solution is a state with nothing left to do.
  function Settled(x: Vec): State<real> {
    State(x, seq(|x|, j => 0.0), [])
  }

  lemma SettledIsResidual(coef: Coef, g: Graph, b: Vec, x: Vec)
    requires Closed(g) && Solves(coef, g, b, x)
    ensures Shape(g, Settled(x)) && Residual(coef, g, b, Settled(x)) && Mass(Settled(x)) == 0.0
  {
    L1OfZeros(Settled(x).d);
    forall j | 0 <= j < |g|
      ensures Settled(x).v[j] + Settled(x).d[j] + InFlight(Settled(x).out, j)
              == b[j] + Incoming(coef, g, Settled(x).v, j)
    {
      assert x[j] == b[j] + Incoming(coef, g, x, j);
    }
  }

  lemma ErrorBound(coef: Coef, g: Graph, b: Vec, s: State<real>, x: Vec, c: real)
    requires Shape(g, s) && Solves(coef, g, b, x) && Residual(coef, g, b, s) && Contractive(coef, g, c)
    ensures Scaled(1.0 - c, L1(Difference(x, s.v))) <= Mass(s)
  {
    SettledIsResidual(coef, g, b, x);
    StatesAreClose(coef, g, b, Settled(x), s, c);
  }

  // A contractive problem has at most one solution.
  lemma OneSolution(coef: Coef, g: Graph, b: Vec, x: Vec, y: Vec, c: real)
    requires Closed(g) && Contractive(coef, g, c) && c < 1.0 && Solves(coef, g, b, x) && Solves(coef, g, b, y)
    ensures x == y
  {
    var e := Difference(x, y);
    SettledIsResidual(coef, g, b, x);
    SettledIsResidual(coef, g, b, y);
    StatesAreClose(coef, g, b, Settled(x), Settled(y), c);
    L1NonNegative(e);
    NothingLeft(1.0 - c, L1(e));
    forall j | 0 <= j < |x| ensures x[j] == y[j] {
      L1Coordinate(e, j);
    }
  }

  lemma NothingLeft(a: real, x: real)
    requires a > 0.0 && x >= 0.0 && Scaled(a, x) <= 0.0
    ensures x == 0.0
  {
    assert x > 0.0 ==> a * x > 0.0;
  }

  // ---------- mass never grows; a pass contracts it ----------

  // Deltas of vertices outside `done` count only as the fraction c they will emit.
  function Weigh(done: set<nat>, c: real, k: nat, x: real): real {
    if k in done then Abs(x) else Scaled(c, Abs(x))
  }

  function Weighted(d: Vec, done: set<nat>, c: real): (w: Vec)
    ensures |w| == |d| && forall k | 0 <= k < |w| :: w[k] == Weigh(done, c, k, d[k])
  {
    seq(|d|, k requires 0 <= k < |d| => Weigh(done, c, k, d[k]))
  }

  function Potential(s: State<real>, done: set<nat>, c: real): real {
    Total(Weighted(s.d, done, c)) + OutMass(s.out)
  }

  lemma WeighBounds(done: set<nat>, c: real, k: nat, q: real, x: real)
    requires 0.0 <= c <= 1.0
    ensures Scaled(c, Abs(q)) <= Weigh(done, c, k, q)
    ensures Weigh(done, c, k, q + x) <= Weigh(done, c, k, q) + Abs(x)
  {
    ScaledUnits(Abs(q));
    ScaledUnits(Abs(x));
    ScaledFacts(c, 1.0, Abs(q), Abs(x));
    ScaledFacts(c, 1.0, Abs(x), 0.0);
    ScaledFacts(c, c, Abs(q + x), Abs(q) + Abs(x));
  }

  lemma PotentialStep(coef: Coef, g: Graph, s: State<real>, a: Act, done: set<nat>, c: real)
    requires Shape(g, s) && Enabled(g, s, a) && Contractive(coef, g, c) && 0.0 <= c <= 1.0
    ensures Potential(Apply(LinearKernel(coef), g, s, a), done + Absorbs(a), c) <= Potential(s, done, c)
  {
    var K := LinearKernel(coef);
    var s' := Apply(K, g, s, a);
    var w, w' := Weighted(s.d, done, c), Weighted(s'.d, done + Absorbs(a), c);
    match a {
      case Absorb(t, k) =>
        var ms := Messages(K, g[k], s.d[k]);
        assert s'.d[k] == 0.0 && Abs(s'.d[k]) == 0.0;
        assert w' == w[k := 0.0];
        TotalUpdate(w, k, 0.0);
        OutMassUpdate(s.out, t, ms);
        MessagesMass(coef, g, k, s.d[k], c);
        WeighBounds(done, c, k, s.d[k], 0.0);
      case Deliver(t) =>
        var m := s.out[t][0];
        var q, k := s.d[m.target], m.target;
        assert K.accumulate(q, m.value) == q + m.value;
        assert w' == w[k := Weigh(done, c, k, q + m.value)];
        TotalUpdate(w, k, Weigh(done, c, k, q + m.value));
        OutMassUpdate(s.out, t, s.out[t][1..]);
        WeighBounds(done, c, k, q, m.value);
    }
  }

  lemma {:induction false} ScaledTotal(w: Vec, d: Vec, f: real)
    requires |w| == |d| && forall k | 0 <= k < |d| :: w[k] == Scaled(f, Abs(d[k]))
    ensures Total(w) == Scaled(f, L1(d))
  {
    if |d| == 0 {
      ScaledUnits(f);
    } else {
      ScaledTotal(w[1..], d[1..], f);
      L1Head(d);
      ScaledFacts(f, f, Abs(d[0]), L1(d[1..]));
    }
  }

  // Before a pass every delta is weighed by c, after it by 1.
  lemma PotentialAtStart(s: State<real>, c: real)
    requires Drained(s)
    ensures Potential(s, {}, c) == Scaled(c, Mass(s))
  {
    ScaledTotal(Weighted(s.d, {}, c), s.d, c);
    DrainedCarriesNothing(s.out, 0);
  }

  lemma PotentialAtEnd(s: State<real>, done: set<nat>, c: real)
    requires forall k | 0 <= k < |s.d| :: k in done
    ensures Potential(s, done, c) == Mass(s)
  {
    forall k | 0 <= k < |s.d| ensures Weighted(s.d, done, c)[k] == Magnitudes(s.d)[k] {
    }
    assert Weighted(s.d, done, c) == Magnitudes(s.d);
  }

  lemma MassStep(coef: Coef, g: Graph, s: State<real>, a: Act, c: real)
    requires Shape(g, s) && Enabled(g, s, a) && Contractive(coef, g, c) && 0.0 <= c <= 1.0
    ensures Mass(Apply(LinearKernel(coef), g, s, a)) <= Mass(s)
  {
    var all := Below(|g|);
    PotentialStep(coef, g, s, a, all, c);
    PotentialAtEnd(s, all, c);
    var s' := Apply(LinearKernel(coef), g, s, a);
    ApplyShape(LinearKernel(coef), g, s, a);
    PotentialAtEnd(s', all + Absorbs(a), c);
  }
}
