/**
 * A contractive linear problem has a solution: the vertices are eliminated one at a time.
 * Together with Linear.OneSolution the errors and distances proved elsewhere are measured
 * from exactly one vector.
 */
module Solutions {
  import opened Vectors
  import opened Kernels
  import opened Linear

  // m(k, j): the influence of coordinate k on coordinate j.
  type Matrix = (nat, nat) -> real
  type Coordinates = nat -> real

  function Sum(f: Coordinates, n: nat): real {
    if n == 0 then 0.0 else Sum(f, n - 1) + f(n - 1)
  }

  lemma {:induction false} SumLinear(h: Coordinates, f: Coordinates, g: Coordinates, a: real, n: nat)
    requires forall i: nat | i < n :: h(i) == f(i) + Scaled(a, g(i))
    ensures Sum(h, n) == Sum(f, n) + Scaled(a, Sum(g, n))
  {
    if n == 0 {
      ScaledUnits(a);
    } else {
      SumLinear(h, f, g, a, n - 1);
      ScaledFacts(a, 0.0, Sum(g, n - 1), g(n - 1));
    }
  }

  lemma {:induction false} SumSame(f: Coordinates, g: Coordinates, n: nat)
    requires forall i: nat | i < n :: f(i) == g(i)
    ensures Sum(f, n) == Sum(g, n)
  {
    if n > 0 {
      SumSame(f, g, n - 1);
    }
  }

  lemma {:induction false} SumMonotone(f: Coordinates, g: Coordinates, n: nat)
    requires forall i: nat | i < n :: f(i) <= g(i)
    ensures Sum(f, n) <= Sum(g, n)
  {
    if n > 0 {
      SumMonotone(f, g, n - 1);
    }
  }

  function RowNorm(m: Matrix, k: nat, n: nat): real {
    Sum((j: nat) => Abs(m(k, j)), n)
  }

  function Image(m: Matrix, x: Coordinates, j: nat, n: nat): real {
    Sum((k: nat) => m(k, j) * x(k), n)
  }

  ghost predicate Satisfies(m: Matrix, b: Coordinates, x: Coordinates, n: nat) {
    forall j: nat | j < n :: x(j) == b(j) + Image(m, x, j, n)
  }

  ghost predicate Contracts(m: Matrix, n: nat, c: real) {
    forall k: nat | k < n :: RowNorm(m, k, n) <= c
  }

  // ---------- eliminating coordinate p, the last of p + 1 ----------

  // What coordinate p multiplies by when its influence on itself is summed up.
  function Echo(m: Matrix, p: nat): real
    requires m(p, p) < 1.0
  {
    1.0 / (1.0 - m(p, p))
  }

  function Reduced(m: Matrix, p: nat): Matrix
    requires m(p, p) < 1.0
  {
    var a := Echo(m, p);
    (k: nat, j: nat) => m(k, j) + m(k, p) * a * m(p, j)
  }

  function ReducedStart(m: Matrix, b: Coordinates, p: nat): Coordinates
    requires m(p, p) < 1.0
  {
    var a := Echo(m, p);
    (j: nat) => b(j) + a * b(p) * m(p, j)
  }

  lemma DiagonalIsSmall(m: Matrix, p: nat, c: real)
    requires RowNorm(m, p, p + 1) <= c < 1.0
    ensures Abs(m(p, p)) < 1.0 && RowNorm(m, p, p) + Abs(m(p, p)) <= c && RowNorm(m, p, p) >= 0.0
  {
    var f: Coordinates := (j: nat) => Abs(m(p, j));
    forall j: nat | j < p ensures f(j) >= 0.0 {
      assert f(j) == Abs(m(p, j));
    }
    SumNonNegative(f, p);
    SumSame(f, (j: nat) => Abs(m(p, j)), p);
    RowNormSplits(m, p, p);
  }

  lemma {:induction false} SumNonNegative(f: Coordinates, n: nat)
    requires forall i: nat | i < n :: f(i) >= 0.0
    ensures Sum(f, n) >= 0.0
  {
    if n > 0 {
      SumNonNegative(f, n - 1);
    }
  }

  lemma EchoIsBounded(d: real, r: real)
    requires Abs(d) < 1.0 && 0.0 <= r && r + Abs(d) <= 1.0
    ensures var a := 1.0 / (1.0 - d); a > 0.0 && a * (1.0 - d) == 1.0 && Scaled(a, r) <= 1.0
  {
    Inverse(1.0 - d);
    LessTimes(1.0 / (1.0 - d), r, 1.0 - d);
  }

  lemma Inverse(q: real)
    requires q > 0.0
    ensures 1.0 / q > 0.0 && (1.0 / q) * q == 1.0
  {
  }

  lemma LessTimes(a: real, r: real, q: real)
    requires a >= 0.0 && r <= q
    ensures Scaled(a, r) <= a * q
  {
    assert a * (q - r) >= 0.0;
  }

  lemma AbsOfSum(x: real, y: real, a: real, z: real)
    requires a > 0.0
    ensures Abs(x + y * a * z) <= Abs(x) + Scaled(Abs(y) * a, Abs(z))
  {
    var w := y * a * z;
    assert w <= Abs(y) * a * Abs(z) && -w <= Abs(y) * a * Abs(z) by {
      ProductBound(y * a, z);
      ProductBound(y, a);
      assert Abs(y * a) == Abs(y) * a;
    }
  }

  lemma ProductBound(y: real, z: real)
    ensures Abs(y * z) == Abs(y) * Abs(z)
  {
    if y >= 0.0 {
      if z >= 0.0 { assert y * z >= 0.0; } else { assert y * (-z) >= 0.0; }
    } else {
      if z >= 0.0 { assert (-y) * z >= 0.0; } else { assert (-y) * (-z) >= 0.0; }
    }
  }

  lemma ReducedEntry(m: Matrix, p: nat, k: nat, j: nat)
    requires m(p, p) < 1.0 && Echo(m, p) > 0.0
    ensures Abs(Reduced(m, p)(k, j)) <= Abs(m(k, j)) + Scaled(Abs(m(k, p)) * Echo(m, p), Abs(m(p, j)))
  {
    AbsOfSum(m(k, j), m(k, p), Echo(m, p), m(p, j));
  }

  lemma BoundedSum(h: Coordinates, f: Coordinates, g: Coordinates, y: real, n: nat)
    requires forall j: nat | j < n :: h(j) <= f(j) + Scaled(y, g(j))
    ensures Sum(h, n) <= Sum(f, n) + Scaled(y, Sum(g, n))
  {
    var bound: Coordinates := (j: nat) => f(j) + Scaled(y, g(j));
    SumMonotone(h, bound, n);
    SumLinear(bound, f, g, y, n);
  }

  lemma ReducedRowBound(m: Matrix, p: nat, k: nat)
    requires m(p, p) < 1.0 && Echo(m, p) > 0.0
    ensures RowNorm(Reduced(m, p), k, p) <= RowNorm(m, k, p) + Scaled(Abs(m(k, p)) * Echo(m, p), RowNorm(m, p, p))
  {
    var y := Abs(m(k, p)) * Echo(m, p);
    var f: Coordinates := (j: nat) => Abs(m(k, j));
    var g: Coordinates := (j: nat) => Abs(m(p, j));
    var h: Coordinates := (j: nat) => Abs(Reduced(m, p)(k, j));
    forall j: nat | j < p ensures h(j) <= f(j) + Scaled(y, g(j)) {
      ReducedEntry(m, p, k, j);
    }
    BoundedSum(h, f, g, y, p);
    SumSame(h, (j: nat) => Abs(Reduced(m, p)(k, j)), p);
    SumSame(f, (j: nat) => Abs(m(k, j)), p);
    SumSame(g, (j: nat) => Abs(m(p, j)), p);
  }

  lemma RowNormSplits(m: Matrix, k: nat, p: nat)
    ensures RowNorm(m, k, p + 1) == RowNorm(m, k, p) + Abs(m(k, p))
  {
  }

  // The influence rerouted through p is no more than the influence on p was.
  lemma ReducedRow(m: Matrix, p: nat, k: nat, c: real)
    requires RowNorm(m, k, p + 1) <= c && RowNorm(m, p, p + 1) <= c < 1.0 && m(p, p) < 1.0
    ensures RowNorm(Reduced(m, p), k, p) <= c
  {
    DiagonalIsSmall(m, p, c);
    EchoIsBounded(m(p, p), RowNorm(m, p, p));
    ReducedRowBound(m, p, k);
    Rerouted(Abs(m(k, p)), Echo(m, p), RowNorm(m, p, p));
    RowNormSplits(m, k, p);
  }

  lemma Rerouted(u: real, a: real, r: real)
    requires u >= 0.0 && Scaled(a, r) <= 1.0
    ensures Scaled(u * a, r) <= u
  {
    assert u * (1.0 - a * r) >= 0.0;
  }

  // Coordinate p from a solution of the rest.
  function Restored(m: Matrix, b: Coordinates, y: Coordinates, p: nat): Coordinates
    requires m(p, p) < 1.0
  {
    var last := Echo(m, p) * (b(p) + Image(m, y, p, p));
    (k: nat) => if k == p then last else y(k)
  }

  lemma ImageOfRestored(m: Matrix, b: Coordinates, y: Coordinates, p: nat, j: nat)
    requires m(p, p) < 1.0
    ensures var x := Restored(m, b, y, p); Image(m, x, j, p + 1) == Image(m, y, j, p) + m(p, j) * x(p)
  {
    var x := Restored(m, b, y, p);
    SumSame((k: nat) => m(k, j) * x(k), (k: nat) => m(k, j) * y(k), p);
  }

  lemma ReducedProduct(m: Matrix, y: Coordinates, p: nat, j: nat, k: nat)
    requires m(p, p) < 1.0
    ensures Reduced(m, p)(k, j) * y(k) == m(k, j) * y(k) + Scaled(Echo(m, p) * m(p, j), m(k, p) * y(k))
  {
    Expand(m(k, j), m(k, p), Echo(m, p), m(p, j), y(k));
  }

  lemma ImageOfReduced(m: Matrix, y: Coordinates, p: nat, j: nat)
    requires m(p, p) < 1.0
    ensures Image(Reduced(m, p), y, j, p) == Image(m, y, j, p) + Scaled(Echo(m, p) * m(p, j), Image(m, y, p, p))
  {
    var a := Echo(m, p) * m(p, j);
    var h: Coordinates := (k: nat) => Reduced(m, p)(k, j) * y(k);
    var f: Coordinates := (k: nat) => m(k, j) * y(k);
    var g: Coordinates := (k: nat) => m(k, p) * y(k);
    forall k | 0 <= k < p ensures h(k) == f(k) + Scaled(a, g(k)) {
      ReducedProduct(m, y, p, j, k);
    }
    SumLinear(h, f, g, a, p);
    SumSame(h, (k: nat) => Reduced(m, p)(k, j) * y(k), p);
    SumSame(f, (k: nat) => m(k, j) * y(k), p);
    SumSame(g, (k: nat) => m(k, p) * y(k), p);
  }

  lemma Expand(u: real, v: real, a: real, w: real, y: real)
    ensures (u + v * a * w) * y == u * y + Scaled(a * w, v * y)
  {
  }

  lemma RestoredLast(m: Matrix, b: Coordinates, y: Coordinates, p: nat)
    requires m(p, p) < 1.0
    ensures var x := Restored(m, b, y, p); x(p) == b(p) + Image(m, x, p, p + 1)
  {
    ImageOfRestored(m, b, y, p, p);
    Inverse(1.0 - m(p, p));
    LastCoordinate(Echo(m, p), m(p, p), b(p) + Image(m, y, p, p));
  }

  lemma RestoredOther(m: Matrix, b: Coordinates, y: Coordinates, p: nat, j: nat)
    requires m(p, p) < 1.0 && j < p && y(j) == ReducedStart(m, b, p)(j) + Image(Reduced(m, p), y, j, p)
    ensures var x := Restored(m, b, y, p); x(j) == b(j) + Image(m, x, j, p + 1)
  {
    ImageOfRestored(m, b, y, p, j);
    ImageOfReduced(m, y, p, j);
    OtherCoordinate(Echo(m, p), m(p, j), b(p), Image(m, y, p, p));
  }

  lemma RestoredSatisfies(m: Matrix, b: Coordinates, y: Coordinates, p: nat)
    requires m(p, p) < 1.0 && Satisfies(Reduced(m, p), ReducedStart(m, b, p), y, p)
    ensures Satisfies(m, b, Restored(m, b, y, p), p + 1)
  {
    var x := Restored(m, b, y, p);
    forall j: nat | j < p + 1 ensures x(j) == b(j) + Image(m, x, j, p + 1) {
      if j == p {
        RestoredLast(m, b, y, p);
      } else {
        assert y(j) == ReducedStart(m, b, p)(j) + Image(Reduced(m, p), y, j, p);
        RestoredOther(m, b, y, p, j);
      }
    }
  }

  lemma LastCoordinate(a: real, d: real, t: real)
    requires a * (1.0 - d) == 1.0
    ensures a * t == t + d * (a * t)
  {
    assert (a * (1.0 - d)) * t == a * t - d * (a * t);
  }

  lemma OtherCoordinate(a: real, w: real, u: real, s: real)
    ensures a * u * w + Scaled(a * w, s) == w * (a * (u + s))
  {
  }

  lemma {:induction false} MatrixSolution(m: Matrix, b: Coordinates, n: nat, c: real) returns (x: Coordinates)
    requires Contracts(m, n, c) && c < 1.0
    ensures Satisfies(m, b, x, n)
    decreases n
  {
    if n == 0 {
      x := b;
    } else {
      var p := n - 1;
      assert RowNorm(m, p, n) <= c;
      DiagonalIsSmall(m, p, c);
      forall k: nat | k < p ensures RowNorm(Reduced(m, p), k, p) <= c {
        assert RowNorm(m, k, n) <= c;
        ReducedRow(m, p, k, c);
      }
      var y := MatrixSolution(Reduced(m, p), ReducedStart(m, b, p), p, c);
      RestoredSatisfies(m, b, y, p);
      x := Restored(m, b, y, p);
    }
  }

  // ---------- the influence matrix of a graph ----------

  function Influence(coef: Coef, g: Graph): Matrix {
    (k: nat, j: nat) => if k < |g| then Flow(coef, g[k], 0, 1.0, j) else 0.0
  }

  lemma {:induction false} FlowScales(coef: Coef, row: seq<Edge>, i: nat, x: real, j: nat)
    requires i <= |row|
    ensures Flow(coef, row, i, x, j) == Flow(coef, row, i, 1.0, j) * x
    decreases |row| - i
  {
    if i < |row| {
      FlowScales(coef, row, i + 1, x, j);
    }
  }

  lemma {:induction false} TotalIsSum(s: seq<real>, f: Coordinates)
    requires forall j | 0 <= j < |s| :: f(j) == s[j]
    ensures Total(s) == Sum(f, |s|)
  {
    if |s| > 0 {
      var n := |s| - 1;
      TotalIsSum(s[..n], f);
      TotalAppend(s[..n], s[n]);
      assert s == s[..n] + [s[n]];
    }
  }

  // The magnitudes of a row of the matrix add up to at most the row's weight.
  lemma InfluenceContracts(coef: Coef, g: Graph, c: real)
    requires Closed(g) && Contractive(coef, g, c)
    ensures Contracts(Influence(coef, g), |g|, c)
  {
    forall k: nat | k < |g| ensures RowNorm(Influence(coef, g), k, |g|) <= c {
      var ms := Messages(LinearKernel(coef), g[k], 1.0);
      MessagesTargets(LinearKernel(coef), g, k, 1.0);
      CarriedNorm(ms, |g|);
      MessagesMass(coef, g, k, 1.0, c);
      assert Scaled(c, Abs(1.0)) == c;
      var magnitudes := Magnitudes(CarriedVec(ms, |g|));
      forall j: nat | j < |g| ensures Abs(Influence(coef, g)(k, j)) == magnitudes[j] {
        OutgoingIsFlow(coef, g[k], 0, 1.0, j);
      }
      TotalIsSum(magnitudes, (j: nat) => Abs(Influence(coef, g)(k, j)));
    }
  }

  lemma IncomingFrom(coef: Coef, g: Graph, x: Vec, j: nat, k: nat)
    requires |x| == |g| && k < |g|
    ensures Incoming(coef, g[k..], x[k..], j)
            == Flow(coef, g[k], 0, x[k], j) + Incoming(coef, g[k + 1..], x[k + 1..], j)
  {
    assert g[k..][1..] == g[k + 1..] && x[k..][1..] == x[k + 1..];
  }

  lemma ImageGrows(coef: Coef, g: Graph, x: Vec, f: Coordinates, j: nat, k: nat)
    requires |x| == |g| && k < |g| && f(k) == x[k]
    ensures Image(Influence(coef, g), f, j, k + 1)
            == Image(Influence(coef, g), f, j, k) + Flow(coef, g[k], 0, x[k], j)
  {
    FlowScales(coef, g[k], 0, x[k], j);
    assert Influence(coef, g)(k, j) * f(k) == Flow(coef, g[k], 0, 1.0, j) * x[k];
  }

  // What all vertices send to j, as a sum over the vertices.
  lemma {:induction false} IncomingIsImage(coef: Coef, g: Graph, x: Vec, f: Coordinates, j: nat, k: nat)
    requires |x| == |g| && k <= |g| && forall i | 0 <= i < |g| :: f(i) == x[i]
    ensures Incoming(coef, g[k..], x[k..], j) + Image(Influence(coef, g), f, j, k)
            == Image(Influence(coef, g), f, j, |g|)
    decreases |g| - k
  {
    if k < |g| {
      IncomingIsImage(coef, g, x, f, j, k + 1);
      IncomingFrom(coef, g, x, j, k);
      ImageGrows(coef, g, x, f, j, k);
    } else {
      assert g[|g|..] == [] && x[|g|..] == [];
    }
  }

  // Every contractive problem has a solution.
  lemma SolutionExists(coef: Coef, g: Graph, b: Vec, c: real) returns (x: Vec)
    requires Closed(g) && |b| == |g| && Contractive(coef, g, c) && c < 1.0
    ensures Solves(coef, g, b, x)
  {
    InfluenceContracts(coef, g, c);
    var start: Coordinates := (j: nat) => if j < |b| then b[j] else 0.0;
    var f := MatrixSolution(Influence(coef, g), start, |g|, c);
    x := seq(|g|, (j: nat) => f(j));
    forall j | 0 <= j < |g| ensures x[j] == b[j] + Incoming(coef, g, x, j) {
      IncomingIsImage(coef, g, x, f, j, 0);
      assert g[0..] == g && x[0..] == x;
    }
  }
}
