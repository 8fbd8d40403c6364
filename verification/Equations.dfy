/**
 * What the linear kernels solve, in the terms of the algorithms: which share of its value each
 * vertex sends along each edge, and where the initial deltas are.
 */
module Equations {
  import opened Vectors
  import opened Kernels
  import opened Linear
  import opened PageRankRuns
  import opened KatzAdsorption

  // shares[i][e] is what vertex i sends along its edge e.
  type Shares = seq<seq<real>>

  ghost predicate SharesOf(g: Graph, shares: Shares) {
    |shares| == |g| && forall i | 0 <= i < |g| :: |shares[i]| == |g[i]|
  }

  // What vertex j receives from one row, and from all.
  function RowInto(row: seq<Edge>, shares: seq<real>, j: nat): real
    requires |shares| == |row|
  {
    if |row| == 0 then 0.0 else (if row[0].target == j then shares[0] else 0.0) + RowInto(row[1..], shares[1..], j)
  }

  function Into(g: Graph, shares: Shares, j: nat): real
    requires SharesOf(g, shares)
  {
    if |g| == 0 then 0.0 else RowInto(g[0], shares[0], j) + Into(g[1..], shares[1..], j)
  }

  lemma {:induction false} FlowIsRowInto(coef: Coef, row: seq<Edge>, i: nat, x: real, shares: seq<real>, j: nat)
    requires i <= |row| == |shares| && forall e | 0 <= e < |row| :: shares[e] == coef(row, row[e]) * x
    ensures Flow(coef, row, i, x, j) == RowInto(row[i..], shares[i..], j)
    decreases |row| - i
  {
    if i < |row| {
      FlowIsRowInto(coef, row, i + 1, x, shares, j);
      assert row[i..][1..] == row[i + 1..] && shares[i..][1..] == shares[i + 1..];
    }
  }

  lemma {:induction false} IncomingIsInto(coef: Coef, g: Graph, x: Vec, shares: Shares, j: nat)
    requires |x| == |g| && SharesOf(g, shares)
    requires forall i, e | 0 <= i < |g| && 0 <= e < |g[i]| :: shares[i][e] == coef(g[i], g[i][e]) * x[i]
    ensures Incoming(coef, g, x, j) == Into(g, shares, j)
  {
    if |g| > 0 {
      forall e | 0 <= e < |g[0]| ensures shares[0][e] == coef(g[0], g[0][e]) * x[0] {
      }
      FlowIsRowInto(coef, g[0], 0, x[0], shares[0], j);
      assert g[0][0..] == g[0] && shares[0][0..] == shares[0];
      IncomingIsInto(coef, g[1..], x[1..], shares[1..], j);
    }
  }

  lemma SolvesMeans(coef: Coef, g: Graph, b: Vec, x: Vec, shares: Shares)
    requires |x| == |b| == |g| && SharesOf(g, shares)
    requires forall i, e | 0 <= i < |g| && 0 <= e < |g[i]| :: shares[i][e] == coef(g[i], g[i][e]) * x[i]
    ensures Solves(coef, g, b, x) <==> forall j | 0 <= j < |g| :: x[j] == b[j] + Into(g, shares, j)
  {
    forall j | 0 <= j < |g| ensures Incoming(coef, g, x, j) == Into(g, shares, j) {
      IncomingIsInto(coef, g, x, shares, j);
    }
  }

  // PageRank: 0.2, and 0.8 of every rank split evenly over the out-edges.
  lemma PageRankEquation(g: Graph, x: Vec, shares: Shares)
    requires |x| == |g| && SharesOf(g, shares)
    requires forall i, e | 0 <= i < |g| && 0 <= e < |g[i]| :: shares[i][e] == 0.8 * x[i] / |g[i]| as real
    ensures IsPageRank(g, x) <==> forall j | 0 <= j < |g| :: x[j] == 0.2 + Into(g, shares, j)
  {
    forall i, e | 0 <= i < |g| && 0 <= e < |g[i]| ensures shares[i][e] == PageRankCoef(g[i], g[i][e]) * x[i] {
      EvenShare(x[i], |g[i]| as real);
    }
    SolvesMeans(PageRankCoef, g, Start(g), x, shares);
  }

  lemma EvenShare(x: real, size: real)
    requires size > 0.0
    ensures 0.8 * x / size == (0.8 / size) * x
  {
  }

  // Katz: 1000000 at the source, and beta times every value along every edge.
  lemma KatzEquation(beta: real, g: Graph, source: nat, x: Vec, shares: Shares)
    requires |x| == |g| && SharesOf(g, shares)
    requires forall i, e | 0 <= i < |g| && 0 <= e < |g[i]| :: shares[i][e] == beta * x[i]
    ensures Solves(KatzCoef(beta), g, KatzStart(|g|, source), x)
            <==> forall j | 0 <= j < |g| :: x[j] == (if j == source then 1000000.0 else 0.0) + Into(g, shares, j)
  {
    forall i, e | 0 <= i < |g| && 0 <= e < |g[i]| ensures shares[i][e] == KatzCoef(beta)(g[i], g[i][e]) * x[i] {
      assert KatzCoef(beta)(g[i], g[i][e]) == beta;
    }
    SolvesMeans(KatzCoef(beta), g, KatzStart(|g|, source), x, shares);
  }

  // Adsorption: 10 at the labelled vertices, and damping times weight times every value.
  lemma AdsorptionEquation(damping: real, g: Graph, starts: nat, x: Vec, shares: Shares)
    requires |x| == |g| && SharesOf(g, shares)
    requires forall i, e | 0 <= i < |g| && 0 <= e < |g[i]| :: shares[i][e] == damping * g[i][e].weight * x[i]
    ensures Solves(AdsorptionCoef(damping), g, AdsorptionStart(|g|, starts), x)
            <==> forall j | 0 <= j < |g| :: x[j] == (if j < starts then 10.0 else 0.0) + Into(g, shares, j)
  {
    forall i, e | 0 <= i < |g| && 0 <= e < |g[i]|
      ensures shares[i][e] == AdsorptionCoef(damping)(g[i], g[i][e]) * x[i]
    {
      assert AdsorptionCoef(damping)(g[i], g[i][e]) == damping * g[i][e].weight;
    }
    SolvesMeans(AdsorptionCoef(damping), g, AdsorptionStart(|g|, starts), x, shares);
  }
}
