/**
 * Katz and Adsorption: when these linear kernels contract, and what full rounds then do to
 * the mass they start with.
 */
module KatzAdsorption {
  import opened Vectors
  import opened Kernels
  import opened Linear
  import opened Convergence
  import opened PositiveRuns
  import opened TermCheckSoundness
  import opened RankSystem
  import System
  import TermCheck
  import Update

  // ---------- Katz ----------

  const KATZ_START: real := 1000000.0

  // init_c: all of the mass at the source.
  function KatzStart(n: nat, source: nat): (b: Vec)
    ensures |b| == n && forall k | 0 <= k < n :: b[k] == if k == source then 1000000.0 else 0.0
  {
    seq(n, (k: nat) => if k == source then KATZ_START else 0.0)
  }

  lemma KatzRowWeight(beta: real, row: seq<Edge>)
    ensures RowWeight(KatzCoef(beta), row, 0) == Abs(beta) * |row| as real
  {
    forall p | 0 <= p < |row| ensures Weights(KatzCoef(beta), row, 0)[p] == Abs(beta) {
      assert KatzCoef(beta)(row, row[0 + p]) == beta;
    }
    TotalOfConstant(Weights(KatzCoef(beta), row, 0), Abs(beta));
  }

  lemma KatzContractsExactly(beta: real, g: Graph, c: real)
    ensures Contractive(KatzCoef(beta), g, c) <==> forall k | 0 <= k < |g| :: Abs(beta) * |g[k]| as real <= c
  {
    forall k | 0 <= k < |g| ensures RowWeight(KatzCoef(beta), g[k], 0) == Abs(beta) * |g[k]| as real {
      KatzRowWeight(beta, g[k]);
    }
  }

  ghost predicate Shrinks(n: int, g: Graph, c: real) {
    c < 1.0 && Contractive(KatzCoef(n as real), g, c)
  }

  // katz_beta is read with get_config_option_long, so it is a whole number; such a beta
  // contracts only if it is zero or there is nothing to send along.
  lemma WholeBetaContracts(n: int, g: Graph)
    ensures (exists c: real :: Shrinks(n, g, c))
            <==> n == 0 || forall k | 0 <= k < |g| :: |g[k]| == 0
  {
    var beta := n as real;
    if c: real :| Shrinks(n, g, c) {
      KatzContractsExactly(beta, g, c);
      forall k | 0 <= k < |g| ensures n == 0 || |g[k]| == 0 {
        AtLeastOne(n, |g[k]|);
        assert Abs(beta) * |g[k]| as real <= c;
      }
    }
    if n == 0 || forall k | 0 <= k < |g| :: |g[k]| == 0 {
      KatzContractsExactly(beta, g, 0.0);
      assert Shrinks(n, g, 0.0);
    }
  }

  lemma AtLeastOne(n: int, d: nat)
    ensures n != 0 && d != 0 ==> Abs(n as real) * d as real >= 1.0
  {
  }

  lemma KatzStartMass(n: nat, source: nat)
    ensures L1(KatzStart(n, source)) == if source < n then KATZ_START else 0.0
  {
    var zeros := seq(n, (k: nat) => 0.0);
    TotalOfConstant(Magnitudes(zeros), 0.0);
    if source < n {
      assert KatzStart(n, source) == zeros[source := KATZ_START];
      L1Update(zeros, source, KATZ_START);
    } else {
      assert KatzStart(n, source) == zeros;
    }
  }

  // With |beta| times the largest out-degree at most c <= 1, r full rounds leave at most c^r
  // of the mass, at every moment and for every schedule.
  lemma KatzMassAfterPasses(beta: real, c: real, g: Graph, source: nat,
                            ss: seq<Engine>, acts: seq<System.Act>, i: nat)
    requires LinearSystemRun(KatzCoef(beta), g, KatzStart(|g|, source), ss, acts) && i <= |acts|
    requires 0.0 <= c <= 1.0 && forall k | 0 <= k < |g| :: Abs(beta) * |g[k]| as real <= c
    ensures Update.Shape(g, ss[i].engine)
    ensures Mass(View(KatzCoef(beta), g, ss[i].engine)) <= Scaled(Power(c, ss[i].passes), KATZ_START)
  {
    KatzContractsExactly(beta, g, c);
    MassAfterPasses(KatzCoef(beta), g, KatzStart(|g|, source), c, ss, acts, i);
    KatzStartMass(|g|, source);
    PowerNonNegative(c, ss[i].passes);
    ScaledFacts(Power(c, ss[i].passes), 0.0, L1(KatzStart(|g|, source)), KATZ_START);
  }

  // The termination check on Katz.
  lemma KatzStopIsSound(beta: real, c: real, g: Graph, source: nat, ss: seq<Update.State<real>>, acts: seq<Update.Act>,
                        from: nat, until: nat, scan1: Scan, values1: seq<real>, scan2: Scan, values2: seq<real>,
                        threshold: real, now: nat, x: Vec)
    requires LinearRun(KatzCoef(beta), g, KatzStart(|g|, source), ss, acts) && beta >= 0.0
    requires 0.0 <= c <= 1.0 && forall k | 0 <= k < |g| :: Abs(beta) * |g[k]| as real <= c
    requires from <= until <= now <= |acts| && FullPass(g, ss, acts, from, until)
    requires Spans(scan1, |g|, 0, from) && Reads(ss, scan1, values1)
    requires Spans(scan2, |g|, until, |acts|) && Reads(ss, scan2, values2)
    requires TermCheck.Settles([Total(values1), Total(values2)], 1, threshold)
    requires Solves(KatzCoef(beta), g, KatzStart(|g|, source), x)
    ensures Update.Shape(g, ss[now])
    ensures Scaled(1.0 - c, L1(Difference(x, View(KatzCoef(beta), g, ss[now]).v))) <= Scaled(c, threshold)
  {
    KatzContractsExactly(beta, g, c);
    assert PositiveCoef(KatzCoef(beta), g);
    StoppingIsSound(KatzCoef(beta), g, KatzStart(|g|, source), ss, acts, from, until, scan1, values1, scan2, values2,
                    threshold, now, x, c);
  }

  lemma {:induction false} PowerNonNegative(c: real, n: nat)
    requires c >= 0.0
    ensures Power(c, n) >= 0.0
  {
    if n > 0 {
      PowerNonNegative(c, n - 1);
    }
  }

  // ---------- Adsorption ----------

  const ADSORPTION_START: real := 10.0

  // init_c: the first vertices are labelled.
  function AdsorptionStart(n: nat, starts: nat): (b: Vec)
    ensures |b| == n && forall k | 0 <= k < n :: b[k] == if k < starts then 10.0 else 0.0
  {
    seq(n, (k: nat) => if k < starts then ADSORPTION_START else 0.0)
  }

  function EdgeWeights(row: seq<Edge>): seq<real> {
    seq(|row|, p requires 0 <= p < |row| => Abs(row[p].weight))
  }

  lemma {:induction false} TotalOfScaled(a: seq<real>, b: seq<real>, c: real)
    requires |a| == |b| && forall p | 0 <= p < |a| :: a[p] == Scaled(c, b[p])
    ensures Total(a) == Scaled(c, Total(b))
  {
    if |a| == 0 {
      ScaledUnits(c);
    } else {
      TotalOfScaled(a[1..], b[1..], c);
      ScaledFacts(c, 0.0, b[0], Total(b[1..]));
    }
  }

  lemma AbsOfProduct(x: real, y: real)
    ensures Abs(x * y) == Scaled(Abs(x), Abs(y))
  {
  }

  lemma AdsorptionContractsExactly(damping: real, g: Graph, c: real)
    ensures Contractive(AdsorptionCoef(damping), g, c)
            <==> forall k | 0 <= k < |g| :: Scaled(Abs(damping), Total(EdgeWeights(g[k]))) <= c
  {
    forall k | 0 <= k < |g|
      ensures RowWeight(AdsorptionCoef(damping), g[k], 0) == Scaled(Abs(damping), Total(EdgeWeights(g[k])))
    {
      var row := g[k];
      forall p | 0 <= p < |row|
        ensures Weights(AdsorptionCoef(damping), row, 0)[p] == Scaled(Abs(damping), EdgeWeights(row)[p])
      {
        assert AdsorptionCoef(damping)(row, row[0 + p]) == damping * row[p].weight;
        AbsOfProduct(damping, row[p].weight);
      }
      TotalOfScaled(Weights(AdsorptionCoef(damping), row, 0), EdgeWeights(row), Abs(damping));
    }
  }

  lemma AdsorptionStartMass(n: nat, starts: nat)
    ensures L1(AdsorptionStart(n, starts)) <= ADSORPTION_START * n as real
  {
    var most := seq(n, (k: nat) => ADSORPTION_START);
    TotalOfConstant(most, ADSORPTION_START);
    TotalMonotone(Magnitudes(AdsorptionStart(n, starts)), most);
  }

  lemma AdsorptionContracts(damping: real, g: Graph)
    requires forall k | 0 <= k < |g| :: Total(EdgeWeights(g[k])) <= 1.0
    ensures Contractive(AdsorptionCoef(damping), g, Abs(damping))
  {
    forall k | 0 <= k < |g| ensures Scaled(Abs(damping), Total(EdgeWeights(g[k]))) <= Abs(damping) {
      ScaledFacts(Abs(damping), 0.0, Total(EdgeWeights(g[k])), 1.0);
      assert Scaled(Abs(damping), 1.0) == Abs(damping);
    }
    AdsorptionContractsExactly(damping, g, Abs(damping));
  }

  // With the out-weights of a vertex adding up to at most one and |damping| <= 1, r full
  // rounds leave at most |damping|^r of the labels.
  lemma AdsorptionMassAfterPasses(damping: real, g: Graph, starts: nat,
                                  ss: seq<Engine>, acts: seq<System.Act>, i: nat)
    requires LinearSystemRun(AdsorptionCoef(damping), g, AdsorptionStart(|g|, starts), ss, acts) && i <= |acts|
    requires (forall k | 0 <= k < |g| :: Total(EdgeWeights(g[k])) <= 1.0) && Abs(damping) <= 1.0
    ensures Update.Shape(g, ss[i].engine)
    ensures Mass(View(AdsorptionCoef(damping), g, ss[i].engine))
            <= Scaled(Power(Abs(damping), ss[i].passes), ADSORPTION_START * |g| as real)
  {
    AdsorptionContracts(damping, g);
    MassAfterPasses(AdsorptionCoef(damping), g, AdsorptionStart(|g|, starts), Abs(damping), ss, acts, i);
    AdsorptionStartMass(|g|, starts);
    PowerNonNegative(Abs(damping), ss[i].passes);
    ScaledFacts(Power(Abs(damping), ss[i].passes), 0.0,
                L1(AdsorptionStart(|g|, starts)), ADSORPTION_START * |g| as real);
  }

  lemma AdsorptionIsPositive(damping: real, g: Graph, starts: nat)
    requires damping >= 0.0 && forall k, e | 0 <= k < |g| && 0 <= e < |g[k]| :: g[k][e].weight >= 0.0
    ensures PositiveCoef(AdsorptionCoef(damping), g) && PositiveVec(AdsorptionStart(|g|, starts))
  {
    forall k, e | 0 <= k < |g| && 0 <= e < |g[k]| ensures AdsorptionCoef(damping)(g[k], g[k][e]) >= 0.0 {
      assert damping * g[k][e].weight >= 0.0;
    }
  }

  // The termination check on Adsorption.
  lemma AdsorptionStopIsSound(damping: real, g: Graph, starts: nat, ss: seq<Update.State<real>>, acts: seq<Update.Act>,
                              from: nat, until: nat, scan1: Scan, values1: seq<real>, scan2: Scan, values2: seq<real>,
                              threshold: real, now: nat, x: Vec)
    requires LinearRun(AdsorptionCoef(damping), g, AdsorptionStart(|g|, starts), ss, acts)
    requires 0.0 <= damping <= 1.0 && forall k, e | 0 <= k < |g| && 0 <= e < |g[k]| :: g[k][e].weight >= 0.0
    requires forall k | 0 <= k < |g| :: Total(EdgeWeights(g[k])) <= 1.0
    requires from <= until <= now <= |acts| && FullPass(g, ss, acts, from, until)
    requires Spans(scan1, |g|, 0, from) && Reads(ss, scan1, values1)
    requires Spans(scan2, |g|, until, |acts|) && Reads(ss, scan2, values2)
    requires TermCheck.Settles([Total(values1), Total(values2)], 1, threshold)
    requires Solves(AdsorptionCoef(damping), g, AdsorptionStart(|g|, starts), x)
    ensures Update.Shape(g, ss[now])
    ensures Scaled(1.0 - damping, L1(Difference(x, View(AdsorptionCoef(damping), g, ss[now]).v)))
            <= Scaled(damping, threshold)
  {
    AdsorptionContracts(damping, g);
    AdsorptionIsPositive(damping, g, starts);
    StoppingIsSound(AdsorptionCoef(damping), g, AdsorptionStart(|g|, starts), ss, acts, from, until,
                    scan1, values1, scan2, values2, threshold, now, x, damping);
  }
}
