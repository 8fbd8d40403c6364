/**
 * The termination check on PageRank: what a stop proves, and how the total that the check
 * computes measures the error.
 */
module PageRankStopping {
  import opened Options
  import opened Vectors
  import opened Kernels
  import opened Linear
  import opened Solutions
  import opened Update
  import opened Convergence
  import opened PageRankRuns
  import opened TermCheckSoundness
  import TermCheck

  ghost function Error(g: Graph, s: State<real>, x: Vec): real
    requires Shape(g, s) && |x| == |g|
  {
    L1(Difference(x, Ranks(g, s).v))
  }

  // If a whole pass fits between two scans whose totals differ by at most the threshold, the
  // pending mass is at most 0.8 and the error at most 4 times the threshold, from then on.
  lemma PassMakesStopSound(g: Graph, ss: seq<State<real>>, acts: seq<Act>, from: nat, until: nat,
                           scan1: Scan, values1: seq<real>, scan2: Scan, values2: seq<real>,
                           threshold: real, now: nat, x: Vec)
    requires PageRankRun(g, ss, acts) && from <= until <= now <= |acts| && FullPass(g, ss, acts, from, until)
    requires Spans(scan1, |g|, 0, from) && Reads(ss, scan1, values1)
    requires Spans(scan2, |g|, until, |acts|) && Reads(ss, scan2, values2)
    requires TermCheck.Settles([Total(values1), Total(values2)], 1, threshold)
    requires IsPageRank(g, x)
    ensures Shape(g, ss[now])
    ensures Mass(Ranks(g, ss[now])) <= 0.8 * threshold && Error(g, ss[now], x) <= 4.0 * threshold
  {
    PageRankIsPositive(g);
    PageRankContracts(g);
    StoppingIsSound(PageRankCoef, g, Start(g), ss, acts, from, until, scan1, values1, scan2, values2,
                    threshold, now, x, 0.8);
  }

  // ---------- what is missing from N ----------

  // N less the ranks, those at dangling vertices counted five times.
  ghost function Missing(g: Graph, s: State<real>): real
    requires Shape(g, s)
  {
    |g| as real - Total(Credited(g, Ranks(g, s).v))
  }

  // The part of the error that is at dangling vertices.
  ghost function DanglingError(g: Graph, s: State<real>, x: Vec): real
    requires Shape(g, s) && |x| == |g|
  {
    L1(AtDangling(g, Difference(x, Ranks(g, s).v)))
  }

  // On every graph, at every moment: what is missing is the error plus four times its part at
  // dangling vertices, so it lies between the error and five times the error, and vanishes with
  // it; without dangling vertices it is the error.
  lemma MissingIsError(g: Graph, ss: seq<State<real>>, acts: seq<Act>, now: nat, x: Vec)
    requires PageRankRun(g, ss, acts) && now <= |acts| && IsPageRank(g, x)
    ensures Shape(g, ss[now])
    ensures Missing(g, ss[now]) == Error(g, ss[now], x) + 4.0 * DanglingError(g, ss[now], x)
    ensures Error(g, ss[now], x) <= Missing(g, ss[now]) <= 5.0 * Error(g, ss[now], x)
    ensures NoDangling(g) ==>
              Error(g, ss[now], x) == Missing(g, ss[now]) == |g| as real - Total(Ranks(g, ss[now]).v)
  {
    BudgetAlways(g, ss, acts, now);
    NeverOvershoots(g, ss, acts, now, x);
    RunShape(PageRankCoef, g, Start(g), ss, acts, now);
    ExactDistance(g, Ranks(g, ss[now]), x);
    CreditedTotal(g, Ranks(g, ss[now]).v);
    L1NonNegative(AtDangling(g, Difference(x, Ranks(g, ss[now]).v)));
  }

  // ---------- what a scan can tell ----------

  // The values a scan reads at dangling vertices.
  ghost function DanglingReads(g: Graph, scan: Scan, values: seq<real>): seq<real>
    requires |values| == |scan.order| && forall i | 0 <= i < |scan.order| :: scan.order[i] < |g|
  {
    seq(|values|, i requires 0 <= i < |values| => if |g[scan.order[i]]| == 0 then values[i] else 0.0)
  }

  // What a scan misses of N: its total, and four times more of what it read at dangling
  // vertices.
  ghost function ScanMissing(g: Graph, scan: Scan, values: seq<real>): real
    requires |values| == |scan.order| && forall i | 0 <= i < |scan.order| :: scan.order[i] < |g|
  {
    |g| as real - Total(values) - 4.0 * Total(DanglingReads(g, scan, values))
  }

  ghost function CreditedReads(g: Graph, scan: Scan, values: seq<real>): seq<real>
    requires |values| == |scan.order| && forall i | 0 <= i < |scan.order| :: scan.order[i] < |g|
  {
    seq(|values|, i requires 0 <= i < |values| => if |g[scan.order[i]]| == 0 then 5.0 * values[i] else values[i])
  }

  lemma ScanMissingIsCredit(g: Graph, scan: Scan, values: seq<real>)
    requires |values| == |scan.order| && forall i | 0 <= i < |scan.order| :: scan.order[i] < |g|
    ensures ScanMissing(g, scan, values) == |g| as real - Total(CreditedReads(g, scan, values))
    ensures NoDangling(g) ==> ScanMissing(g, scan, values) == |g| as real - Total(values)
  {
    TotalWithFourfold(CreditedReads(g, scan, values), values, DanglingReads(g, scan, values));
    if NoDangling(g) {
      TotalOfZeros(DanglingReads(g, scan, values));
    }
  }

  // A scan misses at least what is missing at its end ...
  lemma ScanMissesEnough(g: Graph, ss: seq<State<real>>, acts: seq<Act>, scan: Scan, values: seq<real>, now: nat)
    requires PageRankRun(g, ss, acts) && now <= |acts| && Spans(scan, |g|, 0, now) && Reads(ss, scan, values)
    ensures Shape(g, ss[now]) && Missing(g, ss[now]) <= ScanMissing(g, scan, values)
  {
    RunShape(PageRankCoef, g, Start(g), ss, acts, now);
    var w := Credited(g, Ranks(g, ss[now]).v);
    forall i | 0 <= i < |values| ensures CreditedReads(g, scan, values)[i] <= Pick(w, scan.order)[i] {
      RanksGrow(g, ss, acts, scan.moments[i], now, scan.order[i]);
    }
    TotalMonotone(CreditedReads(g, scan, values), Pick(w, scan.order));
    ScanTotal(w, scan.order);
    ScanMissingIsCredit(g, scan, values);
  }

  // ... and at most what was missing at its start.
  lemma ScanMissesNoMore(g: Graph, ss: seq<State<real>>, acts: seq<Act>, scan: Scan, values: seq<real>, from: nat)
    requires PageRankRun(g, ss, acts) && from <= |acts| && Spans(scan, |g|, from, |acts|) && Reads(ss, scan, values)
    ensures Shape(g, ss[from]) && ScanMissing(g, scan, values) <= Missing(g, ss[from])
  {
    RunShape(PageRankCoef, g, Start(g), ss, acts, from);
    var w := Credited(g, Ranks(g, ss[from]).v);
    forall i | 0 <= i < |values| ensures Pick(w, scan.order)[i] <= CreditedReads(g, scan, values)[i] {
      RanksGrow(g, ss, acts, from, scan.moments[i], scan.order[i]);
    }
    TotalMonotone(Pick(w, scan.order), CreditedReads(g, scan, values));
    ScanTotal(w, scan.order);
    ScanMissingIsCredit(g, scan, values);
  }

  // The test a caller can make, on every graph and whatever happened before: a scan that misses
  // at most epsilon certifies the ranks from its end on.
  lemma ScanCertifies(g: Graph, ss: seq<State<real>>, acts: seq<Act>, scan: Scan, values: seq<real>,
                      epsilon: real, now: nat, x: Vec)
    requires PageRankRun(g, ss, acts) && now <= |acts| && IsPageRank(g, x)
    requires Spans(scan, |g|, 0, now) && Reads(ss, scan, values)
    requires ScanMissing(g, scan, values) <= epsilon
    ensures Shape(g, ss[now]) && Error(g, ss[now], x) <= epsilon
  {
    ScanMissesEnough(g, ss, acts, scan, values, now);
    MissingIsError(g, ss, acts, now, x);
  }

  // And the test succeeds once the ranks are good: what a scan misses lies between the error at
  // its end and five times the error at its start, once it without dangling vertices.
  lemma ScanBracketsError(g: Graph, ss: seq<State<real>>, acts: seq<Act>, scan: Scan, values: seq<real>,
                          from: nat, until: nat, x: Vec)
    requires PageRankRun(g, ss, acts) && from <= until <= |acts| && IsPageRank(g, x)
    requires Spans(scan, |g|, from, until) && Reads(ss, scan, values)
    ensures Shape(g, ss[from]) && Shape(g, ss[until])
    ensures Error(g, ss[until], x) <= ScanMissing(g, scan, values) <= 5.0 * Error(g, ss[from], x)
    ensures NoDangling(g) ==> ScanMissing(g, scan, values) <= Error(g, ss[from], x)
  {
    ScanMissesEnough(g, ss, acts, scan, values, until);
    ScanMissesNoMore(g, ss, acts, scan, values, from);
    MissingIsError(g, ss, acts, until, x);
    MissingIsError(g, ss, acts, from, x);
  }

  /**
   * Stopping after a scan, whether or not a pass fell between the scans, on every graph.  The
   * error, counted five times at dangling vertices, is within 4 * threshold if and only if at
   * most that much is missing.  For the plain error, missing that much is enough and missing
   * more than five times that much is too much; without dangling vertices the one decides.
   * When no rank changed during the scan, what the scan misses is what is missing.
   */
  lemma StopIsRightExactly(g: Graph, ss: seq<State<real>>, acts: seq<Act>, scan: Scan, values: seq<real>,
                           from: nat, now: nat, threshold: real, x: Vec)
    requires PageRankRun(g, ss, acts) && from <= now <= |acts| && IsPageRank(g, x)
    requires Spans(scan, |g|, from, now) && Reads(ss, scan, values)
    ensures Shape(g, ss[from]) && Shape(g, ss[now])
    ensures Error(g, ss[now], x) + 4.0 * DanglingError(g, ss[now], x) <= 4.0 * threshold
            <==> Missing(g, ss[now]) <= 4.0 * threshold
    ensures Missing(g, ss[now]) <= 4.0 * threshold ==> Error(g, ss[now], x) <= 4.0 * threshold
    ensures Missing(g, ss[now]) > 20.0 * threshold ==> Error(g, ss[now], x) > 4.0 * threshold
    ensures NoDangling(g) ==>
              (Error(g, ss[now], x) <= 4.0 * threshold <==> |g| as real - Total(Ranks(g, ss[now]).v) <= 4.0 * threshold)
    ensures Ranks(g, ss[now]).v == Ranks(g, ss[from]).v ==> ScanMissing(g, scan, values) == Missing(g, ss[now])
  {
    MissingIsError(g, ss, acts, now, x);
    ScanMissesEnough(g, ss, acts, scan, values, now);
    ScanMissesNoMore(g, ss, acts, scan, values, from);
  }

  // Two scans of an untouched table: the check is satisfied for every threshold.
  ghost predicate StoppedUntouched(g: Graph, s: State<real>, scan: Scan, values: seq<real>) {
    && PageRankRun(g, [s], []) && Spans(scan, |g|, 0, 0) && Reads([s], scan, values)
    && TermCheck.Settles([Total(values), Total(values)], 1, 0.0)
  }

  // Without a pass in between, the check proves nothing: one vertex with a self-loop, two
  // scans before any worker has moved, threshold 0, and the rank is off by 1.
  lemma StalledScansStopTooEarly()
    ensures exists g, s, scan, values, x ::
              && StoppedUntouched(g, s, scan, values) && Shape(g, s)
              && IsPageRank(g, x) && Error(g, s, x) == 1.0
  {
    var g: Graph := [[Edge(0, 1.0)]];
    var K := LinearKernel(PageRankCoef);
    var s := State([PutRow(K, 0.2, 0.0)], [None], [Thread(Idle, [], [], 0)]);
    var scan, values, x := Scan([0], [0]), [0.0], [1.0];
    assert Initial(K, g, s, seq(|g|, j => 0.0), Start(g));
    InitialInv(K, g, s, seq(|g|, j => 0.0), Start(g));
    assert StoppedUntouched(g, s, scan, values) by {
      assert VisitsOnce(scan.order, 1) by { assert scan.order[0] == 0; }
      assert Reads([s], scan, values);
    }
    assert IsPageRank(g, x) by {
      SelfLoop();
    }
    assert Difference(x, Ranks(g, s).v) == [1.0];
    L1Head([1.0]);
    assert L1([]) == 0.0;
  }

  lemma SelfLoop()
    ensures Incoming(PageRankCoef, [[Edge(0, 1.0)]], [1.0], 0) == 0.8
  {
  }

  // ---------- schedules and solutions ----------

  // Two moments of two runs on the same graph, whatever their schedules and thread counts.
  lemma RanksAreClose(g: Graph, ss: seq<State<real>>, acts: seq<Act>, i: nat,
                      tt: seq<State<real>>, bcts: seq<Act>, j: nat)
    requires PageRankRun(g, ss, acts) && i <= |acts| && PageRankRun(g, tt, bcts) && j <= |bcts|
    ensures Shape(g, ss[i]) && Shape(g, tt[j])
    ensures L1(Difference(Ranks(g, ss[i]).v, Ranks(g, tt[j]).v))
            <= 5.0 * (Mass(Ranks(g, ss[i])) + Mass(Ranks(g, tt[j])))
  {
    PageRankContracts(g);
    ScheduleIndependence(PageRankCoef, g, Start(g), ss, acts, i, tt, bcts, j, 0.8);
  }

  // The ranks being approximated are unique.
  lemma OnePageRank(g: Graph, x: Vec, y: Vec)
    requires Closed(g) && IsPageRank(g, x) && IsPageRank(g, y)
    ensures x == y
  {
    PageRankContracts(g);
    OneSolution(PageRankCoef, g, Start(g), x, y, 0.8);
  }

  // The solution that the bounds are about exists, with and without dangling vertices.
  lemma PageRankExists(g: Graph) returns (x: Vec)
    requires Closed(g)
    ensures IsPageRank(g, x)
  {
    PageRankContracts(g);
    x := SolutionExists(PageRankCoef, g, Start(g), 0.8);
  }
}
