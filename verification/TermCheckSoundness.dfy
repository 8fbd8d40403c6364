/**
 * What a positive termination check proves, although its scans read v without locks while
 * the workers run: for every contractive linear kernel without negative coefficients.
 */
module TermCheckSoundness {
  import opened Vectors
  import opened Kernels
  import opened Linear
  import opened Update
  import opened Convergence
  import opened PositiveRuns
  import Atomic
  import TermCheck

  // A scan visits every vertex once, in some bucket order, reading v at moments of its own.
  datatype Scan = Scan(order: seq<nat>, moments: seq<nat>)

  ghost predicate Spans(scan: Scan, n: nat, from: nat, until: nat) {
    && VisitsOnce(scan.order, n) && |scan.moments| == |scan.order|
    && forall i | 0 <= i < |scan.moments| :: from <= scan.moments[i] <= until
  }

  ghost predicate Reads(ss: seq<State<real>>, scan: Scan, values: seq<real>) {
    && |values| == |scan.order| == |scan.moments|
    && forall i | 0 <= i < |values| ::
         scan.moments[i] < |ss| && scan.order[i] < |ss[scan.moments[i]].table|
         && values[i] == ss[scan.moments[i]].table[scan.order[i]].v
  }

  // A scan finished by moment b totals at most the values stored then.
  lemma EarlyScanUnderestimates(coef: Coef, g: Graph, b: Vec, ss: seq<State<real>>, acts: seq<Act>,
                                scan: Scan, values: seq<real>, now: nat)
    requires PositiveRun(coef, g, b, ss, acts) && now <= |acts|
    requires Spans(scan, |g|, 0, now) && Reads(ss, scan, values)
    ensures Shape(g, ss[now]) && Total(values) <= Total(View(coef, g, ss[now]).v)
  {
    RunShape(coef, g, b, ss, acts, now);
    var v := View(coef, g, ss[now]).v;
    forall i | 0 <= i < |values| ensures values[i] <= Pick(v, scan.order)[i] {
      ValuesGrow(coef, g, b, ss, acts, scan.moments[i], now, scan.order[i]);
    }
    TotalMonotone(values, Pick(v, scan.order));
    ScanTotal(v, scan.order);
  }

  // A scan started at or after moment e totals at least the values stored then.
  lemma LateScanOverestimates(coef: Coef, g: Graph, b: Vec, ss: seq<State<real>>, acts: seq<Act>,
                              scan: Scan, values: seq<real>, now: nat)
    requires PositiveRun(coef, g, b, ss, acts) && now <= |acts|
    requires Spans(scan, |g|, now, |acts|) && Reads(ss, scan, values)
    ensures Shape(g, ss[now]) && Total(View(coef, g, ss[now]).v) <= Total(values)
  {
    RunShape(coef, g, b, ss, acts, now);
    var v := View(coef, g, ss[now]).v;
    forall i | 0 <= i < |values| ensures Pick(v, scan.order)[i] <= values[i] {
      ValuesGrow(coef, g, b, ss, acts, now, scan.moments[i], scan.order[i]);
    }
    TotalMonotone(Pick(v, scan.order), values);
    ScanTotal(v, scan.order);
  }

  // ---------- a pass collects what was pending ----------

  // Until vertex k is folded its delta only grows; folding moves all of it into the value.
  ghost predicate Collected(v0: real, d0: real, v: real, d: real, folded: bool) {
    if folded then v >= v0 + d0 else v >= v0 && d >= d0
  }

  lemma CollectedStep(coef: Coef, g: Graph, s: Atomic.State<real>, a: Atomic.Act, k: nat,
                      v0: real, d0: real, folded: bool)
    requires Atomic.Shape(g, s) && Atomic.Enabled(g, s, a) && NonNegative(s) && k < |g|
    requires Collected(v0, d0, s.v[k], s.d[k], folded)
    ensures var s' := Atomic.Apply(LinearKernel(coef), g, s, a);
            Collected(v0, d0, s'.v[k], s'.d[k], folded || k in Atomic.Absorbs(a))
  {
    var K := LinearKernel(coef);
    match a {
      case Absorb(t, j) =>
        assert K.accumulate(s.v[j], s.d[j]) == s.v[j] + s.d[j];
      case Deliver(t) =>
        var m := s.out[t][0];
        assert AllPositive(s.out[t]);
        assert K.accumulate(s.d[m.target], m.value) == s.d[m.target] + m.value;
    }
  }

  // Every vertex compared with its value and delta at the start of a pass.
  // One conjunction under a match, so that it stays one fact where it is proved.
  ghost predicate Gathered(coef: Coef, g: Graph, s: State<real>, start: Atomic.State<real>, done: set<nat>) {
    match s
    case State(_, _, _) =>
      && Positive(coef, g, s) && |start.v| == |start.d| == |g|
      && forall k | 0 <= k < |g| ::
           Collected(start.v[k], start.d[k], View(coef, g, s).v[k], View(coef, g, s).d[k], k in done)
  }

  lemma GatheredAdvance(coef: Coef, g: Graph, s: State<real>, a: Act, s': State<real>,
                        start: Atomic.State<real>, done: set<nat>)
    requires PositiveCoef(coef, g) && Simulates(LinearKernel(coef), g, s, a, s')
    requires Gathered(coef, g, s, start, done)
    ensures Gathered(coef, g, s', start, done + Folds(s, a))
  {
    SignsAdvance(coef, g, s, a, s');
    if Effect(s, a).Some? {
      forall k | 0 <= k < |g| {
        CollectedStep(coef, g, View(coef, g, s), Effect(s, a).value, k, start.v[k], start.d[k], k in done);
      }
    }
  }

  lemma GatheredAlongStep(coef: Coef, g: Graph, b: Vec, ss: seq<State<real>>, acts: seq<Act>, i: nat,
                          start: Atomic.State<real>, done: set<nat>)
    requires PositiveRun(coef, g, b, ss, acts) && 0 < i <= |acts| && Gathered(coef, g, ss[i - 1], start, done)
    ensures Gathered(coef, g, ss[i], start, done + Folds(ss[i - 1], acts[i - 1]))
  {
    LinearRunStep(coef, g, b, ss, acts, i);
    GatheredAdvance(coef, g, ss[i - 1], acts[i - 1], ss[i], start, done);
    assert Gathered(coef, g, ss[i], start, done + Folds(ss[i - 1], acts[i - 1]));
  }

  lemma {:induction false} GatheredInPass(coef: Coef, g: Graph, b: Vec, ss: seq<State<real>>, acts: seq<Act>,
                                          from: nat, until: nat, start: Atomic.State<real>)
    requires PositiveRun(coef, g, b, ss, acts) && from <= until <= |acts| && Gathered(coef, g, ss[from], start, {})
    ensures Gathered(coef, g, ss[until], start, Absorbed(ss, acts, from, until))
  {
    if from < until {
      var done := Absorbed(ss, acts, from, until - 1);
      assert Gathered(coef, g, ss[until - 1], start, done) by {
        GatheredInPass(coef, g, b, ss, acts, from, until - 1, start);
      }
      GatheredAlongStep(coef, g, b, ss, acts, until, start, done);
      assert Gathered(coef, g, ss[until], start, Absorbed(ss, acts, from, until));
    }
  }

  ghost predicate FullPass(g: Graph, ss: seq<State<real>>, acts: seq<Act>, from: nat, until: nat)
    requires from <= until <= |acts| < |ss|
  {
    AtRest(ss[from]) && CoversAll(Absorbed(ss, acts, from, until), |g|)
  }

  lemma CollectedTotal(g: Graph, s: Atomic.State<real>, s': Atomic.State<real>)
    requires |s.v| == |s.d| == |s'.v| == |g| && Atomic.Drained(s) && PositiveVec(s.d)
    requires forall k | 0 <= k < |g| :: s.v[k] + s.d[k] <= s'.v[k]
    ensures Mass(s) <= Total(s'.v) - Total(s.v)
  {
    var sum := seq(|g|, k requires 0 <= k < |g| => s.v[k] + s.d[k]);
    TotalMonotone(sum, s'.v);
    TotalSum(sum, s.v, s.d);
    L1OfNonNegative(s.d);
    DrainedCarriesNothing(s.out, 0);
  }

  // A full pass that starts with nothing in flight moves at least all the mass that was
  // pending at its start into the values.
  lemma PassCollectsMass(coef: Coef, g: Graph, b: Vec, ss: seq<State<real>>, acts: seq<Act>, from: nat, until: nat)
    requires PositiveRun(coef, g, b, ss, acts) && from <= until <= |acts| && FullPass(g, ss, acts, from, until)
    ensures Shape(g, ss[from]) && Shape(g, ss[until])
    ensures Mass(View(coef, g, ss[from])) <= Total(View(coef, g, ss[until]).v) - Total(View(coef, g, ss[from]).v)
  {
    SignsAlways(coef, g, b, ss, acts, from);
    RestIsDrained(coef, g, b, ss, acts, from);
    var s := View(coef, g, ss[from]);
    assert Gathered(coef, g, ss[from], s, {});
    GatheredInPass(coef, g, b, ss, acts, from, until, s);
    CollectedTotal(g, s, View(coef, g, ss[until]));
  }

  // The two scans around a pass differ by at least the mass that was pending before it.
  lemma ScansBoundMass(coef: Coef, g: Graph, b: Vec, ss: seq<State<real>>, acts: seq<Act>, from: nat, until: nat,
                       scan1: Scan, values1: seq<real>, scan2: Scan, values2: seq<real>)
    requires PositiveRun(coef, g, b, ss, acts) && from <= until <= |acts| && FullPass(g, ss, acts, from, until)
    requires Spans(scan1, |g|, 0, from) && Reads(ss, scan1, values1)
    requires Spans(scan2, |g|, until, |acts|) && Reads(ss, scan2, values2)
    ensures Shape(g, ss[from]) && Mass(View(coef, g, ss[from])) <= Total(values2) - Total(values1)
  {
    EarlyScanUnderestimates(coef, g, b, ss, acts, scan1, values1, from);
    LateScanOverestimates(coef, g, b, ss, acts, scan2, values2, until);
    PassCollectsMass(coef, g, b, ss, acts, from, until);
  }

  lemma MassAfterPass(coef: Coef, g: Graph, b: Vec, ss: seq<State<real>>, acts: seq<Act>,
                      from: nat, until: nat, now: nat, c: real)
    requires LinearRun(coef, g, b, ss, acts) && from <= until <= now <= |acts| && FullPass(g, ss, acts, from, until)
    requires Contractive(coef, g, c) && 0.0 <= c <= 1.0
    ensures Shape(g, ss[from]) && Shape(g, ss[now])
    ensures Mass(View(coef, g, ss[now])) <= Scaled(c, Mass(View(coef, g, ss[from])))
  {
    PassContracts(coef, g, b, ss, acts, from, until, c);
    MassNeverGrows(coef, g, b, ss, acts, until, now, c);
  }

  // Main result: if a whole pass fits between two scans whose totals differ by at most the
  // threshold, then from the end of that pass on the pending mass is at most c times the
  // threshold, and the error at most c / (1 - c) times.
  lemma StoppingIsSound(coef: Coef, g: Graph, b: Vec, ss: seq<State<real>>, acts: seq<Act>, from: nat, until: nat,
                        scan1: Scan, values1: seq<real>, scan2: Scan, values2: seq<real>,
                        threshold: real, now: nat, x: Vec, c: real)
    requires PositiveRun(coef, g, b, ss, acts) && Contractive(coef, g, c) && 0.0 <= c <= 1.0
    requires from <= until <= now <= |acts| && FullPass(g, ss, acts, from, until)
    requires Spans(scan1, |g|, 0, from) && Reads(ss, scan1, values1)
    requires Spans(scan2, |g|, until, |acts|) && Reads(ss, scan2, values2)
    requires TermCheck.Settles([Total(values1), Total(values2)], 1, threshold)
    requires Solves(coef, g, b, x)
    ensures Shape(g, ss[now])
    ensures Mass(View(coef, g, ss[now])) <= Scaled(c, threshold)
    ensures Scaled(1.0 - c, L1(Difference(x, View(coef, g, ss[now]).v))) <= Scaled(c, threshold)
  {
    ScansBoundMass(coef, g, b, ss, acts, from, until, scan1, values1, scan2, values2);
    MassAfterPass(coef, g, b, ss, acts, from, until, now, c);
    ScaledFacts(c, c, Mass(View(coef, g, ss[from])), threshold);
    DistanceToSolution(coef, g, b, ss, acts, now, x, c);
  }

  // What a scan proves by itself: its total bounds the error from then on by what is missing
  // from the total of the solution.
  lemma ScanBoundsError(coef: Coef, g: Graph, b: Vec, ss: seq<State<real>>, acts: seq<Act>,
                        scan: Scan, values: seq<real>, now: nat, x: Vec, c: real)
    requires PositiveRun(coef, g, b, ss, acts) && Contractive(coef, g, c) && c < 1.0 && Solves(coef, g, b, x)
    requires now <= |acts| && Spans(scan, |g|, 0, now) && Reads(ss, scan, values)
    ensures Shape(g, ss[now])
    ensures L1(Difference(x, View(coef, g, ss[now]).v)) <= Total(x) - Total(values)
  {
    ErrorIsMissingTotal(coef, g, b, ss, acts, now, x, c);
    EarlyScanUnderestimates(coef, g, b, ss, acts, scan, values, now);
  }
}
