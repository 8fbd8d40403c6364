/**
 * Linear kernels, and PageRank in particular, on the whole engine: every run of the round
 * protocol with any number of workers, any schedule and any iterators.
 */
module RankSystem {
  import opened Vectors
  import opened Kernels
  import opened Linear
  import opened Convergence
  import opened PositiveRuns
  import opened PageRankRuns
  import opened TermCheckSoundness
  import opened PageRankStopping
  import opened Projection
  import Atomic
  import Rounds
  import Update
  import System
  import TermCheck

  type Engine = System.State<real>

  ghost predicate LinearSystemRun(coef: Coef, g: Graph, b: Vec, ss: seq<Engine>, acts: seq<System.Act>) {
    System.IsRun(LinearKernel(coef), g, seq(|g|, j => 0.0), b, ss, acts)
  }

  // The run of the update program inside a run of the engine is one to which all results on
  // such runs apply.
  lemma RunInside(coef: Coef, g: Graph, b: Vec, ss: seq<Engine>, acts: seq<System.Act>) returns (r: Inside<real>)
    requires LinearSystemRun(coef, g, b, ss, acts)
    ensures Projects(LinearKernel(coef), g, ss, acts, |acts|, r) && LinearRun(coef, g, b, r.us, r.acts)
    ensures |r.at| == |ss| && forall i | 0 <= i < |ss| :: r.at[i] <= |r.acts| < |r.us| && r.us[r.at[i]] == ss[i].engine
  {
    r := Project(LinearKernel(coef), g, seq(|g|, j => 0.0), b, ss, acts);
    forall i | 0 <= i < |ss| ensures r.at[i] <= |r.acts| {
      MomentsAdvance(ss, acts, r, i, |acts|);
    }
  }

  // The residual equation holds at every moment, whatever the coefficients.
  lemma BalancedAlways(coef: Coef, g: Graph, b: Vec, ss: seq<Engine>, acts: seq<System.Act>, i: nat)
    requires LinearSystemRun(coef, g, b, ss, acts) && i <= |acts|
    ensures Balanced(coef, g, b, ss[i].engine)
  {
    var r := RunInside(coef, g, b, ss, acts);
    ResidualAlways(coef, g, b, r.us, r.acts, r.at[i]);
  }

  // ---------- mass, for contractive kernels ----------

  // What the initial mass can have become after `passes` full rounds.
  function Allowance(b: Vec, c: real, passes: nat): real {
    if passes == 0 then L1(b) else Scaled(c, Allowance(b, c, passes - 1))
  }

  lemma {:induction false} AllowanceIsPower(b: Vec, c: real, passes: nat)
    ensures Allowance(b, c, passes) == Scaled(Power(c, passes), L1(b))
  {
    if passes == 0 {
      ScaledUnits(L1(b));
    } else {
      AllowanceIsPower(b, c, passes - 1);
      Associate(c, Power(c, passes - 1), L1(b));
    }
  }

  lemma Associate(a: real, b: real, x: real)
    ensures Scaled(a * b, x) == Scaled(a, Scaled(b, x))
  {
  }

  // The mass that full rounds have left.  During a round the potential is already on the
  // next round's allowance.
  // One conjunction under a match, so that it stays one fact where it is proved.
  ghost predicate WithinAllowance(b: Vec, c: real, a: Atomic.State<real>, done: set<nat>, passes: nat, resting: bool) {
    match a
    case State(_, _, _) =>
      && Mass(a) <= Allowance(b, c, passes)
      && (resting || Potential(a, done, c) <= Scaled(c, Allowance(b, c, passes)))
  }

  ghost predicate OnTrack(coef: Coef, g: Graph, b: Vec, c: real, s: Engine) {
    match s
    case State(_, engine, _, done, passes) =>
      Update.Shape(g, engine) && WithinAllowance(b, c, View(coef, g, engine), done, passes, System.Resting(s))
  }

  lemma PassStarts(b: Vec, c: real, a: Atomic.State<real>, done: set<nat>, passes: nat)
    requires WithinAllowance(b, c, a, done, passes, true) && Atomic.Drained(a) && 0.0 <= c
    ensures WithinAllowance(b, c, a, {}, passes, false)
  {
    PotentialAtStart(a, c);
    ScaledFacts(c, c, Mass(a), Allowance(b, c, passes));
  }

  lemma PassEnds(b: Vec, c: real, a: Atomic.State<real>, done: set<nat>, passes: nat)
    requires WithinAllowance(b, c, a, done, passes, false) && |a.d| == |b| && Update.CoversAll(done, |b|)
    ensures WithinAllowance(b, c, a, done, passes + 1, true)
  {
    PotentialAtEnd(a, done, c);
  }

  lemma WakeKeepsTrack(coef: Coef, g: Graph, b: Vec, c: real, s: Engine, s': Engine)
    requires System.Inv(LinearKernel(coef), g, s) && System.Inv(LinearKernel(coef), g, s')
    requires System.Wakes(LinearKernel(coef), g, s, s') && OnTrack(coef, g, b, c, s) && 0.0 <= c
    ensures OnTrack(coef, g, b, c, s')
  {
    Update.RestIsAtomic(LinearKernel(coef), g, s.engine);
    PassStarts(b, c, View(coef, g, s.engine), s.done, s.passes);
  }

  lemma JoinKeepsTrack(coef: Coef, g: Graph, b: Vec, c: real, s: Engine, s': Engine)
    requires System.Inv(LinearKernel(coef), g, s) && System.Inv(LinearKernel(coef), g, s') && |b| == |g|
    requires System.Joins(LinearKernel(coef), g, s, s') && OnTrack(coef, g, b, c, s)
    ensures OnTrack(coef, g, b, c, s')
  {
    if s'.passes != s.passes {
      PassEnds(b, c, View(coef, g, s.engine), s.done, s.passes);
    }
  }

  lemma WorkKeepsTrack(coef: Coef, g: Graph, b: Vec, c: real, s: Engine, s': Engine)
    requires System.Works(LinearKernel(coef), g, s, s') && OnTrack(coef, g, b, c, s)
    requires Contractive(coef, g, c) && 0.0 <= c <= 1.0
    ensures OnTrack(coef, g, b, c, s')
  {
    var t :| Update.Simulates(LinearKernel(coef), g, s.engine, Update.Move(t), s'.engine)
          && s'.done == s.done + Update.Folds(s.engine, Update.Move(t));
    MassAdvance(coef, g, s.engine, Update.Move(t), s'.engine, s.done, c);
  }

  lemma StepKeepsTrack(coef: Coef, g: Graph, b: Vec, c: real, s: Engine, s': Engine)
    requires System.Transition(LinearKernel(coef), g, s, s') && OnTrack(coef, g, b, c, s) && |b| == |g|
    requires Contractive(coef, g, c) && 0.0 <= c <= 1.0
    ensures OnTrack(coef, g, b, c, s')
  {
    if System.Works(LinearKernel(coef), g, s, s') {
      WorkKeepsTrack(coef, g, b, c, s, s');
    } else if System.Wakes(LinearKernel(coef), g, s, s') {
      WakeKeepsTrack(coef, g, b, c, s, s');
    } else if System.Joins(LinearKernel(coef), g, s, s') {
      JoinKeepsTrack(coef, g, b, c, s, s');
    }
  }

  lemma StartsOnTrack(coef: Coef, g: Graph, b: Vec, c: real, s: Engine)
    requires System.Initial(LinearKernel(coef), g, s, seq(|g|, j => 0.0), b)
    ensures OnTrack(coef, g, b, c, s)
  {
    System.InitialInv(LinearKernel(coef), g, s, seq(|g|, j => 0.0), b);
    InitialResidual(coef, g, b, s.engine);
  }

  lemma TrackAlongStep(coef: Coef, g: Graph, b: Vec, c: real, ss: seq<Engine>, acts: seq<System.Act>, i: nat)
    requires LinearSystemRun(coef, g, b, ss, acts) && 0 < i <= |acts| && OnTrack(coef, g, b, c, ss[i - 1])
    requires Contractive(coef, g, c) && 0.0 <= c <= 1.0
    ensures OnTrack(coef, g, b, c, ss[i])
  {
    AllKernelsAreQuiet(coef);
    System.RunTransition(LinearKernel(coef), g, seq(|g|, j => 0.0), b, ss, acts, i);
    StepKeepsTrack(coef, g, b, c, ss[i - 1], ss[i]);
    assert OnTrack(coef, g, b, c, ss[i]);
  }

  // At every moment the pending mass is at most c to the number of completed full rounds,
  // times the initial mass.
  lemma {:induction false} AlwaysOnTrack(coef: Coef, g: Graph, b: Vec, c: real,
                                         ss: seq<Engine>, acts: seq<System.Act>, i: nat)
    requires LinearSystemRun(coef, g, b, ss, acts) && i <= |acts|
    requires Contractive(coef, g, c) && 0.0 <= c <= 1.0
    ensures OnTrack(coef, g, b, c, ss[i])
  {
    if i == 0 {
      StartsOnTrack(coef, g, b, c, ss[0]);
    } else {
      AlwaysOnTrack(coef, g, b, c, ss, acts, i - 1);
      TrackAlongStep(coef, g, b, c, ss, acts, i);
      assert OnTrack(coef, g, b, c, ss[i]);
    }
  }

  lemma MassAfterPasses(coef: Coef, g: Graph, b: Vec, c: real, ss: seq<Engine>, acts: seq<System.Act>, i: nat)
    requires LinearSystemRun(coef, g, b, ss, acts) && i <= |acts|
    requires Contractive(coef, g, c) && 0.0 <= c <= 1.0
    ensures Update.Shape(g, ss[i].engine)
    ensures Mass(View(coef, g, ss[i].engine)) <= Scaled(Power(c, ss[i].passes), L1(b))
  {
    AlwaysOnTrack(coef, g, b, c, ss, acts, i);
    AllowanceIsPower(b, c, ss[i].passes);
  }

  // ---------- clean exit ----------

  lemma ResidualAtRest(coef: Coef, g: Graph, b: Vec, s: Update.State<real>, j: nat)
    requires Balanced(coef, g, b, s) && Update.AtRest(s) && j < |g|
    ensures s.table[j].v + s.table[j].delta == b[j] + Incoming(coef, g, View(coef, g, s).v, j)
  {
    Update.RestIsAtomic(LinearKernel(coef), g, s);
    DrainedCarriesNothing(View(coef, g, s).out, j);
    assert View(coef, g, s).v[j] + View(coef, g, s).d[j] + Linear.InFlight(View(coef, g, s).out, j)
           == b[j] + Incoming(coef, g, View(coef, g, s).v, j);
  }

  // When the schedule thread has exited every worker is parked with an empty buffer, and
  // the table that is dumped satisfies the residual equation with no in-flight term.
  lemma CleanExit(coef: Coef, g: Graph, b: Vec, ss: seq<Engine>, acts: seq<System.Act>, i: nat, j: nat)
    requires LinearSystemRun(coef, g, b, ss, acts) && i <= |acts| && ss[i].rounds.spc.Done? && j < |g|
    ensures Rounds.AllParked(ss[i].rounds) && Update.AtRest(ss[i].engine) && Update.Shape(g, ss[i].engine)
    ensures ss[i].engine.table[j].v + ss[i].engine.table[j].delta
            == b[j] + Incoming(coef, g, View(coef, g, ss[i].engine).v, j)
  {
    AllKernelsAreQuiet(coef);
    System.TableIsStill(LinearKernel(coef), g, seq(|g|, j => 0.0), b, ss, acts, i);
    BalancedAlways(coef, g, b, ss, acts, i);
    ResidualAtRest(coef, g, b, ss[i].engine, j);
  }

  // ---------- PageRank ----------

  ghost predicate PageRankSystemRun(g: Graph, ss: seq<Engine>, acts: seq<System.Act>) {
    LinearSystemRun(PageRankCoef, g, Start(g), ss, acts)
  }

  lemma StartMass(g: Graph)
    ensures L1(Start(g)) == 0.2 * |g| as real
  {
    TotalOfConstant(Start(g), 0.2);
    L1OfNonNegative(Start(g));
  }

  lemma FiveTimesAllowance(p: real, n: real, m: real, error: real)
    requires error <= 5.0 * m && m <= Scaled(p, 0.2 * n)
    ensures error <= Scaled(p, n)
  {
  }

  // After r full rounds the ranks are within 0.8^r * N of any exact solution, at every
  // moment and for every schedule.
  lemma RanksAfterPasses(g: Graph, ss: seq<Engine>, acts: seq<System.Act>, i: nat, x: Vec)
    requires PageRankSystemRun(g, ss, acts) && i <= |acts| && IsPageRank(g, x)
    ensures Update.Shape(g, ss[i].engine)
    ensures L1(Difference(x, Ranks(g, ss[i].engine).v)) <= Scaled(Power(0.8, ss[i].passes), |g| as real)
  {
    PageRankContracts(g);
    MassAfterPasses(PageRankCoef, g, Start(g), 0.8, ss, acts, i);
    var r := RunInside(PageRankCoef, g, Start(g), ss, acts);
    DistanceBound(g, r.us, r.acts, r.at[i], x);
    StartMass(g);
    FiveTimesAllowance(Power(0.8, ss[i].passes), |g| as real, Mass(Ranks(g, ss[i].engine)),
                       L1(Difference(x, Ranks(g, ss[i].engine).v)));
  }

  // ---------- the dumped result ----------

  // totalF1 of the dump: the sum of the deltas left in the table.
  ghost function TotalDelta(s: Update.State<real>): real {
    Total(seq(|s.table|, k requires 0 <= k < |s.table| => s.table[k].delta))
  }

  // totalF2 of the dump: the sum of the values.
  ghost function TotalValue(s: Update.State<real>): real {
    Total(seq(|s.table|, k requires 0 <= k < |s.table| => s.table[k].v))
  }

  lemma MassAtRest(g: Graph, s: Update.State<real>)
    requires Update.Inv(LinearKernel(PageRankCoef), g, s) && Update.AtRest(s) && NonNegative(Ranks(g, s))
    ensures Mass(Ranks(g, s)) == TotalDelta(s) && Total(Ranks(g, s).v) == TotalValue(s)
  {
    Update.RestIsAtomic(LinearKernel(PageRankCoef), g, s);
    DrainedCarriesNothing(Ranks(g, s).out, 0);
    L1OfNonNegative(Ranks(g, s).d);
    assert Ranks(g, s).d == seq(|s.table|, k requires 0 <= k < |s.table| => s.table[k].delta);
    assert Ranks(g, s).v == seq(|s.table|, k requires 0 <= k < |s.table| => s.table[k].v);
  }

  // After a clean exit, the distance of the dumped ranks to the solution can be read off the
  // log.  On every graph it is between the total delta that dump prints and five times that;
  // when every vertex has an out-edge it is five times that, and N less the total value.
  lemma DumpReportsItsError(g: Graph, ss: seq<Engine>, acts: seq<System.Act>, i: nat, x: Vec)
    requires PageRankSystemRun(g, ss, acts) && i <= |acts| && ss[i].rounds.spc.Done? && IsPageRank(g, x)
    ensures Update.Shape(g, ss[i].engine)
    ensures TotalDelta(ss[i].engine) <= Error(g, ss[i].engine, x) <= 5.0 * TotalDelta(ss[i].engine)
    ensures NoDangling(g) ==>
              Error(g, ss[i].engine, x) == 5.0 * TotalDelta(ss[i].engine) == |g| as real - TotalValue(ss[i].engine)
  {
    AllKernelsAreQuiet(PageRankCoef);
    System.TableIsStill(LinearKernel(PageRankCoef), g, seq(|g|, j => 0.0), Start(g), ss, acts, i);
    var r := RunInside(PageRankCoef, g, Start(g), ss, acts);
    RunShape(PageRankCoef, g, Start(g), r.us, r.acts, r.at[i]);
    BudgetAlways(g, r.us, r.acts, r.at[i]);
    MissingIsError(g, r.us, r.acts, r.at[i], x);
    DistanceBound(g, r.us, r.acts, r.at[i], x);
    DistanceIsPendingMass(g, r.us, r.acts, r.at[i], x);
    BalancedAlways(PageRankCoef, g, Start(g), ss, acts, i);
    MassAtRest(g, ss[i].engine);
  }

  // ---------- stopping ----------

  // Scans of the engine's table, at moments of the engine's run.
  ghost predicate ReadsEngine(ss: seq<Engine>, scan: Scan, values: seq<real>) {
    && |values| == |scan.order| == |scan.moments|
    && forall i | 0 <= i < |values| ::
         scan.moments[i] < |ss| && scan.order[i] < |ss[scan.moments[i]].engine.table|
         && values[i] == ss[scan.moments[i]].engine.table[scan.order[i]].v
  }

  // The same scan at the corresponding moments of the run inside.
  lemma ScanInside(coef: Coef, g: Graph, ss: seq<Engine>, acts: seq<System.Act>, r: Inside<real>,
                   scan: Scan, values: seq<real>, from: nat, until: nat) returns (inner: Scan)
    requires Projects(LinearKernel(coef), g, ss, acts, |acts|, r) && |ss| == |r.at| == |acts| + 1
    requires from <= until <= |acts| && Spans(scan, |g|, from, until) && ReadsEngine(ss, scan, values)
    ensures Spans(inner, |g|, r.at[from], r.at[until]) && Reads(r.us, inner, values)
  {
    inner := Scan(scan.order, seq(|scan.moments|, i requires 0 <= i < |scan.moments| => r.at[scan.moments[i]]));
    forall i | 0 <= i < |scan.moments| ensures r.at[from] <= inner.moments[i] <= r.at[until] {
      MomentsAdvance(ss, acts, r, from, scan.moments[i]);
      MomentsAdvance(ss, acts, r, scan.moments[i], until);
    }
  }

  // End to end: if, between two scans that differ by at most the threshold, the completed
  // passes grow by more than the round in progress can account for, then from the second scan
  // on, and in the table that is dumped, the ranks are within 4 times the threshold of the
  // solution.
  lemma StoppedRunIsSound(g: Graph, ss: seq<Engine>, acts: seq<System.Act>, end1: nat, start2: nat,
                          scan1: Scan, values1: seq<real>, scan2: Scan, values2: seq<real>,
                          threshold: real, now: nat, x: Vec)
    requires PageRankSystemRun(g, ss, acts) && end1 <= start2 <= now <= |acts| && IsPageRank(g, x)
    requires Spans(scan1, |g|, 0, end1) && ReadsEngine(ss, scan1, values1)
    requires Spans(scan2, |g|, start2, |acts|) && ReadsEngine(ss, scan2, values2)
    requires ss[start2].passes >= ss[end1].passes + (if System.Resting(ss[end1]) then 1 else 2)
    requires TermCheck.Settles([Total(values1), Total(values2)], 1, threshold)
    ensures Update.Shape(g, ss[now].engine) && Error(g, ss[now].engine, x) <= 4.0 * threshold
  {
    AllKernelsAreQuiet(PageRankCoef);
    var K, v0 := LinearKernel(PageRankCoef), seq(|g|, j => 0.0);
    var r := RunInside(PageRankCoef, g, Start(g), ss, acts);
    var b := PassStart(K, g, v0, Start(g), ss, acts, end1, start2);
    PassInside(K, g, v0, Start(g), ss, acts, r, b, start2);
    assert Spans(scan1, |g|, 0, b);
    var inner1 := ScanInside(PageRankCoef, g, ss, acts, r, scan1, values1, 0, b);
    var inner2 := ScanInside(PageRankCoef, g, ss, acts, r, scan2, values2, start2, |acts|);
    MomentsAdvance(ss, acts, r, start2, now);
    PassMakesStopSound(g, r.us, r.acts, r.at[b], r.at[start2], inner1, values1, inner2, values2,
                       threshold, r.at[now], x);
  }
}
