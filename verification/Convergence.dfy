/**
 * Runs of the locked program under a linear kernel: what holds for every graph, thread
 * count and interleaving.
 */
module Convergence {
  import opened Vectors
  import opened Kernels
  import opened Linear
  import opened Update
  import Atomic

  ghost function View(coef: Coef, g: Graph, s: State<real>): Atomic.State<real>
    requires Shape(g, s)
  {
    Abstract(LinearKernel(coef), g, s)
  }

  // A run from the initial values b.  The match keeps the conjunction one fact where it is proved.
  ghost predicate LinearRun(coef: Coef, g: Graph, b: Vec, ss: seq<State<real>>, acts: seq<Act>) {
    && |ss| == |acts| + 1
    && match ss[0] {
         case State(_, _, _) =>
           && IsRun(LinearKernel(coef), g, ss, acts)
           && Initial(LinearKernel(coef), g, ss[0], seq(|g|, j => 0.0), b)
       }
  }

  lemma LinearRunStep(coef: Coef, g: Graph, b: Vec, ss: seq<State<real>>, acts: seq<Act>, i: nat)
    requires LinearRun(coef, g, b, ss, acts) && 0 < i <= |acts|
    ensures Simulates(LinearKernel(coef), g, ss[i - 1], acts[i - 1], ss[i])
  {
    AllKernelsAreQuiet(coef);
    InitialInv(LinearKernel(coef), g, ss[0], seq(|g|, j => 0.0), b);
    RunStep(LinearKernel(coef), g, ss, acts, i);
  }

  lemma InitialResidual(coef: Coef, g: Graph, b: Vec, s: State<real>)
    requires Initial(LinearKernel(coef), g, s, seq(|g|, j => 0.0), b)
    ensures Inv(LinearKernel(coef), g, s) && Residual(coef, g, b, View(coef, g, s))
    ensures Mass(View(coef, g, s)) == L1(b)
  {
    InitialInv(LinearKernel(coef), g, s, seq(|g|, j => 0.0), b);
    var a := View(coef, g, s);
    forall j | 0 <= j < |g| ensures a.v[j] + a.d[j] + Linear.InFlight(a.out, j) == b[j] + Incoming(coef, g, a.v, j) {
      IncomingOfZero(coef, g, a.v, j);
      DrainedCarriesNothing(a.out, j);
    }
    DrainedCarriesNothing(a.out, 0);
  }

  lemma ResidualAdvance(coef: Coef, g: Graph, b: Vec, s: State<real>, a: Act, s': State<real>)
    requires Simulates(LinearKernel(coef), g, s, a, s') && |b| == |g| && Residual(coef, g, b, View(coef, g, s))
    ensures Residual(coef, g, b, View(coef, g, s'))
  {
    if Effect(s, a).Some? {
      ResidualStep(coef, g, b, View(coef, g, s), Effect(s, a).value);
    }
  }

  // The state is well formed and satisfies the residual equation.
  ghost predicate Balanced(coef: Coef, g: Graph, b: Vec, s: State<real>) {
    && Inv(LinearKernel(coef), g, s) && Atomic.Shape(g, View(coef, g, s))
    && |b| == |g| && Residual(coef, g, b, View(coef, g, s))
  }

  lemma ResidualAlongStep(coef: Coef, g: Graph, b: Vec, ss: seq<State<real>>, acts: seq<Act>, i: nat)
    requires LinearRun(coef, g, b, ss, acts) && 0 < i <= |acts| && Balanced(coef, g, b, ss[i - 1])
    ensures Balanced(coef, g, b, ss[i])
  {
    LinearRunStep(coef, g, b, ss, acts, i);
    ResidualAdvance(coef, g, b, ss[i - 1], acts[i - 1], ss[i]);
  }

  // The residual equation holds at every moment of every run.
  lemma {:induction false} ResidualAlways(coef: Coef, g: Graph, b: Vec, ss: seq<State<real>>, acts: seq<Act>, i: nat)
    requires LinearRun(coef, g, b, ss, acts) && i <= |acts|
    ensures Balanced(coef, g, b, ss[i])
  {
    if i == 0 {
      InitialResidual(coef, g, b, ss[0]);
      AbstractShape(LinearKernel(coef), g, ss[0]);
    } else {
      ResidualAlways(coef, g, b, ss, acts, i - 1);
      ResidualAlongStep(coef, g, b, ss, acts, i);
      assert Balanced(coef, g, b, ss[i]);
    }
  }

  // ---------- the equation on the table itself ----------

  // The tail of the buffer that its thread has still to deliver.
  ghost function Remaining(g: Graph, s: State<real>): Buffers
    requires Shape(g, s)
  {
    seq(|s.threads|, t requires 0 <= t < |s.threads| =>
      var th := s.threads[t];
      assert ThreadShape(|g|, th);
      if th.pc.Delivered? then th.output[th.iter + 1..] else th.output[th.iter..])
  }

  // Messages that g_func is about to generate for a delta that v already contains.
  ghost function Ungenerated(coef: Coef, g: Graph, s: State<real>): Buffers
    requires Shape(g, s)
  {
    seq(|s.threads|, t requires 0 <= t < |s.threads| =>
      var th := s.threads[t];
      assert ThreadShape(|g|, th);
      if th.pc.Accumulated? then Messages(LinearKernel(coef), g[th.pc.k], s.table[th.pc.k].delta) else [])
  }

  lemma {:induction false} InFlightSplits(out: Buffers, a: Buffers, b: Buffers, j: nat)
    requires |out| == |a| == |b|
    requires forall t | 0 <= t < |out| :: (a[t] == [] && out[t] == b[t]) || (b[t] == [] && out[t] == a[t])
    ensures Linear.InFlight(out, j) == Linear.InFlight(a, j) + Linear.InFlight(b, j)
  {
    if |out| > 0 {
      InFlightSplits(out[1..], a[1..], b[1..], j);
    }
  }

  // In terms of stored fields, with the correction for critical sections in progress: a
  // folded delta is still stored, and its messages may not have been generated.
  lemma ResidualOfTable(coef: Coef, g: Graph, b: Vec, ss: seq<State<real>>, acts: seq<Act>, i: nat, j: nat)
    requires LinearRun(coef, g, b, ss, acts) && i <= |acts| && j < |g|
    ensures Shape(g, ss[i])
    ensures var s := ss[i];
            s.table[j].v + s.table[j].delta + Linear.InFlight(Remaining(g, s), j)
            == b[j] + Incoming(coef, g, View(coef, g, s).v, j)
               + (if Folded(s, j) then s.table[j].delta else 0.0)
               - Linear.InFlight(Ungenerated(coef, g, s), j)
  {
    ResidualAlways(coef, g, b, ss, acts, i);
    var s, a := ss[i], View(coef, g, ss[i]);
    forall t | 0 <= t < |s.threads|
      ensures (Remaining(g, s)[t] == [] && a.out[t] == Ungenerated(coef, g, s)[t])
           || (Ungenerated(coef, g, s)[t] == [] && a.out[t] == Remaining(g, s)[t])
    {
      assert ThreadShape(|g|, s.threads[t]);
    }
    InFlightSplits(a.out, Remaining(g, s), Ungenerated(coef, g, s), j);
    assert a.v[j] + a.d[j] + Linear.InFlight(a.out, j) == b[j] + Incoming(coef, g, a.v, j);
  }

  // ---------- mass ----------

  lemma MassAdvance(coef: Coef, g: Graph, s: State<real>, a: Act, s': State<real>, done: set<nat>, c: real)
    requires Simulates(LinearKernel(coef), g, s, a, s')
    requires Contractive(coef, g, c) && 0.0 <= c <= 1.0
    ensures Mass(View(coef, g, s')) <= Mass(View(coef, g, s))
    ensures Potential(View(coef, g, s'), done + Folds(s, a), c) <= Potential(View(coef, g, s), done, c)
  {
    if Effect(s, a).Some? {
      MassStep(coef, g, View(coef, g, s), Effect(s, a).value, c);
      PotentialStep(coef, g, View(coef, g, s), Effect(s, a).value, done, c);
    } else {
      assert done + {} == done;
    }
  }

  lemma MassAlongStep(coef: Coef, g: Graph, b: Vec, ss: seq<State<real>>, acts: seq<Act>, i: nat,
                      done: set<nat>, c: real)
    requires LinearRun(coef, g, b, ss, acts) && 0 < i <= |acts|
    requires Contractive(coef, g, c) && 0.0 <= c <= 1.0
    ensures Shape(g, ss[i - 1]) && Shape(g, ss[i])
    ensures Mass(View(coef, g, ss[i])) <= Mass(View(coef, g, ss[i - 1]))
    ensures Potential(View(coef, g, ss[i]), done + Folds(ss[i - 1], acts[i - 1]), c)
            <= Potential(View(coef, g, ss[i - 1]), done, c)
  {
    LinearRunStep(coef, g, b, ss, acts, i);
    MassAdvance(coef, g, ss[i - 1], acts[i - 1], ss[i], done, c);
  }

  lemma RunShape(coef: Coef, g: Graph, b: Vec, ss: seq<State<real>>, acts: seq<Act>, i: nat)
    requires LinearRun(coef, g, b, ss, acts) && i <= |acts|
    ensures Shape(g, ss[i]) && Atomic.Shape(g, View(coef, g, ss[i]))
  {
    ResidualAlways(coef, g, b, ss, acts, i);
  }

  // The mass has not grown.  One conjunction under a match, so that it stays one fact where it is proved.
  ghost predicate NoHeavier(coef: Coef, g: Graph, s: State<real>, s': State<real>) {
    match s
    case State(_, _, _) => Shape(g, s) && Shape(g, s') && Mass(View(coef, g, s')) <= Mass(View(coef, g, s))
  }

  lemma NoHeavierAlongStep(coef: Coef, g: Graph, b: Vec, ss: seq<State<real>>, acts: seq<Act>, s: State<real>,
                           j: nat, c: real)
    requires LinearRun(coef, g, b, ss, acts) && 0 < j <= |acts|
    requires Contractive(coef, g, c) && 0.0 <= c <= 1.0 && NoHeavier(coef, g, s, ss[j - 1])
    ensures NoHeavier(coef, g, s, ss[j])
  {
    MassAlongStep(coef, g, b, ss, acts, j, {}, c);
  }

  lemma {:induction false} MassNeverGrows(coef: Coef, g: Graph, b: Vec, ss: seq<State<real>>, acts: seq<Act>,
                                          i: nat, j: nat, c: real)
    requires LinearRun(coef, g, b, ss, acts) && i <= j <= |acts|
    requires Contractive(coef, g, c) && 0.0 <= c <= 1.0
    ensures NoHeavier(coef, g, ss[i], ss[j])
  {
    if i == j {
      RunShape(coef, g, b, ss, acts, i);
    } else {
      MassNeverGrows(coef, g, b, ss, acts, i, j - 1, c);
      NoHeavierAlongStep(coef, g, b, ss, acts, ss[i], j, c);
      assert NoHeavier(coef, g, ss[i], ss[j]);
    }
  }

  // How the potential has moved since moment i.
  // One conjunction under a match, so that it stays one fact where it is proved.
  ghost predicate Descends(coef: Coef, g: Graph, s: State<real>, s': State<real>, done: set<nat>, c: real) {
    match s
    case State(_, _, _) =>
      && Shape(g, s) && Shape(g, s')
      && Potential(View(coef, g, s'), done, c) <= Potential(View(coef, g, s), {}, c)
  }

  lemma DescendsAlongStep(coef: Coef, g: Graph, b: Vec, ss: seq<State<real>>, acts: seq<Act>, s: State<real>,
                          j: nat, done: set<nat>, c: real)
    requires LinearRun(coef, g, b, ss, acts) && 0 < j <= |acts|
    requires Contractive(coef, g, c) && 0.0 <= c <= 1.0 && Descends(coef, g, s, ss[j - 1], done, c)
    ensures Descends(coef, g, s, ss[j], done + Folds(ss[j - 1], acts[j - 1]), c)
  {
    MassAlongStep(coef, g, b, ss, acts, j, done, c);
  }

  lemma {:induction false} PotentialAlongPass(coef: Coef, g: Graph, b: Vec, ss: seq<State<real>>, acts: seq<Act>,
                                              i: nat, j: nat, c: real)
    requires LinearRun(coef, g, b, ss, acts) && i <= j <= |acts|
    requires Contractive(coef, g, c) && 0.0 <= c <= 1.0
    ensures Descends(coef, g, ss[i], ss[j], Absorbed(ss, acts, i, j), c)
  {
    if i == j {
      RunShape(coef, g, b, ss, acts, i);
    } else {
      var done := Absorbed(ss, acts, i, j - 1);
      assert Descends(coef, g, ss[i], ss[j - 1], done, c) by {
        PotentialAlongPass(coef, g, b, ss, acts, i, j - 1, c);
      }
      DescendsAlongStep(coef, g, b, ss, acts, ss[i], j, done, c);
      assert Descends(coef, g, ss[i], ss[j], Absorbed(ss, acts, i, j), c);
    }
  }

  lemma RestIsDrained(coef: Coef, g: Graph, b: Vec, ss: seq<State<real>>, acts: seq<Act>, i: nat)
    requires LinearRun(coef, g, b, ss, acts) && i <= |acts| && AtRest(ss[i])
    ensures Shape(g, ss[i]) && Atomic.Drained(View(coef, g, ss[i]))
  {
    ResidualAlways(coef, g, b, ss, acts, i);
    RestIsAtomic(LinearKernel(coef), g, ss[i]);
  }

  // A stretch that starts with nothing in flight and folds every vertex at least once, in
  // any order and with any overlap of threads, leaves at most the fraction c of the mass.
  lemma PassContracts(coef: Coef, g: Graph, b: Vec, ss: seq<State<real>>, acts: seq<Act>, i: nat, j: nat, c: real)
    requires LinearRun(coef, g, b, ss, acts) && i <= j <= |acts|
    requires Contractive(coef, g, c) && 0.0 <= c <= 1.0
    requires AtRest(ss[i]) && CoversAll(Absorbed(ss, acts, i, j), |g|)
    ensures Shape(g, ss[i]) && Shape(g, ss[j])
    ensures Mass(View(coef, g, ss[j])) <= Scaled(c, Mass(View(coef, g, ss[i])))
  {
    PotentialAlongPass(coef, g, b, ss, acts, i, j, c);
    RestIsDrained(coef, g, b, ss, acts, i);
    PotentialAtStart(View(coef, g, ss[i]), c);
    PotentialAtEnd(View(coef, g, ss[j]), Absorbed(ss, acts, i, j), c);
  }

  // ---------- error ----------

  lemma DistanceToSolution(coef: Coef, g: Graph, b: Vec, ss: seq<State<real>>, acts: seq<Act>, i: nat, x: Vec, c: real)
    requires LinearRun(coef, g, b, ss, acts) && i <= |acts|
    requires Contractive(coef, g, c) && Solves(coef, g, b, x)
    ensures Shape(g, ss[i])
    ensures Scaled(1.0 - c, L1(Difference(x, View(coef, g, ss[i]).v))) <= Mass(View(coef, g, ss[i]))
  {
    ResidualAlways(coef, g, b, ss, acts, i);
    ErrorBound(coef, g, b, View(coef, g, ss[i]), x, c);
  }

  lemma BalancedAreClose(coef: Coef, g: Graph, b: Vec, s: State<real>, s': State<real>, c: real)
    requires Balanced(coef, g, b, s) && Balanced(coef, g, b, s') && Contractive(coef, g, c)
    ensures Scaled(1.0 - c, L1(Difference(View(coef, g, s).v, View(coef, g, s').v)))
            <= Mass(View(coef, g, s)) + Mass(View(coef, g, s'))
  {
    StatesAreClose(coef, g, b, View(coef, g, s), View(coef, g, s'), c);
  }

  // Two runs of the same problem, with different schedules and different thread counts.
  lemma ScheduleIndependence(coef: Coef, g: Graph, b: Vec, ss: seq<State<real>>, acts: seq<Act>, i: nat,
                             tt: seq<State<real>>, bcts: seq<Act>, j: nat, c: real)
    requires LinearRun(coef, g, b, ss, acts) && i <= |acts|
    requires LinearRun(coef, g, b, tt, bcts) && j <= |bcts|
    requires Contractive(coef, g, c)
    ensures Shape(g, ss[i]) && Shape(g, tt[j])
    ensures Scaled(1.0 - c, L1(Difference(View(coef, g, ss[i]).v, View(coef, g, tt[j]).v)))
            <= Mass(View(coef, g, ss[i])) + Mass(View(coef, g, tt[j]))
  {
    ResidualAlways(coef, g, b, ss, acts, i);
    ResidualAlways(coef, g, b, tt, bcts, j);
    BalancedAreClose(coef, g, b, ss[i], tt[j], c);
  }
}
