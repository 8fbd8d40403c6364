/**
 * Shortest path on the locked program: every run, every interleaving.
 */
module ShortestPathRuns {
  import opened Kernels
  import opened Update
  import opened Walks
  import opened MinPlus
  import Atomic

  // init_v and init_c.
  function StartValues(g: Graph): (v: seq<Dist>)
    ensures |v| == |g| && forall k | 0 <= k < |g| :: v[k] == Top
  {
    seq(|g|, k => Top)
  }

  function StartDeltas(g: Graph, src: nat): (d: seq<Dist>)
    ensures |d| == |g| && forall k | 0 <= k < |g| :: d[k] == if k == src then Fin(0.0) else Top
  {
    seq(|g|, k => if k == src then Fin(0.0) else Top)
  }

  // A run from the loaded table.  The match keeps the conjunction one fact where it is proved.
  ghost predicate ShortestPathRun(g: Graph, src: nat, ss: seq<State<Dist>>, acts: seq<Act>) {
    && |ss| == |acts| + 1
    && match ss[0] {
         case State(_, _, _) =>
           && IsRun(ShortestPath(), g, ss, acts)
           && Initial(ShortestPath(), g, ss[0], StartValues(g), StartDeltas(g, src))
       }
  }

  ghost function Paths(g: Graph, s: State<Dist>): Distances
    requires Shape(g, s)
  {
    Abstract(ShortestPath(), g, s)
  }

  // Sound, with the edge invariant.  One conjunction under a match, so that it stays one fact where it is proved.
  ghost predicate Honest(g: Graph, src: nat, s: State<Dist>) {
    match s
    case State(_, _, _) =>
      && Inv(ShortestPath(), g, s) && Atomic.Shape(g, Paths(g, s))
      && Grounded(g, src, Paths(g, s)) && EdgesOk(g, src, Paths(g, s))
  }

  lemma InitialHonest(g: Graph, src: nat, s: State<Dist>)
    requires Initial(ShortestPath(), g, s, StartValues(g), StartDeltas(g, src))
    ensures Honest(g, src, s) && Atomic.Drained(Paths(g, s)) && RowsCover(g, src, Paths(g, s), 0)
  {
    InitialInv(ShortestPath(), g, s, StartValues(g), StartDeltas(g, src));
    AbstractShape(ShortestPath(), g, s);
    var a := Paths(g, s);
    forall k | 0 <= k < |g| ensures Attained(g, src, k, a.v[k]) && Attained(g, src, k, a.d[k]) {
      if k == src {
        assert IsWalk(g, src, [], k) && Length(g, []) == 0.0;
      }
    }
    forall i, e | 0 <= i < |g| && 0 <= e < |g[i]| ensures EdgeOk(g, a, i, e) {
      assert Plus(a.v[i], g[i][e].weight) == Top;
    }
  }

  lemma HonestAdvance(g: Graph, src: nat, s: State<Dist>, a: Act, s': State<Dist>)
    requires Simulates(ShortestPath(), g, s, a, s') && Honest(g, src, s)
    ensures Honest(g, src, s')
    ensures forall k | 0 <= k < |g| :: Leq(s'.table[k].v, s.table[k].v)
  {
    if Effect(s, a).Some? {
      var b := Effect(s, a).value;
      GroundedStep(g, src, Paths(g, s), b);
      EdgesStep(g, src, Paths(g, s), b);
      forall k | 0 <= k < |g| ensures Leq(s'.table[k].v, s.table[k].v) {
        ValueNeverGrows(g, Paths(g, s), b, k);
        assert Paths(g, s').v[k] == s'.table[k].v && Paths(g, s).v[k] == s.table[k].v;
      }
    } else {
      forall k | 0 <= k < |g| ensures s'.table[k].v == s.table[k].v {
        assert Paths(g, s').v[k] == Paths(g, s).v[k];
      }
    }
  }

  lemma HonestAlongStep(g: Graph, src: nat, ss: seq<State<Dist>>, acts: seq<Act>, i: nat)
    requires ShortestPathRun(g, src, ss, acts) && 0 < i <= |acts| && Honest(g, src, ss[i - 1])
    ensures Simulates(ShortestPath(), g, ss[i - 1], acts[i - 1], ss[i]) && Honest(g, src, ss[i])
    ensures forall k | 0 <= k < |g| :: Leq(ss[i].table[k].v, ss[i - 1].table[k].v)
  {
    StepOfRun(ShortestPath(), g, ss, acts, i);
    HonestAdvance(g, src, ss[i - 1], acts[i - 1], ss[i]);
  }

  // At every moment of every run each finite value, delta and undelivered message is the
  // length of a real walk, and the edge invariant holds.
  lemma {:induction false} HonestAlways(g: Graph, src: nat, ss: seq<State<Dist>>, acts: seq<Act>, i: nat)
    requires ShortestPathRun(g, src, ss, acts) && i <= |acts|
    ensures Honest(g, src, ss[i])
  {
    if i == 0 {
      InitialHonest(g, src, ss[0]);
    } else {
      HonestAlways(g, src, ss, acts, i - 1);
      HonestAlongStep(g, src, ss, acts, i);
      assert Honest(g, src, ss[i]);
    }
  }

  // Soundness on the stored table, read without locks at any moment.
  lemma StoredValuesAreWalks(g: Graph, src: nat, ss: seq<State<Dist>>, acts: seq<Act>, i: nat, k: nat)
    requires ShortestPathRun(g, src, ss, acts) && i <= |acts| && k < |g|
    ensures Shape(g, ss[i]) && Attained(g, src, k, ss[i].table[k].v)
  {
    HonestAlways(g, src, ss, acts, i);
    assert Attained(g, src, k, Paths(g, ss[i]).v[k]);
  }

  lemma StoredValueStep(g: Graph, src: nat, ss: seq<State<Dist>>, acts: seq<Act>, i: nat, k: nat)
    requires ShortestPathRun(g, src, ss, acts) && 0 < i <= |acts| && k < |g|
    ensures Shape(g, ss[i - 1]) && Shape(g, ss[i]) && Leq(ss[i].table[k].v, ss[i - 1].table[k].v)
  {
    HonestAlways(g, src, ss, acts, i - 1);
    HonestAlongStep(g, src, ss, acts, i);
  }

  lemma {:induction false} StoredValuesNeverGrow(g: Graph, src: nat, ss: seq<State<Dist>>, acts: seq<Act>,
                                                 i: nat, j: nat, k: nat)
    requires ShortestPathRun(g, src, ss, acts) && i <= j <= |acts| && k < |g|
    ensures Shape(g, ss[i]) && Shape(g, ss[j]) && Leq(ss[j].table[k].v, ss[i].table[k].v)
  {
    if i == j {
      StoredValuesAreWalks(g, src, ss, acts, i, k);
    } else {
      StoredValuesNeverGrow(g, src, ss, acts, i, j - 1, k);
      StoredValueStep(g, src, ss, acts, j, k);
    }
  }

  // ---------- exactness from the priority cache ----------

  lemma HonestAndSettled(g: Graph, src: nat, s: State<Dist>, k: nat)
    requires Honest(g, src, s) && AtRest(s) && k < |g| == |s.table|
    requires forall j | 0 <= j < |g| :: s.table[j].pri == ShortestPath().lowest
    ensures IsDistance(g, src, k, s.table[k].v)
  {
    RestIsAtomic(ShortestPath(), g, s);
    forall j | 0 <= j < |g| ensures Leq(Paths(g, s).v[j], Paths(g, s).d[j]) {
      ZeroPriorityMeansSettled(s.table[j].v, s.table[j].delta);
    }
    SettledIsExact(g, src, Paths(g, s), k);
  }

  // If nothing is in flight and every cached priority is 0, every stored value is the
  // distance from the source, whatever the signs of the weights.
  lemma ZeroPrioritiesMeanExact(g: Graph, src: nat, ss: seq<State<Dist>>, acts: seq<Act>, i: nat, k: nat)
    requires ShortestPathRun(g, src, ss, acts) && i <= |acts| && AtRest(ss[i]) && k < |g| == |ss[i].table|
    requires forall j | 0 <= j < |g| :: ss[i].table[j].pri == ShortestPath().lowest
    ensures IsDistance(g, src, k, ss[i].table[k].v)
  {
    HonestAlways(g, src, ss, acts, i);
    HonestAndSettled(g, src, ss[i], k);
  }

  // ---------- passes ----------

  lemma PassAdvance(g: Graph, src: nat, s: State<Dist>, a: Act, s': State<Dist>, h: int, done: set<nat>)
    requires Simulates(ShortestPath(), g, s, a, s') && PassCover(g, src, Paths(g, s), h, done)
    ensures PassCover(g, src, Paths(g, s'), h, done + Folds(s, a))
  {
    if Effect(s, a).Some? {
      PassCoverStep(g, src, Paths(g, s), Effect(s, a).value, h, done);
    } else {
      assert done + {} == done;
    }
  }

  // One conjunction under a match, so that it stays one fact where it is proved.
  ghost predicate Covered(g: Graph, src: nat, s: State<Dist>, h: int, done: set<nat>) {
    match s
    case State(_, _, _) => Shape(g, s) && Atomic.Shape(g, Paths(g, s)) && PassCover(g, src, Paths(g, s), h, done)
  }

  lemma SimulatesAlongStep(g: Graph, src: nat, ss: seq<State<Dist>>, acts: seq<Act>, i: nat)
    requires ShortestPathRun(g, src, ss, acts) && 0 < i <= |acts|
    ensures Simulates(ShortestPath(), g, ss[i - 1], acts[i - 1], ss[i])
  {
    InitialInv(ShortestPath(), g, ss[0], StartValues(g), StartDeltas(g, src));
    RunStep(ShortestPath(), g, ss, acts, i);
  }

  lemma PassAlongStep(g: Graph, src: nat, ss: seq<State<Dist>>, acts: seq<Act>, i: nat, h: int, done: set<nat>)
    requires ShortestPathRun(g, src, ss, acts) && 0 < i <= |acts| && Covered(g, src, ss[i - 1], h, done)
    ensures Covered(g, src, ss[i], h, done + Folds(ss[i - 1], acts[i - 1]))
  {
    SimulatesAlongStep(g, src, ss, acts, i);
    PassAdvance(g, src, ss[i - 1], acts[i - 1], ss[i], h, done);
  }

  lemma {:induction false} PassAlong(g: Graph, src: nat, ss: seq<State<Dist>>, acts: seq<Act>, b: nat, e: nat, h: int)
    requires ShortestPathRun(g, src, ss, acts) && b <= e <= |acts| && Covered(g, src, ss[b], h, {})
    ensures Covered(g, src, ss[e], h, Absorbed(ss, acts, b, e))
  {
    if b < e {
      PassAlong(g, src, ss, acts, b, e - 1, h);
      PassAlongStep(g, src, ss, acts, e, h, Absorbed(ss, acts, b, e - 1));
      assert Absorbed(ss, acts, b, e) == Absorbed(ss, acts, b, e - 1) + Folds(ss[e - 1], acts[e - 1]);
      assert Covered(g, src, ss[e], h, Absorbed(ss, acts, b, e));
    }
  }

  // moments are the boundaries of consecutive full passes, starting with the run.
  ghost predicate FullPasses(g: Graph, ss: seq<State<Dist>>, acts: seq<Act>, moments: seq<nat>) {
    && |moments| > 0 && moments[0] == 0
    && (forall r | 0 <= r < |moments| :: moments[r] <= |acts| < |ss| && AtRest(ss[moments[r]]))
    && (forall r | 0 < r < |moments| ::
          moments[r - 1] <= moments[r] && CoversAll(Absorbed(ss, acts, moments[r - 1], moments[r]), |g|))
  }

  lemma EndOfPass(g: Graph, src: nat, s: State<Dist>, h: nat, done: set<nat>)
    requires Honest(g, src, s) && AtRest(s) && Covered(g, src, s, h, done) && CoversAll(done, |g|)
    ensures Shape(g, s) && ValuesCover(g, src, Paths(g, s), h) && Covered(g, src, s, h + 1, {})
  {
    RestIsAtomic(ShortestPath(), g, s);
    HorizonGrows(g, src, Paths(g, s), h);
  }

  // After r full concurrent passes every value is at most the length of every walk of
  // fewer than r hops.
  lemma {:induction false} PassesExtendHorizon(g: Graph, src: nat, ss: seq<State<Dist>>, acts: seq<Act>,
                                               moments: seq<nat>, r: nat)
    requires ShortestPathRun(g, src, ss, acts) && FullPasses(g, ss, acts, moments) && r < |moments|
    ensures Covered(g, src, ss[moments[r]], r, {})
    ensures Shape(g, ss[moments[r]]) && ValuesCover(g, src, Paths(g, ss[moments[r]]), r - 1)
  {
    HonestAlways(g, src, ss, acts, moments[r]);
    if r == 0 {
      InitialHonest(g, src, ss[0]);
    } else {
      PassesExtendHorizon(g, src, ss, acts, moments, r - 1);
      PassAlong(g, src, ss, acts, moments[r - 1], moments[r], r - 1);
      EndOfPass(g, src, ss[moments[r]], r - 1, Absorbed(ss, acts, moments[r - 1], moments[r]));
    }
  }

  lemma HonestAndCovered(g: Graph, src: nat, s: State<Dist>, k: nat)
    requires Honest(g, src, s) && NonNegativeWeights(g) && k < |g| == |s.table|
    requires Shape(g, s) && ValuesCover(g, src, Paths(g, s), |g| - 1)
    ensures IsDistance(g, src, k, s.table[k].v)
  {
    CoveredIsExact(g, src, Paths(g, s), k);
  }

  // After |V| full passes the table holds the distances exactly.
  lemma EnoughPassesAreExact(g: Graph, src: nat, ss: seq<State<Dist>>, acts: seq<Act>, moments: seq<nat>, k: nat)
    requires ShortestPathRun(g, src, ss, acts) && FullPasses(g, ss, acts, moments)
    requires |moments| > |g| && k < |g| && NonNegativeWeights(g)
    ensures Shape(g, ss[moments[|g|]]) && IsDistance(g, src, k, ss[moments[|g|]].table[k].v)
  {
    PassesExtendHorizon(g, src, ss, acts, moments, |g|);
    HonestAlways(g, src, ss, acts, moments[|g|]);
    HonestAndCovered(g, src, ss[moments[|g|]], k);
  }
}
