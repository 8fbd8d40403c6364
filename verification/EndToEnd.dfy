/**
 * Runs from the loaded table to the end: any number of workers can compute PageRank to any
 * accuracy, and shortest paths exactly, by full passes.
 */
module EndToEnd {
  import opened Vectors
  import opened Kernels
  import opened Linear
  import opened Plans
  import opened FullRuns
  import opened PageRankRuns
  import opened PageRankStopping
  import opened Walks
  import opened ShortestPathRuns
  import Rounds
  import System
  import Update
  import RankSystem
  import PathSystem

  // ---------- the protocol by itself ----------

  // The steps of the protocol inside a run of the engine.
  lemma {:induction false} RoundsInside<V(!new)>(K: Kernel<V>, g: Graph, v0: seq<V>, d0: seq<V>,
                                                 ss: seq<System.State<V>>, acts: seq<System.Act>, i: nat)
    returns (rs: seq<Rounds.State>, bcts: seq<Rounds.Act>)
    requires System.IsRun(K, g, v0, d0, ss, acts) && i <= |acts|
    ensures Rounds.IsRun(rs, bcts) && rs[0] == ss[0].rounds && rs[|bcts|] == ss[i].rounds
  {
    if i == 0 {
      rs, bcts := [ss[0].rounds], [];
    } else {
      rs, bcts := RoundsInside(K, g, v0, d0, ss, acts, i - 1);
      assert System.Step(K, g, ss[i - 1], acts[i - 1], ss[i]);
      if acts[i - 1].Protocol? {
        ExtendRounds(rs, bcts, acts[i - 1].a);
        rs, bcts := rs + [ss[i].rounds], bcts + [acts[i - 1].a];
      }
    }
  }

  lemma ExtendRounds(rs: seq<Rounds.State>, bcts: seq<Rounds.Act>, a: Rounds.Act)
    requires Rounds.IsRun(rs, bcts) && Rounds.Enabled(rs[|bcts|], a)
    ensures Rounds.IsRun(rs + [Rounds.Apply(rs[|bcts|], a)], bcts + [a])
  {
    var tt, more := rs + [Rounds.Apply(rs[|bcts|], a)], bcts + [a];
    forall i | 0 <= i < |more| ensures Rounds.Enabled(tt[i], more[i]) && tt[i + 1] == Rounds.Apply(tt[i], more[i]) {
      if i < |bcts| {
        assert tt[i] == rs[i] && tt[i + 1] == rs[i + 1] && more[i] == bcts[i];
        assert Rounds.Enabled(rs[i], bcts[i]);
      }
    }
  }

  // For any number of workers and of rounds some run completes exactly so many rounds and is back
  // at the head of the loop, and another one ends there.
  lemma AnyNumberOfRounds(n: nat, r: nat, ends: bool) returns (rs: seq<Rounds.State>, bcts: seq<Rounds.Act>)
    requires n > 0
    ensures Rounds.IsRun(rs, bcts) && |rs[0].wpc| == n && rs[|bcts|].round == r
    ensures rs[|bcts|].spc == if ends then Rounds.Done else Rounds.Get
  {
    var j := Job(ShortestPath(), [], [], [], n);
    AllKernelsAreQuiet(PageRankCoef);
    var idle: seq<seq<nat>> := seq(n, t => []);
    var plan := seq(r, (i: nat) => idle);
    var ss, acts := EveryPlanHappens(j, plan, ends);
    rs, bcts := RoundsInside(j.K, j.g, j.v0, j.d0, ss, acts, |acts|);
  }

  // ---------- plans of full passes ----------

  ghost predicate FullPlan(plan: Plan, n: nat, size: nat) {
    forall r | 0 <= r < |plan| :: System.WorkOk(plan[r], n, size) && System.Full(plan[r], size)
  }

  lemma {:induction false} FullPlanIsFull(acts: seq<System.Act>, n: nat, size: nat)
    requires FullPlan(Obtained(acts), n, size)
    ensures FullIterators(acts, size)
  {
    if |acts| > 0 {
      var last := |acts| - 1;
      var before, plan := Obtained(acts[..last]), Obtained(acts);
      assert plan == before + Handed(acts[last]);
      assert forall r | 0 <= r < |before| :: before[r] == plan[r];
      FullPlanIsFull(acts[..last], n, size);
      assert Handed(acts[last]) != [] ==> plan[|before|] == acts[last].work;
      forall i | 0 <= i < |acts| ensures FullObtain(acts[i], size) {
        if i < last {
          assert acts[..last][i] == acts[i];
        }
      }
    }
  }

  // There are such plans: worker 0 takes everything.
  lemma SomeFullPlan(n: nat, size: nat, r: nat) returns (plan: Plan)
    requires n > 0
    ensures |plan| == r && FullPlan(plan, n, size)
  {
    var all: seq<nat> := seq(size, (k: nat) => k);
    var work: seq<seq<nat>> := seq(n, (t: nat) => if t == 0 then all else []);
    plan := seq(r, (i: nat) => work);
    forall k: nat | k < size ensures System.Assigned(work, k) {
      assert all[k] == k && k in work[0];
    }
  }

  /**
   * PageRank by any plan of r full passes and any number of workers: there is a run that ends, and
   * dumps ranks within 0.8^r * N of the one solution.
   */
  lemma PageRankIsComputed(g: Graph, n: nat, plan: Plan)
    returns (ss: seq<RankSystem.Engine>, acts: seq<System.Act>, x: Vec)
    requires Closed(g) && n > 0 && FullPlan(plan, n, |g|)
    ensures RankSystem.PageRankSystemRun(g, ss, acts) && |ss[0].rounds.wpc| == n
    ensures ss[|acts|].rounds.spc == Rounds.Done && Obtained(acts) == plan
    ensures IsPageRank(g, x) && Update.Shape(g, ss[|acts|].engine)
    ensures Error(g, ss[|acts|].engine, x) <= Scaled(Power(0.8, |plan|), |g| as real)
  {
    var j := Job(LinearKernel(PageRankCoef), g, seq(|g|, j => 0.0), Start(g), n);
    AllKernelsAreQuiet(PageRankCoef);
    ss, acts := EveryPlanHappens(j, plan, true);
    FullPlanIsFull(acts, n, |g|);
    x := PageRankExists(g);
    System.TableIsStill(j.K, g, j.v0, j.d0, ss, acts, |acts|);
    assert System.Resting(ss[|acts|]);
    RanksAfterRounds(g, ss, acts, |acts|, x);
  }

  // Shortest path by any plan of at least V full passes: there is a run that ends and dumps the
  // distances.
  lemma DistancesAreComputed(g: Graph, src: nat, n: nat, plan: Plan)
    returns (ss: seq<PathSystem.Engine>, acts: seq<System.Act>)
    requires Closed(g) && NonNegativeWeights(g) && n > 0 && FullPlan(plan, n, |g|) && |plan| >= |g|
    ensures PathSystem.PathSystemRun(g, src, ss, acts) && |ss[0].rounds.wpc| == n
    ensures ss[|acts|].rounds.spc == Rounds.Done && |ss[|acts|].engine.table| == |g|
    ensures forall k | 0 <= k < |g| :: IsDistance(g, src, k, ss[|acts|].engine.table[k].v)
  {
    var j := Job(ShortestPath(), g, StartValues(g), StartDeltas(g, src), n);
    AllKernelsAreQuiet(PageRankCoef);
    ss, acts := EveryPlanHappens(j, plan, true);
    FullPlanIsFull(acts, n, |g|);
    System.TableIsStill(j.K, g, j.v0, j.d0, ss, acts, |acts|);
    System.InvAlways(j.K, g, j.v0, j.d0, ss, acts, |acts|);
    assert System.Resting(ss[|acts|]);
    forall k | 0 <= k < |g| ensures IsDistance(g, src, k, ss[|acts|].engine.table[k].v) {
      PathsAfterRounds(g, src, ss, acts, |acts|, k);
    }
  }
}
