/**
 * Runs whose iterators are all full passes: every completed round counts, so the per-pass
 * results become results about the number of rounds.
 */
module FullRuns {
  import opened Vectors
  import opened Kernels
  import opened Linear
  import opened PageRankRuns
  import opened TermCheckSoundness
  import opened PageRankStopping
  import opened Walks
  import Rounds
  import Update
  import System
  import TermCheck
  import RankSystem
  import PathSystem
  import ShortestPathRuns

  ghost predicate FullObtain(a: System.Act, n: nat) {
    a.Protocol? && a.a == Rounds.Obtain(true) ==> System.Full(a.work, n)
  }

  ghost predicate FullIterators(acts: seq<System.Act>, n: nat) {
    forall i | 0 <= i < |acts| :: FullObtain(acts[i], n)
  }

  // passes keeps up with the rounds, but for the one in progress.
  ghost predicate EveryRoundCounts<V>(s: System.State<V>, n: nat) {
    && (s.rounds.it2.Some? && s.rounds.spc != Rounds.Get ==> System.Full(s.work, n))
    && s.passes + (if System.Resting(s) then 0 else 1) == s.rounds.round
  }

  lemma ReleaseCounts<V>(K: Kernel<V>, g: Graph, s: System.State<V>, work: seq<seq<nat>>)
    requires System.Inv(K, g, s) && System.Enabled(g, s, System.Protocol(Rounds.Release, work))
    requires EveryRoundCounts(s, |g|)
    ensures EveryRoundCounts(System.Apply(K, g, s, System.Protocol(Rounds.Release, work)), |g|)
  {
    assert s.rounds.wpc[0] == Rounds.AtBarrier;
    assert !Rounds.Resting(s.rounds.wpc[0]);
    assert System.Resting(System.Apply(K, g, s, System.Protocol(Rounds.Release, work)));
  }

  lemma BroadcastCounts<V>(K: Kernel<V>, g: Graph, s: System.State<V>, work: seq<seq<nat>>)
    requires System.Inv(K, g, s) && System.Enabled(g, s, System.Protocol(Rounds.Sched, work))
    requires s.rounds.spc.Broadcast? && EveryRoundCounts(s, |g|)
    ensures EveryRoundCounts(System.Apply(K, g, s, System.Protocol(Rounds.Sched, work)), |g|)
  {
    assert s.rounds.wpc[0] == Rounds.Parked;
    assert !Rounds.Resting(System.Apply(K, g, s, System.Protocol(Rounds.Sched, work)).rounds.wpc[0]);
  }

  lemma CountsStep<V>(K: Kernel<V>, g: Graph, s: System.State<V>, a: System.Act)
    requires System.Inv(K, g, s) && System.Enabled(g, s, a) && FullObtain(a, |g|) && EveryRoundCounts(s, |g|)
    ensures EveryRoundCounts(System.Apply(K, g, s, a), |g|)
  {
    match a {
      case Engine(t) =>
      case Protocol(b, work) =>
        if b.Release? {
          ReleaseCounts(K, g, s, work);
        } else if b.Sched? && s.rounds.spc.Broadcast? {
          BroadcastCounts(K, g, s, work);
        } else {
          System.PhaseKept(s.rounds, b);
        }
    }
  }

  lemma CountsAlongStep<V(!new)>(K: Kernel<V>, g: Graph, v0: seq<V>, d0: seq<V>,
                                 ss: seq<System.State<V>>, acts: seq<System.Act>, i: nat)
    requires QuietPriority(K) && System.IsRun(K, g, v0, d0, ss, acts) && 0 < i <= |acts|
    requires FullObtain(acts[i - 1], |g|) && EveryRoundCounts(ss[i - 1], |g|)
    ensures EveryRoundCounts(ss[i], |g|)
  {
    System.InvAlways(K, g, v0, d0, ss, acts, i - 1);
    assert System.Step(K, g, ss[i - 1], acts[i - 1], ss[i]);
    CountsStep(K, g, ss[i - 1], acts[i - 1]);
    assert EveryRoundCounts(ss[i], |g|);
  }

  lemma {:induction false} CountsAlways<V(!new)>(K: Kernel<V>, g: Graph, v0: seq<V>, d0: seq<V>,
                                                 ss: seq<System.State<V>>, acts: seq<System.Act>, i: nat)
    requires QuietPriority(K) && System.IsRun(K, g, v0, d0, ss, acts) && FullIterators(acts, |g|) && i <= |acts|
    ensures EveryRoundCounts(ss[i], |g|)
  {
    if i == 0 {
      System.InitialInv(K, g, ss[0], v0, d0);
    } else {
      CountsAlways(K, g, v0, d0, ss, acts, i - 1);
      CountsAlongStep(K, g, v0, d0, ss, acts, i);
      assert EveryRoundCounts(ss[i], |g|);
    }
  }

  // PageRank with full passes: after r rounds the ranks are within 0.8^r * N of any exact
  // solution, however the workers of each round interleaved.
  lemma RanksAfterRounds(g: Graph, ss: seq<RankSystem.Engine>, acts: seq<System.Act>, i: nat, x: Vec)
    requires RankSystem.PageRankSystemRun(g, ss, acts) && FullIterators(acts, |g|) && i <= |acts|
    requires System.Resting(ss[i]) && IsPageRank(g, x)
    ensures Update.Shape(g, ss[i].engine)
    ensures L1(Difference(x, Ranks(g, ss[i].engine).v)) <= Scaled(Power(0.8, ss[i].rounds.round), |g| as real)
  {
    AllKernelsAreQuiet(PageRankCoef);
    CountsAlways(LinearKernel(PageRankCoef), g, seq(|g|, j => 0.0), Start(g), ss, acts, i);
    RankSystem.RanksAfterPasses(g, ss, acts, i, x);
  }

  /**
   * With full passes, if a round that started after the first scan had ended was complete when
   * the second began, and the two differ by at most the threshold, then the ranks, also those
   * dumped, are within 4 times the threshold of the solution.
   */
  lemma StopAfterRoundIsSound(g: Graph, ss: seq<RankSystem.Engine>, acts: seq<System.Act>, end1: nat, start2: nat,
                              scan1: Scan, values1: seq<real>, scan2: Scan, values2: seq<real>,
                              threshold: real, now: nat, x: Vec)
    requires RankSystem.PageRankSystemRun(g, ss, acts) && FullIterators(acts, |g|)
    requires end1 <= start2 <= now <= |acts| && IsPageRank(g, x)
    requires Spans(scan1, |g|, 0, end1) && RankSystem.ReadsEngine(ss, scan1, values1)
    requires Spans(scan2, |g|, start2, |acts|) && RankSystem.ReadsEngine(ss, scan2, values2)
    requires ss[start2].rounds.round > ss[end1].rounds.round + (if System.Resting(ss[start2]) then 0 else 1)
    requires TermCheck.Settles([Total(values1), Total(values2)], 1, threshold)
    ensures Update.Shape(g, ss[now].engine) && Error(g, ss[now].engine, x) <= 4.0 * threshold
  {
    AllKernelsAreQuiet(PageRankCoef);
    CountsAlways(LinearKernel(PageRankCoef), g, seq(|g|, j => 0.0), Start(g), ss, acts, end1);
    CountsAlways(LinearKernel(PageRankCoef), g, seq(|g|, j => 0.0), Start(g), ss, acts, start2);
    RankSystem.StoppedRunIsSound(g, ss, acts, end1, start2, scan1, values1, scan2, values2, threshold, now, x);
  }

  // Shortest path with full passes: once |V| rounds are complete the table is exact.
  lemma PathsAfterRounds(g: Graph, src: nat, ss: seq<PathSystem.Engine>, acts: seq<System.Act>, i: nat, k: nat)
    requires PathSystem.PathSystemRun(g, src, ss, acts) && FullIterators(acts, |g|) && i <= |acts|
    requires System.Resting(ss[i]) && ss[i].rounds.round >= |g|
    requires NonNegativeWeights(g) && k < |g| == |ss[i].engine.table|
    ensures IsDistance(g, src, k, ss[i].engine.table[k].v)
  {
    AllKernelsAreQuiet(PageRankCoef);
    CountsAlways(ShortestPath(), g, ShortestPathRuns.StartValues(g), ShortestPathRuns.StartDeltas(g, src), ss, acts, i);
    PathSystem.ExactAfterPasses(g, src, ss, acts, i, k);
  }
}
