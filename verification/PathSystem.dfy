/**
 * Shortest path on the whole engine.
 */
module PathSystem {
  import opened Kernels
  import opened Walks
  import opened MinPlus
  import opened ShortestPathRuns
  import Atomic
  import Update
  import System

  type Engine = System.State<Dist>

  ghost predicate PathSystemRun(g: Graph, src: nat, ss: seq<Engine>, acts: seq<System.Act>) {
    System.IsRun(ShortestPath(), g, StartValues(g), StartDeltas(g, src), ss, acts)
  }

  // The walks that full rounds have accounted for.
  ghost predicate OnTrack(g: Graph, src: nat, s: Engine) {
    match s
    case State(_, engine, _, done, passes) =>
      && Honest(g, src, engine)
      && PassCover(g, src, Paths(g, engine), passes, if System.Resting(s) then {} else done)
      && ValuesCover(g, src, Paths(g, engine), passes - 1)
  }

  lemma SameTableHonest(g: Graph, src: nat, s: Engine, s': Engine)
    requires System.Inv(ShortestPath(), g, s') && Honest(g, src, s.engine)
    requires Paths(g, s'.engine) == Paths(g, s.engine)
    ensures Honest(g, src, s'.engine)
  {
  }

  lemma JoinKeepsTrack(g: Graph, src: nat, s: Engine, s': Engine)
    requires System.Inv(ShortestPath(), g, s) && System.Inv(ShortestPath(), g, s')
    requires System.Joins(ShortestPath(), g, s, s') && OnTrack(g, src, s)
    ensures OnTrack(g, src, s')
  {
    SameTableHonest(g, src, s, s');
    if s'.passes != s.passes {
      Update.RestIsAtomic(ShortestPath(), g, s.engine);
      assert ValuesCover(g, src, Paths(g, s.engine), s.passes);
      HorizonGrows(g, src, Paths(g, s.engine), s.passes);
    }
  }

  lemma ValuesCoverKept(g: Graph, src: nat, a: Distances, b: Distances, h: int)
    requires Atomic.Shape(g, a) && Atomic.Shape(g, b) && ValuesCover(g, src, a, h)
    requires forall k | 0 <= k < |g| :: Leq(b.v[k], a.v[k])
    ensures ValuesCover(g, src, b, h)
  {
  }

  lemma WorkKeepsTrack(g: Graph, src: nat, s: Engine, s': Engine)
    requires System.Works(ShortestPath(), g, s, s') && OnTrack(g, src, s)
    ensures OnTrack(g, src, s')
  {
    var t :| Update.Simulates(ShortestPath(), g, s.engine, Update.Move(t), s'.engine)
          && s'.done == s.done + Update.Folds(s.engine, Update.Move(t));
    HonestAdvance(g, src, s.engine, Update.Move(t), s'.engine);
    PassAdvance(g, src, s.engine, Update.Move(t), s'.engine, s.passes, s.done);
    ValuesCoverKept(g, src, Paths(g, s.engine), Paths(g, s'.engine), s.passes - 1);
  }

  lemma StepKeepsTrack(g: Graph, src: nat, s: Engine, s': Engine)
    requires System.Transition(ShortestPath(), g, s, s') && OnTrack(g, src, s)
    ensures OnTrack(g, src, s')
  {
    if System.Works(ShortestPath(), g, s, s') {
      WorkKeepsTrack(g, src, s, s');
    } else if System.Joins(ShortestPath(), g, s, s') {
      JoinKeepsTrack(g, src, s, s');
    } else {
      SameTableHonest(g, src, s, s');
    }
  }

  lemma TrackAlongStep(g: Graph, src: nat, ss: seq<Engine>, acts: seq<System.Act>, i: nat)
    requires PathSystemRun(g, src, ss, acts) && 0 < i <= |acts| && OnTrack(g, src, ss[i - 1])
    ensures OnTrack(g, src, ss[i])
  {
    System.RunTransition(ShortestPath(), g, StartValues(g), StartDeltas(g, src), ss, acts, i);
    StepKeepsTrack(g, src, ss[i - 1], ss[i]);
    assert OnTrack(g, src, ss[i]);
  }

  lemma StartsOnTrack(g: Graph, src: nat, s: Engine)
    requires System.Initial(ShortestPath(), g, s, StartValues(g), StartDeltas(g, src))
    ensures OnTrack(g, src, s)
  {
    System.InitialInv(ShortestPath(), g, s, StartValues(g), StartDeltas(g, src));
    InitialHonest(g, src, s.engine);
  }

  lemma {:induction false} AlwaysOnTrack(g: Graph, src: nat, ss: seq<Engine>, acts: seq<System.Act>, i: nat)
    requires PathSystemRun(g, src, ss, acts) && i <= |acts|
    ensures OnTrack(g, src, ss[i])
  {
    if i == 0 {
      StartsOnTrack(g, src, ss[0]);
    } else {
      AlwaysOnTrack(g, src, ss, acts, i - 1);
      TrackAlongStep(g, src, ss, acts, i);
      assert OnTrack(g, src, ss[i]);
    }
  }

  lemma TrackIsExact(g: Graph, src: nat, s: Engine, k: nat)
    requires OnTrack(g, src, s) && s.passes >= |g| && NonNegativeWeights(g) && k < |g| == |s.engine.table|
    ensures IsDistance(g, src, k, s.engine.table[k].v)
  {
    CoveredIsExact(g, src, Paths(g, s.engine), k);
  }

  // Once as many full rounds have been completed as there are vertices, the table holds the
  // exact distances, and keeps them.
  lemma ExactAfterPasses(g: Graph, src: nat, ss: seq<Engine>, acts: seq<System.Act>, i: nat, k: nat)
    requires PathSystemRun(g, src, ss, acts) && i <= |acts| && ss[i].passes >= |g|
    requires NonNegativeWeights(g) && k < |g| == |ss[i].engine.table|
    ensures IsDistance(g, src, k, ss[i].engine.table[k].v)
  {
    AlwaysOnTrack(g, src, ss, acts, i);
    TrackIsExact(g, src, ss[i], k);
  }

  // After exit, or whenever an iterator is being built, stored priorities of zero certify
  // the table: every value is the exact distance.
  lemma ExactWhenPrioritiesVanish(g: Graph, src: nat, ss: seq<Engine>, acts: seq<System.Act>, i: nat, k: nat)
    requires PathSystemRun(g, src, ss, acts) && i <= |acts| && k < |g| == |ss[i].engine.table|
    requires ss[i].rounds.spc.Get? || ss[i].rounds.spc.Done?
    requires forall j | 0 <= j < |g| :: ss[i].engine.table[j].pri == ShortestPath().lowest
    ensures IsDistance(g, src, k, ss[i].engine.table[k].v)
  {
    System.TableIsStill(ShortestPath(), g, StartValues(g), StartDeltas(g, src), ss, acts, i);
    AlwaysOnTrack(g, src, ss, acts, i);
    HonestAndSettled(g, src, ss[i].engine, k);
  }
}
