/**
 * Every run of the whole engine contains a run of the update program: the same worker
 * steps, without the protocol steps between them.  What holds for all runs of the update
 * program therefore holds for the engine, moment by moment.
 */
module Projection {
  import opened Options
  import opened Kernels
  import Rounds
  import Update
  import System

  // The step of the update program inside an engine step: a fetched iterator assigns work.
  ghost function Inner<V>(s: System.State<V>, a: System.Act): Option<Update.Act> {
    match a
    case Engine(t) => Some(Update.Move(t))
    case Protocol(b, _) =>
      if System.Fetches(s, b) && b.t < |s.work| then Some(Update.Assign(b.t, s.work[b.t])) else None
  }

  // at[i] is the moment of the inner run that corresponds to moment i of the engine.
  datatype Inside<!V> = Inside(us: seq<Update.State<V>>, acts: seq<Update.Act>, at: seq<nat>)

  ghost predicate Matches<V>(s: System.State<V>, a: System.Act, r: Inside<V>, i: nat)
    requires i + 1 < |r.at|
  {
    match Inner(s, a)
    case None => r.at[i + 1] == r.at[i]
    case Some(u) => r.at[i + 1] == r.at[i] + 1 && r.at[i] < |r.acts| && r.acts[r.at[i]] == u
  }

  ghost predicate Aligned<V>(ss: seq<System.State<V>>, n: nat, r: Inside<V>) {
    && n < |ss| && |r.at| == n + 1 && r.at[0] == 0 && r.at[n] == |r.acts|
    && forall i | 0 <= i <= n :: r.at[i] < |r.us| && r.us[r.at[i]] == ss[i].engine
  }

  // r is what the first n steps of the run do to the engine.
  ghost predicate Projects<V>(K: Kernel<V>, g: Graph, ss: seq<System.State<V>>, acts: seq<System.Act>,
                              n: nat, r: Inside<V>)
  {
    match r
    case Inside(us, inner, _) =>
      && Update.IsRun(K, g, us, inner) && Aligned(ss, n, r) && n <= |acts|
      && forall i {:trigger acts[i]} | 0 <= i < n :: Matches(ss[i], acts[i], r, i)
  }

  lemma StepInside<V>(K: Kernel<V>, g: Graph, s: System.State<V>, a: System.Act, s': System.State<V>)
    requires System.Step(K, g, s, a, s')
    ensures match Inner(s, a)
            case None => s'.engine == s.engine
            case Some(u) => Update.Step(K, g, s.engine, u, s'.engine)
  {
  }

  lemma ExtendRun<V>(K: Kernel<V>, g: Graph, us: seq<Update.State<V>>, acts: seq<Update.Act>,
                     u: Update.Act, s': Update.State<V>)
    requires Update.IsRun(K, g, us, acts) && Update.Step(K, g, us[|acts|], u, s')
    ensures Update.IsRun(K, g, us + [s'], acts + [u])
  {
    forall i | 0 <= i < |acts + [u]|
      ensures Update.Step(K, g, (us + [s'])[i], (acts + [u])[i], (us + [s'])[i + 1])
    {
      if i < |acts| {
        assert Update.Step(K, g, us[i], acts[i], us[i + 1]);
      }
    }
  }

  ghost function Longer<V>(r: Inside<V>, u: Option<Update.Act>, s': Update.State<V>): Inside<V>
    requires |r.at| > 0
  {
    match u
    case None => r.(at := r.at + [r.at[|r.at| - 1]])
    case Some(x) => Inside(r.us + [s'], r.acts + [x], r.at + [r.at[|r.at| - 1] + 1])
  }

  lemma ProjectNext<V>(K: Kernel<V>, g: Graph, ss: seq<System.State<V>>, acts: seq<System.Act>, n: nat, r: Inside<V>)
    requires Projects(K, g, ss, acts, n, r) && n < |acts| && |ss| == |acts| + 1
    requires System.Step(K, g, ss[n], acts[n], ss[n + 1])
    ensures Projects(K, g, ss, acts, n + 1, Longer(r, Inner(ss[n], acts[n]), ss[n + 1].engine))
    ensures Longer(r, Inner(ss[n], acts[n]), ss[n + 1].engine).us[0] == r.us[0]
  {
    var u, s' := Inner(ss[n], acts[n]), ss[n + 1].engine;
    var r' := Longer(r, u, s');
    StepInside(K, g, ss[n], acts[n], ss[n + 1]);
    if u.Some? {
      ExtendRun(K, g, r.us, r.acts, u.value, s');
    }
    assert Aligned(ss, n + 1, r');
    forall i | 0 <= i < n + 1 ensures Matches(ss[i], acts[i], r', i) {
      if i < n {
        assert Matches(ss[i], acts[i], r, i);
      }
    }
  }

  lemma {:induction false} ProjectPrefix<V>(K: Kernel<V>, g: Graph, v0: seq<V>, d0: seq<V>,
                                            ss: seq<System.State<V>>, acts: seq<System.Act>, n: nat)
    returns (r: Inside<V>)
    requires System.IsRun(K, g, v0, d0, ss, acts) && n <= |acts|
    ensures Projects(K, g, ss, acts, n, r) && r.us[0] == ss[0].engine
  {
    if n == 0 {
      r := Inside([ss[0].engine], [], [0]);
      assert Projects(K, g, ss, acts, 0, r);
    } else {
      var front := ProjectPrefix(K, g, v0, d0, ss, acts, n - 1);
      assert System.Step(K, g, ss[n - 1], acts[n - 1], ss[n - 1 + 1]);
      ProjectNext(K, g, ss, acts, n - 1, front);
      r := Longer(front, Inner(ss[n - 1], acts[n - 1]), ss[n].engine);
    }
  }

  // The run of the update program inside a run of the engine.
  lemma Project<V>(K: Kernel<V>, g: Graph, v0: seq<V>, d0: seq<V>,
                   ss: seq<System.State<V>>, acts: seq<System.Act>) returns (r: Inside<V>)
    requires System.IsRun(K, g, v0, d0, ss, acts)
    ensures Projects(K, g, ss, acts, |acts|, r) && Update.Initial(K, g, r.us[0], v0, d0)
  {
    r := ProjectPrefix(K, g, v0, d0, ss, acts, |acts|);
  }

  // Moments of the inner run follow those of the engine.
  lemma {:induction false} MomentsAdvance<V>(ss: seq<System.State<V>>, acts: seq<System.Act>, r: Inside<V>,
                                             i: nat, j: nat)
    requires i <= j <= |acts| && |ss| == |r.at| == |acts| + 1
    requires forall i {:trigger acts[i]} | 0 <= i < |acts| :: Matches(ss[i], acts[i], r, i)
    ensures r.at[i] <= r.at[j]
  {
    if i < j {
      MomentsAdvance(ss, acts, r, i, j - 1);
      assert Matches(ss[j - 1], acts[j - 1], r, j - 1);
    }
  }

  // ---------- passes ----------

  // folded: the vertices folded since some moment between rounds, when p0 passes were
  // complete.
  ghost predicate Seen<V>(g: Graph, s: System.State<V>, p0: nat, folded: set<nat>) {
    match s
    case State(_, _, _, done, passes) =>
      && p0 <= passes && (passes > p0 ==> Update.CoversAll(folded, |g|))
      && (!System.Resting(s) ==> done <= folded)
  }

  ghost function Folding<V>(s: System.State<V>, a: System.Act): set<nat> {
    match Inner(s, a) { case None => {} case Some(u) => Update.Folds(s.engine, u) }
  }

  lemma SeenProtocolStep<V(!new)>(K: Kernel<V>, g: Graph, s: System.State<V>, a: Rounds.Act, work: seq<seq<nat>>,
                            p0: nat, folded: set<nat>)
    requires System.Inv(K, g, s) && System.Enabled(g, s, System.Protocol(a, work)) && Seen(g, s, p0, folded)
    ensures Seen(g, System.Apply(K, g, s, System.Protocol(a, work)), p0, folded)
  {
    if a.Release? {
      System.JoinIsTransition(K, g, s, work);
    } else if a.Sched? && s.rounds.spc.Broadcast? {
    } else {
      System.PhaseKept(s.rounds, a);
    }
  }

  lemma SeenStep<V(!new)>(K: Kernel<V>, g: Graph, s: System.State<V>, a: System.Act, p0: nat, folded: set<nat>)
    requires System.Inv(K, g, s) && System.Enabled(g, s, a) && Seen(g, s, p0, folded)
    ensures Seen(g, System.Apply(K, g, s, a), p0, folded + Folding(s, a))
  {
    match a {
      case Engine(t) =>
        assert !Rounds.Resting(s.rounds.wpc[t]);
      case Protocol(b, work) =>
        SeenProtocolStep(K, g, s, b, work, p0, folded);
    }
  }

  // What engine step i - 1 folded, read off the inner run.
  ghost function FoldsAt<V>(r: Inside<V>, i: nat): set<nat>
    requires 0 < i < |r.at| && r.at[i - 1] <= r.at[i] <= |r.acts| <= |r.us|
  {
    if r.at[i] == r.at[i - 1] then {} else Update.Folds(r.us[r.at[i - 1]], r.acts[r.at[i - 1]])
  }

  lemma FoldsAtStep<V>(K: Kernel<V>, g: Graph, ss: seq<System.State<V>>, acts: seq<System.Act>, r: Inside<V>, i: nat)
    requires Projects(K, g, ss, acts, |acts|, r) && |ss| == |acts| + 1 && 0 < i <= |acts|
    ensures r.at[i - 1] <= r.at[i] <= r.at[i - 1] + 1 && r.at[i] <= |r.acts| <= |r.us|
    ensures FoldsAt(r, i) == Folding(ss[i - 1], acts[i - 1])
  {
    MomentsAdvance(ss, acts, r, i, |acts|);
    assert Matches(ss[i - 1], acts[i - 1], r, i - 1);
  }

  lemma SeenAlongStep<V(!new)>(K: Kernel<V>, g: Graph, v0: seq<V>, d0: seq<V>, ss: seq<System.State<V>>,
                               acts: seq<System.Act>, i: nat, p0: nat, folded: set<nat>)
    requires QuietPriority(K) && System.IsRun(K, g, v0, d0, ss, acts) && 0 < i <= |acts|
    requires Seen(g, ss[i - 1], p0, folded)
    ensures Seen(g, ss[i], p0, folded + Folding(ss[i - 1], acts[i - 1]))
  {
    System.InvAlways(K, g, v0, d0, ss, acts, i - 1);
    assert System.Step(K, g, ss[i - 1], acts[i - 1], ss[i - 1 + 1]);
    SeenStep(K, g, ss[i - 1], acts[i - 1], p0, folded);
  }

  // What the inner run had folded by moment i of the engine, since moment b.
  ghost function FoldedBy<V>(r: Inside<V>, b: nat, i: nat): set<nat>
    requires b < |r.at| && i < |r.at| && r.at[b] <= r.at[i] <= |r.acts| <= |r.us|
  {
    Update.Absorbed(r.us, r.acts, r.at[b], r.at[i])
  }

  lemma Bounds<V>(K: Kernel<V>, g: Graph, ss: seq<System.State<V>>, acts: seq<System.Act>, r: Inside<V>, b: nat, i: nat)
    requires Projects(K, g, ss, acts, |acts|, r) && b <= i <= |acts| && |ss| == |acts| + 1
    ensures r.at[b] <= r.at[i] <= |r.acts| <= |r.us|
  {
    MomentsAdvance(ss, acts, r, b, i);
    MomentsAdvance(ss, acts, r, i, |acts|);
  }

  lemma FoldedStep<V>(r: Inside<V>, b: nat, i: nat)
    requires b < i < |r.at| && r.at[b] <= r.at[i - 1] <= r.at[i] <= r.at[i - 1] + 1
    requires r.at[i] <= |r.acts| <= |r.us|
    ensures FoldedBy(r, b, i) == FoldedBy(r, b, i - 1) + FoldsAt(r, i)
  {
  }

  // Passes completed since a moment between rounds have folded every vertex since then.
  lemma {:induction false} PassesFold<V(!new)>(K: Kernel<V>, g: Graph, v0: seq<V>, d0: seq<V>, ss: seq<System.State<V>>,
                                               acts: seq<System.Act>, r: Inside<V>, b: nat, i: nat)
    requires QuietPriority(K) && System.IsRun(K, g, v0, d0, ss, acts) && b <= i <= |acts|
    requires Projects(K, g, ss, acts, |acts|, r) && System.Resting(ss[b])
    ensures r.at[b] <= r.at[i] <= |r.acts| <= |r.us|
    ensures Seen(g, ss[i], ss[b].passes, FoldedBy(r, b, i))
  {
    Bounds(K, g, ss, acts, r, b, i);
    if b < i {
      Bounds(K, g, ss, acts, r, b, i - 1);
      var folded := FoldedBy(r, b, i - 1);
      assert Seen(g, ss[i - 1], ss[b].passes, folded) by {
        PassesFold(K, g, v0, d0, ss, acts, r, b, i - 1);
      }
      SeenAlongStep(K, g, v0, d0, ss, acts, i, ss[b].passes, folded);
      FoldsAtStep(K, g, ss, acts, r, i);
      FoldedStep(r, b, i);
      var now := FoldedBy(r, b, i);
      assert now == folded + Folding(ss[i - 1], acts[i - 1]);
      assert Seen(g, ss[i], ss[b].passes, now);
    }
  }

  // A moment between rounds with a completed pass after it is the start of a full pass of
  // the inner run.
  lemma PassInside<V(!new)>(K: Kernel<V>, g: Graph, v0: seq<V>, d0: seq<V>, ss: seq<System.State<V>>,
                            acts: seq<System.Act>, r: Inside<V>, b: nat, i: nat)
    requires QuietPriority(K) && System.IsRun(K, g, v0, d0, ss, acts) && b <= i <= |acts|
    requires Projects(K, g, ss, acts, |acts|, r) && System.Resting(ss[b]) && ss[b].passes < ss[i].passes
    ensures r.at[b] <= r.at[i] <= |r.acts| <= |r.us|
    ensures Update.AtRest(r.us[r.at[b]]) && Update.CoversAll(FoldedBy(r, b, i), |g|)
  {
    PassesFold(K, g, v0, d0, ss, acts, r, b, i);
    System.InvAlways(K, g, v0, d0, ss, acts, b);
    System.RestingIsAtRest(K, g, ss[b]);
  }

  // Passes grow by one at a time, at the end of a round.
  lemma PassesAlongStep<V(!new)>(K: Kernel<V>, g: Graph, v0: seq<V>, d0: seq<V>, ss: seq<System.State<V>>,
                                 acts: seq<System.Act>, i: nat)
    requires QuietPriority(K) && System.IsRun(K, g, v0, d0, ss, acts) && 0 < i <= |acts|
    ensures ss[i].passes == ss[i - 1].passes || (ss[i].passes == ss[i - 1].passes + 1 && System.Resting(ss[i]))
  {
    System.RunTransition(K, g, v0, d0, ss, acts, i);
  }

  // Growth that cannot all belong to the round in progress leaves a whole pass to find.
  lemma {:induction false} PassStart<V(!new)>(K: Kernel<V>, g: Graph, v0: seq<V>, d0: seq<V>, ss: seq<System.State<V>>,
                                              acts: seq<System.Act>, i: nat, j: nat) returns (b: nat)
    requires QuietPriority(K) && System.IsRun(K, g, v0, d0, ss, acts) && i <= j <= |acts|
    requires ss[j].passes >= ss[i].passes + (if System.Resting(ss[i]) then 1 else 2)
    ensures i <= b <= j && System.Resting(ss[b]) && ss[b].passes < ss[j].passes
    decreases j - i
  {
    if System.Resting(ss[i]) {
      b := i;
    } else {
      PassesAlongStep(K, g, v0, d0, ss, acts, i + 1);
      b := PassStart(K, g, v0, d0, ss, acts, i + 1, j);
    }
  }
}
