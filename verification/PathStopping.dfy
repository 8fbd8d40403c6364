/**
 * The termination check on shortest path: what a full pass, and two equal scans around one,
 * prove about the distances, whatever the signs of the weights.
 */
module PathStopping {
  import opened Options
  import opened Vectors
  import opened Kernels
  import opened Update
  import opened Walks
  import opened MinPlus
  import opened ShortestPathRuns
  import opened TermCheckSoundness
  import TermCheck

  // ---------- a pass takes every delta it started with ----------

  // Every delta of the start is held by its row, and by the value alone once it was absorbed.
  ghost predicate Taken(g: Graph, start: Distances, s: Distances, done: set<nat>) {
    && |start.d| == |s.v| == |s.d| == |g|
    && forall k | 0 <= k < |g| :: Held(s, k, start.d[k]) && (k in done ==> Leq(s.v[k], start.d[k]))
  }

  // One conjunction under a match, so that it stays one fact where it is proved.
  ghost predicate TakenBy(g: Graph, start: Distances, s: State<Dist>, done: set<nat>) {
    match s
    case State(_, _, _) => Shape(g, s) && Taken(g, start, Paths(g, s), done)
  }

  lemma TakenAdvance(g: Graph, s: State<Dist>, a: Act, s': State<Dist>, start: Distances, done: set<nat>)
    requires Simulates(ShortestPath(), g, s, a, s') && TakenBy(g, start, s, done)
    ensures TakenBy(g, start, s', done + Folds(s, a))
  {
    if Effect(s, a).Some? {
      forall k | 0 <= k < |g| {
        HeldStep(g, Paths(g, s), Effect(s, a).value, k, start.d[k]);
      }
    }
  }

  lemma TakenAlongStep(g: Graph, src: nat, ss: seq<State<Dist>>, acts: seq<Act>, i: nat,
                       start: Distances, done: set<nat>)
    requires ShortestPathRun(g, src, ss, acts) && 0 < i <= |acts| && TakenBy(g, start, ss[i - 1], done)
    ensures TakenBy(g, start, ss[i], done + Folds(ss[i - 1], acts[i - 1]))
  {
    SimulatesAlongStep(g, src, ss, acts, i);
    TakenAdvance(g, ss[i - 1], acts[i - 1], ss[i], start, done);
  }

  lemma {:induction false} TakenInPass(g: Graph, src: nat, ss: seq<State<Dist>>, acts: seq<Act>,
                                       from: nat, until: nat, start: Distances)
    requires ShortestPathRun(g, src, ss, acts) && from <= until <= |acts| && TakenBy(g, start, ss[from], {})
    ensures TakenBy(g, start, ss[until], Absorbed(ss, acts, from, until))
  {
    if from < until {
      var done := Absorbed(ss, acts, from, until - 1);
      assert TakenBy(g, start, ss[until - 1], done) by {
        TakenInPass(g, src, ss, acts, from, until - 1, start);
      }
      TakenAlongStep(g, src, ss, acts, until, start, done);
      assert TakenBy(g, start, ss[until], Absorbed(ss, acts, from, until));
    }
  }

  ghost predicate PathPass(g: Graph, ss: seq<State<Dist>>, acts: seq<Act>, from: nat, until: nat)
    requires from <= until <= |acts| < |ss|
  {
    AtRest(ss[from]) && CoversAll(Absorbed(ss, acts, from, until), |g|)
  }

  // After a full pass every value is at most the delta its vertex had when the pass began.
  lemma PassTakesDeltas(g: Graph, src: nat, ss: seq<State<Dist>>, acts: seq<Act>, from: nat, until: nat, k: nat)
    requires ShortestPathRun(g, src, ss, acts) && from <= until <= |acts| && PathPass(g, ss, acts, from, until)
    requires k < |g|
    ensures Shape(g, ss[from]) && Shape(g, ss[until]) && Leq(ss[until].table[k].v, ss[from].table[k].delta)
  {
    HonestAlways(g, src, ss, acts, from);
    RestIsAtomic(ShortestPath(), g, ss[from]);
    var start := Paths(g, ss[from]);
    assert TakenBy(g, start, ss[from], {});
    TakenInPass(g, src, ss, acts, from, until, start);
    assert Leq(Paths(g, ss[until]).v[k], start.d[k]);
  }

  // ---------- an idle pass certifies, and only an exact table has one ----------

  ghost predicate SameValues(s: State<Dist>, s': State<Dist>) {
    |s.table| == |s'.table| && forall k | 0 <= k < |s.table| :: s'.table[k].v == s.table[k].v
  }

  ghost predicate Exact(g: Graph, src: nat, s: State<Dist>) {
    |s.table| == |g| && forall k | 0 <= k < |g| :: IsDistance(g, src, k, s.table[k].v)
  }

  lemma SettledTable(g: Graph, src: nat, s: State<Dist>)
    requires Honest(g, src, s) && AtRest(s)
    requires forall k | 0 <= k < |s.table| :: Leq(s.table[k].v, s.table[k].delta)
    ensures Exact(g, src, s)
  {
    RestIsAtomic(ShortestPath(), g, s);
    forall k | 0 <= k < |g| ensures IsDistance(g, src, k, s.table[k].v) {
      SettledIsExact(g, src, Paths(g, s), k);
    }
  }

  // Exactness is kept: values only fall, and never below a walk.
  lemma ExactForever(g: Graph, src: nat, ss: seq<State<Dist>>, acts: seq<Act>, i: nat, j: nat)
    requires ShortestPathRun(g, src, ss, acts) && i <= j <= |acts| && Exact(g, src, ss[i])
    ensures Exact(g, src, ss[j]) && SameValues(ss[i], ss[j])
  {
    HonestAlways(g, src, ss, acts, j);
    forall k | 0 <= k < |g| ensures IsDistance(g, src, k, ss[j].table[k].v) && ss[j].table[k].v == ss[i].table[k].v {
      StoredValuesNeverGrow(g, src, ss, acts, i, j, k);
      StoredValuesAreWalks(g, src, ss, acts, j, k);
      SameDistance(g, src, k, ss[i].table[k].v, ss[j].table[k].v);
    }
  }

  lemma SameDistance(g: Graph, src: nat, k: nat, x: Dist, y: Dist)
    requires IsDistance(g, src, k, x) && Attained(g, src, k, y) && Leq(y, x)
    ensures y == x
  {
    if y.Fin? {
      var w :| IsWalk(g, src, w, k) && Length(g, w) == y.r;
      assert Leq(x, Fin(Length(g, w)));
    }
  }

  // A full pass changes no value if and only if the table held the distances when it began.
  lemma IdlePassIsExact(g: Graph, src: nat, ss: seq<State<Dist>>, acts: seq<Act>, from: nat, until: nat)
    requires ShortestPathRun(g, src, ss, acts) && from <= until <= |acts| && PathPass(g, ss, acts, from, until)
    ensures SameValues(ss[from], ss[until]) <==> Exact(g, src, ss[from])
  {
    HonestAlways(g, src, ss, acts, from);
    if SameValues(ss[from], ss[until]) {
      forall k | 0 <= k < |g| ensures Leq(ss[from].table[k].v, ss[from].table[k].delta) {
        PassTakesDeltas(g, src, ss, acts, from, until, k);
      }
      SettledTable(g, src, ss[from]);
    }
    if Exact(g, src, ss[from]) {
      ExactForever(g, src, ss, acts, from, until);
    }
  }

  // ---------- what the check sees ----------

  // The check leaves out values equal to the default imax.
  function Finite(d: Dist): real {
    if d.Top? then 0.0 else d.r
  }

  function Finites(values: seq<Dist>): (f: seq<real>)
    ensures |f| == |values| && forall i | 0 <= i < |f| :: f[i] == Finite(values[i])
  {
    seq(|values|, i requires 0 <= i < |values| => Finite(values[i]))
  }

  ghost predicate ReadsPaths(ss: seq<State<Dist>>, scan: Scan, values: seq<Dist>) {
    && |values| == |scan.order| == |scan.moments|
    && forall i | 0 <= i < |values| ::
         scan.moments[i] < |ss| && scan.order[i] < |ss[scan.moments[i]].table|
         && values[i] == ss[scan.moments[i]].table[scan.order[i]].v
  }

  // No vertex was counted by the second scan only.
  ghost predicate NothingNew(values1: seq<Dist>, values2: seq<Dist>) {
    |values1| == |values2| && forall i | 0 <= i < |values1| :: values1[i].Top? ==> values2[i].Top?
  }

  lemma {:induction false} EqualTotals(a: seq<real>, b: seq<real>)
    requires |a| == |b| && (forall j | 0 <= j < |a| :: a[j] <= b[j]) && Total(a) == Total(b)
    ensures a == b
  {
    if |a| > 0 {
      TotalMonotone(a[1..], b[1..]);
      EqualTotals(a[1..], b[1..]);
      assert a == [a[0]] + a[1..] && b == [b[0]] + b[1..];
    }
  }

  lemma Sandwich(x1: Dist, early: Dist, late: Dist, x2: Dist)
    requires Leq(early, x1) && Leq(late, early) && Leq(x2, late) && (x1.Top? ==> x2.Top?)
    ensures Finite(x2) <= Finite(x1)
    ensures Finite(x1) == Finite(x2) ==> early == late
  {
  }

  lemma ScansSandwich(g: Graph, src: nat, ss: seq<State<Dist>>, acts: seq<Act>, from: nat, until: nat,
                      scan1: Scan, values1: seq<Dist>, scan2: Scan, values2: seq<Dist>, i: nat)
    requires ShortestPathRun(g, src, ss, acts) && from <= until <= |acts|
    requires Spans(scan1, |g|, 0, from) && ReadsPaths(ss, scan1, values1)
    requires Spans(scan2, |g|, until, |acts|) && ReadsPaths(ss, scan2, values2)
    requires scan1.order == scan2.order && NothingNew(values1, values2) && i < |values1|
    ensures Shape(g, ss[from]) && Shape(g, ss[until]) && Finite(values2[i]) <= Finite(values1[i])
    ensures Finite(values1[i]) == Finite(values2[i]) ==>
              ss[from].table[scan1.order[i]].v == ss[until].table[scan1.order[i]].v
  {
    var k := scan1.order[i];
    StoredValuesNeverGrow(g, src, ss, acts, scan1.moments[i], from, k);
    StoredValuesNeverGrow(g, src, ss, acts, from, until, k);
    StoredValuesNeverGrow(g, src, ss, acts, until, scan2.moments[i], k);
    Sandwich(values1[i], ss[from].table[k].v, ss[until].table[k].v, values2[i]);
  }

  // Two scans in bucket order around a full pass, read without locks, with equal totals and no
  // vertex counted by the second only: the distances are exact from the start of the pass on.
  lemma EqualScansCertify(g: Graph, src: nat, ss: seq<State<Dist>>, acts: seq<Act>, from: nat, until: nat,
                          scan1: Scan, values1: seq<Dist>, scan2: Scan, values2: seq<Dist>, now: nat)
    requires ShortestPathRun(g, src, ss, acts) && from <= until <= |acts| && PathPass(g, ss, acts, from, until)
    requires Spans(scan1, |g|, 0, from) && ReadsPaths(ss, scan1, values1)
    requires Spans(scan2, |g|, until, |acts|) && ReadsPaths(ss, scan2, values2)
    requires scan1.order == scan2.order && NothingNew(values1, values2) && from <= now <= |acts|
    requires TermCheck.Settles([Total(Finites(values1)), Total(Finites(values2))], 1, 0.0)
    ensures Exact(g, src, ss[now])
  {
    var f1, f2 := Finites(values1), Finites(values2);
    forall i | 0 <= i < |f1| ensures f2[i] <= f1[i] {
      ScansSandwich(g, src, ss, acts, from, until, scan1, values1, scan2, values2, i);
    }
    TotalMonotone(f2, f1);
    EqualTotals(f2, f1);
    HonestAlways(g, src, ss, acts, from);
    HonestAlways(g, src, ss, acts, until);
    forall k | 0 <= k < |g| ensures ss[until].table[k].v == ss[from].table[k].v {
      assert k in scan1.order;
      var i :| 0 <= i < |scan1.order| && scan1.order[i] == k;
      ScansSandwich(g, src, ss, acts, from, until, scan1, values1, scan2, values2, i);
    }
    IdlePassIsExact(g, src, ss, acts, from, until);
    ExactForever(g, src, ss, acts, from, now);
  }

  // When no value moved during the first scan, the test is met by exact tables only, and by each.
  lemma EqualScansExactly(g: Graph, src: nat, ss: seq<State<Dist>>, acts: seq<Act>, from: nat, until: nat,
                          scan1: Scan, values1: seq<Dist>, scan2: Scan, values2: seq<Dist>)
    requires ShortestPathRun(g, src, ss, acts) && from <= until <= |acts| && PathPass(g, ss, acts, from, until)
    requires Spans(scan1, |g|, 0, from) && ReadsPaths(ss, scan1, values1)
    requires Spans(scan2, |g|, until, |acts|) && ReadsPaths(ss, scan2, values2)
    requires scan1.order == scan2.order && |ss[from].table| == |g|
    requires forall i | 0 <= i < |values1| :: values1[i] == ss[from].table[scan1.order[i]].v
    ensures NothingNew(values1, values2)
            && TermCheck.Settles([Total(Finites(values1)), Total(Finites(values2))], 1, 0.0)
            <==> Exact(g, src, ss[from])
  {
    if Exact(g, src, ss[from]) {
      forall i | 0 <= i < |values1| ensures values2[i] == values1[i] {
        ExactForever(g, src, ss, acts, from, scan2.moments[i]);
      }
      assert values1 == values2;
    } else if NothingNew(values1, values2)
           && TermCheck.Settles([Total(Finites(values1)), Total(Finites(values2))], 1, 0.0) {
      EqualScansCertify(g, src, ss, acts, from, until, scan1, values1, scan2, values2, from);
    }
  }

  // ---------- a source that is counted as nothing ----------

  // Source 1 with an edge of weight 1 to vertex 0.
  function Pair(): Graph {
    [[], [Edge(0, 1.0)]]
  }

  ghost function At(row0: Row<Dist>, row1: Row<Dist>, locked: Option<nat>,
                    pc: Pc, todo: seq<nat>, output: seq<Msg<Dist>>, iter: nat): State<Dist>
  {
    State([row0, row1], [if locked == Some(0) then Some(0) else None, if locked == Some(1) then Some(0) else None],
          [Thread(pc, todo, output, iter)])
  }

  // One worker runs vertex 0 and then the source.
  ghost function PassState(i: nat): State<Dist> {
    var z, one := Fin(0.0), Fin(1.0);
    var empty, full, done, reached := Row(Top, Top, z), Row(Top, z, Top), Row(z, Top, z), Row(Top, one, Top);
    var ms := [Msg(0, one)];
    if i == 0 then At(empty, full, None, Idle, [], [], 0)
    else if i == 1 then At(empty, full, None, Idle, [0, 1], [], 0)
    else if i == 2 then At(empty, full, Some(0), Locked(0), [1], [], 0)
    else if i == 3 then At(empty, full, Some(0), Accumulated(0), [1], [], 0)
    else if i == 4 then At(empty, full, Some(0), Generated(0), [1], [], 0)
    else if i == 5 then At(empty, full, Some(0), Reset(0), [1], [], 0)
    else if i == 6 then At(empty, full, None, Delivering, [1], [], 0)
    else if i == 7 then At(empty, full, None, Idle, [1], [], 0)
    else if i == 8 then At(empty, full, Some(1), Locked(1), [], [], 0)
    else if i == 9 then At(empty, Row(z, z, Top), Some(1), Accumulated(1), [], [], 0)
    else if i == 10 then At(empty, Row(z, z, Top), Some(1), Generated(1), [], ms, 0)
    else if i == 11 then At(empty, done, Some(1), Reset(1), [], ms, 0)
    else if i == 12 then At(empty, done, None, Delivering, [], ms, 0)
    else if i == 13 then At(empty, done, Some(0), TargetLocked, [], ms, 0)
    else if i == 14 then At(reached, done, Some(0), Delivered, [], ms, 0)
    else if i == 15 then At(reached, done, None, Delivering, [], ms, 1)
    else At(reached, done, None, Idle, [], [], 0)
  }

  ghost function PassAct(i: nat): Act {
    if i == 0 then Assign(0, [0, 1]) else Move(0)
  }

  lemma PairMessages()
    ensures Messages(ShortestPath(), Pair()[0], Top) == []
    ensures Messages(ShortestPath(), Pair()[1], Fin(0.0)) == [Msg(0, Fin(1.0))]
    ensures Closed(Pair())
  {
    OutgoingShape(ShortestPath(), Pair()[1], 0, Fin(0.0));
  }

  lemma PassSteps1(i: nat)
    requires 0 <= i < 3
    ensures Step(ShortestPath(), Pair(), PassState(i), PassAct(i), PassState(i + 1))
  {
    assert [0, 1][1..] == [1] && [1][1..] == [];
    var s, s' := PassState(i + 1), Apply(ShortestPath(), Pair(), PassState(i), PassAct(i));
    assert s.table == s'.table && s.lock == s'.lock && s.threads == s'.threads;
  }

  lemma PassSteps2(i: nat)
    requires 3 <= i < 6
    ensures Step(ShortestPath(), Pair(), PassState(i), PassAct(i), PassState(i + 1))
  {
    PairMessages();
    var s, s' := PassState(i + 1), Apply(ShortestPath(), Pair(), PassState(i), PassAct(i));
    assert s.threads[0].output == s'.threads[0].output;
    assert s.table == s'.table && s.lock == s'.lock && s.threads == s'.threads;
  }

  lemma PassSteps3(i: nat)
    requires 6 <= i < 9
    ensures Step(ShortestPath(), Pair(), PassState(i), PassAct(i), PassState(i + 1))
  {
    assert [0, 1][1..] == [1] && [1][1..] == [];
    var s, s' := PassState(i + 1), Apply(ShortestPath(), Pair(), PassState(i), PassAct(i));
    assert s.table == s'.table && s.lock == s'.lock && s.threads == s'.threads;
  }

  lemma PassSteps4(i: nat)
    requires 9 <= i < 12
    ensures Step(ShortestPath(), Pair(), PassState(i), PassAct(i), PassState(i + 1))
  {
    PairMessages();
    var s, s' := PassState(i + 1), Apply(ShortestPath(), Pair(), PassState(i), PassAct(i));
    assert s.threads[0].output == s'.threads[0].output;
    assert s.table == s'.table && s.lock == s'.lock && s.threads == s'.threads;
  }

  lemma PassSteps5(i: nat)
    requires 12 <= i < 14
    ensures Step(ShortestPath(), Pair(), PassState(i), PassAct(i), PassState(i + 1))
  {
    var s, s' := PassState(i + 1), Apply(ShortestPath(), Pair(), PassState(i), PassAct(i));
    assert s.table == s'.table && s.lock == s'.lock && s.threads == s'.threads;
  }

  lemma PassSteps6(i: nat)
    requires 14 <= i < 16
    ensures Step(ShortestPath(), Pair(), PassState(i), PassAct(i), PassState(i + 1))
  {
    var s, s' := PassState(i + 1), Apply(ShortestPath(), Pair(), PassState(i), PassAct(i));
    assert s.table == s'.table && s.lock == s'.lock && s.threads == s'.threads;
  }

  ghost function PassActs(): (acts: seq<Act>)
    ensures |acts| == 16
  {
    seq(16, i requires 0 <= i < 16 => PassAct(i))
  }

  ghost function PassRun(): (ss: seq<State<Dist>>)
    ensures |ss| == 17
  {
    seq(17, i requires 0 <= i < 17 => PassState(i))
  }

  lemma PassIsRun()
    ensures ShortestPathRun(Pair(), 1, PassRun(), PassActs())
  {
    forall i | 0 <= i < 16 ensures Step(ShortestPath(), Pair(), PassRun()[i], PassActs()[i], PassRun()[i + 1]) {
      if i < 3 {
        PassSteps1(i);
      } else if i < 6 {
        PassSteps2(i);
      } else if i < 9 {
        PassSteps3(i);
      } else if i < 12 {
        PassSteps4(i);
      } else if i < 14 {
        PassSteps5(i);
      } else {
        PassSteps6(i);
      }
    }
    PairMessages();
    assert Initial(ShortestPath(), Pair(), PassState(0), StartValues(Pair()), StartDeltas(Pair(), 1));
  }

  lemma {:induction false} AbsorbedHas(ss: seq<State<Dist>>, acts: seq<Act>, b: nat, i: nat, e: nat, k: nat)
    requires b <= i < e <= |acts| <= |ss| && k in Folds(ss[i], acts[i])
    ensures k in Absorbed(ss, acts, b, e)
  {
    if i < e - 1 {
      AbsorbedHas(ss, acts, b, i, e - 1, k);
    }
  }

  lemma PassFolds()
    ensures AtRest(PassRun()[0]) && 0 in Folds(PassRun()[2], PassActs()[2]) && 1 in Folds(PassRun()[8], PassActs()[8])
  {
    assert PassRun()[0] == PassState(0) && PassRun()[2] == PassState(2) && PassRun()[8] == PassState(8);
  }

  lemma {:induction false} AbsorbsBoth(ss: seq<State<Dist>>, acts: seq<Act>, i: nat, j: nat)
    requires i < |acts| <= |ss| && j < |acts| && 0 in Folds(ss[i], acts[i]) && 1 in Folds(ss[j], acts[j])
    ensures CoversAll(Absorbed(ss, acts, 0, |acts|), 2)
  {
    AbsorbedHas(ss, acts, 0, i, |acts|, 0);
    AbsorbedHas(ss, acts, 0, j, |acts|, 1);
  }

  lemma PassIsFull()
    ensures PathPass(Pair(), PassRun(), PassActs(), 0, |PassActs()|)
  {
    PassFolds();
    AbsorbsBoth(PassRun(), PassActs(), 2, 8);
  }

  lemma OnlySourceAtEnd()
    ensures AtRest(PassRun()[16]) && |PassRun()[16].table| == 2
    ensures PassRun()[16].table[0].v == Top && PassRun()[16].table[1].v == Fin(0.0)
  {
    assert PassRun()[16] == PassState(16);
  }

  lemma NothingAtStart()
    ensures |PassRun()[0].table| == 2 && PassRun()[0].table[0].v == PassRun()[0].table[1].v == Top
  {
    assert PassRun()[0] == PassState(0);
  }

  function ScanAt(moment: nat): (scan: Scan)
    ensures Spans(scan, 2, moment, moment)
  {
    assert [0, 1][0] == 0 && [0, 1][1] == 1;
    Scan([0, 1], [moment, moment])
  }

  // Two scans around a full pass, in the same order, whose totals satisfy the check at any threshold.
  ghost predicate StoppedAfterPass(g: Graph, src: nat, ss: seq<State<Dist>>, acts: seq<Act>,
                                   scan1: Scan, values1: seq<Dist>, scan2: Scan, values2: seq<Dist>)
  {
    && ShortestPathRun(g, src, ss, acts) && PathPass(g, ss, acts, 0, |acts|) && AtRest(ss[|acts|])
    && Spans(scan1, |g|, 0, 0) && ReadsPaths(ss, scan1, values1)
    && Spans(scan2, |g|, |acts|, |acts|) && ReadsPaths(ss, scan2, values2)
    && scan1.order == scan2.order
    && TermCheck.Settles([Total(Finites(values1)), Total(Finites(values2))], 1, 0.0)
  }

  // NothingNew is needed: the default is not counted and the source enters with the value 0, so
  // after the first pass the totals are equal and a vertex one edge away has no distance yet.
  lemma SourceCountsAsNothing()
    ensures StoppedAfterPass(Pair(), 1, PassRun(), PassActs(), ScanAt(0), [Top, Top], ScanAt(16), [Top, Fin(0.0)])
    ensures !Exact(Pair(), 1, PassRun()[16])
  {
    PassIsRun();
    PassIsFull();
    PassScans();
    OnlySourceAtEnd();
    PassLeavesTargetOut();
  }

  lemma PassScans()
    ensures ReadsPaths(PassRun(), ScanAt(0), [Top, Top]) && ReadsPaths(PassRun(), ScanAt(16), [Top, Fin(0.0)])
    ensures ScanAt(0).order == ScanAt(16).order
    ensures TermCheck.Settles([Total(Finites([Top, Top])), Total(Finites([Top, Fin(0.0)]))], 1, 0.0)
  {
    NothingAtStart();
    OnlySourceAtEnd();
    assert Finites([Top, Top]) == [0.0, 0.0] && Finites([Top, Fin(0.0)]) == [0.0, 0.0];
  }

  lemma PassLeavesTargetOut()
    ensures !Exact(Pair(), 1, PassRun()[16])
  {
    var w := [Hop(1, 0)];
    assert w[..0] == [] && IsWalk(Pair(), 1, [], 1);
    assert IsWalk(Pair(), 1, w, 0) && !Leq(Top, Fin(Length(Pair(), w)));
    OnlySourceAtEnd();
  }
}
