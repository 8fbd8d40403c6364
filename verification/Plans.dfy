/**
 * What the engine can do: any number of workers can carry out any plan of rounds on any graph
 * and come to the end, so the results about runs are about runs that exist.
 */
module Plans {
  import opened Options
  import opened Kernels
  import opened RoundLoop
  import Rounds
  import Wakeups
  import Update
  import Progress
  import System

  // For each round, what its iterator assigns to each worker.
  type Plan = seq<seq<seq<nat>>>

  // What is computed, and by how many workers.
  datatype Job<!V> = Job(K: Kernel<V>, g: Graph, v0: seq<V>, d0: seq<V>, n: nat)

  datatype Trace<V> = Trace(ss: seq<System.State<V>>, acts: seq<System.Act>)

  ghost predicate IsJob<V(!new)>(j: Job<V>) {
    QuietPriority(j.K) && Closed(j.g) && |j.v0| == |j.d0| == |j.g| && j.n > 0
  }

  ghost predicate IsPlan<V>(j: Job<V>, plan: Plan) {
    forall r | 0 <= r < |plan| :: System.WorkOk(plan[r], j.n, |j.g|)
  }

  // The iterators handed out so far.
  ghost function Obtained(acts: seq<System.Act>): Plan {
    if |acts| == 0 then []
    else Obtained(acts[..|acts| - 1]) + Handed(acts[|acts| - 1])
  }

  ghost function Handed(a: System.Act): Plan {
    if a.Protocol? && a.a == Rounds.Obtain(true) then [a.work] else []
  }

  // A run of the job that has brought the schedule thread to spc after so many rounds.
  // One conjunction under a match, so that it stays one fact where it is proved.
  ghost predicate Reached<V>(j: Job<V>, tr: Trace<V>, spc: Rounds.SPc, round: nat, plan: Plan) {
    match tr
    case Trace(ss, acts) =>
      && System.IsRun(j.K, j.g, j.v0, j.d0, ss, acts) && |ss[0].rounds.wpc| == j.n
      && System.Inv(j.K, j.g, ss[|acts|]) && |ss[|acts|].rounds.wpc| == j.n
      && ss[|acts|].rounds.spc == spc && ss[|acts|].rounds.round == round && Obtained(acts) == plan
  }

  ghost function Last<V>(tr: Trace<V>): System.State<V>
    requires |tr.ss| > 0
  {
    tr.ss[|tr.ss| - 1]
  }

  lemma ReachedIs<V>(j: Job<V>, tr: Trace<V>, spc: Rounds.SPc, round: nat, plan: Plan)
    requires Reached(j, tr, spc, round, plan)
    ensures |tr.ss| > 0 && System.Inv(j.K, j.g, Last(tr)) && |Last(tr).rounds.wpc| == j.n
    ensures Last(tr).rounds.spc == spc && Last(tr).rounds.round == round
  {
  }

  // ---------- one step more ----------

  lemma ExtendRun<V(!new)>(K: Kernel<V>, g: Graph, v0: seq<V>, d0: seq<V>, ss: seq<System.State<V>>,
                           acts: seq<System.Act>, a: System.Act, s: System.State<V>)
    requires System.IsRun(K, g, v0, d0, ss, acts) && System.Step(K, g, ss[|acts|], a, s)
    ensures System.IsRun(K, g, v0, d0, ss + [s], acts + [a])
  {
    forall i | 0 <= i < |acts| + 1 ensures System.Step(K, g, (ss + [s])[i], (acts + [a])[i], (ss + [s])[i + 1]) {
      if i < |acts| {
        assert System.Step(K, g, ss[i], acts[i], ss[i + 1]);
      }
    }
  }

  lemma SameWorkers<V>(K: Kernel<V>, g: Graph, s: System.State<V>, a: System.Act)
    requires System.Sized(g, s) && System.Enabled(g, s, a)
    ensures |System.Apply(K, g, s, a).rounds.wpc| == |s.rounds.wpc|
  {
    if a.Protocol? {
      Rounds.StepSizes(s.rounds, a.a);
    }
  }

  lemma Extend<V(!new)>(j: Job<V>, tr: Trace<V>, spc: Rounds.SPc, round: nat, plan: Plan,
                        a: System.Act, s: System.State<V>) returns (tr': Trace<V>)
    requires IsJob(j) && Reached(j, tr, spc, round, plan) && |tr.ss| > 0
    requires System.Step(j.K, j.g, Last(tr), a, s)
    ensures Reached(j, tr', s.rounds.spc, s.rounds.round, plan + Handed(a))
    ensures |tr'.ss| > 0 && Last(tr') == s
  {
    ReachedIs(j, tr, spc, round, plan);
    System.StepInv(j.K, j.g, Last(tr), a);
    SameWorkers(j.K, j.g, Last(tr), a);
    ExtendRun(j.K, j.g, j.v0, j.d0, tr.ss, tr.acts, a, s);
    tr' := Trace(tr.ss + [s], tr.acts + [a]);
    assert (tr.acts + [a])[..|tr.acts|] == tr.acts;
    assert Reached(j, tr', s.rounds.spc, s.rounds.round, plan + Handed(a));
  }

  // A step of the protocol that neither enters nor leaves a worker's stretch of work.
  lemma ProtocolStep<V(!new)>(j: Job<V>, tr: Trace<V>, spc: Rounds.SPc, round: nat, plan: Plan,
                              b: Rounds.Act, work: seq<seq<nat>>) returns (tr': Trace<V>)
    requires IsJob(j) && Reached(j, tr, spc, round, plan) && |tr.ss| > 0
    requires Rounds.Enabled(Last(tr).rounds, b) && (b == Rounds.Obtain(true) ==> System.WorkOk(work, j.n, |j.g|))
    requires b.Work? ==> forall t | 0 <= t < |Last(tr).engine.threads| :: Update.Finished(Last(tr).engine.threads[t])
    ensures |tr'.ss| > 0 && Last(tr').rounds == Rounds.Apply(Last(tr).rounds, b)
    ensures Reached(j, tr', Last(tr').rounds.spc, Last(tr').rounds.round, plan + Handed(System.Protocol(b, work)))
  {
    ReachedIs(j, tr, spc, round, plan);
    var a := System.Protocol(b, work);
    assert System.Enabled(j.g, Last(tr), a);
    tr' := Extend(j, tr, spc, round, plan, a, System.Apply(j.K, j.g, Last(tr), a));
  }

  lemma AllFinished<V>(j: Job<V>, tr: Trace<V>, spc: Rounds.SPc, round: nat, plan: Plan)
    requires Reached(j, tr, spc, round, plan) && |tr.ss| > 0 && Rounds.AllResting(Last(tr).rounds)
    ensures forall t | 0 <= t < |Last(tr).engine.threads| :: Update.Finished(Last(tr).engine.threads[t])
  {
    ReachedIs(j, tr, spc, round, plan);
    assert forall t | 0 <= t < |Last(tr).rounds.wpc| :: Rounds.Resting(Last(tr).rounds.wpc[t]);
  }

  // ---------- the workers come to the start ----------

  lemma ParkStep(s: Rounds.State) returns (a: Rounds.Act)
    requires Rounds.Inv(s) && (s.spc == Rounds.LockThread || s.spc == Rounds.FinalLock) && !Rounds.AllParked(s)
    ensures Rounds.Enabled(s, a) && a.Work?
    ensures Wakeups.Remaining(Rounds.Apply(s, a).wpc) < Wakeups.Remaining(s.wpc)
    ensures Rounds.Apply(s, a).spc == s.spc && Rounds.Apply(s, a).round == s.round
    ensures Rounds.Apply(s, a).it2 == s.it2
  {
    Wakeups.WorkerCanMove(s);
    a :| Rounds.Enabled(s, a) && (a.Work? || a.Release?);
    assert s.wpc[0] != Rounds.AtBarrier by {
      assert Rounds.Resting(s.wpc[0]);
    }
    Wakeups.WorkersRunDown(s, a);
  }

  lemma {:induction false} WorkersPark<V(!new)>(j: Job<V>, tr: Trace<V>, spc: Rounds.SPc, round: nat, plan: Plan)
    returns (tr': Trace<V>)
    requires IsJob(j) && Reached(j, tr, spc, round, plan) && |tr.ss| > 0
    requires spc == Rounds.LockThread || spc == Rounds.FinalLock
    ensures Reached(j, tr', spc, round, plan) && |tr'.ss| > 0 && Rounds.AllParked(Last(tr').rounds)
    decreases Wakeups.Remaining(Last(tr).rounds.wpc)
  {
    ReachedIs(j, tr, spc, round, plan);
    if Rounds.AllParked(Last(tr).rounds) {
      tr' := tr;
    } else {
      var a := ParkStep(Last(tr).rounds);
      AllFinished(j, tr, spc, round, plan);
      var next := ProtocolStep(j, tr, spc, round, plan, a, []);
      assert plan + [] == plan;
      tr' := WorkersPark(j, next, spc, round, plan);
    }
  }

  // ---------- the workers run their round ----------

  ghost predicate SomebodyWorks<V>(s: System.State<V>) {
    exists t :: 0 <= t < |s.engine.threads| && !Update.Finished(s.engine.threads[t])
  }

  lemma EngineStep<V(!new)>(K: Kernel<V>, g: Graph, s: System.State<V>) returns (a: System.Act, s': System.State<V>)
    requires System.Inv(K, g, s) && SomebodyWorks(s)
    ensures System.Step(K, g, s, a, s') && a.Engine? && s'.rounds == s.rounds
    ensures Update.Shape(g, s.engine) && Update.Shape(g, s'.engine)
    ensures Progress.Left(g, s'.engine.threads) < Progress.Left(g, s.engine.threads)
  {
    Update.NoDeadlock(K, g, s.engine);
    var t: nat :| t < |s.engine.threads| && Update.Enabled(g, s.engine, Update.Move(t));
    a := System.Engine(t);
    s' := System.Apply(K, g, s, a);
    Progress.StepUsesOne(K, g, s.engine, t);
  }

  // Steps of run_iter left to the workers.
  ghost function StepsLeft<V>(j: Job<V>, tr: Trace<V>, spc: Rounds.SPc, round: nat, plan: Plan): nat
    requires Reached(j, tr, spc, round, plan)
  {
    Progress.Left(j.g, Last(tr).engine.threads)
  }

  lemma RoundStep(s: Rounds.State) returns (a: Rounds.Act)
    requires Wakeups.Hopeful(s)
    ensures Rounds.Enabled(s, a) && (a.Work? || a.Release?) && Rounds.Apply(s, a).round == s.round
    ensures Wakeups.Remaining(Rounds.Apply(s, a).wpc) < Wakeups.Remaining(s.wpc)
    ensures Rounds.Apply(s, a).spc == Rounds.Awake
            || (Rounds.Apply(s, a).spc == Rounds.Waiting && Wakeups.Hopeful(Rounds.Apply(s, a)))
  {
    a := Wakeups.HopefulCanStep(s);
    Wakeups.HopefulStep(s, a);
    Wakeups.WaitingStep(s, a);
  }

  lemma {:induction false} WorkersRun<V(!new)>(j: Job<V>, tr: Trace<V>, round: nat, plan: Plan) returns (tr': Trace<V>)
    requires IsJob(j) && Reached(j, tr, Rounds.Waiting, round, plan) && |tr.ss| > 0
    requires Wakeups.Hopeful(Last(tr).rounds)
    ensures Reached(j, tr', Rounds.Awake, round, plan)
    decreases Wakeups.Remaining(Last(tr).rounds.wpc), StepsLeft(j, tr, Rounds.Waiting, round, plan)
  {
    ReachedIs(j, tr, Rounds.Waiting, round, plan);
    assert plan + [] == plan;
    if SomebodyWorks(Last(tr)) {
      var a, s := EngineStep(j.K, j.g, Last(tr));
      var next := Extend(j, tr, Rounds.Waiting, round, plan, a, s);
      tr' := WorkersRun(j, next, round, plan);
    } else {
      var b := RoundStep(Last(tr).rounds);
      var next := ProtocolStep(j, tr, Rounds.Waiting, round, plan, b, []);
      if Last(next).rounds.spc == Rounds.Awake {
        tr' := next;
      } else {
        tr' := WorkersRun(j, next, round, plan);
      }
    }
  }

  // ---------- the schedule thread on its way ----------

  lemma NobodyHolds(s: Rounds.State)
    requires Rounds.Inv(s) && Rounds.AllParked(s)
    ensures !s.threadm.Worker?
  {
    forall t | 0 <= t < |s.wpc| ensures s.threadm != Rounds.Worker(t) {
      assert s.wpc[t] == Rounds.Parked;
    }
  }

  lemma SchedCanMove(s: Rounds.State, k: nat, round: nat)
    requires Rounds.Inv(s) && k < 5 && s.spc == BeforeWait(k) && OnTheWay(s, k, round)
    ensures Rounds.Enabled(s, Rounds.Sched) && Rounds.Apply(s, Rounds.Sched).spc == BeforeWait(k + 1)
  {
    if k == 0 {
      NobodyHolds(s);
    }
    StepBeforeWait(s, Rounds.Sched, k, round);
  }

  lemma WokenByBroadcast(s: Rounds.State, k: nat, round: nat)
    requires Rounds.Inv(s) && k < 5 && s.spc == BeforeWait(k) && OnTheWay(s, k, round)
    requires Rounds.Enabled(s, Rounds.Sched) && (k == 4 ==> s.wpc[0] == Rounds.Woken)
    ensures |Rounds.Apply(s, Rounds.Sched).wpc| > 0
    ensures k >= 3 ==> Rounds.Apply(s, Rounds.Sched).wpc[0] == Rounds.Woken
  {
  }

  // With every worker parked, on to the wait.
  lemma {:induction false} ToWait<V(!new)>(j: Job<V>, tr: Trace<V>, k: nat, round: nat, plan: Plan)
    returns (tr': Trace<V>)
    requires |tr.ss| > 0 && IsJob(j) && Reached(j, tr, BeforeWait(k), Last(tr).rounds.round, plan) && k <= 5
    requires OnTheWay(Last(tr).rounds, k, round)
    requires k >= 4 ==> |Last(tr).rounds.wpc| > 0 && Last(tr).rounds.wpc[0] == Rounds.Woken
    ensures Reached(j, tr', Rounds.Waiting, round + 1, plan)
    ensures |tr'.ss| > 0 && Wakeups.Hopeful(Last(tr').rounds)
    decreases 5 - k
  {
    var s := Last(tr).rounds;
    ReachedIs(j, tr, BeforeWait(k), s.round, plan);
    if k == 5 {
      tr' := tr;
      assert Wakeups.Owes(s.wpc[0]);
    } else {
      SchedCanMove(s, k, round);
      StepBeforeWait(s, Rounds.Sched, k, round);
      WokenByBroadcast(s, k, round);
      var next := ProtocolStep(j, tr, BeforeWait(k), s.round, plan, Rounds.Sched, []);
      assert plan + [] == plan;
      tr' := ToWait(j, next, k + 1, round, plan);
    }
  }

  lemma ReleasedSteps(s: Rounds.State)
    requires s.spc == Rounds.Awake
    ensures Rounds.Enabled(s, Rounds.Sched)
    ensures var s1 := Rounds.Apply(s, Rounds.Sched);
            && s1.spc == Rounds.Delete && s1.round == s.round && Rounds.Enabled(s1, Rounds.Sched)
            && var s2 := Rounds.Apply(s1, Rounds.Sched);
               s2.spc == Rounds.Get && s2.round == s.round
  {
  }

  lemma ToGet<V(!new)>(j: Job<V>, tr: Trace<V>, round: nat, plan: Plan) returns (tr': Trace<V>)
    requires IsJob(j) && Reached(j, tr, Rounds.Awake, round, plan)
    ensures Reached(j, tr', Rounds.Get, round, plan)
  {
    ReachedIs(j, tr, Rounds.Awake, round, plan);
    ReleasedSteps(Last(tr).rounds);
    assert plan + [] == plan;
    var next := ProtocolStep(j, tr, Rounds.Awake, round, plan, Rounds.Sched, []);
    tr' := ProtocolStep(j, next, Rounds.Delete, round, plan, Rounds.Sched, []);
  }

  lemma ObtainAndTest(s: Rounds.State, more: bool)
    requires s.spc == Rounds.Get
    ensures Rounds.Enabled(s, Rounds.Obtain(more))
    ensures var s1 := Rounds.Apply(s, Rounds.Obtain(more));
            && s1.spc == Rounds.Test && s1.round == s.round && Rounds.Enabled(s1, Rounds.Sched)
            && var s2 := Rounds.Apply(s1, Rounds.Sched);
               s2.spc == (if more then Rounds.LockThread else Rounds.FinalLock) && s2.round == s.round
  {
  }

  lemma ToTest<V(!new)>(j: Job<V>, tr: Trace<V>, round: nat, plan: Plan, more: bool, work: seq<seq<nat>>)
    returns (tr': Trace<V>)
    requires IsJob(j) && Reached(j, tr, Rounds.Get, round, plan) && (more ==> System.WorkOk(work, j.n, |j.g|))
    ensures Reached(j, tr', if more then Rounds.LockThread else Rounds.FinalLock, round,
                    plan + Handed(System.Protocol(Rounds.Obtain(more), work)))
  {
    var plan' := plan + Handed(System.Protocol(Rounds.Obtain(more), work));
    ReachedIs(j, tr, Rounds.Get, round, plan);
    ObtainAndTest(Last(tr).rounds, more);
    var next := ProtocolStep(j, tr, Rounds.Get, round, plan, Rounds.Obtain(more), work);
    assert plan' + [] == plan';
    tr' := ProtocolStep(j, next, Rounds.Test, round, plan', Rounds.Sched, []);
  }

  // From the head of the loop past the test, with every worker parked.
  lemma Begin<V(!new)>(j: Job<V>, tr: Trace<V>, round: nat, plan: Plan, more: bool, work: seq<seq<nat>>)
    returns (tr': Trace<V>)
    requires IsJob(j) && Reached(j, tr, Rounds.Get, round, plan) && (more ==> System.WorkOk(work, j.n, |j.g|))
    ensures Reached(j, tr', if more then Rounds.LockThread else Rounds.FinalLock, round,
                    plan + Handed(System.Protocol(Rounds.Obtain(more), work)))
    ensures |tr'.ss| > 0 && Rounds.AllParked(Last(tr').rounds)
  {
    var plan' := plan + Handed(System.Protocol(Rounds.Obtain(more), work));
    var spc := if more then Rounds.LockThread else Rounds.FinalLock;
    var next := ToTest(j, tr, round, plan, more, work);
    ReachedIs(j, next, spc, round, plan');
    tr' := WorkersPark(j, next, spc, round, plan');
  }

  lemma OneRound<V(!new)>(j: Job<V>, tr: Trace<V>, round: nat, plan: Plan, work: seq<seq<nat>>) returns (tr': Trace<V>)
    requires IsJob(j) && Reached(j, tr, Rounds.Get, round, plan) && System.WorkOk(work, j.n, |j.g|)
    ensures Reached(j, tr', Rounds.Get, round + 1, plan + [work])
  {
    var plan' := plan + [work];
    var t1 := Begin(j, tr, round, plan, true, work);
    assert Handed(System.Protocol(Rounds.Obtain(true), work)) == [work];
    ReachedIs(j, t1, Rounds.LockThread, round, plan');
    var t2 := ToWait(j, t1, 0, round, plan');
    var t3 := WorkersRun(j, t2, round + 1, plan');
    tr' := ToGet(j, t3, round + 1, plan');
  }

  lemma FinalSteps(s: Rounds.State)
    requires Rounds.Inv(s) && s.spc == Rounds.FinalLock && Rounds.AllParked(s)
    ensures Rounds.Enabled(s, Rounds.Sched)
    ensures var s1 := Rounds.Apply(s, Rounds.Sched);
            && s1.spc == Rounds.FinalCheck && s1.round == s.round && Rounds.Enabled(s1, Rounds.Sched)
            && var s2 := Rounds.Apply(s1, Rounds.Sched);
               s2.spc == Rounds.Done && s2.round == s.round
  {
    NobodyHolds(s);
    Rounds.NumCountedExtremes(s.wpc);
  }

  // From the head of the loop to the end, once the table has been terminated.
  lemma Leave<V(!new)>(j: Job<V>, tr: Trace<V>, round: nat, plan: Plan) returns (tr': Trace<V>)
    requires IsJob(j) && Reached(j, tr, Rounds.Get, round, plan)
    ensures Reached(j, tr', Rounds.Done, round, plan)
  {
    assert plan + [] == plan;
    var t1 := Begin(j, tr, round, plan, false, []);
    ReachedIs(j, t1, Rounds.FinalLock, round, plan);
    FinalSteps(Last(t1).rounds);
    var t2 := ProtocolStep(j, t1, Rounds.FinalLock, round, plan, Rounds.Sched, []);
    tr' := ProtocolStep(j, t2, Rounds.FinalCheck, round, plan, Rounds.Sched, []);
  }

  lemma Beginning<V(!new)>(j: Job<V>) returns (tr: Trace<V>)
    requires IsJob(j)
    ensures Reached(j, tr, Rounds.Get, 0, [])
  {
    var rounds := Rounds.State(Rounds.Get, seq(j.n, t => Rounds.Enter), Rounds.Free, 0, None, {}, 0, 0,
                               seq(j.n, t => 0));
    var table := seq(|j.g|, k requires 0 <= k < |j.g| => PutRow(j.K, j.d0[k], j.v0[k]));
    var threads := seq(j.n, t => Update.Thread(Update.Idle, [], [], 0));
    var s := System.State(rounds, Update.State(table, seq(|j.g|, k => None), threads), seq(j.n, t => []), {}, 0);
    assert System.Initial(j.K, j.g, s, j.v0, j.d0);
    System.InitialInv(j.K, j.g, s, j.v0, j.d0);
    tr := Trace([s], []);
    assert Reached(j, tr, Rounds.Get, 0, []);
  }

  lemma {:induction false} CarryOut<V(!new)>(j: Job<V>, plan: Plan) returns (tr: Trace<V>)
    requires IsJob(j) && IsPlan(j, plan)
    ensures Reached(j, tr, Rounds.Get, |plan|, plan)
  {
    if |plan| == 0 {
      tr := Beginning(j);
    } else {
      var r := |plan| - 1;
      var before := CarryOut(j, plan[..r]);
      tr := OneRound(j, before, r, plan[..r], plan[r]);
      assert plan == plan[..r] + [plan[r]];
    }
  }

  /**
   * Any number of workers, any graph, any plan: there is a run in which the table hands out the
   * iterators of the plan, one a round, every round is completed, and the schedule thread is
   * back at the head of its loop; and one that comes to the end after it.
   */
  lemma EveryPlanHappens<V(!new)>(j: Job<V>, plan: Plan, ends: bool)
    returns (ss: seq<System.State<V>>, acts: seq<System.Act>)
    requires IsJob(j) && IsPlan(j, plan)
    ensures System.IsRun(j.K, j.g, j.v0, j.d0, ss, acts) && |ss[0].rounds.wpc| == j.n && Obtained(acts) == plan
    ensures ss[|acts|].rounds.round == |plan|
    ensures ss[|acts|].rounds.spc == if ends then Rounds.Done else Rounds.Get
  {
    var tr := CarryOut(j, plan);
    if ends {
      tr := Leave(j, tr, |plan|, plan);
    }
    ss, acts := tr.ss, tr.acts;
  }
}
