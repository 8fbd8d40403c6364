/**
 * The whole engine: the round protocol and the update program together.  A worker runs
 * run_iter only between fetching the iterator and the barrier, on its own positions.
 */
module System {
  import opened Kernels
  import Rounds
  import Update

  /**
   * work[t]: the vertices the current iterator assigns to thread t.  done: vertices folded
   * since the last wakeup; passes: completed rounds whose iterator covered every vertex.
   * The last two are history.
   */
  datatype State<V> = State(
    rounds: Rounds.State,
    engine: Update.State<V>,
    work: seq<seq<nat>>,
    done: set<nat>,
    passes: nat)

  datatype Act = Protocol(a: Rounds.Act, work: seq<seq<nat>>) | Engine(t: nat)

  ghost predicate WorkOk(work: seq<seq<nat>>, threads: nat, n: nat) {
    |work| == threads && forall t, i | 0 <= t < |work| && 0 <= i < |work[t]| :: work[t][i] < n
  }

  ghost predicate Assigned(work: seq<seq<nat>>, k: nat) {
    exists t | 0 <= t < |work| :: k in work[t]
  }

  // The iterator assigns every vertex to some thread.
  ghost predicate Full(work: seq<seq<nat>>, n: nat) {
    forall k: nat | k < n :: Assigned(work, k)
  }

  ghost predicate Sized<V>(g: Graph, s: State<V>) {
    && |s.engine.threads| == |s.rounds.wpc| && WorkOk(s.work, |s.rounds.wpc|, |g|)
    && Update.Shape(g, s.engine)
  }

  ghost predicate Fetches<V>(s: State<V>, a: Rounds.Act) {
    a.Work? && a.t < |s.rounds.wpc| && s.rounds.wpc[a.t].Fetch? && s.rounds.it2.Some?
  }

  ghost predicate Enabled<V>(g: Graph, s: State<V>, a: Act)
    requires Sized(g, s)
  {
    match a
    case Protocol(a, work) =>
      && Rounds.Enabled(s.rounds, a)
      && (a == Rounds.Obtain(true) ==> WorkOk(work, |s.rounds.wpc|, |g|))
      && (a.Work? && s.rounds.wpc[a.t].Working? ==> Update.Finished(s.engine.threads[a.t]))
      && (Fetches(s, a) ==> Update.Finished(s.engine.threads[a.t]))
    case Engine(t) =>
      && t < |s.rounds.wpc| && s.rounds.wpc[t].Working?
      && Update.Enabled(g, s.engine, Update.Move(t))
  }

  ghost function Apply<V>(K: Kernel<V>, g: Graph, s: State<V>, a: Act): State<V>
    requires Sized(g, s) && Enabled(g, s, a)
  {
    match a
    case Protocol(a, work) =>
      State(Rounds.Apply(s.rounds, a),
            if Fetches(s, a) then Update.Apply(K, g, s.engine, Update.Assign(a.t, s.work[a.t])) else s.engine,
            if a == Rounds.Obtain(true) then work else s.work,
            if a.Sched? && s.rounds.spc.Broadcast? then {} else s.done,
            if a.Release? && Full(s.work, |g|) then s.passes + 1 else s.passes)
    case Engine(t) =>
      s.(engine := Update.Apply(K, g, s.engine, Update.Move(t)),
         done := s.done + Update.Folds(s.engine, Update.Move(t)))
  }

  // ---------- invariant ----------

  ghost predicate Resting<V>(s: State<V>) {
    Rounds.AllResting(s.rounds)
  }

  // Outside its working stretch a worker has no position, no message and no mutex.
  ghost predicate IdleOutside<V>(s: State<V>)
    requires |s.engine.threads| == |s.rounds.wpc|
  {
    forall t | 0 <= t < |s.rounds.wpc| && !s.rounds.wpc[t].Working? :: Update.Finished(s.engine.threads[t])
  }

  // Position k of thread t's list is behind it, in front of it, or in its hands.
  ghost predicate Accounted<V>(s: State<V>, t: nat, k: nat)
    requires t < |s.engine.threads| == |s.rounds.wpc|
  {
    match s.rounds.wpc[t]
    case Working(_) => k in s.done || k in s.engine.threads[t].todo || s.engine.threads[t].pc == Update.Locked(k)
    case AtBarrier => k in s.done
    case _ => true
  }

  ghost predicate AllAccounted<V>(s: State<V>)
    requires |s.work| == |s.engine.threads| == |s.rounds.wpc|
  {
    forall t, i | 0 <= t < |s.work| && 0 <= i < |s.work[t]| :: Accounted(s, t, s.work[t][i])
  }

  ghost predicate Inv<V>(K: Kernel<V>, g: Graph, s: State<V>) {
    match s
    case State(rounds, engine, _, _, _) =>
      && Rounds.Inv(rounds) && Update.Inv(K, g, engine) && Sized(g, s)
      && IdleOutside(s) && AllAccounted(s)
  }

  ghost predicate Initial<V>(K: Kernel<V>, g: Graph, s: State<V>, v0: seq<V>, d0: seq<V>) {
    && Rounds.Initial(s.rounds) && Update.Initial(K, g, s.engine, v0, d0)
    && |s.engine.threads| == |s.rounds.wpc| == |s.work|
    && (forall t | 0 <= t < |s.work| :: |s.work[t]| == 0)
    && s.done == {} && s.passes == 0
  }

  lemma InitialInv<V>(K: Kernel<V>, g: Graph, s: State<V>, v0: seq<V>, d0: seq<V>)
    requires Initial(K, g, s, v0, d0)
    ensures Inv(K, g, s) && Resting(s) && Update.AtRest(s.engine)
  {
    Rounds.InitialInv(s.rounds);
    Update.InitialInv(K, g, s.engine, v0, d0);
    forall t | 0 <= t < |s.engine.threads| ensures Update.Finished(s.engine.threads[t]) {
      assert s.engine.threads[t] == Update.Thread(Update.Idle, [], [], 0);
    }
  }

  // At rest in the protocol is at rest in the engine: an iterator is built, and the result
  // dumped, while no worker touches the table and nothing is in flight.
  lemma RestingIsAtRest<V>(K: Kernel<V>, g: Graph, s: State<V>)
    requires Inv(K, g, s) && Resting(s)
    ensures Update.AtRest(s.engine)
  {
  }

  lemma EngineStepIdle<V>(K: Kernel<V>, g: Graph, s: State<V>, t: nat)
    requires Inv(K, g, s) && Enabled(g, s, Engine(t))
    ensures var s' := Apply(K, g, s, Engine(t));
            |s'.engine.threads| == |s'.rounds.wpc| && IdleOutside(s')
  {
  }

  lemma EngineStepAccounted<V>(K: Kernel<V>, g: Graph, s: State<V>, t: nat, u: nat, k: nat)
    requires Inv(K, g, s) && Enabled(g, s, Engine(t)) && u < |s.engine.threads| && Accounted(s, u, k)
    requires |Apply(K, g, s, Engine(t)).engine.threads| == |s.engine.threads|
    ensures Accounted(Apply(K, g, s, Engine(t)), u, k)
  {
    var s' := Apply(K, g, s, Engine(t));
    if u == t {
      var th := s.engine.threads[t];
      if th.pc.Idle? && k in th.todo && k != th.todo[0] {
        assert k in th.todo[1..];
      }
    } else {
      assert s'.engine.threads[u] == s.engine.threads[u];
    }
  }

  lemma EngineInv<V(!new)>(K: Kernel<V>, g: Graph, s: State<V>, t: nat)
    requires QuietPriority(K) && Inv(K, g, s) && Enabled(g, s, Engine(t))
    ensures Inv(K, g, Apply(K, g, s, Engine(t)))
  {
    var s' := Apply(K, g, s, Engine(t));
    Update.StepInv(K, g, s.engine, Update.Move(t));
    Update.StepShape(K, g, s.engine, Update.Move(t));
    EngineStepIdle(K, g, s, t);
    forall u, i | 0 <= u < |s'.work| && 0 <= i < |s'.work[u]| ensures Accounted(s', u, s'.work[u][i]) {
      assert Accounted(s, u, s.work[u][i]);
      EngineStepAccounted(K, g, s, t, u, s.work[u][i]);
    }
  }

  lemma ProtocolEngine<V(!new)>(K: Kernel<V>, g: Graph, s: State<V>, a: Rounds.Act, work: seq<seq<nat>>)
    requires QuietPriority(K) && Inv(K, g, s) && Enabled(g, s, Protocol(a, work))
    ensures var s' := Apply(K, g, s, Protocol(a, work));
            && Update.Inv(K, g, s'.engine) && |s'.engine.threads| == |s.engine.threads|
            && Update.Abstract(K, g, s'.engine) == Update.Abstract(K, g, s.engine)
            && (forall t | 0 <= t < |s.engine.threads| && !(Fetches(s, a) && t == a.t) ::
                  s'.engine.threads[t] == s.engine.threads[t])
  {
    if Fetches(s, a) {
      var b := Update.Assign(a.t, s.work[a.t]);
      Update.StepInv(K, g, s.engine, b);
      Update.StepRefines(K, g, s.engine, b);
    }
  }

  lemma ProtocolIdle<V>(K: Kernel<V>, g: Graph, s: State<V>, a: Rounds.Act, work: seq<seq<nat>>, t: nat)
    requires Inv(K, g, s) && Enabled(g, s, Protocol(a, work)) && t < |s.engine.threads|
    requires var s' := Apply(K, g, s, Protocol(a, work));
             |s'.engine.threads| == |s.engine.threads|
             && (!(Fetches(s, a) && t == a.t) ==> s'.engine.threads[t] == s.engine.threads[t])
    ensures var s' := Apply(K, g, s, Protocol(a, work));
            && |s'.rounds.wpc| == |s.rounds.wpc|
            && (!s'.rounds.wpc[t].Working? ==> Update.Finished(s'.engine.threads[t]))
  {
    if a.Work? {
      if a.t == t {
        assert s.rounds.wpc[t].Working? ==> Update.Finished(s.engine.threads[t]);
      } else {
        assert Rounds.Apply(s.rounds, a).wpc[t] == s.rounds.wpc[t];
      }
    }
  }

  lemma OwnStepAccounted<V>(K: Kernel<V>, g: Graph, s: State<V>, t: nat, work: seq<seq<nat>>, i: nat)
    requires Inv(K, g, s) && Enabled(g, s, Protocol(Rounds.Work(t), work)) && i < |s.work[t]|
    ensures var s' := Apply(K, g, s, Protocol(Rounds.Work(t), work));
            |s'.engine.threads| == |s'.rounds.wpc| && Accounted(s', t, s.work[t][i])
  {
    assert Accounted(s, t, s.work[t][i]);
  }

  lemma OtherStepAccounted<V>(s: State<V>, s': State<V>, t: nat, k: nat)
    requires t < |s.engine.threads| == |s.rounds.wpc| && t < |s'.engine.threads| == |s'.rounds.wpc|
    requires Accounted(s, t, k) && s'.engine.threads[t] == s.engine.threads[t]
    requires s'.rounds.wpc[t] == s.rounds.wpc[t] || (!s'.rounds.wpc[t].Working? && !s'.rounds.wpc[t].AtBarrier?)
    requires s'.done == s.done || Rounds.Resting(s'.rounds.wpc[t]) || s'.rounds.wpc[t].Woken?
    ensures Accounted(s', t, k)
  {
  }

  lemma ProtocolAccounted<V>(K: Kernel<V>, g: Graph, s: State<V>, a: Rounds.Act, work: seq<seq<nat>>, t: nat, i: nat)
    requires Inv(K, g, s) && Enabled(g, s, Protocol(a, work)) && t < |s.engine.threads|
    requires var s' := Apply(K, g, s, Protocol(a, work));
             && |s'.engine.threads| == |s.engine.threads| == |s'.rounds.wpc| == |s'.work|
             && (!(Fetches(s, a) && t == a.t) ==> s'.engine.threads[t] == s.engine.threads[t])
             && i < |s'.work[t]|
    ensures var s' := Apply(K, g, s, Protocol(a, work)); Accounted(s', t, s'.work[t][i])
  {
    var s' := Apply(K, g, s, Protocol(a, work));
    if a == Rounds.Obtain(true) {
      assert Rounds.Resting(s.rounds.wpc[t]);
    } else if a == Rounds.Work(t) {
      OwnStepAccounted(K, g, s, t, work, i);
    } else {
      assert Accounted(s, t, s.work[t][i]);
      if a.Sched? && s.rounds.spc.Broadcast? {
        assert s.rounds.wpc[t] == Rounds.Parked;
      }
      OtherStepAccounted(s, s', t, s.work[t][i]);
    }
  }

  lemma ProtocolInv<V(!new)>(K: Kernel<V>, g: Graph, s: State<V>, a: Rounds.Act, work: seq<seq<nat>>)
    requires QuietPriority(K) && Inv(K, g, s) && Enabled(g, s, Protocol(a, work))
    ensures Inv(K, g, Apply(K, g, s, Protocol(a, work)))
  {
    var s' := Apply(K, g, s, Protocol(a, work));
    Rounds.StepInv(s.rounds, a);
    ProtocolEngine(K, g, s, a, work);
    forall t | 0 <= t < |s.engine.threads| {
      ProtocolIdle(K, g, s, a, work, t);
    }
    assert |s'.rounds.wpc| == |s.rounds.wpc|;
    forall t, i | 0 <= t < |s'.work| && 0 <= i < |s'.work[t]| ensures Accounted(s', t, s'.work[t][i]) {
      ProtocolAccounted(K, g, s, a, work, t, i);
    }
  }

  lemma StepInv<V(!new)>(K: Kernel<V>, g: Graph, s: State<V>, a: Act)
    requires QuietPriority(K) && Inv(K, g, s) && Enabled(g, s, a)
    ensures Inv(K, g, Apply(K, g, s, a))
  {
    match a {
      case Protocol(b, work) => ProtocolInv(K, g, s, b, work);
      case Engine(t) => EngineInv(K, g, s, t);
    }
  }

  // ---------- the four kinds of step ----------

  ghost predicate SameTable<V>(K: Kernel<V>, g: Graph, s: State<V>, s': State<V>)
    requires Update.Shape(g, s.engine) && Update.Shape(g, s'.engine)
  {
    Update.Abstract(K, g, s'.engine) == Update.Abstract(K, g, s.engine)
  }

  // Protocol bookkeeping within a phase.
  ghost predicate Quiet<V>(K: Kernel<V>, g: Graph, s: State<V>, s': State<V>)
    requires Update.Shape(g, s.engine) && Update.Shape(g, s'.engine)
  {
    SameTable(K, g, s, s') && s'.done == s.done && s'.passes == s.passes && (Resting(s') <==> Resting(s))
  }

  // The broadcast that starts a round.
  ghost predicate Wakes<V>(K: Kernel<V>, g: Graph, s: State<V>, s': State<V>)
    requires Update.Shape(g, s.engine) && Update.Shape(g, s'.engine)
  {
    && SameTable(K, g, s, s') && s'.done == {} && s'.passes == s.passes
    && Resting(s) && !Resting(s') && Update.AtRest(s.engine)
  }

  // A step of run_iter.
  ghost predicate Works<V>(K: Kernel<V>, g: Graph, s: State<V>, s': State<V>) {
    && !Resting(s) && !Resting(s') && s'.passes == s.passes
    && exists t :: Update.Simulates(K, g, s.engine, Update.Move(t), s'.engine)
                && s'.done == s.done + Update.Folds(s.engine, Update.Move(t))
  }

  // The barrier that ends a round.
  ghost predicate Joins<V>(K: Kernel<V>, g: Graph, s: State<V>, s': State<V>)
    requires Update.Shape(g, s.engine) && Update.Shape(g, s'.engine)
  {
    && SameTable(K, g, s, s') && s'.done == s.done && !Resting(s) && Resting(s') && Update.AtRest(s.engine)
    && (s'.passes == s.passes || (s'.passes == s.passes + 1 && Update.CoversAll(s.done, |g|)))
  }

  ghost predicate Transition<V>(K: Kernel<V>, g: Graph, s: State<V>, s': State<V>) {
    && Inv(K, g, s) && Inv(K, g, s')
    && (Quiet(K, g, s, s') || Wakes(K, g, s, s') || Works(K, g, s, s') || Joins(K, g, s, s'))
  }

  lemma WorkIsTransition<V(!new)>(K: Kernel<V>, g: Graph, s: State<V>, t: nat)
    requires QuietPriority(K) && Inv(K, g, s) && Enabled(g, s, Engine(t))
    ensures Works(K, g, s, Apply(K, g, s, Engine(t)))
  {
    var s' := Apply(K, g, s, Engine(t));
    Update.StepSimulates(K, g, s.engine, Update.Move(t), s'.engine);
    assert !Rounds.Resting(s.rounds.wpc[t]);
  }

  lemma JoinIsTransition<V(!new)>(K: Kernel<V>, g: Graph, s: State<V>, work: seq<seq<nat>>)
    requires Inv(K, g, s) && Enabled(g, s, Protocol(Rounds.Release, work))
    ensures Update.Shape(g, Apply(K, g, s, Protocol(Rounds.Release, work)).engine)
    ensures Joins(K, g, s, Apply(K, g, s, Protocol(Rounds.Release, work)))
  {
    var s' := Apply(K, g, s, Protocol(Rounds.Release, work));
    assert s.rounds.wpc[0] == Rounds.AtBarrier;
    assert !Rounds.Resting(s.rounds.wpc[0]);
    forall t | 0 <= t < |s.engine.threads|
      ensures s.engine.threads[t].pc.Idle? && |s.engine.threads[t].output| == 0
    {
      assert s.rounds.wpc[t] == Rounds.AtBarrier;
      assert Update.ThreadShape(|g|, s.engine.threads[t]);
    }
    if Full(s.work, |g|) {
      forall k: nat | k < |g| ensures k in s.done {
        assert Assigned(s.work, k);
        var t :| 0 <= t < |s.work| && k in s.work[t];
        var i :| 0 <= i < |s.work[t]| && s.work[t][i] == k;
        assert Accounted(s, t, s.work[t][i]);
        assert s.rounds.wpc[t] == Rounds.AtBarrier;
      }
    }
  }

  lemma WakeIsTransition<V(!new)>(K: Kernel<V>, g: Graph, s: State<V>, work: seq<seq<nat>>)
    requires Inv(K, g, s) && Enabled(g, s, Protocol(Rounds.Sched, work)) && s.rounds.spc.Broadcast?
    ensures Update.Shape(g, Apply(K, g, s, Protocol(Rounds.Sched, work)).engine)
    ensures Wakes(K, g, s, Apply(K, g, s, Protocol(Rounds.Sched, work)))
  {
    RestingIsAtRest(K, g, s);
    assert s.rounds.wpc[0] == Rounds.Parked;
    assert !Rounds.Resting(Apply(K, g, s, Protocol(Rounds.Sched, work)).rounds.wpc[0]);
  }

  // Every other protocol step leaves each worker on its side of the round.
  lemma PhaseKept(s: Rounds.State, a: Rounds.Act)
    requires Rounds.Inv(s) && Rounds.Enabled(s, a) && !a.Release? && !(a.Sched? && s.spc.Broadcast?)
    ensures Rounds.AllResting(Rounds.Apply(s, a)) <==> Rounds.AllResting(s)
  {
    var s' := Rounds.Apply(s, a);
    forall t | 0 <= t < |s.wpc| ensures Rounds.Resting(s'.wpc[t]) <==> Rounds.Resting(s.wpc[t]) {
      assert Rounds.Resting(s.wpc[t]) || Rounds.Active(s.wpc[t]);
    }
  }

  lemma StepIsTransition<V(!new)>(K: Kernel<V>, g: Graph, s: State<V>, a: Act)
    requires QuietPriority(K) && Inv(K, g, s) && Enabled(g, s, a)
    ensures Transition(K, g, s, Apply(K, g, s, a))
  {
    StepInv(K, g, s, a);
    match a {
      case Engine(t) => WorkIsTransition(K, g, s, t);
      case Protocol(b, work) =>
        if b.Release? {
          JoinIsTransition(K, g, s, work);
        } else if b.Sched? && s.rounds.spc.Broadcast? {
          WakeIsTransition(K, g, s, work);
        } else {
          ProtocolEngine(K, g, s, b, work);
          PhaseKept(s.rounds, b);
        }
    }
  }

  // ---------- runs ----------

  ghost predicate Step<V>(K: Kernel<V>, g: Graph, s: State<V>, a: Act, s': State<V>) {
    Sized(g, s) && Enabled(g, s, a) && s' == Apply(K, g, s, a)
  }

  ghost predicate IsRun<V>(K: Kernel<V>, g: Graph, v0: seq<V>, d0: seq<V>, ss: seq<State<V>>, acts: seq<Act>) {
    && |ss| == |acts| + 1 && Initial(K, g, ss[0], v0, d0)
    && forall i {:trigger acts[i]} | 0 <= i < |acts| :: Step(K, g, ss[i], acts[i], ss[i + 1])
  }

  lemma StepOfRun<V(!new)>(K: Kernel<V>, g: Graph, v0: seq<V>, d0: seq<V>,
                           ss: seq<State<V>>, acts: seq<Act>, i: nat)
    requires QuietPriority(K) && IsRun(K, g, v0, d0, ss, acts) && 0 < i <= |acts| && Inv(K, g, ss[i - 1])
    ensures Inv(K, g, ss[i]) && Transition(K, g, ss[i - 1], ss[i])
  {
    var a := acts[i - 1];
    assert Step(K, g, ss[i - 1], a, ss[i]);
    StepIsTransition(K, g, ss[i - 1], a);
  }

  lemma {:induction false} InvAlways<V(!new)>(K: Kernel<V>, g: Graph, v0: seq<V>, d0: seq<V>,
                                              ss: seq<State<V>>, acts: seq<Act>, i: nat)
    requires QuietPriority(K) && IsRun(K, g, v0, d0, ss, acts) && i <= |acts|
    ensures Inv(K, g, ss[i])
  {
    if i == 0 {
      InitialInv(K, g, ss[0], v0, d0);
    } else {
      InvAlways(K, g, v0, d0, ss, acts, i - 1);
      StepOfRun(K, g, v0, d0, ss, acts, i);
      assert Inv(K, g, ss[i]);
    }
  }

  lemma RunTransition<V(!new)>(K: Kernel<V>, g: Graph, v0: seq<V>, d0: seq<V>,
                               ss: seq<State<V>>, acts: seq<Act>, i: nat)
    requires QuietPriority(K) && IsRun(K, g, v0, d0, ss, acts) && 0 < i <= |acts|
    ensures Transition(K, g, ss[i - 1], ss[i])
  {
    InvAlways(K, g, v0, d0, ss, acts, i - 1);
    StepOfRun(K, g, v0, d0, ss, acts, i);
    assert Transition(K, g, ss[i - 1], ss[i]);
  }

  // While the schedule thread obtains an iterator, and after it has exited, the table is
  // still: no worker holds a mutex, a position or an undelivered message.
  lemma TableIsStill<V(!new)>(K: Kernel<V>, g: Graph, v0: seq<V>, d0: seq<V>,
                              ss: seq<State<V>>, acts: seq<Act>, i: nat)
    requires QuietPriority(K) && IsRun(K, g, v0, d0, ss, acts) && i <= |acts|
    requires ss[i].rounds.spc.Get? || ss[i].rounds.spc.Done?
    ensures Update.AtRest(ss[i].engine)
    ensures ss[i].rounds.spc.Done? ==> Rounds.AllParked(ss[i].rounds)
  {
    InvAlways(K, g, v0, d0, ss, acts, i);
    RestingIsAtRest(K, g, ss[i]);
  }
}
