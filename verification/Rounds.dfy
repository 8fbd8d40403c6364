/**
 * The round protocol: one schedule thread hands out an iterator per round to N workers.
 * Mutex, condition variables and barrier appear as state with their specified effects;
 * there are no spurious wakeups.  round, served and nextIt are history.
 */
module Rounds {
  import opened Options

  datatype Owner = Free | Scheduler | Worker(t: nat)

  /**
   * Where a worker is in run_loop.  Enter: about to lock threadm.  Counting: about to
   * increment count_wait.  Counted: about to wait on threadc.  Parked: waiting.  Woken: about
   * to re-acquire threadm.  Leaving: about to unlock it.  Fetch: about to read the iterator.
   * PastBarrier: about to broadcast schedulec.
   */
  datatype WPc =
    | Enter
    | Counting
    | Counted
    | Parked
    | Woken
    | Leaving
    | Fetch
    | Working(it: nat)
    | AtBarrier
    | PastBarrier
    | Exited

  /**
   * Where the schedule thread is in obtain_iterator.  Get: about to obtain an iterator.
   * Test: about to test it for NULL.  Check: holding threadm, about to test count_wait.
   * LockSched: between its own broadcast and its wait.  Waiting: waiting on schedulec.
   */
  datatype SPc =
    | Get
    | Test
    | LockThread
    | Check
    | Unlock
    | Broadcast
    | LockSched
    | Waiting
    | Awake
    | Delete
    | FinalLock
    | FinalCheck
    | Done

  datatype State = State(
    spc: SPc,
    wpc: seq<WPc>,
    threadm: Owner,
    count: nat,
    it2: Option<nat>,
    live: set<nat>,
    nextIt: nat,
    round: nat,
    served: seq<nat>)

  // Obtain(more): the table hands out a fresh iterator, or NULL once it has been terminated.
  datatype Act = Obtain(more: bool) | Sched | Work(t: nat) | Release

  ghost predicate Initial(s: State) {
    && |s.wpc| == |s.served| > 0
    && s.spc == Get && s.threadm == Free && s.count == 0 && s.it2 == None && s.live == {} && s.round == 0
    && forall t | 0 <= t < |s.wpc| :: s.wpc[t] == Enter && s.served[t] == 0
  }

  ghost predicate Enabled(s: State, a: Act) {
    match a
    case Obtain(_) => s.spc == Get
    case Sched =>
      && s.spc != Get && s.spc != Waiting && s.spc != Done
      && (s.spc == LockThread || s.spc == FinalLock ==> s.threadm == Free)
    case Work(t) =>
      && t < |s.wpc| && s.wpc[t] != Parked && s.wpc[t] != AtBarrier && s.wpc[t] != Exited
      && (s.wpc[t] == Enter || s.wpc[t] == Woken ==> s.threadm == Free)
    case Release => forall t | 0 <= t < |s.wpc| :: s.wpc[t] == AtBarrier
  }

  ghost function WakeAll(wpc: seq<WPc>): (w: seq<WPc>)
    ensures |w| == |wpc|
    ensures forall t | 0 <= t < |w| :: w[t] == if wpc[t] == Parked then Woken else wpc[t]
  {
    seq(|wpc|, t requires 0 <= t < |wpc| => if wpc[t] == Parked then Woken else wpc[t])
  }

  ghost function Apply(s: State, a: Act): State
    requires Enabled(s, a)
  {
    match a
    case Obtain(more) =>
      if more then s.(spc := Test, it2 := Some(s.nextIt), live := s.live + {s.nextIt}, nextIt := s.nextIt + 1)
      else s.(spc := Test, it2 := None)
    case Sched => ApplySched(s)
    case Work(t) => ApplyWorker(s, t)
    case Release =>
      s.(wpc := seq(|s.wpc|, t => PastBarrier),
         served := seq(|s.served|, t requires 0 <= t < |s.served| => s.served[t] + 1))
  }

  ghost function ApplySched(s: State): State {
    match s.spc
    case Test => s.(spc := if s.it2.None? then FinalLock else LockThread)
    case LockThread => s.(spc := Check, threadm := Scheduler)
    case Check =>
      if s.count < |s.wpc| then s.(spc := LockThread, threadm := Free) else s.(spc := Unlock, count := 0)
    case Unlock => s.(spc := Broadcast, threadm := Free)
    case Broadcast => s.(spc := LockSched, wpc := WakeAll(s.wpc), round := s.round + 1)
    case LockSched => s.(spc := Waiting)
    case Awake => s.(spc := Delete)
    case Delete => s.(spc := Get, live := if s.it2.Some? then s.live - {s.it2.value} else s.live)
    case FinalLock => s.(spc := FinalCheck, threadm := Scheduler)
    case FinalCheck => s.(spc := if s.count < |s.wpc| then FinalLock else Done, threadm := Free)
    case _ => s
  }

  ghost function ApplyWorker(s: State, t: nat): State
    requires t < |s.wpc|
  {
    match s.wpc[t]
    case Enter => s.(wpc := s.wpc[t := Counting], threadm := Worker(t))
    case Counting => s.(wpc := s.wpc[t := Counted], count := s.count + 1)
    case Counted => s.(wpc := s.wpc[t := Parked], threadm := Free)
    case Woken => s.(wpc := s.wpc[t := Leaving], threadm := Worker(t))
    case Leaving => s.(wpc := s.wpc[t := Fetch], threadm := Free)
    case Fetch => s.(wpc := s.wpc[t := if s.it2.None? then Exited else Working(s.it2.value)])
    case Working(_) => s.(wpc := s.wpc[t := AtBarrier])
    case PastBarrier =>
      s.(wpc := s.wpc[t := Enter], spc := if s.spc == Waiting then Awake else s.spc)
    case _ => s
  }

  // ---------- invariant ----------

  predicate IsCounted(p: WPc) {
    p == Counted || p == Parked
  }

  function NumCounted(wpc: seq<WPc>): nat {
    if |wpc| == 0 then 0 else (if IsCounted(wpc[0]) then 1 else 0) + NumCounted(wpc[1..])
  }

  lemma {:induction false} NumCountedUpdate(wpc: seq<WPc>, t: nat, p: WPc)
    requires t < |wpc|
    ensures NumCounted(wpc[t := p])
            == NumCounted(wpc) - (if IsCounted(wpc[t]) then 1 else 0) + (if IsCounted(p) then 1 else 0)
  {
    if t == 0 {
      assert wpc[t := p][1..] == wpc[1..];
    } else {
      assert wpc[t := p][1..] == wpc[1..][t - 1 := p];
      NumCountedUpdate(wpc[1..], t - 1, p);
    }
  }

  lemma {:induction false} NumCountedExtremes(wpc: seq<WPc>)
    ensures NumCounted(wpc) <= |wpc|
    ensures NumCounted(wpc) == |wpc| <==> forall t | 0 <= t < |wpc| :: IsCounted(wpc[t])
    ensures NumCounted(wpc) == 0 <==> forall t | 0 <= t < |wpc| :: !IsCounted(wpc[t])
  {
    if |wpc| > 0 {
      NumCountedExtremes(wpc[1..]);
      forall t | 0 < t < |wpc| ensures wpc[t] == wpc[1..][t - 1] {
      }
    }
  }

  // Between barrier and the next wakeup.
  predicate Resting(p: WPc) {
    p == PastBarrier || p == Enter || p == Counting || p == Counted || p == Parked
  }

  // Between wakeup and barrier.
  predicate Active(p: WPc) {
    p == Woken || p == Leaving || p == Fetch || p.Working? || p == AtBarrier
  }

  ghost predicate AllResting(s: State) {
    forall t | 0 <= t < |s.wpc| :: Resting(s.wpc[t])
  }

  ghost predicate AllActive(s: State) {
    forall t | 0 <= t < |s.wpc| :: Active(s.wpc[t])
  }

  ghost predicate AllParked(s: State) {
    forall t | 0 <= t < |s.wpc| :: s.wpc[t] == Parked
  }

  predicate HoldsThreadm(p: WPc) {
    p == Counting || p == Counted || p == Leaving
  }

  ghost predicate MutexOk(s: State) {
    && (s.threadm == Scheduler <==> s.spc == Check || s.spc == Unlock || s.spc == FinalCheck)
    && (forall t | 0 <= t < |s.wpc| :: HoldsThreadm(s.wpc[t]) <==> s.threadm == Worker(t))
    && (s.threadm.Worker? ==> s.threadm.t < |s.wpc|)
  }

  // Either nobody or everybody is between wakeup and barrier, and the latter only while the
  // schedule thread is in or before its wait.
  ghost predicate PhaseOk(s: State) {
    && (AllResting(s) || AllActive(s))
    && (s.spc != LockSched && s.spc != Waiting ==> AllResting(s))
    && (s.spc == Unlock || s.spc == Broadcast || s.spc == Done ==> AllParked(s))
    && s.count == (if s.spc == Unlock || s.spc == Broadcast then 0 else NumCounted(s.wpc))
  }

  // At most one iterator exists; it is the one everybody can reach.
  ghost predicate IteratorOk(s: State) {
    && s.live == (if s.spc == Get || s.it2.None? then {} else {s.it2.value})
    && (s.spc == FinalLock || s.spc == FinalCheck || s.spc == Done ==> s.it2.None?)
    && (s.spc != Get && s.spc != Test && s.spc != FinalLock && s.spc != FinalCheck && s.spc != Done ==> s.it2.Some?)
    && (forall t | 0 <= t < |s.wpc| && s.wpc[t].Working? :: s.it2 == Some(s.wpc[t].it))
  }

  // Every worker has served every round that was started, except the one being worked on.
  ghost predicate ServedOk(s: State)
    requires |s.wpc| == |s.served|
  {
    forall t | 0 <= t < |s.wpc| ::
      s.served[t] + (if Active(s.wpc[t]) then 1 else 0) == s.round
  }

  ghost predicate Inv(s: State) {
    && |s.wpc| == |s.served| > 0 && MutexOk(s) && PhaseOk(s) && IteratorOk(s) && ServedOk(s)
  }

  lemma InitialInv(s: State)
    requires Initial(s)
    ensures Inv(s)
  {
    NumCountedExtremes(s.wpc);
  }

  lemma ObtainInv(s: State, more: bool)
    requires Inv(s) && Enabled(s, Obtain(more))
    ensures Inv(Apply(s, Obtain(more)))
  {
  }

  lemma BroadcastInv(s: State)
    requires Inv(s) && s.spc == Broadcast
    ensures Inv(ApplySched(s))
  {
    NumCountedExtremes(ApplySched(s).wpc);
    assert forall t | 0 <= t < |s.wpc| :: ApplySched(s).wpc[t] == Woken;
  }

  lemma CheckInv(s: State)
    requires Inv(s) && (s.spc == Check || s.spc == FinalCheck)
    ensures Inv(ApplySched(s))
  {
    NumCountedExtremes(s.wpc);
    forall t | 0 <= t < |s.wpc| && IsCounted(s.wpc[t]) ensures s.wpc[t] == Parked {
      assert !HoldsThreadm(s.wpc[t]);
    }
  }

  lemma SchedInv(s: State)
    requires Inv(s) && Enabled(s, Sched)
    ensures Inv(Apply(s, Sched))
  {
    NumCountedExtremes(s.wpc);
    if s.spc == Broadcast {
      BroadcastInv(s);
    } else if s.spc == Check || s.spc == FinalCheck {
      CheckInv(s);
    }
  }

  // A worker's step changes only its own entry, stays on its side of the round, and counts
  // itself once.
  lemma WorkerPhase(s: State, t: nat)
    requires Inv(s) && Enabled(s, Work(t))
    ensures PhaseOk(Apply(s, Work(t)))
  {
    var s' := Apply(s, Work(t));
    NumCountedUpdate(s.wpc, t, s'.wpc[t]);
    assert s'.wpc == s.wpc[t := s'.wpc[t]];
    assert AllResting(s) ==> Resting(s.wpc[t]);
    assert AllActive(s) ==> Active(s.wpc[t]);
    assert s.wpc[t] != Parked;
  }

  lemma StepSizes(s: State, a: Act)
    requires Enabled(s, a)
    ensures |Apply(s, a).wpc| == |s.wpc| && |Apply(s, a).served| == |s.served|
  {
  }

  lemma WorkerMutex(s: State, t: nat)
    requires Inv(s) && Enabled(s, Work(t))
    ensures MutexOk(Apply(s, Work(t)))
  {
    assert HoldsThreadm(s.wpc[t]) <==> s.threadm == Worker(t);
  }

  lemma WorkerIteratorAndService(s: State, t: nat)
    requires Inv(s) && Enabled(s, Work(t))
    ensures IteratorOk(Apply(s, Work(t))) && ServedOk(Apply(s, Work(t)))
  {
    var s' := Apply(s, Work(t));
    assert AllResting(s) ==> Resting(s.wpc[t]);
    assert s'.served == s.served && s'.live == s.live && s'.it2 == s.it2;
    assert s.spc == s'.spc || (s.spc == Waiting && s'.spc == Awake);
  }

  lemma WorkerInv(s: State, t: nat)
    requires Inv(s) && Enabled(s, Work(t))
    ensures Inv(Apply(s, Work(t)))
  {
    StepSizes(s, Work(t));
    WorkerPhase(s, t);
    WorkerMutex(s, t);
    WorkerIteratorAndService(s, t);
  }

  lemma ReleaseInv(s: State)
    requires Inv(s) && Enabled(s, Release)
    ensures Inv(Apply(s, Release))
  {
    NumCountedExtremes(s.wpc);
    NumCountedExtremes(Apply(s, Release).wpc);
    assert s.wpc[0] == AtBarrier;
    assert forall t | 0 <= t < |s.wpc| :: Active(s.wpc[t]);
  }

  lemma StepInv(s: State, a: Act)
    requires Inv(s) && Enabled(s, a)
    ensures Inv(Apply(s, a))
  {
    match a {
      case Obtain(more) => ObtainInv(s, more);
      case Sched => SchedInv(s);
      case Work(t) => WorkerInv(s, t);
      case Release => ReleaseInv(s);
    }
  }

  // ---------- runs ----------

  ghost predicate IsRun(ss: seq<State>, acts: seq<Act>) {
    && |ss| == |acts| + 1 && Initial(ss[0])
    && forall i {:trigger acts[i]} | 0 <= i < |acts| :: Enabled(ss[i], acts[i]) && ss[i + 1] == Apply(ss[i], acts[i])
  }

  lemma {:induction false} InvAlways(ss: seq<State>, acts: seq<Act>, i: nat)
    requires IsRun(ss, acts) && i <= |acts|
    ensures Inv(ss[i])
  {
    if i == 0 {
      InitialInv(ss[0]);
    } else {
      InvAlways(ss, acts, i - 1);
      var a := acts[i - 1];
      StepInv(ss[i - 1], a);
    }
  }

  // ---------- safety ----------

  // All workers that are processing positions hold the same iterator, it is the current
  // one, and it has not been deleted.
  lemma WorkersShareLiveIterator(ss: seq<State>, acts: seq<Act>, i: nat, t: nat)
    requires IsRun(ss, acts) && i <= |acts| && t < |ss[i].wpc| && ss[i].wpc[t].Working?
    ensures ss[i].it2 == Some(ss[i].wpc[t].it) && ss[i].live == {ss[i].wpc[t].it}
  {
    InvAlways(ss, acts, i);
    assert Active(ss[i].wpc[t]);
  }

  // An iterator is deleted, or it2 assigned, only when every worker is past the barrier and
  // none will read it2 before the next wakeup.
  lemma ReplacedOnlyAtRest(ss: seq<State>, acts: seq<Act>, i: nat)
    requires IsRun(ss, acts) && i < |acts|
    requires ss[i + 1].live != ss[i].live || ss[i + 1].it2 != ss[i].it2
    ensures AllResting(ss[i])
  {
    InvAlways(ss, acts, i);
    var a := acts[i];
  }

  // At most one iterator is alive at any time.
  lemma AtMostOneIterator(ss: seq<State>, acts: seq<Act>, i: nat)
    requires IsRun(ss, acts) && i <= |acts|
    ensures |ss[i].live| <= 1
  {
    InvAlways(ss, acts, i);
  }

  // When a worker's broadcast releases the schedule thread, every worker has finished the
  // round it waits for: no broadcast of an earlier round can do it.
  lemma OnlyThisRoundReleases(ss: seq<State>, acts: seq<Act>, i: nat)
    requires IsRun(ss, acts) && i < |acts| && ss[i].spc == Waiting && ss[i + 1].spc == Awake
    ensures |ss[i].served| == |ss[i].wpc|
    ensures forall t | 0 <= t < |ss[i].wpc| :: Resting(ss[i].wpc[t]) && ss[i].served[t] == ss[i].round
  {
    InvAlways(ss, acts, i);
    var a := acts[i];
    assert a.Work? && ss[i].wpc[a.t] == PastBarrier;
    assert !Active(ss[i].wpc[a.t]);
    assert AllResting(ss[i]);
  }

  // The wakeup at the start of a round reaches every worker.
  lemma BroadcastReachesAll(ss: seq<State>, acts: seq<Act>, i: nat)
    requires IsRun(ss, acts) && i <= |acts| && ss[i].spc == Broadcast
    ensures AllParked(ss[i])
  {
    InvAlways(ss, acts, i);
  }

  // A worker never reads NULL: the exit branch of run_loop is dead, and at the end the
  // schedule thread leaves every worker waiting.
  lemma WorkersNeverExit(ss: seq<State>, acts: seq<Act>, i: nat)
    requires IsRun(ss, acts) && i <= |acts|
    ensures forall t | 0 <= t < |ss[i].wpc| :: ss[i].wpc[t] != Exited
    ensures ss[i].spc == Done ==> AllParked(ss[i])
  {
    InvAlways(ss, acts, i);
  }

  // ---------- where the protocol can stop ----------

  ghost predicate Stuck(s: State) {
    forall a: Act :: !Enabled(s, a)
  }

  lemma HolderCanMove(s: State)
    requires Inv(s) && s.threadm.Worker?
    ensures Enabled(s, Work(s.threadm.t))
  {
  }

  lemma SomeoneCanMove(s: State)
    requires Inv(s) && !((s.spc == Waiting || s.spc == Done) && AllParked(s))
    ensures exists a: Act :: Enabled(s, a)
  {
    if s.threadm.Worker? {
      HolderCanMove(s);
    } else if s.spc == Get {
      assert Enabled(s, Obtain(true));
    } else if s.spc != Waiting && s.spc != Done {
      assert Enabled(s, Sched);
    } else {
      assert s.threadm == Free;
      if t :| 0 <= t < |s.wpc| && s.wpc[t] != Parked && s.wpc[t] != AtBarrier {
        assert Resting(s.wpc[t]) || Active(s.wpc[t]);
        assert Enabled(s, Work(t));
      } else {
        var u :| 0 <= u < |s.wpc| && s.wpc[u] != Parked;
        assert !Resting(s.wpc[u]);
        assert AllActive(s);
        assert Enabled(s, Release);
      }
    }
  }

  // A reachable state has no successor exactly when every worker is parked and the schedule
  // thread is either done or waiting for a broadcast that has already happened.
  lemma StuckExactly(ss: seq<State>, acts: seq<Act>, i: nat)
    requires IsRun(ss, acts) && i <= |acts|
    ensures Stuck(ss[i]) <==> (ss[i].spc == Waiting || ss[i].spc == Done) && AllParked(ss[i])
  {
    InvAlways(ss, acts, i);
    var s := ss[i];
    if (s.spc == Waiting || s.spc == Done) && AllParked(s) {
      assert s.wpc[0] == Parked;
      forall a: Act ensures !Enabled(s, a) {
      }
    } else {
      SomeoneCanMove(s);
    }
  }

  // One worker, one round: the worker finishes the round and broadcasts while the schedule
  // thread is still between its own broadcast and its wait.
  ghost function LostWakeupActs(): seq<Act> {
    [Work(0), Work(0), Work(0),
     Obtain(true), Sched, Sched, Sched, Sched, Sched,
     Work(0), Work(0), Work(0), Work(0), Release,
     Work(0), Work(0), Work(0), Work(0),
     Sched]
  }

  ghost function One(spc: SPc, w: WPc, threadm: Owner, count: nat, it2: Option<nat>, round: nat, served: nat): State {
    State(spc, [w], threadm, count, it2, if it2.None? then {} else {0}, if it2.None? then 0 else 1, round, [served])
  }

  ghost function LostWakeupStates(): seq<State> {
    [One(Get, Enter, Free, 0, None, 0, 0),
     One(Get, Counting, Worker(0), 0, None, 0, 0),
     One(Get, Counted, Worker(0), 1, None, 0, 0),
     One(Get, Parked, Free, 1, None, 0, 0),
     One(Test, Parked, Free, 1, Some(0), 0, 0),
     One(LockThread, Parked, Free, 1, Some(0), 0, 0),
     One(Check, Parked, Scheduler, 1, Some(0), 0, 0),
     One(Unlock, Parked, Scheduler, 0, Some(0), 0, 0),
     One(Broadcast, Parked, Free, 0, Some(0), 0, 0),
     One(LockSched, Woken, Free, 0, Some(0), 1, 0),
     One(LockSched, Leaving, Worker(0), 0, Some(0), 1, 0),
     One(LockSched, Fetch, Free, 0, Some(0), 1, 0),
     One(LockSched, Working(0), Free, 0, Some(0), 1, 0),
     One(LockSched, AtBarrier, Free, 0, Some(0), 1, 0),
     One(LockSched, PastBarrier, Free, 0, Some(0), 1, 1),
     One(LockSched, Enter, Free, 0, Some(0), 1, 1),
     One(LockSched, Counting, Worker(0), 0, Some(0), 1, 1),
     One(LockSched, Counted, Worker(0), 1, Some(0), 1, 1),
     One(LockSched, Parked, Free, 1, Some(0), 1, 1),
     One(Waiting, Parked, Free, 1, Some(0), 1, 1)]
  }

  ghost predicate StepsTo(s: State, a: Act, s': State) {
    Enabled(s, a) && s' == Apply(s, a)
  }

  lemma LostWakeupPart1()
    ensures forall i | 0 <= i < 5 :: StepsTo(LostWakeupStates()[i], LostWakeupActs()[i], LostWakeupStates()[i + 1])
  {
  }

  lemma LostWakeupPart2()
    ensures forall i | 5 <= i < 10 :: StepsTo(LostWakeupStates()[i], LostWakeupActs()[i], LostWakeupStates()[i + 1])
  {
  }

  lemma LostWakeupPart3()
    ensures forall i | 10 <= i < 15 :: StepsTo(LostWakeupStates()[i], LostWakeupActs()[i], LostWakeupStates()[i + 1])
  {
  }

  lemma LostWakeupPart4()
    ensures forall i | 15 <= i < 19 :: StepsTo(LostWakeupStates()[i], LostWakeupActs()[i], LostWakeupStates()[i + 1])
  {
  }

  lemma LostWakeupRuns()
    ensures IsRun(LostWakeupStates(), LostWakeupActs())
  {
    var ss, acts := LostWakeupStates(), LostWakeupActs();
    LostWakeupPart1();
    LostWakeupPart2();
    LostWakeupPart3();
    LostWakeupPart4();
    forall i | 0 <= i < |acts| ensures Enabled(ss[i], acts[i]) && ss[i + 1] == Apply(ss[i], acts[i]) {
      assert StepsTo(ss[i], acts[i], ss[i + 1]);
    }
  }

  // The broadcast is lost: a reachable state from which nothing can move although the
  // computation was never terminated.
  lemma LostWakeup()
    ensures exists ss: seq<State>, acts: seq<Act> :: IsRun(ss, acts) && Stuck(ss[|acts|]) && ss[|acts|].spc == Waiting
  {
    var ss, acts := LostWakeupStates(), LostWakeupActs();
    LostWakeupRuns();
    StuckExactly(ss, acts, |acts|);
  }
}
