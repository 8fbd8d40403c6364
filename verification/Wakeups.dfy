/**
 * When the schedule thread's wait ends.  pthread_cond_wait without a condition to test is
 * released by a later broadcast only, so all depends on who has still to broadcast when the
 * wait begins.
 */
module Wakeups {
  import opened Rounds

  // A worker that has still to broadcast the end of its round.
  predicate Owes(p: WPc) {
    Active(p) || p == PastBarrier
  }

  // Every worker has broadcast while the schedule thread was not, or no longer, listening.
  ghost predicate Missed(s: State) {
    (s.spc == LockSched || s.spc == Waiting) && forall t | 0 <= t < |s.wpc| :: !Owes(s.wpc[t])
  }

  // ---------- a missed broadcast is never made up for ----------

  lemma MissedKept(s: State, a: Act)
    requires Inv(s) && Missed(s) && Enabled(s, a)
    ensures Missed(Apply(s, a))
  {
    assert !Owes(s.wpc[0]);
    if a.Work? {
      assert !Owes(s.wpc[a.t]);
    }
  }

  lemma {:induction false} MissedForever(ss: seq<State>, acts: seq<Act>, i: nat, j: nat)
    requires IsRun(ss, acts) && i <= j <= |acts| && Missed(ss[i])
    ensures Missed(ss[j])
  {
    if i < j {
      MissedForever(ss, acts, i, j - 1);
      InvAlways(ss, acts, j - 1);
      var a := acts[j - 1];
      MissedKept(ss[j - 1], a);
    }
  }

  // ---------- steps a worker has before it parks ----------

  function Rank(p: WPc): nat {
    match p
    case Woken => 9
    case Leaving => 8
    case Fetch => 7
    case Working(_) => 6
    case AtBarrier => 5
    case PastBarrier => 4
    case Enter => 3
    case Counting => 2
    case Counted => 1
    case _ => 0
  }

  function Remaining(wpc: seq<WPc>): nat {
    if |wpc| == 0 then 0 else Rank(wpc[0]) + Remaining(wpc[1..])
  }

  lemma {:induction false} RemainingLess(a: seq<WPc>, b: seq<WPc>)
    requires |a| == |b| && forall t | 0 <= t < |a| :: Rank(a[t]) <= Rank(b[t])
    ensures Remaining(a) <= Remaining(b)
    ensures (exists t :: 0 <= t < |a| && Rank(a[t]) < Rank(b[t])) ==> Remaining(a) < Remaining(b)
  {
    if |a| > 0 {
      RemainingLess(a[1..], b[1..]);
      if t :| 0 <= t < |a| && Rank(a[t]) < Rank(b[t]) && t > 0 {
        assert Rank(a[1..][t - 1]) < Rank(b[1..][t - 1]);
      }
    }
  }

  // A round costs every worker nine steps, one after the other: its own step and the barrier take
  // it one further, nobody else moves it, and only the broadcast wakes it.
  lemma OneStageAtATime(s: State, a: Act, t: nat)
    requires Inv(s) && Enabled(s, a) && t < |s.wpc|
    ensures |Apply(s, a).wpc| == |s.wpc|
    ensures a == Work(t) || a.Release? ==> Rank(Apply(s, a).wpc[t]) == Rank(s.wpc[t]) - 1
    ensures a != Work(t) && !a.Release? && !(a.Sched? && s.spc == Broadcast) ==>
              Apply(s, a).wpc[t] == s.wpc[t]
    ensures a.Sched? && s.spc == Broadcast ==> Rank(s.wpc[t]) == 0 && Rank(Apply(s, a).wpc[t]) == 9
  {
    StepSizes(s, a);
    if a == Work(t) {
      assert !Resting(s.wpc[t]) ==> Active(s.wpc[t]);
    }
  }

  // Every step of a worker, and the barrier, uses some of them up.
  lemma WorkersRunDown(s: State, a: Act)
    requires Inv(s) && Enabled(s, a) && (a.Work? || a.Release?)
    ensures Remaining(Apply(s, a).wpc) < Remaining(s.wpc)
  {
    var s' := Apply(s, a);
    if a.Work? {
      assert Rank(s'.wpc[a.t]) < Rank(s.wpc[a.t]);
    } else {
      assert s.wpc[0] == AtBarrier;
      assert Rank(s'.wpc[0]) < Rank(s.wpc[0]);
    }
    RemainingLess(s'.wpc, s.wpc);
  }

  lemma WorkerCanMove(s: State)
    requires Inv(s) && s.threadm != Scheduler && !AllParked(s)
    ensures exists a: Act :: Enabled(s, a) && (a.Work? || a.Release?)
  {
    if s.threadm.Worker? {
      HolderCanMove(s);
    } else {
      assert s.threadm == Free;
      if t :| 0 <= t < |s.wpc| && s.wpc[t] != Parked && s.wpc[t] != AtBarrier {
        assert Resting(s.wpc[t]) || Active(s.wpc[t]);
        assert Enabled(s, Work(t));
      } else {
        var u :| 0 <= u < |s.wpc| && s.wpc[u] != Parked;
        assert !Resting(s.wpc[u]);
        assert AllActive(s);
        assert Enabled(s, Release);
      }
    }
  }

  // ---------- a wait with somebody still to broadcast ends ----------

  // Within n steps, whichever of the possible steps are taken, the wait has been released.
  ghost predicate Released(s: State, n: nat)
    decreases n
  {
    s.spc == Awake || (n > 0 && !Stuck(s) && forall a: Act | Enabled(s, a) :: Released(Apply(s, a), n - 1))
  }

  // The wait is released on every way the run can go on.
  ghost predicate WaitEnds(s: State) {
    exists n: nat :: Released(s, n)
  }

  // The wait has begun and somebody still owes a broadcast.
  // The match keeps the conjunction one fact where it is proved; also in Doomed and Listening.
  ghost predicate Hopeful(s: State) {
    match s
    case State(_, _, _, _, _, _, _, _, _) =>
      Inv(s) && s.spc == Waiting && exists t :: 0 <= t < |s.wpc| && Owes(s.wpc[t])
  }

  lemma WaitingStep(s: State, a: Act)
    requires Inv(s) && s.spc == Waiting && Enabled(s, a)
    ensures a.Work? || a.Release?
    ensures Apply(s, a).spc == Awake || Apply(s, a).spc == Waiting
    ensures forall t | 0 <= t < |s.wpc| && Owes(s.wpc[t]) && Apply(s, a).spc == Waiting :: Owes(Apply(s, a).wpc[t])
  {
  }

  lemma HopefulStep(s: State, a: Act)
    requires Hopeful(s) && Enabled(s, a)
    ensures Remaining(Apply(s, a).wpc) < Remaining(s.wpc)
    ensures Apply(s, a).spc == Awake || Hopeful(Apply(s, a))
  {
    WaitingStep(s, a);
    WorkersRunDown(s, a);
    StepInv(s, a);
    var t :| 0 <= t < |s.wpc| && Owes(s.wpc[t]);
    if Apply(s, a).spc == Waiting {
      assert Owes(Apply(s, a).wpc[t]);
      assert Hopeful(Apply(s, a));
    }
  }

  lemma HopefulCanStep(s: State) returns (a: Act)
    requires Hopeful(s)
    ensures Enabled(s, a)
  {
    var t :| 0 <= t < |s.wpc| && Owes(s.wpc[t]);
    assert !AllParked(s);
    WorkerCanMove(s);
    a :| Enabled(s, a);
  }

  lemma {:induction false} HopefulSoReleased(s: State, n: nat)
    requires Hopeful(s) && n >= Remaining(s.wpc)
    ensures Released(s, n)
    decreases n
  {
    var b := HopefulCanStep(s);
    HopefulStep(s, b);
    forall a: Act | Enabled(s, a) ensures Released(Apply(s, a), n - 1) {
      HopefulStep(s, a);
      if Apply(s, a).spc != Awake {
        HopefulSoReleased(Apply(s, a), n - 1);
      }
    }
  }

  lemma ReleasedUnfolds(s: State, n: nat, a: Act)
    requires s.spc != Awake && Released(s, n)
    ensures n > 0 && !Stuck(s) && (Enabled(s, a) ==> Released(Apply(s, a), n - 1))
  {
  }

  ghost predicate Doomed(s: State) {
    match s
    case State(_, _, _, _, _, _, _, _, _) => Inv(s) && Missed(s)
  }

  lemma DoomedStep(s: State, a: Act)
    requires Doomed(s) && Enabled(s, a)
    ensures Doomed(Apply(s, a)) && s.spc != Awake
  {
    MissedKept(s, a);
    StepInv(s, a);
    assert Doomed(Apply(s, a));
  }

  lemma DoomedIsNotAwake(s: State)
    requires Doomed(s)
    ensures s.spc != Awake
  {
  }

  lemma {:induction false} DoomedSoNeverReleased(s: State, n: nat)
    requires Doomed(s)
    ensures !Released(s, n)
    decreases n
  {
    DoomedIsNotAwake(s);
    if Released(s, n) {
      ReleasedUnfolds(s, n, Sched);
      var a: Act :| Enabled(s, a);
      ReleasedUnfolds(s, n, a);
      DoomedStep(s, a);
      DoomedSoNeverReleased(Apply(s, a), n - 1);
    }
  }

  // In a reachable state the wait is released on every way the run can go on if and only if
  // somebody has still to broadcast; otherwise on none.
  lemma WaitIsReleasedExactly(ss: seq<State>, acts: seq<Act>, i: nat)
    requires IsRun(ss, acts) && i <= |acts| && ss[i].spc == Waiting
    ensures WaitEnds(ss[i]) <==> exists t :: 0 <= t < |ss[i].wpc| && Owes(ss[i].wpc[t])
  {
    InvAlways(ss, acts, i);
    assert Missed(ss[i]) <==> forall t | 0 <= t < |ss[i].wpc| :: !Owes(ss[i].wpc[t]);
    if Missed(ss[i]) {
      forall n: nat ensures !Released(ss[i], n) {
        DoomedSoNeverReleased(ss[i], n);
      }
    } else {
      assert Hopeful(ss[i]);
      HopefulSoReleased(ss[i], Remaining(ss[i].wpc));
      assert Released(ss[i], Remaining(ss[i].wpc));
    }
  }

  // So everything is decided by who has broadcast when the wait begins.
  lemma DecidedWhenWaitBegins(ss: seq<State>, acts: seq<Act>, i: nat)
    requires IsRun(ss, acts) && i < |acts| && ss[i].spc == LockSched && acts[i] == Sched
    ensures WaitEnds(ss[i + 1]) <==> exists t :: 0 <= t < |ss[i].wpc| && Owes(ss[i].wpc[t])
  {
    WaitIsReleasedExactly(ss, acts, i + 1);
  }

  // ---------- it can happen in every round ----------

  ghost predicate Continues(s: State, ss: seq<State>, acts: seq<Act>) {
    && |ss| == |acts| + 1 && ss[0] == s
    && forall i {:trigger acts[i]} | 0 <= i < |acts| :: StepsTo(ss[i], acts[i], ss[i + 1])
  }

  lemma Prepend(s: State, a: Act, ss: seq<State>, acts: seq<Act>)
    requires Enabled(s, a) && Continues(Apply(s, a), ss, acts)
    ensures Continues(s, [s] + ss, [a] + acts)
  {
    forall i | 0 <= i < |acts| + 1 ensures StepsTo(([s] + ss)[i], ([a] + acts)[i], ([s] + ss)[i + 1]) {
      if i > 0 {
        assert StepsTo(ss[i - 1], acts[i - 1], ss[i - 1 + 1]);
      }
    }
  }

  // Before its wait, with the workers still under way.
  ghost predicate Listening(s: State) {
    match s
    case State(_, _, _, _, _, _, _, _, _) => Inv(s) && s.spc == LockSched
  }

  lemma WorkersGoFirst(s: State) returns (a: Act)
    requires Listening(s) && !Missed(s)
    ensures Enabled(s, a) && Listening(Apply(s, a)) && Remaining(Apply(s, a).wpc) < Remaining(s.wpc)
  {
    var t :| 0 <= t < |s.wpc| && Owes(s.wpc[t]);
    assert !AllParked(s);
    WorkerCanMove(s);
    a :| Enabled(s, a) && (a.Work? || a.Release?);
    WorkersRunDown(s, a);
    StepInv(s, a);
    assert Listening(Apply(s, a));
  }

  lemma {:induction false} WorkersMayFinishFirst(s: State) returns (ss: seq<State>, acts: seq<Act>)
    requires Listening(s)
    ensures Continues(s, ss, acts) && Missed(ss[|acts|])
    decreases Remaining(s.wpc)
  {
    if Missed(s) {
      ss, acts := [s], [];
    } else {
      var a := WorkersGoFirst(s);
      var rest, more := WorkersMayFinishFirst(Apply(s, a));
      Prepend(s, a, rest, more);
      ss, acts := [s] + rest, [a] + more;
      assert ss[|acts|] == rest[|more|];
    }
  }

  // In every round, wherever the schedule thread is between its own broadcast and its wait,
  // the workers may all finish first: every round can be the one that loses the wakeup.
  lemma EveryRoundCanBeLost(ss: seq<State>, acts: seq<Act>, i: nat) returns (tt: seq<State>, more: seq<Act>)
    requires IsRun(ss, acts) && i <= |acts| && ss[i].spc == LockSched
    ensures Continues(ss[i], tt, more) && Missed(tt[|more|])
  {
    InvAlways(ss, acts, i);
    assert Listening(ss[i]);
    tt, more := WorkersMayFinishFirst(ss[i]);
  }
}
