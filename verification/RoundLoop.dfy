/**
 * The loop of the schedule thread: it goes round until the table hands out NULL, and only
 * then leaves.
 */
module RoundLoop {
  import opened Options
  import opened Rounds

  // Past the loop.
  predicate Leaving(p: SPc) {
    p == FinalLock || p == FinalCheck || p == Done
  }

  // j is the latest of the steps before i that obtains an iterator or NULL.
  ghost predicate LatestObtain(acts: seq<Act>, j: nat, i: nat) {
    j < i <= |acts| && acts[j].Obtain? && forall k | j < k < i :: !acts[k].Obtain?
  }

  // Everywhere but at the head of the loop the latest Obtain decides: NULL leads out of the loop
  // and an iterator does not.
  lemma {:induction false} ObtainDecides(ss: seq<State>, acts: seq<Act>, i: nat) returns (j: nat)
    requires IsRun(ss, acts) && i <= |acts| && ss[i].spc != Get
    ensures LatestObtain(acts, j, i) && (ss[i].it2.Some? <==> acts[j].more)
    ensures if acts[j].more then !Leaving(ss[i].spc) else ss[i].spc == Test || Leaving(ss[i].spc)
  {
    var a := acts[i - 1];
    if a.Obtain? {
      j := i - 1;
    } else {
      j := ObtainDecides(ss, acts, i - 1);
    }
  }

  // The loop is left only because the latest Obtain returned NULL.
  lemma LeavesOnNull(ss: seq<State>, acts: seq<Act>, i: nat) returns (j: nat)
    requires IsRun(ss, acts) && i <= |acts| && Leaving(ss[i].spc)
    ensures LatestObtain(acts, j, i) && acts[j] == Obtain(false)
  {
    j := ObtainDecides(ss, acts, i);
  }

  // And it is left for good then: no Obtain follows.
  lemma {:induction false} NullIsFinal(ss: seq<State>, acts: seq<Act>, j: nat, i: nat)
    requires IsRun(ss, acts) && j < i <= |acts| && acts[j] == Obtain(false)
    ensures ss[i].spc == Test || Leaving(ss[i].spc)
    ensures ss[i].it2.None? && LatestObtain(acts, j, i)
  {
    if j < i - 1 {
      NullIsFinal(ss, acts, j, i - 1);
      var a := acts[i - 1];
    } else {
      var a := acts[j];
    }
  }

  // Steps of the schedule thread between moments i and j.
  ghost function SchedSteps(acts: seq<Act>, i: nat, j: nat): nat
    requires i <= j <= |acts|
  {
    if i == j then 0 else SchedSteps(acts, i, j - 1) + if acts[j - 1].Sched? then 1 else 0
  }

  // Where a released schedule thread is after its n-th step, until the next Obtain.
  function AfterWait(n: nat): SPc {
    if n == 0 then Awake else if n == 1 then Delete else Get
  }

  lemma StepAfterWait(s: State, a: Act, n: nat)
    requires Enabled(s, a) && !a.Obtain? && n <= 2 && s.spc == AfterWait(n)
    ensures a.Sched? ==> n < 2 && Apply(s, a).spc == AfterWait(n + 1)
    ensures !a.Sched? ==> Apply(s, a).spc == AfterWait(n)
  {
  }

  lemma {:induction false} PlaceAfterWait(ss: seq<State>, acts: seq<Act>, i: nat, j: nat)
    requires IsRun(ss, acts) && i <= j <= |acts| && ss[i].spc == Awake
    requires forall k | i <= k < j :: !acts[k].Obtain?
    ensures SchedSteps(acts, i, j) <= 2 && ss[j].spc == AfterWait(SchedSteps(acts, i, j))
  {
    if i < j {
      PlaceAfterWait(ss, acts, i, j - 1);
      var a := acts[j - 1];
      StepAfterWait(ss[j - 1], a, SchedSteps(acts, i, j - 1));
    }
  }

  // Until the next Obtain a released schedule thread takes two steps, whatever the workers do
  // meanwhile, and can always take the next one; every worker rests until then.
  lemma TwoStepsToObtain(ss: seq<State>, acts: seq<Act>, i: nat, j: nat)
    requires IsRun(ss, acts) && i <= j <= |acts| && ss[i].spc == Awake
    requires forall k | i <= k < j :: !acts[k].Obtain?
    ensures SchedSteps(acts, i, j) <= 2 && AllResting(ss[j])
    ensures SchedSteps(acts, i, j) < 2 ==> ss[j].spc != Get && Enabled(ss[j], Sched)
    ensures SchedSteps(acts, i, j) == 2 ==> ss[j].spc == Get && forall more :: Enabled(ss[j], Obtain(more))
  {
    PlaceAfterWait(ss, acts, i, j);
    InvAlways(ss, acts, j);
  }

  // Where it is after its n-th step from the first lock, once every worker is parked.
  function BeforeWait(n: nat): SPc {
    if n == 0 then LockThread else if n == 1 then Check else if n == 2 then Unlock
    else if n == 3 then Broadcast else if n == 4 then LockSched else Waiting
  }

  // Parked until the broadcast; released from the wait by a worker.
  ghost predicate OnTheWay(s: State, n: nat, round: nat) {
    && (s.spc == BeforeWait(n) || (n == 5 && s.spc == Awake)) && (n <= 3 ==> AllParked(s))
    && s.round == if n <= 3 then round else round + 1
  }

  lemma StepBeforeWait(s: State, a: Act, n: nat, round: nat)
    requires Inv(s) && Enabled(s, a) && n <= 5 && OnTheWay(s, n, round) && (n == 5 ==> !a.Sched?)
    ensures OnTheWay(Apply(s, a), if a.Sched? then n + 1 else n, round)
  {
    NumCountedExtremes(s.wpc);
    assert n <= 3 ==> s.wpc[0] == Parked;
  }

  // With every worker parked five steps of the schedule thread start the next round and lead to
  // its wait, whatever the workers do after the broadcast.
  lemma {:induction false} FiveStepsToWait(ss: seq<State>, acts: seq<Act>, i: nat, j: nat)
    requires IsRun(ss, acts) && i <= j <= |acts| && ss[i].spc == LockThread && AllParked(ss[i])
    requires SchedSteps(acts, i, j) <= 5
    ensures OnTheWay(ss[j], SchedSteps(acts, i, j), ss[i].round)
  {
    if i < j {
      FiveStepsToWait(ss, acts, i, j - 1);
      InvAlways(ss, acts, j - 1);
      var a := acts[j - 1];
      StepBeforeWait(ss[j - 1], a, SchedSteps(acts, i, j - 1), ss[i].round);
    }
  }
}
