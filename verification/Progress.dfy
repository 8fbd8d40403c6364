/**
 * The workers' part of a round ends: every schedule takes the same number of steps to run
 * what has been assigned, and cannot get stuck before.
 */
module Progress {
  import opened Kernels
  import opened Update

  // Steps for the messages from position iter on, and for leaving the delivery loop.
  function DeliveryCost(messages: nat, iter: nat): nat
    requires iter <= messages
  {
    3 * (messages - iter) + 1
  }

  // Steps from locking vertex k to being idle again.
  function VertexCost(g: Graph, k: nat): nat
    requires k < |g|
  {
    5 + DeliveryCost(|g[k]|, 0)
  }

  function ListCost(g: Graph, todo: seq<nat>): nat
    requires forall i | 0 <= i < |todo| :: todo[i] < |g|
  {
    if |todo| == 0 then 0 else VertexCost(g, todo[0]) + ListCost(g, todo[1..])
  }

  ghost function ThreadCost<V>(g: Graph, th: Thread<V>): nat
    requires ThreadShape(|g|, th)
  {
    ListCost(g, th.todo) +
    match th.pc
    case Idle => 0
    case Locked(k) => VertexCost(g, k) - 1
    case Accumulated(k) => VertexCost(g, k) - 2
    case Generated(k) => 2 + DeliveryCost(|th.output|, 0)
    case Reset(k) => 1 + DeliveryCost(|th.output|, 0)
    case Delivering => DeliveryCost(|th.output|, th.iter)
    case TargetLocked => DeliveryCost(|th.output|, th.iter) - 1
    case Delivered => DeliveryCost(|th.output|, th.iter) - 2
  }

  ghost predicate ShapedThreads<V>(g: Graph, threads: seq<Thread<V>>) {
    forall t | 0 <= t < |threads| :: ThreadShape(|g|, threads[t])
  }

  // Steps left until every worker has finished.
  ghost function Left<V>(g: Graph, threads: seq<Thread<V>>): nat
    requires ShapedThreads(g, threads)
  {
    if |threads| == 0 then 0 else ThreadCost(g, threads[0]) + Left(g, threads[1..])
  }

  lemma {:induction false} LeftUpdate<V>(g: Graph, threads: seq<Thread<V>>, t: nat, th: Thread<V>)
    requires ShapedThreads(g, threads) && t < |threads| && ThreadShape(|g|, th)
    ensures ShapedThreads(g, threads[t := th])
    ensures Left(g, threads[t := th]) == Left(g, threads) - ThreadCost(g, threads[t]) + ThreadCost(g, th)
  {
    if t == 0 {
      assert threads[t := th][1..] == threads[1..];
    } else {
      assert threads[t := th][1..] == threads[1..][t - 1 := th];
      LeftUpdate(g, threads[1..], t - 1, th);
    }
  }

  lemma {:induction false} NothingLeftIsFinished<V>(g: Graph, threads: seq<Thread<V>>)
    requires ShapedThreads(g, threads)
    ensures Left(g, threads) == 0 <==> forall t | 0 <= t < |threads| :: Finished(threads[t])
  {
    if |threads| > 0 {
      NothingLeftIsFinished(g, threads[1..]);
      assert ThreadCost(g, threads[0]) == 0 <==> Finished(threads[0]);
      forall t | 0 < t < |threads| ensures threads[t] == threads[1..][t - 1] {
      }
    }
  }

  lemma MoveCostsOne<V>(K: Kernel<V>, g: Graph, s: State<V>, t: nat)
    requires Shape(g, s) && Enabled(g, s, Move(t)) && Shape(g, Apply(K, g, s, Move(t)))
    requires s.threads[t].pc.Accumulated? ==> |s.threads[t].output| == 0
    ensures var s' := Apply(K, g, s, Move(t));
            && s'.threads == s.threads[t := s'.threads[t]]
            && ThreadCost(g, s'.threads[t]) == ThreadCost(g, s.threads[t]) - 1
  {
    var th := s.threads[t];
    assert ThreadShape(|g|, th);
    if th.pc.Accumulated? {
      OutgoingShape(K, g[th.pc.k], 0, s.table[th.pc.k].delta);
    }
  }

  // Every step of a worker uses up exactly one of the steps left.
  lemma StepUsesOne<V>(K: Kernel<V>, g: Graph, s: State<V>, t: nat)
    requires Shape(g, s) && Enabled(g, s, Move(t))
    ensures Shape(g, Apply(K, g, s, Move(t)))
    ensures Left(g, Apply(K, g, s, Move(t)).threads) == Left(g, s.threads) - 1
  {
    StepShape(K, g, s, Move(t));
    assert ThreadShape(|g|, s.threads[t]);
    MoveCostsOne(K, g, s, t);
    LeftUpdate(g, s.threads, t, Apply(K, g, s, Move(t)).threads[t]);
  }

  // A stretch of worker steps only, as between the wakeup and the barrier.
  ghost predicate Working(acts: seq<Act>) {
    forall i | 0 <= i < |acts| :: acts[i].Move?
  }

  lemma LeftAlongStep<V(!new)>(K: Kernel<V>, g: Graph, ss: seq<State<V>>, acts: seq<Act>, i: nat)
    requires IsRun(K, g, ss, acts) && Working(acts) && 0 < i <= |acts|
    ensures Shape(g, ss[i - 1]) && Shape(g, ss[i]) && Left(g, ss[i].threads) == Left(g, ss[i - 1].threads) - 1
  {
    assert Step(K, g, ss[i - 1], acts[i - 1], ss[i - 1 + 1]);
    StepUsesOne(K, g, ss[i - 1], acts[i - 1].t);
  }

  lemma {:induction false} LeftAfter<V(!new)>(K: Kernel<V>, g: Graph, ss: seq<State<V>>, acts: seq<Act>, i: nat)
    requires IsRun(K, g, ss, acts) && Working(acts) && Shape(g, ss[0]) && i <= |acts|
    ensures Shape(g, ss[i]) && Left(g, ss[i].threads) == Left(g, ss[0].threads) - i
  {
    if i > 0 {
      LeftAfter(K, g, ss, acts, i - 1);
      LeftAlongStep(K, g, ss, acts, i);
    }
  }

  // Every schedule takes the same number of steps: a stretch is at most as long as the steps
  // left at its start, and has come to its end, with every worker finished, if and only if it
  // is exactly that long; a shorter one can always go on.
  lemma EveryScheduleFinishes<V(!new)>(K: Kernel<V>, g: Graph, ss: seq<State<V>>, acts: seq<Act>)
    requires QuietPriority(K) && IsRun(K, g, ss, acts) && Working(acts) && Inv(K, g, ss[0])
    ensures Shape(g, ss[0]) && Shape(g, ss[|acts|]) && |acts| <= Left(g, ss[0].threads)
    ensures var s := ss[|acts|];
            && (|acts| == Left(g, ss[0].threads) <==> forall t | 0 <= t < |s.threads| :: Finished(s.threads[t]))
            && (|acts| < Left(g, ss[0].threads) ==> exists t: nat :: t < |s.threads| && Enabled(g, s, Move(t)))
  {
    LeftAfter(K, g, ss, acts, |acts|);
    var s := ss[|acts|];
    RunInv(K, g, ss, acts, |acts|);
    NothingLeftIsFinished(g, s.threads);
    if |acts| < Left(g, ss[0].threads) {
      NoDeadlock(K, g, s);
    }
  }
}
