/**
 * The program of a worker: run_iter as a small-step system.  Threads interleave freely; a
 * step is one table operation, one lock operation or one loop test of a single thread, and
 * lock[k] is the owner of vertex k's mutex.
 */
module Update {
  import opened Kernels
  import opened Options
  import Atomic

  /**
   * Idle: about to lock the next vertex of the work list.  Locked(k): about to accumulateF2.
   * Accumulated(k): about to call g_func.  Generated(k): about to updateF1.  Reset(k): about
   * to unlock.  Delivering: at the head of the delivery loop.  TargetLocked: about to
   * accumulateF1.  Delivered: about to unlock the target.
   */
  datatype Pc =
    | Idle
    | Locked(k: nat)
    | Accumulated(k: nat)
    | Generated(k: nat)
    | Reset(k: nat)
    | Delivering
    | TargetLocked
    | Delivered

  datatype Thread<V> = Thread(pc: Pc, todo: seq<nat>, output: seq<Msg<V>>, iter: nat)

  datatype State<V> = State(table: seq<Row<V>>, lock: seq<Option<nat>>, threads: seq<Thread<V>>)

  // Move: the next step of a thread.  Assign: an idle thread receives its next positions.
  datatype Act = Move(t: nat) | Assign(t: nat, work: seq<nat>)

  // ---------- steps ----------

  ghost predicate ThreadShape<V>(n: nat, th: Thread<V>) {
    && Targets(th.output, n)
    && (forall i | 0 <= i < |th.todo| :: th.todo[i] < n)
    && match th.pc {
         case Idle => |th.output| == 0 && th.iter == 0
         case Locked(k) => k < n && |th.output| == 0 && th.iter == 0
         case Accumulated(k) => k < n && |th.output| == 0 && th.iter == 0
         case Generated(k) => k < n && th.iter == 0
         case Reset(k) => k < n && th.iter == 0
         case Delivering => th.iter <= |th.output|
         case TargetLocked => th.iter < |th.output|
         case Delivered => th.iter < |th.output|
       }
  }

  ghost predicate Shape<V>(g: Graph, s: State<V>) {
    match s
    case State(table, lock, threads) =>
      && Closed(g) && |table| == |g| && |lock| == |g|
      && forall t | 0 <= t < |threads| :: ThreadShape(|g|, threads[t])
  }

  // The mutex a thread is trying to acquire.
  ghost function Wants<V>(th: Thread<V>): Option<nat> {
    if th.pc.Idle? && |th.todo| > 0 then Some(th.todo[0])
    else if th.pc.Delivering? && th.iter < |th.output| then Some(th.output[th.iter].target)
    else None
  }

  ghost predicate Finished<V>(th: Thread<V>) {
    th.pc.Idle? && |th.todo| == 0
  }

  ghost predicate Enabled<V>(g: Graph, s: State<V>, a: Act)
    requires Shape(g, s)
  {
    match a
    case Move(t) =>
      && t < |s.threads| && !Finished(s.threads[t])
      && (Wants(s.threads[t]).Some? ==> s.lock[Wants(s.threads[t]).value].None?)
    case Assign(t, work) =>
      t < |s.threads| && Finished(s.threads[t]) && forall i | 0 <= i < |work| :: work[i] < |g|
  }

  ghost function Apply<V>(K: Kernel<V>, g: Graph, s: State<V>, a: Act): State<V>
    requires Shape(g, s) && Enabled(g, s, a)
  {
    match a
    case Assign(t, work) => s.(threads := s.threads[t := s.threads[t].(todo := work)])
    case Move(t) =>
      var th := s.threads[t];
      match th.pc {
        case Idle =>
          var k := th.todo[0];
          s.(lock := s.lock[k := Some(t)], threads := s.threads[t := th.(pc := Locked(k), todo := th.todo[1..])])
        case Locked(k) =>
          s.(table := s.table[k := AccumulateF2(K, s.table[k], s.table[k].delta)],
             threads := s.threads[t := th.(pc := Accumulated(k))])
        case Accumulated(k) =>
          var ms := Messages(K, g[k], s.table[k].delta);
          s.(threads := s.threads[t := th.(pc := Generated(k), output := th.output + ms)])
        case Generated(k) =>
          s.(table := s.table[k := UpdateF1(K, s.table[k], K.default)], threads := s.threads[t := th.(pc := Reset(k))])
        case Reset(k) =>
          s.(lock := s.lock[k := None], threads := s.threads[t := th.(pc := Delivering)])
        case Delivering =>
          if th.iter < |th.output| then
            s.(lock := s.lock[th.output[th.iter].target := Some(t)], threads := s.threads[t := th.(pc := TargetLocked)])
          else
            s.(threads := s.threads[t := th.(pc := Idle, output := [], iter := 0)])
        case TargetLocked =>
          var m := th.output[th.iter];
          s.(table := s.table[m.target := AccumulateF1(K, s.table[m.target], m.value)],
             threads := s.threads[t := th.(pc := Delivered)])
        case Delivered =>
          s.(lock := s.lock[th.output[th.iter].target := None],
             threads := s.threads[t := th.(pc := Delivering, iter := th.iter + 1)])
      }
  }

  // ---------- invariant ----------

  // The mutex a thread holds: at most one by construction of the program.
  ghost function Holds<V>(th: Thread<V>): Option<nat> {
    match th.pc
    case Locked(k) => Some(k)
    case Accumulated(k) => Some(k)
    case Generated(k) => Some(k)
    case Reset(k) => Some(k)
    case TargetLocked => if th.iter < |th.output| then Some(th.output[th.iter].target) else None
    case Delivered => if th.iter < |th.output| then Some(th.output[th.iter].target) else None
    case _ => None
  }

  // lock is exactly the record of who is inside which critical section.
  ghost predicate LocksOk<V>(s: State<V>) {
    && (forall t | 0 <= t < |s.threads| :: Holds(s.threads[t]).Some? ==>
            Holds(s.threads[t]).value < |s.lock| && s.lock[Holds(s.threads[t]).value] == Some(t))
    && (forall k | 0 <= k < |s.lock| :: s.lock[k].Some? ==>
            s.lock[k].value < |s.threads| && Holds(s.threads[s.lock[k].value]) == Some(k))
  }

  // k's owner has folded delta into v and has not reset it yet.
  ghost predicate Folded<V>(s: State<V>, k: nat)
    requires k < |s.lock|
  {
    && s.lock[k].Some? && s.lock[k].value < |s.threads|
    && (s.threads[s.lock[k].value].pc == Accumulated(k) || s.threads[s.lock[k].value].pc == Generated(k))
  }

  ghost predicate BufferOk<V>(K: Kernel<V>, g: Graph, s: State<V>, th: Thread<V>)
    requires Shape(g, s) && ThreadShape(|g|, th)
  {
    && (th.pc.Generated? ==> th.output == Messages(K, g[th.pc.k], s.table[th.pc.k].delta))
    && (th.pc.Reset? ==> s.table[th.pc.k].delta == K.default)
  }

  // Outside the window between accumulateF2 and updateF1 the cached priority is current.
  ghost predicate PrioritiesOk<V>(K: Kernel<V>, s: State<V>)
    requires |s.table| == |s.lock|
  {
    forall k | 0 <= k < |s.table| ::
      Folded(s, k) || s.table[k].pri == K.priority(s.table[k].v, s.table[k].delta)
  }

  ghost predicate Inv<V>(K: Kernel<V>, g: Graph, s: State<V>) {
    match s
    case State(_, _, threads) =>
      && Shape(g, s) && LocksOk(s) && PrioritiesOk(K, s)
      && forall t | 0 <= t < |threads| :: BufferOk(K, g, s, threads[t])
  }

  // ---------- the atomic state behind a small-step state ----------

  ghost function Delta<V>(K: Kernel<V>, s: State<V>, k: nat): V
    requires |s.table| == |s.lock| && k < |s.lock|
  {
    if Folded(s, k) then K.default else s.table[k].delta
  }

  ghost function InFlight<V>(K: Kernel<V>, g: Graph, s: State<V>, t: nat): seq<Msg<V>>
    requires Shape(g, s) && t < |s.threads|
  {
    var th := s.threads[t];
    match th.pc
    case Accumulated(k) => Messages(K, g[k], s.table[k].delta)
    case Delivered => th.output[th.iter + 1..]
    case _ => th.output[th.iter..]
  }

  ghost function Abstract<V>(K: Kernel<V>, g: Graph, s: State<V>): Atomic.State<V>
    requires Shape(g, s)
  {
    Atomic.State(seq(|g|, k requires 0 <= k < |g| => s.table[k].v),
                 seq(|g|, k requires 0 <= k < |g| => Delta(K, s, k)),
                 seq(|s.threads|, t requires 0 <= t < |s.threads| => InFlight(K, g, s, t)))
  }

  // The atomic step a small step takes, if any: accumulateF2 absorbs, accumulateF1 delivers.
  ghost function Effect<V>(s: State<V>, a: Act): Option<Atomic.Act> {
    if a.Move? && a.t < |s.threads| then
      match s.threads[a.t].pc
      case Locked(k) => Some(Atomic.Absorb(a.t, k))
      case TargetLocked => Some(Atomic.Deliver(a.t))
      case _ => None
    else None
  }

  ghost predicate Refines<V>(K: Kernel<V>, g: Graph, s: State<V>, a: Act)
    requires Shape(g, s) && Enabled(g, s, a)
  {
    var s' := Apply(K, g, s, a);
    && Shape(g, s') && Atomic.Shape(g, Abstract(K, g, s))
    && match Effect(s, a) {
         case None => Abstract(K, g, s') == Abstract(K, g, s)
         case Some(b) =>
           && Atomic.Enabled(g, Abstract(K, g, s), b)
           && Abstract(K, g, s') == Atomic.Apply(K, g, Abstract(K, g, s), b)
       }
  }

  lemma AbstractShape<V>(K: Kernel<V>, g: Graph, s: State<V>)
    requires Shape(g, s)
    ensures Atomic.Shape(g, Abstract(K, g, s))
  {
    forall t | 0 <= t < |s.threads| ensures Targets(InFlight(K, g, s, t), |g|) {
      assert ThreadShape(|g|, s.threads[t]);
      if s.threads[t].pc.Accumulated? {
        MessagesTargets(K, g, s.threads[t].pc.k, s.table[s.threads[t].pc.k].delta);
      }
    }
  }

  lemma StepShape<V>(K: Kernel<V>, g: Graph, s: State<V>, a: Act)
    requires Shape(g, s) && Enabled(g, s, a)
    ensures Shape(g, Apply(K, g, s, a))
    ensures |Apply(K, g, s, a).threads| == |s.threads|
  {
    if a.Move? && s.threads[a.t].pc.Accumulated? {
      var k := s.threads[a.t].pc.k;
      MessagesTargets(K, g, k, s.table[k].delta);
    }
    var s' := Apply(K, g, s, a);
    forall u | 0 <= u < |s'.threads| ensures ThreadShape(|g|, s'.threads[u]) {
      assert ThreadShape(|g|, s.threads[u]);
    }
  }

  // Mutual exclusion: two threads are never inside critical sections of the same vertex.
  lemma Exclusive<V>(s: State<V>, t: nat, u: nat)
    requires LocksOk(s) && t < |s.threads| && u < |s.threads|
    requires Holds(s.threads[t]).Some? && Holds(s.threads[t]) == Holds(s.threads[u])
    ensures t == u
  {
  }

  ghost predicate Releases<V>(th: Thread<V>) {
    th.pc.Reset? || th.pc.Delivered?
  }

  // Lock traffic of one step of thread t, in terms of Wants, Holds and Releases.
  ghost predicate LockTraffic<V>(s: State<V>, s': State<V>, t: nat)
    requires t < |s.threads|
  {
    var th := s.threads[t];
    && |s'.threads| == |s.threads| && |s'.lock| == |s.lock|
    && (forall u | 0 <= u < |s.threads| && u != t :: s'.threads[u] == s.threads[u])
    && (forall k | 0 <= k < |s.lock| ::
          s'.lock[k] == if Wants(th) == Some(k) then Some(t)
                        else if Releases(th) && Holds(th) == Some(k) then None
                        else s.lock[k])
    && Holds(s'.threads[t]) == (if Wants(th).Some? then Wants(th) else if Releases(th) then None else Holds(th))
    && (Wants(th).Some? ==> Wants(th).value < |s.lock| && s.lock[Wants(th).value].None?)
  }

  lemma StepLockTraffic<V>(K: Kernel<V>, g: Graph, s: State<V>, a: Act)
    requires Shape(g, s) && Enabled(g, s, a) && a.Move?
    ensures LockTraffic(s, Apply(K, g, s, a), a.t)
  {
    assert ThreadShape(|g|, s.threads[a.t]);
  }

  lemma LocksCarryOver<V>(s: State<V>, s': State<V>, t: nat)
    requires LocksOk(s) && t < |s.threads| && LockTraffic(s, s', t)
    ensures LocksOk(s')
  {
  }

  lemma StepLocks<V>(K: Kernel<V>, g: Graph, s: State<V>, a: Act)
    requires Shape(g, s) && Enabled(g, s, a) && LocksOk(s)
    ensures LocksOk(Apply(K, g, s, a))
  {
    if a.Move? {
      StepLockTraffic(K, g, s, a);
      LocksCarryOver(s, Apply(K, g, s, a), a.t);
    }
  }

  // The rows a step writes are rows its thread has locked.
  lemma StepWritesOnlyHeld<V>(K: Kernel<V>, g: Graph, s: State<V>, a: Act, k: nat)
    requires Shape(g, s) && Enabled(g, s, a) && k < |g|
    requires a.Assign? || Holds(s.threads[a.t]) != Some(k)
    ensures Apply(K, g, s, a).table[k] == s.table[k]
  {
  }

  lemma OtherBufferOk<V>(K: Kernel<V>, g: Graph, s: State<V>, a: Act, u: nat)
    requires Inv(K, g, s) && Enabled(g, s, a) && Shape(g, Apply(K, g, s, a))
    requires u < |s.threads| == |Apply(K, g, s, a).threads| && u != a.t
    ensures var s' := Apply(K, g, s, a); BufferOk(K, g, s', s'.threads[u])
  {
    assert ThreadShape(|g|, s.threads[u]) && BufferOk(K, g, s, s.threads[u]);
    assert Apply(K, g, s, a).threads[u] == s.threads[u];
    if s.threads[u].pc.Generated? || s.threads[u].pc.Reset? {
      var k := s.threads[u].pc.k;
      assert Holds(s.threads[u]) == Some(k);
      assert s.lock[k] == Some(u);
      StepWritesOnlyHeld(K, g, s, a, k);
    }
  }

  lemma OwnBufferOk<V>(K: Kernel<V>, g: Graph, s: State<V>, a: Act)
    requires Inv(K, g, s) && Enabled(g, s, a) && Shape(g, Apply(K, g, s, a))
    requires |s.threads| == |Apply(K, g, s, a).threads|
    ensures var s' := Apply(K, g, s, a); BufferOk(K, g, s', s'.threads[a.t])
  {
    var th := s.threads[a.t];
    assert ThreadShape(|g|, th) && BufferOk(K, g, s, th);
    if a.Move? && th.pc.Accumulated? {
      var ms := Messages(K, g[th.pc.k], s.table[th.pc.k].delta);
      assert th.output + ms == ms;
    }
  }

  lemma StepBuffers<V>(K: Kernel<V>, g: Graph, s: State<V>, a: Act)
    requires Inv(K, g, s) && Enabled(g, s, a) && Shape(g, Apply(K, g, s, a))
    requires |s.threads| == |Apply(K, g, s, a).threads|
    ensures var s' := Apply(K, g, s, a); forall u | 0 <= u < |s'.threads| :: BufferOk(K, g, s', s'.threads[u])
  {
    var s' := Apply(K, g, s, a);
    forall u | 0 <= u < |s.threads| ensures BufferOk(K, g, s', s'.threads[u]) {
      if u == a.t { OwnBufferOk(K, g, s, a); } else { OtherBufferOk(K, g, s, a, u); }
    }
  }

  lemma StepPriorities<V(!new)>(K: Kernel<V>, g: Graph, s: State<V>, a: Act)
    requires QuietPriority(K) && Inv(K, g, s) && Enabled(g, s, a)
    ensures PrioritiesOk(K, Apply(K, g, s, a))
  {
    var s' := Apply(K, g, s, a);
    forall k | 0 <= k < |s'.table|
      ensures Folded(s', k) || s'.table[k].pri == K.priority(s'.table[k].v, s'.table[k].delta)
    {
      assert Folded(s, k) || s.table[k].pri == K.priority(s.table[k].v, s.table[k].delta);
      assert ThreadShape(|g|, s.threads[a.t]) && BufferOk(K, g, s, s.threads[a.t]);
      if a.Assign? || Holds(s.threads[a.t]) != Some(k) {
        StepWritesOnlyHeld(K, g, s, a, k);
      } else {
        assert s.lock[k] == Some(a.t);
      }
    }
  }

  lemma StepInv<V(!new)>(K: Kernel<V>, g: Graph, s: State<V>, a: Act)
    requires QuietPriority(K) && Inv(K, g, s) && Enabled(g, s, a)
    ensures Inv(K, g, Apply(K, g, s, a))
  {
    StepShape(K, g, s, a);
    StepLocks(K, g, s, a);
    StepBuffers(K, g, s, a);
    StepPriorities(K, g, s, a);
  }

  // ---------- refinement ----------

  lemma EffectOnOtherBuffer<V>(K: Kernel<V>, g: Graph, s: State<V>, a: Act, u: nat)
    requires Inv(K, g, s) && Enabled(g, s, a) && Shape(g, Apply(K, g, s, a)) && u < |s.threads| && u != a.t
    ensures InFlight(K, g, Apply(K, g, s, a), u) == InFlight(K, g, s, u)
  {
    var s' := Apply(K, g, s, a);
    assert s'.threads[u] == s.threads[u];
    if s.threads[u].pc.Accumulated? {
      var k := s.threads[u].pc.k;
      assert Holds(s.threads[u]) == Some(k);
      assert s.lock[k] == Some(u);
      StepWritesOnlyHeld(K, g, s, a, k);
    }
  }

  lemma OwnBufferKept<V>(K: Kernel<V>, g: Graph, s: State<V>, a: Act)
    requires Inv(K, g, s) && Enabled(g, s, a) && Shape(g, Apply(K, g, s, a)) && Effect(s, a).None?
    ensures InFlight(K, g, Apply(K, g, s, a), a.t) == InFlight(K, g, s, a.t)
  {
    var th := s.threads[a.t];
    assert ThreadShape(|g|, th) && BufferOk(K, g, s, th);
    if a.Move? && th.pc.Accumulated? {
      var ms := Messages(K, g[th.pc.k], s.table[th.pc.k].delta);
      assert (th.output + ms)[0..] == ms;
    }
  }

  lemma OwnBufferFilled<V>(K: Kernel<V>, g: Graph, s: State<V>, t: nat, k: nat)
    requires Inv(K, g, s) && Enabled(g, s, Move(t)) && Shape(g, Apply(K, g, s, Move(t)))
    requires s.threads[t].pc == Locked(k)
    ensures k < |g| && InFlight(K, g, s, t) == [] && Holds(s.threads[t]) == Some(k)
    ensures InFlight(K, g, Apply(K, g, s, Move(t)), t) == Messages(K, g[k], s.table[k].delta)
  {
    assert ThreadShape(|g|, s.threads[t]);
  }

  lemma OwnBufferDrained<V>(K: Kernel<V>, g: Graph, s: State<V>, t: nat)
    requires Inv(K, g, s) && Enabled(g, s, Move(t)) && Shape(g, Apply(K, g, s, Move(t)))
    requires s.threads[t].pc == TargetLocked
    ensures s.threads[t].iter < |s.threads[t].output|
    ensures InFlight(K, g, s, t) == s.threads[t].output[s.threads[t].iter..]
    ensures Holds(s.threads[t]) == Some(s.threads[t].output[s.threads[t].iter].target)
    ensures InFlight(K, g, Apply(K, g, s, Move(t)), t) == s.threads[t].output[s.threads[t].iter + 1..]
  {
    assert ThreadShape(|g|, s.threads[t]);
  }

  // A row whose mutex the moving thread does not hold looks the same afterwards.
  lemma EffectOnOtherRow<V>(K: Kernel<V>, g: Graph, s: State<V>, a: Act, k: nat)
    requires Inv(K, g, s) && Enabled(g, s, a) && Shape(g, Apply(K, g, s, a)) && k < |g|
    requires a.Assign? || Holds(s.threads[a.t]) != Some(k)
    ensures var s' := Apply(K, g, s, a); s'.table[k].v == s.table[k].v && Delta(K, s', k) == Delta(K, s, k)
  {
    StepWritesOnlyHeld(K, g, s, a, k);
    assert s.lock[k].Some? ==> Holds(s.threads[s.lock[k].value]) == Some(k);
    if a.Move? {
      StepLockTraffic(K, g, s, a);
    }
  }

  lemma EffectOnOwnRow<V>(K: Kernel<V>, g: Graph, s: State<V>, a: Act, k: nat)
    requires Inv(K, g, s) && Enabled(g, s, a) && Shape(g, Apply(K, g, s, a)) && k < |g|
    requires a.Move? && Holds(s.threads[a.t]) == Some(k)
    ensures var s' := Apply(K, g, s, a);
            match Effect(s, a) {
              case None => s'.table[k].v == s.table[k].v && Delta(K, s', k) == Delta(K, s, k)
              case Some(Absorb(_, _)) =>
                && Delta(K, s, k) == s.table[k].delta
                && s'.table[k].v == K.accumulate(s.table[k].v, s.table[k].delta) && Delta(K, s', k) == K.default
              case Some(Deliver(t)) =>
                && Delta(K, s, k) == s.table[k].delta
                && s'.table[k].v == s.table[k].v
                && Delta(K, s', k) == K.accumulate(s.table[k].delta, s.threads[t].output[s.threads[t].iter].value)
            }
  {
  }

  lemma RefinesInvisible<V>(K: Kernel<V>, g: Graph, s: State<V>, a: Act)
    requires Inv(K, g, s) && Enabled(g, s, a) && Shape(g, Apply(K, g, s, a)) && Effect(s, a).None?
    ensures Abstract(K, g, Apply(K, g, s, a)) == Abstract(K, g, s)
  {
    var s' := Apply(K, g, s, a);
    StepShape(K, g, s, a);
    forall u | 0 <= u < |s.threads| ensures InFlight(K, g, s', u) == InFlight(K, g, s, u) {
      if u == a.t { OwnBufferKept(K, g, s, a); } else { EffectOnOtherBuffer(K, g, s, a, u); }
    }
    forall k | 0 <= k < |g| ensures s'.table[k].v == s.table[k].v && Delta(K, s', k) == Delta(K, s, k) {
      if a.Move? && Holds(s.threads[a.t]) == Some(k) {
        EffectOnOwnRow(K, g, s, a, k);
      } else {
        EffectOnOtherRow(K, g, s, a, k);
      }
    }
    assert Abstract(K, g, s').out == Abstract(K, g, s).out;
    assert Abstract(K, g, s').v == Abstract(K, g, s).v;
    assert Abstract(K, g, s').d == Abstract(K, g, s).d;
  }

  lemma RefinesAbsorb<V>(K: Kernel<V>, g: Graph, s: State<V>, t: nat, k: nat)
    requires Inv(K, g, s) && Enabled(g, s, Move(t)) && Shape(g, Apply(K, g, s, Move(t)))
    requires s.threads[t].pc == Locked(k) && Atomic.Shape(g, Abstract(K, g, s))
    ensures Atomic.Enabled(g, Abstract(K, g, s), Atomic.Absorb(t, k))
    ensures Abstract(K, g, Apply(K, g, s, Move(t))) == Atomic.Apply(K, g, Abstract(K, g, s), Atomic.Absorb(t, k))
  {
    var s' := Apply(K, g, s, Move(t));
    StepShape(K, g, s, Move(t));
    OwnBufferFilled(K, g, s, t, k);
    EffectOnOwnRow(K, g, s, Move(t), k);
    assert Abstract(K, g, s).d[k] == s.table[k].delta;
    var after := Atomic.Apply(K, g, Abstract(K, g, s), Atomic.Absorb(t, k));
    AgreesElsewhere(K, g, s, Move(t), k);
    assert Abstract(K, g, s').out == after.out;
    assert Abstract(K, g, s').v == after.v;
    assert Abstract(K, g, s').d == after.d;
  }

  lemma RefinesDeliver<V>(K: Kernel<V>, g: Graph, s: State<V>, t: nat)
    requires Inv(K, g, s) && Enabled(g, s, Move(t)) && Shape(g, Apply(K, g, s, Move(t)))
    requires s.threads[t].pc == TargetLocked && Atomic.Shape(g, Abstract(K, g, s))
    ensures Atomic.Enabled(g, Abstract(K, g, s), Atomic.Deliver(t))
    ensures Abstract(K, g, Apply(K, g, s, Move(t))) == Atomic.Apply(K, g, Abstract(K, g, s), Atomic.Deliver(t))
  {
    var s' := Apply(K, g, s, Move(t));
    StepShape(K, g, s, Move(t));
    OwnBufferDrained(K, g, s, t);
    var j := s.threads[t].output[s.threads[t].iter].target;
    assert ThreadShape(|g|, s.threads[t]);
    EffectOnOwnRow(K, g, s, Move(t), j);
    assert Abstract(K, g, s).d[j] == s.table[j].delta;
    var after := Atomic.Apply(K, g, Abstract(K, g, s), Atomic.Deliver(t));
    AgreesElsewhere(K, g, s, Move(t), j);
    assert Abstract(K, g, s').out == after.out;
    assert Abstract(K, g, s').v == after.v;
    assert Abstract(K, g, s').d == after.d;
  }

  // A step inside the critical section of j changes nothing else.
  lemma AgreesElsewhere<V>(K: Kernel<V>, g: Graph, s: State<V>, a: Act, j: nat)
    requires Inv(K, g, s) && Enabled(g, s, a) && Shape(g, Apply(K, g, s, a)) && a.Move?
    requires |Apply(K, g, s, a).threads| == |s.threads| && Holds(s.threads[a.t]) == Some(j)
    ensures var s' := Apply(K, g, s, a);
            && (forall u | 0 <= u < |s.threads| && u != a.t :: InFlight(K, g, s', u) == InFlight(K, g, s, u))
            && (forall k | 0 <= k < |g| && k != j :: s'.table[k].v == s.table[k].v && Delta(K, s', k) == Delta(K, s, k))
  {
    var s' := Apply(K, g, s, a);
    forall u | 0 <= u < |s.threads| && u != a.t ensures InFlight(K, g, s', u) == InFlight(K, g, s, u) {
      EffectOnOtherBuffer(K, g, s, a, u);
    }
    forall k | 0 <= k < |g| && k != j ensures s'.table[k].v == s.table[k].v && Delta(K, s', k) == Delta(K, s, k) {
      EffectOnOtherRow(K, g, s, a, k);
    }
  }

  // Every step of the locked program is an atomic absorb, an atomic delivery, or invisible.
  lemma StepRefines<V(!new)>(K: Kernel<V>, g: Graph, s: State<V>, a: Act)
    requires QuietPriority(K) && Inv(K, g, s) && Enabled(g, s, a)
    ensures Refines(K, g, s, a)
  {
    StepShape(K, g, s, a);
    AbstractShape(K, g, s);
    match Effect(s, a) {
      case None => RefinesInvisible(K, g, s, a);
      case Some(Absorb(t, k)) => RefinesAbsorb(K, g, s, t, k);
      case Some(Deliver(t)) => RefinesDeliver(K, g, s, t);
    }
  }

  // ---------- progress ----------

  // A thread waiting for a mutex waits for a thread that is itself able to move: nobody
  // holds one mutex while asking for another, so waits never form a cycle.
  lemma WaitsForARunner<V>(K: Kernel<V>, g: Graph, s: State<V>, t: nat)
    requires Inv(K, g, s) && t < |s.threads| && !Finished(s.threads[t]) && !Enabled(g, s, Move(t))
    ensures var w := Wants(s.threads[t]);
            w.Some? && w.value < |s.lock| && s.lock[w.value].Some? && Enabled(g, s, Move(s.lock[w.value].value))
  {
  }

  lemma NoDeadlock<V>(K: Kernel<V>, g: Graph, s: State<V>)
    requires Inv(K, g, s) && exists t :: 0 <= t < |s.threads| && !Finished(s.threads[t])
    ensures exists u: nat :: u < |s.threads| && Enabled(g, s, Move(u))
  {
    var t :| 0 <= t < |s.threads| && !Finished(s.threads[t]);
    if !Enabled(g, s, Move(t)) {
      WaitsForARunner(K, g, s, t);
      assert Enabled(g, s, Move(s.lock[Wants(s.threads[t]).value].value));
    } else {
      assert Enabled(g, s, Move(t));
    }
  }

  // ---------- runs ----------

  // The table as read_file leaves it, before any worker has work.
  ghost predicate Initial<V>(K: Kernel<V>, g: Graph, s: State<V>, v0: seq<V>, d0: seq<V>) {
    && Closed(g) && |v0| == |g| && |d0| == |g| && |s.table| == |g| && |s.lock| == |g|
    && (forall k | 0 <= k < |g| :: s.table[k] == PutRow(K, d0[k], v0[k]) && s.lock[k].None?)
    && (forall t | 0 <= t < |s.threads| :: s.threads[t] == Thread(Idle, [], [], 0))
  }

  lemma InitialInv<V>(K: Kernel<V>, g: Graph, s: State<V>, v0: seq<V>, d0: seq<V>)
    requires Initial(K, g, s, v0, d0)
    ensures Inv(K, g, s)
    ensures Abstract(K, g, s).v == v0 && Abstract(K, g, s).d == d0 && Atomic.Drained(Abstract(K, g, s))
  {
  }

  ghost predicate Step<V>(K: Kernel<V>, g: Graph, s: State<V>, a: Act, s': State<V>) {
    Shape(g, s) && Enabled(g, s, a) && s' == Apply(K, g, s, a)
  }

  ghost predicate IsRun<V>(K: Kernel<V>, g: Graph, ss: seq<State<V>>, acts: seq<Act>) {
    |ss| == |acts| + 1 && forall i {:trigger acts[i]} | 0 <= i < |acts| :: Step(K, g, ss[i], acts[i], ss[i + 1])
  }

  // What one step does to the atomic state behind it.
  ghost predicate Simulates<V>(K: Kernel<V>, g: Graph, s: State<V>, a: Act, s': State<V>) {
    match Effect(s, a)
    case None => Sound(K, g, s) && Sound(K, g, s') && Abstract(K, g, s') == Abstract(K, g, s)
    case Some(b) =>
      && Sound(K, g, s) && Sound(K, g, s')
      && Atomic.Enabled(g, Abstract(K, g, s), b)
      && Abstract(K, g, s') == Atomic.Apply(K, g, Abstract(K, g, s), b)
  }

  ghost predicate Sound<V>(K: Kernel<V>, g: Graph, s: State<V>) {
    Inv(K, g, s) && Atomic.Shape(g, Abstract(K, g, s))
  }

  lemma StepSimulates<V(!new)>(K: Kernel<V>, g: Graph, s: State<V>, a: Act, s': State<V>)
    requires QuietPriority(K) && Inv(K, g, s) && Step(K, g, s, a, s')
    ensures Inv(K, g, s') && Simulates(K, g, s, a, s')
  {
    StepInv(K, g, s, a);
    StepRefines(K, g, s, a);
    AbstractShape(K, g, s');
  }

  lemma StepOfRun<V(!new)>(K: Kernel<V>, g: Graph, ss: seq<State<V>>, acts: seq<Act>, i: nat)
    requires QuietPriority(K) && IsRun(K, g, ss, acts) && 0 < i <= |acts| && Inv(K, g, ss[i - 1])
    ensures Inv(K, g, ss[i]) && Simulates(K, g, ss[i - 1], acts[i - 1], ss[i])
  {
    var a := acts[i - 1];
    assert Step(K, g, ss[i - 1], a, ss[i]);
    StepSimulates(K, g, ss[i - 1], a, ss[i]);
  }

  lemma {:induction false} RunInv<V(!new)>(K: Kernel<V>, g: Graph, ss: seq<State<V>>, acts: seq<Act>, i: nat)
    requires QuietPriority(K) && IsRun(K, g, ss, acts) && Inv(K, g, ss[0]) && i <= |acts|
    ensures Inv(K, g, ss[i])
  {
    if i != 0 {
      RunInv(K, g, ss, acts, i - 1);
      StepOfRun(K, g, ss, acts, i);
      assert Inv(K, g, ss[i]);
    }
  }

  lemma RunStep<V(!new)>(K: Kernel<V>, g: Graph, ss: seq<State<V>>, acts: seq<Act>, i: nat)
    requires QuietPriority(K) && IsRun(K, g, ss, acts) && Inv(K, g, ss[0]) && 0 < i <= |acts|
    ensures Simulates(K, g, ss[i - 1], acts[i - 1], ss[i])
  {
    RunInv(K, g, ss, acts, i - 1);
    StepOfRun(K, g, ss, acts, i);
    assert Simulates(K, g, ss[i - 1], acts[i - 1], ss[i]);
  }

  // The vertices whose delta a step folds into v.
  ghost function Folds<V>(s: State<V>, a: Act): set<nat> {
    match Effect(s, a) { case None => {} case Some(b) => Atomic.Absorbs(b) }
  }

  // The vertices whose delta is folded into v between moments b and e of a run.
  ghost function Absorbed<V>(ss: seq<State<V>>, acts: seq<Act>, b: nat, e: nat): set<nat>
    requires b <= e <= |acts| <= |ss|
  {
    if b == e then {}
    else Absorbed(ss, acts, b, e - 1) + Folds(ss[e - 1], acts[e - 1])
  }

  ghost predicate CoversAll(done: set<nat>, n: nat) {
    forall k: nat | k < n :: k in done
  }

  // No thread is between lock and unlock, and no buffer holds an undelivered message.
  ghost predicate AtRest<V>(s: State<V>) {
    forall t | 0 <= t < |s.threads| :: s.threads[t].pc.Idle? && |s.threads[t].output| == 0
  }

  // At rest the table is the atomic state, and every stored priority is current.
  lemma RestIsAtomic<V>(K: Kernel<V>, g: Graph, s: State<V>)
    requires Inv(K, g, s) && AtRest(s)
    ensures Atomic.Drained(Abstract(K, g, s))
    ensures forall k | 0 <= k < |g| ::
              && Abstract(K, g, s).v[k] == s.table[k].v && Abstract(K, g, s).d[k] == s.table[k].delta
              && s.table[k].pri == K.priority(s.table[k].v, s.table[k].delta)
  {
  }
}
