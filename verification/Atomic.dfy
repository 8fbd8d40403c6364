/**
 * The specification of asynchronous accumulation: a vertex is absorbed and its messages
 * emitted in one indivisible step, and messages are delivered one at a time.  out[t] holds
 * what thread t has emitted and not yet delivered.  Update.dfy shows that the locked,
 * small-step program refines this system.
 */
module Atomic {
  import opened Kernels

  datatype State<V> = State(v: seq<V>, d: seq<V>, out: seq<seq<Msg<V>>>)

  datatype Act = Absorb(t: nat, k: nat) | Deliver(t: nat)

  ghost predicate Shape<V>(g: Graph, s: State<V>) {
    match s
    case State(v, d, out) =>
      && Closed(g) && |v| == |g| && |d| == |g|
      && forall t | 0 <= t < |out| :: Targets(out[t], |g|)
  }

  ghost predicate Enabled<V>(g: Graph, s: State<V>, a: Act) {
    match a
    case Absorb(t, k) => t < |s.out| && k < |g| && |s.out[t]| == 0
    case Deliver(t) => t < |s.out| && |s.out[t]| > 0
  }

  ghost function Apply<V>(K: Kernel<V>, g: Graph, s: State<V>, a: Act): State<V>
    requires Shape(g, s) && Enabled(g, s, a)
  {
    match a
    case Absorb(t, k) =>
      State(s.v[k := K.accumulate(s.v[k], s.d[k])], s.d[k := K.default], s.out[t := Messages(K, g[k], s.d[k])])
    case Deliver(t) =>
      var m := s.out[t][0];
      State(s.v, s.d[m.target := K.accumulate(s.d[m.target], m.value)], s.out[t := s.out[t][1..]])
  }

  lemma ApplyShape<V>(K: Kernel<V>, g: Graph, s: State<V>, a: Act)
    requires Shape(g, s) && Enabled(g, s, a)
    ensures Shape(g, Apply(K, g, s, a))
    ensures |Apply(K, g, s, a).out| == |s.out|
  {
    if a.Absorb? {
      MessagesTargets(K, g, a.k, s.d[a.k]);
    }
  }

  // No thread has anything left to deliver.
  ghost predicate Drained<V>(s: State<V>) {
    forall t | 0 <= t < |s.out| :: |s.out[t]| == 0
  }

  // The vertices absorbed by a step.
  ghost function Absorbs(a: Act): set<nat> {
    if a.Absorb? then {a.k} else {}
  }
}
