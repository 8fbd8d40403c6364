/**
 * The interleaved program on the hash table.  Each step of the update program that touches
 * the table is one call of a table operation; the buckets then hold, at every moment of every
 * run, the rows of the update program's state, and no key ever moves.
 */
module TableRuns {
  import opened Kernels
  import opened Buckets
  import opened Ledger
  import opened StateTable
  import opened Scans
  import opened Loading
  import Update

  // The map holds the vertices, with the rows of the state and the adjacency of the graph.
  ghost predicate Mirrors<V>(m: map<int, Record<V>>, g: Graph, s: Update.State<V>) {
    match s
    case State(table, _, _) =>
      && |table| == |g| && (forall k :: k in m <==> 0 <= k < |g|)
      && forall k | 0 <= k < |g| :: m[k] == Record(table[k], g[k])
  }

  // What a table operation on key k does to the buckets, given what it does to a row.
  ghost predicate Operates<V>(bs: seq<Bucket<V>>, bs': seq<Bucket<V>>, k: int, op: Row<V> -> Row<V>) {
    k in View(bs) && RowChanged(bs, bs', k, View(bs)[k].(row := op(View(bs)[k].row)))
  }

  // The calls run_iter makes: accumulateF2, updateF1 and accumulateF1, as StateTable specifies
  // them, and nothing in between.
  ghost predicate Performs<V>(K: Kernel<V>, s: Update.State<V>, a: Update.Act,
                              bs: seq<Bucket<V>>, bs': seq<Bucket<V>>)
  {
    if a.Move? && a.t < |s.threads| then
      var th := s.threads[a.t];
      match th.pc
      case Locked(k) => Operates(bs, bs', k, (r: Row<V>) => AccumulateF2(K, r, r.delta))
      case Generated(k) => Operates(bs, bs', k, (r: Row<V>) => UpdateF1(K, r, K.default))
      case TargetLocked =>
        && th.iter < |th.output|
        && Operates(bs, bs', th.output[th.iter].target, (r: Row<V>) => AccumulateF1(K, r, th.output[th.iter].value))
      case _ => bs' == bs
    else bs' == bs
  }

  lemma StepMirrors<V>(K: Kernel<V>, g: Graph, s: Update.State<V>, a: Update.Act,
                       bs: seq<Bucket<V>>, bs': seq<Bucket<V>>)
    requires Update.Shape(g, s) && Update.Enabled(g, s, a) && Mirrors(View(bs), g, s) && Performs(K, s, a, bs, bs')
    ensures Mirrors(View(bs'), g, Update.Apply(K, g, s, a)) && SameLayout(bs, bs')
  {
    assert Update.ThreadShape(|g|, s.threads[a.t]);
  }

  ghost predicate TableRun<V>(K: Kernel<V>, ss: seq<Update.State<V>>, acts: seq<Update.Act>, bss: seq<seq<Bucket<V>>>) {
    && |bss| == |ss| == |acts| + 1
    && forall i {:trigger acts[i]} | 0 <= i < |acts| :: Performs(K, ss[i], acts[i], bss[i], bss[i + 1])
  }

  // One conjunction under a match, so that it stays one fact where it is proved.
  ghost predicate Follows<V>(g: Graph, s: Update.State<V>, bs0: seq<Bucket<V>>, bs: seq<Bucket<V>>) {
    match s
    case State(_, _, _) => Mirrors(View(bs), g, s) && SameLayout(bs0, bs)
  }

  lemma FollowsAlongStep<V>(K: Kernel<V>, g: Graph, ss: seq<Update.State<V>>, acts: seq<Update.Act>,
                            bss: seq<seq<Bucket<V>>>, i: nat)
    requires Update.IsRun(K, g, ss, acts) && TableRun(K, ss, acts, bss) && 0 < i <= |acts|
    requires Follows(g, ss[i - 1], bss[0], bss[i - 1])
    ensures Follows(g, ss[i], bss[0], bss[i])
  {
    var a := acts[i - 1];
    assert Update.Step(K, g, ss[i - 1], a, ss[i - 1 + 1]);
    assert Performs(K, ss[i - 1], a, bss[i - 1], bss[i - 1 + 1]);
    StepMirrors(K, g, ss[i - 1], a, bss[i - 1], bss[i]);
    assert Follows(g, ss[i], bss[0], bss[i]);
  }

  // At every moment of every interleaved run the buckets hold the state, each key where the
  // loading phase put it.
  lemma {:induction false} TableFollowsRun<V>(K: Kernel<V>, g: Graph, ss: seq<Update.State<V>>, acts: seq<Update.Act>,
                                              bss: seq<seq<Bucket<V>>>, i: nat)
    requires Update.IsRun(K, g, ss, acts) && TableRun(K, ss, acts, bss) && i <= |acts|
    requires Mirrors(View(bss[0]), g, ss[0])
    ensures Follows(g, ss[i], bss[0], bss[i])
  {
    if i > 0 {
      TableFollowsRun(K, g, ss, acts, bss, i - 1);
      FollowsAlongStep(K, g, ss, acts, bss, i);
      assert Follows(g, ss[i], bss[0], bss[i]);
    }
  }

  // So a probe finds a key at the same place throughout, and the dump after the run reports
  // the state the run ended in.
  lemma TableStoresRun<V>(K: Kernel<V>, g: Graph, ss: seq<Update.State<V>>, acts: seq<Update.Act>,
                          bss: seq<seq<Bucket<V>>>, i: nat, hash: int -> nat)
    requires Update.IsRun(K, g, ss, acts) && TableRun(K, ss, acts, bss) && i <= |acts|
    requires Mirrors(View(bss[0]), g, ss[0]) && Chained(bss[0], hash)
    ensures Chained(bss[i], hash) && Stores(bss[i], ss[i])
    ensures forall k, p: nat :: Holds(bss[i], k, p) <==> Holds(bss[0], k, p)
  {
    TableFollowsRun(K, g, ss, acts, bss, i);
    LayoutKeepsChains(bss[0], bss[i], hash);
    ChainedIsDistinct(bss[i], hash);
    MirrorsStores(g, ss[i], bss[i]);
  }

  lemma LayoutKeepsChains<V>(bs: seq<Bucket<V>>, bs': seq<Bucket<V>>, hash: int -> nat)
    requires Chained(bs, hash) && SameLayout(bs, bs')
    ensures Chained(bs', hash)
  {
    forall i: nat | i < |bs'| ensures Reachable(bs', hash, i) {
      assert Reachable(bs, hash, i);
      if bs'[i].inUse {
        var home := Home(hash, bs'[i].k, |bs'|);
        forall o: nat | o < Offset(home, i, |bs'|) ensures Passed(bs', home, o, bs'[i].k) {
          assert Passed(bs, home, o, bs[i].k);
        }
      }
    }
  }

  lemma MirrorsStores<V>(g: Graph, s: Update.State<V>, bs: seq<Bucket<V>>)
    requires Mirrors(View(bs), g, s) && Distinct(bs)
    ensures Stores(bs, s)
  {
    forall p | 0 <= p < |bs| && bs[p].inUse ensures bs[p].row == s.table[VertexAt(bs, |s.table|, p)] {
      ViewAt(bs, p);
    }
  }

  ghost predicate Loads<V>(K: Kernel<V>, start: Start<V>, lines: seq<Line>, g: Graph, m: map<int, Record<V>>,
                           s: Update.State<V>)
  {
    && Numbered(lines) && Describes(lines, g) && m == AsMap(Entries(K, start, lines)) && |s.table| == |g|
    && forall k | 0 <= k < |g| && k in m :: s.table[k] == m[k].row
  }

  lemma LoadedKeys<V>(K: Kernel<V>, start: Start<V>, lines: seq<Line>, g: Graph, m: map<int, Record<V>>,
                      s: Update.State<V>, k: int)
    requires Loads(K, start, lines, g, m, s)
    ensures k in m <==> 0 <= k < |g|
  {
    var es := Entries(K, start, lines);
    AsMapKeys(es, k);
    forall i | 0 <= i < |lines| ensures es[i].k == lines[i].key {
      assert es[i] == EntryOf(K, start, lines[i]);
    }
    if 0 <= k < |g| {
      assert HasLine(lines, k);
    }
  }

  lemma LoadedRecord<V>(K: Kernel<V>, start: Start<V>, lines: seq<Line>, g: Graph, m: map<int, Record<V>>,
                        s: Update.State<V>, k: nat)
    requires Loads(K, start, lines, g, m, s) && k < |g|
    ensures k in m && m[k] == Record(s.table[k], g[k])
  {
    var es := Entries(K, start, lines);
    EntriesDistinct(K, start, lines);
    assert HasLine(lines, k);
    var i :| 0 <= i < |lines| && lines[i].key == k;
    AsMapAt(es, i);
    assert es[i] == EntryOf(K, start, lines[i]);
  }

  lemma EntriesDistinct<V>(K: Kernel<V>, start: Start<V>, lines: seq<Line>)
    requires Numbered(lines)
    ensures DistinctKeys(Entries(K, start, lines))
  {
    var es := Entries(K, start, lines);
    forall i, j | 0 <= i < j < |es| ensures es[i].k != es[j].k {
      assert es[i] == EntryOf(K, start, lines[i]) && es[j] == EntryOf(K, start, lines[j]);
    }
  }

  // The table that the loading phase fills from a numbered input is where such a run starts.
  lemma LoadedMirrors<V>(K: Kernel<V>, start: Start<V>, lines: seq<Line>, g: Graph, m: map<int, Record<V>>,
                         s: Update.State<V>)
    requires Loads(K, start, lines, g, m, s)
    ensures Mirrors(m, g, s)
  {
    forall k ensures k in m <==> 0 <= k < |g| {
      LoadedKeys(K, start, lines, g, m, s, k);
    }
    forall k | 0 <= k < |g| ensures m[k] == Record(s.table[k], g[k]) {
      LoadedRecord(K, start, lines, g, m, s, k);
    }
  }
}
