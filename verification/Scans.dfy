/**
 * Scans of the table in bucket order, by the termination check while workers run and by
 * the final dump, related to the vertices the buckets hold.
 */
module Scans {
  import opened Vectors
  import opened Kernels
  import opened Buckets
  import opened TermCheck
  import opened TermCheckSoundness
  import opened Scheduler
  import opened ShortestPathRuns
  import opened PathStopping
  import Update
  import RankSystem

  predicate Any<V>(b: Bucket<V>) {
    true
  }

  // The in-use positions below hi, in order.
  ghost function Places<V>(bs: seq<Bucket<V>>, hi: nat): seq<nat>
    requires hi <= |bs|
  {
    Selected(bs, hi, Any)
  }

  lemma PlacesAre<V>(bs: seq<Bucket<V>>, hi: nat)
    requires hi <= |bs|
    ensures forall i | 0 <= i < |Places(bs, hi)| :: Places(bs, hi)[i] < hi && bs[Places(bs, hi)[i]].inUse
    ensures forall i, j | 0 <= i < j < |Places(bs, hi)| :: Places(bs, hi)[i] < Places(bs, hi)[j]
    ensures forall p | 0 <= p < hi && bs[p].inUse :: p in Places(bs, hi)
  {
    SelectedIs(bs, hi, Any);
    assert forall i | 0 <= i < |Places(bs, hi)| :: Places(bs, hi)[i] in Places(bs, hi);
  }

  // The table holds the vertices 0, ..., n - 1.
  ghost predicate HoldsVertices<V>(bs: seq<Bucket<V>>, n: nat) {
    Distinct(bs) && forall k :: k in View(bs) <==> 0 <= k < n
  }

  ghost function Order<V>(bs: seq<Bucket<V>>, n: nat): (order: seq<nat>)
    requires HoldsVertices(bs, n)
    ensures |order| == |Places(bs, |bs|)|
  {
    PlacesAre(bs, |bs|);
    seq(|Places(bs, |bs|)|, i requires 0 <= i < |Places(bs, |bs|)| => VertexAt(bs, n, Places(bs, |bs|)[i]))
  }

  ghost function VertexAt<V>(bs: seq<Bucket<V>>, n: nat, p: nat): (k: nat)
    requires HoldsVertices(bs, n) && p < |bs| && bs[p].inUse
    ensures k < n && bs[p].k == k
  {
    ViewKeys(bs, bs[p].k);
    assert Holds(bs, bs[p].k, p);
    bs[p].k
  }

  // Bucket order is some order of the vertices.
  lemma OrderVisitsOnce<V>(bs: seq<Bucket<V>>, n: nat)
    requires HoldsVertices(bs, n)
    ensures VisitsOnce(Order(bs, n), n)
  {
    var places, order := Places(bs, |bs|), Order(bs, n);
    PlacesAre(bs, |bs|);
    forall i, j | 0 <= i < j < |order| ensures order[i] != order[j] {
      assert bs[places[i]].k == order[i] && bs[places[j]].k == order[j];
    }
    forall k | 0 <= k < n ensures k in order {
      ViewKeys(bs, k);
      var p: nat :| Holds(bs, k, p);
      var i :| 0 <= i < |places| && places[i] == p;
      assert order[i] == k;
    }
  }

  // ---------- the scan of the termination check ----------

  // What the buckets in use add, in order.
  ghost function Listed<V>(bs: seq<Bucket<V>>, readings: seq<Reading>, default: real, hi: nat): seq<real>
    requires hi <= |bs| == |readings|
  {
    PlacesAre(bs, hi);
    seq(|Places(bs, hi)|, i requires 0 <= i < |Places(bs, hi)| => Contributions(readings, default)[Places(bs, hi)[i]])
  }

  lemma ListedGrows<V>(bs: seq<Bucket<V>>, readings: seq<Reading>, default: real, p: nat)
    requires p < |bs| == |readings|
    ensures Total(Listed(bs, readings, default, p + 1))
            == Total(Listed(bs, readings, default, p))
               + if bs[p].inUse then Contributions(readings, default)[p] else 0.0
  {
    PlacesAre(bs, p);
    PlacesAre(bs, p + 1);
    if bs[p].inUse {
      assert Listed(bs, readings, default, p + 1)
             == Listed(bs, readings, default, p) + [Contributions(readings, default)[p]];
      TotalAppend(Listed(bs, readings, default, p), Contributions(readings, default)[p]);
    } else {
      assert Listed(bs, readings, default, p + 1) == Listed(bs, readings, default, p);
    }
  }

  lemma {:induction false} ListedTotal<V>(bs: seq<Bucket<V>>, readings: seq<Reading>, default: real, hi: nat)
    requires hi <= |bs| == |readings| && forall p | 0 <= p < |bs| :: readings[p].inUse == bs[p].inUse
    ensures Total(Contributions(readings[..hi], default)) == Total(Listed(bs, readings, default, hi))
  {
    if hi > 0 {
      ListedTotal(bs, readings, default, hi - 1);
      ContributionsGrow(readings, default, hi - 1);
      ListedGrows(bs, readings, default, hi - 1);
    }
  }

  // Bucket p is peeked at at moment peeks[p] of the run and read at moment rereads[p].
  ghost predicate TakenFrom(bs: seq<Bucket<real>>, n: nat, ss: seq<Update.State<real>>, readings: seq<Reading>,
                            peeks: seq<nat>, rereads: seq<nat>, from: nat, until: nat)
    requires HoldsVertices(bs, n)
  {
    && |readings| == |peeks| == |rereads| == |bs| && until < |ss|
    && (forall i | 0 <= i < |ss| :: |ss[i].table| == n)
    && forall p | 0 <= p < |bs| ::
         && from <= peeks[p] <= until && from <= rereads[p] <= until
         && readings[p].inUse == bs[p].inUse
         && (bs[p].inUse ==>
               && readings[p].peeked == ss[peeks[p]].table[VertexAt(bs, n, p)].v
               && readings[p].read == ss[rereads[p]].table[VertexAt(bs, n, p)].v)
  }

  /**
   * What estimate_prog adds up, reading each value twice with workers in between, is the
   * total of a scan in which every vertex is read once, at one moment.
   */
  lemma ScanOfBuckets(g: Graph, bs: seq<Bucket<real>>, ss: seq<Update.State<real>>, readings: seq<Reading>,
                      peeks: seq<nat>, rereads: seq<nat>, from: nat, until: nat)
    returns (scan: Scan, values: seq<real>)
    requires HoldsVertices(bs, |g|) && TakenFrom(bs, |g|, ss, readings, peeks, rereads, from, until)
    ensures Spans(scan, |g|, from, until) && Reads(ss, scan, values)
    ensures Total(values) == Total(Contributions(readings, 0.0))
  {
    var places := Places(bs, |bs|);
    PlacesAre(bs, |bs|);
    OrderVisitsOnce(bs, |g|);
    var moments := seq(|places|, i requires 0 <= i < |places| =>
      if readings[places[i]].peeked != 0.0 then rereads[places[i]] else peeks[places[i]]);
    scan := Scan(Order(bs, |g|), moments);
    values := Listed(bs, readings, 0.0, |bs|);
    ListedTotal(bs, readings, 0.0, |bs|);
    assert readings[..|bs|] == readings;
    forall i | 0 <= i < |values|
      ensures scan.moments[i] < |ss| && scan.order[i] < |g| && values[i] == ss[scan.moments[i]].table[scan.order[i]].v
    {
      var p := places[i];
      assert scan.order[i] == VertexAt(bs, |g|, p);
    }
  }

  // ---------- the same for shortest path ----------

  // imax is the table's default.
  function Encoded(d: Dist, imax: real): real {
    if d.Top? then imax else d.r
  }

  // imax lies outside the finite values.
  ghost predicate AvoidsImax(ss: seq<Update.State<Dist>>, imax: real) {
    forall i, k | 0 <= i < |ss| && 0 <= k < |ss[i].table| :: ss[i].table[k].v != Fin(imax)
  }

  // A value is peeked at first and read again later.
  ghost predicate TakenFromPaths(bs: seq<Bucket<Dist>>, n: nat, ss: seq<Update.State<Dist>>, imax: real,
                                 readings: seq<Reading>, peeks: seq<nat>, rereads: seq<nat>, from: nat, until: nat)
    requires HoldsVertices(bs, n)
  {
    && |readings| == |peeks| == |rereads| == |bs| && until < |ss|
    && (forall i | 0 <= i < |ss| :: |ss[i].table| == n)
    && forall p | 0 <= p < |bs| ::
         && from <= peeks[p] <= rereads[p] <= until
         && readings[p].inUse == bs[p].inUse
         && (bs[p].inUse ==>
               && readings[p].peeked == Encoded(ss[peeks[p]].table[VertexAt(bs, n, p)].v, imax)
               && readings[p].read == Encoded(ss[rereads[p]].table[VertexAt(bs, n, p)].v, imax))
  }

  // One bucket counts as the value its vertex had at one of the two moments.
  lemma PathReading(g: Graph, src: nat, bs: seq<Bucket<Dist>>, ss: seq<Update.State<Dist>>, acts: seq<Update.Act>,
                    imax: real, readings: seq<Reading>, peeks: seq<nat>, rereads: seq<nat>,
                    from: nat, until: nat, p: nat)
    requires ShortestPathRun(g, src, ss, acts) && AvoidsImax(ss, imax) && HoldsVertices(bs, |g|)
    requires TakenFromPaths(bs, |g|, ss, imax, readings, peeks, rereads, from, until) && p < |bs| && bs[p].inUse
    ensures var moment := if readings[p].peeked == imax then peeks[p] else rereads[p];
            var value := ss[moment].table[VertexAt(bs, |g|, p)].v;
            Contributions(readings, imax)[p] == Finite(value) && (value.Top? <==> readings[p].peeked == imax)
  {
    StoredValuesNeverGrow(g, src, ss, acts, peeks[p], rereads[p], VertexAt(bs, |g|, p));
  }

  // The i-th bucket in use.
  ghost function Place<V>(bs: seq<Bucket<V>>, i: nat): (p: nat)
    requires i < |Places(bs, |bs|)|
    ensures p < |bs| && bs[p].inUse
  {
    PlacesAre(bs, |bs|);
    Places(bs, |bs|)[i]
  }

  ghost predicate TopWherePeeked(bs: seq<Bucket<Dist>>, readings: seq<Reading>, imax: real, values: seq<Dist>)
    requires |readings| == |bs|
  {
    && |values| == |Places(bs, |bs|)|
    && forall i | 0 <= i < |values| :: values[i].Top? <==> readings[Place(bs, i)].peeked == imax
  }

  // Every bucket in use counts as the value listed for it.
  ghost predicate Matches(bs: seq<Bucket<Dist>>, readings: seq<Reading>, imax: real, values: seq<Dist>)
    requires |readings| == |bs|
  {
    && |values| == |Places(bs, |bs|)|
    && forall i | 0 <= i < |values| :: Finite(values[i]) == Contributions(readings, imax)[Place(bs, i)]
  }

  lemma MatchingTotals(bs: seq<Bucket<Dist>>, readings: seq<Reading>, imax: real, values: seq<Dist>)
    requires |readings| == |bs| && Matches(bs, readings, imax, values)
    requires forall p | 0 <= p < |bs| :: readings[p].inUse == bs[p].inUse
    ensures Total(Finites(values)) == Total(Contributions(readings, imax))
  {
    assert Finites(values) == Listed(bs, readings, imax, |bs|) by {
      forall i | 0 <= i < |values| ensures Finites(values)[i] == Listed(bs, readings, imax, |bs|)[i] {
        assert Places(bs, |bs|)[i] == Place(bs, i);
      }
    }
    ListedTotal(bs, readings, imax, |bs|);
    assert readings[..|bs|] == readings;
  }

  /**
   * On shortest path, whatever number stands for imax, what estimate_prog adds up is the total
   * of the finite values of a scan that reads every vertex once, in bucket order.
   */
  lemma ScanOfPaths(g: Graph, src: nat, bs: seq<Bucket<Dist>>, ss: seq<Update.State<Dist>>, acts: seq<Update.Act>,
                    imax: real, readings: seq<Reading>, peeks: seq<nat>, rereads: seq<nat>, from: nat, until: nat)
    returns (scan: Scan, values: seq<Dist>)
    requires ShortestPathRun(g, src, ss, acts) && AvoidsImax(ss, imax) && HoldsVertices(bs, |g|)
    requires TakenFromPaths(bs, |g|, ss, imax, readings, peeks, rereads, from, until)
    ensures Spans(scan, |g|, from, until) && ReadsPaths(ss, scan, values) && scan.order == Order(bs, |g|)
    ensures Total(Finites(values)) == Total(Contributions(readings, imax))
    ensures TopWherePeeked(bs, readings, imax, values)
  {
    OrderVisitsOnce(bs, |g|);
    var n, order := |Places(bs, |bs|)|, Order(bs, |g|);
    var moments := seq(n, i requires 0 <= i < n =>
      if readings[Place(bs, i)].peeked == imax then peeks[Place(bs, i)] else rereads[Place(bs, i)]);
    scan := Scan(order, moments);
    values := seq(n, i requires 0 <= i < n => ss[moments[i]].table[VertexAt(bs, |g|, Place(bs, i))].v);
    forall i | 0 <= i < n
      ensures order[i] == VertexAt(bs, |g|, Place(bs, i))
      ensures Finite(values[i]) == Contributions(readings, imax)[Place(bs, i)]
      ensures values[i].Top? <==> readings[Place(bs, i)].peeked == imax
    {
      assert Places(bs, |bs|)[i] == Place(bs, i);
      PathReading(g, src, bs, ss, acts, imax, readings, peeks, rereads, from, until, Place(bs, i));
    }
    assert Matches(bs, readings, imax, values);
    MatchingTotals(bs, readings, imax, values);
  }

  // What the two checks read around a full pass.
  ghost predicate CheckedAround(g: Graph, src: nat, bs: seq<Bucket<Dist>>, ss: seq<Update.State<Dist>>,
                                acts: seq<Update.Act>, imax: real, from: nat, until: nat,
                                readings1: seq<Reading>, peeks1: seq<nat>, rereads1: seq<nat>,
                                readings2: seq<Reading>, peeks2: seq<nat>, rereads2: seq<nat>)
  {
    && ShortestPathRun(g, src, ss, acts) && AvoidsImax(ss, imax) && HoldsVertices(bs, |g|)
    && from <= until <= |acts| && PathPass(g, ss, acts, from, until)
    && TakenFromPaths(bs, |g|, ss, imax, readings1, peeks1, rereads1, 0, from)
    && TakenFromPaths(bs, |g|, ss, imax, readings2, peeks2, rereads2, until, |acts|)
  }

  // On the buckets themselves: if the totals of two checks around a full pass are equal and no
  // bucket at imax in the first is counted in the second, the distances are exact.
  lemma EqualChecksCertify(g: Graph, src: nat, bs: seq<Bucket<Dist>>, ss: seq<Update.State<Dist>>,
                           acts: seq<Update.Act>, imax: real, from: nat, until: nat,
                           readings1: seq<Reading>, peeks1: seq<nat>, rereads1: seq<nat>,
                           readings2: seq<Reading>, peeks2: seq<nat>, rereads2: seq<nat>, now: nat)
    requires CheckedAround(g, src, bs, ss, acts, imax, from, until,
                           readings1, peeks1, rereads1, readings2, peeks2, rereads2)
    requires Settles([Total(Contributions(readings1, imax)), Total(Contributions(readings2, imax))], 1, 0.0)
    requires forall p | 0 <= p < |bs| && bs[p].inUse && readings1[p].peeked == imax :: readings2[p].peeked == imax
    requires from <= now <= |acts|
    ensures Exact(g, src, ss[now])
  {
    var scan1, values1 := ScanOfPaths(g, src, bs, ss, acts, imax, readings1, peeks1, rereads1, 0, from);
    var scan2, values2 := ScanOfPaths(g, src, bs, ss, acts, imax, readings2, peeks2, rereads2, until, |acts|);
    forall i | 0 <= i < |values1| && values1[i].Top? ensures values2[i].Top? {
      assert readings1[Place(bs, i)].peeked == imax;
    }
    EqualScansCertify(g, src, ss, acts, from, until, scan1, values1, scan2, values2, now);
  }

  // ---------- the dump ----------

  ghost function Deltas(bs: seq<Bucket<real>>, hi: nat): seq<real>
    requires hi <= |bs|
  {
    PlacesAre(bs, hi);
    seq(|Places(bs, hi)|, i requires 0 <= i < |Places(bs, hi)| => bs[Places(bs, hi)[i]].row.delta)
  }

  ghost function Values(bs: seq<Bucket<real>>, hi: nat): seq<real>
    requires hi <= |bs|
  {
    PlacesAre(bs, hi);
    seq(|Places(bs, hi)|, i requires 0 <= i < |Places(bs, hi)| => bs[Places(bs, hi)[i]].row.v)
  }

  datatype Dumped = Dumped(totalF1: real, totalF2: real, lines: seq<(int, real)>)

  // The totals over the first hi buckets, and one line per vertex in them.
  ghost predicate DumpedTo(bs: seq<Bucket<real>>, hi: nat, d: Dumped) {
    match d
    case Dumped(totalF1, totalF2, lines) =>
      && hi <= |bs| && totalF1 == Total(Deltas(bs, hi)) && totalF2 == Total(Values(bs, hi))
      && |lines| == |Places(bs, hi)|
      && forall i | 0 <= i < |lines| ::
           Places(bs, hi)[i] < |bs| && lines[i] == (bs[Places(bs, hi)[i]].k, bs[Places(bs, hi)[i]].row.v)
  }

  lemma DumpStarts(bs: seq<Bucket<real>>)
    ensures DumpedTo(bs, 0, Dumped(0.0, 0.0, []))
  {
  }

  lemma {:induction false} DumpSkips(bs: seq<Bucket<real>>, p: nat, q: nat, d: Dumped)
    requires p <= q <= |bs| && DumpedTo(bs, p, d) && forall i | p <= i < q :: !bs[i].inUse
    ensures DumpedTo(bs, q, d)
    decreases q - p
  {
    if p < q {
      assert Deltas(bs, p + 1) == Deltas(bs, p);
      assert Values(bs, p + 1) == Values(bs, p);
      DumpSkips(bs, p + 1, q, d);
    }
  }

  // Next() of the entire-pass iterator: on to the next bucket in use, or off the end.
  method Next<V>(buckets: array<Bucket<V>>, pos0: int) returns (pos: nat)
    requires -1 <= pos0 < buckets.Length
    ensures pos0 < pos <= buckets.Length && (pos < buckets.Length ==> buckets[pos].inUse)
    ensures forall i | pos0 < i < pos :: !buckets[i].inUse
  {
    pos := pos0 + 1;
    while pos < buckets.Length && !buckets[pos].inUse
      invariant pos0 < pos <= buckets.Length
      invariant forall i | pos0 < i < pos :: !buckets[i].inUse
    {
      pos := pos + 1;
    }
  }

  lemma DumpTakes(bs: seq<Bucket<real>>, p: nat, d: Dumped)
    requires p < |bs| && DumpedTo(bs, p, d) && bs[p].inUse
    ensures DumpedTo(bs, p + 1, Dumped(d.totalF1 + bs[p].row.delta, d.totalF2 + bs[p].row.v,
                                       d.lines + [(bs[p].k, bs[p].row.v)]))
  {
    PlacesAre(bs, p);
    assert Deltas(bs, p + 1) == Deltas(bs, p) + [bs[p].row.delta];
    assert Values(bs, p + 1) == Values(bs, p) + [bs[p].row.v];
    TotalAppend(Deltas(bs, p), bs[p].row.delta);
    TotalAppend(Values(bs, p), bs[p].row.v);
  }

  // The loop of dump over the entire-pass iterator, with the lines it writes.
  method Dump(buckets: array<Bucket<real>>) returns (d: Dumped)
    ensures DumpedTo(buckets[..], buckets.Length, d)
  {
    ghost var bs := buckets[..];
    d := Dumped(0.0, 0.0, []);
    DumpStarts(bs);
    var pos := -1;
    while pos + 1 != buckets.Length
      invariant -1 <= pos < buckets.Length && DumpedTo(bs, pos + 1, d)
      decreases buckets.Length - pos
    {
      var next := Next(buckets, pos);
      DumpSkips(bs, pos + 1, next, d);
      if next == buckets.Length {
        return;
      }
      pos := next;
      DumpTakes(bs, pos, d);
      var bucket := buckets[pos];
      d := Dumped(d.totalF1 + bucket.row.delta, d.totalF2 + bucket.row.v, d.lines + [(bucket.k, bucket.row.v)]);
    }
  }

  // The table the dump scans holds the rows the workers left behind.
  ghost predicate Stores<V>(bs: seq<Bucket<V>>, s: Update.State<V>) {
    HoldsVertices(bs, |s.table|)
    && forall p | 0 <= p < |bs| && bs[p].inUse :: bs[p].row == s.table[VertexAt(bs, |s.table|, p)]
  }

  lemma DumpTotals(bs: seq<Bucket<real>>, s: Update.State<real>)
    requires Stores(bs, s)
    ensures Total(Deltas(bs, |bs|)) == RankSystem.TotalDelta(s)
    ensures Total(Values(bs, |bs|)) == RankSystem.TotalValue(s)
  {
    var order := Order(bs, |s.table|);
    var deltas := seq(|s.table|, k requires 0 <= k < |s.table| => s.table[k].delta);
    var values := seq(|s.table|, k requires 0 <= k < |s.table| => s.table[k].v);
    PlacesAre(bs, |bs|);
    OrderVisitsOnce(bs, |s.table|);
    assert Pick(deltas, order) == Deltas(bs, |bs|);
    assert Pick(values, order) == Values(bs, |bs|);
    ScanTotal(deltas, order);
    ScanTotal(values, order);
  }

  lemma DumpHasLine(bs: seq<Bucket<real>>, s: Update.State<real>, d: Dumped, k: nat)
    requires Stores(bs, s) && DumpedTo(bs, |bs|, d) && k < |s.table|
    ensures (k, s.table[k].v) in d.lines
  {
    var order := Order(bs, |s.table|);
    PlacesAre(bs, |bs|);
    OrderVisitsOnce(bs, |s.table|);
    assert k in order;
    var i :| 0 <= i < |order| && order[i] == k;
    assert d.lines[i] == (k, s.table[k].v);
  }

  // As many buckets in use as vertices.
  lemma OneLineEach<V>(bs: seq<Bucket<V>>, n: nat)
    requires HoldsVertices(bs, n)
    ensures |Places(bs, |bs|)| == n
  {
    OrderVisitsOnce(bs, n);
    VisitsAreAsMany(Order(bs, n), n);
  }

  // The totals of the dump are those of the vertices, whatever the hash order, and every
  // vertex gets its line.
  lemma DumpReportsVertices(bs: seq<Bucket<real>>, s: Update.State<real>, d: Dumped)
    requires Stores(bs, s) && DumpedTo(bs, |bs|, d)
    ensures d.totalF1 == RankSystem.TotalDelta(s)
    ensures d.totalF2 == RankSystem.TotalValue(s)
    ensures |d.lines| == |s.table| && forall k | 0 <= k < |s.table| :: (k, s.table[k].v) in d.lines
  {
    OneLineEach(bs, |s.table|);
    DumpTotals(bs, s);
    forall k | 0 <= k < |s.table| ensures (k, s.table[k].v) in d.lines {
      DumpHasLine(bs, s, d, k);
    }
  }
}
