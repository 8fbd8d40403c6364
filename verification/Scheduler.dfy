/**
 * Priority scheduling: which positions a ScheduledIterator lists.  The random sample,
 * already sorted by descending priority, is a parameter.
 */
module Scheduler {
  import opened Vectors
  import opened Buckets
  import opened StateTable
  import opened Iterators

  const SAMPLE_SIZE: nat := 1000

  // The order of the cached priorities.
  ghost predicate TotalOrder<V(!new)>(ge: (V, V) -> bool) {
    && (forall a, b :: ge(a, b) || ge(b, a))
    && (forall a, b, c :: ge(a, b) && ge(b, c) ==> ge(a, c))
    && (forall a, b :: ge(a, b) && ge(b, a) ==> a == b)
  }

  predicate Above<V(==)>(ge: (V, V) -> bool, a: V, b: V) {
    ge(a, b) && a != b
  }

  function CutIndex(portion: real): (cut: nat)
    requires 0.0 <= portion < 1.0
    ensures cut < SAMPLE_SIZE && cut as real <= 1000.0 * portion < cut as real + 1.0
  {
    (SAMPLE_SIZE as real * portion).Floor
  }

  ghost predicate Sample<V>(bs: seq<Bucket<V>>, sorted: seq<nat>) {
    |sorted| == SAMPLE_SIZE && forall j | 0 <= j < |sorted| :: sorted[j] < |bs| && bs[sorted[j]].inUse
  }

  ghost predicate Descending<V>(bs: seq<Bucket<V>>, ge: (V, V) -> bool, sorted: seq<nat>)
    requires Sample(bs, sorted)
  {
    forall i, j | 0 <= i <= j < |sorted| :: ge(bs[sorted[i]].row.pri, bs[sorted[j]].row.pri)
  }

  // The in-use positions below n that meet a condition, in order.
  ghost function Selected<V>(bs: seq<Bucket<V>>, n: nat, keep: Bucket<V> -> bool): seq<nat>
    requires n <= |bs|
  {
    if n == 0 then []
    else Selected(bs, n - 1, keep) + if bs[n - 1].inUse && keep(bs[n - 1]) then [n - 1] else []
  }

  // The condition of each branch.
  ghost function Condition<V>(bs: seq<Bucket<V>>, entries: nat, default: V, ge: (V, V) -> bool,
                              sorted: seq<nat>, portion: real): Bucket<V> -> bool
    requires 0.0 <= portion < 1.0 && (entries > SAMPLE_SIZE ==> Sample(bs, sorted))
  {
    if entries <= SAMPLE_SIZE then b => true
    else
      var threshold := bs[sorted[CutIndex(portion)]].row.pri;
      if CutIndex(portion) == 0 || bs[sorted[0]].row.pri == threshold then
        (b: Bucket<V>) => b.row.delta != default && ge(b.row.pri, threshold)
      else
        (b: Bucket<V>) => b.row.delta != default && Above(ge, b.row.pri, threshold)
  }

  ghost function ScheduleOf<V>(bs: seq<Bucket<V>>, entries: nat, default: V, ge: (V, V) -> bool,
                              sorted: seq<nat>, portion: real): seq<nat>
    requires 0.0 <= portion < 1.0 && (entries > SAMPLE_SIZE ==> Sample(bs, sorted))
  {
    Selected(bs, |bs|, Condition(bs, entries, default, ge, sorted, portion))
  }

  method Schedule<V(==)>(table: StateTable<V>, ge: (V, V) -> bool, sorted: seq<nat>, portion: real)
    returns (pos: seq<nat>)
    requires table.Valid() && 0.0 <= portion < 1.0
    requires table.entries > SAMPLE_SIZE ==> Sample(table.buckets[..], sorted)
    ensures var bs := table.buckets[..];
            pos == ScheduleOf(bs, table.entries, table.K.default, ge, sorted, portion)
  {
    ghost var bs := table.buckets[..];
    ghost var keep := Condition(bs, table.entries, table.K.default, ge, sorted, portion);
    pos := [];
    var i := 0;
    if table.entries <= SAMPLE_SIZE {
      while i < table.size
        invariant 0 <= i <= table.size && pos == Selected(bs, i, keep)
      {
        if table.buckets[i].inUse {
          pos := pos + [i];
        }
        i := i + 1;
      }
    } else {
      var cut := CutIndex(portion);
      assert sorted[cut] < |bs| && sorted[0] < |bs|;
      var threshold := table.buckets[sorted[cut]].row.pri;
      if cut == 0 || table.buckets[sorted[0]].row.pri == threshold {
        while i < table.size
          invariant 0 <= i <= table.size && pos == Selected(bs, i, keep)
        {
          if table.buckets[i].inUse && table.buckets[i].row.delta != table.K.default
             && ge(table.buckets[i].row.pri, threshold)
          {
            pos := pos + [i];
          }
          i := i + 1;
        }
      } else {
        while i < table.size
          invariant 0 <= i <= table.size && pos == Selected(bs, i, keep)
        {
          if table.buckets[i].inUse && table.buckets[i].row.delta != table.K.default
             && Above(ge, table.buckets[i].row.pri, threshold)
          {
            pos := pos + [i];
          }
          i := i + 1;
        }
      }
    }
  }

  lemma {:induction false} SelectedIs<V>(bs: seq<Bucket<V>>, n: nat, keep: Bucket<V> -> bool)
    requires n <= |bs|
    ensures var pos := Selected(bs, n, keep);
            && Increasing(pos) && (forall i | 0 <= i < |pos| :: pos[i] < n)
            && forall p: nat :: p in pos <==> p < n && bs[p].inUse && keep(bs[p])
  {
    if n > 0 {
      SelectedIs(bs, n - 1, keep);
    }
  }

  lemma ScheduleIs<V>(bs: seq<Bucket<V>>, entries: nat, default: V, ge: (V, V) -> bool, sorted: seq<nat>, portion: real)
    requires 0.0 <= portion < 1.0 && (entries > SAMPLE_SIZE ==> Sample(bs, sorted))
    ensures Increasing(ScheduleOf(bs, entries, default, ge, sorted, portion))
    ensures forall p: nat :: p in ScheduleOf(bs, entries, default, ge, sorted, portion) <==>
              p < |bs| && bs[p].inUse && Condition(bs, entries, default, ge, sorted, portion)(bs[p])
  {
    SelectedIs(bs, |bs|, Condition(bs, entries, default, ge, sorted, portion));
  }

  // The list is one an iterator can run: in order, and in use throughout.
  lemma ScheduleIsUsable<V>(bs: seq<Bucket<V>>, entries: nat, default: V, ge: (V, V) -> bool,
                            sorted: seq<nat>, portion: real)
    requires 0.0 <= portion < 1.0 && (entries > SAMPLE_SIZE ==> Sample(bs, sorted))
    ensures Usable(Scheduled(ScheduleOf(bs, entries, default, ge, sorted, portion)), bs)
  {
    var pos := ScheduleOf(bs, entries, default, ge, sorted, portion);
    ScheduleIs(bs, entries, default, ge, sorted, portion);
    assert forall i | 0 <= i < |pos| :: pos[i] in pos;
  }

  // A small table is scheduled whole.
  lemma SmallTableIsScheduledWhole<V>(bs: seq<Bucket<V>>, entries: nat, default: V, ge: (V, V) -> bool,
                                      sorted: seq<nat>, portion: real, p: nat)
    requires 0.0 <= portion < 1.0 && entries <= SAMPLE_SIZE && p < |bs|
    ensures p in ScheduleOf(bs, entries, default, ge, sorted, portion) <==> bs[p].inUse
  {
    ScheduleIs(bs, entries, default, ge, sorted, portion);
  }

  // cut_index is what 1000 times the portion is truncated to.
  ghost predicate CutsAt(portion: real, cut: nat) {
    cut as real <= 1000.0 * portion < cut as real + 1.0
  }

  lemma OneCut(portion: real, cut: nat)
    requires 0.0 <= portion < 1.0 && CutsAt(portion, cut)
    ensures cut == CutIndex(portion)
  {
  }

  /**
   * More than 1000 entries: with the best sample tied with the threshold, or the cut at 0,
   * everything in use that has a delta and reaches the threshold is scheduled; otherwise
   * everything in use that has a delta and is above it.
   */
  lemma ScheduledExactly<V>(bs: seq<Bucket<V>>, entries: nat, default: V, ge: (V, V) -> bool,
                            sorted: seq<nat>, portion: real, cut: nat, p: nat)
    requires 0.0 <= portion < 1.0 && CutsAt(portion, cut) && entries > 1000 && Sample(bs, sorted) && p < |bs|
    ensures cut < |sorted| == 1000
    ensures var threshold, best := bs[sorted[cut]].row.pri, bs[sorted[0]].row.pri;
            p in ScheduleOf(bs, entries, default, ge, sorted, portion)
            <==> bs[p].inUse && bs[p].row.delta != default && ge(bs[p].row.pri, threshold)
                 && (cut == 0 || best == threshold || bs[p].row.pri != threshold)
  {
    OneCut(portion, cut);
    ScheduleIs(bs, entries, default, ge, sorted, portion);
  }

  // When all priorities are equal and everything has a delta, everything is scheduled: the first
  // round of PageRank runs the whole table.
  lemma UniformTableIsScheduledWhole<V(!new)>(bs: seq<Bucket<V>>, entries: nat, default: V, ge: (V, V) -> bool,
                                              sorted: seq<nat>, portion: real, pri: V, p: nat)
    requires 0.0 <= portion < 1.0 && (entries > 1000 ==> Sample(bs, sorted)) && TotalOrder(ge) && p < |bs|
    requires forall q | 0 <= q < |bs| && bs[q].inUse :: bs[q].row.pri == pri && bs[q].row.delta != default
    ensures p in ScheduleOf(bs, entries, default, ge, sorted, portion) <==> bs[p].inUse
  {
    if entries <= 1000 {
      SmallTableIsScheduledWhole(bs, entries, default, ge, sorted, portion, p);
    } else {
      var cut := CutIndex(portion);
      ScheduledExactly(bs, entries, default, ge, sorted, portion, cut, p);
      assert bs[sorted[cut]].inUse && bs[sorted[0]].inUse;
    }
  }

  /**
   * On a large table everything scheduled has a delta to spread and a priority at or above
   * the threshold, and everything with a delta and a priority strictly above is scheduled.
   */
  lemma ScheduleRespectsThreshold<V>(bs: seq<Bucket<V>>, entries: nat, default: V, ge: (V, V) -> bool,
                                     sorted: seq<nat>, portion: real, p: nat)
    requires 0.0 <= portion < 1.0 && entries > SAMPLE_SIZE && Sample(bs, sorted) && p < |bs|
    ensures var pos := ScheduleOf(bs, entries, default, ge, sorted, portion);
            var threshold := bs[sorted[CutIndex(portion)]].row.pri;
            && (p in pos ==> bs[p].inUse && bs[p].row.delta != default && ge(bs[p].row.pri, threshold))
            && (bs[p].inUse && bs[p].row.delta != default && Above(ge, bs[p].row.pri, threshold) ==> p in pos)
  {
    ScheduleIs(bs, entries, default, ge, sorted, portion);
  }

  // Unless the sample's head ties with the cut, only samples in front of the cut qualify.
  lemma CutLimitsSample<V(!new)>(bs: seq<Bucket<V>>, entries: nat, default: V, ge: (V, V) -> bool,
                                 sorted: seq<nat>, portion: real, j: nat)
    requires 0.0 <= portion < 1.0 && entries > SAMPLE_SIZE && Sample(bs, sorted) && Descending(bs, ge, sorted)
    requires TotalOrder(ge) && CutIndex(portion) > 0
    requires bs[sorted[0]].row.pri != bs[sorted[CutIndex(portion)]].row.pri
    requires j < |sorted| && sorted[j] in ScheduleOf(bs, entries, default, ge, sorted, portion)
    ensures j < CutIndex(portion)
  {
    ScheduleIs(bs, entries, default, ge, sorted, portion);
    var cut := CutIndex(portion);
    var c := if cut <= j then cut else j;
    assert ge(bs[sorted[c]].row.pri, bs[sorted[j]].row.pri);
  }

  // So the threshold admits at most cut_index of the samples.
  lemma CutCountsSample<V(!new)>(bs: seq<Bucket<V>>, entries: nat, default: V, ge: (V, V) -> bool,
                                 sorted: seq<nat>, portion: real, admitted: set<nat>)
    requires 0.0 <= portion < 1.0 && entries > SAMPLE_SIZE && Sample(bs, sorted) && Descending(bs, ge, sorted)
    requires TotalOrder(ge) && CutIndex(portion) > 0
    requires bs[sorted[0]].row.pri != bs[sorted[CutIndex(portion)]].row.pri
    requires forall j: nat :: j in admitted <==>
               j < |sorted| && sorted[j] in ScheduleOf(bs, entries, default, ge, sorted, portion)
    ensures |admitted| <= CutIndex(portion)
  {
    var cut := CutIndex(portion);
    forall j: nat | j in admitted ensures j in Below(cut) {
      CutLimitsSample(bs, entries, default, ge, sorted, portion, j);
    }
    BelowSize(cut);
    assert admitted + (Below(cut) - admitted) == Below(cut);
  }

  // The best sample is scheduled whenever it has anything to spread.
  lemma TopSampleIsScheduled<V(!new)>(bs: seq<Bucket<V>>, entries: nat, default: V, ge: (V, V) -> bool,
                                      sorted: seq<nat>, portion: real)
    requires 0.0 <= portion < 1.0 && entries > SAMPLE_SIZE && Sample(bs, sorted) && Descending(bs, ge, sorted)
    ensures sorted[0] in ScheduleOf(bs, entries, default, ge, sorted, portion) <==> bs[sorted[0]].row.delta != default
  {
    ScheduleIs(bs, entries, default, ge, sorted, portion);
    assert ge(bs[sorted[0]].row.pri, bs[sorted[CutIndex(portion)]].row.pri);
  }
}
