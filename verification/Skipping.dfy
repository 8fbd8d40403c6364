/**
 * The scheduled iterator on loaded tables: when keys hash to themselves, which inputs a
 * round can run in full.
 */
module Skipping {
  import opened Kernels
  import opened Buckets
  import opened Ledger
  import opened StateTable
  import opened Iterators

  ghost predicate HashesToItself(hash: int -> nat) {
    forall k: nat :: hash(k) == k
  }

  // Every key has a bucket of its own to start its probe from.
  ghost predicate Direct<V>(bs: seq<Bucket<V>>, hash: int -> nat) {
    Chained(bs, hash) && HashesToItself(hash) && forall k | k in View(bs) :: 0 <= k < |bs|
  }

  function UsedPlaces<V>(bs: seq<Bucket<V>>): (s: set<int>)
    ensures |s| == Count(bs) && forall p :: p in s <==> 0 <= p < |bs| && bs[p].inUse
  {
    if |bs| == 0 then {}
    else
      var last := |bs| - 1;
      UsedPlaces(bs[..last]) + if bs[last].inUse then {last} else {}
  }

  lemma SameSize(small: set<int>, large: set<int>)
    requires small <= large && |small| == |large|
    ensures small == large
  {
    assert |large - small| == 0;
  }

  lemma OwnHome(hash: int -> nat, k: nat, n: nat)
    requires HashesToItself(hash) && k < n
    ensures Home(hash, k, n) == k
  {
    assert k % n == k;
  }

  // The home of a stored key is never free.
  lemma HomeInUse<V>(bs: seq<Bucket<V>>, hash: int -> nat, k: int)
    requires Direct(bs, hash) && k in View(bs)
    ensures bs[k].inUse
  {
    ViewKeys(bs, k);
    var i: nat :| Holds(bs, k, i);
    OwnHome(hash, k, |bs|);
    assert Reachable(bs, hash, i);
    assert i != k ==> Passed(bs, k, 0, k);
  }

  // So the buckets in use are exactly the homes of the keys, although a key may be elsewhere.
  lemma UsedAreHomes<V>(bs: seq<Bucket<V>>, hash: int -> nat, p: nat)
    requires Direct(bs, hash) && p < |bs|
    ensures bs[p].inUse <==> p in View(bs)
  {
    ChainedIsDistinct(bs, hash);
    CountIsSize(bs);
    forall k | k in View(bs).Keys ensures k in UsedPlaces(bs) {
      HomeInUse(bs, hash, k);
    }
    SameSize(View(bs).Keys, UsedPlaces(bs));
  }

  ghost predicate HasKeysBelow<V>(bs: seq<Bucket<V>>, count: nat) {
    forall p: nat | p < count :: p in View(bs)
  }

  lemma FirstAreKeys<V>(bs: seq<Bucket<V>>, hash: int -> nat, count: nat)
    requires Direct(bs, hash) && count <= |bs|
    ensures FirstInUse(bs, count) <==> HasKeysBelow(bs, count)
  {
    forall p: nat | p < count ensures bs[p].inUse <==> p in View(bs) {
      UsedAreHomes(bs, hash, p);
    }
  }

  // A round completes and runs all that was scheduled if and only if at least as many positions
  // as workers were scheduled and as many of the smallest numbers are keys.
  lemma ScheduledRunsAllKeys<V>(pos: seq<nat>, bs: seq<Bucket<V>>, n: nat, hash: int -> nat)
    requires Direct(bs, hash) && Usable(Scheduled(pos), bs) && n > 0
    ensures RunsSchedule(pos, bs, n) <==> n <= |pos| && HasKeysBelow(bs, |pos|)
  {
    ChainedIsDistinct(bs, hash);
    ExtentFits(Scheduled(pos), bs);
    ScheduledRunsAll(pos, bs, n);
    FirstAreKeys(bs, hash, |pos|);
  }

  lemma ScheduledFits<V>(pos: seq<nat>, bs: seq<Bucket<V>>)
    requires Usable(Scheduled(pos), bs)
    ensures |pos| <= Count(bs)
  {
    var listed := Listed(pos);
    assert listed <= UsedPlaces(bs);
    Subset(listed, UsedPlaces(bs));
  }

  function Listed(pos: seq<nat>): (s: set<int>)
    requires Increasing(pos)
    ensures |s| == |pos| && forall p :: p in s <==> p in pos
  {
    if |pos| == 0 then {}
    else
      var last := |pos| - 1;
      assert pos == pos[..last] + [pos[last]];
      Listed(pos[..last]) + {pos[last]}
  }

  lemma Subset(small: set<int>, large: set<int>)
    requires small <= large
    ensures |small| <= |large|
  {
    assert |large| == |small| + |large - small|;
  }

  // Vertices 0, ..., m - 1 that all fit lose nothing to the wrong bucket test: a round with
  // enough positions runs whatever was scheduled.
  lemma NumberedFromZero<V>(pos: seq<nat>, bs: seq<Bucket<V>>, n: nat, m: nat, hash: int -> nat)
    requires Chained(bs, hash) && HashesToItself(hash) && (forall k :: k in View(bs) <==> 0 <= k < m)
    requires Usable(Scheduled(pos), bs) && n > 0
    ensures RunsSchedule(pos, bs, n) <==> n <= |pos|
  {
    ChainedIsDistinct(bs, hash);
    VerticesFit(bs, m);
    ScheduledFits(pos, bs);
    CountIsSize(bs);
    assert View(bs).Keys == IntsBelow(m);
    ScheduledRunsAllKeys(pos, bs, n, hash);
  }

  // Keys 1, ..., m in more than m buckets leave bucket 0 free: the first vertex of every
  // schedule is left out.
  lemma NumberedFromOne<V>(pos: seq<nat>, bs: seq<Bucket<V>>, n: nat, m: nat, hash: int -> nat)
    requires Chained(bs, hash) && HashesToItself(hash) && m < |bs| && (forall k :: k in View(bs) <==> 1 <= k <= m)
    requires Usable(Scheduled(pos), bs) && 0 < n <= |pos|
    ensures Round(Scheduled(pos), bs, n).Some? && !Served(pos, bs, n, 0)
  {
    ChainedIsDistinct(bs, hash);
    UsedAreHomes(bs, hash, 0);
    ExtentFits(Scheduled(pos), bs);
    RoundCompletes(Scheduled(pos), bs, n);
    ServedWhereTested(pos, bs, n, 0);
  }

  // Every schedule of the table skips its first vertex.
  ghost predicate AlwaysSkips<V>(bs: seq<Bucket<V>>) {
    forall pos, n: nat | Usable(Scheduled(pos), bs) && 0 < n <= |pos| ::
      Round(Scheduled(pos), bs, n).Some? && !Served(pos, bs, n, 0)
  }

  lemma FirstFreeSkips<V>(bs: seq<Bucket<V>>, hash: int -> nat)
    requires Chained(bs, hash) && HashesToItself(hash) && |bs| == 3 && View(bs).Keys == {1, 2}
    ensures AlwaysSkips(bs) && Usable(Scheduled([1, 2]), bs)
  {
    assert forall k :: k in View(bs) <==> k in View(bs).Keys;
    forall pos, n: nat | Usable(Scheduled(pos), bs) && 0 < n <= |pos|
      ensures Round(Scheduled(pos), bs, n).Some? && !Served(pos, bs, n, 0)
    {
      NumberedFromOne(pos, bs, n, 2, hash);
    }
    UsedAreHomes(bs, hash, 1);
    UsedAreHomes(bs, hash, 2);
  }

  ghost predicate Filled<V>(l: Ledger<V>, keys: set<int>, size: nat, entries: nat) {
    l.m.Keys == keys && l.size == size && l.entries == entries
  }

  // Three vertices put into one bucket: the second overwrites the first, the third makes the
  // table grow to three buckets.
  lemma PutThree<V>(K: Kernel<V>, l0: Ledger<V>, l1: Ledger<V>, l2: Ledger<V>, l3: Ledger<V>, rec: Record<V>)
    requires l0.m == map[] && l0.size == 1 && l0.entries == 0
    requires Puts(K, l0, 0, rec, l1) && Puts(K, l1, 1, rec, l2) && Puts(K, l2, 2, rec, l3)
    ensures Filled(l3, {1, 2}, 3, 3)
  {
    assert Filled(l1, {0}, 1, 1);
    assert Filled(l2, {1}, 1, 2);
  }

  // Loaded like that, bucket 0 stays free, and every schedule skips its first vertex.
  method LoadThree<V>(K: Kernel<V>, hash: int -> nat, v1: V, v2: V, v3: seq<Edge>) returns (table: StateTable<V>)
    requires HashesToItself(hash)
    ensures fresh(table) && table.Valid() && table.Contents().Keys == {1, 2} && table.buckets.Length == 3
    ensures AlwaysSkips(table.buckets[..]) && Usable(Scheduled([1, 2]), table.buckets[..])
  {
    table := new StateTable<V>(K, hash, 1);
    ghost var l0 := table.Book();
    table.Put(0, v1, v2, v3);
    ghost var l1 := table.Book();
    table.Put(1, v1, v2, v3);
    ghost var l2 := table.Book();
    table.Put(2, v1, v2, v3);
    PutThree(K, l0, l1, l2, table.Book(), PutRecord(K, v1, v2, v3));
    FirstFreeSkips(table.buckets[..], hash);
  }
}
