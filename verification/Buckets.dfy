/**
 * The bucket vector of the state table as a value: cyclic linear probing, the map it
 * stands for, and what writing one bucket does to that map.
 */
module Buckets {
  import opened Kernels

  datatype Bucket<V> = Bucket(inUse: bool, k: int, row: Row<V>, v3: seq<Edge>)

  datatype Record<V> = Record(row: Row<V>, v3: seq<Edge>)

  // ---------- cyclic positions ----------

  // o steps after start.
  function At(start: nat, o: nat, n: nat): (p: nat)
    requires start < n && o < n
    ensures p < n
  {
    if start + o < n then start + o else start + o - n
  }

  // The number of steps from start to i.
  function Offset(start: nat, i: nat, n: nat): (o: nat)
    requires start < n && i < n
    ensures o < n && At(start, o, n) == i
  {
    if i >= start then i - start else i - start + n
  }

  lemma OffsetInverts(start: nat, o: nat, n: nat)
    requires start < n && o < n
    ensures Offset(start, At(start, o, n), n) == o
  {
  }

  // The step of the probing loop.
  lemma NextPosition(b: nat, n: nat)
    requires b < n
    ensures (b + 1) % n == if b + 1 == n then 0 else b + 1
  {
  }

  function Home(hash: int -> nat, k: int, n: nat): (p: nat)
    requires n > 0
    ensures p < n
  {
    hash(k) % n
  }

  // A whole number of turns around the table before the hash.
  lemma HomeIsRemainder(hash: int -> nat, k: int, n: nat)
    requires n > 0
    ensures exists q: nat :: hash(k) == q * n + Home(hash, k, n)
  {
    assert hash(k) == hash(k) / n * n + hash(k) % n;
  }

  // ---------- the probing invariant ----------

  // Position o of a probe for key k is occupied by somebody else.
  ghost predicate Passed<V>(bs: seq<Bucket<V>>, start: nat, o: nat, k: int)
    requires start < |bs| && o < |bs|
  {
    bs[At(start, o, |bs|)].inUse && bs[At(start, o, |bs|)].k != k
  }

  // The chain from a key's home to its bucket has no gap and no earlier copy of the key.
  ghost predicate Reachable<V>(bs: seq<Bucket<V>>, hash: int -> nat, i: nat)
    requires i < |bs|
  {
    bs[i].inUse ==>
      forall o: nat | o < Offset(Home(hash, bs[i].k, |bs|), i, |bs|) ::
        Passed(bs, Home(hash, bs[i].k, |bs|), o, bs[i].k)
  }

  ghost predicate Chained<V>(bs: seq<Bucket<V>>, hash: int -> nat) {
    forall i: nat | i < |bs| :: Reachable(bs, hash, i)
  }

  ghost predicate Holds<V>(bs: seq<Bucket<V>>, k: int, i: nat) {
    i < |bs| && bs[i].inUse && bs[i].k == k
  }

  // Keys are unique.
  lemma OneBucketPerKey<V>(bs: seq<Bucket<V>>, hash: int -> nat, i: nat, j: nat)
    requires Chained(bs, hash) && i < |bs| && j < |bs| && bs[i].inUse && bs[j].inUse && bs[i].k == bs[j].k
    ensures i == j
  {
    var n, home := |bs|, Home(hash, bs[i].k, |bs|);
    assert Reachable(bs, hash, i) && Reachable(bs, hash, j);
    var a, b := Offset(home, i, n), Offset(home, j, n);
    assert a < b ==> Passed(bs, home, a, bs[j].k);
    assert b < a ==> Passed(bs, home, b, bs[i].k);
  }

  // A probe that has passed o buckets and meets a free one, or has passed all of them, has
  // shown that the key is absent.
  lemma ProbeFails<V>(bs: seq<Bucket<V>>, hash: int -> nat, k: int, o: nat, i: nat)
    requires Chained(bs, hash) && |bs| > 0 && o <= |bs|
    requires forall p: nat | p < o :: Passed(bs, Home(hash, k, |bs|), p, k)
    requires o < |bs| ==> !bs[At(Home(hash, k, |bs|), o, |bs|)].inUse
    ensures !Holds(bs, k, i)
  {
    if i < |bs| {
      var home := Home(hash, k, |bs|);
      var q := Offset(home, i, |bs|);
      assert Reachable(bs, hash, i);
      assert q < o ==> Passed(bs, home, q, k);
      assert Holds(bs, k, i) && o < q ==> Passed(bs, home, o, k);
    }
  }

  // ---------- the map ----------

  ghost predicate Distinct<V>(bs: seq<Bucket<V>>) {
    forall i, j | 0 <= i < |bs| && 0 <= j < |bs| && bs[i].inUse && bs[j].inUse && bs[i].k == bs[j].k :: i == j
  }

  lemma ChainedIsDistinct<V>(bs: seq<Bucket<V>>, hash: int -> nat)
    requires Chained(bs, hash)
    ensures Distinct(bs)
  {
    forall i, j | 0 <= i < |bs| && 0 <= j < |bs| && bs[i].inUse && bs[j].inUse && bs[i].k == bs[j].k
      ensures i == j
    {
      OneBucketPerKey(bs, hash, i, j);
    }
  }

  function Content<V>(b: Bucket<V>): Record<V> {
    Record(b.row, b.v3)
  }

  ghost function View<V>(bs: seq<Bucket<V>>): map<int, Record<V>> {
    if |bs| == 0 then map[]
    else
      var rest := View(bs[..|bs| - 1]);
      if bs[|bs| - 1].inUse then rest[bs[|bs| - 1].k := Content(bs[|bs| - 1])] else rest
  }

  function Count<V>(bs: seq<Bucket<V>>): nat {
    if |bs| == 0 then 0 else (if bs[|bs| - 1].inUse then 1 else 0) + Count(bs[..|bs| - 1])
  }

  lemma {:induction false} ViewKeys<V>(bs: seq<Bucket<V>>, k: int)
    ensures k in View(bs) <==> exists i: nat :: Holds(bs, k, i)
  {
    if |bs| > 0 {
      var front := bs[..|bs| - 1];
      ViewKeys(front, k);
      if i: nat :| Holds(front, k, i) {
        assert Holds(bs, k, i);
      }
      if i: nat :| Holds(bs, k, i) {
        if i < |front| {
          assert Holds(front, k, i);
        }
      }
      if bs[|bs| - 1].inUse && bs[|bs| - 1].k == k {
        assert Holds(bs, k, |bs| - 1);
      }
    }
  }

  lemma {:induction false} ViewAt<V>(bs: seq<Bucket<V>>, i: nat)
    requires Distinct(bs) && i < |bs| && bs[i].inUse
    ensures bs[i].k in View(bs) && View(bs)[bs[i].k] == Content(bs[i])
  {
    var last := |bs| - 1;
    if i < last {
      ViewAt(bs[..last], i);
      assert bs[..last][i] == bs[i];
      assert bs[last].inUse ==> bs[last].k != bs[i].k;
    }
  }

  // Two readings of a map that agree bucket by bucket.
  lemma ViewIs<V>(bs: seq<Bucket<V>>, m: map<int, Record<V>>)
    requires Distinct(bs)
    requires forall i | 0 <= i < |bs| && bs[i].inUse :: bs[i].k in m && m[bs[i].k] == Content(bs[i])
    requires forall k | k in m :: exists i: nat :: Holds(bs, k, i)
    ensures View(bs) == m
  {
    forall k ensures (k in View(bs) <==> k in m) && (k in m ==> View(bs)[k] == m[k]) {
      ViewKeys(bs, k);
      if i: nat :| Holds(bs, k, i) {
        ViewAt(bs, i);
      }
    }
  }

  lemma {:induction false} CountUpdate<V>(bs: seq<Bucket<V>>, i: nat, b: Bucket<V>)
    requires i < |bs|
    ensures Count(bs[i := b]) == Count(bs) - (if bs[i].inUse then 1 else 0) + (if b.inUse then 1 else 0)
  {
    var last := |bs| - 1;
    if i == last {
      assert bs[i := b][..last] == bs[..last];
    } else {
      assert bs[i := b][..last] == bs[..last][i := b];
      CountUpdate(bs[..last], i, b);
    }
  }

  lemma {:induction false} CountBounds<V>(bs: seq<Bucket<V>>)
    ensures Count(bs) <= |bs|
    ensures Count(bs) == |bs| <==> forall i | 0 <= i < |bs| :: bs[i].inUse
    ensures Count(bs) == 0 <==> forall i | 0 <= i < |bs| :: !bs[i].inUse
  {
    if |bs| > 0 {
      CountBounds(bs[..|bs| - 1]);
      forall i | 0 <= i < |bs| - 1 ensures bs[i] == bs[..|bs| - 1][i] {
      }
    }
  }

  lemma {:induction false} CountIsSize<V>(bs: seq<Bucket<V>>)
    requires Distinct(bs)
    ensures |View(bs)| == Count(bs)
  {
    if |bs| > 0 {
      var last := |bs| - 1;
      CountIsSize(bs[..last]);
      if bs[last].inUse {
        ViewKeys(bs[..last], bs[last].k);
        assert forall i: nat :: Holds(bs[..last], bs[last].k, i) ==> Holds(bs, bs[last].k, i);
        assert bs[last].k !in View(bs[..last]);
      }
    }
  }

  // ---------- writing one bucket ----------

  // A new key goes to the first free bucket of its probe.
  lemma InsertFree<V>(bs: seq<Bucket<V>>, hash: int -> nat, o: nat, b: Bucket<V>)
    requires Chained(bs, hash) && o < |bs| && b.inUse
    requires forall p: nat | p < o :: Passed(bs, Home(hash, b.k, |bs|), p, b.k)
    requires !bs[At(Home(hash, b.k, |bs|), o, |bs|)].inUse
    ensures var i := At(Home(hash, b.k, |bs|), o, |bs|);
            Chained(bs[i := b], hash)
  {
    var home := Home(hash, b.k, |bs|);
    var i := At(home, o, |bs|);
    var bs' := bs[i := b];
    OffsetInverts(home, o, |bs|);
    forall j: nat | j < |bs'| ensures Reachable(bs', hash, j) {
      if bs'[j].inUse {
        var hj := Home(hash, bs'[j].k, |bs|);
        if j == i {
          forall p: nat | p < o ensures Passed(bs', home, p, b.k) {
            assert Passed(bs, home, p, b.k);
          }
        } else {
          assert Reachable(bs, hash, j);
          forall p: nat | p < Offset(hj, j, |bs|) ensures Passed(bs', hj, p, bs'[j].k) {
            assert Passed(bs, hj, p, bs[j].k);
          }
        }
      }
    }
  }

  // On a full table the new key replaces whatever is at its home; chains survive.
  lemma Overwrite<V>(bs: seq<Bucket<V>>, hash: int -> nat, b: Bucket<V>)
    requires Chained(bs, hash) && |bs| > 0 && b.inUse
    requires forall p: nat | p < |bs| :: Passed(bs, Home(hash, b.k, |bs|), p, b.k)
    ensures Chained(bs[Home(hash, b.k, |bs|) := b], hash)
  {
    var home := Home(hash, b.k, |bs|);
    var bs' := bs[home := b];
    forall j: nat | j < |bs'| ensures Reachable(bs', hash, j) {
      if bs'[j].inUse && j != home {
        var hj := Home(hash, bs'[j].k, |bs|);
        assert Reachable(bs, hash, j);
        ProbeFails(bs, hash, b.k, |bs|, j);
        forall p: nat | p < Offset(hj, j, |bs|) ensures Passed(bs', hj, p, bs'[j].k) {
          assert Passed(bs, hj, p, bs[j].k);
        }
      }
    }
  }

  // Changing the contents of a bucket in place.
  lemma Rewrite<V>(bs: seq<Bucket<V>>, hash: int -> nat, i: nat, b: Bucket<V>)
    requires Chained(bs, hash) && i < |bs| && bs[i].inUse && b.inUse && b.k == bs[i].k
    ensures Chained(bs[i := b], hash)
    ensures View(bs[i := b]) == View(bs)[b.k := Content(b)]
    ensures Count(bs[i := b]) == Count(bs)
  {
    var bs' := bs[i := b];
    forall j: nat | j < |bs'| ensures Reachable(bs', hash, j) {
      assert Reachable(bs, hash, j);
      if bs'[j].inUse {
        var hj := Home(hash, bs'[j].k, |bs|);
        forall p: nat | p < Offset(hj, j, |bs|) ensures Passed(bs', hj, p, bs'[j].k) {
          assert Passed(bs, hj, p, bs[j].k);
        }
      }
    }
    ReplacedView(bs, hash, i, b);
    CountUpdate(bs, i, b);
  }

  lemma ReplacedView<V>(bs: seq<Bucket<V>>, hash: int -> nat, i: nat, b: Bucket<V>)
    requires Chained(bs, hash) && i < |bs| && b.inUse && Chained(bs[i := b], hash)
    ensures View(bs[i := b]) == (if bs[i].inUse then View(bs) - {bs[i].k} else View(bs))[b.k := Content(b)]
  {
    var bs' := bs[i := b];
    var m := (if bs[i].inUse then View(bs) - {bs[i].k} else View(bs))[b.k := Content(b)];
    ChainedIsDistinct(bs, hash);
    ChainedIsDistinct(bs', hash);
    forall j | 0 <= j < |bs'| && bs'[j].inUse ensures bs'[j].k in m && m[bs'[j].k] == Content(bs'[j]) {
      if j != i {
        ViewAt(bs, j);
        assert bs'[j].k != bs'[i].k;
        assert bs[i].inUse ==> bs[j].k != bs[i].k;
      }
    }
    forall k | k in m ensures exists j: nat :: Holds(bs', k, j) {
      if k == b.k {
        assert Holds(bs', k, i);
      } else {
        ViewKeys(bs, k);
        var j: nat :| Holds(bs, k, j);
        assert Holds(bs', k, j);
      }
    }
    ViewIs(bs', m);
  }

  lemma Absent<V>(bs: seq<Bucket<V>>, hash: int -> nat, k: int, o: nat)
    requires Chained(bs, hash) && |bs| > 0 && o <= |bs|
    requires forall p: nat | p < o :: Passed(bs, Home(hash, k, |bs|), p, k)
    requires o < |bs| ==> !bs[At(Home(hash, k, |bs|), o, |bs|)].inUse
    ensures k !in View(bs)
  {
    ViewKeys(bs, k);
    forall i: nat ensures !Holds(bs, k, i) {
      ProbeFails(bs, hash, k, o, i);
    }
  }

  lemma {:induction false} AllFree<V>(bs: seq<Bucket<V>>, hash: int -> nat)
    requires forall i | 0 <= i < |bs| :: !bs[i].inUse
    ensures Chained(bs, hash) && Count(bs) == 0 && View(bs) == map[]
  {
    if |bs| > 0 {
      AllFree(bs[..|bs| - 1], hash);
    }
  }

  lemma Inserted<V>(bs: seq<Bucket<V>>, hash: int -> nat, o: nat, b: Bucket<V>)
    requires Chained(bs, hash) && o < |bs| && b.inUse
    requires forall p: nat | p < o :: Passed(bs, Home(hash, b.k, |bs|), p, b.k)
    requires !bs[At(Home(hash, b.k, |bs|), o, |bs|)].inUse
    ensures var bs' := bs[At(Home(hash, b.k, |bs|), o, |bs|) := b];
            Chained(bs', hash) && View(bs') == View(bs)[b.k := Content(b)] && Count(bs') == Count(bs) + 1
    ensures b.k !in View(bs) && Count(bs) < |bs|
  {
    var i := At(Home(hash, b.k, |bs|), o, |bs|);
    InsertFree(bs, hash, o, b);
    ReplacedView(bs, hash, i, b);
    CountUpdate(bs, i, b);
    Absent(bs, hash, b.k, o);
    CountBounds(bs);
  }

  lemma Overwritten<V>(bs: seq<Bucket<V>>, hash: int -> nat, b: Bucket<V>)
    requires Chained(bs, hash) && |bs| > 0 && b.inUse
    requires forall p: nat | p < |bs| :: Passed(bs, Home(hash, b.k, |bs|), p, b.k)
    ensures var i := Home(hash, b.k, |bs|);
            && Chained(bs[i := b], hash) && Count(bs[i := b]) == Count(bs) == |bs|
            && bs[i].k in View(bs) && View(bs[i := b]) == (View(bs) - {bs[i].k})[b.k := Content(b)]
    ensures b.k !in View(bs)
  {
    var home := Home(hash, b.k, |bs|);
    assert Passed(bs, home, 0, b.k);
    Overwrite(bs, hash, b);
    ReplacedView(bs, hash, home, b);
    CountUpdate(bs, home, b);
    Absent(bs, hash, b.k, |bs|);
    ChainedIsDistinct(bs, hash);
    ViewAt(bs, home);
    forall i | 0 <= i < |bs| ensures bs[i].inUse {
      assert Passed(bs, home, Offset(home, i, |bs|), b.k);
    }
    CountBounds(bs);
  }

  lemma {:induction false} CountPrefix<V>(bs: seq<Bucket<V>>, i: nat)
    requires i <= |bs|
    ensures Count(bs[..i]) <= Count(bs)
    decreases |bs| - i
  {
    if i < |bs| {
      assert bs[..i + 1][..i] == bs[..i];
      CountPrefix(bs, i + 1);
    } else {
      assert bs[..i] == bs;
    }
  }

  // One more bucket of a scan.
  lemma NextInUse<V>(bs: seq<Bucket<V>>, i: nat)
    requires Distinct(bs) && i < |bs|
    ensures View(bs[..i + 1]) == if bs[i].inUse then View(bs[..i])[bs[i].k := Content(bs[i])] else View(bs[..i])
    ensures bs[i].inUse ==> bs[i].k !in View(bs[..i])
    ensures |View(bs[..i])| <= |View(bs)|
  {
    assert bs[..i + 1][..i] == bs[..i];
    CountIsSize(bs[..i]);
    CountIsSize(bs);
    CountPrefix(bs, i);
    ViewKeys(bs[..i], bs[i].k);
    assert forall j: nat :: Holds(bs[..i], bs[i].k, j) ==> Holds(bs, bs[i].k, j) && j < i;
    assert bs[i].inUse ==> Holds(bs, bs[i].k, i);
  }
}
