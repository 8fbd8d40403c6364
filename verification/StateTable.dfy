/**
 * The state table: a vector of buckets probed linearly from the key's hash, the entry
 * counter, and the operations the engine performs on it.  None stands for a fatal log
 * message, false for an operation that would have been fatal and changed nothing.
 */
module StateTable {
  import opened Options
  import opened Kernels
  import opened Buckets
  import opened Ledger

  // Nothing moved: keys stay in their buckets, so concurrent probes are not disturbed.
  ghost predicate SameLayout<V>(bs: seq<Bucket<V>>, bs': seq<Bucket<V>>) {
    |bs'| == |bs| && forall i | 0 <= i < |bs| :: bs'[i].inUse == bs[i].inUse && bs'[i].k == bs[i].k
  }

  // One record of the map behind the table replaced.
  ghost predicate RowChanged<V>(bs: seq<Bucket<V>>, bs': seq<Bucket<V>>, k: int, rec: Record<V>) {
    SameLayout(bs, bs') && k in View(bs) && View(bs') == View(bs)[k := rec]
  }

  // ---------- the four ways put ends ----------

  ghost predicate Booked<V>(bs: seq<Bucket<V>>, hash: int -> nat, entries: nat) {
    0 < |bs| && Chained(bs, hash) && Count(bs) <= entries <= Count(bs) + 1
  }

  ghost function BookOf<V>(bs: seq<Bucket<V>>, entries: nat): Ledger<V> {
    Ledger(View(bs), |bs|, entries)
  }

  lemma BookedIsOk<V>(bs: seq<Bucket<V>>, hash: int -> nat, entries: nat)
    requires Booked(bs, hash, entries)
    ensures Ok(BookOf(bs, entries)) && Count(bs) == |View(bs)| && Distinct(bs)
  {
    ChainedIsDistinct(bs, hash);
    CountIsSize(bs);
    CountBounds(bs);
  }

  // Where put's probing loop stops: at the key, at the first free bucket, or back at home.
  ghost predicate Stops<V>(bs: seq<Bucket<V>>, hash: int -> nat, k: int, b: nat, found: bool)
    requires b < |bs|
  {
    var home := Home(hash, k, |bs|);
    if found then bs[b].inUse && bs[b].k == k
    else if bs[b].inUse then b == home && forall p: nat | p < |bs| :: Passed(bs, home, p, k)
    else forall p: nat | p < Offset(home, b, |bs|) :: Passed(bs, home, p, k)
  }

  // The bucket written, and what that does to the map.
  ghost predicate PutAt<V>(K: Kernel<V>, bs: seq<Bucket<V>>, bs': seq<Bucket<V>>, hash: int -> nat,
                           entries: nat, entries': nat, k: int, rec: Record<V>)
  {
    && Booked(bs', hash, entries') && |bs'| == |bs|
    && Puts(K, BookOf(bs, entries), k, rec, BookOf(bs', entries'))
    && (!Fits(BookOf(bs, entries), k) && 0 < |bs| ==> View(bs') == (View(bs) - {bs[Home(hash, k, |bs|)].k})[k := rec])
  }

  lemma PutIntoFree<V>(K: Kernel<V>, bs: seq<Bucket<V>>, hash: int -> nat, entries: nat, b: nat, x: Bucket<V>)
    requires Booked(bs, hash, entries) && b < |bs| && x.inUse && !bs[b].inUse && Stops(bs, hash, x.k, b, false)
    ensures PutAt(K, bs, bs[b := x], hash, entries, entries + 1, x.k, Content(x))
  {
    BookedIsOk(bs, hash, entries);
    Inserted(bs, hash, Offset(Home(hash, x.k, |bs|), b, |bs|), x);
  }

  lemma PutOverHome<V>(K: Kernel<V>, bs: seq<Bucket<V>>, hash: int -> nat, entries: nat, b: nat, x: Bucket<V>)
    requires Booked(bs, hash, entries) && entries <= |bs|
    requires b < |bs| && x.inUse && bs[b].inUse && Stops(bs, hash, x.k, b, false)
    ensures PutAt(K, bs, bs[b := x], hash, entries, entries + 1, x.k, Content(x))
  {
    BookedIsOk(bs, hash, entries);
    Overwritten(bs, hash, x);
    assert BookOf(bs[b := x], entries + 1) == Lost(BookOf(bs, entries), x.k, Content(x), bs[b].k);
  }

  lemma PutOverSame<V>(K: Kernel<V>, bs: seq<Bucket<V>>, hash: int -> nat, entries: nat, b: nat, x: Bucket<V>)
    requires Booked(bs, hash, entries) && b < |bs| && x.inUse && Stops(bs, hash, x.k, b, true)
    ensures PutAt(K, bs, bs[b := x], hash, entries, entries, x.k, Content(x))
  {
    BookedIsOk(bs, hash, entries);
    Rewrite(bs, hash, b, x);
    ViewAt(bs, b);
  }

  lemma StoppedAbsent<V>(bs: seq<Bucket<V>>, hash: int -> nat, k: int, b: nat)
    requires Chained(bs, hash) && b < |bs| && Stops(bs, hash, k, b, false)
    ensures k !in View(bs)
  {
    Absent(bs, hash, k, if bs[b].inUse then |bs| else Offset(Home(hash, k, |bs|), b, |bs|));
  }

  lemma PutAfterGrowth<V>(K: Kernel<V>, l: Ledger<V>, k: int, rec: Record<V>, grown: Ledger<V>, after: Ledger<V>)
    requires Ok(l) && k !in l.m && l.entries > l.size
    requires Loaded(K, grown, Recomputed(K, l.m), 1 + 2 * l.size) && grown.entries == |l.m|
    requires Puts(K, grown, k, rec, after)
    ensures Puts(K, l, k, rec, after.(entries := after.entries + 1)) && Fits(l, k)
    ensures after.entries == |after.m|
  {
  }

  class StateTable<V> {
    const K: Kernel<V>
    const hash: int -> nat
    var buckets: array<Bucket<V>>
    var size: nat
    var entries: nat

    ghost predicate Valid()
      reads this, buckets
    {
      size == buckets.Length && Booked(buckets[..], hash, entries)
    }

    ghost function Contents(): map<int, Record<V>>
      reads this, buckets
    {
      View(buckets[..])
    }

    ghost function Book(): (l: Ledger<V>)
      reads this, buckets
      ensures l.m == Contents()
    {
      BookOf(buckets[..], entries)
    }

    lemma SizeOfContents()
      requires Valid() || Blank()
      ensures Count(buckets[..]) == |Contents()| && Distinct(buckets[..])
    {
      if Valid() {
        BookOk();
      }
    }

    lemma BookOk()
      requires Valid()
      ensures Ok(Book()) && Count(buckets[..]) == |Contents()| && Distinct(buckets[..])
    {
      BookedIsOk(buckets[..], hash, entries);
    }

    // The table before its first resize, which has no buckets yet.
    ghost predicate Blank()
      reads this
    {
      size == 0 == buckets.Length && entries == 0
    }

    constructor (K: Kernel<V>, hash: int -> nat, n: nat)
      requires n > 0
      ensures Valid() && this.K == K && this.hash == hash && size == n && entries == 0 && Contents() == map[]
      ensures fresh(buckets)
    {
      this.K, this.hash := K, hash;
      size, entries := 0, 0;
      buckets := new Bucket<V>[0];
      new;
      Clear();
      Resize(n);
    }

    // Also runs on the table without buckets.
    method Clear()
      requires size == buckets.Length
      modifies this, buckets
      ensures buckets == old(buckets) && size == old(size) && entries == 0
      ensures Contents() == map[] && (if size == 0 then Blank() else Valid())
    {
      var i := 0;
      while i < size
        invariant 0 <= i <= size && size == old(size) && buckets == old(buckets)
        invariant forall j | 0 <= j < i :: !buckets[j].inUse
        modifies buckets
      {
        buckets[i] := buckets[i].(inUse := false);
        i := i + 1;
      }
      entries := 0;
      AllFree(buckets[..], hash);
    }

    // The probing loop; a present key is found wherever collisions have pushed it, also on
    // a table without a free bucket.
    method BucketForKey(k: int) returns (b: int)
      requires Valid()
      ensures b == -1 <==> k !in Contents()
      ensures b != -1 ==> 0 <= b < buckets.Length && buckets[b].inUse && buckets[b].k == k
                          && Contents()[k] == Content(buckets[b])
    {
      var start := Home(hash, k, size);
      b := start;
      ghost var o := 0;
      while true
        invariant 0 <= o < size && b == At(start, o, size)
        invariant forall p: nat | p < o :: Passed(buckets[..], start, p, k)
        decreases size - o
      {
        if buckets[b].inUse {
          if buckets[b].k == k {
            ChainedIsDistinct(buckets[..], hash);
            ViewAt(buckets[..], b);
            return;
          }
        } else {
          Absent(buckets[..], hash, k, o);
          b := -1;
          return;
        }
        NextPosition(b, size);
        assert Passed(buckets[..], start, o, k);
        b := (b + 1) % size;
        o := o + 1;
        if b == start {
          break;
        }
      }
      Absent(buckets[..], hash, k, size);
      b := -1;
    }

    method GetF1(k: int) returns (r: Option<V>)
      requires Valid()
      ensures r == if k in Contents() then Some(Contents()[k].row.delta) else None
    {
      var b := BucketForKey(k);
      r := if b == -1 then None else Some(buckets[b].row.delta);
    }

    method GetF2(k: int) returns (r: Option<V>)
      requires Valid()
      ensures r == if k in Contents() then Some(Contents()[k].row.v) else None
    {
      var b := BucketForKey(k);
      r := if b == -1 then None else Some(buckets[b].row.v);
    }

    method GetF3(k: int) returns (r: Option<seq<Edge>>)
      requires Valid()
      ensures r == if k in Contents() then Some(Contents()[k].v3) else None
    {
      var b := BucketForKey(k);
      r := if b == -1 then None else Some(buckets[b].v3);
    }

    method UpdateF1(k: int, x: V) returns (ok: bool)
      requires Valid()
      modifies buckets
      ensures Valid() && ok == (k in old(Contents()))
      ensures !ok ==> buckets[..] == old(buckets[..])
      ensures ok ==> var r := old(Contents())[k];
                     RowChanged(old(buckets[..]), buckets[..], k, r.(row := Row(r.row.v, x, K.lowest)))
    {
      var b := BucketForKey(k);
      ok := b != -1;
      if ok {
        var bucket := buckets[b].(row := buckets[b].row.(delta := x, pri := K.lowest));
        Rewrite(buckets[..], hash, b, bucket);
        buckets[b] := bucket;
        assert buckets[..] == old(buckets[..])[b := bucket];
      }
    }

    method UpdateF2(k: int, x: V) returns (ok: bool)
      requires Valid()
      modifies buckets
      ensures Valid() && ok == (k in old(Contents()))
      ensures !ok ==> buckets[..] == old(buckets[..])
      ensures ok ==> var r := old(Contents())[k];
                     RowChanged(old(buckets[..]), buckets[..], k, r.(row := r.row.(v := x)))
    {
      var b := BucketForKey(k);
      ok := b != -1;
      if ok {
        var bucket := buckets[b].(row := buckets[b].row.(v := x));
        Rewrite(buckets[..], hash, b, bucket);
        buckets[b] := bucket;
        assert buckets[..] == old(buckets[..])[b := bucket];
      }
    }

    method UpdateF3(k: int, x: seq<Edge>) returns (ok: bool)
      requires Valid()
      modifies buckets
      ensures Valid() && ok == (k in old(Contents()))
      ensures !ok ==> buckets[..] == old(buckets[..])
      ensures ok ==> RowChanged(old(buckets[..]), buckets[..], k, old(Contents())[k].(v3 := x))
    {
      var b := BucketForKey(k);
      ok := b != -1;
      if ok {
        var bucket := buckets[b].(v3 := x);
        Rewrite(buckets[..], hash, b, bucket);
        buckets[b] := bucket;
        assert buckets[..] == old(buckets[..])[b := bucket];
      }
    }

    method AccumulateF1(k: int, x: V) returns (ok: bool)
      requires Valid()
      modifies buckets
      ensures Valid() && ok == (k in old(Contents()))
      ensures !ok ==> buckets[..] == old(buckets[..])
      ensures ok ==> var r := old(Contents())[k];
                     var delta := K.accumulate(r.row.delta, x);
                     var row := Row(r.row.v, delta, K.priority(r.row.v, delta));
                     RowChanged(old(buckets[..]), buckets[..], k, r.(row := row))
    {
      var b := BucketForKey(k);
      ok := b != -1;
      if ok {
        var delta := K.accumulate(buckets[b].row.delta, x);
        var pri := K.priority(buckets[b].row.v, delta);
        var bucket := buckets[b].(row := buckets[b].row.(delta := delta, pri := pri));
        Rewrite(buckets[..], hash, b, bucket);
        buckets[b] := bucket;
        assert buckets[..] == old(buckets[..])[b := bucket];
      }
    }

    method AccumulateF2(k: int, x: V) returns (ok: bool)
      requires Valid()
      modifies buckets
      ensures Valid() && ok == (k in old(Contents()))
      ensures !ok ==> buckets[..] == old(buckets[..])
      ensures ok ==> var r := old(Contents())[k];
                     var row := Row(K.accumulate(r.row.v, x), r.row.delta, r.row.pri);
                     RowChanged(old(buckets[..]), buckets[..], k, r.(row := row))
    {
      var b := BucketForKey(k);
      ok := b != -1;
      if ok {
        var v := K.accumulate(buckets[b].row.v, x);
        var bucket := buckets[b].(row := buckets[b].row.(v := v));
        Rewrite(buckets[..], hash, b, bucket);
        buckets[b] := bucket;
        assert buckets[..] == old(buckets[..])[b := bucket];
      }
    }

    // The rehash.  Everything survives a size that is large enough; a smaller one costs
    // exactly one entry, because the table grows again after its first overflow.
    method Resize(n: nat)
      requires (Valid() || Blank()) && n > 0
      modifies this, buckets
      ensures Valid() && (buckets == old(buckets) || fresh(buckets))
      ensures n == old(size) ==> Book() == old(Book()) && buckets == old(buckets)
      ensures n != old(size) ==> Loaded(K, Book(), Recomputed(K, old(Contents())), n) && entries == |old(Contents())|
      ensures Contents().Keys == old(Contents()).Keys <==> |old(Contents())| <= n
      ensures |old(Contents())| > n ==> |Contents()| == |old(Contents())| - 1
      decreases if Count(buckets[..]) <= n then 1 else 3
    {
      if size == n {
        BookOk();
        return;
      }
      SizeOfContents();
      ghost var was := Contents();
      var oldB := buckets[..];
      buckets := new Bucket<V>[n](_ => Bucket(false, 0, Row(K.default, K.default, K.default), []));
      size := n;
      Clear();
      var i := 0;
      while i < |oldB|
        invariant 0 <= i <= |oldB| && Valid() && fresh(buckets)
        invariant Loaded(K, Book(), Recomputed(K, View(oldB[..i])), n) && entries == |View(oldB[..i])|
      {
        NextInUse(oldB, i);
        if oldB[i].inUse {
          RecomputedAdd(K, View(oldB[..i]), oldB[i].k, Content(oldB[i]));
          Added(View(oldB[..i]), oldB[i].k, Content(oldB[i]));
          ghost var rec := Recompute(K, Content(oldB[i]));
          ghost var before := Book();
          Put(oldB[i].k, oldB[i].row.delta, oldB[i].row.v, oldB[i].v3);
          LoadStep(K, before, Recomputed(K, View(oldB[..i])), n, oldB[i].k, rec, Book());
        }
        i := i + 1;
      }
      assert oldB[..i] == oldB;
    }

    // The probing loop of put.
    method FindSlot(k: int) returns (b: nat, found: bool)
      requires Valid()
      ensures b < buckets.Length && Stops(buckets[..], hash, k, b, found)
    {
      var start := Home(hash, k, size);
      b := start;
      found := false;
      ghost var o := 0;
      while true
        invariant 0 <= o < size && b == At(start, o, size) && !found
        invariant forall p: nat | p < o :: Passed(buckets[..], start, p, k)
        decreases size - o
      {
        if !buckets[b].inUse {
          OffsetInverts(start, o, size);
          break;
        }
        if buckets[b].k == k {
          found := true;
          break;
        }
        NextPosition(b, size);
        assert Passed(buckets[..], start, o, k);
        b := (b + 1) % size;
        o := o + 1;
        if b == start {
          break;
        }
      }
    }

    method Put(k: int, v1: V, v2: V, v3: seq<Edge>)
      requires Valid()
      modifies this, buckets
      ensures Valid() && (buckets == old(buckets) || fresh(buckets))
      ensures Puts(K, old(Book()), k, PutRecord(K, v1, v2, v3), Book())
      ensures size == if k !in old(Contents()) && old(entries) > old(size) then 1 + 2 * old(size) else old(size)
      ensures entries == if k in old(Contents()) then old(entries) else old(entries) + 1
      ensures k in Contents() && Contents()[k] == Record(Row(v2, v1, K.priority(v2, v1)), v3)
      ensures !Fits(old(Book()), k) ==>
                var victim := old(buckets[..])[Home(hash, k, old(size))].k;
                Contents() == (old(Contents()) - {victim})[k := PutRecord(K, v1, v2, v3)]
      decreases if entries > size then 2 else 0
    {
      ghost var bs, was := buckets[..], entries;
      var b, found := FindSlot(k);
      var bucket := Bucket(true, k, PutRow(K, v1, v2), v3);
      if !found {
        if entries > size {
          Grow(k, v1, v2, v3, b);
          return;
        } else {
          if buckets[b].inUse {
            PutOverHome(K, bs, hash, entries, b, bucket);
          } else {
            PutIntoFree(K, bs, hash, entries, b, bucket);
          }
          buckets[b] := bucket;
          entries := entries + 1;
        }
      } else {
        PutOverSame(K, bs, hash, entries, b, bucket);
        buckets[b] := bucket;
      }
      assert buckets[..] == bs[b := bucket];
      assert PutAt(K, bs, buckets[..], hash, was, entries, k, Content(bucket));
    }

    // The growing branch of put.
    method Grow(k: int, v1: V, v2: V, v3: seq<Edge>, ghost b: nat)
      requires Valid() && entries > size && b < size && Stops(buckets[..], hash, k, b, false)
      modifies this, buckets
      ensures Valid() && fresh(buckets)
      ensures Puts(K, old(Book()), k, PutRecord(K, v1, v2, v3), Book())
      ensures size == 1 + 2 * old(size) && entries == old(entries) + 1
      ensures Contents().Keys == old(Contents()).Keys + {k}
      decreases 2, 0
    {
      BookOk();
      StoppedAbsent(buckets[..], hash, k, b);
      Resize(1 + size * 2);
      ghost var grown := Book();
      Put(k, v1, v2, v3);
      PutAfterGrowth(K, old(Book()), k, PutRecord(K, v1, v2, v3), grown, Book());
      BookOk();
      entries := entries + 1;
    }
  }
}
