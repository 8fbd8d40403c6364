/**
 * What put does to the table as a map, including the branches outside its intended regime:
 * the full table that overwrites a bucket, and the growth that counts its entry twice.
 */
module Ledger {
  import opened Kernels
  import opened Buckets

  // The map, the number of buckets, and the counter entries_.
  datatype Ledger<V> = Ledger(m: map<int, Record<V>>, size: nat, entries: nat)

  // The counter is exact, or ahead by the one overwritten entry.
  ghost predicate Ok<V>(l: Ledger<V>) {
    0 < l.size && |l.m| <= l.size && |l.m| <= l.entries <= |l.m| + 1
  }

  function PutRecord<V>(K: Kernel<V>, v1: V, v2: V, v3: seq<Edge>): Record<V> {
    Record(PutRow(K, v1, v2), v3)
  }

  // The same v1, v2, v3 put again.
  function Recompute<V>(K: Kernel<V>, r: Record<V>): Record<V> {
    PutRecord(K, r.row.delta, r.row.v, r.v3)
  }

  function Recomputed<V>(K: Kernel<V>, m: map<int, Record<V>>): (m': map<int, Record<V>>)
    ensures m'.Keys == m.Keys && |m'| == |m|
  {
    var m' := map k | k in m :: Recompute(K, m[k]);
    assert m'.Keys == m.Keys;
    m'
  }

  // Every cached priority is the one recomputed from v2 and v1.
  ghost predicate Current<V>(K: Kernel<V>, m: map<int, Record<V>>) {
    forall k | k in m :: m[k] == Recompute(K, m[k])
  }

  // The key is present, or there is a free bucket, or the counter already runs ahead.
  ghost predicate Fits<V>(l: Ledger<V>, k: int) {
    k in l.m || |l.m| < l.size || l.entries > l.size
  }

  ghost predicate Grows<V>(l: Ledger<V>, k: int) {
    k !in l.m && l.entries > l.size
  }

  ghost function Kept<V>(K: Kernel<V>, l: Ledger<V>, k: int, rec: Record<V>): Ledger<V> {
    if k in l.m then l.(m := l.m[k := rec])
    else if Grows(l, k) then Ledger(Recomputed(K, l.m)[k := rec], 1 + 2 * l.size, l.entries + 1)
    else l.(m := l.m[k := rec], entries := l.entries + 1)
  }

  ghost function Lost<V>(l: Ledger<V>, k: int, rec: Record<V>, victim: int): Ledger<V> {
    l.(m := (l.m - {victim})[k := rec], entries := l.entries + 1)
  }

  ghost predicate Puts<V>(K: Kernel<V>, l: Ledger<V>, k: int, rec: Record<V>, l': Ledger<V>) {
    if Fits(l, k) then l' == Kept(K, l, k, rec)
    else exists victim :: victim in l.m && l' == Lost(l, k, rec, victim)
  }

  /**
   * The table after putting the records of goal, some keys perhaps several times, into an
   * empty table of size0 buckets.
   */
  ghost predicate Loaded<V>(K: Kernel<V>, l: Ledger<V>, goal: map<int, Record<V>>, size0: nat) {
    && Ok(l) && Current(K, goal)
    && (forall k | k in l.m :: k in goal && l.m[k] == goal[k])
    && |goal| <= |l.m| + 1
    && (l.entries == |l.m| ==> l.m == goal && l.size == size0)
    && (|goal| <= size0 ==> l.entries == |l.m|)
  }

  lemma Added<V>(m: map<int, Record<V>>, k: int, rec: Record<V>)
    ensures |m[k := rec]| == if k in m then |m| else |m| + 1
  {
  }

  lemma CurrentIsFixed<V>(K: Kernel<V>, m: map<int, Record<V>>)
    requires Current(K, m)
    ensures Recomputed(K, m) == m
  {
    assert forall k | k in m :: Recomputed(K, m)[k] == m[k];
  }

  lemma RecomputedAdd<V>(K: Kernel<V>, m: map<int, Record<V>>, k: int, r: Record<V>)
    ensures Recomputed(K, m[k := r]) == Recomputed(K, m)[k := Recompute(K, r)]
  {
  }

  // put keeps the counter within one of the truth; at most the first overflow is lossy,
  // because from then on a full table grows.
  lemma PutKeepsOk<V>(K: Kernel<V>, l: Ledger<V>, k: int, rec: Record<V>, l': Ledger<V>)
    requires Ok(l) && Puts(K, l, k, rec, l')
    ensures Ok(l') && k in l'.m && l'.m[k] == rec
    ensures !Fits(l, k) ==> l'.entries == |l'.m| + 1 && |l'.m| == |l.m|
    ensures l.entries == |l.m| + 1 ==> l'.entries == |l'.m| + 1 && Fits(l, k)
  {
  }

  /**
   * put, case by case.  The record stored, with its priority computed; which other keys stay,
   * with what they held before; the counter; and the growth to 1 + 2 * size buckets.
   */
  lemma PutOutcome<V>(K: Kernel<V>, l: Ledger<V>, k: int, v1: V, v2: V, v3: seq<Edge>, l': Ledger<V>)
    requires Ok(l) && Puts(K, l, k, PutRecord(K, v1, v2, v3), l')
    ensures k in l'.m && l'.m[k] == Record(Row(v2, v1, K.priority(v2, v1)), v3)
    ensures forall j | j in l'.m && j != k ::
              && j in l.m && l'.m[j].v3 == l.m[j].v3
              && l'.m[j].row.v == l.m[j].row.v && l'.m[j].row.delta == l.m[j].row.delta
              && (l'.m[j].row.pri == l.m[j].row.pri
                  || l'.m[j].row.pri == K.priority(l.m[j].row.v, l.m[j].row.delta))
    ensures l'.size == if k !in l.m && l.entries > l.size then 1 + 2 * l.size else l.size
    ensures l'.entries == if k in l.m then l.entries else l.entries + 1
    ensures k in l.m || |l.m| < l.size || l.entries > l.size ==> forall j | j in l.m :: j in l'.m
    ensures k !in l.m && |l.m| == l.size >= l.entries ==>
              exists victim :: victim in l.m && l'.m.Keys == l.m.Keys - {victim} + {k}
  {
    if !Fits(l, k) {
      var victim :| victim in l.m && l' == Lost(l, k, PutRecord(K, v1, v2, v3), victim);
      assert l'.m.Keys == l.m.Keys - {victim} + {k};
    }
  }

  // put is the map update exactly when the key fits; otherwise one entry is gone.
  lemma PutRefinesUpdate<V>(K: Kernel<V>, l: Ledger<V>, k: int, rec: Record<V>, l': Ledger<V>)
    requires Ok(l) && Current(K, l.m) && Puts(K, l, k, rec, l')
    ensures l'.m == l.m[k := rec] <==> Fits(l, k)
    ensures Fits(l, k) <==> k in l.m || |l.m| < l.size || l.entries == |l.m| + 1
  {
    CurrentIsFixed(K, l.m);
    if !Fits(l, k) {
      var victim :| victim in l.m && l' == Lost(l, k, rec, victim);
      assert victim in l.m[k := rec] && victim !in l'.m;
    }
  }

  lemma LoadStep<V>(K: Kernel<V>, l: Ledger<V>, goal: map<int, Record<V>>, size0: nat,
                    k: int, rec: Record<V>, l': Ledger<V>)
    requires Loaded(K, l, goal, size0) && rec == Recompute(K, rec) && Puts(K, l, k, rec, l')
    ensures Loaded(K, l', goal[k := rec], size0)
    ensures l.entries == |goal| && k !in goal ==> l'.entries == |goal[k := rec]|
  {
    PutKeepsOk(K, l, k, rec, l');
    Added(goal, k, rec);
    Added(l.m, k, rec);
    CurrentIsFixed(K, l.m);
    if l.entries == |l.m| {
      if Fits(l, k) {
        assert l'.m == goal[k := rec];
      } else {
        assert |goal[k := rec]| == l.size + 1;
      }
    } else {
      Added(l.m, k, rec);
    }
  }

  // ---------- a whole file of puts ----------

  datatype Entry<V> = Entry(k: int, rec: Record<V>)

  // The last record of each key.
  function AsMap<V>(es: seq<Entry<V>>): map<int, Record<V>> {
    if |es| == 0 then map[] else AsMap(es[..|es| - 1])[es[|es| - 1].k := es[|es| - 1].rec]
  }

  ghost predicate DistinctKeys<V>(es: seq<Entry<V>>) {
    forall i, j | 0 <= i < j < |es| :: es[i].k != es[j].k
  }

  ghost predicate IsLoad<V>(K: Kernel<V>, ls: seq<Ledger<V>>, es: seq<Entry<V>>) {
    && |ls| == |es| + 1 && IsEmpty(ls[0])
    && forall i | 0 <= i < |es| :: es[i].rec == Recompute(K, es[i].rec) && Puts(K, ls[i], es[i].k, es[i].rec, ls[i + 1])
  }

  lemma {:induction false} AsMapKeys<V>(es: seq<Entry<V>>, k: int)
    ensures k in AsMap(es) <==> exists i :: 0 <= i < |es| && es[i].k == k
  {
    if |es| > 0 {
      AsMapKeys(es[..|es| - 1], k);
      if i :| 0 <= i < |es| && es[i].k == k && i < |es| - 1 {
        assert es[..|es| - 1][i].k == k;
      }
    }
  }

  // The table after the first i entries.
  ghost predicate LoadedTo<V>(K: Kernel<V>, l: Ledger<V>, es: seq<Entry<V>>, i: nat, size0: nat)
    requires i <= |es|
  {
    match l
    case Ledger(_, _, entries) =>
      && Loaded(K, l, AsMap(es[..i]), size0)
      && (DistinctKeys(es) ==> entries == |AsMap(es[..i])| == i)
  }

  lemma LoadNext<V>(K: Kernel<V>, l: Ledger<V>, es: seq<Entry<V>>, i: nat, size0: nat, l': Ledger<V>)
    requires i < |es| && LoadedTo(K, l, es, i, size0)
    requires es[i].rec == Recompute(K, es[i].rec) && Puts(K, l, es[i].k, es[i].rec, l')
    ensures LoadedTo(K, l', es, i + 1, size0)
  {
    var goal := AsMap(es[..i]);
    assert es[..i + 1][..i] == es[..i];
    assert AsMap(es[..i + 1]) == goal[es[i].k := es[i].rec];
    AsMapKeys(es[..i], es[i].k);
    LoadStep(K, l, goal, size0, es[i].k, es[i].rec, l');
    Added(goal, es[i].k, es[i].rec);
  }

  ghost predicate IsEmpty<V>(l: Ledger<V>) {
    match l
    case Ledger(m, size, entries) => m == map[] && entries == 0 && size > 0
  }

  lemma LoadStart<V>(K: Kernel<V>, l: Ledger<V>, es: seq<Entry<V>>)
    requires IsEmpty(l)
    ensures LoadedTo(K, l, es, 0, l.size)
  {
  }

  lemma {:induction false} LoadAlways<V>(K: Kernel<V>, ls: seq<Ledger<V>>, es: seq<Entry<V>>, i: nat)
    requires IsLoad(K, ls, es) && i <= |es|
    ensures LoadedTo(K, ls[i], es, i, ls[0].size)
  {
    if i == 0 {
      LoadStart(K, ls[0], es);
    } else {
      LoadAlways(K, ls, es, i - 1);
      LoadNext(K, ls[i - 1], es, i - 1, ls[0].size, ls[i - 1 + 1]);
    }
  }

  lemma LoadDone<V>(K: Kernel<V>, l: Ledger<V>, es: seq<Entry<V>>, size0: nat)
    requires LoadedTo(K, l, es, |es|, size0)
    ensures Loaded(K, l, AsMap(es), size0)
    ensures DistinctKeys(es) ==>
              (l.m == AsMap(es) <==> |es| <= size0) && (|es| > size0 ==> |l.m| == |es| - 1)
  {
    assert es[..|es|] == es;
  }

  // Whatever is put into an empty table, at most one key is ever missing and no record is
  // wrong; distinct keys all arrive if and only if there are no more of them than buckets.
  lemma LoadOutcome<V>(K: Kernel<V>, ls: seq<Ledger<V>>, es: seq<Entry<V>>)
    requires IsLoad(K, ls, es)
    ensures var l := ls[|es|];
            && (forall k | k in l.m :: k in AsMap(es) && l.m[k] == AsMap(es)[k])
            && |AsMap(es)| - 1 <= |l.m| <= |AsMap(es)|
            && (|AsMap(es)| <= ls[0].size ==> l.m == AsMap(es))
            && (DistinctKeys(es) ==> (l.m == AsMap(es) <==> |es| <= ls[0].size))
  {
    LoadAlways(K, ls, es, |es|);
    LoadDone(K, ls[|es|], es, ls[0].size);
    var l := ls[|es|];
    SubmapSize(l.m, AsMap(es));
  }

  lemma SubmapSize<V>(m: map<int, Record<V>>, goal: map<int, Record<V>>)
    requires forall k | k in m :: k in goal
    ensures |m| <= |goal|
  {
    forall k | k in m.Keys ensures k in goal.Keys {
      assert k in m;
    }
    assert m.Keys + (goal.Keys - m.Keys) == goal.Keys;
  }
}
