/**
 * The first phase: create the table, size it, and put one row per line of the input.
 * Parsing is outside; a line is the key and data that read_data returns.
 */
module Loading {
  import opened Kernels
  import opened Buckets
  import opened Ledger
  import opened StateTable
  import Update

  datatype Line = Line(key: int, data: seq<Edge>)

  // init_v and init_c of the iterate kernel.
  datatype Start<!V> = Start(v: (int, seq<Edge>) -> V, c: (int, seq<Edge>) -> V)

  function EntryOf<V>(K: Kernel<V>, start: Start<V>, l: Line): Entry<V> {
    Entry(l.key, PutRecord(K, start.c(l.key, l.data), start.v(l.key, l.data), l.data))
  }

  ghost function Entries<V>(K: Kernel<V>, start: Start<V>, lines: seq<Line>): (es: seq<Entry<V>>)
    ensures |es| == |lines| && forall i | 0 <= i < |lines| :: es[i] == EntryOf(K, start, lines[i])
  {
    if |lines| == 0 then [] else Entries(K, start, lines[..|lines| - 1]) + [EntryOf(K, start, lines[|lines| - 1])]
  }

  // The table after the first i lines.
  ghost predicate Filled<V>(table: StateTable<V>, es: seq<Entry<V>>, i: nat, size0: nat)
    requires i <= |es|
    reads table, table.buckets
  {
    table.Valid() && LoadedTo(table.K, table.Book(), es, i, size0)
  }

  // One line of the input.
  method PutLine<V>(table: StateTable<V>, start: Start<V>, l: Line, ghost es: seq<Entry<V>>, ghost i: nat,
                    ghost size0: nat)
    requires i < |es| && es[i] == EntryOf(table.K, start, l) && Filled(table, es, i, size0)
    modifies table, table.buckets
    ensures Filled(table, es, i + 1, size0) && (table.buckets == old(table.buckets) || fresh(table.buckets))
  {
    var value := start.v(l.key, l.data);
    var delta := start.c(l.key, l.data);
    table.Put(l.key, delta, value, l.data);
    LoadNext(table.K, old(table.Book()), es, i, size0, table.Book());
  }

  // Starts from an empty table: LoadStart.
  method ReadFile<V>(table: StateTable<V>, start: Start<V>, lines: seq<Line>, threads: nat)
    returns (line: nat, ok: bool)
    requires table.Valid() && LoadedTo(table.K, table.Book(), Entries(table.K, start, lines), 0, table.size)
    modifies table, table.buckets
    ensures table.Valid() && line == |lines| && ok == (threads <= line)
    ensures LoadedTo(table.K, table.Book(), Entries(table.K, start, lines), |lines|, old(table.size))
  {
    ghost var size0, es := table.size, Entries(table.K, start, lines);
    line := 0;
    while line < |lines|
      invariant 0 <= line <= |lines| && Filled(table, es, line, size0)
      invariant table.buckets == old(table.buckets) || fresh(table.buckets)
    {
      PutLine(table, start, lines[line], es, line, size0);
      line := line + 1;
    }
    ok := threads <= line;
  }

  // A table for NODES vertices, filled from the input.
  method InitTable<V>(K: Kernel<V>, hash: int -> nat, nodes: nat, start: Start<V>, lines: seq<Line>, threads: nat)
    returns (table: StateTable<V>, line: nat, ok: bool)
    requires nodes > 0
    ensures fresh(table) && table.Valid() && table.K == K && table.hash == hash
    ensures line == |lines| && ok == (threads <= line)
    ensures DistinctKeys(Entries(K, start, lines)) ==>
              && (table.Contents() == AsMap(Entries(K, start, lines)) <==> |lines| <= nodes)
              && (|lines| > nodes ==> |table.Contents()| == |lines| - 1)
  {
    table := new StateTable<V>(K, hash, 1);
    table.Resize(nodes);
    LoadStart(K, table.Book(), Entries(K, start, lines));
    line, ok := ReadFile(table, start, lines, threads);
    LoadDone(K, table.Book(), Entries(K, start, lines), nodes);
  }

  ghost predicate HasLine(lines: seq<Line>, k: int) {
    exists i :: 0 <= i < |lines| && lines[i].key == k
  }

  // The input numbers the vertices: some line for each of 0, 1, ..., and no other.
  ghost predicate Numbered(lines: seq<Line>) {
    && (forall i, j | 0 <= i < j < |lines| :: lines[i].key != lines[j].key)
    && (forall i | 0 <= i < |lines| :: 0 <= lines[i].key < |lines|)
    && (forall k | 0 <= k < |lines| :: HasLine(lines, k))
  }

  // The line of vertex k gives its adjacency row.
  ghost predicate Describes(lines: seq<Line>, g: Graph) {
    |g| == |lines| && forall i | 0 <= i < |lines| && 0 <= lines[i].key < |g| :: g[lines[i].key] == lines[i].data
  }

  lemma {:induction false} AsMapAt<V>(es: seq<Entry<V>>, i: nat)
    requires DistinctKeys(es) && i < |es|
    ensures es[i].k in AsMap(es) && AsMap(es)[es[i].k] == es[i].rec
  {
    var n := |es| - 1;
    if i < n {
      AsMapAt(es[..n], i);
      assert es[i].k != es[n].k;
    }
  }

  // A numbered input in a table that holds all of it is the state the workers start from.
  lemma LoadedIsInitial<V>(K: Kernel<V>, start: Start<V>, lines: seq<Line>, g: Graph, m: map<int, Record<V>>,
                           s: Update.State<V>, v0: seq<V>, d0: seq<V>)
    requires Numbered(lines) && Describes(lines, g) && Closed(g) && m == AsMap(Entries(K, start, lines))
    requires |v0| == |g| && |d0| == |g| && |s.table| == |g| && |s.lock| == |g|
    requires forall k | 0 <= k < |g| :: v0[k] == start.v(k, g[k]) && d0[k] == start.c(k, g[k]) && s.lock[k].None?
    requires forall t | 0 <= t < |s.threads| :: s.threads[t] == Update.Thread(Update.Idle, [], [], 0)
    requires forall k | 0 <= k < |g| && k in m :: s.table[k] == m[k].row
    ensures Update.Initial(K, g, s, v0, d0)
  {
    var es := Entries(K, start, lines);
    assert DistinctKeys(es);
    forall k | 0 <= k < |g| ensures s.table[k] == PutRow(K, d0[k], v0[k]) {
      assert HasLine(lines, k);
      var i :| 0 <= i < |lines| && lines[i].key == k;
      AsMapAt(es, i);
      assert es[i] == EntryOf(K, start, lines[i]);
    }
  }
}
