/**
 * How an iterator splits its positions among the worker threads.
 */
module Intervals {
  datatype Interval = Interval(thread: int, first: int, last: int)

  // The interval of thread t out of n over total positions.
  function IntervalFor(total: nat, n: nat, t: nat): (int, int)
    requires t < n
  {
    (total / n * t, if t == n - 1 then total - 1 else total / n * (t + 1) - 1)
  }

  ghost predicate Inside(total: nat, n: nat, t: nat, pos: int)
    requires t < n
  {
    IntervalFor(total, n, t).0 <= pos <= IntervalFor(total, n, t).1
  }

  // The thread a position belongs to.
  function Owner(total: nat, n: nat, pos: nat): (t: nat)
    requires pos < total && n > 0
    ensures t < n
  {
    var q := total / n;
    if q == 0 || pos / q >= n then n - 1 else pos / q
  }

  lemma QuotientBounds(total: nat, n: nat)
    requires n > 0
    ensures total / n * n <= total
    ensures total / n == 0 <==> total < n
  {
  }

  lemma ScaleMonotone(q: nat, a: nat, b: nat)
    requires a <= b
    ensures q * a <= q * b && q * (a + 1) == q * a + q
  {
  }

  lemma DivisionFits(pos: nat, q: nat, t: nat)
    requires q > 0
    ensures q * t <= pos < q * (t + 1) <==> t == pos / q
  {
    var d := pos / q;
    assert pos == q * d + pos % q;
    if t < d {
      ScaleMonotone(q, t + 1, d);
    } else if d < t {
      ScaleMonotone(q, d + 1, t);
    }
  }

  // The first position of a block and the block a position is in, related.
  lemma BlockStart(pos: nat, q: nat, t: nat)
    requires q > 0
    ensures q * t <= pos <==> t <= pos / q
  {
    var d := pos / q;
    DivisionFits(pos, q, d);
    if t <= d {
      ScaleMonotone(q, t, d);
    } else {
      ScaleMonotone(q, d + 1, t);
    }
  }

  // Disjoint and complete: every position lies in the interval of its owner and no other.
  lemma Partition(total: nat, n: nat, t: nat, pos: nat)
    requires t < n && pos < total
    ensures Inside(total, n, t, pos) <==> t == Owner(total, n, pos)
  {
    var q := total / n;
    if q > 0 {
      BlockStart(pos, q, t);
      BlockStart(pos, q, t + 1);
    }
  }

  // No interval reaches outside the positions.
  lemma IntervalInRange(total: nat, n: nat, t: nat)
    requires t < n
    ensures 0 <= IntervalFor(total, n, t).0 && IntervalFor(total, n, t).1 < total
  {
    QuotientBounds(total, n);
    ScaleMonotone(total / n, 0, t);
    ScaleMonotone(total / n, t + 1, n);
  }

  // An interval end of -1 is reported as a missing thread; that happens to somebody
  // exactly when there are fewer positions than threads.
  lemma EndLooksMissing(total: nat, n: nat)
    requires n > 0
    ensures (exists t: nat :: t < n && IntervalFor(total, n, t).1 == -1) <==> total < n
    ensures forall t: nat | t < n :: IntervalFor(total, n, t).0 != -1
  {
    QuotientBounds(total, n);
    var q := total / n;
    forall t: nat | t < n ensures IntervalFor(total, n, t).0 >= 0 {
      ScaleMonotone(q, 0, t);
    }
    if total < n {
      assert IntervalFor(total, n, 0).1 == -1;
    } else {
      forall t: nat | t < n ensures IntervalFor(total, n, t).1 != -1 {
        ScaleMonotone(q, 0, t);
      }
    }
  }

  ghost predicate DistinctThreads(s: seq<Interval>) {
    forall i, j | 0 <= i < j < |s| :: s[i].thread != s[j].thread
  }

  ghost predicate SplitOf(s: seq<Interval>, total: nat) {
    forall t | 0 <= t < |s| :: (s[t].first, s[t].last) == IntervalFor(total, |s|, t)
  }

  /**
   * Thread by thread, from the first position to the last: all but the last interval hold
   * total / n positions each, and each begins where the one before it ends.
   */
  lemma SplitEvenly(s: seq<Interval>, total: nat, t: nat)
    requires SplitOf(s, total) && t < |s|
    ensures s[0].first == 0 && s[|s| - 1].last == total - 1
    ensures t < |s| - 1 ==> s[t].last - s[t].first + 1 == total / |s| && s[t + 1].first == s[t].last + 1
  {
    var q := total / |s|;
    assert (s[0].first, s[0].last) == IntervalFor(total, |s|, 0);
    assert (s[|s| - 1].first, s[|s| - 1].last) == IntervalFor(total, |s|, |s| - 1);
    assert (s[t].first, s[t].last) == IntervalFor(total, |s|, t);
    if t < |s| - 1 {
      assert (s[t + 1].first, s[t + 1].last) == IntervalFor(total, |s|, t + 1);
      ScaleMonotone(q, t, t + 1);
    }
  }

  // What is left for the last thread: its share and the remainder.
  lemma LastTakesRest(s: seq<Interval>, total: nat)
    requires SplitOf(s, total) && |s| > 0
    ensures s[|s| - 1].last - s[|s| - 1].first + 1 == total / |s| + total % |s|
  {
    var n := |s|;
    assert (s[n - 1].first, s[n - 1].last) == IntervalFor(total, n, n - 1);
    ScaleMonotone(total / n, n - 1, n - 1);
    assert total == total / n * n + total % n;
  }

  // The constructor loops of Iterator and ScheduledIterator over the vector thread_interval.
  method Split(intervals: array<Interval>, total: nat)
    requires intervals.Length > 0
    modifies intervals
    ensures SplitOf(intervals[..], total)
    ensures forall t | 0 <= t < intervals.Length :: intervals[t].thread == old(intervals[t].thread)
  {
    var normal := total / intervals.Length;
    var len := intervals.Length;
    var i := 0;
    while i < len - 1
      invariant 0 <= i <= len - 1
      invariant forall t | 0 <= t < len :: intervals[t].thread == old(intervals[t].thread)
      invariant forall t | 0 <= t < i :: (intervals[t].first, intervals[t].last) == IntervalFor(total, len, t)
    {
      intervals[i] := intervals[i].(first := normal * i, last := normal * (i + 1) - 1);
      i := i + 1;
    }
    intervals[i] := intervals[i].(first := normal * i, last := total - 1);
  }

  // thread_begin and thread_end.
  method ThreadBegin(intervals: array<Interval>, thread: int) returns (r: int)
    ensures (exists t :: 0 <= t < intervals.Length && intervals[t].thread == thread) ==>
              exists t :: 0 <= t < intervals.Length && intervals[t].thread == thread && r == intervals[t].first
    ensures !(exists t :: 0 <= t < intervals.Length && intervals[t].thread == thread) ==> r == -1
  {
    var i := 0;
    while i < intervals.Length
      invariant 0 <= i <= intervals.Length
      invariant forall t | 0 <= t < i :: intervals[t].thread != thread
    {
      if intervals[i].thread == thread {
        return intervals[i].first;
      }
      i := i + 1;
    }
    r := -1;
  }

  method ThreadEnd(intervals: array<Interval>, thread: int) returns (r: int)
    ensures (exists t :: 0 <= t < intervals.Length && intervals[t].thread == thread) ==>
              exists t :: 0 <= t < intervals.Length && intervals[t].thread == thread && r == intervals[t].last
    ensures !(exists t :: 0 <= t < intervals.Length && intervals[t].thread == thread) ==> r == -1
  {
    var i := 0;
    while i < intervals.Length
      invariant 0 <= i <= intervals.Length
      invariant forall t | 0 <= t < i :: intervals[t].thread != thread
    {
      if intervals[i].thread == thread {
        return intervals[i].last;
      }
      i := i + 1;
    }
    r := -1;
  }
}
