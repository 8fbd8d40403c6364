/**
 * Which vertices a round runs: the position loop of the workers over the two iterators.
 */
module Iterators {
  import opened Options
  import opened Buckets
  import opened Intervals
  import System

  datatype Iter = FullPass | Scheduled(pos: seq<nat>)

  // How many positions an iterator splits among the threads.
  function Extent<V>(it: Iter, bs: seq<Bucket<V>>): nat {
    if it.FullPass? then |bs| else |it.pos|
  }

  ghost predicate Increasing(pos: seq<nat>) {
    forall p, q | 0 <= p < q < |pos| :: pos[p] < pos[q]
  }

  // scheduled_pos lists in-use positions in order.
  ghost predicate Usable<V>(it: Iter, bs: seq<Bucket<V>>) {
    it.Scheduled? ==>
      Increasing(it.pos) && forall p | 0 <= p < |it.pos| :: it.pos[p] < |bs| && bs[it.pos[p]].inUse
  }

  lemma {:induction false} IncreasingGrows(pos: seq<nat>, p: nat)
    requires Increasing(pos) && p < |pos|
    ensures p <= pos[p]
  {
    if p > 0 {
      IncreasingGrows(pos, p - 1);
    }
  }

  lemma ExtentFits<V>(it: Iter, bs: seq<Bucket<V>>)
    requires Usable(it, bs)
    ensures Extent(it, bs) <= |bs|
  {
    if it.Scheduled? && |it.pos| > 0 {
      IncreasingGrows(it.pos, |it.pos| - 1);
    }
  }

  // Both iterators answer is_in_use(p) from bucket p, also the one whose p-th key is
  // elsewhere.
  function KeyAt<V>(it: Iter, bs: seq<Bucket<V>>, p: nat): int
    requires p < Extent(it, bs) && (it.Scheduled? ==> it.pos[p] < |bs|)
  {
    if it.FullPass? then bs[p].k else bs[it.pos[p]].k
  }

  ghost predicate RunsAt<V>(it: Iter, bs: seq<Bucket<V>>, p: nat, k: int) {
    && p < Extent(it, bs) && p < |bs| && (it.Scheduled? ==> it.pos[p] < |bs|)
    && bs[p].inUse && KeyAt(it, bs, p) == k
  }

  // The keys that the positions lo, ..., hi - 1 run.
  ghost function WorkOf<V>(it: Iter, bs: seq<Bucket<V>>, lo: int, hi: int): seq<int>
    requires Usable(it, bs) && 0 <= lo && hi <= Extent(it, bs)
    decreases hi - lo
  {
    if hi <= lo then []
    else
      ExtentFits(it, bs);
      WorkOf(it, bs, lo, hi - 1) + if bs[hi - 1].inUse then [KeyAt(it, bs, hi - 1)] else []
  }

  // What a worker does between the broadcast and the barrier; None is the fatal branch.
  method WorkerRound<V>(it: Iter, buckets: array<Bucket<V>>, intervals: array<Interval>, ghost t: nat, thread: int)
    returns (work: Option<seq<int>>)
    requires t < intervals.Length && DistinctThreads(intervals[..]) && intervals[t].thread == thread
    requires Usable(it, buckets[..]) && SplitOf(intervals[..], Extent(it, buckets[..]))
    ensures work.None? <==> intervals[t].last == -1
    ensures work.Some? ==> 0 <= intervals[t].first && intervals[t].last < Extent(it, buckets[..])
                           && work.value == WorkOf(it, buckets[..], intervals[t].first, intervals[t].last + 1)
  {
    ghost var bs := buckets[..];
    ghost var total, n := Extent(it, bs), intervals.Length;
    ExtentFits(it, bs);
    EndLooksMissing(total, n);
    IntervalInRange(total, n, t);
    assert intervals[..][t] == intervals[t];
    assert forall i | 0 <= i < n && intervals[i].thread == thread :: i == t by {
      assert forall i | 0 <= i < n :: intervals[..][i] == intervals[i];
    }
    var begin := ThreadBegin(intervals, thread);
    var end := ThreadEnd(intervals, thread);
    if begin == -1 || end == -1 {
      return None;
    }
    var ran := [];
    var pos := begin;
    while pos <= end
      invariant begin <= pos && (pos <= end + 1 || pos == begin)
      invariant ran == WorkOf(it, bs, begin, if pos <= end + 1 then pos else end + 1)
    {
      if buckets[pos].inUse {
        ran := ran + [if it.FullPass? then buckets[pos].k else buckets[it.pos[pos]].k];
      }
      pos := pos + 1;
    }
    work := Some(ran);
  }

  // ---------- a whole round ----------

  // What each worker's interval makes it run.
  ghost function Works<V>(it: Iter, bs: seq<Bucket<V>>, n: nat): (works: seq<seq<int>>)
    requires Usable(it, bs)
    ensures |works| == n
  {
    seq(n, t requires 0 <= t < n =>
      IntervalInRange(Extent(it, bs), n, t);
      WorkOf(it, bs, IntervalFor(Extent(it, bs), n, t).0, IntervalFor(Extent(it, bs), n, t).1 + 1))
  }

  // A worker whose interval ends in -1 takes the fatal branch and ends the program.
  ghost predicate Fatal<V>(it: Iter, bs: seq<Bucket<V>>, n: nat) {
    exists t: nat :: t < n && IntervalFor(Extent(it, bs), n, t).1 == -1
  }

  // The outcome of a round of n workers: what they run, or None for the end of the program.
  ghost function Round<V>(it: Iter, bs: seq<Bucket<V>>, n: nat): (works: Option<seq<seq<int>>>)
    requires Usable(it, bs)
    ensures works.Some? ==> |works.value| == n
  {
    if Fatal(it, bs, n) then None else Some(Works(it, bs, n))
  }

  lemma {:induction false} WorkHas<V>(it: Iter, bs: seq<Bucket<V>>, lo: int, hi: int, k: int)
    requires Usable(it, bs) && 0 <= lo && hi <= Extent(it, bs)
    ensures k in WorkOf(it, bs, lo, hi) <==> exists p: nat :: lo <= p < hi && RunsAt(it, bs, p, k)
    decreases hi - lo
  {
    if lo < hi {
      ExtentFits(it, bs);
      WorkHas(it, bs, lo, hi - 1, k);
      assert bs[hi - 1].inUse && KeyAt(it, bs, hi - 1) == k <==> RunsAt(it, bs, hi - 1, k);
    }
  }

  // A worker runs its positions from first to last.
  lemma {:induction false} WorkInOrder<V>(it: Iter, bs: seq<Bucket<V>>, lo: int, hi: int, i: nat, j: nat)
    returns (p: nat, q: nat)
    requires Usable(it, bs) && 0 <= lo && hi <= Extent(it, bs) && i < j < |WorkOf(it, bs, lo, hi)|
    ensures lo <= p < q < hi
    ensures RunsAt(it, bs, p, WorkOf(it, bs, lo, hi)[i]) && RunsAt(it, bs, q, WorkOf(it, bs, lo, hi)[j])
    decreases hi - lo
  {
    ExtentFits(it, bs);
    var front := WorkOf(it, bs, lo, hi - 1);
    if j < |front| {
      p, q := WorkInOrder(it, bs, lo, hi - 1, i, j);
    } else {
      WorkHas(it, bs, lo, hi - 1, front[i]);
      assert front[i] in front;
      p :| lo <= p < hi - 1 && RunsAt(it, bs, p, front[i]);
      q := hi - 1;
    }
  }

  // No key sits behind two positions.
  lemma OnePosition<V>(it: Iter, bs: seq<Bucket<V>>, p: nat, q: nat, k: int)
    requires Usable(it, bs) && Distinct(bs)
    ensures RunsAt(it, bs, p, k) && RunsAt(it, bs, q, k) ==> p == q
  {
  }

  lemma LastIsNew<V>(it: Iter, bs: seq<Bucket<V>>, lo: int, hi: int)
    requires Usable(it, bs) && Distinct(bs) && 0 <= lo < hi <= Extent(it, bs) <= |bs| && bs[hi - 1].inUse
    ensures KeyAt(it, bs, hi - 1) !in WorkOf(it, bs, lo, hi - 1)
  {
    var k := KeyAt(it, bs, hi - 1);
    WorkHas(it, bs, lo, hi - 1, k);
    forall p: nat ensures RunsAt(it, bs, p, k) ==> p == hi - 1 {
      OnePosition(it, bs, p, hi - 1, k);
    }
  }

  lemma {:induction false} WorkHasNoRepeats<V>(it: Iter, bs: seq<Bucket<V>>, lo: int, hi: int, i: nat, j: nat)
    requires Usable(it, bs) && Distinct(bs) && 0 <= lo && hi <= Extent(it, bs)
    requires i < |WorkOf(it, bs, lo, hi)| && j < |WorkOf(it, bs, lo, hi)|
    requires WorkOf(it, bs, lo, hi)[i] == WorkOf(it, bs, lo, hi)[j]
    ensures i == j
    decreases hi - lo
  {
    ExtentFits(it, bs);
    var front := WorkOf(it, bs, lo, hi - 1);
    if bs[hi - 1].inUse {
      LastIsNew(it, bs, lo, hi);
      assert forall x | 0 <= x < |front| :: front[x] != KeyAt(it, bs, hi - 1);
    }
    if i < |front| && j < |front| {
      WorkHasNoRepeats(it, bs, lo, hi - 1, i, j);
    }
  }

  // k is run by some thread.
  ghost predicate Runs(works: seq<seq<int>>, k: int) {
    exists t :: 0 <= t < |works| && k in works[t]
  }

  ghost predicate NoRepeats(works: seq<seq<int>>) {
    forall t, i, u, j | 0 <= t < |works| && 0 <= i < |works[t]| && 0 <= u < |works| && 0 <= j < |works[u]| ::
      works[t][i] == works[u][j] ==> t == u && i == j
  }

  // A round completes if and only if there are at least as many positions as workers.
  lemma RoundCompletes<V>(it: Iter, bs: seq<Bucket<V>>, n: nat)
    requires Usable(it, bs) && n > 0
    ensures Round(it, bs, n) == if Extent(it, bs) >= n then Some(Works(it, bs, n)) else None
  {
    EndLooksMissing(Extent(it, bs), n);
  }

  // With as many positions as workers a round runs exactly the keys behind its positions with
  // a bucket in use; with fewer it does not complete.
  lemma RoundRuns<V>(it: Iter, bs: seq<Bucket<V>>, n: nat, k: int)
    requires Usable(it, bs) && n > 0
    ensures Round(it, bs, n).Some? <==> Extent(it, bs) >= n
    ensures Round(it, bs, n).Some? ==> (Runs(Round(it, bs, n).value, k) <==> exists p: nat :: RunsAt(it, bs, p, k))
  {
    RoundCompletes(it, bs, n);
    WorksRun(it, bs, n, k);
  }

  lemma WorksRun<V>(it: Iter, bs: seq<Bucket<V>>, n: nat, k: int)
    requires Usable(it, bs) && n > 0
    ensures Runs(Works(it, bs, n), k) <==> exists p: nat :: RunsAt(it, bs, p, k)
  {
    var total, works := Extent(it, bs), Works(it, bs, n);
    if t :| 0 <= t < |works| && k in works[t] {
      var p := WorkAt(it, bs, n, t, k);
    }
    if p: nat :| RunsAt(it, bs, p, k) {
      var t := Owner(total, n, p);
      Partition(total, n, t, p);
      IntervalInRange(total, n, t);
      WorkHas(it, bs, IntervalFor(total, n, t).0, IntervalFor(total, n, t).1 + 1, k);
      assert k in works[t];
    }
  }

  lemma OneThread<V>(it: Iter, bs: seq<Bucket<V>>, n: nat, t: nat, u: nat, k: int)
    requires Usable(it, bs) && Distinct(bs) && t < n && u < n
    requires k in Works(it, bs, n)[t] && k in Works(it, bs, n)[u]
    ensures t == u
  {
    var p := WorkAt(it, bs, n, t, k);
    var q := WorkAt(it, bs, n, u, k);
    OnePosition(it, bs, p, q, k);
    Partition(Extent(it, bs), n, t, p);
    Partition(Extent(it, bs), n, u, p);
  }

  lemma WorkAt<V>(it: Iter, bs: seq<Bucket<V>>, n: nat, t: nat, k: int) returns (p: nat)
    requires Usable(it, bs) && t < n && k in Works(it, bs, n)[t]
    ensures RunsAt(it, bs, p, k) && Inside(Extent(it, bs), n, t, p)
  {
    var total := Extent(it, bs);
    IntervalInRange(total, n, t);
    WorkHas(it, bs, IntervalFor(total, n, t).0, IntervalFor(total, n, t).1 + 1, k);
    p :| IntervalFor(total, n, t).0 <= p < IntervalFor(total, n, t).1 + 1 && RunsAt(it, bs, p, k);
  }

  // A completed round runs no key twice.
  lemma RoundRunsOnce<V>(it: Iter, bs: seq<Bucket<V>>, n: nat)
    requires Usable(it, bs) && Distinct(bs)
    ensures Round(it, bs, n).Some? ==> NoRepeats(Round(it, bs, n).value)
  {
    WorksRunOnce(it, bs, n);
  }

  lemma WorksRunOnce<V>(it: Iter, bs: seq<Bucket<V>>, n: nat)
    requires Usable(it, bs) && Distinct(bs)
    ensures NoRepeats(Works(it, bs, n))
  {
    var total, works := Extent(it, bs), Works(it, bs, n);
    forall t, i, u, j | 0 <= t < |works| && 0 <= i < |works[t]| && 0 <= u < |works| && 0 <= j < |works[u]|
                        && works[t][i] == works[u][j]
      ensures t == u && i == j
    {
      OneThread(it, bs, n, t, u, works[t][i]);
      IntervalInRange(total, n, t);
      WorkHasNoRepeats(it, bs, IntervalFor(total, n, t).0, IntervalFor(total, n, t).1 + 1, i, j);
    }
  }

  /**
   * A full pass over a table of the vertices 0, ..., m - 1 completes if and only if there are
   * no more workers than buckets, as the loading phase enforces by admitting no more workers
   * than vertices; and then it is a full round of the engine, the premise of every per-pass
   * result.
   */
  lemma FullPassIsFull<V>(bs: seq<Bucket<V>>, n: nat, m: nat, works: seq<seq<nat>>)
    requires Distinct(bs) && n > 0 && forall k :: k in View(bs) <==> 0 <= k < m
    ensures Round(FullPass, bs, n).Some? <==> n <= |bs|
    ensures n <= m ==> n <= |bs|
    ensures Round(FullPass, bs, n) == Some(works) ==>
              System.WorkOk(works, n, m) && System.Full(works, m) && NoRepeats(works)
  {
    RoundCompletes(FullPass, bs, n);
    VerticesFit(bs, m);
    if Round(FullPass, bs, n) == Some(works) {
      FullPassWork(bs, n, m, works);
    }
  }

  lemma VerticesFit<V>(bs: seq<Bucket<V>>, m: nat)
    requires Distinct(bs) && forall k :: k in View(bs) <==> 0 <= k < m
    ensures m <= |bs|
  {
    CountIsSize(bs);
    CountBounds(bs);
    assert View(bs).Keys == IntsBelow(m);
  }

  function IntsBelow(m: nat): (s: set<int>)
    ensures |s| == m && forall k :: k in s <==> 0 <= k < m
  {
    if m == 0 then {} else IntsBelow(m - 1) + {m - 1}
  }

  lemma FullPassWork<V>(bs: seq<Bucket<V>>, n: nat, m: nat, works: seq<seq<nat>>)
    requires Distinct(bs) && n > 0 && works == Works(FullPass, bs, n)
    requires forall k :: k in View(bs) <==> 0 <= k < m
    ensures System.WorkOk(works, n, m) && System.Full(works, m) && NoRepeats(works)
  {
    forall t, i | 0 <= t < n && 0 <= i < |works[t]| ensures works[t][i] < m {
      assert Runs(works, works[t][i]);
      WorksRun(FullPass, bs, n, works[t][i]);
      var p: nat :| RunsAt(FullPass, bs, p, works[t][i]);
      ViewKeys(bs, works[t][i]);
      assert Holds(bs, works[t][i], p);
    }
    forall k: nat | k < m ensures System.Assigned(works, k) {
      ViewKeys(bs, k);
      var p: nat :| Holds(bs, k, p);
      assert RunsAt(FullPass, bs, p, k);
      WorksRun(FullPass, bs, n, k);
    }
    WorksRunOnce(FullPass, bs, n);
  }

  // The scheduled vertex at position p is run.
  ghost predicate Served<V>(pos: seq<nat>, bs: seq<Bucket<V>>, n: nat, p: nat)
    requires Usable(Scheduled(pos), bs) && p < |pos|
  {
    var round := Round(Scheduled(pos), bs, n);
    round.Some? && Runs(round.value, bs[pos[p]].k)
  }

  ghost predicate RunsSchedule<V>(pos: seq<nat>, bs: seq<Bucket<V>>, n: nat)
    requires Usable(Scheduled(pos), bs)
  {
    Round(Scheduled(pos), bs, n).Some? && forall p: nat | p < |pos| :: Served(pos, bs, n, p)
  }

  ghost predicate FirstInUse<V>(bs: seq<Bucket<V>>, count: nat) {
    count <= |bs| && forall p | 0 <= p < count :: bs[p].inUse
  }

  /**
   * The scheduled iterator consults the wrong bucket, and ends the program when it has fewer
   * positions than workers: a round completes and runs all that was scheduled if and only if
   * there are at least as many positions as workers and as many of the first buckets of the
   * table are in use as were scheduled.
   */
  lemma ScheduledRunsAll<V>(pos: seq<nat>, bs: seq<Bucket<V>>, n: nat)
    requires Usable(Scheduled(pos), bs) && Distinct(bs) && n > 0
    ensures RunsSchedule(pos, bs, n) <==> n <= |pos| && FirstInUse(bs, |pos|)
  {
    ExtentFits(Scheduled(pos), bs);
    RoundCompletes(Scheduled(pos), bs, n);
    if n <= |pos| {
      forall p: nat | p < |pos| ensures Served(pos, bs, n, p) <==> bs[p].inUse {
        ServedWhereTested(pos, bs, n, p);
      }
      if forall p: nat | p < |pos| :: Served(pos, bs, n, p) {
        forall p | 0 <= p < |pos| ensures bs[p].inUse {
          assert Served(pos, bs, n, p);
        }
      }
    }
  }

  lemma ServedWhereTested<V>(pos: seq<nat>, bs: seq<Bucket<V>>, n: nat, p: nat)
    requires Usable(Scheduled(pos), bs) && Distinct(bs) && 0 < n <= |pos| <= |bs| && p < |pos|
    ensures Served(pos, bs, n, p) <==> bs[p].inUse
  {
    RoundCompletes(Scheduled(pos), bs, n);
    RunsWhereTested(pos, bs, n, p);
  }

  lemma RunsWhereTested<V>(pos: seq<nat>, bs: seq<Bucket<V>>, n: nat, p: nat)
    requires Usable(Scheduled(pos), bs) && Distinct(bs) && n > 0 && p < |pos| <= |bs|
    ensures Runs(Works(Scheduled(pos), bs, n), bs[pos[p]].k) <==> bs[p].inUse
  {
    var it, k := Scheduled(pos), bs[pos[p]].k;
    WorksRun(it, bs, n, k);
    if q: nat :| RunsAt(it, bs, q, k) {
      assert pos[q] == pos[p];
    }
    assert bs[p].inUse ==> RunsAt(it, bs, p, k);
  }

  // For any number of workers: a table with only its first bucket free, and everything else
  // scheduled.  The round completes and leaves out the first vertex.
  lemma ScheduledCanSkip<V>(bs: seq<Bucket<V>>, n: nat)
    requires Distinct(bs) && |bs| == n + 1 && n > 0 && !bs[0].inUse && forall p | 0 < p < |bs| :: bs[p].inUse
    ensures var pos := seq(n, i requires 0 <= i < n => (i + 1) as nat);
            && Usable(Scheduled(pos), bs)
            && Round(Scheduled(pos), bs, n).Some? && !Served(pos, bs, n, 0)
  {
    var pos := seq(n, i requires 0 <= i < n => (i + 1) as nat);
    RoundCompletes(Scheduled(pos), bs, n);
    RunsWhereTested(pos, bs, n, 0);
  }
}
