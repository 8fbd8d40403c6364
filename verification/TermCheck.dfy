/**
 * The termination check: TermCheckers::Diff and the main thread's TermCheck loop.
 */
module TermCheck {
  import opened Vectors
  import opened Options

  // What one scan reads from a bucket.  value2 is read twice, once to compare it with the
  // default and once to add it, and a worker may write in between.
  datatype Reading = Reading(inUse: bool, peeked: real, read: real)

  function Counted(r: Reading, default: real): real {
    if r.inUse && r.peeked != default then r.read else 0.0
  }

  // A bucket that is free, or at the default when peeked at, adds nothing; any other adds what
  // was then read.
  function Contributions(scan: seq<Reading>, default: real): (c: seq<real>)
    ensures |c| == |scan|
    ensures forall p | 0 <= p < |scan| && !scan[p].inUse :: c[p] == 0.0
    ensures forall p | 0 <= p < |scan| && scan[p].inUse && scan[p].peeked == default :: c[p] == 0.0
    ensures forall p | 0 <= p < |scan| && scan[p].inUse && scan[p].peeked != default :: c[p] == scan[p].read
  {
    seq(|scan|, i requires 0 <= i < |scan| => Counted(scan[i], default))
  }

  lemma ContributionsGrow(scan: seq<Reading>, default: real, p: nat)
    requires p < |scan|
    ensures Total(Contributions(scan[..p + 1], default))
            == Total(Contributions(scan[..p], default)) + Counted(scan[p], default)
  {
    assert Contributions(scan[..p + 1], default) == Contributions(scan[..p], default) + [Counted(scan[p], default)];
    TotalAppend(Contributions(scan[..p], default), Counted(scan[p], default));
  }

  class Diff {
    // None stands for the initial -max, which is further than any threshold from any total.
    var last: Option<real>
    var curr: real
    const threshold: real

    constructor (threshold: real)
      ensures last.None? && curr == 0.0 && this.threshold == threshold
    {
      this.last := None;
      this.curr := 0.0;
      this.threshold := threshold;
    }

    // The scan of the entire-pass iterator, with its own done() and Next().
    method EstimateProg(scan: seq<Reading>, default: real) returns (partial: real)
      ensures partial == Total(Contributions(scan, default))
    {
      partial := 0.0;
      var pos := -1;
      while pos + 1 != |scan|
        invariant -1 <= pos < |scan|
        invariant partial == Total(Contributions(scan[..pos + 1], default))
        decreases |scan| - pos
      {
        ghost var before := pos;
        pos := pos + 1;
        ContributionsGrow(scan, default, pos);
        while pos < |scan| && !scan[pos].inUse
          invariant before < pos <= |scan|
          invariant pos < |scan| ==>
              Total(Contributions(scan[..pos + 1], default)) == partial + Counted(scan[pos], default)
          invariant pos == |scan| ==> partial == Total(Contributions(scan, default))
          decreases |scan| - pos
        {
          if pos + 1 < |scan| {
            ContributionsGrow(scan, default, pos + 1);
          } else {
            assert scan[..pos + 1] == scan;
          }
          pos := pos + 1;
        }
        if pos >= |scan| {
          return;
        }
        if scan[pos].peeked != default {
          partial := partial + scan[pos].read;
        }
      }
      assert scan[..pos + 1] == scan;
    }

    method Terminate(total: real) returns (stop: bool)
      modifies this
      ensures curr == total
      ensures stop == (old(last).Some? && Abs(total - old(last).value) <= threshold)
      ensures last == if stop then old(last) else Some(total)
    {
      curr := total;
      if last.Some? && Abs(curr - last.value) <= threshold {
        stop := true;
      } else {
        last := Some(curr);
        stop := false;
      }
    }
  }

  ghost predicate Settles(totals: seq<real>, i: nat, threshold: real) {
    0 < i < |totals| && Abs(totals[i] - totals[i - 1]) <= threshold
  }

  // One turn of the main thread's loop: the clock it reads, and, should it scan then, the total
  // and the clock after the check.
  datatype Poll = Poll(now: real, total: real, after: real)

  // When the latest check was over: last_termcheck_.
  ghost function LastCheck(polls: seq<Poll>, start: real, interval: real): real {
    if |polls| == 0 then start
    else
      var last := LastCheck(polls[..|polls| - 1], start, interval);
      if polls[|polls| - 1].now - last > interval then polls[|polls| - 1].after else last
  }

  ghost predicate Due(polls: seq<Poll>, i: nat, start: real, interval: real)
    requires i < |polls|
  {
    polls[i].now - LastCheck(polls[..i], start, interval) > interval
  }

  // The totals of the scans that the polls cause.
  ghost function ScanTotals(polls: seq<Poll>, start: real, interval: real): seq<real> {
    if |polls| == 0 then []
    else
      var n := |polls| - 1;
      ScanTotals(polls[..n], start, interval) + if Due(polls, n, start, interval) then [polls[n].total] else []
  }

  lemma PollTaken(polls: seq<Poll>, i: nat, start: real, interval: real)
    requires i < |polls|
    ensures LastCheck(polls[..i + 1], start, interval)
            == if Due(polls, i, start, interval) then polls[i].after else LastCheck(polls[..i], start, interval)
    ensures ScanTotals(polls[..i + 1], start, interval)
            == ScanTotals(polls[..i], start, interval) + if Due(polls, i, start, interval) then [polls[i].total] else []
  {
    assert polls[..i + 1][..i] == polls[..i];
  }

  lemma {:induction false} LastCheckIs(polls: seq<Poll>, i: int, j: nat, start: real, interval: real)
    requires -1 <= i < j <= |polls| && (i >= 0 ==> Due(polls, i, start, interval))
    requires forall k: nat | i < k < j :: !Due(polls, k, start, interval)
    ensures LastCheck(polls[..j], start, interval) == if i == -1 then start else polls[i].after
  {
    if j > 0 {
      PollTaken(polls, j - 1, start, interval);
      if i < j - 1 {
        LastCheckIs(polls, i, j - 1, start, interval);
      }
    }
  }

  // A turn of the loop scans if and only if more than the interval has passed since the check
  // of the latest turn i that scanned, or since the start.
  lemma ScansWhenDue(polls: seq<Poll>, i: int, j: nat, start: real, interval: real)
    requires -1 <= i < j < |polls| && (i >= 0 ==> Due(polls, i, start, interval))
    requires forall k: nat | i < k < j :: !Due(polls, k, start, interval)
    ensures Due(polls, j, start, interval) <==> polls[j].now > interval + if i == -1 then start else polls[i].after
  {
    LastCheckIs(polls, i, j, start, interval);
  }

  // The totals compared are those of the turns that scan, all of them, in order.
  lemma {:induction false} TotalsOfScans(polls: seq<Poll>, n: nat, start: real, interval: real)
    returns (turns: seq<nat>)
    requires n <= |polls|
    ensures |turns| == |ScanTotals(polls[..n], start, interval)|
    ensures forall i, j | 0 <= i < j < |turns| :: turns[i] < turns[j]
    ensures forall i | 0 <= i < |turns| ::
              turns[i] < n && Due(polls, turns[i], start, interval)
              && ScanTotals(polls[..n], start, interval)[i] == polls[turns[i]].total
    ensures forall k: nat | k < n && Due(polls, k, start, interval) :: k in turns
  {
    turns := [];
    if n > 0 {
      turns := TotalsOfScans(polls, n - 1, start, interval);
      PollTaken(polls, n - 1, start, interval);
      if Due(polls, n - 1, start, interval) {
        turns := turns + [n - 1];
      }
    }
  }

  ghost predicate Unsettled(totals: seq<real>, threshold: real) {
    forall i: nat | i < |totals| :: !Settles(totals, i, threshold)
  }

  lemma StillUnsettled(totals: seq<real>, total: real, threshold: real)
    requires Unsettled(totals, threshold) && !Settles(totals + [total], |totals|, threshold)
    ensures Unsettled(totals + [total], threshold)
  {
    forall i: nat | i < |totals| + 1 ensures !Settles(totals + [total], i, threshold) {
      if i < |totals| {
        assert !Settles(totals, i, threshold);
      }
    }
  }

  // The main thread stops, and tells the state table so, at the first scan that is within the
  // threshold of the one before; it scans whenever the interval is over.
  method TermCheckLoop(d: Diff, polls: seq<Poll>, start: real, interval: real) returns (stop: Option<nat>, told: bool)
    requires d.last.None?
    modifies d
    ensures told == stop.Some?
    ensures stop.Some? ==>
              && stop.value < |polls| && Due(polls, stop.value, start, interval)
              && var before := ScanTotals(polls[..stop.value], start, interval);
                 Settles(before + [polls[stop.value].total], |before|, d.threshold) && Unsettled(before, d.threshold)
    ensures stop.None? ==> Unsettled(ScanTotals(polls, start, interval), d.threshold)
  {
    var terminated := false;
    var lastTermcheck := start;
    stop, told := None, false;
    var i := 0;
    ghost var totals := [];
    while !terminated && i < |polls|
      invariant 0 <= i <= |polls| && told == terminated == stop.Some?
      invariant !terminated ==>
          && totals == ScanTotals(polls[..i], start, interval) && Unsettled(totals, d.threshold)
          && lastTermcheck == LastCheck(polls[..i], start, interval)
          && d.last == (if |totals| == 0 then None else Some(totals[|totals| - 1]))
      invariant terminated ==>
          && stop.value < |polls| && Due(polls, stop.value, start, interval)
          && totals == ScanTotals(polls[..stop.value], start, interval) && Unsettled(totals, d.threshold)
          && Settles(totals + [polls[stop.value].total], |totals|, d.threshold)
    {
      PollTaken(polls, i, start, interval);
      if polls[i].now - lastTermcheck > interval {
        terminated := d.Terminate(polls[i].total);
        lastTermcheck := polls[i].after;
        if terminated {
          stop, told := Some(i), true;
        } else {
          StillUnsettled(totals, polls[i].total, d.threshold);
          totals := totals + [polls[i].total];
        }
      }
      i := i + 1;
    }
    assert polls[..|polls|] == polls;
  }
}
