/**
 * Finite vectors of reals: totals, the L1 norm, and how both react to changing one
 * coordinate.  Every quantitative claim about the engine (mass, residual, error) is a
 * statement about these two functions.
 */
module Vectors {

  function Abs(x: real): (a: real)
    ensures a >= 0.0 && a >= x && a >= -x
    ensures a == x || a == -x
  {
    if x < 0.0 then -x else x
  }

  function Scaled(c: real, x: real): real {
    c * x
  }

  // Scaled is bilinear and monotone; these are the only facts about products used below.
  lemma ScaledFacts(a: real, b: real, x: real, y: real)
    ensures Scaled(a, x) + Scaled(b, x) == Scaled(a + b, x)
    ensures Scaled(a, x) + Scaled(a, y) == Scaled(a, x + y)
    ensures a <= b && x >= 0.0 ==> Scaled(a, x) <= Scaled(b, x)
    ensures a >= 0.0 && x <= y ==> Scaled(a, x) <= Scaled(a, y)
  {
  }

  lemma ScaledUnits(a: real)
    ensures Scaled(0.0, a) == 0.0 && Scaled(a, 0.0) == 0.0 && Scaled(1.0, a) == a
  {
  }

  function Total(s: seq<real>): real {
    if |s| == 0 then 0.0 else s[0] + Total(s[1..])
  }

  function Magnitudes(s: seq<real>): (m: seq<real>)
    ensures |m| == |s| && forall j | 0 <= j < |m| :: m[j] == Abs(s[j])
  {
    seq(|s|, j requires 0 <= j < |s| => Abs(s[j]))
  }

  function L1(s: seq<real>): real {
    Total(Magnitudes(s))
  }

  lemma {:induction false} TotalUpdate(s: seq<real>, i: nat, x: real)
    requires i < |s|
    ensures Total(s[i := x]) == Total(s) - s[i] + x
  {
    if i == 0 {
      assert s[i := x][1..] == s[1..];
    } else {
      assert s[i := x][1..] == s[1..][i - 1 := x];
      TotalUpdate(s[1..], i - 1, x);
    }
  }

  lemma {:induction false} TotalAppend(s: seq<real>, x: real)
    ensures Total(s + [x]) == Total(s) + x
  {
    if |s| > 0 {
      assert (s + [x])[1..] == s[1..] + [x];
      TotalAppend(s[1..], x);
    }
  }

  lemma {:induction false} TotalMonotone(a: seq<real>, b: seq<real>)
    requires |a| == |b|
    requires forall j | 0 <= j < |a| :: a[j] <= b[j]
    ensures Total(a) <= Total(b)
  {
    if |a| > 0 {
      TotalMonotone(a[1..], b[1..]);
    }
  }

  lemma {:induction false} TotalSum(c: seq<real>, a: seq<real>, b: seq<real>)
    requires |c| == |a| == |b|
    requires forall j | 0 <= j < |c| :: c[j] == a[j] + b[j]
    ensures Total(c) == Total(a) + Total(b)
  {
    if |c| > 0 {
      TotalSum(c[1..], a[1..], b[1..]);
    }
  }

  lemma {:induction false} TotalWithFourfold(w: seq<real>, v: seq<real>, e: seq<real>)
    requires |w| == |v| == |e| && forall j | 0 <= j < |w| :: w[j] == v[j] + 4.0 * e[j]
    ensures Total(w) == Total(v) + 4.0 * Total(e)
  {
    if |w| > 0 {
      TotalWithFourfold(w[1..], v[1..], e[1..]);
    }
  }

  lemma {:induction false} TotalOfConstant(s: seq<real>, x: real)
    requires forall j | 0 <= j < |s| :: s[j] == x
    ensures Total(s) == x * |s| as real
  {
    if |s| > 0 {
      TotalOfConstant(s[1..], x);
    }
  }

  lemma L1NonNegative(s: seq<real>)
    ensures L1(s) >= 0.0
  {
    TotalOfZeros(seq(|s|, j => 0.0));
    TotalMonotone(seq(|s|, j => 0.0), Magnitudes(s));
  }

  lemma L1Update(s: seq<real>, i: nat, x: real)
    requires i < |s|
    ensures L1(s[i := x]) == L1(s) - Abs(s[i]) + Abs(x)
  {
    assert Magnitudes(s[i := x]) == Magnitudes(s)[i := Abs(x)];
    TotalUpdate(Magnitudes(s), i, Abs(x));
  }

  lemma L1Head(s: seq<real>)
    requires |s| > 0
    ensures L1(s) == Abs(s[0]) + L1(s[1..])
  {
    assert Magnitudes(s)[1..] == Magnitudes(s[1..]);
  }

  // Triangle inequality, coordinate by coordinate.
  lemma L1Triangle(c: seq<real>, a: seq<real>, b: seq<real>)
    requires |c| == |a| == |b|
    requires forall j | 0 <= j < |c| :: Abs(c[j]) <= Abs(a[j]) + Abs(b[j])
    ensures L1(c) <= L1(a) + L1(b)
  {
    var sum := seq(|c|, j requires 0 <= j < |c| => Abs(a[j]) + Abs(b[j]));
    TotalMonotone(Magnitudes(c), sum);
    TotalSum(sum, Magnitudes(a), Magnitudes(b));
  }

  lemma L1OfNonNegative(s: seq<real>)
    requires forall j | 0 <= j < |s| :: s[j] >= 0.0
    ensures L1(s) == Total(s)
  {
    assert Magnitudes(s) == s;
  }

  // A coordinate is bounded by the norm.
  lemma L1Coordinate(s: seq<real>, j: nat)
    requires j < |s|
    ensures Abs(s[j]) <= L1(s)
  {
    L1Update(s, j, 0.0);
    L1NonNegative(s[j := 0.0]);
  }

  lemma L1OfZeros(s: seq<real>)
    requires forall j | 0 <= j < |s| :: s[j] == 0.0
    ensures L1(s) == 0.0
  {
    TotalOfZeros(Magnitudes(s));
  }

  // The total does not depend on the order in which the coordinates are visited: a scan
  // that meets every index below |s| exactly once adds up to Total(s).
  ghost predicate VisitsOnce(order: seq<nat>, n: nat) {
    && (forall i | 0 <= i < |order| :: order[i] < n)
    && (forall i, j | 0 <= i < j < |order| :: order[i] != order[j])
    && (forall k | 0 <= k < n :: k in order)
  }

  function Pick(s: seq<real>, order: seq<nat>): (p: seq<real>)
    requires forall i | 0 <= i < |order| :: order[i] < |s|
    ensures |p| == |order| && forall i | 0 <= i < |p| :: p[i] == s[order[i]]
  {
    seq(|order|, i requires 0 <= i < |order| => s[order[i]])
  }

  lemma {:induction false} TotalOfZeros(s: seq<real>)
    requires forall j | 0 <= j < |s| :: s[j] == 0.0
    ensures Total(s) == 0.0
  {
    if |s| > 0 {
      TotalOfZeros(s[1..]);
    }
  }

  // Zeroing the coordinates outside `order` first, the scan total is the vector total.
  lemma {:induction false} ScanTotalAux(s: seq<real>, order: seq<nat>)
    requires forall i | 0 <= i < |order| :: order[i] < |s|
    requires forall i, j | 0 <= i < j < |order| :: order[i] != order[j]
    requires forall k | 0 <= k < |s| :: k in order || s[k] == 0.0
    ensures Total(Pick(s, order)) == Total(s)
    decreases |order|
  {
    if |order| == 0 {
      TotalOfZeros(s);
    } else {
      var k, rest := order[0], order[1..];
      var s' := s[k := 0.0];
      assert k !in rest;
      forall i | 0 <= i < |s'| ensures i in rest || s'[i] == 0.0 {
        if i != k && i in order { assert i in rest; }
      }
      ScanTotalAux(s', rest);
      TotalUpdate(s, k, 0.0);
      assert Pick(s, order)[1..] == Pick(s', rest);
    }
  }

  lemma ScanTotal(s: seq<real>, order: seq<nat>)
    requires VisitsOnce(order, |s|)
    ensures Total(Pick(s, order)) == Total(s)
  {
    ScanTotalAux(s, order);
  }

  lemma VisitsAreAsMany(order: seq<nat>, n: nat)
    requires VisitsOnce(order, n)
    ensures |order| == n
  {
    var ones := seq(n, (k: nat) => 1.0);
    ScanTotal(ones, order);
    TotalOfConstant(ones, 1.0);
    TotalOfConstant(Pick(ones, order), 1.0);
  }

  function Below(n: nat): (s: set<nat>)
    ensures forall k: nat :: k in s <==> k < n
  {
    if n == 0 then {} else Below(n - 1) + {n - 1}
  }

  lemma {:induction false} BelowSize(n: nat)
    ensures |Below(n)| == n
  {
    if n > 0 {
      BelowSize(n - 1);
    }
  }

  function Power(c: real, r: nat): real {
    if r == 0 then 1.0 else c * Power(c, r - 1)
  }
}
