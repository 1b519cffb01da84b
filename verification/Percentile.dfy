/** The load client's interpolated percentile, over exact reals. */
module Percentile {
  import opened Requests
  import opened Sorting

  // ---- sorted() ----

  predicate Sorted(s: seq<real>) {
    forall i, j :: 0 <= i < j < |s| ==> s[i] <= s[j]
  }

  function AsIs(): real -> real {
    x => x
  }

  function Insert(x: real, s: seq<real>): (r: seq<real>)
    ensures |r| == |s| + 1
  {
    InsertBy(AsIs(), x, s)
  }

  function Sort(s: seq<real>): (r: seq<real>)
    ensures |r| == |s|
  {
    SortBy(AsIs(), s)
  }

  lemma SortIsSorted(s: seq<real>)
    ensures Sorted(Sort(s)) && multiset(Sort(s)) == multiset(s)
  {
    SortSorted(AsIs(), s);
    SortKeeps(AsIs(), s);
    assert forall i :: 0 <= i < |s| ==> AsIs()(Sort(s)[i]) == Sort(s)[i];
  }

  lemma HeadAndTail(s: seq<real>)
    requires s != []
    ensures multiset(s) == multiset{s[0]} + multiset(s[1..])
  {
    assert s == [s[0]] + s[1..];
  }

  lemma HeadAmong(a: seq<real>, b: seq<real>)
    requires a != [] && multiset(a) == multiset(b) && Sorted(b)
    ensures b != [] && b[0] <= a[0]
  {
    assert a[0] in multiset(b);
    var k :| 0 <= k < |b| && b[k] == a[0];
  }

  /** There is only one sorted order of the same numbers. */
  lemma {:induction false} SortedUnique(a: seq<real>, b: seq<real>)
    requires Sorted(a) && Sorted(b) && multiset(a) == multiset(b)
    ensures a == b
  {
    if a == [] {
      assert |multiset(b)| == 0;
    } else {
      HeadAmong(a, b);
      HeadAmong(b, a);
      HeadAndTail(a);
      HeadAndTail(b);
      SameTails(multiset{a[0]}, multiset(a[1..]), multiset(b[1..]));
      SortedUnique(a[1..], b[1..]);
      assert a == [a[0]] + a[1..] && b == [b[0]] + b[1..];
    }
  }

  lemma SameTails(head: multiset<real>, a: multiset<real>, b: multiset<real>)
    requires head + a == head + b
    ensures a == b
  {
    assert a == (head + a) - head;
    assert b == (head + b) - head;
  }

  predicate Below(a: seq<real>, b: seq<real>) {
    |a| == |b| && forall i :: 0 <= i < |a| ==> a[i] <= b[i]
  }

  lemma BelowCons(x: real, a: seq<real>, y: real, b: seq<real>)
    requires x <= y && Below(a, b)
    ensures Below([x] + a, [y] + b)
  {
  }

  lemma BelowTail(a: seq<real>, b: seq<real>)
    requires a != [] && Below(a, b) && Sorted(a) && Sorted(b)
    ensures a[0] <= b[0] && Below(a[1..], b[1..]) && Sorted(a[1..]) && Sorted(b[1..])
    ensures a == [a[0]] + a[1..] && b == [b[0]] + b[1..]
    ensures |a| > 1 ==> a[0] <= a[1] && b[0] <= b[1]
  {
  }

  lemma {:induction false} InsertMonotone(x: real, a: seq<real>, y: real, b: seq<real>)
    requires x <= y && Below(a, b) && Sorted(a) && Sorted(b)
    ensures Below(Insert(x, a), Insert(y, b))
    decreases |a|
  {
    if a == [] || x <= a[0] {
      InsertShifted(x, a, y, b);
    } else if y <= b[0] {
      InsertedBelow(x, a, y, b);
    } else {
      BelowTail(a, b);
      InsertMonotone(x, a[1..], y, b[1..]);
      BelowCons(a[0], Insert(x, a[1..]), b[0], Insert(y, b[1..]));
    }
  }

  lemma {:induction false} InsertShifted(x: real, a: seq<real>, y: real, b: seq<real>)
    requires x <= y && Below(a, b) && Sorted(a) && Sorted(b) && (a == [] || x <= a[0])
    ensures Below([x] + a, Insert(y, b))
    decreases |a|
  {
    if a == [] || y <= b[0] {
      BelowCons(x, a, y, b);
    } else {
      BelowTail(a, b);
      InsertShifted(a[0], a[1..], y, b[1..]);
      BelowCons(x, a, b[0], Insert(y, b[1..]));
    }
  }

  lemma {:induction false} InsertedBelow(x: real, a: seq<real>, y: real, b: seq<real>)
    requires x <= y && Below(a, b) && Sorted(a) && Sorted(b) && (b == [] || y <= b[0])
    ensures Below(Insert(x, a), [y] + b)
    decreases |a|
  {
    if a == [] || x <= a[0] {
      BelowCons(x, a, y, b);
    } else {
      BelowTail(a, b);
      InsertedBelow(x, a[1..], b[0], b[1..]);
      BelowCons(a[0], Insert(x, a[1..]), y, b);
    }
  }

  /** Raising some of the numbers raises every order statistic. */
  lemma {:induction false} SortMonotone(a: seq<real>, b: seq<real>)
    requires Below(a, b)
    ensures Below(Sort(a), Sort(b))
  {
    if a != [] {
      SortMonotone(a[1..], b[1..]);
      SortIsSorted(a[1..]);
      SortIsSorted(b[1..]);
      InsertMonotone(a[0], Sort(a[1..]), b[0], Sort(b[1..]));
    }
  }

  // ---- Interpolation ----

  /** The fraction p / 100 of m. */
  function Part(p: real, m: real): real {
    (p / 100.0) * m
  }

  /** The index to read at, between the positions of s. */
  function Index(n: nat, p: real): (x: real)
    requires n > 0 && 0.0 <= p <= 100.0
    ensures 0.0 <= x <= (n - 1) as real
  {
    PartInRange(p, (n - 1) as real);
    Part(p, (n - 1) as real)
  }

  lemma PartInRange(p: real, m: real)
    requires 0.0 <= p <= 100.0 && m >= 0.0
    ensures 0.0 <= Part(p, m) <= m
  {
    Scale(p / 100.0, m);
  }

  lemma Scale(f: real, m: real)
    requires 0.0 <= f <= 1.0 && m >= 0.0
    ensures 0.0 <= f * m <= m
  {
    assert (1.0 - f) * m >= 0.0;
  }

  function Interpolate(s: seq<real>, x: real): real
    requires 0.0 <= x <= (|s| - 1) as real
  {
    var lo := x.Floor;
    var hi := if lo + 1 <= |s| - 1 then lo + 1 else |s| - 1;
    var frac := x - lo as real;
    s[lo] * (1.0 - frac) + s[hi] * frac
  }

  /** percentile; None stands for the NaN of an empty list. */
  function Percentile(data: seq<real>, p: real): Option<real>
    requires 0.0 <= p <= 100.0
  {
    if data == [] then None else Some(Interpolate(Sort(data), Index(|data|, p)))
  }

  lemma NaturalProduct(x: real, y: real)
    requires x >= 0.0 && y >= 0.0
    ensures x * y >= 0.0
  {
  }

  lemma Mix(a: real, b: real, f: real)
    requires a <= b && 0.0 <= f <= 1.0
    ensures a <= a * (1.0 - f) + b * f <= b
  {
    NaturalProduct(b - a, f);
    NaturalProduct(b - a, 1.0 - f);
  }

  lemma MixMonotone(a: real, b: real, f: real, g: real)
    requires a <= b && f <= g
    ensures a * (1.0 - f) + b * f <= a * (1.0 - g) + b * g
  {
    NaturalProduct(b - a, g - f);
  }

  lemma InterpolateBetween(s: seq<real>, x: real)
    requires Sorted(s) && 0.0 <= x <= (|s| - 1) as real
    ensures s[x.Floor] <= Interpolate(s, x) <= s[if x.Floor + 1 <= |s| - 1 then x.Floor + 1 else |s| - 1]
  {
    var lo := x.Floor;
    var hi, f := if lo + 1 <= |s| - 1 then lo + 1 else |s| - 1, x - lo as real;
    Mix(s[lo], s[hi], f);
    assert Interpolate(s, x) == s[lo] * (1.0 - f) + s[hi] * f;
  }

  lemma InterpolateMonotone(s: seq<real>, x: real, y: real)
    requires Sorted(s) && 0.0 <= x <= y <= (|s| - 1) as real
    ensures Interpolate(s, x) <= Interpolate(s, y)
  {
    if x.Floor == y.Floor {
      var lo := x.Floor;
      var hi, f, g := if lo + 1 <= |s| - 1 then lo + 1 else |s| - 1, x - lo as real, y - lo as real;
      MixMonotone(s[lo], s[hi], f, g);
      assert Interpolate(s, x) == s[lo] * (1.0 - f) + s[hi] * f;
      assert Interpolate(s, y) == s[lo] * (1.0 - g) + s[hi] * g;
    } else {
      InterpolateBetween(s, x);
      InterpolateBetween(s, y);
    }
  }

  lemma PartMonotone(p: real, q: real, m: real)
    requires p <= q && m >= 0.0
    ensures Part(p, m) <= Part(q, m)
  {
    NaturalProduct(q / 100.0 - p / 100.0, m);
  }

  lemma IndexMonotone(n: nat, p: real, q: real)
    requires n > 0 && 0.0 <= p <= q <= 100.0
    ensures Index(n, p) <= Index(n, q)
    ensures Index(n, 0.0) == 0.0 && Index(n, 100.0) == (n - 1) as real
  {
    PartMonotone(p, q, (n - 1) as real);
  }

  lemma InterpolateEnds(s: seq<real>)
    requires s != []
    ensures Interpolate(s, 0.0) == s[0] && Interpolate(s, (|s| - 1) as real) == s[|s| - 1]
  {
  }

  /** A higher percentile is never lower; 0 is the minimum, 100 the maximum. */
  lemma MonotoneInP(data: seq<real>, p: real, q: real)
    requires data != [] && 0.0 <= p <= q <= 100.0
    ensures Percentile(data, p).value <= Percentile(data, q).value
    ensures Percentile(data, 0.0).value == Sort(data)[0]
    ensures Percentile(data, 100.0).value == Sort(data)[|data| - 1]
  {
    SortIsSorted(data);
    IndexMonotone(|data|, p, q);
    InterpolateMonotone(Sort(data), Index(|data|, p), Index(|data|, q));
    InterpolateEnds(Sort(data));
  }

  /** The point at fraction f of the way from a to b. */
  function OnTheWay(a: real, b: real, f: real): real {
    a + (b - a) * f
  }

  lemma LinearBetween(s: seq<real>, x: real, k: nat, f: real)
    requires k + 1 < |s| && 0.0 <= f <= 1.0 && x == k as real + f
    ensures Interpolate(s, x) == OnTheWay(s[k], s[k + 1], f)
  {
    if f < 1.0 {
      assert x.Floor == k;
    } else {
      assert x.Floor == k + 1 && x - (k + 1) as real == 0.0;
    }
  }

  lemma PositionIs(p: real, m: real, x: real)
    requires p * m == 100.0 * x
    ensures Part(p, m) == x
  {
  }

  lemma LinearAt(data: seq<real>, p: real, k: nat, f: real)
    requires 0.0 <= p <= 100.0 && k + 1 < |data| && 0.0 <= f <= 1.0
    requires Part(p, (|data| - 1) as real) == k as real + f
    ensures Percentile(data, p) == Some(OnTheWay(Sort(data)[k], Sort(data)[k + 1], f))
  {
    LinearBetween(Sort(data), Index(|data|, p), k, f);
  }

  /** Between neighbouring order statistics the percentile runs along the straight
      line from the one to the other, ends included: the k-th of n data is reached
      at 100 * k / (n - 1) percent. */
  lemma LinearInP(data: seq<real>, p: real, k: nat, f: real)
    requires 0.0 <= p <= 100.0 && k + 1 < |data| && 0.0 <= f <= 1.0
    requires p * (|data| - 1) as real == 100.0 * (k as real + f)
    ensures Percentile(data, p) == Some(OnTheWay(Sort(data)[k], Sort(data)[k + 1], f))
  {
    PositionIs(p, (|data| - 1) as real, k as real + f);
    LinearAt(data, p, k, f);
  }

  /** The 50th percentile of an odd number of data is the middle one. */
  lemma Median(data: seq<real>, k: nat)
    requires |data| == 2 * k + 1
    ensures Percentile(data, 50.0) == Some(Sort(data)[k])
  {
    PositionIs(50.0, (|data| - 1) as real, k as real);
    if k == 0 {
      InterpolateEnds(Sort(data));
    } else {
      LinearAt(data, 50.0, k, 0.0);
    }
  }

  lemma SortWithin(data: seq<real>, low: real, high: real)
    requires forall x :: x in data ==> low <= x <= high
    ensures forall k :: 0 <= k < |data| ==> low <= Sort(data)[k] <= high
  {
    var s := Sort(data);
    SortIsSorted(data);
    forall k | 0 <= k < |s| ensures low <= s[k] <= high {
      assert s[k] in multiset(s);
      assert s[k] in data;
    }
  }

  /** Every percentile lies between the smallest and the largest datum. */
  lemma WithinRange(data: seq<real>, p: real, low: real, high: real)
    requires data != [] && 0.0 <= p <= 100.0
    requires forall x :: x in data ==> low <= x <= high
    ensures low <= Percentile(data, p).value <= high
  {
    SortIsSorted(data);
    SortWithin(data, low, high);
    InterpolateBetween(Sort(data), Index(|data|, p));
  }

  /** The order of the data does not matter. */
  lemma PermutationInvariant(a: seq<real>, b: seq<real>, p: real)
    requires multiset(a) == multiset(b) && 0.0 <= p <= 100.0
    ensures Percentile(a, p) == Percentile(b, p)
  {
    SortIsSorted(a);
    SortIsSorted(b);
    SortedUnique(Sort(a), Sort(b));
  }

  lemma MixBelow(a: real, b: real, a': real, b': real, f: real)
    requires a <= a' && b <= b' && 0.0 <= f <= 1.0
    ensures a * (1.0 - f) + b * f <= a' * (1.0 - f) + b' * f
  {
    NaturalProduct(a' - a, 1.0 - f);
    NaturalProduct(b' - b, f);
  }

  /** Slower responses never lower a percentile. */
  lemma MonotoneInData(a: seq<real>, b: seq<real>, p: real)
    requires a != [] && Below(a, b) && 0.0 <= p <= 100.0
    ensures Percentile(a, p).value <= Percentile(b, p).value
  {
    SortMonotone(a, b);
    var x := Index(|a|, p);
    var lo, s, t := x.Floor, Sort(a), Sort(b);
    var hi := if lo + 1 <= |s| - 1 then lo + 1 else |s| - 1;
    MixBelow(s[lo], s[hi], t[lo], t[hi], x - lo as real);
  }
}
