/** The interpolated percentile of the load-test report, over exact reals. */
module Percentile {
  // ----- sorting -----

  ghost predicate Below(x: real, s: seq<real>) {
    forall y :: y in s ==> x <= y
  }

  ghost predicate Ordered(s: seq<real>) {
    s == [] || (Below(s[0], s[1..]) && Ordered(s[1..]))
  }

  lemma {:induction false} OrderedAt(s: seq<real>, i: nat, j: nat)
    requires Ordered(s) && i <= j < |s|
    ensures s[i] <= s[j]
  {
    if i > 0 {
      OrderedAt(s[1..], i - 1, j - 1);
    } else if j > 0 {
      assert s[1..][j - 1] in s[1..];
    }
  }

  lemma HeadIsLeast(s: seq<real>, v: real)
    requires Ordered(s) && v in s
    ensures s[0] <= v
  {
    var i :| 0 <= i < |s| && s[i] == v;
    OrderedAt(s, 0, i);
  }

  function Insert(x: real, s: seq<real>): seq<real> {
    if s == [] || x <= s[0] then [x] + s else [s[0]] + Insert(x, s[1..])
  }

  lemma {:induction false} InsertAdds(x: real, s: seq<real>)
    ensures multiset(Insert(x, s)) == multiset(s) + multiset{x}
  {
    if s != [] && x > s[0] {
      InsertAdds(x, s[1..]);
      assert s == [s[0]] + s[1..];
    }
  }

  lemma {:induction false} InsertIsOrdered(x: real, s: seq<real>)
    requires Ordered(s)
    ensures Ordered(Insert(x, s))
  {
    if s == [] || x <= s[0] {
      assert ([x] + s)[1..] == s;
      forall y | y in s
        ensures x <= y
      {
        HeadIsLeast(s, y);
      }
    } else {
      var r := Insert(x, s[1..]);
      InsertIsOrdered(x, s[1..]);
      assert ([s[0]] + r)[1..] == r;
      forall y | y in r
        ensures s[0] <= y
      {
        InsertAdds(x, s[1..]);
        assert y in multiset(r) && (y in multiset(s[1..]) || y == x);
        if y in s[1..] {
          assert Below(s[0], s[1..]);
        }
      }
    }
  }

  function InsertionSort(s: seq<real>): seq<real> {
    if s == [] then [] else Insert(s[0], InsertionSort(s[1..]))
  }

  lemma {:induction false} InsertionSortSorts(s: seq<real>)
    ensures Ordered(InsertionSort(s)) && multiset(InsertionSort(s)) == multiset(s)
  {
    if s != [] {
      InsertionSortSorts(s[1..]);
      InsertIsOrdered(s[0], InsertionSort(s[1..]));
      InsertAdds(s[0], InsertionSort(s[1..]));
      assert s == [s[0]] + s[1..];
    }
  }

  /** `sorted(values)`. */
  function Sorted(s: seq<real>): (r: seq<real>)
    ensures Ordered(r) && multiset(r) == multiset(s) && |r| == |s|
  {
    InsertionSortSorts(s);
    assert |multiset(InsertionSort(s))| == |multiset(s)|;
    InsertionSort(s)
  }

  lemma TailMultiset(s: seq<real>)
    requires s != []
    ensures multiset(s[1..]) == multiset(s) - multiset{s[0]}
  {
    assert s == [s[0]] + s[1..];
  }

  lemma SameHead(a: seq<real>, b: seq<real>)
    requires Ordered(a) && Ordered(b) && a != [] && multiset(a) == multiset(b)
    ensures b != [] && a[0] == b[0]
  {
    assert a[0] in multiset(b) && b[0] in multiset(a);
    HeadIsLeast(b, a[0]);
    HeadIsLeast(a, b[0]);
  }

  lemma OrderedTail(s: seq<real>)
    requires Ordered(s) && s != []
    ensures Ordered(s[1..])
  {
  }

  /** An ordered sequence is determined by its elements. */
  lemma {:induction false} OrderedUnique(a: seq<real>, b: seq<real>)
    requires Ordered(a) && Ordered(b) && multiset(a) == multiset(b)
    ensures a == b
  {
    hide Ordered;
    if a == [] {
      assert |b| == |multiset(b)| == |multiset(a)| == 0;
    } else {
      SameHead(a, b);
      TailMultiset(a);
      TailMultiset(b);
      OrderedTail(a);
      OrderedTail(b);
      OrderedUnique(a[1..], b[1..]);
      assert a == [a[0]] + a[1..] && b == [b[0]] + b[1..];
    }
  }

  // ----- the percentile -----

  datatype Outcome = NoData | Value(value: real) | IndexError

  /** `int(x)`: truncation toward zero. */
  function Truncate(x: real): int {
    if x >= 0.0 then x.Floor else -((-x).Floor)
  }

  predicate InRange(s: seq<real>, i: int) { -|s| <= i < |s| }

  /** `s[i]`, counting negative indexes from the end. */
  function At(s: seq<real>, i: int): real
    requires InRange(s, i)
  {
    if i >= 0 then s[i] else s[|s| + i]
  }

  function Rank(n: nat, pct: real): real { (n as real - 1.0) * (pct / 100.0) }

  function Blend(a: real, b: real, weight: real): real { a * (1.0 - weight) + b * weight }

  function Percentile(values: seq<real>, pct: real): Outcome {
    if |values| == 0 then NoData
    else if |values| == 1 then Value(values[0])
    else
      var ordered := Sorted(values);
      var rank := Rank(|ordered|, pct);
      var lower := Truncate(rank);
      var upper := if lower + 1 < |ordered| - 1 then lower + 1 else |ordered| - 1;
      var weight := rank - lower as real;
      if !InRange(ordered, lower) || !InRange(ordered, upper) then IndexError
      else Value(Blend(At(ordered, lower), At(ordered, upper), weight))
  }

  // ----- interpolation -----

  lemma Product(x: real, y: real)
    requires x >= 0.0 && y >= 0.0
    ensures x * y >= 0.0
  {
  }

  /** A weighted mean lies between its ends, and grows with the weight. */
  lemma Mean(a: real, b: real, v: real, w: real)
    requires a <= b && 0.0 <= v <= w <= 1.0
    ensures a <= Blend(a, b, v) <= Blend(a, b, w) <= b
  {
    Product(b - a, v);
    Product(b - a, w - v);
    Product(b - a, 1.0 - w);
    assert a * (1.0 - v) + b * v == a + (b - a) * v;
    assert a * (1.0 - w) + b * w == a + (b - a) * w == b - (b - a) * (1.0 - w);
    assert (b - a) * w == (b - a) * v + (b - a) * (w - v);
  }

  /** The piecewise-linear reading of an ordered sequence at position `x`. */
  function Reading(s: seq<real>, x: real): real
    requires |s| >= 2 && 0.0 <= x <= (|s| - 1) as real
  {
    var k := x.Floor;
    var u := if k + 1 < |s| - 1 then k + 1 else |s| - 1;
    Blend(s[k], s[u], x - k as real)
  }

  lemma ReadingMonotone(s: seq<real>, x: real, y: real)
    requires |s| >= 2 && Ordered(s) && 0.0 <= x <= y <= (|s| - 1) as real
    ensures s[0] <= Reading(s, x) <= Reading(s, y) <= s[|s| - 1]
  {
    hide Blend;
    var j, k := x.Floor, y.Floor;
    var u := if j + 1 < |s| - 1 then j + 1 else |s| - 1;
    var v := if k + 1 < |s| - 1 then k + 1 else |s| - 1;
    OrderedAt(s, 0, j);
    OrderedAt(s, j, u);
    OrderedAt(s, k, v);
    OrderedAt(s, v, |s| - 1);
    if j == k {
      Mean(s[j], s[u], x - j as real, y - j as real);
    } else {
      Mean(s[j], s[u], x - j as real, x - j as real);
      Mean(s[k], s[v], y - k as real, y - k as real);
      OrderedAt(s, u, k);
    }
  }

  lemma RankMonotone(n: nat, p: real, q: real)
    requires n >= 2 && 0.0 <= p <= q <= 100.0
    ensures 0.0 <= Rank(n, p) <= Rank(n, q) <= (n - 1) as real
  {
    var m := n as real - 1.0;
    Product(m, p / 100.0);
    Product(m, q / 100.0 - p / 100.0);
    Product(m, 1.0 - q / 100.0);
    assert m * (q / 100.0) == m * (p / 100.0) + m * (q / 100.0 - p / 100.0);
    assert m == m * (q / 100.0) + m * (1.0 - q / 100.0);
  }

  /** Between 0 and 100 the percentile is the reading of the sorted values; nothing fails there. */
  lemma PercentileIsReading(values: seq<real>, pct: real)
    requires |values| >= 2 && 0.0 <= pct <= 100.0
    ensures 0.0 <= Rank(|values|, pct) <= (|values| - 1) as real
    ensures Percentile(values, pct) == Value(Reading(Sorted(values), Rank(|values|, pct)))
  {
    RankMonotone(|values|, pct, pct);
  }

  /** In between, it runs straight from one sorted value to the next. */
  lemma PercentileIsLinear(values: seq<real>, pct: real, k: nat, w: real)
    requires |values| >= 2 && k < |values| - 1 && 0.0 <= w < 1.0
    requires 0.0 <= pct <= 100.0 && (|values| - 1) as real * (pct / 100.0) == k as real + w
    ensures Percentile(values, pct) == Value(Sorted(values)[k] + w * (Sorted(values)[k + 1] - Sorted(values)[k]))
  {
    hide Percentile, Reading, Sorted, Blend;
    PercentileIsReading(values, pct);
    assert Rank(|values|, pct) == k as real + w;
    ReadingIsLinear(Sorted(values), k, w);
  }

  lemma ReadingIsLinear(s: seq<real>, k: nat, w: real)
    requires k < |s| - 1 && 0.0 <= w < 1.0
    ensures Reading(s, k as real + w) == s[k] + w * (s[k + 1] - s[k])
  {
    assert (k as real + w).Floor == k;
    BlendIsLinear(s[k], s[k + 1], w);
  }

  lemma BlendIsLinear(a: real, b: real, w: real)
    ensures Blend(a, b, w) == a + w * (b - a)
  {
  }

  // ----- the promises -----

  ghost predicate IsMin(values: seq<real>, x: real) { x in values && forall y :: y in values ==> x <= y }

  ghost predicate IsMax(values: seq<real>, x: real) { x in values && forall y :: y in values ==> y <= x }

  lemma SortedEnds(values: seq<real>)
    requires values != []
    ensures var s := Sorted(values); |s| > 0 && IsMin(values, s[0]) && IsMax(values, s[|s| - 1])
  {
    var s := Sorted(values);
    assert s[0] in multiset(values) && s[|s| - 1] in multiset(values);
    forall y | y in values
      ensures s[0] <= y <= s[|s| - 1]
    {
      assert y in multiset(s);
      var i :| 0 <= i < |s| && s[i] == y;
      OrderedAt(s, 0, i);
      OrderedAt(s, i, |s| - 1);
    }
  }

  /** Every percentile in range is a number; it grows with the percentage, from the minimum to the maximum. */
  lemma PercentileMonotone(values: seq<real>, p: real, q: real)
    requires values != [] && 0.0 <= p <= q <= 100.0
    ensures var a, b := Percentile(values, p), Percentile(values, q);
            && a.Value? && b.Value? && a.value <= b.value
            && (forall m :: IsMin(values, m) ==> m <= a.value)
            && (forall m :: IsMax(values, m) ==> b.value <= m)
  {
    if |values| >= 2 {
      PercentileIsReading(values, p);
      PercentileIsReading(values, q);
      RankMonotone(|values|, p, q);
      ReadingMonotone(Sorted(values), Rank(|values|, p), Rank(|values|, q));
      SortedEnds(values);
    }
  }

  /** The extremes are reached, and in between the order statistics at the ranks that are whole. */
  lemma PercentileHits(values: seq<real>, k: nat)
    requires |values| >= 2 && k < |values|
    ensures Percentile(values, 100.0 * k as real / (|values| - 1) as real) == Value(Sorted(values)[k])
    ensures IsMin(values, Sorted(values)[0]) && IsMax(values, Sorted(values)[|values| - 1])
  {
    var m := (|values| - 1) as real;
    var p := 100.0 * k as real / m;
    WholeRank(k as real, m);
    assert Rank(|values|, p) == k as real;
    PercentileIsReading(values, p);
    SortedEnds(values);
  }

  lemma WholeRank(k: real, m: real)
    requires 0.0 <= k <= m && m > 0.0
    ensures 0.0 <= 100.0 * k / m <= 100.0 && m * ((100.0 * k / m) / 100.0) == k
  {
  }

  /** The order of the input does not matter. */
  lemma PercentileIgnoresOrder(a: seq<real>, b: seq<real>, pct: real)
    requires multiset(a) == multiset(b)
    ensures Percentile(a, pct) == Percentile(b, pct)
  {
    assert |a| == |multiset(a)| == |b|;
    OrderedUnique(Sorted(a), Sorted(b));
    if |a| == 1 {
      assert a[0] in multiset(b);
    }
    hide Sorted, Rank, Truncate, At, Ordered, Blend;
  }
}
