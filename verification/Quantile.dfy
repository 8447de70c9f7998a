/** The benchmark script's interpolated quantile, over exact reals. */
module Quantile {

  predicate Ascending(s: seq<real>) {
    forall i, j :: 0 <= i <= j < |s| ==> s[i] <= s[j]
  }

  /** Putting a value into its place; folding it over a list sorts the list. */
  function Insert(x: real, s: seq<real>): (r: seq<real>)
    ensures |r| == |s| + 1
  {
    if s == [] || x <= s[0] then [x] + s else [s[0]] + Insert(x, s[1..])
  }

  function Sorted(s: seq<real>): (r: seq<real>)
    ensures |r| == |s|
  {
    if s == [] then [] else Insert(s[0], Sorted(s[1..]))
  }

  function Ceil(h: real): int { if h == h.Floor as real then h.Floor else h.Floor + 1 }

  /** The point that lies the share `t` of the distance `d` beyond `a`. */
  function Along(a: real, d: real, t: real): real { a + t * d }

  /** The value at position `h` between the samples. */
  function At(s: seq<real>, h: real): real
    requires s != [] && 0.0 <= h <= (|s| - 1) as real
  {
    var lo, hi := h.Floor, Ceil(h);
    if lo == hi then s[lo] else Along(s[lo], s[hi] - s[lo], h - lo as real)
  }

  function Position(n: nat, q: real): (h: real)
    requires n >= 1 && 0.0 <= q <= 1.0
    ensures 0.0 <= h <= (n - 1) as real
  {
    Scaled(q, (n - 1) as real);
    Along(0.0, (n - 1) as real, q)
  }

  lemma Product(x: real, y: real)
    requires x >= 0.0 && y >= 0.0
    ensures x * y >= 0.0
  {
  }

  lemma Scaled(t: real, d: real)
    requires 0.0 <= t <= 1.0 && d >= 0.0
    ensures 0.0 <= t * d <= d
  {
    var rest := 1.0 - t;
    Product(t, d);
    Product(rest, d);
    assert rest * d == d - t * d;
  }

  function Quantile(values: seq<real>, q: real): real
    requires 0.0 <= q <= 1.0
  {
    if values == [] then 0.0
    else
      var sorted := Sorted(values);
      if |sorted| == 1 then sorted[0] else At(sorted, Position(|sorted|, q))
  }

  // ---------------------------------------------------------------- sorting

  lemma {:induction false} InsertAscends(x: real, s: seq<real>)
    requires Ascending(s)
    ensures Ascending(Insert(x, s))
    ensures Insert(x, s)[0] == if s == [] || x <= s[0] then x else s[0]
  {
    if s != [] && x > s[0] {
      InsertAscends(x, s[1..]);
      var t := Insert(x, s[1..]);
      assert forall k :: 0 <= k < |t| ==> t[0] <= t[k];
      assert s[0] <= t[0];
    }
  }

  lemma {:induction false} InsertContents(x: real, s: seq<real>)
    ensures multiset(Insert(x, s)) == multiset{x} + multiset(s)
  {
    if s != [] && x > s[0] {
      InsertContents(x, s[1..]);
      Split(s);
    }
  }

  lemma Split(s: seq<real>)
    requires s != []
    ensures multiset(s) == multiset{s[0]} + multiset(s[1..])
  {
    assert s == [s[0]] + s[1..];
  }

  lemma {:induction false} SortedAscends(s: seq<real>)
    ensures Ascending(Sorted(s))
  {
    if s != [] {
      SortedAscends(s[1..]);
      InsertAscends(s[0], Sorted(s[1..]));
    }
  }

  lemma {:induction false} SortedContents(s: seq<real>)
    ensures multiset(Sorted(s)) == multiset(s)
  {
    if s != [] {
      SortedContents(s[1..]);
      InsertContents(s[0], Sorted(s[1..]));
      Split(s);
    }
  }

  lemma Shared(a: seq<real>, b: seq<real>, i: nat) returns (j: nat)
    requires multiset(a) == multiset(b) && i < |a|
    ensures j < |b| && b[j] == a[i]
  {
    assert a[i] in multiset(a) && a[i] in multiset(b);
    j :| 0 <= j < |b| && b[j] == a[i];
  }

  lemma SameLength(a: seq<real>, b: seq<real>)
    requires multiset(a) == multiset(b)
    ensures |a| == |b|
  {
    assert |multiset(a)| == |a| && |multiset(b)| == |b|;
  }

  lemma TailsAgree(a: seq<real>, b: seq<real>)
    requires a != [] && b != [] && a[0] == b[0] && multiset(a) == multiset(b)
    ensures multiset(a[1..]) == multiset(b[1..])
  {
    Split(a);
    Split(b);
    assert multiset(a[1..]) == multiset(a) - multiset{a[0]};
    assert multiset(b[1..]) == multiset(b) - multiset{b[0]};
  }

  /** An ascending list is determined by what it contains. */
  lemma {:induction false} AscendingUnique(a: seq<real>, b: seq<real>)
    requires Ascending(a) && Ascending(b) && multiset(a) == multiset(b)
    ensures a == b
  {
    SameLength(a, b);
    if a != [] {
      var j := Shared(a, b, 0);
      var i := Shared(b, a, 0);
      assert b[0] <= b[j] && a[0] <= a[i];
      TailsAgree(a, b);
      AscendingUnique(a[1..], b[1..]);
      assert a == [a[0]] + a[1..] && b == [b[0]] + b[1..];
    }
  }

  // ---------------------------------------------------------------- interpolation

  lemma AlongWithin(a: real, d: real, t: real)
    requires d >= 0.0 && 0.0 <= t <= 1.0
    ensures a <= Along(a, d, t) <= a + d
  {
    Scaled(t, d);
  }

  lemma AlongGrows(a: real, d: real, t: real, u: real)
    requires d >= 0.0 && t <= u
    ensures Along(a, d, t) <= Along(a, d, u)
  {
    var more := u - t;
    Product(more, d);
    assert more * d == u * d - t * d;
  }

  /** Between two neighbours. */
  lemma AtBetween(s: seq<real>, h: real)
    requires s != [] && Ascending(s) && 0.0 <= h <= (|s| - 1) as real
    ensures s[h.Floor] <= At(s, h) <= s[Ceil(h)]
  {
    var lo, hi := h.Floor, Ceil(h);
    if lo != hi { AlongWithin(s[lo], s[hi] - s[lo], h - lo as real); }
  }

  /** Within one gap between samples. */
  lemma AtMonotoneInside(s: seq<real>, g: real, h: real)
    requires s != [] && Ascending(s) && 0.0 <= g <= h <= (|s| - 1) as real && g.Floor == h.Floor
    ensures At(s, g) <= At(s, h)
  {
    var lo := g.Floor;
    if g == lo as real {
      AtBetween(s, h);
    } else {
      AlongGrows(s[lo], s[lo + 1] - s[lo], g - lo as real, h - lo as real);
    }
  }

  lemma AtMonotone(s: seq<real>, g: real, h: real)
    requires s != [] && Ascending(s) && 0.0 <= g <= h <= (|s| - 1) as real
    ensures At(s, g) <= At(s, h)
  {
    if g.Floor == h.Floor {
      AtMonotoneInside(s, g, h);
    } else {
      AtBetween(s, g);
      AtBetween(s, h);
      assert Ceil(g) <= h.Floor;
    }
  }

  // ---------------------------------------------------------------- the quantile

  /** The quantile lies between the bounds of the samples. */
  lemma QuantileBetween(values: seq<real>, q: real, least: real, greatest: real)
    requires values != [] && 0.0 <= q <= 1.0
    requires forall v :: v in values ==> least <= v <= greatest
    ensures least <= Quantile(values, q) <= greatest
  {
    var s := Sorted(values);
    SortedAscends(values);
    SortedContents(values);
    forall k | 0 <= k < |s| ensures least <= s[k] <= greatest {
      var j := Shared(s, values, k);
      assert values[j] in values;
    }
    if |s| > 1 { AtBetween(s, Position(|s|, q)); }
  }

  lemma PositionMonotone(n: nat, p: real, q: real)
    requires n >= 1 && 0.0 <= p <= q <= 1.0
    ensures Position(n, p) <= Position(n, q)
  {
    AlongGrows(0.0, (n - 1) as real, p, q);
  }

  lemma QuantileMonotone(values: seq<real>, p: real, q: real)
    requires 0.0 <= p <= q <= 1.0
    ensures Quantile(values, p) <= Quantile(values, q)
  {
    if |values| > 1 {
      var s := Sorted(values);
      SortedAscends(values);
      PositionMonotone(|s|, p, q);
      AtMonotone(s, Position(|s|, p), Position(|s|, q));
    }
  }

  lemma QuantileIgnoresOrder(a: seq<real>, b: seq<real>, q: real)
    requires multiset(a) == multiset(b) && 0.0 <= q <= 1.0
    ensures Quantile(a, q) == Quantile(b, q)
  {
    SameLength(a, b);
    SortedAscends(a);
    SortedAscends(b);
    SortedContents(a);
    SortedContents(b);
    AscendingUnique(Sorted(a), Sorted(b));
  }

  // ---------------------------------------------------------------- order statistics

  /** How many samples are less than `x`, and how many are at most `x`. */
  function Below(s: seq<real>, x: real): nat {
    if s == [] then 0 else (if s[0] < x then 1 else 0) + Below(s[1..], x)
  }

  function UpTo(s: seq<real>, x: real): nat {
    if s == [] then 0 else (if s[0] <= x then 1 else 0) + UpTo(s[1..], x)
  }

  lemma {:induction false} InsertCounts(y: real, s: seq<real>, x: real)
    ensures Below(Insert(y, s), x) == Below(s, x) + if y < x then 1 else 0
    ensures UpTo(Insert(y, s), x) == UpTo(s, x) + if y <= x then 1 else 0
  {
    if s == [] || y <= s[0] {
      assert ([y] + s)[1..] == s;
    } else {
      InsertCounts(y, s[1..], x);
      assert ([s[0]] + Insert(y, s[1..]))[1..] == Insert(y, s[1..]);
    }
  }

  lemma {:induction false} SortedCounts(s: seq<real>, x: real)
    ensures Below(Sorted(s), x) == Below(s, x) && UpTo(Sorted(s), x) == UpTo(s, x)
  {
    if s != [] {
      SortedCounts(s[1..], x);
      InsertCounts(s[0], Sorted(s[1..]), x);
    }
  }

  lemma {:induction false} RankInOrder(s: seq<real>, k: nat)
    requires Ascending(s) && k < |s|
    ensures Below(s, s[k]) <= k < UpTo(s, s[k])
  {
    if k > 0 {
      RankInOrder(s[1..], k - 1);
      assert s[0] <= s[k];
    } else {
      NoneBelow(s, s[0]);
    }
  }

  lemma {:induction false} NoneBelow(s: seq<real>, x: real)
    requires forall k :: 0 <= k < |s| ==> x <= s[k]
    ensures Below(s, x) == 0
  {
    if s != [] { NoneBelow(s[1..], x); }
  }

  lemma Divided(k: real, n: real)
    requires 0.0 <= k <= n && n > 0.0
    ensures 0.0 <= k / n <= 1.0 && n * (k / n) == k
  {
  }

  lemma PositionOfSample(n: nat, k: nat)
    requires n > 1 && k < n
    ensures 0.0 <= k as real / (n - 1) as real <= 1.0
    ensures Position(n, k as real / (n - 1) as real) == k as real
  {
    Divided(k as real, (n - 1) as real);
  }

  lemma AtSample(s: seq<real>, k: nat)
    requires k < |s|
    ensures At(s, k as real) == s[k]
  {
    assert (k as real).Floor == k;
  }

  /** Without samples the quantile is zero, and of one sample it is the sample. */
  lemma QuantileOfFew(x: real, q: real)
    requires 0.0 <= q <= 1.0
    ensures Quantile([], q) == 0.0 && Quantile([x], q) == x
  {
    assert Sorted([x]) == [x];
  }

  /** `v` lies the share `t` of the way from `x` to `y`. */
  ghost predicate IsBlend(v: real, x: real, y: real, t: real) { v - x == t * (y - x) }

  lemma AtBlends(s: seq<real>, k: nat, t: real)
    requires k + 1 < |s| && 0.0 <= t <= 1.0
    ensures IsBlend(At(s, k as real + t), s[k], s[k + 1], t)
  {
    var h := k as real + t;
    if t == 1.0 {
      assert h == (k + 1) as real;
      AtSample(s, k + 1);
    } else {
      assert h.Floor == k;
      if t == 0.0 { AtSample(s, k); }
    }
  }

  lemma QuantileAtPosition(values: seq<real>, q: real, h: real)
    requires |values| > 1 && 0.0 <= q <= 1.0 && q * (|values| - 1) as real == h
    ensures 0.0 <= h <= (|values| - 1) as real && Quantile(values, q) == At(Sorted(values), h)
  {
    Scaled(q, (|values| - 1) as real);
    assert Position(|values|, q) == h;
  }

  /** Between two neighbouring ranks, those of `p` and `q`, it moves in a straight line from the one order
      statistic to the other. */
  lemma QuantileInterpolates(values: seq<real>, k: nat, t: real, p: real, q: real, r: real)
    requires k + 1 < |values| && 0.0 <= t <= 1.0 && 0.0 <= p <= 1.0 && 0.0 <= q <= 1.0 && 0.0 <= r <= 1.0
    requires p * (|values| - 1) as real == k as real && q * (|values| - 1) as real == (k + 1) as real
    requires r * (|values| - 1) as real == k as real + t
    ensures IsBlend(Quantile(values, r), Quantile(values, p), Quantile(values, q), t)
  {
    var s, h := Sorted(values), k as real + t;
    assert Quantile(values, p) == s[k] by { QuantileAtPosition(values, p, k as real); AtSample(s, k); }
    assert Quantile(values, q) == s[k + 1] by { QuantileAtPosition(values, q, (k + 1) as real); AtSample(s, k + 1); }
    assert Quantile(values, r) == At(s, h) by { QuantileAtPosition(values, r, h); }
    AtBlends(s, k, t);
  }

  lemma QuantileOfRank(values: seq<real>, k: nat)
    requires |values| > 1 && k < |values|
    ensures 0.0 <= k as real / (|values| - 1) as real <= 1.0
    ensures Quantile(values, k as real / (|values| - 1) as real) == Sorted(values)[k]
  {
    PositionOfSample(|values|, k);
    AtSample(Sorted(values), k);
  }

  /** At q = k / (n - 1) the quantile is the k-th order statistic: a sample with at most k samples
      below it and more than k up to it. */
  lemma QuantileAtSample(values: seq<real>, k: nat)
    requires |values| > 1 && k < |values|
    ensures 0.0 <= k as real / (|values| - 1) as real <= 1.0
    ensures var x := Quantile(values, k as real / (|values| - 1) as real);
            x in values && Below(values, x) <= k < UpTo(values, x)
  {
    var s := Sorted(values);
    QuantileOfRank(values, k);
    SortedAscends(values);
    SortedContents(values);
    var j := Shared(s, values, k);
    RankInOrder(s, k);
    SortedCounts(values, s[k]);
  }
}
