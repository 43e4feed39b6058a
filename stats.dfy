/** The numeric library semantics the engine relies on, over exact reals:
    sums and dot products (numpy sum, np.dot), minimum and maximum, sorting,
    np.percentile with its default linear interpolation, and
    scipy.stats.percentileofscore with its default kind='rank'. */
module Stats {
  import opened Common

  function Sum(s: seq<real>): real {
    if |s| == 0 then 0.0 else s[0] + Sum(s[1..])
  }

  /** np.dot of two equally long vectors. */
  function Dot(ws: seq<real>, hs: seq<real>): real
    requires |ws| == |hs|
  {
    if |ws| == 0 then 0.0 else ws[0] * hs[0] + Dot(ws[1..], hs[1..])
  }

  function Min(s: seq<real>): (m: real)
    requires |s| > 0
    ensures m in s
    ensures forall i :: 0 <= i < |s| ==> m <= s[i]
  {
    if |s| == 1 then s[0]
    else
      var rest := Min(s[1..]);
      assert forall i :: 1 <= i < |s| ==> s[i] == s[1..][i - 1];
      if s[0] <= rest then s[0] else rest
  }

  function Max(s: seq<real>): (m: real)
    requires |s| > 0
    ensures m in s
    ensures forall i :: 0 <= i < |s| ==> s[i] <= m
  {
    if |s| == 1 then s[0]
    else
      var rest := Max(s[1..]);
      assert forall i :: 1 <= i < |s| ==> s[i] == s[1..][i - 1];
      if s[0] >= rest then s[0] else rest
  }

  /** The arithmetic mean, sum / len. */
  function Mean(s: seq<real>): real
    requires |s| > 0
  {
    Sum(s) / (|s| as real)
  }

  predicate NonNegative(s: seq<real>) {
    forall i :: 0 <= i < |s| ==> s[i] >= 0.0
  }

  // ---------------------------------------------------------------------
  // Sums and dot products
  // ---------------------------------------------------------------------

  lemma {:induction false} SumAppend(a: seq<real>, b: seq<real>)
    ensures Sum(a + b) == Sum(a) + Sum(b)
  {
    if |a| == 0 {
      assert a + b == b;
    } else {
      assert (a + b)[1..] == a[1..] + b;
      SumAppend(a[1..], b);
    }
  }

  /** Every element at least m: the sum is at least len * m. */
  lemma {:induction false} SumLower(s: seq<real>, m: real)
    requires forall i :: 0 <= i < |s| ==> m <= s[i]
    ensures (|s| as real) * m <= Sum(s)
  {
    if |s| > 0 {
      assert forall i :: 0 <= i < |s| - 1 ==> s[1..][i] == s[i + 1];
      SumLower(s[1..], m);
    }
  }

  /** Every element at most m: the sum is at most len * m. */
  lemma {:induction false} SumUpper(s: seq<real>, m: real)
    requires forall i :: 0 <= i < |s| ==> s[i] <= m
    ensures Sum(s) <= (|s| as real) * m
  {
    if |s| > 0 {
      assert forall i :: 0 <= i < |s| - 1 ==> s[1..][i] == s[i + 1];
      SumUpper(s[1..], m);
    }
  }

  /** The mean of a non-empty list lies between its minimum and its maximum. */
  lemma {:induction false} MeanBetween(s: seq<real>)
    requires |s| > 0
    ensures Min(s) <= Mean(s) <= Max(s)
  {
    var n := |s| as real;
    var lo, hi, total := Min(s), Max(s), Sum(s);
    assert Mean(s) == total / n;
    SumLower(s, lo);
    SumUpper(s, hi);
    DivBetween(total, n, lo, hi);
  }

  lemma DivBetween(total: real, n: real, lo: real, hi: real)
    requires n > 0.0 && n * lo <= total <= n * hi
    ensures lo <= total / n <= hi
  {
  }

  lemma MulDivCancel(n: real, m: real)
    requires n > 0.0
    ensures n * m / n == m
  {
  }

  lemma MulBounds(f: real, d: real)
    requires 0.0 <= f <= 1.0 && d >= 0.0
    ensures 0.0 <= f * d
    ensures f * d <= d
  {
  }

  lemma {:induction false} DotLower(ws: seq<real>, hs: seq<real>, m: real)
    requires |ws| == |hs| && NonNegative(ws)
    requires forall i :: 0 <= i < |hs| ==> m <= hs[i]
    ensures m * Sum(ws) <= Dot(ws, hs)
  {
    if |ws| > 0 {
      assert ws[0] * (hs[0] - m) >= 0.0;
      assert NonNegative(ws[1..]) by {
        assert forall i :: 0 <= i < |ws| - 1 ==> ws[1..][i] == ws[i + 1];
      }
      assert forall i :: 0 <= i < |hs| - 1 ==> hs[1..][i] == hs[i + 1];
      DotLower(ws[1..], hs[1..], m);
    }
  }

  lemma {:induction false} DotUpper(ws: seq<real>, hs: seq<real>, m: real)
    requires |ws| == |hs| && NonNegative(ws)
    requires forall i :: 0 <= i < |hs| ==> hs[i] <= m
    ensures Dot(ws, hs) <= m * Sum(ws)
  {
    if |ws| > 0 {
      assert ws[0] * (m - hs[0]) >= 0.0;
      assert NonNegative(ws[1..]) by {
        assert forall i :: 0 <= i < |ws| - 1 ==> ws[1..][i] == ws[i + 1];
      }
      assert forall i :: 0 <= i < |hs| - 1 ==> hs[1..][i] == hs[i + 1];
      DotUpper(ws[1..], hs[1..], m);
    }
  }

  /** Appending one pair adds its product: the running sum of a loop. */
  lemma {:induction false} DotSnoc(ws: seq<real>, hs: seq<real>, w: real, h: real)
    requires |ws| == |hs|
    ensures Dot(ws + [w], hs + [h]) == Dot(ws, hs) + w * h
  {
    if |ws| == 0 {
      assert ws + [w] == [w] && hs + [h] == [h];
    } else {
      assert (ws + [w])[1..] == ws[1..] + [w];
      assert (hs + [h])[1..] == hs[1..] + [h];
      DotSnoc(ws[1..], hs[1..], w, h);
    }
  }

  /** Non-negative weights summing to 1 make the dot product a convex
      combination: it lies between the smallest and the largest score. */
  lemma ConvexCombination(ws: seq<real>, hs: seq<real>)
    requires |ws| == |hs| > 0 && NonNegative(ws) && Sum(ws) == 1.0
    ensures Min(hs) <= Dot(ws, hs) <= Max(hs)
  {
    DotLower(ws, hs, Min(hs));
    DotUpper(ws, hs, Max(hs));
  }

  // ---------------------------------------------------------------------
  // Sorting
  // ---------------------------------------------------------------------

  predicate Sorted(s: seq<real>) {
    forall i, j :: 0 <= i < j < |s| ==> s[i] <= s[j]
  }

  function Insert(x: real, s: seq<real>): (r: seq<real>)
    requires Sorted(s)
    ensures |r| == |s| + 1
    ensures Sorted(r)
    ensures multiset(r) == multiset(s) + multiset{x}
  {
    if |s| == 0 then [x]
    else if x <= s[0] then
      SortedCons(x, s);
      [x] + s
    else
      SortedTail(s);
      var t := Insert(x, s[1..]);
      assert s == [s[0]] + s[1..];
      assert forall k :: 0 <= k < |t| ==> s[0] <= t[k] by {
        forall k | 0 <= k < |t| ensures s[0] <= t[k] {
          assert t[k] in multiset(t);
        }
      }
      SortedCons(s[0], t);
      [s[0]] + t
  }

  /** A lower bound of a sorted sequence can go in front of it. */
  lemma SortedCons(a: real, t: seq<real>)
    requires Sorted(t) && forall k :: 0 <= k < |t| ==> a <= t[k]
    ensures Sorted([a] + t)
  {
    forall i, j | 0 <= i < j < |t| + 1 ensures ([a] + t)[i] <= ([a] + t)[j] {
      assert ([a] + t)[j] == t[j - 1];
      if i > 0 {
        assert ([a] + t)[i] == t[i - 1];
      }
    }
  }

  /** The values in ascending order: sorted, and a permutation of the input. */
  function Sort(s: seq<real>): (r: seq<real>)
    ensures |r| == |s|
    ensures Sorted(r)
    ensures multiset(r) == multiset(s)
  {
    if |s| == 0 then []
    else
      assert s == [s[0]] + s[1..];
      Insert(s[0], Sort(s[1..]))
  }

  /** A sorted permutation is unique, so Sort depends only on the multiset
      of its input, not on the order of the input. */
  lemma {:induction false} SortedUnique(a: seq<real>, b: seq<real>)
    requires Sorted(a) && Sorted(b) && multiset(a) == multiset(b)
    ensures a == b
  {
    assert |a| == |b| by {
      assert |a| == |multiset(a)| && |b| == |multiset(b)|;
    }
    if |a| > 0 {
      SortedHeadIsLeast(a, b);
      SortedHeadIsLeast(b, a);
      assert a == [a[0]] + a[1..];
      assert b == [b[0]] + b[1..];
      assert multiset(a[1..]) == multiset(b[1..]) by {
        assert multiset(a) == multiset([a[0]]) + multiset(a[1..]);
        assert multiset(b) == multiset([a[0]]) + multiset(b[1..]);
        assert multiset(a[1..]) == multiset(a) - multiset([a[0]]);
        assert multiset(b[1..]) == multiset(b) - multiset([a[0]]);
      }
      SortedTail(a);
      SortedTail(b);
      SortedUnique(a[1..], b[1..]);
    }
  }

  lemma SortedTail(a: seq<real>)
    requires Sorted(a) && |a| > 0
    ensures Sorted(a[1..])
  {
    forall i, j | 0 <= i < j < |a| - 1 ensures a[1..][i] <= a[1..][j] {
      assert a[1..][i] == a[i + 1] && a[1..][j] == a[j + 1];
    }
  }

  /** The head of a sorted sequence is at most every member of a permutation of it. */
  lemma SortedHeadIsLeast(a: seq<real>, b: seq<real>)
    requires Sorted(a) && |a| > 0 && |b| > 0 && multiset(a) == multiset(b)
    ensures a[0] <= b[0]
  {
    assert b[0] in multiset(a);
    var i :| 0 <= i < |a| && a[i] == b[0];
    assert i == 0 || a[0] <= a[i];
  }

  lemma SortOrderFree(xs: seq<real>, ys: seq<real>)
    requires multiset(xs) == multiset(ys)
    ensures Sort(xs) == Sort(ys)
  {
    SortedUnique(Sort(xs), Sort(ys));
  }

  /** The ends of the sorted values are the minimum and the maximum. */
  lemma SortEnds(xs: seq<real>)
    requires |xs| > 0
    ensures |Sort(xs)| == |xs|
    ensures Sort(xs)[0] == Min(xs) && Sort(xs)[|xs| - 1] == Max(xs)
  {
    var s := Sort(xs);
    SortedFirstIsMin(s, xs);
    SortedLastIsMax(s, xs);
  }

  lemma SortedFirstIsMin(s: seq<real>, xs: seq<real>)
    requires Sorted(s) && |s| > 0 && |xs| > 0 && multiset(s) == multiset(xs)
    ensures s[0] == Min(xs)
  {
    assert Min(xs) in multiset(s);
    var i :| 0 <= i < |s| && s[i] == Min(xs);
    assert s[0] <= s[i];
    assert s[0] in multiset(xs);
    var a :| 0 <= a < |xs| && xs[a] == s[0];
  }

  lemma SortedLastIsMax(s: seq<real>, xs: seq<real>)
    requires Sorted(s) && |s| > 0 && |xs| > 0 && multiset(s) == multiset(xs)
    ensures s[|s| - 1] == Max(xs)
  {
    assert Max(xs) in multiset(s);
    var j :| 0 <= j < |s| && s[j] == Max(xs);
    assert s[j] <= s[|s| - 1];
    assert s[|s| - 1] in multiset(xs);
    var b :| 0 <= b < |xs| && xs[b] == s[|s| - 1];
  }

  // ---------------------------------------------------------------------
  // np.percentile, linear interpolation
  // ---------------------------------------------------------------------

  /** The interpolated value at percentile p of sorted values s: with the
      rank r = p / 100 * (n - 1), s[floor r] + (r - floor r) * (s[ceil r] - s[floor r]).
      The rank is kept exact as the integer p * (n - 1) over 100. */
  function Interpolate(s: seq<real>, p: int): real
    requires |s| > 0 && 0 <= p <= 100
  {
    var num := p * (|s| - 1);
    RankInRange(|s|, p);
    var lo := num / 100;
    var hi := if num % 100 == 0 then lo else lo + 1;
    s[lo] + ((num % 100) as real / 100.0) * (s[hi] - s[lo])
  }

  lemma RankInRange(n: int, p: int)
    requires n > 0 && 0 <= p <= 100
    ensures 0 <= p * (n - 1) <= 100 * (n - 1)
    ensures 0 <= (p * (n - 1)) / 100 <= n - 1
    ensures (p * (n - 1)) % 100 != 0 ==> (p * (n - 1)) / 100 < n - 1
  {
    ProductBound(p, n - 1);
    RankBound(p * (n - 1), n - 1);
  }

  lemma ProductBound(p: int, m: int)
    requires 0 <= p <= 100 && m >= 0
    ensures 0 <= p * m <= 100 * m
  {
    assert (100 - p) * m >= 0;
    assert (100 - p) * m == 100 * m - p * m;
  }

  /** The floor of num / 100 for 0 <= num <= 100 m: it is at most m, and
      strictly below m when the division leaves a remainder. */
  lemma RankBound(num: int, m: int)
    requires 0 <= num <= 100 * m
    ensures 0 <= num / 100 <= m
    ensures num % 100 != 0 ==> num / 100 < m
  {
    assert num == 100 * (num / 100) + num % 100;
  }

  lemma RankDecomposition(n: int, p: int)
    requires n > 0 && 0 <= p <= 100
    ensures var r := (p as real) / 100.0 * ((n - 1) as real);
            var lo := (p * (n - 1)) / 100;
            var frac := ((p * (n - 1)) % 100) as real / 100.0;
            lo as real <= r < lo as real + 1.0 && frac == r - lo as real
            && (frac == 0.0 <==> r == lo as real)
  {
    var num := p * (n - 1);
    var lo := num / 100;
    var m := num % 100;
    assert num == 100 * lo + m;
    assert (num as real) == 100.0 * (lo as real) + (m as real);
    assert (p as real) * ((n - 1) as real) == num as real;
    assert (p as real) / 100.0 * ((n - 1) as real) == (num as real) / 100.0;
  }

  /** np.percentile(xs, p): numpy rejects p outside [0, 100] first, then an
      empty array. */
  function Percentile(xs: seq<real>, p: int): Result<real> {
    if p < 0 || p > 100 then Err(PercentileOutOfRange)
    else if |xs| == 0 then Err(EmptyHistory)
    else Ok(Interpolate(Sort(xs), p))
  }

  lemma PercentileErrors(xs: seq<real>, p: int)
    ensures Percentile(xs, p).Err? <==> (p < 0 || p > 100 || |xs| == 0)
    ensures (p < 0 || p > 100) ==> Percentile(xs, p) == Err(PercentileOutOfRange)
    ensures 0 <= p <= 100 && |xs| == 0 ==> Percentile(xs, p) == Err(EmptyHistory)
  {
  }

  lemma InterpolateBetween(s: seq<real>, p: int)
    requires |s| > 0 && 0 <= p <= 100 && Sorted(s)
    ensures s[0] <= Interpolate(s, p) <= s[|s| - 1]
  {
    var num := p * (|s| - 1);
    RankInRange(|s|, p);
    var lo := num / 100;
    var hi := if num % 100 == 0 then lo else lo + 1;
    var frac := (num % 100) as real / 100.0;
    assert Interpolate(s, p) == s[lo] + frac * (s[hi] - s[lo]);
    InterpolateStep(s, lo, hi, frac);
  }

  /** One interpolation step between two ordered positions stays between
      the ends of a sorted sequence. */
  lemma InterpolateStep(s: seq<real>, lo: int, hi: int, frac: real)
    requires Sorted(s) && 0 <= lo <= hi < |s| && 0.0 <= frac <= 1.0
    ensures s[0] <= s[lo] + frac * (s[hi] - s[lo]) <= s[|s| - 1]
  {
    var a, b := s[lo], s[hi];
    assert s[0] <= a <= b <= s[|s| - 1];
    var d := b - a;
    MulBounds(frac, d);
    var e := frac * d;
    assert 0.0 <= e;
    assert e <= d;
  }

  lemma {:induction false} PercentileBetween(xs: seq<real>, p: int)
    requires |xs| > 0 && 0 <= p <= 100
    ensures Percentile(xs, p).Ok?
    ensures Min(xs) <= Percentile(xs, p).value <= Max(xs)
    ensures p == 0 ==> Percentile(xs, p).value == Min(xs)
    ensures p == 100 ==> Percentile(xs, p).value == Max(xs)
  {
    var s := Sort(xs);
    SortEnds(xs);
    InterpolateBetween(s, p);
    InterpolateBottom(s);
    InterpolateTop(s);
  }

  lemma InterpolateBottom(s: seq<real>)
    requires |s| > 0
    ensures Interpolate(s, 0) == s[0]
  {
    var num := 0 * (|s| - 1);
    assert num / 100 == 0 && num % 100 == 0;
  }

  lemma InterpolateTop(s: seq<real>)
    requires |s| > 0
    ensures Interpolate(s, 100) == s[|s| - 1]
  {
    var num := 100 * (|s| - 1);
    assert num / 100 == |s| - 1 && num % 100 == 0;
  }

  /** Reordering the values does not change the threshold. */
  lemma PercentileOrderFree(xs: seq<real>, ys: seq<real>, p: int)
    requires multiset(xs) == multiset(ys)
    ensures Percentile(xs, p) == Percentile(ys, p)
  {
    SortOrderFree(xs, ys);
    assert |xs| == |multiset(xs)| == |multiset(ys)| == |ys|;
  }

  // ---------------------------------------------------------------------
  // scipy percentileofscore, kind='rank'
  // ---------------------------------------------------------------------

  function CountBelow(s: seq<real>, v: real): nat {
    if |s| == 0 then 0 else (if s[0] < v then 1 else 0) + CountBelow(s[1..], v)
  }

  function CountAtMost(s: seq<real>, v: real): nat {
    if |s| == 0 then 0 else (if s[0] <= v then 1 else 0) + CountAtMost(s[1..], v)
  }

  lemma {:induction false} CountsOrdered(s: seq<real>, v: real)
    ensures CountBelow(s, v) <= CountAtMost(s, v) <= |s|
  {
    if |s| > 0 {
      CountsOrdered(s[1..], v);
    }
  }

  lemma {:induction false} CountsAppend(a: seq<real>, b: seq<real>, v: real)
    ensures CountBelow(a + b, v) == CountBelow(a, v) + CountBelow(b, v)
    ensures CountAtMost(a + b, v) == CountAtMost(a, v) + CountAtMost(b, v)
  {
    if |a| == 0 {
      assert a + b == b;
    } else {
      assert (a + b)[0] == a[0];
      assert (a + b)[1..] == a[1..] + b;
      CountsAppend(a[1..], b, v);
    }
  }

  /** One copy of the same value can be taken from both sides. */
  lemma Cancel(x: real, a: multiset<real>, b: multiset<real>)
    requires multiset{x} + a == multiset{x} + b
    ensures a == b
  {
    assert forall y :: a[y] == (multiset{x} + a)[y] - multiset{x}[y];
  }

  /** Taking out the value at one index leaves the rest of the multiset. */
  lemma RemoveOne(ys: seq<real>, i: int)
    requires 0 <= i < |ys|
    ensures multiset(ys) == multiset{ys[i]} + multiset(ys[..i] + ys[i + 1..])
  {
    assert ys == ys[..i] + ([ys[i]] + ys[i + 1..]);
  }

  /** Both counts depend only on the multiset of the values. */
  lemma {:induction false} CountsOrderFree(xs: seq<real>, ys: seq<real>, v: real)
    requires multiset(xs) == multiset(ys)
    ensures CountBelow(xs, v) == CountBelow(ys, v)
    ensures CountAtMost(xs, v) == CountAtMost(ys, v)
    decreases |xs|
  {
    if |xs| == 0 {
      assert |ys| == |multiset(ys)| == 0;
    } else {
      var x := xs[0];
      assert x in multiset(ys);
      var i :| 0 <= i < |ys| && ys[i] == x;
      var front, back := ys[..i], ys[i + 1..];
      RemoveOne(ys, i);
      assert xs == [x] + xs[1..];
      assert multiset(xs) == multiset{x} + multiset(xs[1..]);
      Cancel(x, multiset(xs[1..]), multiset(front + back));
      CountsOrderFree(xs[1..], front + back, v);
      CountsSplice(ys, i, v);
    }
  }

  /** Taking out one value changes each count by that value's own share. */
  lemma CountsSplice(ys: seq<real>, i: int, v: real)
    requires 0 <= i < |ys|
    ensures CountBelow(ys, v) == (if ys[i] < v then 1 else 0) + CountBelow(ys[..i] + ys[i + 1..], v)
    ensures CountAtMost(ys, v) == (if ys[i] <= v then 1 else 0) + CountAtMost(ys[..i] + ys[i + 1..], v)
  {
    var front, mid := ys[..i], ys[i..];
    assert ys == front + mid;
    assert mid[1..] == ys[i + 1..];
    CountsAppend(front, ys[i + 1..], v);
    CountsAppend(front, mid, v);
  }

  /** (left + right + (1 if right > left else 0)) * 50 / n with left the
      number of values below the score and right the number at most the score. */
  function PercentileOfScore(s: seq<real>, v: real): real
    requires |s| > 0
  {
    var left := CountBelow(s, v);
    var right := CountAtMost(s, v);
    ((left + right + (if right > left then 1 else 0)) as real) * 50.0 / (|s| as real)
  }

  /** The rank of any score is a percentage. */
  lemma PercentileOfScoreRange(s: seq<real>, v: real)
    requires |s| > 0
    ensures 0.0 <= PercentileOfScore(s, v) <= 100.0
  {
    var left := CountBelow(s, v);
    var right := CountAtMost(s, v);
    CountsOrdered(s, v);
    var k := left + right + (if right > left then 1 else 0);
    assert k <= 2 * |s|;
    ScaledCount(k, |s|);
  }

  /** The percentile rank depends only on the multiset of the values, so
      the order of the groups does not matter to it either. */
  lemma PercentileOfScoreOrderFree(xs: seq<real>, ys: seq<real>, v: real)
    requires |xs| > 0 && multiset(xs) == multiset(ys)
    ensures |ys| > 0 && PercentileOfScore(xs, v) == PercentileOfScore(ys, v)
  {
    assert |xs| == |multiset(xs)| == |multiset(ys)| == |ys|;
    CountsOrderFree(xs, ys, v);
  }

  lemma ScaledCount(k: int, n: int)
    requires n > 0 && 0 <= k <= 2 * n
    ensures 0.0 <= (k as real) * 50.0 / (n as real) <= 100.0
  {
  }

  /** A score above every value ranks at 100, one below every value at 0. */
  lemma PercentileOfScoreAbove(s: seq<real>, v: real)
    requires |s| > 0
    requires forall i :: 0 <= i < |s| ==> s[i] < v
    ensures PercentileOfScore(s, v) == 100.0
  {
    CountAllBelow(s, v);
    var n := |s| as real;
    assert ((|s| + |s|) as real) * 50.0 == 100.0 * n;
    MulDivCancel(n, 100.0);
    assert 100.0 * n / n == n * 100.0 / n;
  }

  lemma PercentileOfScoreBelow(s: seq<real>, v: real)
    requires |s| > 0
    requires forall i :: 0 <= i < |s| ==> v < s[i]
    ensures PercentileOfScore(s, v) == 0.0
  {
    CountNoneAtMost(s, v);
  }

  lemma {:induction false} CountAllBelow(s: seq<real>, v: real)
    requires forall i :: 0 <= i < |s| ==> s[i] < v
    ensures CountBelow(s, v) == |s| == CountAtMost(s, v)
  {
    if |s| > 0 {
      assert forall i :: 0 <= i < |s| - 1 ==> s[1..][i] == s[i + 1];
      CountAllBelow(s[1..], v);
    }
  }

  lemma {:induction false} CountNoneAtMost(s: seq<real>, v: real)
    requires forall i :: 0 <= i < |s| ==> v < s[i]
    ensures CountBelow(s, v) == 0 == CountAtMost(s, v)
  {
    if |s| > 0 {
      assert forall i :: 0 <= i < |s| - 1 ==> s[1..][i] == s[i + 1];
      CountNoneAtMost(s[1..], v);
    }
  }
}
