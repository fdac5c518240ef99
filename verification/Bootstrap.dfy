/** Bootstrap estimates over an arbitrary stream of draws: every statement about all streams is a
    statement about every seed. */
module Bootstrap {
  import opened Schemas
  import opened Sorting

  /** The k-th draw of the generator; a draw below `n` is its remainder. */
  type Stream = nat -> nat

  function Draw(rng: Stream, k: nat, n: nat): (i: nat)
    requires n > 0
    ensures i < n
  {
    rng(k) % n
  }

  function Sum(xs: seq<real>): real {
    if xs == [] then 0.0 else Sum(xs[..|xs| - 1]) + xs[|xs| - 1]
  }

  function Mean(xs: seq<real>): real {
    if xs == [] then 0.0 else Sum(xs) / |xs| as real
  }

  // -- what a mean is --------------------------------------------------------------------------------

  function Times(x: real, n: nat): real { x * n as real }

  lemma MeanTotals(xs: seq<real>)
    requires xs != []
    ensures Times(Mean(xs), |xs|) == Sum(xs)
  {
    var q, n := Sum(xs) / |xs| as real, |xs| as real;
    assert q * n == Sum(xs);
  }

  lemma OnlyQuotient(q: real, s: real, n: nat)
    requires n > 0 && Times(q, n) == s
    ensures s / n as real == q
  {
    var d := s / n as real;
    assert d * n as real == s;
    assert (d - q) * n as real == 0.0;
  }

  lemma TimesDistributes(a: real, b: real, n: nat)
    ensures Times(a + b, n) == Times(a, n) + Times(b, n)
  {}

  lemma MeanOfOne(x: real)
    ensures Mean([]) == 0.0
    ensures Mean([x]) == x
  {
    SumOfOne(x);
    OnlyQuotient(x, x, 1);
  }

  lemma {:induction false} SumJoins(xs: seq<real>, ys: seq<real>)
    ensures Sum(xs + ys) == Sum(xs) + Sum(ys)
    decreases |ys|
  {
    if ys == [] {
      assert xs + ys == xs;
    } else {
      SumJoins(xs, ys[..|ys| - 1]);
      assert (xs + ys)[..|xs + ys| - 1] == xs + ys[..|ys| - 1];
    }
  }

  /** A mean weighs every value alike: the mean of a whole is that of its parts, each by its size. */
  lemma MeanJoins(xs: seq<real>, ys: seq<real>)
    requires xs != [] && ys != []
    ensures Mean(xs + ys) * |xs + ys| as real == Mean(xs) * |xs| as real + Mean(ys) * |ys| as real
  {
    MeanTotals(xs);
    MeanTotals(ys);
    MeanTotals(xs + ys);
    SumJoins(xs, ys);
    hide Mean, Sum;
    assert Times(Mean(xs + ys), |xs + ys|) == Times(Mean(xs), |xs|) + Times(Mean(ys), |ys|);
  }

  function Without(xs: seq<real>, k: nat): seq<real>
    requires k < |xs|
  {
    xs[..k] + xs[k + 1..]
  }

  lemma WithoutSays(xs: seq<real>, k: nat)
    requires k < |xs|
    ensures multiset(Without(xs, k)) == multiset(xs) - multiset{xs[k]}
  {
    assert xs == xs[..k] + [xs[k]] + xs[k + 1..];
  }

  lemma SumOfOne(x: real)
    ensures Sum([x]) == x
  {
    assert [x][..0] == [] && Sum([]) == 0.0;
  }

  lemma SumWithout(xs: seq<real>, k: nat)
    requires k < |xs|
    ensures Sum(xs) == Sum(Without(xs, k)) + xs[k]
  {
    hide Sum;
    var a, b := xs[..k], xs[k + 1..];
    assert xs == (a + [xs[k]]) + b;
    SumJoins(a, b);
    SumJoins(a + [xs[k]], b);
    SumJoins(a, [xs[k]]);
    SumOfOne(xs[k]);
  }

  lemma {:induction false} SumRearranged(xs: seq<real>, ys: seq<real>)
    requires multiset(xs) == multiset(ys)
    ensures Sum(xs) == Sum(ys)
    decreases |xs|
  {
    assert |multiset(xs)| == |xs| && |multiset(ys)| == |ys|;
    if xs != [] {
      var n, last := |xs| - 1, xs[|xs| - 1];
      assert last in multiset(xs) && last in multiset(ys);
      var k :| 0 <= k < |ys| && ys[k] == last;
      SumWithout(xs, n);
      SumWithout(ys, k);
      WithoutSays(xs, n);
      WithoutSays(ys, k);
      hide Sum, Without;
      SumRearranged(Without(xs, n), Without(ys, k));
    }
  }

  /** The order of the values does not matter. */
  lemma MeanRearranged(xs: seq<real>, ys: seq<real>)
    requires multiset(xs) == multiset(ys)
    ensures Mean(xs) == Mean(ys)
  {
    assert |multiset(xs)| == |xs| && |multiset(ys)| == |ys|;
    SumRearranged(xs, ys);
  }

  /** Every value moved by the same amount. */
  function Shifted(xs: seq<real>, c: real): (ys: seq<real>)
    ensures |ys| == |xs| && forall i :: 0 <= i < |xs| ==> ys[i] == xs[i] + c
  {
    seq(|xs|, i requires 0 <= i < |xs| => xs[i] + c)
  }

  lemma {:induction false} SumShifted(xs: seq<real>, c: real)
    ensures Sum(Shifted(xs, c)) == Sum(xs) + Times(c, |xs|)
    decreases |xs|
  {
    if xs != [] {
      var init := xs[..|xs| - 1];
      SumShifted(init, c);
      assert Shifted(xs, c)[..|xs| - 1] == Shifted(init, c);
      OneMoreTimes(c, |init|);
      assert Times(c, |xs|) == Times(c, |init|) + c;
    }
  }

  lemma MeanShifts(xs: seq<real>, c: real)
    requires xs != []
    ensures Mean(Shifted(xs, c)) == Mean(xs) + c
  {
    MeanTotals(xs);
    SumShifted(xs, c);
    TimesDistributes(Mean(xs), c, |xs|);
    OnlyQuotient(Mean(xs) + c, Sum(Shifted(xs, c)), |xs|);
    hide Sum, Times;
  }

  // -- resampling --------------------------------------------------------------------------------------

  /** As many draws with replacement as there are data, starting at draw `from`. */
  function Resample(data: seq<real>, rng: Stream, from: nat): (xs: seq<real>)
    requires data != []
    ensures |xs| == |data|
  {
    seq(|data|, i requires 0 <= i < |data| => data[Draw(rng, from + i, |data|)])
  }

  lemma ResampleAt(data: seq<real>, rng: Stream, from: nat, i: nat)
    requires i < |data|
    ensures Resample(data, rng, from)[i] == data[Draw(rng, from + i, |data|)]
  {}

  /** The generator that draws these positions one after another. */
  function Drawing(picks: seq<nat>): Stream { (k: nat) => if k < |picks| then picks[k] else 0 }

  /** Every sample can be drawn: with the right generator the values drawn are those at the positions
      picked, in that order, from whichever draw the resample starts at. */
  lemma EverySampleIsDrawn(data: seq<real>, picks: seq<nat>, from: nat)
    requires data != [] && from + |data| <= |picks| && forall k :: 0 <= k < |picks| ==> picks[k] < |data|
    ensures forall i :: 0 <= i < |data| ==> Resample(data, Drawing(picks), from)[i] == data[picks[from + i]]
  {
    hide Drawing, Draw;
    forall i | 0 <= i < |data| ensures Resample(data, Drawing(picks), from)[i] == data[picks[from + i]] {
      ResampleAt(data, Drawing(picks), from, i);
      DrawOfPick(picks, from + i, |data|);
    }
  }

  lemma DrawOfPick(picks: seq<nat>, k: nat, n: nat)
    requires k < |picks| && picks[k] < n
    ensures Draw(Drawing(picks), k, n) == picks[k]
  {
    var p := picks[k];
    assert p % n == p;
  }

  predicate AtMost(a: real, b: real) { a <= b }

  predicate Within(xs: seq<real>, lo: real, hi: real) {
    forall i :: 0 <= i < |xs| ==> lo <= xs[i] <= hi
  }

  lemma {:induction false} SumWithin(xs: seq<real>, lo: real, hi: real)
    requires Within(xs, lo, hi)
    ensures lo * |xs| as real <= Sum(xs) <= hi * |xs| as real
    decreases |xs|
  {
    if xs != [] {
      var init, last := xs[..|xs| - 1], xs[|xs| - 1];
      SumWithin(init, lo, hi);
      OneMoreTimes(lo, |init|);
      OneMoreTimes(hi, |init|);
      assert Sum(xs) == Sum(init) + last;
      assert lo * |xs| as real == lo * |init| as real + lo;
      assert hi * |xs| as real == hi * |init| as real + hi;
      assert lo <= last <= hi;
    }
  }

  lemma OneMoreTimes(x: real, n: nat)
    ensures x * (n + 1) as real == x * n as real + x
  {}

  lemma QuotientBetween(s: real, n: nat, lo: real, hi: real)
    requires n > 0 && lo * n as real <= s <= hi * n as real
    ensures lo <= s / n as real <= hi
  {
    var q := s / n as real;
    assert q * n as real == s;
    assert (q - lo) * n as real >= 0.0 && (hi - q) * n as real >= 0.0;
  }

  lemma MeanWithin(xs: seq<real>, lo: real, hi: real)
    requires xs != [] && Within(xs, lo, hi)
    ensures lo <= Mean(xs) <= hi
  {
    SumWithin(xs, lo, hi);
    QuotientBetween(Sum(xs), |xs|, lo, hi);
  }

  lemma MeanOfResampleWithin(data: seq<real>, rng: Stream, from: nat, lo: real, hi: real)
    requires data != [] && Within(data, lo, hi)
    ensures lo <= Mean(Resample(data, rng, from)) <= hi
  {
    hide Mean;
    forall i | 0 <= i < |data| ensures lo <= Resample(data, rng, from)[i] <= hi { ResampleAt(data, rng, from, i); }
    hide Resample;
    MeanWithin(Resample(data, rng, from), lo, hi);
  }

  // -- the confidence interval ------------------------------------------------------------------

  /** The resample means, in the order they are drawn. */
  function Means(data: seq<real>, rng: Stream, iterations: nat): (ms: seq<real>)
    requires data != []
    ensures |ms| == iterations
  {
    seq(iterations, k requires 0 <= k < iterations => Mean(Resample(data, rng, k * |data|)))
  }

  /** Conversion to an integer drops the fraction, towards zero. */
  function Truncated(x: real): int {
    if x >= 0.0 then x.Floor else -(-x).Floor
  }

  /** Indexing counts from the end for negative indices and fails out of range. */
  function At(s: seq<real>, i: int): (r: Option<real>)
    ensures r.Some? <==> -|s| <= i < |s|
    ensures r.Some? ==> r.value == if i < 0 then s[|s| + i] else s[i]
  {
    if 0 <= i < |s| then Some(s[i])
    else if -|s| <= i < 0 then Some(s[|s| + i])
    else None
  }

  function LowPoint(confidence: real, iterations: int): real { (1.0 - confidence) / 2.0 * iterations as real }

  function HighPoint(confidence: real, iterations: int): real { (1.0 + confidence) / 2.0 * iterations as real }

  function LowIndex(confidence: real, iterations: int): int {
    Truncated(LowPoint(confidence, iterations))
  }

  function HighIndex(confidence: real, iterations: int): int {
    var i := Truncated(HighPoint(confidence, iterations));
    if iterations - 1 < i then iterations - 1 else i
  }

  function SortedMeans(data: seq<real>, rng: Stream, iterations: int): (ms: seq<real>)
    requires data != []
    ensures |ms| == if iterations < 0 then 0 else iterations
  {
    var ms := Means(data, rng, if iterations < 0 then 0 else iterations);
    assert |multiset(SortBy(ms, (a, b) => AtMost(a, b)))| == |multiset(ms)|;
    SortBy(ms, (a, b) => AtMost(a, b))
  }

  /** The percentile interval of the sorted resample means; None where a percentile's index is out of
      range. */
  method BootstrapInterval(data: seq<real>, confidence: real, iterations: int, rng: Stream)
    returns (interval: Option<(real, real)>)
    ensures data == [] ==> interval == Some((0.0, 0.0))
    ensures data != [] && 0.0 <= confidence <= 1.0 ==> (interval.Some? <==> iterations >= 1)
    ensures data != [] && 0.0 <= confidence <= 1.0 && interval.Some? ==>
              && interval.value.0 <= interval.value.1
              && forall lo, hi :: Within(data, lo, hi) ==> lo <= interval.value.0 && interval.value.1 <= hi
    ensures data != [] && iterations >= 1 ==>
              && var (ms, n) := (SortedMeans(data, rng, iterations), iterations);
              && var (low, high) := (LowIndex(confidence, n), HighIndex(confidence, n));
              && (interval.Some? <==> -n <= low < n && -n <= high)
              && (interval.Some? ==> interval.value == (ms[if low < 0 then n + low else low],
                                                        ms[if high < 0 then n + high else high]))
  {
    if data == [] { return Some((0.0, 0.0)); }
    var means := SortedMeans(data, rng, iterations);
    var lo, hi := At(means, LowIndex(confidence, iterations)), At(means, HighIndex(confidence, iterations));
    interval := if lo.Some? && hi.Some? then Some((lo.value, hi.value)) else None;
    hide SortedMeans, LowIndex, HighIndex;
    if 0.0 <= confidence <= 1.0 && iterations >= 1 {
      IndicesInRange(confidence, iterations);
      SortedMeansOrdered(data, rng, iterations, LowIndex(confidence, iterations), HighIndex(confidence, iterations));
      forall lo, hi | Within(data, lo, hi) ensures Within(means, lo, hi) {
        SortedMeansWithin(data, rng, iterations, lo, hi);
      }
    }
  }

  lemma Halved(confidence: real, n: int)
    requires 0.0 <= confidence <= 1.0 && n >= 1
    ensures 0.0 <= LowPoint(confidence, n) <= n as real / 2.0 <= HighPoint(confidence, n)
  {
    var d := confidence / 2.0 * n as real;
    assert d >= 0.0 && d <= n as real / 2.0;
    assert LowPoint(confidence, n) == n as real / 2.0 - d;
    assert HighPoint(confidence, n) == n as real / 2.0 + d;
  }

  lemma IndicesInRange(confidence: real, n: int)
    requires 0.0 <= confidence <= 1.0 && n >= 1
    ensures 0 <= LowIndex(confidence, n) <= HighIndex(confidence, n) < n
  {
    hide LowPoint, HighPoint;
    Halved(confidence, n);
    assert LowPoint(confidence, n).Floor <= n - 1;
  }

  lemma IndicesCover(confidence: real, n: int)
    requires 0.0 <= confidence <= 1.0 && n >= 1
    ensures (HighIndex(confidence, n) - LowIndex(confidence, n) + 1) as real >= confidence * n as real
    ensures LowIndex(confidence, n) as real <= (1.0 - confidence) * n as real / 2.0
    ensures (n - 1 - HighIndex(confidence, n)) as real <= (1.0 - confidence) * n as real / 2.0
  {
    Halved(confidence, n);
    var share, lo, hi := confidence * n as real, LowPoint(confidence, n), HighPoint(confidence, n);
    assert lo == (1.0 - confidence) * n as real / 2.0;
    assert hi - lo == share && lo + hi == n as real && share <= n as real;
  }

  /** The integer next to `x` on the side of zero, or `x` itself. */
  predicate TowardsZero(i: int, x: real) {
    if x >= 0.0 then i as real <= x < i as real + 1.0 else i as real - 1.0 < x <= i as real
  }

  /** The two percentiles, by their definition: the points that cut off half of the rest at either end,
      without their fraction, the upper one no later than the last mean. */
  lemma IndicesSay(confidence: real, n: int)
    ensures TowardsZero(LowIndex(confidence, n), (1.0 - confidence) / 2.0 * n as real)
    ensures var high := HighIndex(confidence, n);
            && high <= n - 1
            && (high != n - 1 ==> TowardsZero(high, (1.0 + confidence) / 2.0 * n as real))
            && (high == n - 1 ==> TowardsZero(high, (1.0 + confidence) / 2.0 * n as real)
                                  || high as real < (1.0 + confidence) / 2.0 * n as real)
  {
    hide LowPoint, HighPoint;
    PointsSay(confidence, n);
    TruncatedSays(LowPoint(confidence, n));
    TruncatedSays(HighPoint(confidence, n));
    hide Truncated;
  }

  lemma TruncatedSays(x: real)
    ensures TowardsZero(Truncated(x), x)
  {}

  lemma PointsSay(confidence: real, n: int)
    ensures LowPoint(confidence, n) == (1.0 - confidence) / 2.0 * n as real
    ensures HighPoint(confidence, n) == (1.0 + confidence) / 2.0 * n as real
  {}

  ghost function CountOf(xs: seq<real>, p: real -> bool): nat {
    if xs == [] then 0 else CountOf(xs[..|xs| - 1], p) + if p(xs[|xs| - 1]) then 1 else 0
  }

  function Between(lo: real, hi: real): real -> bool { x => lo <= x <= hi }

  function LessThan(lo: real): real -> bool { x => x < lo }

  function MoreThan(hi: real): real -> bool { x => x > hi }

  lemma {:induction false} InsertCounts(x: real, s: seq<real>, le: (real, real) -> bool, p: real -> bool)
    ensures CountOf(Insert(x, s, le), p) == CountOf(s, p) + if p(x) then 1 else 0
    decreases |s|
  {
    if s == [] {
      assert [x][..0] == [];
    } else if le(s[|s| - 1], x) {
      assert (s + [x])[..|s|] == s;
    } else {
      var rest := Insert(x, s[..|s| - 1], le);
      InsertCounts(x, s[..|s| - 1], le, p);
      assert (rest + [s[|s| - 1]])[..|rest|] == rest;
    }
  }

  /** Sorting changes no count. */
  lemma {:induction false} SortCounts(s: seq<real>, le: (real, real) -> bool, p: real -> bool)
    ensures CountOf(SortBy(s, le), p) == CountOf(s, p)
    decreases |s|
  {
    if s != [] {
      SortCounts(s[..|s| - 1], le, p);
      InsertCounts(s[|s| - 1], SortBy(s[..|s| - 1], le), le, p);
    }
  }

  lemma {:induction false} CountAtLeast(s: seq<real>, p: real -> bool, i: nat, j: nat)
    requires i <= j <= |s| && forall k :: i <= k < j ==> p(s[k])
    ensures CountOf(s, p) >= j - i
    decreases |s|
  {
    if s != [] && i < j { CountAtLeast(s[..|s| - 1], p, i, if j == |s| then j - 1 else j); }
  }

  lemma {:induction false} CountAtMost(s: seq<real>, p: real -> bool, i: nat, j: nat)
    requires i <= j <= |s| && forall k :: i <= k < j ==> !p(s[k])
    ensures CountOf(s, p) <= |s| - (j - i)
    decreases |s|
  {
    if s != [] {
      var n := |s|;
      CountAtMost(s[..n - 1], p, if i == n then n - 1 else i, if j == n then n - 1 else j);
    }
  }

  /** Of the means actually drawn, at least the asked-for share lies in the interval and at most half
      of the rest on either side of it. */
  lemma IntervalCoversConfidence(data: seq<real>, rng: Stream, confidence: real, n: int)
    requires data != [] && 0.0 <= confidence <= 1.0 && n >= 1
    ensures 0 <= LowIndex(confidence, n) <= HighIndex(confidence, n) < n
    ensures var ms, sorted := Means(data, rng, n), SortedMeans(data, rng, n);
            var lo, hi := sorted[LowIndex(confidence, n)], sorted[HighIndex(confidence, n)];
            && CountOf(ms, Between(lo, hi)) as real >= confidence * n as real
            && CountOf(ms, LessThan(lo)) as real <= (1.0 - confidence) * n as real / 2.0
            && CountOf(ms, MoreThan(hi)) as real <= (1.0 - confidence) * n as real / 2.0
  {
    hide Means, SortBy, LowIndex, HighIndex;
    IndicesInRange(confidence, n);
    IndicesCover(confidence, n);
    var sorted, low, high := SortedMeans(data, rng, n), LowIndex(confidence, n), HighIndex(confidence, n);
    IntervalCounts(data, rng, n, low, high);
  }

  lemma IntervalCounts(data: seq<real>, rng: Stream, n: int, low: nat, high: nat)
    requires data != [] && low <= high < n
    ensures var ms, sorted := Means(data, rng, n), SortedMeans(data, rng, n);
            && CountOf(ms, Between(sorted[low], sorted[high])) >= high - low + 1
            && CountOf(ms, LessThan(sorted[low])) <= low
            && CountOf(ms, MoreThan(sorted[high])) <= n - 1 - high
  {
    hide Means, SortBy;
    var ms, sorted := Means(data, rng, n), SortedMeans(data, rng, n);
    var lo, hi := sorted[low], sorted[high];
    assert sorted == SortBy(ms, (a, b) => AtMost(a, b));
    SortCounts(ms, (a, b) => AtMost(a, b), Between(lo, hi));
    SortCounts(ms, (a, b) => AtMost(a, b), LessThan(lo));
    SortCounts(ms, (a, b) => AtMost(a, b), MoreThan(hi));
    hide SortedMeans;
    forall k | 0 <= k < n ensures k >= low ==> lo <= sorted[k] {
      if k >= low { SortedMeansOrdered(data, rng, n, low, k); }
    }
    forall k | 0 <= k < n ensures k <= high ==> sorted[k] <= hi {
      if k <= high { SortedMeansOrdered(data, rng, n, k, high); }
    }
    CountAtLeast(sorted, Between(lo, hi), low, high + 1);
    CountAtMost(sorted, LessThan(lo), low, n);
    CountAtMost(sorted, MoreThan(hi), 0, high + 1);
  }

  lemma SortedMeansOrdered(data: seq<real>, rng: Stream, iterations: int, i: int, j: int)
    requires data != [] && 0 <= i <= j < iterations
    ensures SortedMeans(data, rng, iterations)[i] <= SortedMeans(data, rng, iterations)[j]
  {
    hide Means, SortBy;
    SortBySorted(Means(data, rng, iterations), (a, b) => AtMost(a, b));
    var sorted := SortedMeans(data, rng, iterations);
    assert i < j ==> AtMost(sorted[i], sorted[j]);
  }

  lemma MeansWithin(data: seq<real>, rng: Stream, iterations: nat, lo: real, hi: real)
    requires data != [] && Within(data, lo, hi)
    ensures Within(Means(data, rng, iterations), lo, hi)
  {
    hide Mean, Resample;
    forall k | 0 <= k < iterations ensures lo <= Means(data, rng, iterations)[k] <= hi {
      MeanOfResampleWithin(data, rng, k * |data|, lo, hi);
    }
  }

  lemma SortedMeansWithin(data: seq<real>, rng: Stream, iterations: nat, lo: real, hi: real)
    requires data != [] && Within(data, lo, hi)
    ensures Within(SortedMeans(data, rng, iterations), lo, hi)
  {
    hide Means, SortBy;
    var ms := Means(data, rng, iterations);
    MeansWithin(data, rng, iterations, lo, hi);
    var sorted := SortBy(ms, (a, b) => AtMost(a, b));
    SameMembers(sorted, ms);
    forall k | 0 <= k < |sorted| ensures lo <= sorted[k] <= hi { assert sorted[k] in sorted; }
  }

  /** Asking for more confidence on the same draws never narrows the interval. */
  lemma WiderWithConfidence(data: seq<real>, rng: Stream, iterations: int, c: real, c': real)
    requires data != [] && iterations >= 1 && 0.0 <= c <= c' <= 1.0
    ensures var ms := SortedMeans(data, rng, iterations);
            && 0 <= LowIndex(c', iterations) <= LowIndex(c, iterations) < |ms|
            && 0 <= HighIndex(c, iterations) <= HighIndex(c', iterations) < |ms|
            && ms[LowIndex(c', iterations)] <= ms[LowIndex(c, iterations)]
            && ms[HighIndex(c, iterations)] <= ms[HighIndex(c', iterations)]
  {
    hide SortedMeans, LowIndex, HighIndex;
    IndicesInRange(c, iterations);
    IndicesInRange(c', iterations);
    IndicesSpread(c, c', iterations);
    SortedMeansOrdered(data, rng, iterations, LowIndex(c', iterations), LowIndex(c, iterations));
    SortedMeansOrdered(data, rng, iterations, HighIndex(c, iterations), HighIndex(c', iterations));
  }

  lemma IndicesSpread(c: real, c': real, n: int)
    requires n >= 1 && 0.0 <= c <= c' <= 1.0
    ensures LowIndex(c', n) <= LowIndex(c, n) && HighIndex(c, n) <= HighIndex(c', n)
  {
    hide LowPoint, HighPoint;
    Halved(c, n);
    Halved(c', n);
    Spread(c, c', n);
    TruncatedMonotone(LowPoint(c', n), LowPoint(c, n));
    TruncatedMonotone(HighPoint(c, n), HighPoint(c', n));
  }

  lemma TruncatedMonotone(a: real, b: real)
    requires 0.0 <= a <= b
    ensures Truncated(a) <= Truncated(b)
  {}

  lemma Spread(c: real, c': real, n: int)
    requires c <= c' && n >= 1
    ensures LowPoint(c', n) <= LowPoint(c, n) && HighPoint(c, n) <= HighPoint(c', n)
  {
    var d := (c' - c) / 2.0 * n as real;
    assert d >= 0.0;
    assert LowPoint(c, n) - LowPoint(c', n) == d && HighPoint(c', n) - HighPoint(c, n) == d;
  }

  // -- moving all the data ---------------------------------------------------------------------------

  lemma ResampleShifts(data: seq<real>, c: real, rng: Stream, from: nat)
    requires data != []
    ensures Resample(Shifted(data, c), rng, from) == Shifted(Resample(data, rng, from), c)
  {
    var a, b := Resample(Shifted(data, c), rng, from), Shifted(Resample(data, rng, from), c);
    forall i | 0 <= i < |data| ensures a[i] == b[i] {
      ResampleAt(Shifted(data, c), rng, from, i);
      ResampleAt(data, rng, from, i);
    }
  }

  lemma MeansShift(data: seq<real>, c: real, rng: Stream, iterations: nat)
    requires data != []
    ensures Means(Shifted(data, c), rng, iterations) == Shifted(Means(data, rng, iterations), c)
  {
    hide Mean, Resample;
    forall k | 0 <= k < iterations
      ensures Means(Shifted(data, c), rng, iterations)[k] == Means(data, rng, iterations)[k] + c
    {
      ResampleShifts(data, c, rng, k * |data|);
      MeanShifts(Resample(data, rng, k * |data|), c);
    }
  }

  lemma ShiftedEnd(s: seq<real>, x: real, c: real)
    ensures Shifted(s + [x], c) == Shifted(s, c) + [x + c]
    ensures Shifted(s + [x], c)[..|s|] == Shifted(s, c)
  {}

  lemma {:induction false} InsertShifts(x: real, s: seq<real>, c: real, le: (real, real) -> bool)
    requires forall a, b :: le(a, b) <==> a <= b
    ensures Insert(x + c, Shifted(s, c), le) == Shifted(Insert(x, s, le), c)
    decreases |s|
  {
    hide Shifted;
    if s == [] {
      ShiftedEnd([], x, c);
      assert Shifted([], c) == [] && [] + [x] == [x] && [] + [x + c] == [x + c];
    } else {
      var init, last := s[..|s| - 1], s[|s| - 1];
      assert s == init + [last];
      ShiftedEnd(init, last, c);
      if last <= x {
        ShiftedEnd(s, x, c);
      } else {
        InsertShifts(x, init, c, le);
        ShiftedEnd(Insert(x, init, le), last, c);
      }
    }
  }

  lemma {:induction false} SortShifts(s: seq<real>, c: real, le: (real, real) -> bool)
    requires forall a, b :: le(a, b) <==> a <= b
    ensures SortBy(Shifted(s, c), le) == Shifted(SortBy(s, le), c)
    decreases |s|
  {
    hide Shifted, Insert;
    if s == [] {
      assert Shifted(s, c) == [];
    } else {
      var init, last := s[..|s| - 1], s[|s| - 1];
      assert s == init + [last];
      ShiftedEnd(init, last, c);
      SortShifts(init, c, le);
      InsertShifts(last, SortBy(init, le), c, le);
    }
  }

  /** Moving all the data moves the interval's ends by as much, whatever is drawn. */
  lemma IntervalShifts(data: seq<real>, c: real, rng: Stream, iterations: int, i: int)
    requires data != []
    ensures SortedMeans(Shifted(data, c), rng, iterations) == Shifted(SortedMeans(data, rng, iterations), c)
    ensures var (was, now) := (At(SortedMeans(data, rng, iterations), i),
                               At(SortedMeans(Shifted(data, c), rng, iterations), i));
            now == if was.Some? then Some(was.value + c) else None
  {
    hide Means, SortBy;
    var n := if iterations < 0 then 0 else iterations;
    MeansShift(data, c, rng, n);
    var le := (a: real, b: real) => AtMost(a, b);
    SortShifts(Means(data, rng, n), c, le);
  }

  /** Moving both arms by as much leaves every comparison as it was. */
  lemma {:induction false} CountShifts(treatment: seq<real>, baseline: seq<real>, c: real, rng: Stream, n: nat)
    requires treatment != [] && baseline != []
    ensures CountNotBetter(Shifted(treatment, c), Shifted(baseline, c), rng, n)
            == CountNotBetter(treatment, baseline, rng, n)
  {
    hide Mean, Resample, Start;
    if n > 0 {
      CountShifts(treatment, baseline, c, rng, n - 1);
      var from := Start(n - 1, |treatment| + |baseline|);
      ResampleShifts(treatment, c, rng, from);
      ResampleShifts(baseline, c, rng, from + |treatment|);
      MeanShifts(Resample(treatment, rng, from), c);
      MeanShifts(Resample(baseline, rng, from + |treatment|), c);
    }
  }

  // -- the no-improvement probability ---------------------------------------------------------------

  /** The first draw of the k-th comparison, which uses the draws of both arms in turn. */
  function Start(k: nat, perComparison: nat): nat { k * perComparison }

  predicate NotBetter(treatment: seq<real>, baseline: seq<real>, rng: Stream, k: nat)
    requires treatment != [] && baseline != []
  {
    var from := Start(k, |treatment| + |baseline|);
    Mean(Resample(treatment, rng, from)) <= Mean(Resample(baseline, rng, from + |treatment|))
  }

  ghost function CountNotBetter(treatment: seq<real>, baseline: seq<real>, rng: Stream, n: nat): (c: nat)
    requires treatment != [] && baseline != []
    ensures c <= n
  {
    if n == 0 then 0
    else CountNotBetter(treatment, baseline, rng, n - 1) + if NotBetter(treatment, baseline, rng, n - 1) then 1 else 0
  }

  ghost predicate Dominates(xs: seq<real>, ys: seq<real>) {
    forall x, y :: x in xs && y in ys ==> x > y
  }

  ghost predicate NeverExceeds(xs: seq<real>, ys: seq<real>) {
    forall x, y :: x in xs && y in ys ==> x <= y
  }

  function Ratio(c: int, n: int): real
    requires n != 0
  {
    c as real / n as real
  }

  /** The comparisons one after another, each on fresh draws of both arms. */
  method Compare(treatment: seq<real>, baseline: seq<real>, rounds: nat, rng: Stream) returns (notBetter: nat)
    requires treatment != [] && baseline != []
    ensures notBetter == CountNotBetter(treatment, baseline, rng, rounds)
  {
    hide Mean, Resample, Start, NotBetter, CountNotBetter;
    var nt, nb := |treatment|, |baseline|;
    var drawn := 0;
    notBetter := 0;
    StartStep(0, nt + nb);
    CountNone(treatment, baseline, rng);
    for k := 0 to rounds
      invariant drawn == Start(k, nt + nb)
      invariant notBetter == CountNotBetter(treatment, baseline, rng, k)
    {
      var mt := Mean(Resample(treatment, rng, drawn));
      var mb := Mean(Resample(baseline, rng, drawn + nt));
      StartStep(k, nt + nb);
      CountStep(treatment, baseline, rng, k);
      drawn := drawn + nt + nb;
      if mt <= mb { notBetter := notBetter + 1; }
    }
  }

  /** The share of comparisons in which the treatment is no better; None where there are no comparisons to
      divide by. */
  method NoImprovement(treatment: seq<real>, baseline: seq<real>, iterations: int, rng: Stream)
    returns (p: Option<real>)
    ensures p == None <==> |treatment| >= 2 && |baseline| >= 2 && iterations == 0
    ensures |treatment| < 2 || |baseline| < 2 ==> p == Some(1.0)
    ensures |treatment| >= 2 && |baseline| >= 2 && iterations >= 1 ==>
              && p == Some(Ratio(CountNotBetter(treatment, baseline, rng, iterations), iterations))
              && 0.0 <= p.value <= 1.0
              && ((forall x, y :: x in treatment && y in baseline ==> x > y) ==> p.value == 0.0)
              && ((forall x, y :: x in treatment && y in baseline ==> x <= y) ==> p.value == 1.0)
  {
    if |treatment| < 2 || |baseline| < 2 { return Some(1.0); }
    hide Ratio, CountNotBetter;
    var notBetter := Compare(treatment, baseline, if iterations < 0 then 0 else iterations, rng);
    if iterations == 0 { return None; }
    p := Some(Ratio(notBetter, iterations));
    if iterations >= 1 { ShareEnds(treatment, baseline, rng, iterations); }
  }

  /** The share that the count is of all comparisons. */
  lemma RatioSays(c: int, n: int)
    requires n != 0
    ensures Ratio(c, n) * n as real == c as real
  {}

  lemma CountNone(treatment: seq<real>, baseline: seq<real>, rng: Stream)
    requires treatment != [] && baseline != []
    ensures CountNotBetter(treatment, baseline, rng, 0) == 0
  {}

  lemma CountStep(treatment: seq<real>, baseline: seq<real>, rng: Stream, k: nat)
    requires treatment != [] && baseline != []
    ensures var from := Start(k, |treatment| + |baseline|);
            CountNotBetter(treatment, baseline, rng, k + 1)
            == CountNotBetter(treatment, baseline, rng, k)
               + if Mean(Resample(treatment, rng, from)) <= Mean(Resample(baseline, rng, from + |treatment|))
                 then 1 else 0
  {
    hide Mean, Resample, Start;
  }

  lemma ShareEnds(treatment: seq<real>, baseline: seq<real>, rng: Stream, n: nat)
    requires treatment != [] && baseline != [] && n > 0
    ensures var p := Ratio(CountNotBetter(treatment, baseline, rng, n), n);
            && 0.0 <= p <= 1.0
            && ((forall x, y :: x in treatment && y in baseline ==> x > y) ==> p == 0.0)
            && ((forall x, y :: x in treatment && y in baseline ==> x <= y) ==> p == 1.0)
  {
    hide Ratio, CountNotBetter;
    QuotientEnds(CountNotBetter(treatment, baseline, rng, n), n);
    if Dominates(treatment, baseline) { AlwaysBetter(treatment, baseline, rng, n); }
    if NeverExceeds(treatment, baseline) { NeverBetter(treatment, baseline, rng, n); }
  }

  lemma StartStep(k: nat, n: nat)
    ensures Start(0, n) == 0 && Start(k + 1, n) == Start(k, n) + n
  {}

  lemma QuotientEnds(c: nat, n: nat)
    requires n > 0 && c <= n
    ensures 0.0 <= Ratio(c, n) <= 1.0
    ensures c == 0 ==> Ratio(c, n) == 0.0
    ensures c == n ==> Ratio(c, n) == 1.0
  {
    QuotientBetween(c as real, n, 0.0, 1.0);
    if c == n { QuotientBetween(c as real, n, 1.0, 1.0); }
  }

  lemma {:induction false} AlwaysBetter(treatment: seq<real>, baseline: seq<real>, rng: Stream, n: nat)
    requires treatment != [] && baseline != [] && Dominates(treatment, baseline)
    ensures CountNotBetter(treatment, baseline, rng, n) == 0
  {
    hide Mean, Resample, Start, Dominates;
    if n > 0 {
      AlwaysBetter(treatment, baseline, rng, n - 1);
      var from := Start(n - 1, |treatment| + |baseline|);
      ResamplesSeparate(treatment, baseline, rng, from);
    }
  }

  lemma {:induction false} NeverBetter(treatment: seq<real>, baseline: seq<real>, rng: Stream, n: nat)
    requires treatment != [] && baseline != [] && NeverExceeds(treatment, baseline)
    ensures CountNotBetter(treatment, baseline, rng, n) == n
  {
    hide Mean, Resample, Start, NeverExceeds;
    if n > 0 {
      NeverBetter(treatment, baseline, rng, n - 1);
      var from := Start(n - 1, |treatment| + |baseline|);
      ResamplesOrdered(treatment, baseline, rng, from);
    }
  }

  lemma ResamplesOrdered(low: seq<real>, high: seq<real>, rng: Stream, from: nat)
    requires low != [] && high != [] && NeverExceeds(low, high)
    ensures Mean(Resample(low, rng, from)) <= Mean(Resample(high, rng, from + |low|))
  {
    hide Mean, Resample;
    var m := Greatest(low);
    MeanOfResampleWithin(low, rng, from, Smallest(low), m);
    forall i | 0 <= i < |high| ensures m <= high[i] { assert high[i] in high; }
    MeanOfResampleWithin(high, rng, from + |low|, m, Greatest(high));
  }

  /** Means keep a strict separation. */
  lemma ResamplesSeparate(high: seq<real>, low: seq<real>, rng: Stream, from: nat)
    requires low != [] && high != [] && Dominates(high, low)
    ensures Mean(Resample(high, rng, from)) > Mean(Resample(low, rng, from + |high|))
  {
    hide Mean, Resample;
    var m, m' := Greatest(low), Smallest(high);
    MeanOfResampleWithin(low, rng, from + |high|, Smallest(low), m);
    MeanOfResampleWithin(high, rng, from, m', Greatest(high));
  }

  ghost function Smallest(xs: seq<real>): (m: real)
    requires xs != []
    ensures m in xs && forall i :: 0 <= i < |xs| ==> m <= xs[i]
  {
    var last := xs[|xs| - 1];
    if |xs| == 1 then last
    else
      var r := Smallest(xs[..|xs| - 1]);
      if r < last then r else last
  }

  // -- better data, better estimate ----------------------------------------------------------------

  ghost predicate Below(xs: seq<real>, ys: seq<real>) {
    |xs| == |ys| && forall i :: 0 <= i < |xs| ==> xs[i] <= ys[i]
  }

  lemma {:induction false} SumMonotone(xs: seq<real>, ys: seq<real>)
    requires Below(xs, ys)
    ensures Sum(xs) <= Sum(ys)
    decreases |xs|
  {
    if xs != [] { SumMonotone(xs[..|xs| - 1], ys[..|ys| - 1]); }
  }

  lemma MeanMonotone(xs: seq<real>, ys: seq<real>)
    requires Below(xs, ys)
    ensures Mean(xs) <= Mean(ys)
  {
    SumMonotone(xs, ys);
    if xs != [] { QuotientMonotone(Sum(xs), Sum(ys), |xs|); }
  }

  lemma QuotientMonotone(a: real, b: real, n: nat)
    requires a <= b && n > 0
    ensures a / n as real <= b / n as real
  {
    assert (a / n as real) * n as real == a && (b / n as real) * n as real == b;
    assert (b / n as real - a / n as real) * n as real >= 0.0;
  }

  lemma BelowSize(xs: seq<real>, ys: seq<real>)
    requires Below(xs, ys)
    ensures |xs| == |ys|
  {}

  lemma ResamplesBelow(xs: seq<real>, ys: seq<real>, rng: Stream, from: nat)
    requires xs != [] && Below(xs, ys)
    ensures Below(Resample(xs, rng, from), Resample(ys, rng, from))
  {
    forall i | 0 <= i < |xs| ensures Resample(xs, rng, from)[i] <= Resample(ys, rng, from)[i] {
      ResampleAt(xs, rng, from, i);
      ResampleAt(ys, rng, from, i);
    }
  }

  /** Raising treatment values, or lowering baseline values, never raises the count. */
  lemma {:induction false} BetterDataHelps(t: seq<real>, t': seq<real>, b: seq<real>, b': seq<real>, rng: Stream,
                                           n: nat)
    requires t != [] && b != [] && t' != [] && b' != [] && Below(t, t') && Below(b', b)
    ensures CountNotBetter(t', b', rng, n) <= CountNotBetter(t, b, rng, n)
  {
    hide Mean, Start, Resample, Below;
    if n > 0 {
      BetterDataHelps(t, t', b, b', rng, n - 1);
      var from := Start(n - 1, |t| + |b|);
      BelowSize(t, t');
      BelowSize(b', b);
      ResamplesBelow(t, t', rng, from);
      ResamplesBelow(b', b, rng, from + |t|);
      MeanMonotone(Resample(t, rng, from), Resample(t', rng, from));
      MeanMonotone(Resample(b', rng, from + |t|), Resample(b, rng, from + |t|));
    }
  }
}
