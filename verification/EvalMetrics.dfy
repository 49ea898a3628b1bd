/** Percentiles, judge scores and means reported by an evaluation run. */
module EvalMetrics {
  import opened Wrappers

  // ------------------------------------------------------------ nearest-rank percentiles

  predicate Ordered(s: seq<real>)
  {
    forall i, j | 0 <= i < j < |s| :: s[i] <= s[j]
  }

  function Insert(x: real, s: seq<real>): seq<real>
  {
    if s == [] || x <= s[0] then [x] + s else [s[0]] + Insert(x, s[1..])
  }

  function Sort(s: seq<real>): seq<real>
  {
    if s == [] then [] else Insert(s[0], Sort(s[1..]))
  }

  lemma {:induction false} InsertKeeps(x: real, s: seq<real>)
    ensures multiset(Insert(x, s)) == multiset(s) + multiset{x}
  {
    if s != [] && x > s[0] {
      InsertKeeps(x, s[1..]);
      assert s == [s[0]] + s[1..];
    }
  }

  lemma {:induction false} InsertSorts(x: real, s: seq<real>)
    requires Ordered(s)
    ensures Ordered(Insert(x, s))
  {
    if s != [] && x > s[0] {
      InsertSorts(x, s[1..]);
      InsertKeeps(x, s[1..]);
      AllAbove(s[0], x, s[1..], Insert(x, s[1..]));
    }
  }

  lemma AllAbove(low: real, x: real, s: seq<real>, t: seq<real>)
    requires multiset(t) == multiset(s) + multiset{x} && low <= x && forall i | 0 <= i < |s| :: low <= s[i]
    ensures forall i | 0 <= i < |t| :: low <= t[i]
  {
    forall i | 0 <= i < |t| ensures low <= t[i] {
      assert t[i] in multiset(t);
      assert t[i] == x || t[i] in s;
    }
  }

  lemma SameLength(a: seq<real>, b: seq<real>)
    requires multiset(a) == multiset(b)
    ensures |a| == |b|
  {
    assert |a| == |multiset(a)|;
  }

  lemma {:induction false} SortSorts(s: seq<real>)
    ensures Ordered(Sort(s)) && multiset(Sort(s)) == multiset(s) && |Sort(s)| == |s|
  {
    if s != [] {
      SortSorts(s[1..]);
      InsertSorts(s[0], Sort(s[1..]));
      InsertKeeps(s[0], Sort(s[1..]));
      assert s == [s[0]] + s[1..];
    }
    SameLength(Sort(s), s);
  }

  lemma HeadIsLeast(a: seq<real>, y: real)
    requires Ordered(a) && y in multiset(a)
    ensures a[0] <= y
  {
    var i :| 0 <= i < |a| && a[i] == y;
  }

  lemma TailOf(a: seq<real>)
    requires a != []
    ensures multiset(a[1..]) == multiset(a) - multiset{a[0]}
  {
    assert a == [a[0]] + a[1..];
  }

  lemma TailsAgree(a: seq<real>, b: seq<real>)
    requires Ordered(a) && Ordered(b) && multiset(a) == multiset(b) && a != [] && b != []
    ensures a[0] == b[0] && multiset(a[1..]) == multiset(b[1..])
  {
    HeadIsLeast(a, b[0]);
    HeadIsLeast(b, a[0]);
    TailOf(a);
    TailOf(b);
  }

  lemma OrderedTail(a: seq<real>)
    requires Ordered(a) && a != []
    ensures Ordered(a[1..])
  {
  }

  /** A sample has one ordering. */
  lemma {:induction false} OrderedIsUnique(a: seq<real>, b: seq<real>)
    requires Ordered(a) && Ordered(b) && multiset(a) == multiset(b)
    ensures a == b
  {
    SameLength(a, b);
    if a != [] {
      TailsAgree(a, b);
      OrderedTail(a);
      OrderedTail(b);
      OrderedIsUnique(a[1..], b[1..]);
      assert a == [a[0]] + a[1..] && b == [b[0]] + b[1..];
    }
  }

  /** Python's `round`: to the nearest integer, ties to the even one. */
  function RoundHalfEven(x: real): int
  {
    var below := x.Floor;
    var rest := x - below as real;
    if rest < 0.5 || (rest == 0.5 && below % 2 == 0) then below else below + 1
  }

  /** Rounding moves by at most a half, and lands on an even number when it moves by one. */
  lemma RoundIsNearest(x: real)
    ensures var r := RoundHalfEven(x) as real;
            x - 0.5 <= r <= x + 0.5 && ((r == x - 0.5 || r == x + 0.5) ==> RoundHalfEven(x) % 2 == 0)
  {
  }

  lemma RoundIsMonotone(x: real, y: real)
    requires x <= y
    ensures RoundHalfEven(x) <= RoundHalfEven(y)
  {
    RoundIsNearest(x);
    RoundIsNearest(y);
  }

  /** The sample index nearest a position, kept inside the sample. */
  function Nearest(n: nat, position: real): (i: nat)
    requires n > 0
    ensures i < n
  {
    var i := RoundHalfEven(position);
    if i < 0 then 0 else if i > n - 1 then n - 1 else i
  }

  function Rank(n: nat, fraction: real): (i: nat)
    requires n > 0
    ensures i < n
  {
    Nearest(n, fraction * (n - 1) as real)
  }

  function Percentile(values: seq<real>, fraction: real): real
  {
    if values == [] then 0.0
    else
      var ordered := Sort(values);
      SortSorts(values);
      ordered[Rank(|ordered|, fraction)]
  }

  lemma Scaled(f: real, g: real, k: real)
    requires f <= g && k >= 0.0
    ensures f * k <= g * k
  {
    var gap := g - f;
    assert gap * k >= 0.0;
    assert g * k == f * k + gap * k;
  }

  lemma RankIsNearest(n: nat, fraction: real, x: real)
    requires n > 0 && x == fraction * (n - 1) as real
    ensures Rank(n, fraction) == Nearest(n, x)
  {
  }

  lemma NearestIsClosest(n: nat, position: real)
    requires n > 0 && 0.0 <= position <= (n - 1) as real
    ensures position - 0.5 <= Nearest(n, position) as real <= position + 0.5
  {
    RoundIsNearest(position);
  }

  lemma PositionInSample(n: nat, fraction: real) returns (position: real)
    requires n > 0 && 0.0 <= fraction <= 1.0
    ensures position == fraction * (n - 1) as real && 0.0 <= position <= (n - 1) as real
  {
    position := fraction * (n - 1) as real;
    Scaled(0.0, fraction, (n - 1) as real);
    Scaled(fraction, 1.0, (n - 1) as real);
  }

  /** The rank is the sample index nearest the fraction's place between the first and the last. */
  lemma RankIsClosest(n: nat, fraction: real)
    requires n > 0 && 0.0 <= fraction <= 1.0
    ensures var position := fraction * (n - 1) as real;
            position - 0.5 <= Rank(n, fraction) as real <= position + 0.5
  {
    var position := PositionInSample(n, fraction);
    RankIsNearest(n, fraction, position);
    NearestIsClosest(n, position);
  }

  /** The extremes are the least and the greatest sample. */
  lemma PercentileExtremes(values: seq<real>, x: real)
    requires values != [] && x in values
    ensures Percentile(values, 0.0) <= x <= Percentile(values, 1.0)
  {
    SortSorts(values);
    var ordered, n := Sort(values), |values|;
    assert x in multiset(ordered);
    var i :| 0 <= i < |ordered| && ordered[i] == x;
    RankIsClosest(n, 0.0);
    RankIsClosest(n, 1.0);
    assert Rank(n, 0.0) == 0 && Rank(n, 1.0) == n - 1;
  }

  lemma PercentileIsASample(values: seq<real>, fraction: real)
    requires values != []
    ensures Percentile(values, fraction) in values
  {
    SortSorts(values);
    var p := Percentile(values, fraction);
    assert p in multiset(Sort(values));
  }

  lemma PercentileIgnoresOrder(a: seq<real>, b: seq<real>, fraction: real)
    requires multiset(a) == multiset(b)
    ensures Percentile(a, fraction) == Percentile(b, fraction)
  {
    SortSorts(a);
    SortSorts(b);
    OrderedIsUnique(Sort(a), Sort(b));
    SameLength(a, b);
  }

  lemma NearestIsMonotone(n: nat, x: real, y: real)
    requires n > 0 && x <= y
    ensures Nearest(n, x) <= Nearest(n, y)
  {
    RoundIsMonotone(x, y);
  }

  lemma PositionIsMonotone(n: nat, f: real, g: real) returns (x: real, y: real)
    requires n > 0 && f <= g
    ensures x == f * (n - 1) as real && y == g * (n - 1) as real && x <= y
  {
    x, y := f * (n - 1) as real, g * (n - 1) as real;
    Scaled(f, g, (n - 1) as real);
  }

  lemma RankIsMonotone(n: nat, f: real, g: real)
    requires n > 0 && f <= g
    ensures Rank(n, f) <= Rank(n, g)
  {
    var x, y := PositionIsMonotone(n, f, g);
    RankIsNearest(n, f, x);
    RankIsNearest(n, g, y);
    NearestIsMonotone(n, x, y);
  }

  lemma PercentileIsMonotone(values: seq<real>, f: real, g: real)
    requires f <= g
    ensures Percentile(values, f) <= Percentile(values, g)
  {
    if values != [] {
      SortSorts(values);
      RankIsMonotone(|values|, f, g);
    }
  }

  function CountAtMost(s: seq<real>, x: real): nat
  {
    if s == [] then 0 else (if s[0] <= x then 1 else 0) + CountAtMost(s[1..], x)
  }

  lemma {:induction false} InsertCounts(v: real, s: seq<real>, x: real)
    ensures CountAtMost(Insert(v, s), x) == CountAtMost(s, x) + if v <= x then 1 else 0
  {
    if s == [] || v <= s[0] {
      assert ([v] + s)[1..] == s;
    } else {
      InsertCounts(v, s[1..], x);
      assert ([s[0]] + Insert(v, s[1..]))[1..] == Insert(v, s[1..]);
    }
  }

  lemma {:induction false} SortCounts(s: seq<real>, x: real)
    ensures CountAtMost(Sort(s), x) == CountAtMost(s, x)
  {
    if s != [] {
      SortCounts(s[1..], x);
      InsertCounts(s[0], Sort(s[1..]), x);
    }
  }

  lemma {:induction false} PrefixCounts(s: seq<real>, k: nat, x: real)
    requires k <= |s| && forall j | 0 <= j < k :: s[j] <= x
    ensures CountAtMost(s, x) >= k
  {
    if k > 0 {
      PrefixCounts(s[1..], k - 1, x);
    }
  }

  lemma {:induction false} SuffixDoesNotCount(s: seq<real>, k: nat, x: real)
    requires k <= |s| && forall j | k <= j < |s| :: s[j] > x
    ensures CountAtMost(s, x) <= k
  {
    if s != [] {
      SuffixDoesNotCount(s[1..], if k > 0 then k - 1 else 0, x);
    }
  }

  lemma RankCovers(ordered: seq<real>, i: nat, x: real)
    requires Ordered(ordered) && i < |ordered|
    ensures CountAtMost(ordered, ordered[i]) >= i + 1
    ensures x < ordered[i] ==> CountAtMost(ordered, x) <= i
  {
    PrefixCounts(ordered, i + 1, ordered[i]);
    if x < ordered[i] {
      SuffixDoesNotCount(ordered, i, x);
    }
  }

  /** The percentile covers its rank: more samples than its index lie at or below it, and no
      smaller value has that many. */
  lemma PercentileCoversRank(values: seq<real>, fraction: real, x: real)
    requires values != []
    ensures CountAtMost(values, Percentile(values, fraction)) >= Rank(|values|, fraction) + 1
    ensures x < Percentile(values, fraction) ==> CountAtMost(values, x) <= Rank(|values|, fraction)
  {
    SortSorts(values);
    SortCounts(values, Percentile(values, fraction));
    SortCounts(values, x);
    RankCovers(Sort(values), Rank(|values|, fraction), x);
  }

  // ------------------------------------------------------------ judge scores

  datatype Criterion = Criterion(name: string, weight: real, low: real, high: real)

  function Clamp(x: real): (r: real)
    ensures 0.0 <= r <= 1.0 && (0.0 <= x <= 1.0 ==> r == x)
  {
    if x < 0.0 then 0.0 else if x > 1.0 then 1.0 else x
  }

  /** A missing or non-numeric answer, or a scale with no width, counts as nothing. */
  function Normalize(answer: Option<real>, c: Criterion): (r: real)
    ensures 0.0 <= r <= 1.0
  {
    if answer.None? || c.high <= c.low then 0.0
    else Clamp((answer.value - c.low) / (c.high - c.low))
  }

  /** An answer on the scale is placed where it lies between the ends; one off it counts as the
      nearer end. */
  lemma NormalizeMeans(x: real, c: Criterion)
    requires c.low < c.high
    ensures c.low <= x <= c.high ==> Normalize(Some(x), c) == (x - c.low) / (c.high - c.low)
    ensures x <= c.low ==> Normalize(Some(x), c) == 0.0
    ensures x >= c.high ==> Normalize(Some(x), c) == 1.0
  {
    ClampedQuotient(x - c.low, c.high - c.low);
  }

  lemma ClampedQuotient(a: real, width: real)
    requires width > 0.0
    ensures 0.0 <= a <= width ==> Clamp(a / width) == a / width
    ensures a <= 0.0 ==> Clamp(a / width) == 0.0
    ensures a >= width ==> Clamp(a / width) == 1.0
  {
    SelfQuotient(width);
    if a <= 0.0 {
      Divided(a, 0.0, width);
    } else {
      Divided(0.0, a, width);
    }
    if a >= width {
      Divided(width, a, width);
    } else {
      Divided(a, width, width);
    }
  }

  lemma SelfQuotient(d: real)
    requires d > 0.0
    ensures d / d == 1.0 && 0.0 / d == 0.0
  {
  }

  function Answer(judged: map<string, real>, c: Criterion): Option<real>
  {
    if c.name in judged then Some(judged[c.name]) else None
  }

  predicate Proportions(values: seq<real>)
  {
    forall i | 0 <= i < |values| :: 0.0 <= values[i] <= 1.0
  }

  /** The normalised answer to each criterion. */
  function Breakdown(rubric: seq<Criterion>, judged: map<string, real>): (values: seq<real>)
    ensures |values| == |rubric| && Proportions(values)
  {
    seq(|rubric|, i requires 0 <= i < |rubric| => Normalize(Answer(judged, rubric[i]), rubric[i]))
  }

  function Sum(s: seq<real>): real
  {
    if s == [] then 0.0 else Sum(s[..|s| - 1]) + s[|s| - 1]
  }

  lemma {:induction false} SumIsMonotone(a: seq<real>, b: seq<real>)
    requires |a| == |b| && forall i | 0 <= i < |a| :: a[i] <= b[i]
    ensures Sum(a) <= Sum(b)
    decreases |a|
  {
    if a != [] {
      SumIsMonotone(a[..|a| - 1], b[..|b| - 1]);
    }
  }

  lemma {:induction false} SumIsNonNegative(a: seq<real>)
    requires forall i | 0 <= i < |a| :: 0.0 <= a[i]
    ensures 0.0 <= Sum(a)
  {
    if a != [] {
      SumIsNonNegative(a[..|a| - 1]);
    }
  }

  lemma SumExtends(a: seq<real>, x: real)
    ensures Sum(a + [x]) == Sum(a) + x
  {
    assert (a + [x])[..|a|] == a;
  }

  function WeightsOf(rubric: seq<Criterion>): seq<real>
  {
    seq(|rubric|, i requires 0 <= i < |rubric| => rubric[i].weight)
  }

  lemma ProportionOf(p: real, w: real)
    ensures 0.0 <= p <= 1.0 && 0.0 <= w ==> 0.0 <= p * w <= w
  {
    if 0.0 <= p <= 1.0 && 0.0 <= w {
      Scaled(0.0, p, w);
      Scaled(p, 1.0, w);
    }
  }

  function Part(p: real, w: real): (r: real)
    ensures 0.0 <= p <= 1.0 && 0.0 <= w ==> 0.0 <= r <= w
  {
    ProportionOf(p, w);
    p * w
  }

  lemma PartIsMonotone(p: real, q: real, w: real)
    requires p <= q && 0.0 <= w
    ensures Part(p, w) <= Part(q, w)
  {
    calc <= {
      Part(p, w);
      p * w;
      { Scaled(p, q, w); }
      q * w;
      Part(q, w);
    }
  }

  /** What each criterion contributes to the weighted sum. */
  function Shares(values: seq<real>, rubric: seq<Criterion>): seq<real>
    requires |values| == |rubric|
  {
    seq(|rubric|, i requires 0 <= i < |rubric| => Part(values[i], rubric[i].weight))
  }

  function Weights(rubric: seq<Criterion>): real { Sum(WeightsOf(rubric)) }

  function Weighted(values: seq<real>, rubric: seq<Criterion>): real
    requires |values| == |rubric|
  {
    Sum(Shares(values, rubric))
  }

  predicate NonNegative(rubric: seq<Criterion>)
  {
    forall i | 0 <= i < |rubric| :: rubric[i].weight >= 0.0
  }

  function WeightedMean(rubric: seq<Criterion>, judged: map<string, real>): real
  {
    if Weights(rubric) > 0.0 then Weighted(Breakdown(rubric, judged), rubric) / Weights(rubric) else 0.0
  }

  lemma WeightedIsBounded(values: seq<real>, rubric: seq<Criterion>)
    requires |values| == |rubric| && Proportions(values) && NonNegative(rubric)
    ensures 0.0 <= Weighted(values, rubric) <= Weights(rubric)
  {
    var shares, weights := Shares(values, rubric), WeightsOf(rubric);
    assert forall i | 0 <= i < |shares| :: 0.0 <= shares[i] <= weights[i];
    SumIsNonNegative(shares);
    SumIsMonotone(shares, weights);
  }

  lemma Divided(a: real, b: real, d: real)
    requires a <= b && d > 0.0
    ensures a / d <= b / d
  {
    var x, y := a / d, b / d;
    assert (y - x) * d == b - a;
    assert y - x >= 0.0;
  }

  lemma QuotientInUnit(a: real, b: real)
    requires 0.0 <= a <= b && b > 0.0
    ensures 0.0 <= a / b <= 1.0
  {
    Divided(0.0, a, b);
    Divided(a, b, b);
  }

  lemma MeanInUnit(rubric: seq<Criterion>, judged: map<string, real>)
    requires NonNegative(rubric)
    ensures 0.0 <= WeightedMean(rubric, judged) <= 1.0
  {
    var values := Breakdown(rubric, judged);
    WeightedIsBounded(values, rubric);
    if Weights(rubric) > 0.0 {
      QuotientInUnit(Weighted(values, rubric), Weights(rubric));
    }
  }

  lemma ClampIsNoOp(rubric: seq<Criterion>, judged: map<string, real>)
    requires NonNegative(rubric)
    ensures Clamp(WeightedMean(rubric, judged)) == WeightedMean(rubric, judged)
  {
    MeanInUnit(rubric, judged);
  }

  /** The judge's accumulation loop. */
  method Accumulate(rubric: seq<Criterion>, judged: map<string, real>)
    returns (breakdown: seq<real>, total: real, sum: real)
    ensures breakdown == Breakdown(rubric, judged)
    ensures total == Weights(rubric) && sum == Weighted(breakdown, rubric)
  {
    breakdown, total, sum := [], 0.0, 0.0;
    ghost var values := Breakdown(rubric, judged);
    ghost var weights, shares := WeightsOf(rubric), Shares(values, rubric);
    for i := 0 to |rubric|
      invariant breakdown == values[..i]
      invariant total == Sum(weights[..i]) && sum == Sum(shares[..i])
    {
      SumUpTo(weights, i);
      SumUpTo(shares, i);
      var value := Normalize(Answer(judged, rubric[i]), rubric[i]);
      assert value == values[i] && values[..i + 1] == values[..i] + [values[i]];
      breakdown := breakdown + [value];
      sum := sum + Part(value, rubric[i].weight);
      total := total + rubric[i].weight;
    }
    assert weights[..|rubric|] == weights && shares[..|rubric|] == shares && values[..|rubric|] == values;
  }

  lemma SumUpTo(a: seq<real>, i: nat)
    requires i < |a|
    ensures Sum(a[..i + 1]) == Sum(a[..i]) + a[i]
  {
    SumExtends(a[..i], a[i]);
    assert a[..i + 1] == a[..i] + [a[i]];
  }

  /** The score is always a proportion, and for non-negative
      weights it is the weighted mean itself: the final clamp then changes nothing. */
  method JudgeScore(rubric: seq<Criterion>, judged: map<string, real>)
    returns (score: real, breakdown: seq<real>)
    ensures 0.0 <= score <= 1.0 && breakdown == Breakdown(rubric, judged)
    ensures score == Clamp(WeightedMean(rubric, judged))
    ensures NonNegative(rubric) ==> score == WeightedMean(rubric, judged)
  {
    var total, sum;
    breakdown, total, sum := Accumulate(rubric, judged);
    score := Clamp(if total > 0.0 then sum / total else 0.0);
    if NonNegative(rubric) {
      ClampIsNoOp(rubric, judged);
    }
  }

  lemma BetterAnswerNormalizes(worse: map<string, real>, better: map<string, real>, c: Criterion)
    requires c.name in worse ==> c.name in better && worse[c.name] <= better[c.name]
    ensures Normalize(Answer(worse, c), c) <= Normalize(Answer(better, c), c)
  {
    if c.name in worse && c.high > c.low {
      Divided(worse[c.name] - c.low, better[c.name] - c.low, c.high - c.low);
    }
  }

  lemma WeightedIsMonotone(low: seq<real>, high: seq<real>, rubric: seq<Criterion>)
    requires |low| == |high| == |rubric| && NonNegative(rubric)
    requires forall i | 0 <= i < |low| :: low[i] <= high[i]
    ensures Weighted(low, rubric) <= Weighted(high, rubric)
  {
    var less, more := Shares(low, rubric), Shares(high, rubric);
    forall i | 0 <= i < |less| ensures less[i] <= more[i] {
      PartIsMonotone(low[i], high[i], rubric[i].weight);
    }
    SumIsMonotone(less, more);
  }

  /** Better answers never lower a score with non-negative weights. */
  lemma BetterAnswerNeverHurts(rubric: seq<Criterion>, worse: map<string, real>, better: map<string, real>)
    requires NonNegative(rubric)
    requires forall k | k in worse :: k in better && worse[k] <= better[k]
    ensures WeightedMean(rubric, worse) <= WeightedMean(rubric, better)
  {
    var low, high := Breakdown(rubric, worse), Breakdown(rubric, better);
    forall i | 0 <= i < |rubric| ensures low[i] <= high[i] {
      BetterAnswerNormalizes(worse, better, rubric[i]);
    }
    WeightedIsMonotone(low, high, rubric);
    if Weights(rubric) > 0.0 {
      Divided(Weighted(low, rubric), Weighted(high, rubric), Weights(rubric));
    }
  }

  /** With a negative weight the mean can leave the unit interval, and the clamp matters. */
  lemma NegativeWeightNeedsClamp()
    ensures var rubric := [Criterion("a", 2.0, 0.0, 1.0), Criterion("b", -1.0, 0.0, 1.0)];
            WeightedMean(rubric, map["a" := 1.0, "b" := 0.0]) == 2.0
  {
    var a, b := Criterion("a", 2.0, 0.0, 1.0), Criterion("b", -1.0, 0.0, 1.0);
    assert Breakdown([a, b], map["a" := 1.0, "b" := 0.0]) == [1.0, 0.0];
    assert Shares([1.0, 0.0], [a, b]) == [2.0, 0.0] && WeightsOf([a, b]) == [2.0, -1.0];
    SumOfTwo(2.0, 0.0);
    SumOfTwo(2.0, -1.0);
  }

  lemma SumOfTwo(x: real, y: real)
    ensures Sum([x, y]) == x + y
  {
    SumExtends([], x);
    SumExtends([x], y);
    assert [] + [x] == [x] && [x] + [y] == [x, y];
  }

  lemma {:induction false} SumOfScaled(a: seq<real>, w: seq<real>, v: real)
    requires |a| == |w| && forall i | 0 <= i < |a| :: a[i] == Part(v, w[i])
    ensures Sum(a) == Part(v, Sum(w))
    decreases |a|
  {
    if a == [] {
      PartOfSum(v, 0.0, 0.0);
    } else {
      var n := |a| - 1;
      SumOfScaled(a[..n], w[..n], v);
      PartOfSum(v, Sum(w[..n]), w[n]);
    }
  }

  lemma PartOfSum(v: real, x: real, y: real)
    ensures Part(v, x + y) == Part(v, x) + Part(v, y)
    ensures Part(v, 0.0) == 0.0
  {
    calc == {
      Part(v, x + y);
      v * (x + y);
      v * x + v * y;
      Part(v, x) + Part(v, y);
    }
  }

  lemma QuotientOfPart(v: real, w: real)
    requires w > 0.0
    ensures Part(v, w) / w == v
  {
    calc == {
      Part(v, w) / w;
      (v * w) / w;
      v;
    }
  }

  /** Criteria that all score the same score that together, whatever their weights. */
  lemma EqualAnswersScoreThat(rubric: seq<Criterion>, judged: map<string, real>, v: real)
    requires Weights(rubric) > 0.0 && forall i | 0 <= i < |rubric| :: Breakdown(rubric, judged)[i] == v
    ensures WeightedMean(rubric, judged) == v
  {
    var values := Breakdown(rubric, judged);
    SumOfScaled(Shares(values, rubric), WeightsOf(rubric), v);
    QuotientOfPart(v, Weights(rubric));
  }

  // ------------------------------------------------------------ means and run metrics

  function Mean(s: seq<real>): real
  {
    if s == [] then 0.0 else Sum(s) / |s| as real
  }

  lemma {:induction false} SumIsBounded(s: seq<real>)
    requires Proportions(s)
    ensures 0.0 <= Sum(s) <= |s| as real
  {
    if s != [] {
      SumIsBounded(s[..|s| - 1]);
    }
  }

  /** The mean of case scores is a proportion. */
  lemma MeanOfScores(s: seq<real>)
    requires Proportions(s)
    ensures 0.0 <= Mean(s) <= 1.0
  {
    SumIsBounded(s);
    if s != [] {
      QuotientInUnit(Sum(s), |s| as real);
    }
  }

  /** The mean times the number of scores is their sum. */
  lemma MeanTimesCount(s: seq<real>)
    requires s != []
    ensures Mean(s) * |s| as real == Sum(s)
  {
  }

  /** A run never reports a median latency above its 95th percentile. */
  lemma MedianBelowTail(latencies: seq<real>)
    ensures Percentile(latencies, 0.50) <= Percentile(latencies, 0.95)
  {
    PercentileIsMonotone(latencies, 0.50, 0.95);
  }
}
