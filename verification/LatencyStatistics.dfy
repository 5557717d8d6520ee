/**
 Percentiles and the paired bootstrap of a campaign's durations (scripts/bench/campaign.py).

 Durations are real numbers. The random resamples are a parameter, so what is said holds for every
 choice of them. A percentile is first shown to stay within its values, to ignore their order and
 to grow with each of them; what the intervals say about uniform changes follows from that.
*/
module LatencyStatistics {
  import opened Wrappers

  // Sorting.

  ghost predicate Sorted(s: seq<real>) { forall i, j | 0 <= i <= j < |s| :: s[i] <= s[j] }

  function Insert(x: real, s: seq<real>): (r: seq<real>)
    ensures |r| == |s| + 1
  {
    if s == [] || x <= s[0] then [x] + s else [s[0]] + Insert(x, s[1..])
  }

  function Sort(s: seq<real>): (r: seq<real>)
    ensures |r| == |s|
  {
    if s == [] then [] else Insert(s[0], Sort(s[1..]))
  }

  lemma {:induction false} InsertSorted(x: real, s: seq<real>)
    requires Sorted(s)
    ensures Sorted(Insert(x, s)) && Insert(x, s)[0] == if s == [] || x <= s[0] then x else s[0]
  {
    if s != [] && s[0] < x {
      InsertSorted(x, s[1..]);
    }
  }

  lemma {:induction false} SortSorted(s: seq<real>)
    ensures Sorted(Sort(s))
  {
    if s != [] {
      SortSorted(s[1..]);
      InsertSorted(s[0], Sort(s[1..]));
    }
  }

  lemma {:induction false} InsertSame(x: real, s: seq<real>)
    ensures multiset(Insert(x, s)) == multiset(s) + multiset{x}
  {
    if s != [] && s[0] < x {
      InsertSame(x, s[1..]);
      assert s == [s[0]] + s[1..];
    }
  }

  lemma {:induction false} SortSame(s: seq<real>)
    ensures multiset(Sort(s)) == multiset(s)
  {
    if s != [] {
      SortSame(s[1..]);
      InsertSame(s[0], Sort(s[1..]));
      assert s == [s[0]] + s[1..];
    }
  }

  lemma SortElements(s: seq<real>, v: real)
    ensures v in Sort(s) <==> v in s
  {
    SortSame(s);
    assert v in Sort(s) <==> v in multiset(Sort(s));
  }

  lemma SameHead(s: seq<real>, t: seq<real>)
    requires Sorted(s) && Sorted(t) && multiset(s) == multiset(t) && s != []
    ensures t != [] && s[0] == t[0]
  {
    assert s[0] in multiset(t) && |multiset(t)| == |s|;
    assert t[0] in multiset(s);
  }

  lemma {:induction false} SortedIsUnique(s: seq<real>, t: seq<real>)
    requires Sorted(s) && Sorted(t) && multiset(s) == multiset(t)
    ensures s == t
  {
    if s == [] {
      assert |multiset(t)| == 0;
    } else {
      SameHead(s, t);
      TailSame(s);
      TailSame(t);
      SortedIsUnique(s[1..], t[1..]);
      assert s == [s[0]] + s[1..] && t == [t[0]] + t[1..];
    }
  }

  lemma TailSame(s: seq<real>)
    requires s != []
    ensures multiset(s[1..]) == multiset(s) - multiset{s[0]}
  {
    assert s == [s[0]] + s[1..];
  }

  ghost predicate Below(s: seq<real>, t: seq<real>) { |s| == |t| && forall i | 0 <= i < |s| :: s[i] <= t[i] }

  lemma {:induction false} InsertBelow(x: real, s: seq<real>, y: real, t: seq<real>)
    requires x <= y && Below(s, t) && Sorted(s) && Sorted(t)
    ensures Below(Insert(x, s), Insert(y, t))
    decreases |s|
  {
    if s != [] {
      var x' := if x <= s[0] then s[0] else x;
      var y' := if y <= t[0] then t[0] else y;
      InsertBelow(x', s[1..], y', t[1..]);
      InsertHead(x, s);
      InsertHead(y, t);
    }
  }

  /** Inserting puts the smaller of the two in front and inserts the larger behind it. */
  lemma InsertHead(x: real, s: seq<real>)
    requires s != [] && Sorted(s)
    ensures Insert(x, s) == [if x <= s[0] then x else s[0]] + Insert(if x <= s[0] then s[0] else x, s[1..])
  {
    if x <= s[0] {
      assert s == [s[0]] + s[1..];
      assert Insert(s[0], s[1..]) == s;
    }
  }

  lemma {:induction false} SortBelow(s: seq<real>, t: seq<real>)
    requires Below(s, t)
    ensures Below(Sort(s), Sort(t))
  {
    if s != [] {
      SortBelow(s[1..], t[1..]);
      SortSorted(s[1..]);
      SortSorted(t[1..]);
      InsertBelow(s[0], Sort(s[1..]), t[0], Sort(t[1..]));
    }
  }

  // Interpolation.

  lemma Scale(a: real, t: real, u: real)
    requires 0.0 <= a && t <= u
    ensures a * t <= a * u
  {
    assert a * (u - t) >= 0.0;
  }

  function Lerp(a: real, b: real, w: real): real { a + (b - a) * w }

  lemma LerpRange(a: real, b: real, w: real)
    requires a <= b && 0.0 <= w <= 1.0
    ensures a <= Lerp(a, b, w) <= b
  {
    Scale(b - a, 0.0, w);
    Scale(b - a, w, 1.0);
  }

  lemma LerpGrows(a: real, b: real, v: real, w: real)
    requires a <= b && v <= w
    ensures Lerp(a, b, v) <= Lerp(a, b, w)
  {
    Scale(b - a, v, w);
  }

  lemma LerpBelow(a: real, b: real, c: real, d: real, w: real)
    requires a <= c && b <= d && 0.0 <= w <= 1.0
    ensures Lerp(a, b, w) <= Lerp(c, d, w)
  {
    LerpTerms(a, b, 1.0 - w, w);
    LerpTerms(c, d, 1.0 - w, w);
    Mix(a, b, c, d, 1.0 - w, w);
  }

  lemma Mix(a: real, b: real, c: real, d: real, v: real, w: real)
    requires a <= c && b <= d && 0.0 <= v && 0.0 <= w
    ensures v * a + w * b <= v * c + w * d
  {
    Scale(v, a, c);
    Scale(w, b, d);
  }

  lemma LerpTerms(a: real, b: real, v: real, w: real)
    requires v + w == 1.0
    ensures Lerp(a, b, w) == v * a + w * b
  {
    assert (b - a) * w == b * w - a * w;
    assert (v + w) * a == v * a + w * a;
  }

  function Upper(n: nat, lower: nat): nat
    requires lower < n
  {
    if lower + 1 < n - 1 then lower + 1 else n - 1
  }

  /** The value at a position between two neighbours of a sorted list. */
  function Interpolated(s: seq<real>, x: real): real
    requires 0.0 <= x <= (|s| - 1) as real
  {
    Lerp(s[x.Floor], s[Upper(|s|, x.Floor)], x - x.Floor as real)
  }

  lemma BetweenNeighbours(s: seq<real>, x: real)
    requires Sorted(s) && 0.0 <= x <= (|s| - 1) as real
    ensures s[x.Floor] <= Interpolated(s, x) <= s[Upper(|s|, x.Floor)]
  {
    LerpRange(s[x.Floor], s[Upper(|s|, x.Floor)], x - x.Floor as real);
  }

  lemma InterpolatedGrows(s: seq<real>, x: real, y: real)
    requires Sorted(s) && 0.0 <= x <= y <= (|s| - 1) as real
    ensures Interpolated(s, x) <= Interpolated(s, y)
  {
    if x.Floor == y.Floor {
      LerpGrows(s[x.Floor], s[Upper(|s|, x.Floor)], x - x.Floor as real, y - y.Floor as real);
    } else {
      BetweenNeighbours(s, x);
      BetweenNeighbours(s, y);
      assert s[Upper(|s|, x.Floor)] <= s[y.Floor];
    }
  }

  lemma InterpolatedBelow(s: seq<real>, t: seq<real>, x: real)
    requires Below(s, t) && 0.0 <= x <= (|s| - 1) as real
    ensures Interpolated(s, x) <= Interpolated(t, x)
  {
    var lower, upper := x.Floor, Upper(|s|, x.Floor);
    LerpBelow(s[lower], s[upper], t[lower], t[upper], x - lower as real);
  }

  // Percentiles.

  predicate Fraction(f: real) { 0.0 <= f <= 1.0 }

  function Position(n: nat, f: real): (x: real)
    requires n > 0 && Fraction(f)
    ensures 0.0 <= x <= (n - 1) as real
  {
    LerpRange(0.0, (n - 1) as real, f);
    Lerp(0.0, (n - 1) as real, f)
  }

  function Percentile(values: seq<real>, f: real): real
    requires values != [] && Fraction(f)
  {
    Interpolated(Sort(values), Position(|values|, f))
  }

  lemma PercentileInRange(values: seq<real>, f: real, lo: real, hi: real)
    requires values != [] && Fraction(f) && forall v | v in values :: lo <= v <= hi
    ensures lo <= Percentile(values, f) <= hi
  {
    var s, x := Sort(values), Position(|values|, f);
    SortSorted(values);
    SortElements(values, s[x.Floor]);
    SortElements(values, s[Upper(|s|, x.Floor)]);
    BetweenNeighbours(s, x);
  }

  lemma PercentileIgnoresOrder(values: seq<real>, other: seq<real>, f: real)
    requires values != [] && Fraction(f) && multiset(values) == multiset(other)
    ensures other != [] && Percentile(values, f) == Percentile(other, f)
  {
    assert |multiset(values)| == |multiset(other)|;
    SortSorted(values);
    SortSorted(other);
    SortSame(values);
    SortSame(other);
    SortedIsUnique(Sort(values), Sort(other));
  }

  lemma PositionGrows(n: nat, f: real, g: real)
    requires n > 0 && Fraction(f) && Fraction(g) && f <= g
    ensures Position(n, f) <= Position(n, g)
  {
    LerpGrows(0.0, (n - 1) as real, f, g);
  }

  lemma PercentileGrows(values: seq<real>, f: real, g: real)
    requires values != [] && Fraction(f) && Fraction(g) && f <= g
    ensures Percentile(values, f) <= Percentile(values, g)
  {
    SortSorted(values);
    PositionGrows(|values|, f, g);
    InterpolatedGrows(Sort(values), Position(|values|, f), Position(|values|, g));
  }

  lemma PercentileBelow(values: seq<real>, other: seq<real>, f: real)
    requires values != [] && Fraction(f) && Below(values, other)
    ensures Percentile(values, f) <= Percentile(other, f)
  {
    SortBelow(values, other);
    InterpolatedBelow(Sort(values), Sort(other), Position(|values|, f));
  }

  /** The middle value, or the mean of the two middle values. */
  function Median(values: seq<real>): real
    requires values != []
  {
    var s, n := Sort(values), |values|;
    if n % 2 == 1 then s[n / 2] else (s[n / 2 - 1] + s[n / 2]) / 2.0
  }

  lemma MiddlePosition(n: nat)
    requires n > 0
    ensures Position(n, 0.5) == if n % 2 == 1 then (n / 2) as real else (n / 2 - 1) as real + 0.5
  {
  }

  lemma MedianIsPercentile(values: seq<real>)
    requires values != []
    ensures Median(values) == Percentile(values, 0.5)
  {
    var n, s := |values|, Sort(values);
    MiddlePosition(n);
    if n % 2 == 0 {
      assert Position(n, 0.5).Floor == n / 2 - 1 && Upper(n, n / 2 - 1) == n / 2;
    }
  }

  // Multiplying every value.

  function Product(c: real, x: real): real { c * x }

  function Times(c: real, s: seq<real>): (r: seq<real>)
    ensures |r| == |s|
    ensures forall i | 0 <= i < |s| :: r[i] == Product(c, s[i])
  {
    seq(|s|, i requires 0 <= i < |s| => Product(c, s[i]))
  }

  lemma ProductOrder(c: real, x: real, y: real)
    requires c > 0.0
    ensures x <= y <==> Product(c, x) <= Product(c, y)
  {
    if x < y {
      assert c * (y - x) > 0.0;
    } else {
      Scale(c, y, x);
    }
  }

  lemma {:induction false} InsertTimes(c: real, x: real, s: seq<real>)
    requires c > 0.0
    ensures Insert(Product(c, x), Times(c, s)) == Times(c, Insert(x, s))
    decreases |s|
  {
    if s != [] {
      assert Times(c, s)[1..] == Times(c, s[1..]);
      ProductOrder(c, x, s[0]);
      if s[0] < x {
        InsertTimes(c, x, s[1..]);
      }
    }
  }

  lemma {:induction false} SortTimes(c: real, s: seq<real>)
    requires c > 0.0
    ensures Sort(Times(c, s)) == Times(c, Sort(s))
    decreases |s|
  {
    if s != [] {
      assert Times(c, s)[1..] == Times(c, s[1..]);
      SortTimes(c, s[1..]);
      InsertTimes(c, s[0], Sort(s[1..]));
    }
  }

  lemma LerpTimes(c: real, a: real, b: real, w: real)
    ensures Lerp(Product(c, a), Product(c, b), w) == Product(c, Lerp(a, b, w))
  {
    assert c * b - c * a == c * (b - a);
    assert (c * (b - a)) * w == c * ((b - a) * w);
    assert c * (a + (b - a) * w) == c * a + c * ((b - a) * w);
  }

  lemma InterpolatedTimes(c: real, s: seq<real>, x: real)
    requires 0.0 <= x <= (|s| - 1) as real
    ensures Interpolated(Times(c, s), x) == Product(c, Interpolated(s, x))
  {
    LerpTimes(c, s[x.Floor], s[Upper(|s|, x.Floor)], x - x.Floor as real);
  }

  lemma PercentileTimes(c: real, values: seq<real>, f: real)
    requires c > 0.0 && values != [] && Fraction(f)
    ensures Percentile(Times(c, values), f) == Product(c, Percentile(values, f))
  {
    SortTimes(c, values);
    InterpolatedTimes(c, Sort(values), Position(|values|, f));
  }

  lemma PercentilePositive(values: seq<real>, f: real)
    requires values != [] && Fraction(f) && forall v | v in values :: v > 0.0
    ensures Percentile(values, f) > 0.0
  {
    var s, x := Sort(values), Position(|values|, f);
    SortSorted(values);
    SortElements(values, s[x.Floor]);
    BetweenNeighbours(s, x);
  }

  // The paired bootstrap.

  /** One run's duration with the baseline and with the candidate. */
  datatype Pair = Pair(before: real, after: real)

  /** Several tasks with at least one pair each; baselines are positive, candidates not negative. */
  predicate Usable(groups: seq<seq<Pair>>) {
    |groups| >= 2 && forall i, p | 0 <= i < |groups| && p in groups[i] :: p.before > 0.0 && p.after >= 0.0
  }

  predicate Filled(groups: seq<seq<Pair>>) { forall i | 0 <= i < |groups| :: groups[i] != [] }

  /** Every pick names a task. */
  predicate Named(groups: seq<seq<Pair>>, picks: seq<int>) {
    forall i | 0 <= i < |picks| :: 0 <= picks[i] < |groups|
  }

  /** As many picks as tasks. */
  predicate Picks(groups: seq<seq<Pair>>, picks: seq<int>) { |picks| == |groups| && Named(groups, picks) }

  ghost predicate InSome(groups: seq<seq<Pair>>, p: Pair) { exists i :: 0 <= i < |groups| && p in groups[i] }

  /** The pairs of the picked tasks; the runs of a task stay together. */
  function Drawn(groups: seq<seq<Pair>>, picks: seq<int>): (r: seq<Pair>)
    requires Filled(groups) && Named(groups, picks)
    ensures picks != [] ==> r != []
    ensures forall p | p in r :: InSome(groups, p)
  {
    if picks == [] then [] else Drawn(groups, picks[..|picks| - 1]) + groups[picks[|picks| - 1]]
  }

  function Befores(pairs: seq<Pair>): (r: seq<real>)
    ensures |r| == |pairs|
  {
    seq(|pairs|, i requires 0 <= i < |pairs| => pairs[i].before)
  }

  function Afters(pairs: seq<Pair>): (r: seq<real>)
    ensures |r| == |pairs|
  {
    seq(|pairs|, i requires 0 <= i < |pairs| => pairs[i].after)
  }

  function Deltas(pairs: seq<Pair>): (r: seq<real>)
    ensures |r| == |pairs|
  {
    seq(|pairs|, i requires 0 <= i < |pairs| => pairs[i].after - pairs[i].before)
  }

  predicate Positive(pairs: seq<Pair>) { pairs != [] && forall p | p in pairs :: p.before > 0.0 }

  function Ratios(pairs: seq<Pair>): (r: seq<real>)
    requires Positive(pairs)
    ensures |r| == |pairs|
  {
    seq(|pairs|, i requires 0 <= i < |pairs| => pairs[i].after / pairs[i].before)
  }

  function RatioAt(pairs: seq<Pair>, f: real): real
    requires Positive(pairs) && Fraction(f)
  {
    PercentilePositive(Befores(pairs), f);
    Percentile(Afters(pairs), f) / Percentile(Befores(pairs), f)
  }

  datatype Interval = Interval(lower: real, upper: real, noChange: bool)

  function IntervalOf(values: seq<real>, same: real): (r: Interval)
    requires values != []
    ensures r.lower <= r.upper
  {
    PercentileGrows(values, 0.025, 0.975);
    var lower, upper := Percentile(values, 0.025), Percentile(values, 0.975);
    Interval(lower, upper, lower <= same <= upper)
  }

  datatype Statistic = RatioOfMedians | MedianDelta | TailRatio | MedianRatio

  function ValueOf(s: Statistic, pairs: seq<Pair>): real
    requires Positive(pairs)
  {
    match s
    case RatioOfMedians => RatioAt(pairs, 0.5)
    case MedianDelta => Median(Deltas(pairs))
    case TailRatio => RatioAt(pairs, 0.9)
    case MedianRatio => Median(Ratios(pairs))
  }

  predicate Resamples(groups: seq<seq<Pair>>, resamples: seq<seq<int>>) {
    resamples != [] && forall k | 0 <= k < |resamples| :: Picks(groups, resamples[k])
  }

  ghost predicate Setup(groups: seq<seq<Pair>>, resamples: seq<seq<int>>) {
    Usable(groups) && Filled(groups) && Resamples(groups, resamples)
  }

  lemma DrawnPositive(groups: seq<seq<Pair>>, resamples: seq<seq<int>>, k: nat)
    requires Setup(groups, resamples) && k < |resamples|
    ensures Positive(Drawn(groups, resamples[k]))
  {
    var r := Drawn(groups, resamples[k]);
    forall p | p in r ensures p.before > 0.0 {
      assert InSome(groups, p);
    }
  }

  ghost function ValueAt(s: Statistic, groups: seq<seq<Pair>>, resamples: seq<seq<int>>, k: nat): real
    requires Setup(groups, resamples) && k < |resamples|
  {
    DrawnPositive(groups, resamples, k);
    ValueOf(s, Drawn(groups, resamples[k]))
  }

  /** One statistic over all resamples. */
  ghost function Values(s: Statistic, groups: seq<seq<Pair>>, resamples: seq<seq<int>>): (r: seq<real>)
    requires Setup(groups, resamples)
    ensures |r| == |resamples|
  {
    seq(|resamples|, k requires 0 <= k < |resamples| => ValueAt(s, groups, resamples, k))
  }

  datatype Report = Report(ratioOfMedians: Interval, medianDelta: Interval, tailRatio: Interval, medianRatio: Interval)

  method Resample(groups: seq<seq<Pair>>, picks: seq<int>) returns (pairs: seq<Pair>)
    requires Filled(groups) && Named(groups, picks)
    ensures pairs == Drawn(groups, picks)
  {
    pairs := [];
    for i := 0 to |picks|
      invariant pairs == Drawn(groups, picks[..i])
    {
      assert picks[..i + 1][..i] == picks[..i];
      pairs := pairs + groups[picks[i]];
    }
    assert picks[..|picks|] == picks;
  }

  ghost predicate ColumnsAt(groups: seq<seq<Pair>>, resamples: seq<seq<int>>, k: nat,
                            ratio: real, delta: real, tail: real, paired: real)
    requires Setup(groups, resamples) && k < |resamples|
  {
    && ratio == ValueAt(RatioOfMedians, groups, resamples, k) && delta == ValueAt(MedianDelta, groups, resamples, k)
    && tail == ValueAt(TailRatio, groups, resamples, k) && paired == ValueAt(MedianRatio, groups, resamples, k)
  }

  method Statistics(pairs: seq<Pair>) returns (ratio: real, delta: real, tail: real, paired: real)
    requires Positive(pairs)
    ensures ratio == ValueOf(RatioOfMedians, pairs) && delta == ValueOf(MedianDelta, pairs)
    ensures tail == ValueOf(TailRatio, pairs) && paired == ValueOf(MedianRatio, pairs)
  {
    var before, after := Befores(pairs), Afters(pairs);
    MedianIsPercentile(after);
    MedianIsPercentile(before);
    PercentilePositive(before, 0.5);
    PercentilePositive(before, 0.9);
    ratio := Median(after) / Median(before);
    delta := Median(Deltas(pairs));
    tail := Percentile(after, 0.9) / Percentile(before, 0.9);
    paired := Median(Ratios(pairs));
  }

  method LatencyUncertainty(groups: seq<seq<Pair>>, resamples: seq<seq<int>>) returns (r: Option<Report>)
    requires Filled(groups) && Resamples(groups, resamples)
    ensures r.Some? <==> Usable(groups)
    ensures r.Some? ==>
      && r.value.ratioOfMedians == IntervalOf(Values(RatioOfMedians, groups, resamples), 1.0)
      && r.value.medianDelta == IntervalOf(Values(MedianDelta, groups, resamples), 0.0)
      && r.value.tailRatio == IntervalOf(Values(TailRatio, groups, resamples), 1.0)
      && r.value.medianRatio == IntervalOf(Values(MedianRatio, groups, resamples), 1.0)
  {
    if !Usable(groups) {
      return None;
    }
    var ratios, deltas, tails, paired := [], [], [], [];
    for k := 0 to |resamples|
      invariant |ratios| == |deltas| == |tails| == |paired| == k
      invariant forall j | 0 <= j < k :: ColumnsAt(groups, resamples, j, ratios[j], deltas[j], tails[j], paired[j])
    {
      var pairs := Resample(groups, resamples[k]);
      DrawnPositive(groups, resamples, k);
      var ratio, delta, tail, median := Statistics(pairs);
      ratios, deltas, tails, paired := ratios + [ratio], deltas + [delta], tails + [tail], paired + [median];
    }
    assert ratios == Values(RatioOfMedians, groups, resamples);
    assert deltas == Values(MedianDelta, groups, resamples);
    assert tails == Values(TailRatio, groups, resamples);
    assert paired == Values(MedianRatio, groups, resamples);
    return Some(Report(IntervalOf(ratios, 1.0), IntervalOf(deltas, 0.0), IntervalOf(tails, 1.0), IntervalOf(paired, 1.0)));
  }

  // What the intervals mean.

  lemma QuotientWithin(x: real, y: real, lo: real, hi: real)
    requires y > 0.0 && Product(lo, y) <= x <= Product(hi, y)
    ensures lo <= x / y <= hi
  {
    var q := x / y;
    assert q * y == x;
    ProductOrder(y, lo, q);
    ProductOrder(y, q, hi);
  }

  lemma ProductWithin(x: real, y: real, lo: real, hi: real)
    requires y > 0.0 && lo <= x / y <= hi
    ensures Product(lo, y) <= x <= Product(hi, y)
  {
    var q := x / y;
    assert q * y == x;
    ProductOrder(y, lo, q);
    ProductOrder(y, q, hi);
  }

  lemma RatioAtWithin(pairs: seq<Pair>, f: real, lo: real, hi: real)
    requires Positive(pairs) && Fraction(f) && 0.0 < lo
    requires forall p | p in pairs :: lo <= p.after / p.before <= hi
    ensures lo <= RatioAt(pairs, f) <= hi
  {
    var b, a := Befores(pairs), Afters(pairs);
    forall i | 0 <= i < |pairs| ensures Product(lo, b[i]) <= a[i] <= Product(hi, b[i]) {
      assert pairs[i] in pairs;
      ProductWithin(pairs[i].after, pairs[i].before, lo, hi);
    }
    assert pairs[0] in pairs;
    PercentileBelow(Times(lo, b), a, f);
    PercentileBelow(a, Times(hi, b), f);
    PercentileTimes(lo, b, f);
    PercentileTimes(hi, b, f);
    PercentilePositive(b, f);
    QuotientWithin(Percentile(a, f), Percentile(b, f), lo, hi);
  }

  lemma ValueWithin(s: Statistic, pairs: seq<Pair>, lo: real, hi: real)
    requires Positive(pairs) && 0.0 < lo && !s.MedianDelta?
    requires forall p | p in pairs :: lo <= p.after / p.before <= hi
    ensures lo <= ValueOf(s, pairs) <= hi
  {
    RatioAtWithin(pairs, 0.5, lo, hi);
    RatioAtWithin(pairs, 0.9, lo, hi);
    MedianIsPercentile(Ratios(pairs));
    PercentileInRange(Ratios(pairs), 0.5, lo, hi);
  }

  /**
   If every run took between `lo` and `hi` times as long as its baseline, so say all three ratio
   intervals, whatever is resampled. A uniform factor is found exactly.
  */
  lemma IntervalsWithinRatios(s: Statistic, groups: seq<seq<Pair>>, resamples: seq<seq<int>>, lo: real, hi: real)
    requires Setup(groups, resamples) && 0.0 < lo && !s.MedianDelta?
    requires forall i, p | 0 <= i < |groups| && p in groups[i] :: lo <= p.after / p.before <= hi
    ensures var i := IntervalOf(Values(s, groups, resamples), 1.0);
      lo <= i.lower <= i.upper <= hi && (hi < 1.0 || 1.0 < lo ==> !i.noChange)
  {
    var values := Values(s, groups, resamples);
    forall k | 0 <= k < |values| ensures lo <= values[k] <= hi {
      DrawnPositive(groups, resamples, k);
      forall p | p in Drawn(groups, resamples[k]) ensures lo <= p.after / p.before <= hi {
        assert InSome(groups, p);
      }
      ValueWithin(s, Drawn(groups, resamples[k]), lo, hi);
    }
    PercentileInRange(values, 0.025, lo, hi);
    PercentileInRange(values, 0.975, lo, hi);
  }

  /** The same for differences. */
  lemma IntervalWithinDeltas(groups: seq<seq<Pair>>, resamples: seq<seq<int>>, lo: real, hi: real)
    requires Setup(groups, resamples)
    requires forall i, p | 0 <= i < |groups| && p in groups[i] :: lo <= p.after - p.before <= hi
    ensures var i := IntervalOf(Values(MedianDelta, groups, resamples), 0.0);
      lo <= i.lower <= i.upper <= hi && (hi < 0.0 || 0.0 < lo ==> !i.noChange)
  {
    var values := Values(MedianDelta, groups, resamples);
    forall k | 0 <= k < |values| ensures lo <= values[k] <= hi {
      var pairs := Drawn(groups, resamples[k]);
      var deltas := Deltas(pairs);
      DrawnPositive(groups, resamples, k);
      forall i | 0 <= i < |pairs| ensures lo <= deltas[i] <= hi {
        assert InSome(groups, pairs[i]);
      }
      MedianIsPercentile(deltas);
      PercentileInRange(deltas, 0.5, lo, hi);
    }
    PercentileInRange(values, 0.025, lo, hi);
    PercentileInRange(values, 0.975, lo, hi);
  }
}
