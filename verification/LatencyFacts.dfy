/** What the percentiles and intervals of a campaign are, in the sorted values themselves (scripts/bench/campaign.py). */
module LatencyFacts {
  import opened LatencyStatistics
  import opened Sequences
  import opened Wrappers

  /** The values in order. */
  ghost predicate InOrder(values: seq<real>, s: seq<real>) {
    multiset(s) == multiset(values) && forall i, j | 0 <= i < j < |s| :: s[i] <= s[j]
  }

  /** The fraction falls at `k`, or by `w` behind it, when the places are counted from zero. */
  ghost predicate FallsAt(n: nat, f: real, k: nat, w: real) {
    k < n && 0.0 <= w < 1.0 && (n - 1) as real * f == k as real + w
  }

  /** `x` lies by `w` between the k-th value and the next; behind the last there is none. */
  ghost predicate LiesAt(s: seq<real>, k: nat, w: real, x: real)
    requires k < |s|
  {
    x == s[k] + (if k + 1 < |s| then (s[k + 1] - s[k]) * w else 0.0)
  }

  ghost predicate IsPercentile(values: seq<real>, f: real, x: real) {
    exists s, k, w :: InOrder(values, s) && |s| == |values| && FallsAt(|s|, f, k, w) && LiesAt(s, k, w, x)
  }

  lemma PlaceOf(n: nat, f: real) returns (k: nat, w: real)
    requires n > 0 && Fraction(f)
    ensures FallsAt(n, f, k, w) && Position(n, f) == k as real + w && Position(n, f).Floor == k
    ensures k + 1 == n ==> w == 0.0
  {
    var x := Position(n, f);
    k, w := x.Floor, x - x.Floor as real;
    assert x == 0.0 + ((n - 1) as real - 0.0) * f;
  }

  lemma OnePlace(n: nat, f: real, k: nat, w: real)
    requires n > 0 && Fraction(f) && FallsAt(n, f, k, w)
    ensures Position(n, f).Floor == k && Position(n, f) == k as real + w && (k + 1 == n ==> w == 0.0)
  {
    var j, v := PlaceOf(n, f);
    assert j as real + v == k as real + w;
  }

  lemma InterpolatedLies(s: seq<real>, x: real, k: nat, w: real)
    requires 0.0 <= x <= (|s| - 1) as real && x.Floor == k && x == k as real + w && (k + 1 == |s| ==> w == 0.0)
    ensures k < |s| && LiesAt(s, k, w, Interpolated(s, x))
  {
  }

  lemma PercentileLies(values: seq<real>, f: real, k: nat, w: real)
    requires values != [] && Fraction(f) && Position(|values|, f).Floor == k && Position(|values|, f) == k as real + w
    requires k + 1 == |values| ==> w == 0.0
    ensures k < |values| && LiesAt(Sort(values), k, w, Percentile(values, f))
  {
    InterpolatedLies(Sort(values), Position(|values|, f), k, w);
  }

  lemma OnlyOneLies(s: seq<real>, k: nat, w: real, x: real, y: real)
    requires k < |s| && LiesAt(s, k, w, x) && LiesAt(s, k, w, y)
    ensures x == y
  {
  }

  lemma OnePercentile(values: seq<real>, f: real, x: real)
    requires values != [] && Fraction(f) && IsPercentile(values, f, x)
    ensures x == Percentile(values, f)
  {
    var s, k, w :| InOrder(values, s) && |s| == |values| && FallsAt(|s|, f, k, w) && LiesAt(s, k, w, x);
    SortSorted(values);
    SortSame(values);
    SortedIsUnique(s, Sort(values));
    OnePlace(|values|, f, k, w);
    PercentileLies(values, f, k, w);
    OnlyOneLies(s, k, w, x, Percentile(values, f));
  }

  /** The percentile interpolates between the two values around its place in the sorted list. */
  lemma PercentileIs(values: seq<real>, f: real, x: real)
    requires values != [] && Fraction(f)
    ensures IsPercentile(values, f, x) <==> x == Percentile(values, f)
  {
    var s := Sort(values);
    SortSorted(values);
    SortSame(values);
    var k, w := PlaceOf(|s|, f);
    PercentileLies(values, f, k, w);
    assert InOrder(values, s) && FallsAt(|s|, f, k, w);
    if IsPercentile(values, f, x) {
      OnePercentile(values, f, x);
    }
  }

  /** The middle 95 percent, and whether the value that stands for no change is among them. */
  ghost predicate IsInterval(values: seq<real>, same: real, i: Interval) {
    && IsPercentile(values, 0.025, i.lower) && IsPercentile(values, 0.975, i.upper)
    && (i.noChange <==> i.lower <= same <= i.upper)
  }

  lemma IntervalIs(values: seq<real>, same: real)
    requires values != []
    ensures IsInterval(values, same, IntervalOf(values, same))
  {
    PercentileIs(values, 0.025, IntervalOf(values, same).lower);
    PercentileIs(values, 0.975, IntervalOf(values, same).upper);
  }

  // The statistics of a resample.

  /** The same percentile of the candidates and of the baselines, divided. */
  ghost predicate IsQuotient(pairs: seq<Pair>, f: real, x: real) {
    exists a, b :: b > 0.0 && x == a / b
      && IsPercentile(Befores(pairs), f, b) && IsPercentile(Afters(pairs), f, a)
  }

  lemma RatioIs(pairs: seq<Pair>, f: real)
    requires Positive(pairs) && Fraction(f)
    ensures IsQuotient(pairs, f, RatioAt(pairs, f))
  {
    PercentilePositive(Befores(pairs), f);
    PercentileIs(Befores(pairs), f, Percentile(Befores(pairs), f));
    PercentileIs(Afters(pairs), f, Percentile(Afters(pairs), f));
  }

  lemma MedianIs(values: seq<real>)
    requires values != []
    ensures IsPercentile(values, 0.5, Median(values))
  {
    MedianIsPercentile(values);
    PercentileIs(values, 0.5, Median(values));
  }

  lemma PairsAre(pairs: seq<Pair>, i: nat)
    requires i < |pairs| && Positive(pairs)
    ensures Befores(pairs)[i] == pairs[i].before && Afters(pairs)[i] == pairs[i].after
    ensures Deltas(pairs)[i] == pairs[i].after - pairs[i].before
    ensures Ratios(pairs)[i] * pairs[i].before == pairs[i].after
  {
    assert pairs[i] in pairs;
  }

  /** The four statistics: medians divided, median difference, 90th percentiles divided, median quotient. */
  ghost predicate AreStatistics(pairs: seq<Pair>, ratio: real, delta: real, tail: real, paired: real)
    requires Positive(pairs)
  {
    && IsQuotient(pairs, 0.5, ratio) && IsPercentile(Deltas(pairs), 0.5, delta)
    && IsQuotient(pairs, 0.9, tail) && IsPercentile(Ratios(pairs), 0.5, paired)
  }

  lemma StatisticsAre(pairs: seq<Pair>)
    requires Positive(pairs)
    ensures AreStatistics(pairs, ValueOf(RatioOfMedians, pairs), ValueOf(MedianDelta, pairs),
                          ValueOf(TailRatio, pairs), ValueOf(MedianRatio, pairs))
  {
    RatioIs(pairs, 0.5);
    MedianIs(Deltas(pairs));
    RatioIs(pairs, 0.9);
    MedianIs(Ratios(pairs));
  }

  lemma DrawnOne(groups: seq<seq<Pair>>, picks: seq<int>, t: int)
    requires Filled(groups) && Named(groups, picks) && 0 <= t < |groups|
    ensures Named(groups, picks + [t]) && Drawn(groups, picks + [t]) == Drawn(groups, picks) + groups[t]
  {
    assert (picks + [t])[..|picks|] == picks;
  }

  /** A resample is made of whole tasks, each in the place in which it was picked. */
  lemma {:induction false} DrawnWhole(groups: seq<seq<Pair>>, picks: seq<int>, t: int, more: seq<int>)
    requires Filled(groups) && Named(groups, picks) && 0 <= t < |groups| && Named(groups, more)
    ensures Named(groups, picks + [t] + more)
    ensures Drawn(groups, picks + [t] + more) == Drawn(groups, picks) + groups[t] + Drawn(groups, more)
    decreases |more|
  {
    if more == [] {
      DrawnOne(groups, picks, t);
      assert picks + [t] + more == picks + [t];
      assert Drawn(groups, picks) + groups[t] + [] == Drawn(groups, picks) + groups[t];
    } else {
      var last := |more| - 1;
      DrawnWhole(groups, picks, t, more[..last]);
      DrawnOne(groups, picks + [t] + more[..last], more[last]);
      assert picks + [t] + more == (picks + [t] + more[..last]) + [more[last]];
      Associates(Drawn(groups, picks) + groups[t], Drawn(groups, more[..last]), groups[more[last]]);
    }
  }

  /** Intervals need two tasks, positive baselines, and no negative duration. */
  lemma UsableIs(groups: seq<seq<Pair>>)
    ensures Usable(groups) <==>
      |groups| >= 2 && forall i, j | 0 <= i < |groups| && 0 <= j < |groups[i]| ::
        groups[i][j].before > 0.0 && groups[i][j].after >= 0.0
  {
    if Usable(groups) {
      forall i, j | 0 <= i < |groups| && 0 <= j < |groups[i]|
        ensures groups[i][j].before > 0.0 && groups[i][j].after >= 0.0
      {
        assert groups[i][j] in groups[i];
      }
    }
  }

  /** Each interval is over the values of its statistic, one for each resample. */
  ghost predicate AreValues(groups: seq<seq<Pair>>, resamples: seq<seq<int>>,
                            ratios: seq<real>, deltas: seq<real>, tails: seq<real>, paired: seq<real>)
    requires Setup(groups, resamples)
  {
    && |ratios| == |deltas| == |tails| == |paired| == |resamples|
    && forall k | 0 <= k < |resamples| :: AreValuesAt(groups, resamples, k, ratios[k], deltas[k], tails[k], paired[k])
  }

  ghost predicate AreValuesAt(groups: seq<seq<Pair>>, resamples: seq<seq<int>>, k: nat,
                              ratio: real, delta: real, tail: real, paired: real)
    requires Setup(groups, resamples) && k < |resamples|
  {
    && Positive(Drawn(groups, resamples[k]))
    && AreStatistics(Drawn(groups, resamples[k]), ratio, delta, tail, paired)
  }

  lemma Reported(groups: seq<seq<Pair>>, resamples: seq<seq<int>>, r: Report)
    returns (ratios: seq<real>, deltas: seq<real>, tails: seq<real>, paired: seq<real>)
    requires Setup(groups, resamples)
    requires r.ratioOfMedians == IntervalOf(Values(RatioOfMedians, groups, resamples), 1.0)
    requires r.medianDelta == IntervalOf(Values(MedianDelta, groups, resamples), 0.0)
    requires r.tailRatio == IntervalOf(Values(TailRatio, groups, resamples), 1.0)
    requires r.medianRatio == IntervalOf(Values(MedianRatio, groups, resamples), 1.0)
    ensures AreValues(groups, resamples, ratios, deltas, tails, paired)
    ensures IsInterval(ratios, 1.0, r.ratioOfMedians) && IsInterval(deltas, 0.0, r.medianDelta)
    ensures IsInterval(tails, 1.0, r.tailRatio) && IsInterval(paired, 1.0, r.medianRatio)
  {
    ratios, deltas := Values(RatioOfMedians, groups, resamples), Values(MedianDelta, groups, resamples);
    tails, paired := Values(TailRatio, groups, resamples), Values(MedianRatio, groups, resamples);
    forall k | 0 <= k < |resamples|
      ensures AreValuesAt(groups, resamples, k, ratios[k], deltas[k], tails[k], paired[k])
    {
      DrawnPositive(groups, resamples, k);
      StatisticsAre(Drawn(groups, resamples[k]));
    }
    IntervalIs(ratios, 1.0);
    IntervalIs(deltas, 0.0);
    IntervalIs(tails, 1.0);
    IntervalIs(paired, 1.0);
  }
}
