/**
 * `analyze_metrics_data`: for each metric, the descriptive statistics of its frame, or
 * nothing when the frame is absent or empty.  Rows whose value did not parse (NaN) are
 * counted in `totalSamples` and skipped by every other statistic.
 */
module MetricsAnalysis {
  import opened Wrappers
  import opened Lists
  import opened Numeric
  import opened RangeFetch

  /**
   * The statistics of one metric.  `None` stands for NaN, which pandas returns when no
   * value parsed (and, for `std`, when exactly one did).  `variance` is the square of the
   * reported `std`; timestamps are kept as numbers, before their text rendering.
   */
  datatype Stats = Stats(
    mean: Option<real>,
    median: Option<real>,
    max: Option<real>,
    min: Option<real>,
    variance: Option<real>,
    p95: Option<real>,
    p5: Option<real>,
    totalSamples: nat,
    peakTimes: seq<real>,
    lowTimes: seq<real>)

  /** How many peak and low timestamps are listed. */
  const Listed: nat := 5

  function ValueOf(s: Sample): Option<real>
  {
    s.value
  }

  /** The values that parsed, in series order. */
  function Values(df: Frame): seq<real>
  {
    FilterMap(df, ValueOf)
  }

  /** The side of a threshold on which peak (`Over`) and low (`Under`) times lie. */
  datatype Side = Over | Under

  /** `v` lies strictly beyond `threshold` on `side`; NaN is never tested. */
  predicate Beyond(side: Side, v: real, threshold: real)
  {
    match side
    case Over => v > threshold
    case Under => v < threshold
  }

  /** The time of a sample whose value lies strictly beyond `threshold`. */
  function TimeBeyond(side: Side, threshold: real): Sample -> Option<real>
  {
    (s: Sample) => if s.value.Some? && Beyond(side, s.value.value, threshold) then Some(s.time) else None
  }

  /** Times of the samples beyond `threshold`, in series order (the boolean-mask selection). */
  function Candidates(df: Frame, side: Side, threshold: real): seq<real>
  {
    FilterMap(df, TimeBeyond(side, threshold))
  }

  /**
   * `r` is what `[:5]` of the selection lists: exactly `min(count, 5)` times, the first
   * candidates in series order, each the time of a sample beyond `threshold`, and, when
   * there are at most five candidates, the time of every such sample.
   */
  predicate FirstListedBeyond(df: Frame, side: Side, threshold: real, r: seq<real>)
  {
    var candidates := Candidates(df, side, threshold);
    && |r| == (if |candidates| <= Listed then |candidates| else Listed)
    && r == candidates[..|r|]
    && (forall t :: t in r ==>
          exists i :: 0 <= i < |df| &&
            df[i].time == t && df[i].value.Some? && Beyond(side, df[i].value.value, threshold))
    && (|candidates| <= Listed ==> forall i :: 0 <= i < |df| ==>
          (df[i].value.Some? && Beyond(side, df[i].value.value, threshold) ==> df[i].time in r))
  }

  /** The statistics of a non-empty frame. */
  function StatsOf(df: Frame): Stats
  {
    var xs := Values(df);
    if xs == [] then
      // every statistic is NaN, and no comparison with NaN holds
      Stats(None, None, None, None, None, None, None, |df|, [], [])
    else
      var sorted := SortedValues(xs);
      var p95 := Quantile(sorted, 0.95);
      var p5 := Quantile(sorted, 0.05);
      Stats(
        mean := Some(Mean(xs)),
        median := Some(Median(sorted)),
        max := Some(Max(xs)),
        min := Some(Min(xs)),
        variance := if |xs| >= 2 then Some(SampleVariance(xs)) else None,
        p95 := Some(p95),
        p5 := Some(p5),
        totalSamples := |df|,
        peakTimes := Take(Candidates(df, Over, p95), Listed),
        lowTimes := Take(Candidates(df, Under, p5), Listed))
  }

  /** The entry for one metric. */
  function Summarize(df: Option<Frame>): (r: Option<Stats>)
    ensures r.None? <==> df.None? || df.value == []
    ensures r.Some? ==> r.value == StatsOf(df.value)
  {
    if df.Some? && df.value != [] then Some(StatsOf(df.value)) else None
  }

  /** The analysis loop: one entry per metric, keyed and ordered as the input. */
  method AnalyzeMetrics(data: seq<(string, Option<Frame>)>) returns (analysis: seq<(string, Option<Stats>)>)
    ensures |analysis| == |data|
    ensures forall i :: 0 <= i < |data| ==>
      analysis[i].0 == data[i].0 && analysis[i].1 == Summarize(data[i].1)
    ensures forall i :: 0 <= i < |data| ==>
      (analysis[i].1.None? <==> data[i].1.None? || data[i].1.value == [])
  {
    analysis := [];
    for i := 0 to |data|
      invariant |analysis| == i
      invariant forall j :: 0 <= j < i ==>
        analysis[j].0 == data[j].0 && analysis[j].1 == Summarize(data[j].1)
    {
      analysis := analysis + [(data[i].0, Summarize(data[i].1))];
    }
  }

  /**
   * Over the parsed values: `min <= p5 <= median <= p95 <= max`, the mean lies between
   * `min` and `max`, and the variance is defined from two values on and is zero exactly
   * when they are all equal.  With no parsed value every statistic is NaN and no time
   * is listed.
   */
  lemma StatsOrdered(df: Frame)
    ensures var st := StatsOf(df);
      && st.totalSamples == |df|
      && (Values(df) == [] ==>
            && st.mean.None? && st.median.None? && st.max.None? && st.min.None?
            && st.variance.None? && st.p95.None? && st.p5.None?
            && st.peakTimes == [] && st.lowTimes == [])
      && (Values(df) != [] ==>
            && st.mean.Some? && st.median.Some? && st.max.Some? && st.min.Some?
            && st.p95.Some? && st.p5.Some?
            && st.min.value <= st.p5.value <= st.median.value <= st.p95.value <= st.max.value
            && st.min.value <= st.mean.value <= st.max.value)
      && (st.variance.Some? <==> |Values(df)| >= 2)
      && (st.variance.Some? ==> (st.variance.value == 0.0 <==> Constant(Values(df))))
  {
    var xs := Values(df);
    if xs != [] {
      var sorted := SortedValues(xs);
      SortedEnds(sorted, xs);
      QuantileMonotone(sorted, 0.05, 0.5);
      QuantileMonotone(sorted, 0.5, 0.95);
      MedianIsMidQuantile(sorted);
      MeanBetween(xs);
      VarianceZeroIffConstant(xs);
    }
  }

  /**
   * Building the frame loses nothing and invents nothing: every point is counted, and
   * the parsed values are exactly the points' value texts that parse, in series order.
   */
  lemma {:induction false} FrameValues(points: seq<RawPoint>, parse: Parser)
    ensures StatsOf(ToFrame(points, parse)).totalSamples == |points|
    ensures Values(ToFrame(points, parse)) == FilterMap(points, ParsedText(parse))
  {
    if points != [] {
      FrameValues(points[1..], parse);
      assert ToFrame(points, parse)[1..] == ToFrame(points[1..], parse);
    }
  }

  /**
   * `peak_times` lists the samples strictly above the 95th percentile and `low_times`
   * those strictly below the 5th, as `FirstListedBeyond` describes.  With no parsed value
   * there is no percentile and both lists are empty.
   */
  lemma ExtremeTimes(df: Frame)
    ensures var st := StatsOf(df);
      && |st.peakTimes| <= Listed && |st.lowTimes| <= Listed
      && (Values(df) == [] ==> st.peakTimes == [] && st.lowTimes == [])
      && (Values(df) != [] ==>
            && st.p95.Some? && st.p5.Some?
            && FirstListedBeyond(df, Over, st.p95.value, st.peakTimes)
            && FirstListedBeyond(df, Under, st.p5.value, st.lowTimes))
  {
    if Values(df) != [] {
      var st := StatsOf(df);
      ListedCandidates(df, Over, st.p95.value);
      ListedCandidates(df, Under, st.p5.value);
    }
  }

  /** The first five candidates are listed as `FirstListedBeyond` describes. */
  lemma ListedCandidates(df: Frame, side: Side, threshold: real)
    ensures FirstListedBeyond(df, side, threshold, Take(Candidates(df, side, threshold), Listed))
  {
    var candidates := Candidates(df, side, threshold);
    var r := Take(candidates, Listed);
    forall t | t in r
      ensures exists i :: (0 <= i < |df| &&
        df[i].time == t && df[i].value.Some? && Beyond(side, df[i].value.value, threshold))
    {
      assert t in candidates;
      CandidateMember(df, side, threshold, t);
    }
    if |candidates| <= Listed {
      forall i | 0 <= i < |df| && df[i].value.Some? && Beyond(side, df[i].value.value, threshold)
        ensures df[i].time in r
      {
        CandidateMember(df, side, threshold, df[i].time);
      }
    }
  }

  /** A time is a candidate exactly when some sample at that time lies strictly beyond the threshold. */
  lemma CandidateMember(df: Frame, side: Side, threshold: real, t: real)
    ensures t in Candidates(df, side, threshold) <==>
      exists i :: 0 <= i < |df| && df[i].time == t && df[i].value.Some? && Beyond(side, df[i].value.value, threshold)
  {
    FilterMapMember(df, TimeBeyond(side, threshold), t);
  }

  /**
   * A row whose value did not parse changes only `totalSamples`: wherever it sits in
   * the frame, every other statistic is the one of the frame without it.
   */
  lemma UnparsedRowOnlyCounted(a: Frame, b: Frame, t: real)
    ensures StatsOf(a + [Sample(t, None)] + b) == StatsOf(a + b).(totalSamples := |a| + |b| + 1)
  {
    var x := Sample(t, None);
    FilterMapSkip(a, x, b, ValueOf);
    var xs := Values(a + b);
    if xs != [] {
      var sorted := SortedValues(xs);
      FilterMapSkip(a, x, b, TimeBeyond(Over, Quantile(sorted, 0.95)));
      FilterMapSkip(a, x, b, TimeBeyond(Under, Quantile(sorted, 0.05)));
    }
  }

  /**
   * One hundred evenly spaced values 0, 1, ..., 99, in any order: the 95th percentile
   * is 94.05 and the 5th is 4.95, by interpolation between neighbouring order statistics.
   */
  lemma PercentileScenario(df: Frame)
    requires multiset(Values(df)) == multiset(seq(100, i => i as real))
    ensures StatsOf(df).p95 == Some(94.05) && StatsOf(df).p5 == Some(4.95)
  {
    var iota := seq(100, i => i as real);
    assert Sorted(iota);
    var xs := Values(df);
    assert |xs| == 100 by {
      assert |multiset(xs)| == |multiset(iota)|;
    }
    SortedUnique(SortedValues(xs), iota);
    assert Mul(0.95, 99.0) == 94.05 && (94.05).Floor == 94;
    assert Mul(0.05, 99.0) == 4.95 && (4.95).Floor == 4;
  }
}
