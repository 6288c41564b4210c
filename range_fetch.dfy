/**
 * `fetch_prometheus_data`: a range query against the metrics backend, retried with a
 * linear backoff while attempts raise, and classified into a frame of timestamped
 * samples or "no data".
 *
 * The backend is an oracle: `oracle(k)` is what attempt `k` (counted from 0) sees,
 * from the HTTP request through JSON decoding.  `time.sleep` is recorded as the
 * sequence of delays, in seconds, that the run asks for.
 */
module RangeFetch {
  import opened Wrappers

  /** `pd.to_numeric(..., errors='coerce')` on one value string: `None` where it gives NaN. */
  type Parser = string -> Option<real>

  /** One `[timestamp, value]` pair of a series' `values`. */
  datatype RawPoint = RawPoint(time: real, text: string)

  /** What one attempt sees. */
  datatype Attempt =
    | RequestFailed
      // `requests` raised: connection error, timeout, non-2xx status
    | Malformed
      // the decoded body has no `data`, or `data` has no `result`
    | Result(series: seq<Option<seq<RawPoint>>>)
      // `data.result`; `None` marks a series without a `values` key
    | OtherError
      // any other exception raised inside the attempt

  /** One row of the returned frame; a value that did not parse stays as `None` (NaN). */
  datatype Sample = Sample(time: real, value: Option<real>)

  type Frame = seq<Sample>

  /** How an attempt ends: go round the loop again, or return `frame` at once. */
  datatype Step = Retry | Stop(frame: Option<Frame>)

  /** What a whole call does: its return value, the requests it made and the sleeps it asked for. */
  datatype Trace = Trace(frame: Option<Frame>, requests: nat, sleeps: seq<nat>)

  /** Seconds slept after failed attempt `k`. */
  function Backoff(k: nat): nat
  {
    5 * (k + 1)
  }

  /**
   * The frame built from a series' values.  The numeric column is reassigned from a
   * `dropna()`'d copy, and pandas aligns that copy on the index, so every point keeps
   * its row and a value that did not parse reads back as NaN.
   */
  function ToFrame(points: seq<RawPoint>, parse: Parser): (df: Frame)
    // the row-by-row view callers index the frame by; `FrameValues` states what it means
    ensures |df| == |points|
    ensures forall i :: 0 <= i < |points| ==> df[i] == Sample(points[i].time, parse(points[i].text))
  {
    seq(|points|, i requires 0 <= i < |points| => Sample(points[i].time, parse(points[i].text)))
  }

  /** The parser applied to one point's value text. */
  function ParsedText(parse: Parser): RawPoint -> Option<real>
  {
    (p: RawPoint) => parse(p.text)
  }

  /**
   * The body of one attempt.  Exceptions (a failed request, a missing `values` key,
   * anything else) retry; a malformed body, an empty `result` and an empty `values`
   * return "no data" at once; otherwise the frame is returned.  The all-NaN guard that
   * follows the frame's construction never fires: the frame has one row per point and
   * there is at least one point.
   */
  function Classify(a: Attempt, parse: Parser): Step
  {
    match a
    case RequestFailed => Retry
    case OtherError => Retry
    case Malformed => Stop(None)
    case Result(series) =>
      if series == [] then Stop(None)
      else
        match series[0]
        case None => Retry
        case Some(values) =>
          if values == [] then Stop(None) else Stop(Some(ToFrame(values, parse)))
  }

  /**
   * Exceptions retry; "no data" is a malformed body, an empty result or empty values;
   * a frame, when returned, has one row per point of the first series and is never empty.
   */
  lemma ClassifyCases(a: Attempt, parse: Parser)
    ensures var r := Classify(a, parse);
      && (r.Retry? <==>
            a.RequestFailed? || a.OtherError? || (a.Result? && a.series != [] && a.series[0].None?))
      && (r == Stop(None) <==>
            a.Malformed? || (a.Result? && (a.series == [] || a.series[0] == Some([]))))
      && (r.Stop? && r.frame.Some? ==>
            && a.Result? && a.series != [] && a.series[0].Some?
            && r.frame.value == ToFrame(a.series[0].value, parse)
            && |r.frame.value| == |a.series[0].value| > 0)
  {
  }

  /** The run from attempt `k` on: the requests and sleeps it adds, and what it returns. */
  function FetchFrom(oracle: nat -> Attempt, retries: nat, parse: Parser, k: nat): Trace
    requires k <= retries
    decreases retries - k
  {
    if k == retries then Trace(None, 0, [])
    else
      match Classify(oracle(k), parse)
      case Stop(frame) => Trace(frame, 1, [])
      case Retry =>
        var rest := FetchFrom(oracle, retries, parse, k + 1);
        Trace(rest.frame, rest.requests + 1, [Backoff(k)] + rest.sleeps)
  }

  /** A whole call with `retries` attempts allowed. */
  function Fetch(oracle: nat -> Attempt, retries: nat, parse: Parser): Trace
  {
    FetchFrom(oracle, retries, parse, 0)
  }

  /** `t`, preceded by attempts that each slept for one of `done`. */
  function Resume(done: seq<nat>, t: Trace): Trace
  {
    Trace(t.frame, |done| + t.requests, done + t.sleeps)
  }

  /** One turn of the loop, after the attempts that slept for `done`. */
  lemma ResumeStep(oracle: nat -> Attempt, retries: nat, parse: Parser, k: nat, done: seq<nat>)
    requires k < retries && |done| == k
    ensures var here := Resume(done, FetchFrom(oracle, retries, parse, k));
      match Classify(oracle(k), parse)
      case Stop(frame) => here == Trace(frame, k + 1, done)
      case Retry => here == Resume(done + [Backoff(k)], FetchFrom(oracle, retries, parse, k + 1))
  {
    var rest := FetchFrom(oracle, retries, parse, k + 1);
    if Classify(oracle(k), parse).Retry? {
      assert done + ([Backoff(k)] + rest.sleeps) == (done + [Backoff(k)]) + rest.sleeps;
    }
  }

  /** The retry loop. */
  method FetchRange(oracle: nat -> Attempt, retries: nat, parse: Parser)
      returns (frame: Option<Frame>, requests: nat, sleeps: seq<nat>)
    ensures Trace(frame, requests, sleeps) == Fetch(oracle, retries, parse)
  {
    sleeps := [];
    var attempt := 0;
    while attempt < retries
      invariant attempt <= retries && |sleeps| == attempt
      invariant Fetch(oracle, retries, parse) == Resume(sleeps, FetchFrom(oracle, retries, parse, attempt))
    {
      var step := Classify(oracle(attempt), parse);
      ResumeStep(oracle, retries, parse, attempt, sleeps);
      if step.Stop? {
        return step.frame, attempt + 1, sleeps;
      }
      sleeps := sleeps + [Backoff(attempt)];
      attempt := attempt + 1;
    }
    return None, retries, sleeps;
  }

  /** Closed form of the run from attempt `k`. */
  lemma {:induction false} FetchFromShape(oracle: nat -> Attempt, retries: nat, parse: Parser, k: nat)
    requires k <= retries
    decreases retries - k
    ensures var t := FetchFrom(oracle, retries, parse, k);
      && t.requests <= retries - k
      && (t.requests == |t.sleeps| || t.requests == |t.sleeps| + 1)
      && (forall i :: 0 <= i < |t.sleeps| ==>
            t.sleeps[i] == Backoff(k + i) && Classify(oracle(k + i), parse).Retry?)
      && (t.requests == |t.sleeps| ==> k + t.requests == retries && t.frame.None?)
      && (t.requests == |t.sleeps| + 1 ==> Classify(oracle(k + |t.sleeps|), parse) == Stop(t.frame))
  {
    if k < retries && Classify(oracle(k), parse).Retry? {
      FetchFromShape(oracle, retries, parse, k + 1);
      var rest := FetchFrom(oracle, retries, parse, k + 1);
      var t := FetchFrom(oracle, retries, parse, k);
      assert t.sleeps == [Backoff(k)] + rest.sleeps;
      forall i | 0 <= i < |t.sleeps|
        ensures t.sleeps[i] == Backoff(k + i) && Classify(oracle(k + i), parse).Retry?
      {
        if i > 0 {
          assert t.sleeps[i] == rest.sleeps[i - 1];
          assert k + i == (k + 1) + (i - 1);
        }
      }
    }
  }

  /**
   * Every call: at most `retries` requests; every request but possibly the last one
   * raised and was followed by a sleep of `5 * (k + 1)` seconds; the run either used up
   * all attempts and returns nothing, or returns what its last attempt classified to.
   * With no attempts allowed there is no request and nothing is returned.
   */
  lemma FetchShape(oracle: nat -> Attempt, retries: nat, parse: Parser)
    ensures var t := Fetch(oracle, retries, parse);
      && t.requests <= retries
      && (retries == 0 ==> t == Trace(None, 0, []))
      && (forall k :: 0 <= k < |t.sleeps| ==>
            t.sleeps[k] == 5 * (k + 1) && Classify(oracle(k), parse).Retry?)
      && (t.requests == |t.sleeps| ==> t.requests == retries && t.frame.None?)
      && (t.requests == |t.sleeps| + 1 ==> Classify(oracle(|t.sleeps|), parse) == Stop(t.frame))
      && (t.requests == |t.sleeps| || t.requests == |t.sleeps| + 1)
  {
    FetchFromShape(oracle, retries, parse, 0);
    var t := Fetch(oracle, retries, parse);
    forall k | 0 <= k < |t.sleeps|
      ensures t.sleeps[k] == 5 * (k + 1) && Classify(oracle(k), parse).Retry?
    {
      assert t.sleeps[k] == Backoff(0 + k) && Classify(oracle(0 + k), parse).Retry?;
    }
  }

  /**
   * When every attempt raises, the call makes exactly `retries` requests, sleeps after
   * each of them (the last included) and returns nothing.
   */
  lemma AllAttemptsRaise(oracle: nat -> Attempt, retries: nat, parse: Parser)
    requires forall k :: 0 <= k < retries ==> Classify(oracle(k), parse).Retry?
    ensures var t := Fetch(oracle, retries, parse);
      && t.frame.None? && t.requests == retries && |t.sleeps| == retries
      && forall k :: 0 <= k < retries ==> t.sleeps[k] == 5 * (k + 1)
  {
    FetchShape(oracle, retries, parse);
  }

  /**
   * The first attempt that does not raise decides the call: nothing after it is
   * requested, and it is preceded by exactly one sleep per raising attempt.  This
   * covers a success (returned at once) as well as a malformed body, an empty result
   * and empty values (returned as "no data" with no retry).
   */
  lemma FirstStopDecides(oracle: nat -> Attempt, retries: nat, parse: Parser, j: nat)
    requires j < retries
    requires forall k :: 0 <= k < j ==> Classify(oracle(k), parse).Retry?
    requires Classify(oracle(j), parse).Stop?
    ensures var t := Fetch(oracle, retries, parse);
      && t.frame == Classify(oracle(j), parse).frame
      && t.requests == j + 1 && |t.sleeps| == j
      && forall k :: 0 <= k < j ==> t.sleeps[k] == 5 * (k + 1)
  {
    FetchShape(oracle, retries, parse);
  }

  /** A body that is malformed, or holds no series, or whose first series has no values, ends the call after one request and no sleep. */
  lemma NoDataStopsAtOnce(oracle: nat -> Attempt, retries: nat, parse: Parser)
    requires retries > 0
    requires var a := oracle(0);
      a.Malformed? || (a.Result? && (a.series == [] || a.series[0] == Some([])))
    ensures Fetch(oracle, retries, parse) == Trace(None, 1, [])
  {
    ClassifyCases(oracle(0), parse);
    FirstStopDecides(oracle, retries, parse, 0);
  }

  /** A frame that is returned has one row per point of the first series, so it is never empty. */
  lemma ReturnedFrameComplete(oracle: nat -> Attempt, retries: nat, parse: Parser)
    ensures var t := Fetch(oracle, retries, parse);
      t.frame.Some? ==>
        var a := oracle(t.requests - 1);
        && t.requests >= 1
        && a.Result? && a.series != [] && a.series[0].Some?
        && t.frame.value == ToFrame(a.series[0].value, parse)
        && |t.frame.value| == |a.series[0].value| > 0
  {
    FetchShape(oracle, retries, parse);
    var t := Fetch(oracle, retries, parse);
    if t.frame.Some? {
      ClassifyCases(oracle(t.requests - 1), parse);
    }
  }
}
