# telemetry-llm: metrics fetch, analysis and CPU outlier monitor, modelled in Dafny

The repository holds two Python scripts that watch a host through its Prometheus metrics.

- `telemetry-llm/system_report.py` is the weekly report. At start-up it checks four
  environment variables and exits if any is missing. It then fetches seven days of CPU,
  battery and storage samples with `fetch_prometheus_data`. That call makes up to
  `retries` attempts, sleeping `5 * (attempt + 1)` seconds after each failed one.
  `analyze_metrics_data` then reduces every series to descriptive statistics: mean, median,
  min, max, sample `std`, the 5th and 95th percentiles, the sample count, and the first
  five times above the 95th percentile or below the 5th. A report is built only when some
  metric has data.
- `telemetry-llm/monitor.py` reads the current CPU usage with one instant query. It
  appends the reading to `cpu_data.csv`, which gets a header only when the file is
  created. It then judges the reading with a z-score against the population mean and
  standard deviation of the whole file, the new row included.

The model works over exact reals. A value that does not parse (pandas' NaN) is `None`.

The modules are:

- `Wrappers`: `Option`.
- `Lists`: the list comprehension and boolean-mask selection as `FilterMap`, and slicing
  to the first `n` items as `Take`.
- `Numeric`: the pandas and numpy reductions. These are sums, means, population and
  sample variance, min and max, sorting, linear-interpolation quantiles and the median.
- `RangeFetch`: the retry loop, as a method proved against a recursive specification
  (`ResumeStep` carries one turn of the loop), and `ToFrame`, which builds a series' frame
  with one row per point.
- `MetricsAnalysis`: the statistics reducer.
- `ReportScript`: the environment check, the three queries and the report decision.
- `Monitor`: the instant query, the append-only sample file as a class, the `cpu`
  column read back from it (`CpuColumn`), the z-score verdict and the monitor's main block.

Points where the code's behaviour is easy to misread:

- `total_samples` is `len(df)`. Line 79 of `system_report.py` assigns a `dropna()`'d
  column back into the frame, and pandas aligns it on the index. So rows whose value did
  not parse stay in the frame as NaN and are counted. They are not dropped. Every other
  statistic skips them (`MetricsAnalysis.UnparsedRowOnlyCounted`).
- For the same reason, the "All NaN" guard at lines 81-83 never fires. A frame built from
  a non-empty `values` list is never empty (`RangeFetch.ReturnedFrameComplete`). A series
  whose values are all non-numeric is therefore returned, and every statistic except the
  count is NaN and no peak or low time is listed. It is not treated as "no data".
- `std` is pandas' sample deviation. With a single parsed value it is NaN (`None`), not 0.
- A sleep follows every failed attempt, the last one included, so `retries = 3` sleeps
  5, 10 and 15 seconds before giving up.
- For the column `10, 10, 10, 10, 90` the population deviation is exactly 32 and z exactly
  2, so the strict test does not flag it. More generally, a reading counted in its own baseline is never flagged while the file
  holds at most five rows (`Monitor.FewRowsNeverFlagged`).
- `monitor.py` runs a single cycle and then exits. It has no polling loop and no sleep.

## Model

| member | source | states |
|---|---|---|
| Numeric.SortedValues | telemetry-llm/system_report.py:112-117 | the values the median and quantiles are taken over are the column's values in ascending order: same length, same multiset, sorted |
| Numeric.SortedUnique | telemetry-llm/system_report.py:112-117 | a column has only one ascending arrangement, so the order statistics are well defined |
| Numeric.Min | telemetry-llm/system_report.py:114 | `min` is one of the values and no value is smaller |
| Numeric.Max | telemetry-llm/system_report.py:113 | `max` is one of the values and no value is larger |
| Numeric.Quantile | telemetry-llm/system_report.py:116-117 | a linearly interpolated quantile of the sorted values lies between the smallest and the largest value |
| Numeric.QuantileMonotone | telemetry-llm/system_report.py:116-117 | quantiles grow with `q` |
| Numeric.MedianIsMidQuantile | telemetry-llm/system_report.py:112 | the median (middle value, or the mean of the two middle values) is the 0.5 quantile |
| Numeric.Mean | telemetry-llm/system_report.py:111 | a definition without a contract: the sum divided by the count; `Numeric.MeanBetween` bounds it and `Numeric.SumConstant` and `Numeric.SumSnoc` evaluate it |
| Numeric.Median | telemetry-llm/system_report.py:112 | a definition without a contract: the middle value, or the mean of the two middle values, of the sorted column; `Numeric.MedianIsMidQuantile` equates it with the 0.5 quantile |
| Numeric.MeanBetween | telemetry-llm/system_report.py:111 | the mean lies between the minimum and the maximum |
| Numeric.PopVariance | telemetry-llm/monitor.py:38 | the population variance (divide by N, the square of `np.std`) is never negative |
| Numeric.SampleVariance | telemetry-llm/system_report.py:115 | the sample variance (divide by N - 1, the square of `Series.std`) is never negative |
| Numeric.VarianceZeroIffConstant | telemetry-llm/system_report.py:115 | both variances are zero exactly when all values are equal |
| Numeric.SelfInclusionBound | telemetry-llm/monitor.py:35-40 | a value that is part of its own column is at most `sqrt(N - 1)` population deviations from the mean: `(c - mean)^2 <= (N - 1) * variance` |
| RangeFetch.Classify | telemetry-llm/system_report.py:53-93 | a definition without a contract: one attempt's outcome, retry or return; `RangeFetch.ClassifyCases` characterizes each outcome |
| RangeFetch.ClassifyCases | telemetry-llm/system_report.py:53-93 | an attempt retries exactly when it raises, including a series without `values`; it returns "no data" exactly for a body without `data.result`, an empty result or empty values; a returned frame has one row per point and is never empty |
| RangeFetch.FetchFrom | telemetry-llm/system_report.py:52-96 | a definition without a contract: the run from attempt `k` on; `RangeFetch.FetchFromShape` gives its closed form |
| RangeFetch.Fetch | telemetry-llm/system_report.py:52-96 | a definition without a contract: the whole call, the specification `RangeFetch.FetchRange` is proved against; `RangeFetch.FetchShape` and its corollaries state its properties |
| RangeFetch.FetchRange | telemetry-llm/system_report.py:48-96 | the retry loop returns the frame, the number of requests and the sleeps of the recursive specification `Fetch` |
| RangeFetch.FetchShape | telemetry-llm/system_report.py:52-96 | at most `retries` requests, none when `retries = 0`; every attempt before the last raised and was followed by a sleep of `5 * (k + 1)` seconds; either all attempts were used and nothing is returned, or the last attempt's classification is returned |
| RangeFetch.AllAttemptsRaise | telemetry-llm/system_report.py:52-96 | when every attempt raises: exactly `retries` requests, a sleep of `5 * (k + 1)` after each one including the last, and nothing returned |
| RangeFetch.FirstStopDecides | telemetry-llm/system_report.py:63-86 | the first attempt that does not raise decides the result: success and "no data" alike are returned at once, with no later request and one sleep per earlier failure |
| RangeFetch.NoDataStopsAtOnce | telemetry-llm/system_report.py:63-75 | a malformed body, an empty result or empty values on the first attempt give nothing after one request and no sleep |
| RangeFetch.ReturnedFrameComplete | telemetry-llm/system_report.py:77-86 | a returned frame is the one built from the last request's first series, has one row per point of the first series and is never empty, so the all-NaN guard cannot fire |
| MetricsAnalysis.FrameValues | telemetry-llm/system_report.py:77-79 | the frame built from a series counts every point, and its parsed values are exactly the point values that parse, in series order |
| MetricsAnalysis.StatsOf | telemetry-llm/system_report.py:110-121 | a definition without a contract: the statistics of one frame; `MetricsAnalysis.StatsOrdered`, `MetricsAnalysis.ExtremeTimes` and `MetricsAnalysis.UnparsedRowOnlyCounted` state its properties |
| MetricsAnalysis.Summarize | telemetry-llm/system_report.py:106-126 | a metric's entry is absent exactly when its frame is absent or empty, and otherwise holds its statistics |
| MetricsAnalysis.AnalyzeMetrics | telemetry-llm/system_report.py:106-126 | one entry per input metric, with the same key in the same order, absent exactly when the frame is absent or empty |
| MetricsAnalysis.StatsOrdered | telemetry-llm/system_report.py:110-118 | over the parsed values, `min <= p5 <= median <= p95 <= max` and `min <= mean <= max`; `total_samples` is the row count; `std` is defined from two parsed values on and is zero exactly for equal values; with no parsed value every statistic is NaN and no time is listed |
| MetricsAnalysis.ExtremeTimes | telemetry-llm/system_report.py:119-120 | `peak_times` holds exactly `min(count, 5)` times, a prefix in series order of the times of samples strictly above the 95th percentile, each such a time, and all of them when there are at most five; `low_times` likewise below the 5th; both are empty when no value parsed |
| MetricsAnalysis.ListedCandidates | telemetry-llm/system_report.py:119-120 | for either side of a threshold, the listed times are exactly `min(count, 5)`, a prefix of the candidates in series order, each the time of a sample strictly beyond the threshold, and with at most five candidates every such sample's time is listed |
| Lists.Take | telemetry-llm/system_report.py:119-120 | `[:5]` keeps `min(len, 5)` elements, and they are the list's first ones |
| MetricsAnalysis.CandidateMember | telemetry-llm/system_report.py:119-120 | a time is a candidate exactly when some sample at that time has a value strictly beyond the threshold, above for peaks and below for lows (NaN never is) |
| MetricsAnalysis.UnparsedRowOnlyCounted | telemetry-llm/system_report.py:79-120 | a row whose value did not parse, wherever it is, raises `total_samples` by one and changes no other statistic |
| MetricsAnalysis.PercentileScenario | telemetry-llm/system_report.py:116-117 | for the values 0 to 99, the 95th percentile is 94.05 and the 5th is 4.95 |
| ReportScript.MissingVars | telemetry-llm/system_report.py:41 | a definition without a contract: the required names whose value is unset or empty; `ReportScript.MissingVarsInOrder`, `ReportScript.MissingVarsMember` and `ReportScript.NothingMissing` state its properties |
| ReportScript.MissingVarsInOrder | telemetry-llm/system_report.py:34-41 | the missing names are the required ones whose value is unset or empty, in declaration order |
| ReportScript.MissingVarsMember | telemetry-llm/system_report.py:41 | a name is listed exactly when it is required and its value is unset or empty |
| ReportScript.NothingMissing | telemetry-llm/system_report.py:41-44 | the list is empty exactly when every required variable has a non-empty value |
| ReportScript.GatherMetrics | telemetry-llm/system_report.py:98-102 | one fetch with three attempts per metric, keyed `cpu`, `battery`, `storage`; the requests and sleeps are those of the three fetches in turn, at most nine requests |
| ReportScript.GenerateReport | telemetry-llm/system_report.py:268-271 | a missing variable ends the run with its list before any query; otherwise each metric's entry summarizes its fetch, the requests and sleeps are those of the three fetches in turn (at most nine requests), and a report is built exactly when some entry holds statistics |
| Monitor.GetCpuUsage | telemetry-llm/monitor.py:12-22 | a reading exists exactly when the query answered, the result is non-empty, the first series has a value and it parses; it is then that value |
| Monitor.CsvFile.Append | telemetry-llm/monitor.py:24-31 | a missing file is created as a header and the row; an existing file gets the row appended with no header; the rows read back are the earlier rows followed by the new one; a well-formed file stays well formed |
| Monitor.CheckZScore | telemetry-llm/monitor.py:34-40 | a definition without a contract: the verdict without square roots; `Monitor.ZScoreAgrees` proves it equal to the script's formula |
| Monitor.ZScoreAgrees | telemetry-llm/monitor.py:37-40 | for the population deviation `std`, the square-root-free verdict equals `abs(z) > 2.0` with `z = (cpu - mean) / std` when `std > 0` and `z = 0` otherwise |
| Monitor.ConstantNeverFlagged | telemetry-llm/monitor.py:39-40 | one row, or rows that are all equal, never flag, whatever the value |
| Monitor.FewRowsNeverFlagged | telemetry-llm/monitor.py:34-40 | a reading judged against at most four earlier rows plus itself is never flagged |
| Monitor.EqualSamplesScenario | telemetry-llm/monitor.py:39-40 | five readings of 10: not flagged |
| Monitor.SelfIncludedOutlierScenario | telemetry-llm/monitor.py:37-40 | four readings of 10 and a reading of 90: the mean is 26, the deviation 32, z exactly 2, not flagged |
| Monitor.SixRowOutlierScenario | telemetry-llm/monitor.py:37-40 | five readings of 10 and a reading of 90: flagged |
| Monitor.RunCycle | telemetry-llm/monitor.py:42-51 | no reading leaves the file untouched; otherwise the row is appended first and the verdict is taken over the earlier rows plus the new one; with at most four earlier rows it is never an outlier |

## Left out

- HTTP, JSON decoding, the request timeout and the query parameters (the expression, the
  `start`/`end` window and `step`): each fetch's attempt outcomes are an oracle, and the
  instant query's answer is a parameter.
- `time.sleep`: the delays are recorded, and no wall-clock time is modelled.
- Logging, `print` and the exit status: they are effects without state. A missing
  variable is the `ConfigError` outcome, and a missing CPU reading is `NoReading`.
- `datetime.now()`, `utcnow().isoformat()`, `pd.to_datetime` and the `strftime`
  rendering of peak and low times. Times are kept as numbers, and the CSV timestamp as an
  opaque string given to the cycle.
- IEEE-754 arithmetic and rounding: values are exact reals. `pd.to_numeric(errors='coerce')`
  and `float()` are parser parameters, so the strings `nan`/`inf` and other special
  values are whatever the parser says. The CSV text written and read back is taken to
  round-trip exactly.
- MetricsAnalysis.StatsOf: reports `std` as its square, the sample variance, because
  square roots are not exact over the reals. Ordering and zero facts carry over to `std`
  unchanged.
- Monitor.CheckZScore: is stated over the variance rather than `np.std`, for the same
  reason. `Monitor.ZScoreAgrees` proves it equal to the script's formula for the
  population deviation.
- The order of pandas' and numpy's floating-point summation: over reals the sum does not
  depend on it.
- Python dictionaries are sequences of key/value pairs in insertion order. Keys are not
  checked for uniqueness, since the script's dictionaries are literals with distinct
  keys.
- Monitor.RunCycle: requires a well-formed sample file (a header, then records). A file
  edited by hand, with no header or an extra header, would be read differently by
  `pd.read_csv`, and that case is not modelled.
- `plot_graphs`, `SystemReportPDF`, `send_email`, the CrewAI/Gemini agents in `main` and
  `load_dotenv`: these are foreign libraries and I/O with no logic the core depends on.
  The model stops at the decision to build the report.
- The Prometheus base URLs and query expressions are configuration constants.
