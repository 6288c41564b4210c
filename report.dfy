/**
 * The weekly report script around the fetch and the analysis: the start-up check of
 * the required environment variables, the three range queries, and the decision to
 * build a report only when some metric has data.  Charts, the PDF, the language-model
 * summary and the e-mail are not part of this model.
 */
module ReportScript {
  import opened Wrappers
  import opened Lists
  import opened RangeFetch
  import opened MetricsAnalysis

  /** `os.getenv`: the value of a variable, `None` when it is not set. */
  type Environment = string -> Option<string>

  /** The variables the script needs, in declaration order. */
  const RequiredVars: seq<string> := ["GEMINI_API_KEY", "EMAIL_ADDRESS", "EMAIL_PASSWORD", "EMAIL_RECIPIENT"]

  /** The metrics fetched, in the order of the result dictionary. */
  const Metrics: seq<string> := ["cpu", "battery", "storage"]

  /** Attempts allowed per query (the default of `fetch_prometheus_data`). */
  const Retries: nat := 3

  /** A value is missing when it is unset or empty (Python's `not v`). */
  predicate Unset(v: Option<string>)
  {
    v.None? || v.value == ""
  }

  function MissingIfUnset(env: Environment): string -> Option<string>
  {
    name => if Unset(env(name)) then Some(name) else None
  }

  /** The names of the required variables that are missing, in declaration order. */
  function MissingVars(env: Environment): seq<string>
  {
    FilterMap(RequiredVars, MissingIfUnset(env))
  }

  /** `[name]` when `name` is missing, else nothing. */
  function IfMissing(env: Environment, name: string): seq<string>
  {
    if Unset(env(name)) then [name] else []
  }

  /** The missing names, written out one required variable at a time. */
  lemma MissingVarsInOrder(env: Environment)
    ensures MissingVars(env) ==
      IfMissing(env, "GEMINI_API_KEY") + IfMissing(env, "EMAIL_ADDRESS") +
      IfMissing(env, "EMAIL_PASSWORD") + IfMissing(env, "EMAIL_RECIPIENT")
  {
    var select := MissingIfUnset(env);
    assert RequiredVars[1..][1..][1..][1..] == [];
    assert FilterMap(RequiredVars[1..][1..][1..], select) == IfMissing(env, "EMAIL_RECIPIENT");
    assert FilterMap(RequiredVars[1..][1..], select) ==
      IfMissing(env, "EMAIL_PASSWORD") + IfMissing(env, "EMAIL_RECIPIENT");
    assert FilterMap(RequiredVars[1..], select) ==
      IfMissing(env, "EMAIL_ADDRESS") + IfMissing(env, "EMAIL_PASSWORD") + IfMissing(env, "EMAIL_RECIPIENT");
  }

  /** A name is reported missing exactly when it is required and its value is unset or empty. */
  lemma MissingVarsMember(env: Environment, name: string)
    ensures name in MissingVars(env) <==> name in RequiredVars && Unset(env(name))
  {
    FilterMapMember(RequiredVars, MissingIfUnset(env), name);
  }

  /** Nothing is reported missing exactly when every required variable has a non-empty value. */
  lemma NothingMissing(env: Environment)
    ensures MissingVars(env) == [] <==> forall i :: 0 <= i < |RequiredVars| ==> !Unset(env(RequiredVars[i]))
  {
    FilterMapEmpty(RequiredVars, MissingIfUnset(env));
  }

  /**
   * `get_all_metrics_data`: one range query per metric, each with its own sequence of
   * attempt outcomes, run one after the other.
   */
  method GatherMetrics(backend: string -> (nat -> Attempt), parse: Parser)
      returns (data: seq<(string, Option<Frame>)>, requests: nat, sleeps: seq<nat>)
    ensures |data| == |Metrics|
    ensures forall i :: 0 <= i < |Metrics| ==>
      data[i] == (Metrics[i], Fetch(backend(Metrics[i]), Retries, parse).frame)
    ensures requests ==
      Fetch(backend("cpu"), Retries, parse).requests + Fetch(backend("battery"), Retries, parse).requests +
      Fetch(backend("storage"), Retries, parse).requests
    ensures sleeps ==
      Fetch(backend("cpu"), Retries, parse).sleeps + Fetch(backend("battery"), Retries, parse).sleeps +
      Fetch(backend("storage"), Retries, parse).sleeps
    ensures requests <= |Metrics| * Retries
  {
    var cpu, n1, s1 := FetchRange(backend("cpu"), Retries, parse);
    var battery, n2, s2 := FetchRange(backend("battery"), Retries, parse);
    var storage, n3, s3 := FetchRange(backend("storage"), Retries, parse);
    FetchShape(backend("cpu"), Retries, parse);
    FetchShape(backend("battery"), Retries, parse);
    FetchShape(backend("storage"), Retries, parse);
    data := [("cpu", cpu), ("battery", battery), ("storage", storage)];
    requests := n1 + n2 + n3;
    sleeps := s1 + s2 + s3;
  }

  /** Whether some fetched frame is present and non-empty (the report is built only then). */
  predicate HasData(data: seq<(string, Option<Frame>)>)
  {
    exists i :: 0 <= i < |data| && data[i].1.Some? && data[i].1.value != []
  }

  /** How a run of the script ends. */
  datatype Run =
    | ConfigError(missing: seq<string>)
      // exit status 1 before any query
    | Ran(analysis: seq<(string, Option<Stats>)>, requests: nat, sleeps: seq<nat>, reported: bool)
      // `reported`: a report was built and sent

  /**
   * A run of the script: the start-up check, then the queries, the analysis and the
   * decision to report.
   */
  method GenerateReport(env: Environment, backend: string -> (nat -> Attempt), parse: Parser) returns (run: Run)
    ensures run.ConfigError? <==> MissingVars(env) != []
    ensures run.ConfigError? ==> run.missing == MissingVars(env)
    ensures run.Ran? ==> |run.analysis| == |Metrics| && forall i :: 0 <= i < |Metrics| ==>
      run.analysis[i] == (Metrics[i], Summarize(Fetch(backend(Metrics[i]), Retries, parse).frame))
    ensures run.Ran? ==> (run.requests ==
      Fetch(backend("cpu"), Retries, parse).requests + Fetch(backend("battery"), Retries, parse).requests +
      Fetch(backend("storage"), Retries, parse).requests)
    ensures run.Ran? ==> (run.sleeps ==
      Fetch(backend("cpu"), Retries, parse).sleeps + Fetch(backend("battery"), Retries, parse).sleeps +
      Fetch(backend("storage"), Retries, parse).sleeps)
    ensures run.Ran? ==> run.requests <= |Metrics| * Retries
    ensures run.Ran? ==> (run.reported <==> exists i :: 0 <= i < |run.analysis| && run.analysis[i].1.Some?)
  {
    var missing := MissingVars(env);
    if missing != [] {
      return ConfigError(missing);
    }
    var data, requests, sleeps := GatherMetrics(backend, parse);
    var analysis := AnalyzeMetrics(data);
    var reported := HasData(data);
    return Ran(analysis, requests, sleeps, reported);
  }
}
