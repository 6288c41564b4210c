/**
 * The CPU monitor: one instant query, the reading appended to the sample file, and a
 * z-score verdict on the new reading against every sample in the file, itself included.
 */
module Monitor {
  import opened Wrappers
  import opened Lists
  import opened Numeric

  /**
   * The answer to the instant query.  `Raised`: the request, the JSON decoding or the
   * lookup of `data.result` raised.  Otherwise the result list, one entry per series:
   * the string at `value[1]`, or `None` when that lookup raises.
   */
  datatype InstantReply = Raised | Answered(result: seq<Option<string>>)

  /** Python's `float()` on a string: `None` where it raises. */
  type FloatParser = string -> Option<real>

  /**
   * `get_cpu_usage`: the first series' value, or `None` for an empty result and for any
   * exception; it never raises and never retries.
   */
  function GetCpuUsage(reply: InstantReply, parseFloat: FloatParser): (cpu: Option<real>)
    ensures cpu.Some? <==>
      reply.Answered? && reply.result != [] && reply.result[0].Some? &&
      parseFloat(reply.result[0].value).Some?
    ensures cpu.Some? ==> cpu == parseFloat(reply.result[0].value)
  {
    match reply
    case Raised => None
    case Answered(result) =>
      if result == [] then None
      else
        match result[0]
        case None => None
        case Some(text) => parseFloat(text)
  }

  /** One record of the sample file; the timestamp is the ISO-8601 text it was written with. */
  datatype Row = Row(timestamp: string, cpu: real)

  /** A line of the sample file. */
  datatype Line = Header | Record(row: Row)

  function RecordOf(line: Line): Option<Row>
  {
    if line.Record? then Some(line.row) else None
  }

  /** The sample file, which is only ever created or appended to. */
  class CsvFile {
    /** The file's lines, or `None` while the file does not exist. */
    var lines: Option<seq<Line>>

    /** A file that does not exist yet. */
    constructor ()
      ensures lines == None
      ensures Valid()
    {
      lines := None;
    }

    /** The file, once it exists, is one header line followed by records. */
    ghost predicate Valid()
      reads this
    {
      lines.Some? ==>
        |lines.value| > 0 && lines.value[0] == Header &&
        forall i :: 1 <= i < |lines.value| ==> lines.value[i].Record?
    }

    /** The records, in file order: what `pd.read_csv` returns for a valid file. */
    function Rows(): seq<Row>
      reads this
    {
      if lines.None? then [] else FilterMap(lines.value, RecordOf)
    }

    /**
     * `update_csv`: creates the file with a header and the row when it does not exist,
     * and otherwise appends the row with no header.
     */
    method Append(timestamp: string, cpu: real)
      modifies this
      ensures old(lines).None? ==> lines == Some([Header, Record(Row(timestamp, cpu))])
      ensures old(lines).Some? ==> lines == Some(old(lines).value + [Record(Row(timestamp, cpu))])
      ensures Rows() == old(Rows()) + [Row(timestamp, cpu)]
      ensures old(Valid()) ==> Valid()
    {
      var record := Record(Row(timestamp, cpu));
      if lines.Some? {
        FilterMapAppend(lines.value, [record], RecordOf);
        lines := Some(lines.value + [record]);
      } else {
        assert [Header, record][1..] == [record];
        assert FilterMap([record], RecordOf) == [record.row] + FilterMap([record][1..], RecordOf);
        lines := Some([Header, record]);
      }
    }
  }

  /** The `cpu` column. */
  function CpuColumn(rows: seq<Row>): (column: seq<real>)
    // the row-by-row view the proof of `RunCycle` indexes the column by
    ensures |column| == |rows|
    ensures forall i :: 0 <= i < |rows| ==> column[i] == rows[i].cpu
  {
    seq(|rows|, i requires 0 <= i < |rows| => rows[i].cpu)
  }

  /**
   * `check_zscore` without square roots: `|z| > 2` with `z = (cpu - mean) / std` is
   * `(cpu - mean)^2 > 4 * variance` once `std = sqrt(variance) > 0`, and `z = 0` when
   * the population variance is zero (or the column is empty, where it is NaN).
   */
  predicate CheckZScore(column: seq<real>, cpu: real)
  {
    |column| > 0 && PopVariance(column) > 0.0 &&
    Square(cpu - Mean(column)) > Mul(4.0, PopVariance(column))
  }

  function Abs(x: real): real
  {
    if x < 0.0 then -x else x
  }

  /** The verdict as the script computes it, from the population standard deviation `std`. */
  predicate ScriptVerdict(column: seq<real>, cpu: real, std: real)
    requires |column| > 0
  {
    var z := if std > 0.0 then (cpu - Mean(column)) / std else 0.0;
    Abs(z) > 2.0
  }

  /** For the population standard deviation, the square-root-free verdict is the script's. */
  lemma ZScoreAgrees(column: seq<real>, cpu: real, std: real)
    requires |column| > 0 && std >= 0.0 && Square(std) == PopVariance(column)
    ensures CheckZScore(column, cpu) == ScriptVerdict(column, cpu, std)
  {
    if std > 0.0 {
      MulPositive(std, std);
      var d := cpu - Mean(column);
      QuotientAbove(d, std, 2.0);
      QuotientAbove(-d, std, 2.0);
      assert (-d) / std == -(d / std);
      MulNonnegative(2.0, std);
      SquareLess(Mul(2.0, std), Abs(d));
      SquareNegate(d);
      assert Square(Abs(d)) == Square(d);
      SquareDouble(std);
    }
  }

  /** A single sample, or a column of equal samples, is never an outlier, whatever the value. */
  lemma ConstantNeverFlagged(column: seq<real>, cpu: real)
    requires |column| == 1 || Constant(column)
    ensures !CheckZScore(column, cpu)
  {
    if |column| > 0 {
      VarianceZeroIffConstant(column);
    }
  }

  /**
   * A value that is part of its own baseline cannot lie more than `sqrt(N - 1)` standard
   * deviations from the mean, so with at most five samples, itself included, it is never
   * an outlier.
   */
  lemma FewRowsNeverFlagged(history: seq<real>, cpu: real)
    requires |history| <= 4
    ensures !CheckZScore(history + [cpu], cpu)
  {
    var column := history + [cpu];
    SelfInclusionBound(history, cpu);
    ScaleMonotone(|history| as real, 4.0, PopVariance(column));
  }

  /** Five equal samples: the reading is not flagged. */
  lemma EqualSamplesScenario()
    ensures !CheckZScore([10.0, 10.0, 10.0, 10.0, 10.0], 10.0)
  {
    ConstantNeverFlagged([10.0, 10.0, 10.0, 10.0, 10.0], 10.0);
  }

  /**
   * Four samples of 10 and the new reading 90: the mean is 26 and the population
   * deviation 32, so the reading sits exactly two deviations out and the strict test
   * does not flag it.
   */
  lemma SelfIncludedOutlierScenario()
    ensures Mean([10.0, 10.0, 10.0, 10.0, 90.0]) == 26.0
    ensures PopVariance([10.0, 10.0, 10.0, 10.0, 90.0]) == Square(32.0)
    ensures Square(90.0 - 26.0) == Mul(4.0, Square(32.0))
    ensures !CheckZScore([10.0, 10.0, 10.0, 10.0, 90.0], 90.0)
  {
    var h := [10.0, 10.0, 10.0, 10.0];
    assert h + [90.0] == [10.0, 10.0, 10.0, 10.0, 90.0];
    SumConstant(h, 10.0);
    SumSnoc(h, 90.0);
    SqDevConstant(h, 10.0, 26.0);
    SqDevSnoc(h, 90.0, 26.0);
    FewRowsNeverFlagged([10.0, 10.0, 10.0, 10.0], 90.0);
  }

  /** With one more sample of 10 in the history, the same reading is flagged. */
  lemma SixRowOutlierScenario()
    ensures CheckZScore([10.0, 10.0, 10.0, 10.0, 10.0, 90.0], 90.0)
  {
    var h := [10.0, 10.0, 10.0, 10.0, 10.0];
    assert h + [90.0] == [10.0, 10.0, 10.0, 10.0, 10.0, 90.0];
    var m := 70.0 / 3.0;
    SumConstant(h, 10.0);
    SumSnoc(h, 90.0);
    assert Mean(h + [90.0]) == m;
    SqDevConstant(h, 10.0, m);
    SqDevSnoc(h, 90.0, m);
  }

  /** How a monitor run ends. */
  datatype Cycle = NoReading | Evaluated(cpu: real, outlier: bool)

  /**
   * The script's main block: read the CPU usage and stop when there is none; otherwise
   * append it, then judge it against the whole file, the new row included.
   */
  method RunCycle(file: CsvFile, reply: InstantReply, parseFloat: FloatParser, now: string) returns (cycle: Cycle)
    requires file.Valid()
    modifies file
    ensures file.Valid()
    ensures cycle.NoReading? <==> GetCpuUsage(reply, parseFloat).None?
    ensures cycle.NoReading? ==> file.lines == old(file.lines)
    ensures cycle.Evaluated? ==>
      && Some(cycle.cpu) == GetCpuUsage(reply, parseFloat)
      && file.Rows() == old(file.Rows()) + [Row(now, cycle.cpu)]
      && cycle.outlier == CheckZScore(CpuColumn(old(file.Rows())) + [cycle.cpu], cycle.cpu)
    ensures cycle.Evaluated? && |old(file.Rows())| <= 4 ==> !cycle.outlier
  {
    var cpu := GetCpuUsage(reply, parseFloat);
    if cpu.None? {
      return NoReading;
    }
    ghost var before := CpuColumn(file.Rows());
    file.Append(now, cpu.value);
    var column := CpuColumn(file.Rows());
    assert column == before + [cpu.value];
    if |before| <= 4 {
      FewRowsNeverFlagged(before, cpu.value);
    }
    return Evaluated(cpu.value, CheckZScore(column, cpu.value));
  }
}
