/**
 * `DataController`: the layer between the windows and the store. Every
 * operation that calls into SQLite, pandas or the spreadsheet codec catches
 * whatever that call raises and answers a pair (value, error): the error is
 * `None` on success, and on failure a message next to a fixed fallback value.
 *
 * Those calls are opaque here. Each operation takes, as parameters, the
 * outcome each foreign call would have, and it answers both its reply and the
 * list of foreign calls it reached, in order. That list is how the model
 * shows which calls an operation reaches, and with what arguments.
 */
module Controller {
  import opened Wrappers
  import opened Frame
  import opened Dashboard

  /** What a foreign call does: returns a value, or raises an exception whose `str` is `message`. */
  datatype Outcome<T> = Done(value: T) | Raised(message: string)

  /** pandas' `if_exists` policy; the windows pass one of these two. */
  datatype IfExists = Replace | Append

  /** A foreign call the controller makes. */
  datatype Call =
    | Connect(path: string)
    | ListTablesQuery
    | ReadSql(table: string)
    | ReadExcel(file: string)
    | ToSql(table: string, frame: DataFrame, ifExists: IfExists)
    | ToExcel(frame: DataFrame, file: string)
    | CloseConnection

  /** The `(value, error)` pair every operation returns. */
  datatype Reply<T> = Reply(value: T, error: Option<string>)

  /** A reply, and the foreign calls reached to produce it. */
  datatype Run<T> = Run(reply: Reply<T>, calls: seq<Call>)

  const NoDataToExport := "No data to export."

  /** `str(IndexError)` for an index past the end of a tuple. */
  const TupleIndexOutOfRange := "tuple index out of range"

  /** The error convention: a reply that carries an error carries the fallback value. */
  predicate FollowsConvention<T(==)>(r: Reply<T>, fallback: T) {
    r.error.Some? ==> r.value == fallback
  }

  /** Some call writes a table to the store or a spreadsheet to a file. */
  predicate Writes(calls: seq<Call>) {
    exists k :: 0 <= k < |calls| && (calls[k].ToSql? || calls[k].ToExcel?)
  }

  predicate TouchesStore(calls: seq<Call>) {
    exists k :: 0 <= k < |calls| && (calls[k].Connect? || calls[k].ToSql? || calls[k].ReadSql?)
  }

  /** `[table[0] for table in rows]`, or `None` where a row has no first field. */
  function FirstFields(rows: seq<seq<string>>): (names: Option<seq<string>>)
    ensures names.None? <==> exists i :: 0 <= i < |rows| && rows[i] == []
    ensures names.Some? ==> |names.value| == |rows| && forall i :: 0 <= i < |rows| ==> names.value[i] == rows[i][0]
  {
    if rows == [] then Some([])
    else if rows[0] == [] then None
    else
      match FirstFields(rows[1..])
      case None => None
      case Some(rest) => Some([rows[0][0]] + rest)
  }

  datatype DataController = DataController(dbPath: string) {

    /** The names of the tables in the store, from `sqlite_master`. */
    function GetTableNames(connect: Outcome<()>, query: Outcome<seq<seq<string>>>, close: Outcome<()>)
      : (run: Run<seq<string>>)
      ensures FollowsConvention(run.reply, [])
      ensures run.reply.error.None? <==>
        && connect.Done? && query.Done? && close.Done?
        && forall i :: 0 <= i < |query.value| ==> query.value[i] != []
      ensures run.reply.error.None? ==>
        && |run.reply.value| == |query.value|
        && forall i :: 0 <= i < |query.value| ==> run.reply.value[i] == query.value[i][0]
      ensures connect.Raised? ==> run.reply.error == Some(connect.message) && run.calls == [Connect(dbPath)]
      ensures connect.Done? && query.Raised? ==>
        run.reply.error == Some(query.message) && run.calls == [Connect(dbPath), ListTablesQuery]
      ensures connect.Done? && query.Done? && FirstFields(query.value).None? ==>
        run.reply.error == Some(TupleIndexOutOfRange) && run.calls == [Connect(dbPath), ListTablesQuery]
      ensures connect.Done? && query.Done? && FirstFields(query.value).Some? ==>
        && run.calls == [Connect(dbPath), ListTablesQuery, CloseConnection]
        && (close.Raised? ==> run.reply.error == Some(close.message))
      ensures !Writes(run.calls)
    {
      if connect.Raised? then
        Run(Reply([], Some(connect.message)), [Connect(dbPath)])
      else if query.Raised? then
        Run(Reply([], Some(query.message)), [Connect(dbPath), ListTablesQuery])
      else
        match FirstFields(query.value)
        case None => Run(Reply([], Some(TupleIndexOutOfRange)), [Connect(dbPath), ListTablesQuery])
        case Some(names) =>
          if close.Raised? then Run(Reply([], Some(close.message)), [Connect(dbPath), ListTablesQuery, CloseConnection])
          else Run(Reply(names, None), [Connect(dbPath), ListTablesQuery, CloseConnection])
    }

    /** Every row of `table` as a frame; on failure the empty frame `pd.DataFrame()`. */
    function LoadDataFrame(table: string, connect: Outcome<()>, read: Outcome<DataFrame>, close: Outcome<()>)
      : (run: Run<DataFrame>)
      ensures FollowsConvention(run.reply, EmptyFrame)
      ensures run.reply.error.None? <==> connect.Done? && read.Done? && close.Done?
      ensures run.reply.error.None? ==> run.reply.value == read.value
      ensures connect.Raised? ==> run.reply.error == Some(connect.message) && run.calls == [Connect(dbPath)]
      ensures connect.Done? && read.Raised? ==>
        run.reply.error == Some(read.message) && run.calls == [Connect(dbPath), ReadSql(table)]
      ensures connect.Done? && read.Done? ==>
        && run.calls == [Connect(dbPath), ReadSql(table), CloseConnection]
        && (close.Raised? ==> run.reply.error == Some(close.message))
      ensures !Writes(run.calls)
    {
      if connect.Raised? then
        Run(Reply(EmptyFrame, Some(connect.message)), [Connect(dbPath)])
      else if read.Raised? then
        Run(Reply(EmptyFrame, Some(read.message)), [Connect(dbPath), ReadSql(table)])
      else if close.Raised? then
        Run(Reply(EmptyFrame, Some(close.message)), [Connect(dbPath), ReadSql(table), CloseConnection])
      else
        Run(Reply(read.value, None), [Connect(dbPath), ReadSql(table), CloseConnection])
    }

    /**
     * Reads the spreadsheet at `file` and writes it to `table` under the
     * `ifExists` policy. What the store then holds is up to the store.
     */
    function ImportData(
      file: string, table: string, ifExists: IfExists,
      read: Outcome<DataFrame>, connect: Outcome<()>, write: Outcome<()>, close: Outcome<()>)
      : (run: Run<bool>)
      ensures FollowsConvention(run.reply, false)
      ensures run.reply.value <==> run.reply.error.None?
      ensures run.reply.value <==> read.Done? && connect.Done? && write.Done? && close.Done?
      ensures read.Raised? ==> run.reply.error == Some(read.message) && run.calls == [ReadExcel(file)]
      ensures read.Done? && connect.Raised? ==>
        run.reply.error == Some(connect.message) && run.calls == [ReadExcel(file), Connect(dbPath)]
      ensures read.Done? && connect.Done? && write.Raised? ==>
        && run.reply.error == Some(write.message)
        && run.calls == [ReadExcel(file), Connect(dbPath), ToSql(table, read.value, ifExists)]
      ensures read.Done? && connect.Done? && write.Done? ==>
        && run.calls == [ReadExcel(file), Connect(dbPath), ToSql(table, read.value, ifExists), CloseConnection]
        && (close.Raised? ==> run.reply.error == Some(close.message))
      ensures forall k :: 0 <= k < |run.calls| && run.calls[k].ToSql? ==>
        && read == Done(run.calls[k].frame)
        && run.calls[k].table == table && run.calls[k].ifExists == ifExists
      ensures (exists k :: 0 <= k < |run.calls| && run.calls[k].ToSql?) <==> read.Done? && connect.Done?
    {
      if read.Raised? then
        Run(Reply(false, Some(read.message)), [ReadExcel(file)])
      else if connect.Raised? then
        Run(Reply(false, Some(connect.message)), [ReadExcel(file), Connect(dbPath)])
      else
        var calls := [ReadExcel(file), Connect(dbPath), ToSql(table, read.value, ifExists)];
        assert (calls + [CloseConnection])[2] == calls[2];
        if write.Raised? then
          Run(Reply(false, Some(write.message)), calls)
        else if close.Raised? then
          Run(Reply(false, Some(close.message)), calls + [CloseConnection])
        else
          Run(Reply(true, None), calls + [CloseConnection])
    }

    /**
     * Writes `df` to the spreadsheet `file`; refuses an absent or empty
     * frame before any write.
     */
    function ExportData(df: Option<DataFrame>, file: string, write: Outcome<()>): (run: Run<bool>)
      ensures FollowsConvention(run.reply, false)
      ensures run.reply.value <==> run.reply.error.None?
      ensures NoData(df) ==> run.reply == Reply(false, Some(NoDataToExport)) && run.calls == []
      ensures !NoData(df) ==> run.calls == [ToExcel(df.value, file)] && (run.reply.value <==> write.Done?)
      ensures !NoData(df) && write.Raised? ==> run.reply.error == Some(write.message)
      ensures !TouchesStore(run.calls)
    {
      if df.None? || IsEmpty(df.value) then
        Run(Reply(false, Some(NoDataToExport)), [])
      else if write.Raised? then
        Run(Reply(false, Some(write.message)), [ToExcel(df.value, file)])
      else
        Run(Reply(true, None), [ToExcel(df.value, file)])
    }

    /**
     * The dashboard texts for `df`, summing the column `target`
     * (`config.TARGET_COLUMN_FOR_SUM`). `toCents` is the rounding of the sum
     * to hundredths that `{:,.2f}` performs.
     */
    function CalculateDashboardStats(df: Option<DataFrame>, target: string, toCents: real -> int): (stats: Stats)
      ensures NoData(df) ==> stats == Stats(NA, NA)
      ensures !NoData(df) ==> stats.totalRecords != NA && stats.columnSumText != NA
      ensures ParseCount(stats.totalRecords) == Some(Summarize(df, target).records)
      ensures ParseSum(stats.columnSumText) == Some(Displayed(Summarize(df, target).sum, toCents))
    {
      var summary := Summarize(df, target);
      ParseRenderCount(summary.records);
      ParseRenderSum(summary.sum, toCents);
      Render(summary, toCents)
    }
  }

  /**
   * A failed load hands back the empty frame, so the dashboard shows the two
   * sentinels and an export of it is refused before any write.
   */
  lemma FailedLoadIsNoData(
    controller: DataController, table: string,
    connect: Outcome<()>, read: Outcome<DataFrame>, close: Outcome<()>,
    target: string, toCents: real -> int, file: string, write: Outcome<()>)
    requires controller.LoadDataFrame(table, connect, read, close).reply.error.Some?
    ensures var df := Some(controller.LoadDataFrame(table, connect, read, close).reply.value);
      && controller.CalculateDashboardStats(df, target, toCents) == Stats(NA, NA)
      && controller.ExportData(df, file, write) == Run(Reply(false, Some(NoDataToExport)), [])
  {
    assert IsEmpty(controller.LoadDataFrame(table, connect, read, close).reply.value);
  }

  /** The literal record-count text of a frame with data: its row count in decimal. */
  lemma RecordCountText(controller: DataController, df: DataFrame, target: string, toCents: real -> int)
    requires !IsEmpty(df)
    ensures var stats := controller.CalculateDashboardStats(Some(df), target, toCents);
      && stats.totalRecords == CountPrefix + Decimal.NatToString(|df.rows|)
      && Decimal.ParseNat(stats.totalRecords[|CountPrefix|..]) == |df.rows|
  {
    Decimal.ParseNatToString(|df.rows|);
    var stats := controller.CalculateDashboardStats(Some(df), target, toCents);
    assert stats.totalRecords[|CountPrefix|..] == Decimal.NatToString(|df.rows|);
  }

  /** The literal column-sum text of a frame with data, in each of its three cases. */
  lemma ColumnSumText(controller: DataController, df: DataFrame, target: string, toCents: real -> int)
    requires !IsEmpty(df)
    ensures var text := controller.CalculateDashboardStats(Some(df), target, toCents).columnSumText;
      && (target !in df.columns ==> text == "Column '" + target + "' not found.")
      && forall j :: 0 <= j < |df.columns| && df.columns[j] == target ==>
        var cells := Column(df.rows, j);
        && (!IsNumericColumn(cells) ==> text == "Column '" + target + "' is not numeric.")
        && (IsNumericColumn(cells) ==> text == "Sum of '" + target + "': " + Decimal.FormatAmount(toCents(Sum(cells))))
  {
    var summary := Summarize(Some(df), target);
    forall j | 0 <= j < |df.columns| && df.columns[j] == target
      ensures IsNumericColumn(Column(df.rows, j)) ==> summary.sum == SumOf(target, Sum(Column(df.rows, j)))
      ensures !IsNumericColumn(Column(df.rows, j)) ==> summary.sum == NotNumeric(target)
    {
    }
  }

  /** Two summaries render to the same column-sum text only if they read the same. */
  lemma SumTextDeterminesSummary(a: SumReport, b: SumReport, toCents: real -> int)
    requires RenderSum(a, toCents) == RenderSum(b, toCents)
    ensures Displayed(a, toCents) == Displayed(b, toCents)
  {
    ParseRenderSum(a, toCents);
    ParseRenderSum(b, toCents);
  }

  lemma SumOfAges()
    ensures Sum([Integer(10), Integer(20)]) == 30.0
  {
    var cells := [Integer(10), Integer(20)];
    assert cells[..1] == [Integer(10)] && cells[..1][..0] == [];
  }

  lemma ThirtyText()
    ensures Decimal.FormatAmount(3000) == "30.00"
  {
    assert Decimal.NatToString(3) == "3";
    assert Decimal.NatToString(30) == "30";
    assert Decimal.Group("30") == "30";
    assert Decimal.TwoDigits(0) == "00";
  }

  /** Two people aged 10 and 20: two records, and a numeric `age` column summing to 30. */
  lemma AgeSummary()
    ensures var people := Table(["name", "age"], [[Text("a"), Integer(10)], [Text("b"), Integer(20)]]);
      && WellFormed(people)
      && Summarize(Some(people), "age") == Summary(Count(2), SumOf("age", 30.0))
  {
    var people := Table(["name", "age"], [[Text("a"), Integer(10)], [Text("b"), Integer(20)]]);
    assert WellFormed(people);
    var df: DataFrame := people;
    assert IndexOf(df.columns, "age") == Some(1);
    assert Column(df.rows, 1) == [Integer(10), Integer(20)];
    SumOfAges();
  }

  /** The texts for two people aged 10 and 20, once 30.0 is shown as 3000 hundredths. */
  lemma AgeTexts(controller: DataController, toCents: real -> int)
    requires toCents(30.0) == 3000
    ensures var people := Table(["name", "age"], [[Text("a"), Integer(10)], [Text("b"), Integer(20)]]);
      && WellFormed(people)
      && controller.CalculateDashboardStats(Some(people), "age", toCents)
         == Stats("Total Records: 2", "Sum of 'age': 30.00")
  {
    AgeSummary();
    ThirtyText();
    assert RenderSum(SumOf("age", 30.0), toCents) == "Sum of 'age': 30.00";
    assert Decimal.NatToString(2) == "2";
    assert RenderCount(Count(2)) == "Total Records: 2";
  }

  lemma ThirtyRounds(toCents: real -> int)
    requires RoundsToCents(toCents)
    ensures toCents(30.0) == 3000
  {
    assert -0.5 <= 30.0 * 100.0 - toCents(30.0) as real <= 0.5;
  }

  /** A table of two people aged 10 and 20, summed over `age`. */
  lemma AgeScenario(controller: DataController, toCents: real -> int)
    requires RoundsToCents(toCents)
    ensures var people := Table(["name", "age"], [[Text("a"), Integer(10)], [Text("b"), Integer(20)]]);
      && WellFormed(people)
      && controller.CalculateDashboardStats(Some(people), "age", toCents)
         == Stats("Total Records: 2", "Sum of 'age': 30.00")
  {
    ThirtyRounds(toCents);
    AgeTexts(controller, toCents);
  }
}
