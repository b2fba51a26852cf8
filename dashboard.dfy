/**
 * The dashboard summary of `DataController.calculate_dashboard_stats`:
 * the record count and the sum of one configured column, first as a
 * summary value, then as the two texts the window shows, which can be
 * read back.
 */
module Dashboard {
  import opened Wrappers
  import opened Decimal
  import opened Frame

  /** The sentinel shown when there is no data. */
  const NA := "N/A"
  const CountPrefix := "Total Records: "
  const ColumnPrefix := "Column '"
  const NotFoundSuffix := "' not found."
  const NotNumericSuffix := "' is not numeric."
  const SumPrefix := "Sum of '"
  const SumSeparator := "': "

  datatype CountReport = CountNA | Count(n: nat)

  datatype SumReport =
    | SumNA
    | NotFound(column: string)
    | NotNumeric(column: string)
    | SumOf(column: string, total: real)

  datatype Summary = Summary(records: CountReport, sum: SumReport)

  /** The two texts of the dashboard: `total_records` and `column_sum_text`. */
  datatype Stats = Stats(totalRecords: string, columnSumText: string)

  /** `df is None or df.empty`. */
  predicate NoData(df: Option<DataFrame>) {
    df.None? || IsEmpty(df.value)
  }

  /** The classification behind the dashboard texts, for the column named `target`. */
  function Summarize(df: Option<DataFrame>, target: string): (s: Summary)
    ensures s.records.CountNA? <==> NoData(df)
    ensures s.sum.SumNA? <==> NoData(df)
    ensures s.records.Count? ==> s.records.n == |df.value.rows|
    ensures !s.sum.SumNA? ==> s.sum.column == target
    ensures s.sum.NotFound? <==> !NoData(df) && target !in df.value.columns
    ensures forall j :: !NoData(df) && 0 <= j < |df.value.columns| && df.value.columns[j] == target ==>
      var cells := Column(df.value.rows, j);
      && (s.sum.NotNumeric? <==> !IsNumericColumn(cells))
      && (s.sum.SumOf? <==> IsNumericColumn(cells))
      && (s.sum.SumOf? ==> s.sum.total == Sum(cells))
  {
    if NoData(df) then Summary(CountNA, SumNA)
    else
      var t := df.value;
      var sum :=
        match IndexOf(t.columns, target)
        case None => NotFound(target)
        case Some(j) =>
          var cells := Column(t.rows, j);
          if IsNumericColumn(cells) then SumOf(target, Sum(cells)) else NotNumeric(target);
      assert forall j :: 0 <= j < |t.columns| && t.columns[j] == target ==> IndexOf(t.columns, target) == Some(j) by {
        forall j | 0 <= j < |t.columns| && t.columns[j] == target {
          IndexOfUnique(t.columns, target, j);
        }
      }
      Summary(Count(|t.rows|), sum)
  }

  function RenderCount(c: CountReport): (text: string)
    ensures text == NA <==> c.CountNA?
    ensures c.Count? ==> CountPrefix <= text && AllDigits(text[|CountPrefix|..])
  {
    match c
    case CountNA => NA
    case Count(n) => CountPrefix + NatToString(n)
  }

  /**
   * The column-sum text. `toCents` is the rounding of the (floating-point)
   * sum to whole hundredths that `.2f` performs.
   */
  function RenderSum(s: SumReport, toCents: real -> int): (text: string)
    ensures s.SumNA? ==> text == NA
    ensures !s.SumNA? ==> |text| > |NA|
  {
    match s
    case SumNA => NA
    case NotFound(column) => ColumnPrefix + column + NotFoundSuffix
    case NotNumeric(column) => ColumnPrefix + column + NotNumericSuffix
    case SumOf(column, total) => SumPrefix + column + SumSeparator + FormatAmount(toCents(total))
  }

  function Render(s: Summary, toCents: real -> int): Stats {
    Stats(RenderCount(s.records), RenderSum(s.sum, toCents))
  }

  /**
   * `toCents` rounds to the nearest hundredth, as `.2f` does: it is off by
   * at most half a hundredth.
   */
  ghost predicate RoundsToCents(toCents: real -> int) {
    forall x: real :: -0.5 <= x * 100.0 - toCents(x) as real <= 0.5
  }

  /** The summary as it can be read off the texts: the sum only to the hundredth shown. */
  function Displayed(s: SumReport, toCents: real -> int): SumReport {
    match s
    case SumOf(column, total) => SumOf(column, toCents(total) as real / 100.0)
    case _ => s
  }

  /** Reads a record-count text back. */
  function ParseCount(text: string): Option<CountReport> {
    if text == NA then Some(CountNA)
    else if CountPrefix <= text && |text| > |CountPrefix| && AllDigits(text[|CountPrefix|..]) then
      Some(Count(ParseNat(text[|CountPrefix|..])))
    else None
  }

  predicate Enclosed(text: string, prefix: string, suffix: string) {
    |text| >= |prefix| + |suffix| && prefix <= text && text[|text| - |suffix|..] == suffix
  }

  /** The last position of `c` in `s`. */
  function LastIndexOf(s: string, c: char): (r: Option<nat>)
    ensures r.None? ==> c !in s
    ensures r.Some? ==> r.value < |s| && s[r.value] == c && c !in s[r.value + 1..]
  {
    if s == [] then None
    else if s[|s| - 1] == c then Some(|s| - 1)
    else
      match LastIndexOf(s[..|s| - 1], c)
      case None => None
      case Some(k) =>
        assert s[k + 1..] == s[..|s| - 1][k + 1..] + [s[|s| - 1]];
        Some(k)
  }

  /** Splits the text of a column sum into the name, up to the last quote, and the amount. */
  function SplitSum(text: string): Option<(string, string)>
    requires SumPrefix <= text
  {
    match LastIndexOf(text, '\'')
    case None => None
    case Some(q) =>
      if q < |SumPrefix| || !(SumSeparator <= text[q..]) then None
      else Some((text[|SumPrefix|..q], text[q + |SumSeparator|..]))
  }

  function ParseSumOf(text: string): Option<SumReport>
    requires SumPrefix <= text
  {
    match SplitSum(text)
    case None => None
    case Some((column, amount)) =>
      match ParseAmount(amount)
      case None => None
      case Some(cents) => Some(SumOf(column, cents as real / 100.0))
  }

  /**
   * Reads a column-sum text back. A column name may itself hold quotes, but
   * the amount never does, so the last quote closes the name.
   */
  function ParseSum(text: string): Option<SumReport> {
    if text == NA then Some(SumNA)
    else if Enclosed(text, ColumnPrefix, NotFoundSuffix) then
      Some(NotFound(text[|ColumnPrefix|..|text| - |NotFoundSuffix|]))
    else if Enclosed(text, ColumnPrefix, NotNumericSuffix) then
      Some(NotNumeric(text[|ColumnPrefix|..|text| - |NotNumericSuffix|]))
    else if SumPrefix <= text then ParseSumOf(text)
    else None
  }

  lemma ParseRenderCount(c: CountReport)
    ensures ParseCount(RenderCount(c)) == Some(c)
  {
    if c.Count? {
      var text := RenderCount(c);
      assert text[|CountPrefix|..] == NatToString(c.n);
      assert text != NA by { assert |text| > 3; }
      ParseNatToString(c.n);
    }
  }

  lemma ParseNotFoundText(column: string)
    ensures ParseSum(ColumnPrefix + column + NotFoundSuffix) == Some(NotFound(column))
  {
    var text := ColumnPrefix + column + NotFoundSuffix;
    assert text != NA by { assert |text| > 3; }
    assert ColumnPrefix <= text;
    assert text[|text| - |NotFoundSuffix|..] == NotFoundSuffix;
    assert text[|ColumnPrefix|..|text| - |NotFoundSuffix|] == column;
  }

  lemma ParseNotNumericText(column: string)
    ensures ParseSum(ColumnPrefix + column + NotNumericSuffix) == Some(NotNumeric(column))
  {
    var text := ColumnPrefix + column + NotNumericSuffix;
    assert text != NA by { assert |text| > 3; }
    assert ColumnPrefix <= text;
    assert text[|text| - |NotFoundSuffix|..][4] == 'n' != NotFoundSuffix[4];
    assert text[|text| - |NotNumericSuffix|..] == NotNumericSuffix;
    assert text[|ColumnPrefix|..|text| - |NotNumericSuffix|] == column;
  }

  lemma LastQuote(before: string, after: string)
    requires '\'' !in after
    ensures LastIndexOf(before + ['\''] + after, '\'') == Some(|before|)
  {
    var text := before + ['\''] + after;
    assert text[|before|] == '\'';
    assert text[|before| + 1..] == after;
  }

  lemma NoQuoteAfterSeparator(amount: string)
    requires '\'' !in amount
    ensures '\'' !in ": " + amount
  {
    var rest := ": " + amount;
    assert forall i :: 2 <= i < |rest| ==> rest[i] == amount[i - 2];
  }

  /** The pieces of a column-sum text, cut at the position `q` of its closing quote. */
  lemma SumTextPieces(column: string, amount: string)
    ensures var text := SumPrefix + column + SumSeparator + amount;
      var q := |SumPrefix| + |column|;
      && text == (SumPrefix + column) + ['\''] + (": " + amount)
      && SumPrefix <= text
      && text[q..] == SumSeparator + amount
      && text[q + |SumSeparator|..] == amount
      && text[|SumPrefix|..q] == column
  {
  }

  lemma SplitSumText(column: string, amount: string)
    requires '\'' !in amount
    ensures SumPrefix <= SumPrefix + column + SumSeparator + amount
    ensures SplitSum(SumPrefix + column + SumSeparator + amount) == Some((column, amount))
  {
    SumTextPieces(column, amount);
    NoQuoteAfterSeparator(amount);
    LastQuote(SumPrefix + column, ": " + amount);
  }

  lemma ParseSumText(column: string, amount: string, cents: int)
    requires '\'' !in amount
    requires ParseAmount(amount) == Some(cents)
    ensures ParseSum(SumPrefix + column + SumSeparator + amount) == Some(SumOf(column, cents as real / 100.0))
  {
    var text := SumPrefix + column + SumSeparator + amount;
    SplitSumText(column, amount);
    assert text[0] == 'S';
    assert !(ColumnPrefix <= text) by { assert ColumnPrefix[0] != text[0]; }
    assert text != NA by { assert NA[0] != text[0]; }
  }

  lemma ParseTotalText(column: string, cents: int)
    ensures ParseSum(SumPrefix + column + SumSeparator + FormatAmount(cents)) == Some(SumOf(column, cents as real / 100.0))
  {
    ParseFormatAmount(cents);
    NoQuoteInAmount(cents);
    ParseSumText(column, FormatAmount(cents), cents);
  }

  /** The column-sum text of `s` reads back as what it displays. */
  ghost predicate SumRoundTrip(s: SumReport, toCents: real -> int) {
    match s
    case SumNA => ParseSum(RenderSum(SumNA, toCents)) == Some(SumNA)
    case NotFound(column) => ParseSum(RenderSum(NotFound(column), toCents)) == Some(NotFound(column))
    case NotNumeric(column) => ParseSum(RenderSum(NotNumeric(column), toCents)) == Some(NotNumeric(column))
    case SumOf(column, total) => TotalRoundTrip(column, total, toCents)
  }

  ghost predicate TotalRoundTrip(column: string, total: real, toCents: real -> int) {
    ParseSum(RenderSum(SumOf(column, total), toCents)) == Some(SumOf(column, toCents(total) as real / 100.0))
  }

  lemma ParseRenderNA(toCents: real -> int)
    ensures ParseSum(RenderSum(SumNA, toCents)) == Some(SumNA)
  {
  }

  lemma ParseRenderNotFound(column: string, toCents: real -> int)
    ensures ParseSum(RenderSum(NotFound(column), toCents)) == Some(NotFound(column))
  {
    ParseNotFoundText(column);
  }

  lemma ParseRenderNotNumeric(column: string, toCents: real -> int)
    ensures ParseSum(RenderSum(NotNumeric(column), toCents)) == Some(NotNumeric(column))
  {
    ParseNotNumericText(column);
  }

  lemma ParseRenderTotal(column: string, total: real, toCents: real -> int)
    ensures TotalRoundTrip(column, total, toCents)
  {
    ParseTotalText(column, toCents(total));
  }

  /** Every column-sum text reads back as the summary it was written from. */
  lemma ParseRenderSum(s: SumReport, toCents: real -> int)
    ensures ParseSum(RenderSum(s, toCents)) == Some(Displayed(s, toCents))
  {
    assert SumRoundTrip(s, toCents) by {
      match s
      case SumNA =>
        ParseRenderNA(toCents);
      case NotFound(column) =>
        ParseRenderNotFound(column, toCents);
      case NotNumeric(column) =>
        ParseRenderNotNumeric(column, toCents);
      case SumOf(column, total) =>
        ParseRenderTotal(column, total, toCents);
    }
  }

  /** With a rounding to the nearest hundredth, the total shown is within half a hundredth of the sum. */
  lemma DisplayedNearSum(column: string, total: real, toCents: real -> int)
    requires RoundsToCents(toCents)
    ensures Displayed(SumOf(column, total), toCents).column == column
    ensures -0.005 <= Displayed(SumOf(column, total), toCents).total - total <= 0.005
  {
    var c := toCents(total) as real;
    assert -0.5 <= total * 100.0 - c <= 0.5;
  }
}
