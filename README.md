# Data controller of the spreadsheet/SQLite dashboard

The application moves tables between an Excel spreadsheet, a local SQLite
database and an in-memory pandas DataFrame, and shows two summary texts on a
dashboard. `DataController` is the layer between the windows and the store.

- `get_table_names`, `load_dataframe` and `import_data` call SQLite, pandas
  or the spreadsheet codec. Each catches whatever those calls raise and
  answers a pair (value, error). The error is `None` on success. On failure
  the value is a fixed fallback (`[]`, `pd.DataFrame()`, `False`) and the
  error is `str(exception)`.
- `export_data` refuses an absent or empty frame with "No data to export."
  before writing anything.
- `calculate_dashboard_stats` builds the two dashboard texts:
  - "N/A" for both when there is no data;
  - otherwise `Total Records: <n>`;
  - and the sum of the configured column as `Sum of '<col>': <sum:,.2f>`,
    or a "not numeric" or "not found" text.

The model is pure, like the source: every operation is a function over
values.

- `wrappers.dfy`: `Option`.
- `frame.dfy`: cells, tables and the `DataFrame` subset type. A DataFrame is
  rectangular and has unique column names. The file also holds column
  lookup, the numeric-column test and the column sum.
- `decimal.dfy`: how Python formats text:
  - `str(int)` for a natural number;
  - the `{:,.2f}` layout, with thousands grouped by commas and exactly two
    decimals;
  - a parser for each layout, proved to read back what was written.
- `dashboard.dfy`: the summary a frame yields (`Summarize`), how it is
  written out (`Render`), and a reader for each dashboard text that recovers
  the summary.
- `data_controller.dfy`: the controller's five operations.

Each foreign call (`sqlite3.connect`, `cursor.execute`/`fetchall`,
`pd.read_sql`, `pd.read_excel`, `to_sql`, `to_excel`, `close`) is a
parameter of type `Outcome`: either it returns a value or it raises with a
message. Each operation answers its `(value, error)` reply together with the
list of foreign calls it reached, in order, with their arguments.

## Model

| member | source | states |
|---|---|---|
| `Controller.FirstFields` | data_controller.py:22 | the first field of every fetched row, in order; no result exactly when some row has no field, where indexing `table[0]` raises |
| `Controller.DataController.GetTableNames` | data_controller.py:16-26 | an error carries `[]`; success exactly when connect, query and close all succeed and every row has a first field, and then the names are those first fields; on each failure path, the error is the message of the call that raised, or `tuple index out of range` for a row with no field, and the exact list of calls reached; nothing is ever written to the store or to a file |
| `Controller.DataController.LoadDataFrame` | data_controller.py:28-37 | an error carries the empty frame; success exactly when connect, read and close succeed, and then the value is the frame read; on each path, the error is the message of the call that raised (connect, `read_sql` of the named table, or close), and the exact list of calls reached; nothing is written |
| `Controller.DataController.ImportData` | data_controller.py:39-48 | the flag is true exactly when there is no error, and exactly when all four steps succeed; on each path, the error is the message of the call that raised (`read_excel`, connect, `to_sql` or close), and the exact list of calls reached; a store write is reached exactly when the read and the connect succeed, and it carries the frame read, the target table and the `if_exists` policy |
| `Controller.DataController.ExportData` | data_controller.py:50-58 | an absent or empty frame gives `(False, "No data to export.")` and reaches no call; otherwise exactly one spreadsheet write of that frame to that file, true exactly when it succeeds, else its message; never touches the store |
| `Controller.DataController.CalculateDashboardStats` | data_controller.py:60-84 | no data gives `("N/A", "N/A")`; data gives neither sentinel; the record text reads back as the summary's count, and the sum text as the summary's column report, with the total shown to the hundredth |
| `Dashboard.Summarize` | data_controller.py:67-82 | no data exactly when absent or empty (zero rows or zero columns); the count is the number of rows; "not found" exactly when the column is absent; for the column carrying the name, "not numeric" exactly when it is not numeric, otherwise the sum of that column |
| `Dashboard.RenderCount` | data_controller.py:63-71 | the record text is "N/A" exactly for no data, and otherwise `Total Records: ` followed by digits; `ParseRenderCount` reads it back |
| `Dashboard.RenderSum` | data_controller.py:64-82 | the column text is "N/A" for no data and longer than "N/A" in every other case, so the sentinel never stands for a report; `ParseRenderSum` reads every text back |
| `Dashboard.DisplayedNearSum` | data_controller.py:78 | with a rounding to the nearest hundredth, the total shown keeps the column name and lies within half a hundredth of the real sum |
| `Dashboard.ParseRenderCount` | data_controller.py:71 | the record-count text reads back as the count it was written from (and "N/A" as no data) |
| `Dashboard.ParseNotFoundText` | data_controller.py:82 | the "not found" text reads back as that report, with the column name intact |
| `Dashboard.ParseNotNumericText` | data_controller.py:80 | the "not numeric" text reads back as that report, and not as "not found" |
| `Dashboard.ParseTotalText` | data_controller.py:78 | the sum text reads back the column name, even if it holds quotes, and the amount in hundredths |
| `Dashboard.ParseRenderSum` | data_controller.py:74-82 | every column-sum text reads back as the report it was written from, with the total as displayed |
| `Controller.SumTextDeterminesSummary` | data_controller.py:74-82 | two column reports with the same text display the same report: the three outcomes and distinct names or totals never share a text |
| `Controller.RecordCountText` | data_controller.py:71 | with data, the record text is `Total Records: ` followed by the decimal row count, which parses back to the row count |
| `Controller.ColumnSumText` | data_controller.py:73-82 | with data, the literal column-sum text in each of the three cases |
| `Controller.FailedLoadIsNoData` | data_controller.py:35-37 | a failed load hands back a frame on which the dashboard shows both sentinels and an export is refused with no call |
| `Controller.AgeScenario` | data_controller.py:60-84 | with any rounding to the nearest hundredth, a two-row table with ages 10 and 20 gives `Total Records: 2` and `Sum of 'age': 30.00` |
| `Controller.AgeSummary` | data_controller.py:67-77 | that table has data, two records and a numeric `age` column whose sum is 30 |
| `Controller.AgeTexts` | data_controller.py:71-78 | the same two texts, once 30.0 is shown as 3000 hundredths |
| `Frame.IsEmpty` | data_controller.py:52 | `df.empty`: true exactly when the frame holds no cell, i.e. rows times columns is zero |
| `Frame.Column` | data_controller.py:76-77 | `df[target_col]`: one cell per row, the cell of that column in each row, in row order |
| `Frame.IsNumericColumn` | data_controller.py:76 | `is_numeric_dtype`: numeric exactly when no cell holds text; `NumericConcat` shows how it splits over parts |
| `Frame.Sum` | data_controller.py:77 | `Series.sum()` skipping missing values: zero for a column of missing values or zeros, non-negative for non-negative values; `SumAppend` and `NullAddsNothing` give its additivity |
| `Frame.IndexOf` | data_controller.py:75 | `target_col in df.columns`: absent exactly when the name is not a column; otherwise the position of its first occurrence |
| `Frame.IndexOfUnique` | data_controller.py:75 | with unique names, the lookup finds the one column with that name |
| `Frame.SumAppend` | data_controller.py:77 | the column sum is additive over concatenation |
| `Frame.NullAddsNothing` | data_controller.py:77 | a missing value adds nothing to the sum, wherever it stands |
| `Frame.NumericConcat` | data_controller.py:76 | a concatenated column is numeric exactly when both parts are |
| `Frame.StackedWellFormed` | data_controller.py:76-77 | stacking the rows of a frame under those of another with the same columns keeps the table well formed (the shape an append import is assumed to give the store) |
| `Frame.StackedColumn` | data_controller.py:76-77 | over stacked rows with the same columns, the column sum is the sum of both parts, and the column is numeric exactly when both parts are; the stacking stands for an append import, assumed rather than derived from `to_sql` |
| `Decimal.NatToString` | data_controller.py:71 | the decimal text of a count is all digits, non-empty, with a leading zero only for zero |
| `Decimal.ParseNatToString` | data_controller.py:71 | the decimal text reads back as the count |
| `Decimal.NatToStringParse` | data_controller.py:71 | every canonical digit string is the decimal text of its value |
| `Decimal.FormatAmount` | data_controller.py:78 | `{:,.2f}`: at least four characters, a point before the last two, and a leading minus exactly for a negative amount; `ParseFormatAmount` reads it back |
| `Decimal.TwoDigits` | data_controller.py:78 | the two-digit fraction is exactly two digits and reads back as the hundredths |
| `Decimal.GroupShape` | data_controller.py:78 | the `,` grouping puts a comma exactly before each group of three digits counted from the right, and adds `(len - 1) / 3` commas |
| `Decimal.UngroupGroup` | data_controller.py:78 | removing the commas recovers the digits |
| `Decimal.ParseFormatMagnitude` | data_controller.py:78 | a formatted magnitude reads back as its hundredths and starts with a digit |
| `Decimal.ParseFormatAmount` | data_controller.py:78 | every `{:,.2f}` amount, negative ones included, reads back as its hundredths |
| `Decimal.NoQuoteInAmount` | data_controller.py:78 | an amount never contains a quote, so the last quote of the sum text closes the column name |
| `Decimal.AmountChars` | data_controller.py:78 | an amount holds only digits, `-`, `,` and `.` |

## Left out

- The windows, `main.py` and `config.py` are not part of this model. `config.DATABASE_FILE` is the `dbPath` field. `config.TARGET_COLUMN_FOR_SUM` is the `target` parameter.
- SQLite, pandas and the spreadsheet codec are opaque. Their results and exceptions are parameters, and their messages are opaque strings. The one message the controller itself causes is modelled: the `IndexError` of `table[0]` on an empty row.
- What the store holds after `to_sql` under `replace` or `append` is the store's business. The model records the call, its frame, its table and its policy. `Frame.StackedColumn` states what an append means for the dashboard once the rows are stacked.
- The SQL text built by f-string from the table name, and what an unusual name does to it, are not modelled. A read that fails is simply a raised outcome.
- `Controller.DataController.CalculateDashboardStats`: the rounding of the floating-point sum to hundredths is the parameter `toCents`, so the contract states the total only as displayed. `Dashboard.RoundsToCents` says what a rounding to the nearest hundredth is, and `DisplayedNearSum` and `AgeScenario` assume it. The tie-breaking of `.2f` (half to even, on the binary value) is not modelled. Floating-point addition and its order, `inf`/`nan` and the text `-0.00` for a tiny negative sum are not modelled.
- `Frame.Sum`: integer columns are summed without the 64-bit wrap-around of an `int64` column.
- `Frame.IsNumericColumn`: a column is numeric when every cell is an integer, a real or missing. pandas decides by dtype instead: a bool column counts as numeric there, and an all-missing column read from SQLite does not.
- A frame with repeated column names is not a `DataFrame` here. SQLite and the spreadsheet reader never produce one, and `df[col]` on one would give a frame, not a column.
- On emptiness, the model follows the code: `df.empty` is true for zero rows or zero columns. A "zero rows" reading of the export refusal would differ on a frame that has rows but no columns.
- When `to_sql` raises, the source never closes the connection. The model shows this in the call list, which then has no `CloseConnection`. It does not model the connection as a resource.
