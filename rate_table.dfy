/** The rate table and the data-frame helpers of the calculator
    (euro_converter/calculator/utils.py). A table has a set of currency
    columns and rows keyed by date; a currency a row has no entry for is a
    null cell. Rates and amounts are `Decimal(12, 6)` values held in
    millionths; dates are `FixedPoint.DateKey` numbers. */
module RateTable {
  import opened Wrappers
  import opened Sorting
  import opened FixedPoint
  import EcbParser

  datatype Row = Row(date: int, cells: map<string, int>)

  datatype Table = Table(columns: set<string>, rows: seq<Row>)

  function RowDate(r: Row): int {
    r.date
  }

  /** Every cell of every row lies in a column of the table. */
  predicate WellFormed(t: Table) {
    forall i :: 0 <= i < |t.rows| ==> t.rows[i].cells.Keys <= t.columns
  }

  /** The exceptions the helpers raise: no `date` column to sort on, a
      record without a date, a strict cast that fails, and `round(None)`. */
  datatype UtilError = NoDateColumn | MissingDate | CastFailed | RoundNull

  // ---------------------------------------------------------------------
  // Inputs of a conversion: one row per (date, value) pair, with the row
  // index that `with_row_count("idx")` adds.

  datatype InputRow = InputRow(idx: nat, date: int, value: int)

  function InputDate(r: InputRow): int {
    r.date
  }

  /** The input pairs numbered in order: row `i` gets `idx = i`. */
  function Indexed(values: seq<(int, int)>): seq<InputRow> {
    seq(|values|, i requires 0 <= i < |values| => InputRow(i, values[i].0, values[i].1))
  }

  /** `get_single_df`: the one-row frame of a single conversion. */
  function GetSingleDf(date: int, value: int): seq<InputRow> {
    Indexed([(date, value)])
  }

  /** `get_multi_df`: every input pair once, numbered in input order, sorted
      by date. The index column is always carried; without `add_row_index`
      nothing reads it. */
  function GetMultiDf(values: seq<(int, int)>): (r: seq<InputRow>)
    ensures |r| == |values|
    ensures SortedBy(r, InputDate)
    ensures multiset(r) == multiset(Indexed(values))
    ensures forall i :: 0 <= i < |values| ==> InputRow(i, values[i].0, values[i].1) in r
    ensures forall x :: x in r ==> x.idx < |values| && (x.date, x.value) == values[x.idx]
  {
    var rows := Indexed(values);
    var r := SortBy(rows, InputDate);
    forall x ensures x in r <==> x in rows {
      assert x in r <==> x in multiset(r);
      assert x in rows <==> x in multiset(rows);
    }
    forall i | 0 <= i < |values| ensures InputRow(i, values[i].0, values[i].1) in r {
      assert rows[i] in rows;
    }
    r
  }

  // ---------------------------------------------------------------------
  // Results: one (date, result) pair per input row, the result null when no
  // rate applied.

  datatype ResultRow = ResultRow(idx: nat, date: int, result: Option<real>)

  function ResultIdx(r: ResultRow): int {
    r.idx
  }

  /** `get_single_result`: the value itself, or Decimal's `round` of it to
      `decimals` places, which refuses a null. */
  function GetSingleResult(result: Option<real>, decimals: Option<int>): (r: Result<Option<real>, UtilError>)
    ensures decimals.None? ==> r == Ok(result)
    ensures decimals.Some? ==> (r.Ok? <==> result.Some?)
    ensures decimals.Some? && r.Ok? ==> r.value == Some(RoundHalfEven(result.value, decimals.value))
  {
    if decimals.None? then Ok(result)
    else if result.None? then Err(RoundNull)
    else Ok(Some(RoundHalfEven(result.value, decimals.value)))
  }

  /** The rounding step of `get_result_list`, row by row in order. */
  function RoundAll(rows: seq<ResultRow>, decimals: Option<int>): (r: Result<seq<(int, Option<real>)>, UtilError>)
    ensures r.Ok? <==> forall i :: 0 <= i < |rows| ==> GetSingleResult(rows[i].result, decimals).Ok?
    ensures r.Ok? ==> |r.value| == |rows|
    ensures r.Ok? ==> forall i :: 0 <= i < |rows| ==>
      r.value[i] == (rows[i].date, GetSingleResult(rows[i].result, decimals).value)
    ensures r.Err? ==> r.error == RoundNull
  {
    if rows == [] then Ok([])
    else
      var head := GetSingleResult(rows[0].result, decimals);
      var tail := RoundAll(rows[1..], decimals);
      if head.Err? then Err(head.error)
      else if tail.Err? then
        assert forall i :: 1 <= i < |rows| ==> rows[1..][i - 1] == rows[i];
        Err(tail.error)
      else
        assert forall i :: 1 <= i < |rows| ==> rows[1..][i - 1] == rows[i];
        Ok([(rows[0].date, head.value)] + tail.value)
  }

  /** `get_result_list`: with `restore_sort` the rows are put back in index
      order first; each result is rounded only when `decimals` is given. */
  function GetResultList(rows: seq<ResultRow>, restoreSort: bool, decimals: Option<int>)
    : (r: Result<seq<(int, Option<real>)>, UtilError>)
    ensures r.Ok? ==> |r.value| == |rows|
    ensures decimals.None? ==> r.Ok?
  {
    RoundAll(if restoreSort then SortBy(rows, ResultIdx) else rows, decimals)
  }

  /** Sorting by `idx` gives back the input order exactly: rows numbered
      0, 1, 2, ... in some order come back as that sequence. */
  lemma RestoreSortExact(rows: seq<ResultRow>, original: seq<ResultRow>)
    requires multiset(rows) == multiset(original)
    requires forall i :: 0 <= i < |original| ==> original[i].idx == i
    ensures SortBy(rows, ResultIdx) == original
  {
    var sorted := SortBy(rows, ResultIdx);
    assert SortedBy(original, ResultIdx);
    forall a, b | a in original && b in original && ResultIdx(a) == ResultIdx(b) ensures a == b {
      var i :| 0 <= i < |original| && original[i] == a;
      var j :| 0 <= j < |original| && original[j] == b;
    }
    SortedUnique(sorted, original, ResultIdx);
  }

  // ---------------------------------------------------------------------
  // The feed records as a table.

  /** The currency columns of the records: every key other than `date`. */
  function Currencies(records: seq<EcbParser.Record>): set<string> {
    set i, k | 0 <= i < |records| && k in records[i] && k != "date" :: k
  }

  /** The cast rows, in any order, have only cells of the feed's currencies. */
  lemma SortedRowsWellFormed(records: seq<EcbParser.Record>, rows: seq<Row>, sorted: seq<Row>)
    requires CastRows(records) == Ok(rows)
    requires multiset(sorted) == multiset(rows)
    ensures WellFormed(Table(Currencies(records), sorted))
  {
    forall i | 0 <= i < |sorted| ensures sorted[i].cells.Keys <= Currencies(records) {
      assert sorted[i] in multiset(rows);
      var j :| 0 <= j < |rows| && rows[j] == sorted[i];
      forall k | k in sorted[i].cells ensures k in Currencies(records) {
        assert k in records[j] && k != "date";
      }
    }
  }

  /** One record as a row: `date` cast to a date, every other field to
      `Decimal(12, 6)`; any failed cast is an error. */
  function CastRecord(rec: EcbParser.Record): (r: Result<Row, UtilError>)
    ensures r.Ok? <==> "date" in rec && CastDate(rec["date"]).Some?
                       && forall k :: k in rec && k != "date" ==> CastDecimal(rec[k]).Some?
    ensures r.Ok? ==> r.value.date == CastDate(rec["date"]).value
    ensures r.Ok? ==> r.value.cells.Keys == rec.Keys - {"date"}
    ensures r.Ok? ==> forall k :: k in r.value.cells ==> Some(r.value.cells[k]) == CastDecimal(rec[k])
  {
    if "date" !in rec then Err(MissingDate)
    else
      var date := CastDate(rec["date"]);
      var cells := CastCells(rec, CastDecimal);
      if date.None? || cells.None? then Err(CastFailed)
      else Ok(Row(date.value, cells.value))
  }

  /** Every field other than `date` passed through `cast` (the strict
      `Decimal(12, 6)` cast in `CastRecord`); `None` when one of the casts
      fails. */
  function CastCells(rec: EcbParser.Record, cast: string -> Option<int>): (r: Option<map<string, int>>)
    ensures r.Some? <==> forall k :: k in rec && k != "date" ==> cast(rec[k]).Some?
    ensures r.Some? ==> r.value.Keys == rec.Keys - {"date"}
    ensures r.Some? ==> forall k :: k in r.value ==> Some(r.value[k]) == cast(rec[k])
  {
    if exists k :: k in rec && k != "date" && cast(rec[k]).None? then None
    else Some(map k | k in rec && k != "date" :: cast(rec[k]).value)
  }


  function CastRows(records: seq<EcbParser.Record>): (r: Result<seq<Row>, UtilError>)
    ensures r.Ok? <==> forall i :: 0 <= i < |records| ==> CastRecord(records[i]).Ok?
    ensures r.Ok? ==> |r.value| == |records|
    ensures r.Ok? ==> forall i :: 0 <= i < |records| ==> r.value[i] == CastRecord(records[i]).value
  {
    if records == [] then Ok([])
    else
      var head := CastRecord(records[0]);
      var tail := CastRows(records[1..]);
      assert forall i :: 1 <= i < |records| ==> records[1..][i - 1] == records[i];
      if head.Err? then Err(head.error)
      else if tail.Err? then Err(tail.error)
      else Ok([head.value] + tail.value)
  }

  /** `get_parsed_rates_df`: one row per record, cast strictly and sorted by
      date. Without records there is no `date` column to sort on. */
  function GetParsedRatesDf(records: seq<EcbParser.Record>): (r: Result<Table, UtilError>)
    ensures records == [] ==> r == Err(NoDateColumn)
    ensures records != [] ==> (r.Ok? <==> CastRows(records).Ok?)
    ensures r.Ok? ==> r.value.columns == Currencies(records)
    ensures r.Ok? ==> WellFormed(r.value)
    ensures r.Ok? ==> SortedBy(r.value.rows, RowDate)
    ensures r.Ok? ==> multiset(r.value.rows) == multiset(CastRows(records).value)
  {
    if records == [] then Err(NoDateColumn)
    else
      match CastRows(records)
      case Err(e) => Err(e)
      case Ok(rows) =>
        var sorted := SortBy(rows, RowDate);
        SortedRowsWellFormed(records, rows, sorted);
        Ok(Table(Currencies(records), sorted))
  }

  /** The shape of the test feed: zero-padding of `"2.0"` to six places and
      a date cast to its key. */
  lemma ParsedRatesExample()
    ensures GetParsedRatesDf([map["date" := "2023-01-04", "USD" := "2.0"]])
         == Ok(Table({"USD"}, [Row(20230104, map["USD" := 2000000])]))
  {
    var rec := map["date" := "2023-01-04", "USD" := "2.0"];
    var row := Row(20230104, map["USD" := 2000000]);
    CastRowsExample(rec, row);
    assert SortBy([row], RowDate) == [row] by {
      SortOfSorted([row], RowDate);
    }
    assert Currencies([rec]) == {"USD"} by {
      assert "USD" in rec;
    }
  }

  lemma CastRowsExample(rec: EcbParser.Record, row: Row)
    requires rec == map["date" := "2023-01-04", "USD" := "2.0"]
    requires row == Row(20230104, map["USD" := 2000000])
    ensures CastRows([rec]) == Ok([row])
  {
    CastRecordExample(rec, row);
    assert [rec][0] == rec && [rec][1..] == [];
    assert CastRows([]) == Ok([]);
    assert [row] + [] == [row];
  }

  lemma CastRecordExample(rec: EcbParser.Record, row: Row)
    requires rec == map["date" := "2023-01-04", "USD" := "2.0"]
    requires row == Row(20230104, map["USD" := 2000000])
    ensures CastRecord(rec) == Ok(row)
  {
    var ds, vs := "2023-01-04", "2.0";
    CastDateOk(ds);
    CastTwo(vs);
    CastOneCurrency(rec, ds, "USD", vs);
  }

  /** A record with a date and one rate is the row of that date with that
      one cell. */
  lemma CastOneCurrency(rec: EcbParser.Record, ds: string, key: string, vs: string)
    requires key != "date" && rec == map["date" := ds, key := vs]
    requires CastDate(ds).Some? && CastDecimal(vs).Some?
    ensures CastRecord(rec) == Ok(Row(CastDate(ds).value, map[key := CastDecimal(vs).value]))
  {
    assert rec.Keys - {"date"} == {key};
    CastCellsOne(rec, key, vs, CastDecimal);
  }

  /** The cells of a record with a single rate field. */
  lemma CastCellsOne(rec: EcbParser.Record, key: string, vs: string, cast: string -> Option<int>)
    requires rec.Keys - {"date"} == {key} && key in rec && rec[key] == vs
    requires cast(vs).Some?
    ensures CastCells(rec, cast) == Some(map[key := cast(vs).value])
  {
    forall k | k in rec && k != "date" ensures cast(rec[k]).Some? {
      assert k in rec.Keys - {"date"};
    }
    var cells := CastCells(rec, cast);
    assert cells.value.Keys == {key};
    assert Some(cells.value[key]) == cast(vs);
    assert cells.value == map[key := cast(vs).value];
  }
}
