/** The currency calculator (euro_converter/calculator/calc.py): merging a
    feed update into the rate table, looking up the rate in force on a date,
    converting amounts, and the calculator object that owns a cache. Amounts
    and rates enter as `Decimal(12, 6)` millionths; results are exact
    rationals, rounded half-even only when `decimals` is given. */
module Calculator {
  import opened Wrappers
  import opened EcbTypes
  import opened Sorting
  import opened FixedPoint
  import opened RateTable
  import Ascii
  import EcbParser
  import EcbDownload
  import CacheBase
  import CacheFile

  /** `CACHE_TIMEOUT`: one hour, in seconds. */
  const CACHE_TIMEOUT: int := 3600

  datatype ConversionType = From | To

  /** What `convert` and `convert_multiple` raise: no snapshot loaded
      (`None.rates`), a currency that is not a column, a division by a zero
      rate, and the errors of the helpers. */
  datatype ConvertError =
    | NoData
    | UnknownCurrency(currency: string)
    | DivisionByZero
    | Util(e: UtilError)

  /** The value of a number of millionths. */
  function UnitsValue(u: int): real {
    u as real / 1000000.0
  }

  // ---------------------------------------------------------------------
  // `rates.update(updated, on="date", how="outer").sort("date")`

  /** The dates the rows carry. */
  function Dates(rows: seq<Row>): set<int> {
    set i | 0 <= i < |rows| :: rows[i].date
  }

  lemma DatesAppend(a: seq<Row>, b: seq<Row>)
    ensures Dates(a + b) == Dates(a) + Dates(b)
  {
    forall d | d in Dates(a + b) ensures d in Dates(a) + Dates(b) {
      var i :| 0 <= i < |a + b| && (a + b)[i].date == d;
      if i >= |a| {
        assert b[i - |a|].date == d;
      }
    }
    forall d | d in Dates(a) ensures d in Dates(a + b) {
      var i :| 0 <= i < |a| && a[i].date == d;
      assert (a + b)[i].date == d;
    }
    forall d | d in Dates(b) ensures d in Dates(a + b) {
      var i :| 0 <= i < |b| && b[i].date == d;
      assert (a + b)[|a| + i].date == d;
    }
  }

  lemma DatesSingle(x: Row)
    ensures Dates([x]) == {x.date}
  {
    assert [x][0].date == x.date;
  }

  lemma DatesNonEmpty(s: seq<Row>)
    requires s != []
    ensures s[0].date in Dates(s)
  {
  }

  /** Reordering rows keeps their dates. */
  lemma DatesPermutation(s: seq<Row>, t: seq<Row>)
    requires multiset(s) == multiset(t)
    ensures Dates(s) == Dates(t)
  {
    forall d | d in Dates(s) ensures d in Dates(t) {
      var i :| 0 <= i < |s| && s[i].date == d;
      assert s[i] in multiset(t);
      var j :| 0 <= j < |t| && t[j] == s[i];
    }
    forall d | d in Dates(t) ensures d in Dates(s) {
      var j :| 0 <= j < |t| && t[j].date == d;
      assert t[j] in multiset(s);
      var i :| 0 <= i < |s| && s[i] == t[j];
    }
  }

  /** The cells of a row that fall in the given columns. */
  function Restrict(cells: map<string, int>, columns: set<string>): (r: map<string, int>)
    ensures r.Keys == cells.Keys * columns
    ensures forall k :: k in r ==> r[k] == cells[k]
  {
    map k | k in cells && k in columns :: cells[k]
  }

  /** The first row dated `d`. */
  function FirstOn(rows: seq<Row>, d: int): (r: Option<Row>)
    ensures r.Some? <==> d in Dates(rows)
    ensures r.Some? ==> r.value in rows && r.value.date == d
  {
    if rows == [] then None
    else
      DatesAppend([rows[0]], rows[1..]);
      assert [rows[0]] + rows[1..] == rows;
      if rows[0].date == d then Some(rows[0]) else FirstOn(rows[1..], d)
  }

  lemma FirstOnAppend(a: seq<Row>, b: seq<Row>, d: int)
    ensures FirstOn(a + b, d) == if d in Dates(a) then FirstOn(a, d) else FirstOn(b, d)
  {
    if a != [] {
      assert (a + b)[1..] == a[1..] + b;
      DatesAppend([a[0]], a[1..]);
      assert [a[0]] + a[1..] == a;
      FirstOnAppend(a[1..], b, d);
    } else {
      assert a + b == b;
    }
  }

  /** An old row on a date the update also has: the update's non-null cells
      overwrite the old ones, cells of currencies the table lacks are
      dropped. */
  function UpdateRow(orig: Row, updates: seq<Row>, columns: set<string>): Row {
    match FirstOn(updates, orig.date)
    case None => orig
    case Some(u) => Row(orig.date, orig.cells + Restrict(u.cells, columns))
  }

  /** The rows of the update on dates the base table lacks, first row per
      date, restricted to the base columns. */
  function Added(base: seq<Row>, updates: seq<Row>, columns: set<string>): (r: seq<Row>)
    ensures Dates(r) == Dates(updates) - Dates(base)
    ensures forall i :: 0 <= i < |r| ==>
      r[i].date in Dates(updates) && r[i] == Row(r[i].date, Restrict(FirstOn(updates, r[i].date).value.cells, columns))
  {
    if updates == [] then []
    else
      var prev := updates[..|updates| - 1];
      var u := updates[|updates| - 1];
      var head := Added(base, prev, columns);
      var tail: seq<Row> := if u.date in Dates(base) || u.date in Dates(prev) then [] else [Row(u.date, Restrict(u.cells, columns))];
      assert prev + [u] == updates;
      DatesAppend(prev, [u]);
      DatesAppend(head, tail);
      DatesSingle(u);
      assert Dates(tail) == (if tail == [] then {} else {u.date}) by {
        if tail != [] {
          DatesSingle(Row(u.date, Restrict(u.cells, columns)));
        }
      }
      forall d ensures FirstOn(updates, d) == if d in Dates(prev) then FirstOn(prev, d) else FirstOn([u], d) {
        FirstOnAppend(prev, [u], d);
      }
      head + tail
  }

  /** The old rows, each updated from the update rows of its date. */
  function Kept(base: Table, updated: Table): (r: seq<Row>)
    ensures |r| == |base.rows|
    ensures Dates(r) == Dates(base.rows)
  {
    var kept := seq(|base.rows|, i requires 0 <= i < |base.rows| => UpdateRow(base.rows[i], updated.rows, base.columns));
    assert Dates(kept) == Dates(base.rows) by {
      forall d | d in Dates(base.rows) ensures d in Dates(kept) {
        var i :| 0 <= i < |base.rows| && base.rows[i].date == d;
        assert kept[i].date == d;
      }
    }
    kept
  }

  /** The rows before sorting: the updated old rows, then the added ones. */
  function Unsorted(base: Table, updated: Table): (r: seq<Row>)
    ensures Dates(r) == Dates(base.rows) + Dates(updated.rows)
  {
    var kept := Kept(base, updated);
    var added := Added(base.rows, updated.rows, base.columns);
    DatesAppend(kept, added);
    kept + added
  }

  /** Each unsorted row is an updated old row or an added one. */
  lemma UnsortedRow(base: Table, updated: Table, x: Row)
    requires x in multiset(Unsorted(base, updated))
    ensures (exists i :: 0 <= i < |base.rows| && x == UpdateRow(base.rows[i], updated.rows, base.columns))
         || (x.date !in Dates(base.rows) && x.date in Dates(updated.rows)
             && x == Row(x.date, Restrict(FirstOn(updated.rows, x.date).value.cells, base.columns)))
  {
    var kept := Kept(base, updated);
    var added := Added(base.rows, updated.rows, base.columns);
    assert Unsorted(base, updated) == kept + added;
    var j :| 0 <= j < |kept + added| && (kept + added)[j] == x;
    if j >= |kept| {
      var a := added[j - |kept|];
      assert a.date in Dates(added);
    }
  }

  /** The merged table: the old columns only, every old row updated, the
      new dates added, sorted by date. */
  function MergeTables(base: Table, updated: Table): (r: Table)
    ensures r.columns == base.columns
    ensures Dates(r.rows) == Dates(base.rows) + Dates(updated.rows)
    ensures SortedBy(r.rows, RowDate)
  {
    var rows := SortBy(Unsorted(base, updated), RowDate);
    DatesPermutation(rows, Unsorted(base, updated));
    Table(base.columns, rows)
  }

  /** Merging keeps every cell within the old columns. */
  lemma MergeWellFormed(base: Table, updated: Table)
    requires WellFormed(base)
    ensures WellFormed(MergeTables(base, updated))
  {
    var rows := MergeTables(base, updated).rows;
    forall i | 0 <= i < |rows| ensures rows[i].cells.Keys <= base.columns {
      MergedCellsAt(base, updated, i);
    }
  }

  lemma MergedCellsAt(base: Table, updated: Table, i: int)
    requires WellFormed(base) && 0 <= i < |MergeTables(base, updated).rows|
    ensures MergeTables(base, updated).rows[i].cells.Keys <= base.columns
  {
    var rows := MergeTables(base, updated).rows;
    assert rows == SortBy(Unsorted(base, updated), RowDate);
    var x := rows[i];
    assert x in multiset(rows);
    UnsortedRow(base, updated, x);
    if exists j :: 0 <= j < |base.rows| && x == UpdateRow(base.rows[j], updated.rows, base.columns) {
      var j :| 0 <= j < |base.rows| && x == UpdateRow(base.rows[j], updated.rows, base.columns);
      UpdateRowCells(base.rows[j], updated.rows, base.columns);
    }
  }

  lemma UpdateRowCells(orig: Row, updates: seq<Row>, columns: set<string>)
    requires orig.cells.Keys <= columns
    ensures UpdateRow(orig, updates, columns).cells.Keys <= columns
  {
  }

  /** On a table strictly ascending by date, the merged table is strictly
      ascending by date too: one row per date, as the `update` on `date`
      followed by the `sort` leaves it. */
  lemma MergeStrictlySorted(base: Table, updated: Table)
    requires StrictlySortedBy(base.rows, RowDate)
    ensures StrictlySortedBy(MergeTables(base, updated).rows, RowDate)
  {
    UnsortedDistinct(base, updated);
    SortDistinctStrict(Unsorted(base, updated), RowDate);
  }

  lemma UnsortedDistinct(base: Table, updated: Table)
    requires StrictlySortedBy(base.rows, RowDate)
    ensures KeysDistinct(Unsorted(base, updated), RowDate)
  {
    var kept := Kept(base, updated);
    var added := Added(base.rows, updated.rows, base.columns);
    assert forall i :: 0 <= i < |kept| ==> kept[i].date == base.rows[i].date;
    assert KeysDistinct(kept, RowDate);
    AddedDistinct(base.rows, updated.rows, base.columns);
    DistinctDatesAppend(kept, added);
  }

  /** The added rows carry one date each. */
  lemma {:induction false} AddedDistinct(base: seq<Row>, updates: seq<Row>, columns: set<string>)
    ensures KeysDistinct(Added(base, updates, columns), RowDate)
    decreases |updates|
  {
    if updates != [] {
      var prev := updates[..|updates| - 1];
      var u := updates[|updates| - 1];
      var head := Added(base, prev, columns);
      AddedDistinct(base, prev, columns);
      if u.date in Dates(base) || u.date in Dates(prev) {
        assert Added(base, updates, columns) == head + [];
      } else {
        var x := Row(u.date, Restrict(u.cells, columns));
        assert Added(base, updates, columns) == head + [x];
        DatesSingle(x);
        DistinctDatesAppend(head, [x]);
      }
    }
  }

  lemma DistinctDatesAppend(a: seq<Row>, b: seq<Row>)
    requires KeysDistinct(a, RowDate) && KeysDistinct(b, RowDate) && Dates(a) !! Dates(b)
    ensures KeysDistinct(a + b, RowDate)
  {
    forall i, j | 0 <= i < j < |a + b| ensures RowDate((a + b)[i]) != RowDate((a + b)[j]) {
      if j < |a| {
        assert (a + b)[i] == a[i] && (a + b)[j] == a[j];
      } else if i >= |a| {
        assert (a + b)[i] == b[i - |a|] && (a + b)[j] == b[j - |a|];
      } else {
        assert a[i].date in Dates(a);
        assert b[j - |a|].date in Dates(b);
      }
    }
  }

  /** Merging, read date by date: the base row updated from the first update
      row of its date, or a new row from the first update row of a date the
      base table lacks. */
  function MergedRow(base: Table, updated: Table, d: int): Option<Row> {
    match FirstOn(base.rows, d)
    case Some(o) => Some(UpdateRow(o, updated.rows, base.columns))
    case None =>
      match FirstOn(updated.rows, d)
      case Some(u) => Some(Row(d, Restrict(u.cells, base.columns)))
      case None => None
  }

  /** At most one row per date. */
  predicate DateKeyed(rows: seq<Row>) {
    forall i, j :: 0 <= i < |rows| && 0 <= j < |rows| && rows[i].date == rows[j].date ==> rows[i] == rows[j]
  }

  lemma FirstOnKeyed(rows: seq<Row>, i: int)
    requires DateKeyed(rows) && 0 <= i < |rows|
    ensures FirstOn(rows, rows[i].date) == Some(rows[i])
  {
    var f := FirstOn(rows, rows[i].date).value;
    var j :| 0 <= j < |rows| && rows[j] == f;
  }

  /** Every row of the merged table is the merge, on its date, of the base
      row and the update: on a date the update lacks the base row is kept as
      it was, elsewhere the update's non-null cells win. */
  lemma MergeRows(base: Table, updated: Table)
    requires DateKeyed(base.rows)
    ensures var r := MergeTables(base, updated);
      DateKeyed(r.rows) && forall i :: 0 <= i < |r.rows| ==> Some(r.rows[i]) == MergedRow(base, updated, r.rows[i].date)
  {
    var rows := MergeTables(base, updated).rows;
    forall i | 0 <= i < |rows| ensures Some(rows[i]) == MergedRow(base, updated, rows[i].date) {
      MergedRowAt(base, updated, i);
    }
    forall i, j | 0 <= i < |rows| && 0 <= j < |rows| && rows[i].date == rows[j].date ensures rows[i] == rows[j] {
      assert Some(rows[i]) == MergedRow(base, updated, rows[i].date) == Some(rows[j]);
    }
  }

  lemma MergedRowAt(base: Table, updated: Table, i: int)
    requires DateKeyed(base.rows) && 0 <= i < |MergeTables(base, updated).rows|
    ensures var x := MergeTables(base, updated).rows[i]; Some(x) == MergedRow(base, updated, x.date)
  {
    var rows := MergeTables(base, updated).rows;
    assert rows == SortBy(Unsorted(base, updated), RowDate);
    assert rows[i] in multiset(rows);
    MergedRowOf(base, updated, rows[i]);
  }

  lemma MergedRowOf(base: Table, updated: Table, x: Row)
    requires DateKeyed(base.rows)
    requires x in multiset(Unsorted(base, updated))
    ensures Some(x) == MergedRow(base, updated, x.date)
  {
    UnsortedRow(base, updated, x);
    if exists j :: 0 <= j < |base.rows| && x == UpdateRow(base.rows[j], updated.rows, base.columns) {
      var j :| 0 <= j < |base.rows| && x == UpdateRow(base.rows[j], updated.rows, base.columns);
      FirstOnKeyed(base.rows, j);
    }
  }

  /** Updating a merged table again from the same update leaves each row
      as it is. */
  lemma KeptAfterMerge(base: Table, updated: Table)
    ensures Kept(MergeTables(base, updated), updated) == MergeTables(base, updated).rows
  {
    var m := MergeTables(base, updated);
    var kept2 := Kept(m, updated);
    forall i | 0 <= i < |m.rows| ensures kept2[i] == m.rows[i] {
      var x := m.rows[i];
      assert kept2[i] == UpdateRow(x, updated.rows, base.columns);
      UnsortedRow(base, updated, x);
      if exists j :: 0 <= j < |base.rows| && x == UpdateRow(base.rows[j], updated.rows, base.columns) {
        var j :| 0 <= j < |base.rows| && x == UpdateRow(base.rows[j], updated.rows, base.columns);
        UpdateRowTwice(base.rows[j], updated.rows, base.columns);
      } else {
        AddedRowStays(x.date, updated.rows, base.columns);
      }
    }
  }

  lemma UpdateRowTwice(orig: Row, updates: seq<Row>, columns: set<string>)
    ensures UpdateRow(UpdateRow(orig, updates, columns), updates, columns) == UpdateRow(orig, updates, columns)
  {
    match FirstOn(updates, orig.date)
    case None =>
    case Some(u) =>
      var c := Restrict(u.cells, columns);
      assert orig.cells + c + c == orig.cells + c;
  }

  lemma AddedRowStays(d: int, updates: seq<Row>, columns: set<string>)
    requires d in Dates(updates)
    ensures var x := Row(d, Restrict(FirstOn(updates, d).value.cells, columns));
      UpdateRow(x, updates, columns) == x
  {
    var c := Restrict(FirstOn(updates, d).value.cells, columns);
    assert c + c == c;
  }

  /** A merged table already holds every date of the update. */
  lemma AddedAfterMerge(base: Table, updated: Table)
    ensures Added(MergeTables(base, updated).rows, updated.rows, base.columns) == []
  {
    var m := MergeTables(base, updated);
    var added2 := Added(m.rows, updated.rows, base.columns);
    assert Dates(updated.rows) <= Dates(m.rows);
    assert Dates(added2) == {};
    if added2 != [] {
      DatesNonEmpty(added2);
    }
  }

  /** Applying the same update twice changes nothing more. */
  lemma MergeIdempotent(base: Table, updated: Table)
    ensures MergeTables(MergeTables(base, updated), updated) == MergeTables(base, updated)
  {
    var m := MergeTables(base, updated);
    KeptAfterMerge(base, updated);
    AddedAfterMerge(base, updated);
    assert Unsorted(m, updated) == m.rows + [];
    assert m.rows + [] == m.rows;
    SortOfSorted(m.rows, RowDate);
  }

  // ---------------------------------------------------------------------
  // `join_asof` (backward) and the conversion expressions.

  /** The position of the last row dated on or before `d`, or -1. */
  function LastNotAfter(rows: seq<Row>, d: int): (k: int)
    ensures -1 <= k < |rows|
    ensures k >= 0 ==> rows[k].date <= d
    ensures forall j :: k < j < |rows| ==> rows[j].date > d
  {
    if rows == [] then -1
    else if rows[|rows| - 1].date <= d then |rows| - 1
    else
      var init := rows[..|rows| - 1];
      assert forall j :: 0 <= j < |init| ==> init[j] == rows[j];
      LastNotAfter(init, d)
  }

  /** The row in force on date `d`: the last row dated on or before it. */
  function AsOf(rows: seq<Row>, d: int): (r: Option<Row>)
    ensures r.None? <==> forall i :: 0 <= i < |rows| ==> rows[i].date > d
    ensures r.Some? ==> exists i :: 0 <= i < |rows| && rows[i] == r.value && rows[i].date <= d
                                   && forall j :: i < j < |rows| ==> rows[j].date > d
  {
    var k := LastNotAfter(rows, d);
    if k < 0 then None else Some(rows[k])
  }

  /** On a table sorted by date the row in force is the latest one not
      after `d`. */
  lemma AsOfLatest(rows: seq<Row>, d: int, k: int)
    requires SortedBy(rows, RowDate)
    requires 0 <= k < |rows| && rows[k].date <= d
    ensures AsOf(rows, d).Some? && rows[k].date <= AsOf(rows, d).value.date <= d
  {
    var r := AsOf(rows, d).value;
    var i :| 0 <= i < |rows| && rows[i] == r && rows[i].date <= d && forall j :: i < j < |rows| ==> rows[j].date > d;
    if k <= i {
      assert RowDate(rows[k]) <= RowDate(rows[i]);
    }
  }

  /** The rate of `currency` in force on `d`, null when no row is in force
      or that row has no rate for the currency. */
  function RateAt(table: Table, currency: string, d: int): (r: Option<int>)
    ensures r.Some? ==>
      exists i :: 0 <= i < |table.rows| && table.rows[i].date <= d
        && (forall j :: i < j < |table.rows| ==> table.rows[j].date > d)
        && currency in table.rows[i].cells && table.rows[i].cells[currency] == r.value
    ensures r.None? <==> AsOf(table.rows, d).None? || currency !in AsOf(table.rows, d).value.cells
  {
    match AsOf(table.rows, d)
    case None => None
    case Some(row) => Get(row.cells, currency)
  }

  /** `value * rate` or `value / rate`. */
  function ConvertAmount(ct: ConversionType, amount: real, rate: real): (r: Result<real, ConvertError>)
    ensures r.Err? <==> ct == From && rate == 0.0
    ensures r.Err? ==> r.error == DivisionByZero
    ensures r.Ok? && ct == From ==> r.value * rate == amount
  {
    match ct
    case To => Ok(amount * rate)
    case From => if rate == 0.0 then Err(DivisionByZero) else Ok(amount / rate)
  }

  /** Converting back at the same rate gives the amount again. */
  lemma FromUndoesTo(amount: real, rate: real)
    requires rate != 0.0
    ensures ConvertAmount(From, ConvertAmount(To, amount, rate).value, rate) == Ok(amount)
  {
    var back := ConvertAmount(From, amount * rate, rate);
    assert back.Ok? && back.value * rate == amount * rate;
    assert (back.value - amount) * rate == 0.0;
  }

  lemma ConvertToProduct(x: real, rate: real)
    ensures ConvertAmount(To, x, rate) == Ok(x * rate)
  {
  }

  lemma ToUndoesFrom(amount: real, rate: real)
    requires rate != 0.0
    ensures ConvertAmount(To, ConvertAmount(From, amount, rate).value, rate) == Ok(amount)
  {
    var x := amount / rate;
    assert ConvertAmount(From, amount, rate) == Ok(x);
    assert x * rate == amount;
    ConvertToProduct(x, rate);
  }

  /** One conversion read straight off the table: the rate in force on the
      date, the amount converted exactly, then rounded when `decimals` is
      given; a missing rate is a null result, which cannot be rounded. */
  function Converted(table: Table, ct: ConversionType, currency: string, d: int, value: int, decimals: Option<int>)
    : Result<Option<real>, ConvertError>
  {
    match RateAt(table, currency, d)
    case None => if decimals.None? then Ok(None) else Err(Util(RoundNull))
    case Some(rate) =>
      match ConvertAmount(ct, UnitsValue(value), UnitsValue(rate))
      case Err(e) => Err(e)
      case Ok(x) => Ok(Some(if decimals.None? then x else RoundHalfEven(x, decimals.value)))
  }

  /** The result column for one input row; a division by zero leaves it
      null here and fails the whole expression in `ConvertRows`. */
  function Evaluate(table: Table, ct: ConversionType, currency: string, x: InputRow): ResultRow {
    ResultRow(x.idx, x.date,
      match RateAt(table, currency, x.date)
      case None => None
      case Some(rate) =>
        match ConvertAmount(ct, UnitsValue(x.value), UnitsValue(rate))
        case Ok(v) => Some(v)
        case Err(_) => None)
  }

  /** `Evaluate` as the expression applied to every row of a frame. */
  function Evaluator(table: Table, ct: ConversionType, currency: string): InputRow -> ResultRow {
    x => Evaluate(table, ct, currency, x)
  }

  predicate DividesByZero(table: Table, ct: ConversionType, currency: string, x: InputRow) {
    ct == From && RateAt(table, currency, x.date) == Some(0)
  }

  /** The merged frame with its `result` column: every input row joined to
      the rate in force and converted. */
  function ConvertRows(table: Table, ct: ConversionType, currency: string, rows: seq<InputRow>)
    : Result<seq<ResultRow>, ConvertError>
  {
    if exists i :: 0 <= i < |rows| && DividesByZero(table, ct, currency, rows[i]) then Err(DivisionByZero)
    else Ok(Map(Evaluator(table, ct, currency), rows))
  }

  /** `convert`: the single-row frame joined to the rate of the upper-cased
      currency, converted, then passed to `get_single_result`. */
  function ConvertOn(data: Option<CacheBase.Snapshot>, ct: ConversionType, currency: string, d: int, value: int,
                     decimals: Option<int>): (r: Result<Option<real>, ConvertError>)
    ensures data.None? ==> r == Err(NoData)
    ensures data.Some? && Ascii.Upper(currency) !in data.value.rates.columns ==> r == Err(UnknownCurrency(Ascii.Upper(currency)))
    ensures data.Some? && Ascii.Upper(currency) in data.value.rates.columns ==>
      r == Converted(data.value.rates, ct, Ascii.Upper(currency), d, value, decimals)
  {
    if data.None? then Err(NoData)
    else
      var cur := Ascii.Upper(currency);
      if cur !in data.value.rates.columns then Err(UnknownCurrency(cur))
      else
        var frame := GetSingleDf(d, value);
        assert frame == [InputRow(0, d, value)];
        match ConvertRows(data.value.rates, ct, cur, frame)
        case Err(e) => Err(e)
        case Ok(merged) =>
          match GetSingleResult(merged[0].result, decimals)
          case Err(e) => Err(Util(e))
          case Ok(v) => Ok(v)
  }

  /** `convert_multiple`: the sorted multi-row frame joined and converted,
      then passed to `get_result_list`. */
  function ConvertMultipleOn(data: Option<CacheBase.Snapshot>, ct: ConversionType, currency: string,
                             values: seq<(int, int)>, keepOrder: bool, decimals: Option<int>)
    : (r: Result<seq<(int, Option<real>)>, ConvertError>)
    ensures data.None? ==> r == Err(NoData)
    ensures data.Some? && Ascii.Upper(currency) !in data.value.rates.columns ==> r == Err(UnknownCurrency(Ascii.Upper(currency)))
    ensures r.Ok? ==> |r.value| == |values|
  {
    if data.None? then Err(NoData)
    else
      var cur := Ascii.Upper(currency);
      if cur !in data.value.rates.columns then Err(UnknownCurrency(cur))
      else
        match ConvertRows(data.value.rates, ct, cur, GetMultiDf(values))
        case Err(e) => Err(e)
        case Ok(merged) =>
          match GetResultList(merged, keepOrder, decimals)
          case Err(e) => Err(Util(e))
          case Ok(v) => Ok(v)
  }

  // ---------------------------------------------------------------------
  // `convert_multiple` against `convert`

  /** One conversion computed by `Evaluate` and rounded agrees with the
      conversion read off the table, unless its rate divides by zero. */
  lemma EvaluateConverted(table: Table, ct: ConversionType, currency: string, x: InputRow, decimals: Option<int>)
    ensures DividesByZero(table, ct, currency, x) ==>
      Converted(table, ct, currency, x.date, x.value, decimals) == Err(DivisionByZero)
    ensures !DividesByZero(table, ct, currency, x) ==>
      match GetSingleResult(Evaluate(table, ct, currency, x).result, decimals)
      case Ok(v) => Converted(table, ct, currency, x.date, x.value, decimals) == Ok(v)
      case Err(e) => Converted(table, ct, currency, x.date, x.value, decimals) == Err(Util(e))
  {
    match RateAt(table, currency, x.date)
    case None =>
    case Some(rate) =>
      if !DividesByZero(table, ct, currency, x) {
        assert UnitsValue(rate) == 0.0 ==> rate == 0;
      }
  }

  /** A result row rounded as `get_result_list` rounds it; a null that cannot
      be rounded shows as null here and fails `RoundAll`. */
  function Rounded(decimals: Option<int>, x: ResultRow): (int, Option<real>) {
    (x.date, match GetSingleResult(x.result, decimals) case Ok(v) => v case Err(_) => None)
  }

  lemma RoundAllMembers(rows: seq<ResultRow>, decimals: Option<int>)
    ensures RoundAll(rows, decimals).Ok? <==> forall x :: x in rows ==> GetSingleResult(x.result, decimals).Ok?
    ensures RoundAll(rows, decimals).Ok? ==> RoundAll(rows, decimals).value == Map(x => Rounded(decimals, x), rows)
  {
    if RoundAll(rows, decimals).Ok? {
      forall x | x in rows ensures GetSingleResult(x.result, decimals).Ok? {
        var i :| 0 <= i < |rows| && rows[i] == x;
      }
    }
  }

  /** The rows of a division-free conversion, by input index. */
  lemma ConvertRowsOk(table: Table, ct: ConversionType, currency: string, values: seq<(int, int)>)
    ensures var sorted := GetMultiDf(values);
      ConvertRows(table, ct, currency, sorted).Err? <==>
        exists i :: 0 <= i < |values| && DividesByZero(table, ct, currency, InputRow(i, values[i].0, values[i].1))
  {
    var sorted := GetMultiDf(values);
    if ConvertRows(table, ct, currency, sorted).Err? {
      var k :| 0 <= k < |sorted| && DividesByZero(table, ct, currency, sorted[k]);
      SortedRowIsInput(values, sorted[k]);
      var i := sorted[k].idx;
      assert DividesByZero(table, ct, currency, InputRow(i, values[i].0, values[i].1));
    } else {
      forall i | 0 <= i < |values| ensures !DividesByZero(table, ct, currency, InputRow(i, values[i].0, values[i].1)) {
        var k := InputRowIsSorted(values, i);
      }
    }
  }

  lemma InputRowIsSorted(values: seq<(int, int)>, i: int) returns (k: int)
    requires 0 <= i < |values|
    ensures 0 <= k < |GetMultiDf(values)| && GetMultiDf(values)[k] == InputRow(i, values[i].0, values[i].1)
  {
    k :| 0 <= k < |GetMultiDf(values)| && GetMultiDf(values)[k] == InputRow(i, values[i].0, values[i].1);
  }

  lemma SortedRowIsInput(values: seq<(int, int)>, x: InputRow)
    requires x in GetMultiDf(values)
    ensures 0 <= x.idx < |values| && x == InputRow(x.idx, values[x.idx].0, values[x.idx].1)
  {
  }

  /** With `keep_order` the results come back in input order, each equal to
      the single conversion of its pair; the call succeeds exactly when every
      single conversion does. */
  lemma ConvertMultipleInOrder(data: Option<CacheBase.Snapshot>, ct: ConversionType, currency: string,
                               values: seq<(int, int)>, decimals: Option<int>)
    ensures var r := ConvertMultipleOn(data, ct, currency, values, true, decimals);
      (r.Ok? <==> data.Some? && Ascii.Upper(currency) in data.value.rates.columns
                  && forall i :: 0 <= i < |values| ==> ConvertOn(data, ct, currency, values[i].0, values[i].1, decimals).Ok?)
      && (r.Ok? ==> forall i :: 0 <= i < |values| ==>
            r.value[i] == (values[i].0, ConvertOn(data, ct, currency, values[i].0, values[i].1, decimals).value))
  {
    if data.Some? && Ascii.Upper(currency) in data.value.rates.columns {
      var table := data.value.rates;
      var cur := Ascii.Upper(currency);
      ConvertRowsOk(table, ct, cur, values);
      if ConvertRows(table, ct, cur, GetMultiDf(values)).Ok? {
        var original := Map(Evaluator(table, ct, cur), Indexed(values));
        var a := RoundAll(original, decimals);
        InOrderOn(data, ct, currency, values, decimals);
        forall i | 0 <= i < |values|
          ensures InputConverts(data, ct, currency, values, decimals, i)
        {
          InputConverted(data, ct, currency, values, decimals, i);
        }
        if a.Ok? {
          forall i | 0 <= i < |values|
            ensures ConvertOn(data, ct, currency, values[i].0, values[i].1, decimals).Ok?
            ensures a.value[i] == (values[i].0, ConvertOn(data, ct, currency, values[i].0, values[i].1, decimals).value)
          {
            assert InputConverts(data, ct, currency, values, decimals, i);
          }
        } else {
          var i :| 0 <= i < |original| && !GetSingleResult(original[i].result, decimals).Ok?;
          assert InputConverts(data, ct, currency, values, decimals, i);
        }
      } else {
        var i :| 0 <= i < |values| && DividesByZero(table, ct, cur, InputRow(i, values[i].0, values[i].1));
        EvaluateConverted(table, ct, cur, InputRow(i, values[i].0, values[i].1), decimals);
      }
    }
  }

  /** Input `i`, evaluated in the frame and rounded, is its single
      conversion. */
  predicate InputConverts(data: Option<CacheBase.Snapshot>, ct: ConversionType, currency: string,
                          values: seq<(int, int)>, decimals: Option<int>, i: int)
    requires data.Some? && 0 <= i < |values|
  {
    var x := Map(Evaluator(data.value.rates, ct, Ascii.Upper(currency)), Indexed(values))[i];
    var c := ConvertOn(data, ct, currency, values[i].0, values[i].1, decimals);
    (GetSingleResult(x.result, decimals).Ok? <==> c.Ok?)
    && (c.Ok? ==> (x.date, GetSingleResult(x.result, decimals).value) == (values[i].0, c.value))
  }

  lemma InputConverted(data: Option<CacheBase.Snapshot>, ct: ConversionType, currency: string,
                       values: seq<(int, int)>, decimals: Option<int>, i: int)
    requires data.Some? && Ascii.Upper(currency) in data.value.rates.columns && 0 <= i < |values|
    requires !DividesByZero(data.value.rates, ct, Ascii.Upper(currency), InputRow(i, values[i].0, values[i].1))
    ensures InputConverts(data, ct, currency, values, decimals, i)
  {
    var x := InputRow(i, values[i].0, values[i].1);
    assert Indexed(values)[i] == x;
    EvaluateConverted(data.value.rates, ct, Ascii.Upper(currency), x, decimals);
  }

  /** A division-free `convert_multiple` with `keep_order` is the rounding
      of the rows evaluated in input order. */
  lemma InOrderOn(data: Option<CacheBase.Snapshot>, ct: ConversionType, currency: string,
                  values: seq<(int, int)>, decimals: Option<int>)
    requires data.Some? && Ascii.Upper(currency) in data.value.rates.columns
    requires ConvertRows(data.value.rates, ct, Ascii.Upper(currency), GetMultiDf(values)).Ok?
    ensures var a := RoundAll(Map(Evaluator(data.value.rates, ct, Ascii.Upper(currency)), Indexed(values)), decimals);
      ConvertMultipleOn(data, ct, currency, values, true, decimals) == if a.Ok? then Ok(a.value) else Err(Util(a.error))
  {
    InOrderRows(data.value.rates, ct, Ascii.Upper(currency), values, decimals);
  }

  /** Restoring the index order gives the rows evaluated in input order. */
  lemma InOrderRows(table: Table, ct: ConversionType, currency: string, values: seq<(int, int)>, decimals: Option<int>)
    ensures GetResultList(Map(Evaluator(table, ct, currency), GetMultiDf(values)), true, decimals)
         == RoundAll(Map(Evaluator(table, ct, currency), Indexed(values)), decimals)
  {
    var ev := Evaluator(table, ct, currency);
    var original := Map(ev, Indexed(values));
    MapMultiset(ev, GetMultiDf(values), Indexed(values));
    RestoreSortExact(Map(ev, GetMultiDf(values)), original);
  }

  /** Without `keep_order` the results are those of `keep_order`, sorted by
      date instead of in input order. */
  lemma {:induction false} ConvertMultipleSorted(data: Option<CacheBase.Snapshot>, ct: ConversionType, currency: string,
                                                 values: seq<(int, int)>, decimals: Option<int>)
    ensures var a := ConvertMultipleOn(data, ct, currency, values, false, decimals);
      var b := ConvertMultipleOn(data, ct, currency, values, true, decimals);
      (a.Ok? <==> b.Ok?)
      && (a.Ok? ==> multiset(a.value) == multiset(b.value)
                    && forall i, j :: 0 <= i < j < |a.value| ==> a.value[i].0 <= a.value[j].0)
  {
    if data.Some? && Ascii.Upper(currency) in data.value.rates.columns {
      var table := data.value.rates;
      var cur := Ascii.Upper(currency);
      var sorted := GetMultiDf(values);
      if ConvertRows(table, ct, cur, sorted).Ok? {
        var res := Map(Evaluator(table, ct, cur), sorted);
        BothOrdersOn(data, ct, currency, values, decimals);
        RoundAllPermutation(res, SortBy(res, ResultIdx), decimals);
        RoundAllSorted(table, ct, cur, sorted, decimals);
      }
    }
  }

  /** A division-free `convert_multiple` rounds the evaluated frame as it
      is, or put back in index order with `keep_order`. */
  lemma BothOrdersOn(data: Option<CacheBase.Snapshot>, ct: ConversionType, currency: string,
                     values: seq<(int, int)>, decimals: Option<int>)
    requires data.Some? && Ascii.Upper(currency) in data.value.rates.columns
    requires ConvertRows(data.value.rates, ct, Ascii.Upper(currency), GetMultiDf(values)).Ok?
    ensures var res := Map(Evaluator(data.value.rates, ct, Ascii.Upper(currency)), GetMultiDf(values));
      var a := RoundAll(res, decimals);
      var b := RoundAll(SortBy(res, ResultIdx), decimals);
      ConvertMultipleOn(data, ct, currency, values, false, decimals) == (if a.Ok? then Ok(a.value) else Err(Util(a.error)))
      && ConvertMultipleOn(data, ct, currency, values, true, decimals) == (if b.Ok? then Ok(b.value) else Err(Util(b.error)))
  {
  }

  /** Rounding the rows of a date-sorted frame keeps them sorted by date. */
  lemma RoundAllSorted(table: Table, ct: ConversionType, currency: string, sorted: seq<InputRow>, decimals: Option<int>)
    requires SortedBy(sorted, InputDate)
    ensures var a := RoundAll(Map(Evaluator(table, ct, currency), sorted), decimals);
      a.Ok? ==> forall i, j :: 0 <= i < j < |a.value| ==> a.value[i].0 <= a.value[j].0
  {
    var res := Map(Evaluator(table, ct, currency), sorted);
    var a := RoundAll(res, decimals);
    if a.Ok? {
      forall i, j | 0 <= i < j < |a.value| ensures a.value[i].0 <= a.value[j].0 {
        assert a.value[i].0 == res[i].date == sorted[i].date;
        assert a.value[j].0 == res[j].date == sorted[j].date;
        assert InputDate(sorted[i]) <= InputDate(sorted[j]);
      }
    }
  }

  /** Rounding rows in another order rounds the same rows. */
  lemma RoundAllPermutation(s: seq<ResultRow>, t: seq<ResultRow>, decimals: Option<int>)
    requires multiset(s) == multiset(t)
    ensures RoundAll(s, decimals).Ok? <==> RoundAll(t, decimals).Ok?
    ensures RoundAll(s, decimals).Ok? ==> multiset(RoundAll(s, decimals).value) == multiset(RoundAll(t, decimals).value)
  {
    RoundAllMembers(s, decimals);
    RoundAllMembers(t, decimals);
    forall x ensures x in s <==> x in t {
      assert x in s <==> x in multiset(s);
      assert x in t <==> x in multiset(t);
    }
    if RoundAll(s, decimals).Ok? {
      MapMultiset(x => Rounded(decimals, x), s, t);
    }
  }

  /** The rates of the calculator's test table: three days, three
      currencies, in millionths. */
  function FixtureTable(): Table {
    Table({"CAA", "CBB", "CCC"}, [
      Row(20230101, map["CAA" := 2000000, "CBB" := 3000000, "CCC" := 500000]),
      Row(20230104, map["CAA" := 2010000, "CBB" := 6000001, "CCC" := 500001]),
      Row(20230105, map["CAA" := 2020000, "CBB" := 3000002, "CCC" := 500002])])
  }

  /** Converting one unit from `ccc` on 4 January divides by that day's
      rate, 0.500001, and rounds to six places: 1.999996. */
  lemma ConvertFromExample(data: Option<CacheBase.Snapshot>)
    requires data.Some? && data.value.rates == FixtureTable()
    ensures ConvertOn(data, From, "ccc", 20230104, 1000000, Some(6)) == Ok(Some(1999996.0 / 1000000.0))
  {
    var rows := data.value.rates.rows;
    assert Ascii.Upper("ccc") == "CCC";
    assert AsOf(rows, 20230104) == Some(rows[1]) by {
      assert rows[..|rows| - 1] == rows[..2];
      assert AsOf(rows[..2], 20230104) == Some(rows[1]);
    }
    assert RateAt(data.value.rates, "CCC", 20230104) == Some(500001);
    assert 1.0 / UnitsValue(500001) == 1000000.0 / 500001.0;
    RoundExamples();
  }

  /** Converting one unit to `CAA` on 2 January uses the rate of 1 January,
      the last one in force. */
  lemma ConvertAsOfExample(data: Option<CacheBase.Snapshot>)
    requires data.Some? && data.value.rates == FixtureTable()
    ensures ConvertOn(data, To, "CAA", 20230102, 1000000, Some(6)) == Ok(Some(2.0))
  {
    var rows := data.value.rates.rows;
    assert Ascii.Upper("CAA") == "CAA";
    assert AsOf(rows, 20230102) == Some(rows[0]) by {
      assert rows[..|rows| - 1] == rows[..2];
      assert rows[..2][..1] == rows[..1];
      assert AsOf(rows[..1], 20230102) == Some(rows[0]);
    }
    assert RateAt(data.value.rates, "CAA", 20230102) == Some(2000000);
    assert UnitsValue(1000000) * UnitsValue(2000000) == 2.0;
    RoundUnitsUnique(2.0, 6, 2000000);
  }

  /** A currency the table lacks is refused, in upper case. */
  lemma UnknownCurrencyExample(data: Option<CacheBase.Snapshot>)
    requires data.Some? && data.value.rates == FixtureTable()
    ensures ConvertOn(data, To, "cdd", 20230102, 1000000, None) == Err(UnknownCurrency("CDD"))
  {
    assert Ascii.Upper("cdd") == "CDD";
  }

  // ---------------------------------------------------------------------
  // `update`: one fetch of the feed, merged into the snapshot.

  /** What `update` raises: `raise_for_status`, the parser, and the
      conversion of the records into a table. */
  datatype UpdateError =
    | FetchFailed(status: int)
    | ParseFailed(parseError: EcbParser.ParseError)
    | TableFailed(tableError: UtilError)

  /** The snapshot after an update, and whether new rates arrived. */
  datatype Updated = Updated(data: Option<CacheBase.Snapshot>, changed: bool)

  function LastUpdate(data: Option<CacheBase.Snapshot>): Option<int> {
    if data.Some? then Some(data.value.lastUpdate) else None
  }

  /** The strategy `update` picks from the instant of the last update. */
  function Strategy(data: Option<CacheBase.Snapshot>, now: int): UpdateType {
    GetUpdateType(now, LastUpdate(data))
  }

  /** Without a snapshot the whole history is fetched. */
  lemma NoSnapshotFetchesAll(now: int)
    ensures Strategy(None, now) == Full
  {
  }

  /** The validators sent with the request: none for a full fetch, else the
      ones stored for the strategy, if any. */
  function RequestValidators(data: Option<CacheBase.Snapshot>, t: UpdateType): (r: Option<UpdateTimestamps>)
    ensures t == Full || data.None? ==> r.None?
    ensures t != Full && data.Some? ==> (r.Some? <==> t.Value() in data.value.lastTimestamps)
    ensures r.Some? ==> r.value == data.value.lastTimestamps[t.Value()]
  {
    if t == Full || data.None? then None else Get(data.value.lastTimestamps, t.Value())
  }

  /** What `update` makes of the snapshot `data` at instant `now` given the
      feed's response: a 304 only records the response's validators; a new
      feed replaces the snapshot (full fetch) or is merged into it. */
  function UpdateOutcome(data: Option<CacheBase.Snapshot>, now: int, response: EcbDownload.Response)
    : (r: Result<Updated, UpdateError>)
    ensures response.status >= 400 ==> r == Err(FetchFailed(response.status))
    ensures r.Ok? && r.value.changed ==> r.value.data.Some? && r.value.data.value.lastUpdate == now
    ensures r.Ok? && !r.value.changed ==> response.status == 304
    ensures r.Ok? && data.Some? && Strategy(data, now) != Full ==>
      r.value.data.Some?
      && r.value.data.value.lastTimestamps
         == data.value.lastTimestamps[Strategy(data, now).Value() := EcbDownload.ResponseValidators(response)]
  {
    var t := Strategy(data, now);
    if response.status >= 400 then Err(FetchFailed(response.status))
    else
      var validators := EcbDownload.ResponseValidators(response);
      if response.status == 304 then
        Ok(Updated(
          if data.Some? then Some(data.value.(lastTimestamps := data.value.lastTimestamps[t.Value() := validators]))
          else None,
          false))
      else
        var outcome := EcbParser.Parse(response.body);
        if outcome.error.Some? then Err(ParseFailed(outcome.error.value))
        else
          match GetParsedRatesDf(outcome.records)
          case Err(e) => Err(TableFailed(e))
          case Ok(table) =>
            if t == Full then Ok(Updated(Some(CacheBase.Snapshot(table, now, map[])), true))
            else
              Ok(Updated(Some(CacheBase.Snapshot(
                MergeTables(data.value.rates, table), now, data.value.lastTimestamps[t.Value() := validators])), true))
  }

  /** A 304 keeps the rates and the instant of the last update, and stores
      the response's validators under the strategy's key. */
  lemma NotModifiedKeepsRates(data: Option<CacheBase.Snapshot>, now: int, response: EcbDownload.Response)
    requires response.status == 304
    ensures var r := UpdateOutcome(data, now, response);
      r.Ok? && !r.value.changed && (r.value.data.Some? <==> data.Some?)
      && (data.Some? ==>
            r.value.data.value.rates == data.value.rates
            && r.value.data.value.lastUpdate == data.value.lastUpdate
            && r.value.data.value.lastTimestamps
               == data.value.lastTimestamps[Strategy(data, now).Value() := EcbDownload.ResponseValidators(response)])
  {
  }

  /** Only the validators of the strategy used change. */
  lemma UpdateKeepsOtherValidators(data: Option<CacheBase.Snapshot>, now: int, response: EcbDownload.Response, k: string)
    requires data.Some? && Strategy(data, now) != Full
    requires k != Strategy(data, now).Value() && k in data.value.lastTimestamps
    ensures var r := UpdateOutcome(data, now, response);
      r.Ok? ==> r.value.data.Some? && k in r.value.data.value.lastTimestamps
                && r.value.data.value.lastTimestamps[k] == data.value.lastTimestamps[k]
  {
  }

  /** A full fetch replaces the whole snapshot: the parsed table, no stored
      validators. */
  lemma FullUpdateReplaces(data: Option<CacheBase.Snapshot>, now: int, response: EcbDownload.Response)
    requires Strategy(data, now) == Full
    ensures var r := UpdateOutcome(data, now, response);
      r.Ok? && r.value.changed ==>
        var outcome := EcbParser.Parse(response.body);
        outcome.error.None? && GetParsedRatesDf(outcome.records) == Ok(r.value.data.value.rates)
        && r.value.data.value.lastTimestamps == map[]
  {
  }

  /** An incremental update keeps every date and every column of the table
      and adds the new dates; with at most one row per date before, each row
      after is the merge of its date, and a table strictly ascending by date
      stays so. The response's validators are stored under the strategy's
      key. */
  lemma IncrementalKeepsHistory(data: Option<CacheBase.Snapshot>, now: int, response: EcbDownload.Response)
    requires data.Some? && Strategy(data, now) != Full
    ensures var r := UpdateOutcome(data, now, response);
      r.Ok? && r.value.changed ==>
        var table := GetParsedRatesDf(EcbParser.Parse(response.body).records).value;
        var rates := r.value.data.value.rates;
        rates.columns == data.value.rates.columns
        && Dates(rates.rows) == Dates(data.value.rates.rows) + Dates(table.rows)
        && r.value.data.value.lastTimestamps
           == data.value.lastTimestamps[Strategy(data, now).Value() := EcbDownload.ResponseValidators(response)]
        && (DateKeyed(data.value.rates.rows) ==>
              DateKeyed(rates.rows)
              && forall i :: 0 <= i < |rates.rows| ==> Some(rates.rows[i]) == MergedRow(data.value.rates, table, rates.rows[i].date))
        && (StrictlySortedBy(data.value.rates.rows, RowDate) ==> StrictlySortedBy(rates.rows, RowDate))
  {
    var r := UpdateOutcome(data, now, response);
    if r.Ok? && r.value.changed {
      var table := GetParsedRatesDf(EcbParser.Parse(response.body).records).value;
      if DateKeyed(data.value.rates.rows) {
        MergeRows(data.value.rates, table);
      }
      if StrictlySortedBy(data.value.rates.rows, RowDate) {
        MergeStrictlySorted(data.value.rates, table);
      }
    }
  }

  // ---------------------------------------------------------------------
  // `_check_cache`

  /** The cache is reloaded when it was never checked or the last check lies
      more than `CACHE_TIMEOUT` back. */
  predicate Stale(lastCheck: Option<int>, now: int) {
    lastCheck.None? || lastCheck.value + CACHE_TIMEOUT < now
  }

  datatype CheckOutcome = CheckOutcome(reload: bool, lastCheck: Option<int>)

  /** `_check_cache` as written: it reloads when stale but never records
      the check. */
  function CheckAsWritten(lastCheck: Option<int>, now: int): (o: CheckOutcome)
    ensures o.reload <==> Stale(lastCheck, now)
    ensures o.lastCheck == lastCheck
  {
    CheckOutcome(Stale(lastCheck, now), lastCheck)
  }

  /** As written, a calculator reloads its cache on every call, even one
      second after the previous load, and its last check stays unset where
      the calculator's test expects the instant of the check. */
  lemma AsWrittenReloadsEveryCall(now: int)
    ensures var first := CheckAsWritten(None, now);
      first.reload && first.lastCheck != Some(now) && CheckAsWritten(first.lastCheck, now + 1).reload
  {
  }

  /** `_check_cache` with the check recorded whenever it reloads. */
  function CheckRecorded(lastCheck: Option<int>, now: int): (o: CheckOutcome)
    ensures o.reload <==> Stale(lastCheck, now)
    ensures o.reload ==> o.lastCheck == Some(now)
    ensures !Stale(o.lastCheck, now)
  {
    if Stale(lastCheck, now) then CheckOutcome(true, Some(now)) else CheckOutcome(false, lastCheck)
  }

  /** With the check recorded, a load is not repeated within
      `CACHE_TIMEOUT` and is repeated after it. */
  lemma RecordedReloadsHourly(lastCheck: Option<int>, now1: int, now2: int)
    requires CheckRecorded(lastCheck, now1).reload
    ensures CheckRecorded(CheckRecorded(lastCheck, now1).lastCheck, now2).reload <==> now2 > now1 + CACHE_TIMEOUT
  {
  }

  // ---------------------------------------------------------------------
  // The calculator object.

  /** What backs a cache besides its snapshot. */
  datatype Storage =
    | Memory
    | Store(table: Option<Table>, meta: Option<CacheBase.StoredMeta>)
    | Files(files: map<string, CacheFile.FileContent>)

  /** The cache a calculator holds: one of the three cache classes. */
  datatype CacheHandle =
    | Plain(plain: CacheBase.RatesCache)
    | Stored(stored: CacheBase.StoredRatesCache)
    | File(file: CacheFile.FileCache)
  {
    function Obj(): object {
      match this
      case Plain(c) => c
      case Stored(c) => c
      case File(c) => c
    }

    /** The calculator's `data` property. */
    function Data(): Option<CacheBase.Snapshot>
      reads Obj()
    {
      match this
      case Plain(c) => c.data
      case Stored(c) => c.data
      case File(c) => c.data
    }

    function Kept(): Storage
      reads Obj()
    {
      match this
      case Plain(_) => Memory
      case Stored(c) => Store(c.storedTable, c.storedMeta)
      case File(c) => Files(c.files)
    }

    /** The snapshot after `load`: the stored one when it is there and
        decodes, the current one otherwise. */
    function Loaded(): Option<CacheBase.Snapshot>
      reads Obj()
    {
      match this
      case Plain(c) => c.data
      case Stored(c) =>
        if c.storedTable.Some? && c.storedMeta.Some? then
          match CacheBase.DecodeMeta(c.storedTable.value, c.storedMeta.value)
          case Ok(s) => Some(s)
          case Err(_) => c.data
        else c.data
      case File(c) =>
        if c.TableReadable() && c.MetaReadable() then
          match CacheFile.DecodeFileMeta(c.files[c.dataFilename].table, c.files[c.timestampsFilename].meta)
          case Ok(s) => Some(s)
          case Err(_) => c.data
        else c.data
    }

    /** The storage `save` of snapshot `d` makes of storage `k`, with the
        given write failing, if any. */
    function SaveInto(k: Storage, d: Option<CacheBase.Snapshot>, fault: CacheBase.WriteFault): Storage {
      match this
      case Plain(_) => k
      case Stored(_) =>
        if d.None? || !k.Store? then k
        else Store(
          if fault != CacheBase.TableWriteFails then Some(d.value.rates) else k.table,
          if fault == CacheBase.NoFault then Some(CacheBase.EncodeMeta(d.value)) else k.meta)
      case File(c) =>
        if d.None? || !k.Files? || fault == CacheBase.TableWriteFails then k
        else if fault == CacheBase.MetaWriteFails then Files(k.files[c.dataFilename := CacheFile.TableFile(d.value.rates)])
        else Files(k.files[c.dataFilename := CacheFile.TableFile(d.value.rates)]
                          [c.timestampsFilename := CacheFile.MetaFile(CacheFile.EncodeFileMeta(d.value))])
    }
  }

  /** `CurrencyCalculator`. The clock is the `now` parameter of each call,
      the feed the `session` parameter of `update`. */
  class CurrencyCalculator {
    const cache: CacheHandle
    var lastCacheCheck: Option<int>

    /** The snapshot a check at `now` leaves. */
    function CheckedData(now: int): Option<CacheBase.Snapshot>
      reads this, cache.Obj()
    {
      if Stale(lastCacheCheck, now) then cache.Loaded() else cache.Data()
    }

    /** A new calculator checks, hence loads, its cache; the check is not
        recorded, so the last check stays unset. */
    constructor(cache: CacheHandle, now: int)
      modifies cache.Obj()
      ensures this.cache == cache && lastCacheCheck == None
      ensures cache.Data() == old(cache.Loaded()) && cache.Kept() == old(cache.Kept())
    {
      this.cache := cache;
      lastCacheCheck := None;
      new;
      CheckCache(now);
    }

    /** `_load_cache`: a failing `load` is only logged. */
    method LoadCache()
      modifies cache.Obj()
      ensures cache.Data() == old(cache.Loaded()) && cache.Kept() == old(cache.Kept())
    {
      match cache
      case Plain(c) =>
        c.Load();
      case Stored(c) =>
        var ignored := c.Load();
      case File(c) =>
        var ignored := c.Load();
    }

    /** `_save_cache`: a failing `save` is only logged. */
    method SaveCache(fault: CacheBase.WriteFault)
      modifies cache.Obj()
      ensures cache.Data() == old(cache.Data()) && cache.Kept() == cache.SaveInto(old(cache.Kept()), cache.Data(), fault)
    {
      match cache
      case Plain(c) =>
        c.Save();
      case Stored(c) =>
        var ignored := c.Save(fault);
      case File(c) =>
        var ignored := c.Save(fault);
    }

    /** The `data` setter. */
    method SetData(d: Option<CacheBase.Snapshot>)
      modifies cache.Obj()
      ensures cache.Data() == d && cache.Kept() == old(cache.Kept())
    {
      match cache
      case Plain(c) =>
        c.data := d;
      case Stored(c) =>
        c.data := d;
      case File(c) =>
        c.data := d;
    }

    /** `_check_cache` as written: reloads when stale, and leaves the last
        check as it was. */
    method CheckCache(now: int)
      modifies cache.Obj()
      ensures lastCacheCheck == CheckAsWritten(old(lastCacheCheck), now).lastCheck
      ensures cache.Data() == old(CheckedData(now)) && cache.Kept() == old(cache.Kept())
    {
      if Stale(lastCacheCheck, now) {
        LoadCache();
      }
    }

    /** `update`: fetches the feed variant the snapshot's age calls for,
        with the stored validators, and applies the response; after new
        rates the cache is saved. */
    method Update(now: int, session: EcbDownload.Request -> EcbDownload.Response, fault: CacheBase.WriteFault)
      returns (sent: EcbDownload.Request, r: Result<bool, UpdateError>)
      modifies cache.Obj()
      ensures var t := Strategy(old(cache.Data()), now);
        sent.url == EcbDownload.Url(t)
        && EcbDownload.ConditionalHeaders(sent.headers, RequestValidators(old(cache.Data()), t))
      ensures match UpdateOutcome(old(cache.Data()), now, session(sent))
        case Err(e) => r == Err(e) && cache.Data() == old(cache.Data()) && cache.Kept() == old(cache.Kept())
        case Ok(u) =>
          r == Ok(u.changed) && cache.Data() == u.data
          && cache.Kept() == (if u.changed then cache.SaveInto(old(cache.Kept()), u.data, fault) else old(cache.Kept()))
    {
      var data := cache.Data();
      var t := Strategy(data, now);
      var fetched;
      sent, fetched := EcbDownload.GetData(t, RequestValidators(data, t), session);
      if fetched.Err? {
        return sent, Err(FetchFailed(fetched.error.status));
      }
      r := ApplyResponse(data, now, fetched.value.response, fault);
    }

    /** The part of `update` after a successful fetch. */
    method ApplyResponse(data: Option<CacheBase.Snapshot>, now: int, response: EcbDownload.Response,
                         fault: CacheBase.WriteFault)
      returns (r: Result<bool, UpdateError>)
      requires data == cache.Data() && response.status < 400
      modifies cache.Obj()
      ensures match UpdateOutcome(data, now, response)
        case Err(e) => r == Err(e) && cache.Data() == data && cache.Kept() == old(cache.Kept())
        case Ok(u) =>
          r == Ok(u.changed) && cache.Data() == u.data
          && cache.Kept() == (if u.changed then cache.SaveInto(old(cache.Kept()), u.data, fault) else old(cache.Kept()))
    {
      var t := Strategy(data, now);
      var validators := EcbDownload.ResponseValidators(response);
      if response.status == 304 {
        if data.Some? {
          SetData(Some(data.value.(lastTimestamps := data.value.lastTimestamps[t.Value() := validators])));
        }
        return Ok(false);
      }
      var outcome := EcbParser.ParseXml(response.body);
      if outcome.error.Some? {
        return Err(ParseFailed(outcome.error.value));
      }
      var parsed := GetParsedRatesDf(outcome.records);
      if parsed.Err? {
        return Err(TableFailed(parsed.error));
      }
      var updated;
      if t == Full {
        updated := CacheBase.Snapshot(parsed.value, now, map[]);
      } else {
        updated := CacheBase.Snapshot(
          MergeTables(data.value.rates, parsed.value), now, data.value.lastTimestamps[t.Value() := validators]);
      }
      SetData(Some(updated));
      SaveCache(fault);
      r := Ok(true);
    }

    /** `convert`: checks the cache, then converts one amount. The last check
        is never set, so every call reloads the stored snapshot. */
    method Convert(now: int, ct: ConversionType, currency: string, d: int, value: int, decimals: Option<int>)
      returns (r: Result<Option<real>, ConvertError>)
      modifies cache.Obj()
      ensures lastCacheCheck == CheckAsWritten(old(lastCacheCheck), now).lastCheck
      ensures cache.Data() == old(CheckedData(now)) && cache.Kept() == old(cache.Kept())
      ensures old(lastCacheCheck) == None ==> cache.Data() == old(cache.Loaded())
      ensures r == ConvertOn(cache.Data(), ct, currency, d, value, decimals)
    {
      CheckCache(now);
      r := ConvertOn(cache.Data(), ct, currency, d, value, decimals);
    }

    /** `convert_multiple`: checks the cache, then converts every pair; like
        `convert`, it reloads the stored snapshot on every call. */
    method ConvertMultiple(now: int, ct: ConversionType, currency: string, values: seq<(int, int)>,
                           keepOrder: bool, decimals: Option<int>)
      returns (r: Result<seq<(int, Option<real>)>, ConvertError>)
      modifies cache.Obj()
      ensures lastCacheCheck == CheckAsWritten(old(lastCacheCheck), now).lastCheck
      ensures cache.Data() == old(CheckedData(now)) && cache.Kept() == old(cache.Kept())
      ensures old(lastCacheCheck) == None ==> cache.Data() == old(cache.Loaded())
      ensures r == ConvertMultipleOn(cache.Data(), ct, currency, values, keepOrder, decimals)
    {
      CheckCache(now);
      r := ConvertMultipleOn(cache.Data(), ct, currency, values, keepOrder, decimals);
    }
  }
}
