/**
 * Matching a work zone to the pavement-inspection sheet and condensing the
 * matched rows into one record of performance indicators: the rows of the
 * zone's route whose milepost interval overlaps the zone (or, failing that,
 * the route row starting nearest the zone); the smallest non-zero value of
 * each indicator; the best evaluation grade; the total of each damage-area
 * column; and the first matched row's value for every other column.
 */
module SegmentMetrics {
  import opened Common

  /** A spreadsheet cell: a number, a text, or empty / NaN. */
  datatype Cell = Num(x: real) | Text(s: string) | Empty

  /** A sheet row: its cells by column name. */
  datatype Row = Row(cells: map<string, Cell>)

  /** The inspection sheet: its column names and its rows. */
  datatype Sheet = Sheet(columns: seq<string>, rows: seq<Row>)

  /** A value of the result record; `VNone` is NaN or `None`. */
  datatype Value = VNum(x: real) | VText(s: string) | VNone

  /** The result: the matched rows and the indicator record, the `KeyError`
      raised when a selected column does not exist, or the `TypeError` raised
      when a milepost column holding text is compared with a number. */
  datatype Outcome = Matched(file1: seq<Row>, file2: map<string, Value>) | KeyError | TypeError

  const ROUTE: string := "Route Number"
  const STARTING: string := "Starting Milepost"
  const ENDING: string := "Ending Milepost"
  const GRADE: string := "Evaluation Grade"
  const GRADE_NUMERIC: string := "Evaluation Grade Numeric"

  /** The indicators reduced to their smallest non-zero value. */
  const EVALUATION_COLUMNS: seq<string> :=
    ["Damage Rate (DR)", "PCI", "IRI", "RQI", "RD", "RDI", "WR", "PWI", "PB", "PBI", "PQI"]

  /** The damage areas reduced to their total. */
  const SUM_COLUMNS: seq<string> := [
    "Converted Damaged Area", "Total Damaged Area", "Minor Alligator Cracking", "Moderate Alligator Cracking",
    "Severe Alligator Cracking", "Minor Block Cracking", "Severe Block Cracking", "Minor Longitudinal Cracking",
    "Severe Longitudinal Cracking", "Minor Transverse Cracking", "Severe Transverse Cracking", "Minor Potholes",
    "Severe Potholes", "Minor Loose Material", "Severe Loose Material", "Minor Settlement", "Severe Settlement",
    "Minor Rutting", "Severe Rutting", "Minor Waviness/Bulging", "Severe Waviness/Bulging",
    "Seepage Oil", "Patch", "Block Patch", "Strip Patch"]

  function CellOf(r: Row, column: string): Cell
  {
    if column in r.cells then r.cells[column] else Empty
  }

  /** `pd.to_numeric(errors='coerce')`: a number stays, anything else is NaN. */
  function Numeric(c: Cell): Option<real>
  {
    if c.Num? then Some(c.x) else None
  }

  // ---------------------------------------------------------------------
  // Selecting the rows
  // ---------------------------------------------------------------------

  predicate OnRoute(r: Row, line: string)
  {
    CellOf(r, ROUTE) == Text(line)
  }

  /** The row filter: same route, ending at or after the zone's start and
      starting at or before its end; a NaN milepost fails the comparison.
      (A text milepost anywhere in the sheet makes the filter raise instead,
      see `FilterError`.) */
  predicate Overlaps(r: Row, line: string, startKp: real, endKp: real)
  {
    && OnRoute(r, line)
    && Numeric(CellOf(r, ENDING)).Some? && Numeric(CellOf(r, ENDING)).value >= startKp
    && Numeric(CellOf(r, STARTING)).Some? && Numeric(CellOf(r, STARTING)).value <= endKp
  }

  function Kept(rows: seq<Row>, line: string, startKp: real, endKp: real): (kept: seq<Row>)
    ensures forall r :: r in kept <==> r in rows && Overlaps(r, line, startKp, endKp)
    ensures kept == [] <==> forall i :: 0 <= i < |rows| ==> !Overlaps(rows[i], line, startKp, endKp)
    ensures |kept| <= |rows|
  {
    if rows == [] then []
    else
      var rest := Kept(rows[..|rows| - 1], line, startKp, endKp);
      var last := rows[|rows| - 1];
      assert forall r :: r in rows <==> r in rows[..|rows| - 1] || r == last;
      assert forall i :: 0 <= i < |rows| - 1 ==> rows[..|rows| - 1][i] == rows[i];
      rest + (if Overlaps(last, line, startKp, endKp) then [last] else [])
  }

  predicate HasStart(r: Row)
  {
    Numeric(CellOf(r, STARTING)).Some?
  }

  function StartDistance(r: Row, startKp: real): real
    requires HasStart(r)
  {
    var x := Numeric(CellOf(r, STARTING)).value;
    if x >= startKp then x - startKp else startKp - x
  }

  predicate Candidate(r: Row, line: string)
  {
    OnRoute(r, line) && HasStart(r)
  }

  /** `idxmin` of the start distance over the route's rows: the first row
      with the smallest distance; NaN starts are skipped. */
  function Nearest(rows: seq<Row>, line: string, startKp: real): (k: Option<nat>)
    ensures k.None? <==> forall i :: 0 <= i < |rows| ==> !Candidate(rows[i], line)
    ensures k.Some? ==> k.value < |rows| && Candidate(rows[k.value], line)
    ensures k.Some? ==> forall i :: 0 <= i < |rows| && Candidate(rows[i], line) ==>
              StartDistance(rows[k.value], startKp) <= StartDistance(rows[i], startKp)
    ensures k.Some? ==> forall i :: 0 <= i < k.value && Candidate(rows[i], line) ==>
              StartDistance(rows[k.value], startKp) < StartDistance(rows[i], startKp)
  {
    if rows == [] then None
    else
      var init := rows[..|rows| - 1];
      var last := rows[|rows| - 1];
      var b := Nearest(init, line, startKp);
      assert forall i :: 0 <= i < |init| ==> init[i] == rows[i];
      if Candidate(last, line) && (b.None? || StartDistance(last, startKp) < StartDistance(init[b.value], startKp))
      then Some(|rows| - 1)
      else b
  }

  /** The selected rows; `None` is the column-less `pd.DataFrame()` built
      when no row of the route can be used. */
  function Selected(rows: seq<Row>, line: string, startKp: real, endKp: real): (sel: Option<seq<Row>>)
    ensures sel.Some? ==> |sel.value| >= 1
    ensures sel.None? <==> Kept(rows, line, startKp, endKp) == [] && Nearest(rows, line, startKp).None?
  {
    var kept := Kept(rows, line, startKp, endKp);
    if kept != [] then Some(kept)
    else
      match Nearest(rows, line, startKp)
      case Some(k) => Some([rows[k]])
      case None => None
  }

  // ---------------------------------------------------------------------
  // Aggregations
  // ---------------------------------------------------------------------

  predicate NonZeroAt(rows: seq<Row>, i: int, column: string)
    requires 0 <= i < |rows|
  {
    Numeric(CellOf(rows[i], column)).Some? && Numeric(CellOf(rows[i], column)).value != 0.0
  }

  /** `replace(0, NaN).min()`: the smallest non-zero number of a column. */
  function MinIgnoringZero(rows: seq<Row>, column: string): (m: Option<real>)
    ensures m.None? <==> forall i :: 0 <= i < |rows| ==> !NonZeroAt(rows, i, column)
    ensures m.Some? ==> m.value != 0.0 && exists i :: 0 <= i < |rows| && NonZeroAt(rows, i, column)
                                                     && Numeric(CellOf(rows[i], column)).value == m.value
    ensures m.Some? ==> forall i :: 0 <= i < |rows| && NonZeroAt(rows, i, column) ==>
                          m.value <= Numeric(CellOf(rows[i], column)).value
  {
    if rows == [] then None
    else
      var init := rows[..|rows| - 1];
      var rest := MinIgnoringZero(init, column);
      assert forall i :: 0 <= i < |init| ==> init[i] == rows[i] && (NonZeroAt(init, i, column) <==> NonZeroAt(rows, i, column));
      if NonZeroAt(rows, |rows| - 1, column) then
        var x := Numeric(CellOf(rows[|rows| - 1], column)).value;
        if rest.None? || x < rest.value then Some(x) else rest
      else rest
  }

  /** `grade_mapping`: Excellent 1, Good 2, Average 3, Poor 4. */
  function GradeRank(c: Cell): Option<nat>
  {
    if c == Text("Excellent") then Some(1)
    else if c == Text("Good") then Some(2)
    else if c == Text("Average") then Some(3)
    else if c == Text("Poor") then Some(4)
    else None
  }

  /** The rank of the grade in row `i`. */
  function Graded(rows: seq<Row>, i: int): Option<nat>
    requires 0 <= i < |rows|
  {
    GradeRank(CellOf(rows[i], GRADE))
  }

  /** The smallest grade rank among the rows, `None` if no row has one. */
  function BestRank(rows: seq<Row>): Option<nat>
  {
    if rows == [] then None
    else
      var rest := BestRank(rows[..|rows| - 1]);
      var g := Graded(rows, |rows| - 1);
      if g.Some? && (rest.None? || g.value < rest.value) then g else rest
  }

  /** The best rank is a rank some row holds and no row holds a better one. */
  lemma {:induction false} BestRankIsMinimum(rows: seq<Row>)
    ensures BestRank(rows).None? <==> forall i :: 0 <= i < |rows| ==> Graded(rows, i).None?
    ensures BestRank(rows).Some? ==> exists i :: 0 <= i < |rows| && Graded(rows, i) == BestRank(rows)
    ensures BestRank(rows).Some? ==> forall i :: 0 <= i < |rows| && Graded(rows, i).Some? ==>
                                       BestRank(rows).value <= Graded(rows, i).value
  {
    if rows != [] {
      var init := rows[..|rows| - 1];
      BestRankIsMinimum(init);
      assert forall i :: 0 <= i < |init| ==> Graded(init, i) == Graded(rows, i);
    }
  }

  /** The grade text of the first row holding the best rank. */
  function FirstWithRank(rows: seq<Row>, k: nat): (s: string)
    requires exists i :: 0 <= i < |rows| && Graded(rows, i) == Some(k)
    ensures GradeRank(Text(s)) == Some(k)
  {
    if Graded(rows, 0) == Some(k) then CellOf(rows[0], GRADE).s
    else
      assert forall i :: 1 <= i < |rows| ==> Graded(rows[1..], i - 1) == Graded(rows, i);
      FirstWithRank(rows[1..], k)
  }

  /** `min_grade_str`: the best grade present, `None` when no row has one of
      the four grades. */
  function BestGrade(rows: seq<Row>): (g: Option<string>)
    ensures g.None? <==> forall i :: 0 <= i < |rows| ==> Graded(rows, i).None?
    ensures g.Some? ==> exists i :: 0 <= i < |rows| && CellOf(rows[i], GRADE) == Text(g.value)
    ensures g.Some? ==> GradeRank(Text(g.value)).Some?
    ensures g.Some? ==> forall i :: 0 <= i < |rows| && Graded(rows, i).Some? ==>
                          GradeRank(Text(g.value)).value <= Graded(rows, i).value
  {
    BestRankIsMinimum(rows);
    match BestRank(rows)
    case None => None
    case Some(k) =>
      var s := FirstWithRank(rows, k);
      GradeNamesUnique(s, k, rows);
      Some(s)
  }

  lemma GradeNamesUnique(s: string, k: nat, rows: seq<Row>)
    requires GradeRank(Text(s)) == Some(k)
    requires exists i :: 0 <= i < |rows| && Graded(rows, i) == Some(k)
    ensures exists i :: 0 <= i < |rows| && CellOf(rows[i], GRADE) == Text(s)
  {
    var i :| 0 <= i < |rows| && Graded(rows, i) == Some(k);
    assert CellOf(rows[i], GRADE) == Text(s);
  }

  /** `sum()` of a column: numbers added, NaN skipped, 0 when none. */
  function SumColumn(rows: seq<Row>, column: string): real
  {
    if rows == [] then 0.0
    else
      var last := Numeric(CellOf(rows[|rows| - 1], column));
      SumColumn(rows[..|rows| - 1], column) + (if last.Some? then last.value else 0.0)
  }

  /** Column totals split over any cut of the rows. */
  lemma {:induction false} SumColumnAppend(a: seq<Row>, b: seq<Row>, column: string)
    ensures SumColumn(a + b, column) == SumColumn(a, column) + SumColumn(b, column)
  {
    if b == [] {
      assert a + b == a;
    } else {
      assert (a + b)[..|a + b| - 1] == a + b[..|b| - 1];
      SumColumnAppend(a, b[..|b| - 1], column);
    }
  }

  // ---------------------------------------------------------------------
  // The result record
  // ---------------------------------------------------------------------

  predicate IsOther(c: string)
  {
    c !in EVALUATION_COLUMNS && c !in SUM_COLUMNS && c != GRADE && c != GRADE_NUMERIC
  }

  function ToValue(c: Cell): Value
  {
    match c
    case Num(x) => VNum(x)
    case Text(s) => VText(s)
    case Empty => VNone
  }

  /** The value the record holds for one indicator. */
  function IndicatorValue(rows: seq<Row>, c: string): Value
  {
    if c in SUM_COLUMNS then VNum(SumColumn(rows, c))
    else if c in EVALUATION_COLUMNS then
      (match MinIgnoringZero(rows, c) case Some(m) => VNum(m) case None => VNone)
    else if c == GRADE then
      (match BestGrade(rows) case Some(g) => VText(g) case None => VNone)
    else if rows == [] then VNone
    else ToValue(CellOf(rows[0], c))
  }

  /** The indicators of the record: the evaluation columns, the grade, the
      sum columns and every other column of the sheet. */
  predicate IsIndicator(columns: seq<string>, c: string)
  {
    c in EVALUATION_COLUMNS || c == GRADE || c in SUM_COLUMNS || (c in columns && IsOther(c))
  }

  function File2(columns: seq<string>, rows: seq<Row>): (record: map<string, Value>)
    ensures forall c :: c in record <==> IsIndicator(columns, c)
  {
    map c | c in (set x | x in EVALUATION_COLUMNS + [GRADE] + SUM_COLUMNS + columns && IsIndicator(columns, x))
      :: IndicatorValue(rows, c)
  }

  /** Every column the row filter and the aggregation select exists in the
      sheet. */
  predicate ColumnsPresent(columns: seq<string>)
  {
    && ROUTE in columns && ENDING in columns && STARTING in columns
    && (forall c :: c in EVALUATION_COLUMNS ==> c in columns) && (forall c :: c in SUM_COLUMNS ==> c in columns)
    && GRADE in columns
  }

  // ---------------------------------------------------------------------
  // The rows File 1 holds
  // ---------------------------------------------------------------------

  /** `pd.to_numeric(errors='coerce')` on a cell: a number stays, anything
      else becomes NaN. */
  function CoercedCell(c: Cell): (d: Cell)
    ensures Numeric(d) == Numeric(c)
    ensures d.Num? || d.Empty?
  {
    if c.Num? then c else Empty
  }

  /** The rank of a grade as a cell: 1 to 4, NaN for any other text. */
  function RankCell(c: Cell): (d: Cell)
    ensures GradeRank(c).Some? ==> d == Num(GradeRank(c).value as real)
    ensures GradeRank(c).None? ==> d == Empty
  {
    match GradeRank(c)
    case Some(k) => Num(k as real)
    case None => Empty
  }

  /** A matched row as File 1 holds it: the evaluation and sum columns
      coerced to numbers, and the grade's rank added as
      `Evaluation Grade Numeric`; every other cell as read. */
  function Prepared(r: Row): (p: Row)
    ensures CellOf(p, GRADE_NUMERIC) == RankCell(CellOf(r, GRADE))
    ensures forall c :: c != GRADE_NUMERIC && (c in EVALUATION_COLUMNS || c in SUM_COLUMNS) ==>
              CellOf(p, c) == CoercedCell(CellOf(r, c))
    ensures forall c :: c != GRADE_NUMERIC && c !in EVALUATION_COLUMNS && c !in SUM_COLUMNS ==>
              CellOf(p, c) == CellOf(r, c)
  {
    var coerced := map c | c in r.cells ::
      if c in EVALUATION_COLUMNS || c in SUM_COLUMNS then CoercedCell(r.cells[c]) else r.cells[c];
    Row(coerced[GRADE_NUMERIC := RankCell(CellOf(r, GRADE))])
  }

  /** No evaluation or sum column name starts with an `E`. */
  lemma NoColumnStartsWithE(c: string)
    requires c in EVALUATION_COLUMNS || c in SUM_COLUMNS
    ensures |c| > 0 && c[0] != 'E'
  {
    if c in EVALUATION_COLUMNS {
      var i :| 0 <= i < |EVALUATION_COLUMNS| && EVALUATION_COLUMNS[i] == c;
    } else {
      var i :| 0 <= i < |SUM_COLUMNS| && SUM_COLUMNS[i] == c;
    }
  }

  /** The grade column and the added one are neither evaluation nor sum
      columns. */
  lemma GradeColumnsApart()
    ensures GRADE_NUMERIC !in EVALUATION_COLUMNS && GRADE_NUMERIC !in SUM_COLUMNS
    ensures GRADE !in EVALUATION_COLUMNS && GRADE !in SUM_COLUMNS && GRADE != GRADE_NUMERIC
  {
    if GRADE_NUMERIC in EVALUATION_COLUMNS || GRADE_NUMERIC in SUM_COLUMNS {
      NoColumnStartsWithE(GRADE_NUMERIC);
    }
    if GRADE in EVALUATION_COLUMNS || GRADE in SUM_COLUMNS {
      NoColumnStartsWithE(GRADE);
    }
    assert |GRADE| != |GRADE_NUMERIC|;
  }

  /** `filtered_data` after the coercion and the added column. */
  function PreparedRows(rows: seq<Row>): (file1: seq<Row>)
    ensures |file1| == |rows|
    ensures forall i :: 0 <= i < |rows| ==> file1[i] == Prepared(rows[i])
  {
    seq(|rows|, i requires 0 <= i < |rows| => Prepared(rows[i]))
  }

  /** Whether some row holds a text in `column`. */
  predicate HasText(rows: seq<Row>, column: string)
  {
    exists i :: 0 <= i < |rows| && CellOf(rows[i], column).Text?
  }

  /** The error the row filter raises, if any. The three comparisons are
      evaluated left to right over every row of the sheet: a missing column
      is a `KeyError`, and comparing a column that holds a text with a number
      is a `TypeError` (only NaN compares as false). */
  function FilterError(sheet: Sheet): (e: Option<Outcome>)
    ensures e.None? <==> ROUTE in sheet.columns && ENDING in sheet.columns && STARTING in sheet.columns
                         && !HasText(sheet.rows, ENDING) && !HasText(sheet.rows, STARTING)
    ensures e == Some(TypeError) <==>
              && ROUTE in sheet.columns && ENDING in sheet.columns
              && (HasText(sheet.rows, ENDING) || (STARTING in sheet.columns && HasText(sheet.rows, STARTING)))
    ensures e.Some? ==> e.value.KeyError? || e.value.TypeError?
  {
    if ROUTE !in sheet.columns || ENDING !in sheet.columns then Some(KeyError)
    else if HasText(sheet.rows, ENDING) then Some(TypeError)
    else if STARTING !in sheet.columns then Some(KeyError)
    else if HasText(sheet.rows, STARTING) then Some(TypeError)
    else None
  }

  /** A sheet the matching can read: every selected column is there and no
      milepost is a text. */
  predicate Readable(sheet: Sheet)
  {
    ColumnsPresent(sheet.columns) && !HasText(sheet.rows, ENDING) && !HasText(sheet.rows, STARTING)
  }

  /** `MatchSegmentsAndPerformanceMetrics` as written: a route with no usable
      row gives the column-less frame, whose column selection fails. */
  function MatchAsWritten(sheet: Sheet, line: string, startKp: real, endKp: real): (out: Outcome)
    ensures out.Matched? <==> Readable(sheet) && Selected(sheet.rows, line, startKp, endKp).Some?
    ensures out.TypeError? <==> FilterError(sheet) == Some(TypeError)
    ensures !HasText(sheet.rows, ENDING) && !HasText(sheet.rows, STARTING) ==>
              (out.KeyError? <==> !ColumnsPresent(sheet.columns) || Selected(sheet.rows, line, startKp, endKp).None?)
  {
    match FilterError(sheet)
    case Some(e) => e
    case None =>
      match Selected(sheet.rows, line, startKp, endKp)
      case None => KeyError
      case Some(rows) =>
        if ColumnsPresent(sheet.columns) then
          var file1 := PreparedRows(rows);
          Matched(file1, File2(sheet.columns, file1))
        else KeyError
  }

  /** The evidently intended behaviour: a route with no usable row gives an
      empty match, an empty frame that keeps the sheet's columns. */
  function Match(sheet: Sheet, line: string, startKp: real, endKp: real): (out: Outcome)
    ensures out.Matched? <==> Readable(sheet)
    ensures out.TypeError? <==> FilterError(sheet) == Some(TypeError)
    ensures !HasText(sheet.rows, ENDING) && !HasText(sheet.rows, STARTING) ==>
              (out.KeyError? <==> !ColumnsPresent(sheet.columns))
  {
    if FilterError(sheet).Some? then FilterError(sheet).value
    else if !ColumnsPresent(sheet.columns) then KeyError
    else
      var rows := match Selected(sheet.rows, line, startKp, endKp) case Some(rs) => rs case None => [];
      var file1 := PreparedRows(rows);
      Matched(file1, File2(sheet.columns, file1))
  }

  /** A route with no row in the sheet makes the code as written fail even
      on a sheet with every column. */
  lemma AbsentRouteFails(sheet: Sheet, line: string, startKp: real, endKp: real)
    requires Readable(sheet)
    requires forall i :: 0 <= i < |sheet.rows| ==> !OnRoute(sheet.rows[i], line)
    ensures MatchAsWritten(sheet, line, startKp, endKp) == KeyError
    ensures Match(sheet, line, startKp, endKp).Matched?
  {
  }

  /** A concrete sheet on which the code as written fails. */
  lemma AbsentRouteExample()
    ensures MatchAsWritten(Sheet([ROUTE, STARTING, ENDING] + EVALUATION_COLUMNS + [GRADE] + SUM_COLUMNS, []),
                           "G206", 0.0, 1.0) == KeyError
  {
  }

  /** The coercion and the added column leave every aggregate as it was on
      the rows as read. */
  lemma {:induction false} PreparedKeepsAggregates(rows: seq<Row>, c: string)
    requires c != GRADE_NUMERIC
    ensures SumColumn(PreparedRows(rows), c) == SumColumn(rows, c)
    ensures MinIgnoringZero(PreparedRows(rows), c) == MinIgnoringZero(rows, c)
    ensures BestRank(PreparedRows(rows)) == BestRank(rows)
  {
    if rows != [] {
      var init := rows[..|rows| - 1];
      var last := rows[|rows| - 1];
      PreparedKeepsAggregates(init, c);
      assert PreparedRows(rows)[..|rows| - 1] == PreparedRows(init);
      GradeColumnsApart();
      assert Graded(PreparedRows(rows), |rows| - 1) == Graded(rows, |rows| - 1);
    }
  }

  /** What the intended behaviour promises about the rows: the overlapping
      rows of the route when there are any, else the nearest route row,
      else none; each as `Prepared` makes it. */
  lemma MatchRows(sheet: Sheet, line: string, startKp: real, endKp: real)
    requires Readable(sheet)
    ensures Match(sheet, line, startKp, endKp).Matched?
    ensures var rows := Match(sheet, line, startKp, endKp).file1;
            var kept := Kept(sheet.rows, line, startKp, endKp);
            var near := Nearest(sheet.rows, line, startKp);
      && (kept != [] ==> rows == PreparedRows(kept))
      && (kept == [] && near.Some? ==> rows == [Prepared(sheet.rows[near.value])])
      && (kept == [] && near.None? ==> rows == [])
  {
  }

  /** The record holds every indicator of the sheet, each with its
      aggregate over the matched rows. */
  lemma MatchRecord(sheet: Sheet, line: string, startKp: real, endKp: real)
    requires Readable(sheet)
    ensures var out := Match(sheet, line, startKp, endKp);
      && out.Matched?
      && (forall c :: c in out.file2 <==> IsIndicator(sheet.columns, c))
      && (forall c :: c in out.file2 ==> out.file2[c] == IndicatorValue(out.file1, c))
  {
  }

  /** A text milepost on a row of another route still makes both versions
      fail: the filter compares the whole column. */
  lemma TextMilepostExample()
    ensures var sheet := Sheet([ROUTE, STARTING, ENDING] + EVALUATION_COLUMNS + [GRADE] + SUM_COLUMNS,
                               [Row(map[ROUTE := Text("G206"), STARTING := Num(0.5), ENDING := Num(2.0)]),
                                Row(map[ROUTE := Text("G105"), STARTING := Text("K12"), ENDING := Num(3.0)])]);
      MatchAsWritten(sheet, "G206", 0.0, 1.0) == TypeError && Match(sheet, "G206", 0.0, 1.0) == TypeError
  {
  }

  /** The empty match has no indicator value and zero totals. */
  lemma EmptyMatchRecord(columns: seq<string>, c: string)
    requires IsIndicator(columns, c)
    ensures File2(columns, [])[c] == (if c in SUM_COLUMNS then VNum(0.0) else VNone)
  {
    var record := File2(columns, []);
    assert c in record;
    assert record[c] == IndicatorValue([], c);
    if c !in SUM_COLUMNS && c in EVALUATION_COLUMNS {
      assert MinIgnoringZero([], c).None?;
    } else if c !in SUM_COLUMNS && c == GRADE {
      assert BestGrade([]).None?;
    }
  }
}
