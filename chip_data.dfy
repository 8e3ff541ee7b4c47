/** `get_pa_data_for_chip`: the official objective, the latest county value
    and the recent trend of one Prevention Agenda indicator. */
module ChipData {
  import opened Wrappers
  import opened Strings
  import opened Tables

  const NotAvailable: string := "Not available"

  datatype ChipContext = ChipContext(objective: string, latest: string, trend: Table)

  /** The rows of one priority area, focus area and indicator. */
  function IndicatorRows(t: Table, priority: Value, focus: Value, indicator: Value): (r: Table)
    ensures forall row :: row in r <==> (row in t && CellEq(row, "Priority Area", priority)
      && CellEq(row, "Focus Area", focus) && CellEq(row, "Indicator", indicator))
  {
    Filter(t, (row: Row) => CellEq(row, "Priority Area", priority) && CellEq(row, "Focus Area", focus)
      && CellEq(row, "Indicator", indicator))
  }

  function CountyRows(t: Table, county: Value): (r: Table)
    ensures forall row :: row in r <==> row in t && CellEq(row, "County Name", county)
  {
    Filter(t, (row: Row) => CellEq(row, "County Name", county))
  }

  function Year(r: Row): Value {
    Cell(r, "Data Years")
  }

  /** `pd.to_numeric(county_df['Data Years'], errors='coerce')`. */
  function CoerceYears(t: Table): (r: Table)
    ensures |r| == |t|
    ensures forall i :: 0 <= i < |t| ==> r[i] == SetCell(t[i], "Data Years", ToNumeric(Year(t[i])))
    decreases |t|
  {
    if t == [] then [] else [SetCell(t[0], "Data Years", ToNumeric(Year(t[0])))] + CoerceYears(t[1..])
  }

  /** `a` may precede `b` in a descending sort with missing values last. */
  predicate YearBefore(a: Value, b: Value) {
    match a
    case Num(x) => b.Missing? || (b.Num? && x >= b.n)
    case Missing => b.Missing?
    case Text(_) => true
  }

  predicate YearsDescending(t: Table) {
    forall i, j :: 0 <= i < j < |t| ==> YearBefore(Year(t[i]), Year(t[j]))
  }

  /** Years already coerced: numbers or missing. */
  predicate NumericYears(t: Table) {
    forall i :: 0 <= i < |t| ==> Year(t[i]).Num? || Year(t[i]).Missing?
  }

  function InsertByYear(s: Table, r: Row): (res: Table)
    requires YearsDescending(s) && NumericYears(s) && (Year(r).Num? || Year(r).Missing?)
    ensures YearsDescending(res) && NumericYears(res)
    ensures multiset(res) == multiset(s) + multiset{r}
    decreases |s|
  {
    if s == [] then [r]
    else if YearBefore(Year(r), Year(s[0])) then
      BeforeHeadBeforeAll(r, s);
      PrependDescending(r, s);
      [r] + s
    else
      DescendingTail(s);
      var tail := InsertByYear(s[1..], r);
      assert s == [s[0]] + s[1..];
      HeadBeforeInserted(s, r, tail);
      PrependDescending(s[0], tail);
      [s[0]] + tail
  }

  lemma DescendingTail(s: Table)
    requires s != [] && YearsDescending(s) && NumericYears(s)
    ensures YearsDescending(s[1..]) && NumericYears(s[1..])
  {
    var u := s[1..];
    assert forall i :: 0 <= i < |u| ==> u[i] == s[i + 1];
  }

  /** A row that may precede the head of a descending table may precede all of it. */
  lemma BeforeHeadBeforeAll(r: Row, s: Table)
    requires s != [] && YearsDescending(s) && NumericYears(s) && (Year(r).Num? || Year(r).Missing?)
    requires YearBefore(Year(r), Year(s[0]))
    ensures forall j :: 0 <= j < |s| ==> YearBefore(Year(r), Year(s[j]))
  {
    forall j | 0 <= j < |s| ensures YearBefore(Year(r), Year(s[j])) {
      if j > 0 { assert YearBefore(Year(s[0]), Year(s[j])); }
    }
  }

  /** Prepending a row that may precede every row keeps the table descending. */
  lemma PrependDescending(x: Row, t: Table)
    requires YearsDescending(t) && NumericYears(t) && (Year(x).Num? || Year(x).Missing?)
    requires forall j :: 0 <= j < |t| ==> YearBefore(Year(x), Year(t[j]))
    ensures YearsDescending([x] + t) && NumericYears([x] + t)
  {
    var u := [x] + t;
    assert forall j :: 1 <= j < |u| ==> u[j] == t[j - 1];
  }

  /** The head of a descending table may precede the rest with `r` inserted,
      when `r` itself comes after the head. */
  lemma HeadBeforeInserted(s: Table, r: Row, tail: Table)
    requires s != [] && YearsDescending(s) && NumericYears(s) && (Year(r).Num? || Year(r).Missing?)
    requires !YearBefore(Year(r), Year(s[0]))
    requires multiset(tail) == multiset(s[1..]) + multiset{r}
    ensures forall j :: 0 <= j < |tail| ==> YearBefore(Year(s[0]), Year(tail[j]))
  {
    forall j | 0 <= j < |tail| ensures YearBefore(Year(s[0]), Year(tail[j])) {
      assert tail[j] in multiset(tail);
      if tail[j] != r {
        assert tail[j] in multiset(s[1..]);
        var k :| 0 <= k < |s[1..]| && s[1..][k] == tail[j];
        assert YearBefore(Year(s[0]), Year(s[1 + k]));
      }
    }
  }

  /** `sort_values(by='Data Years', ascending=False)` on coerced years: a
      permutation, descending, missing years last. pandas' default sort is not
      stable, so the order among equal years is unspecified; this model puts
      later rows of an equal year first. */
  function SortByYearDesc(t: Table): (r: Table)
    requires NumericYears(t)
    ensures YearsDescending(r) && NumericYears(r)
    ensures multiset(r) == multiset(t)
    decreases |t|
  {
    if t == [] then []
    else
      assert t == t[..|t| - 1] + [t[|t| - 1]];
      InsertByYear(SortByYearDesc(t[..|t| - 1]), t[|t| - 1])
  }

  function Head(t: Table, n: nat): (r: Table)
    ensures |r| == if |t| < n then |t| else n
    ensures r == t[..|r|]
  {
    if |t| < n then t else t[..n]
  }

  lemma CoercedYearsNumeric(t: Table)
    ensures NumericYears(CoerceYears(t))
  {
  }

  /** `county_df.sort_values(by='Data Years', ascending=False).head(5)` after
      coercing the years: at most five of the county's rows, newest first,
      empty exactly when the county has none. */
  function Trend(countyRows: Table): (r: Table)
    ensures |r| <= 5 && YearsDescending(r) && NumericYears(r)
    ensures r == [] <==> countyRows == []
    ensures forall x :: x in r ==> exists i :: 0 <= i < |countyRows| && x == SetCell(countyRows[i], "Data Years", ToNumeric(Year(countyRows[i])))
  {
    var coerced := CoerceYears(countyRows);
    CoercedYearsNumeric(countyRows);
    var sorted := SortByYearDesc(coerced);
    HeadOfPermutation(sorted, coerced, 5);
    Head(sorted, 5)
  }

  /** The head of a permutation has the permutation's length bound and only
      its elements. */
  lemma HeadOfPermutation(sorted: Table, t: Table, n: nat)
    requires multiset(sorted) == multiset(t)
    ensures |sorted| == |t|
    ensures Head(sorted, n) == [] <==> (t == [] || n == 0)
    ensures forall x :: x in Head(sorted, n) ==> x in t
  {
    assert |multiset(sorted)| == |multiset(t)|;
    forall x | x in Head(sorted, n) ensures x in t {
      assert x in sorted;
      assert x in multiset(sorted);
    }
  }

  /** The first trend row has no numeric year only when none of the county's
      rows has one: missing years sort last. */
  lemma TrendFirstYear(countyRows: Table)
    requires countyRows != [] && Year(Trend(countyRows)[0]).Missing?
    ensures forall r :: r in countyRows ==> ToNumeric(Year(r)).Missing?
  {
    var coerced := CoerceYears(countyRows);
    CoercedYearsNumeric(countyRows);
    var sorted := SortByYearDesc(coerced);
    assert Trend(countyRows)[0] == sorted[0];
    forall r | r in countyRows ensures ToNumeric(Year(r)).Missing? {
      var i :| 0 <= i < |countyRows| && countyRows[i] == r;
      assert coerced[i] in multiset(sorted);
      var k :| 0 <= k < |sorted| && sorted[k] == coerced[i];
      if k > 0 { assert YearBefore(Year(sorted[0]), Year(sorted[k])); }
    }
  }

  /** Conversely, when some county row has a numeric year, the first trend
      row has one, and it is the newest year among the county's rows. */
  lemma TrendHeadNumeric(countyRows: Table)
    requires countyRows != [] && !Year(Trend(countyRows)[0]).Missing?
    ensures Year(Trend(countyRows)[0]).Num?
    ensures forall r :: r in countyRows && ToNumeric(Year(r)).Num? ==>
      ToNumeric(Year(r)).n <= Year(Trend(countyRows)[0]).n
  {
    var coerced := CoerceYears(countyRows);
    CoercedYearsNumeric(countyRows);
    var sorted := SortByYearDesc(coerced);
    assert Trend(countyRows)[0] == sorted[0];
    forall r | r in countyRows && ToNumeric(Year(r)).Num?
      ensures ToNumeric(Year(r)).n <= Year(Trend(countyRows)[0]).n
    {
      var i :| 0 <= i < |countyRows| && countyRows[i] == r;
      assert Year(coerced[i]) == ToNumeric(Year(r));
      assert coerced[i] in multiset(sorted);
      var k :| 0 <= k < |sorted| && sorted[k] == coerced[i];
      if k > 0 { assert YearBefore(Year(sorted[0]), Year(sorted[k])); }
    }
  }

  /** When every county row lacks a numeric year, so does the first trend
      row: `int()` then raises. */
  lemma TrendHeadMissing(countyRows: Table)
    requires countyRows != [] && forall r :: r in countyRows ==> ToNumeric(Year(r)).Missing?
    ensures Year(Trend(countyRows)[0]).Missing?
  {
    var top := Trend(countyRows)[0];
    assert top in Trend(countyRows);
    var i :| 0 <= i < |countyRows| && top == SetCell(countyRows[i], "Data Years", ToNumeric(Year(countyRows[i])));
    assert countyRows[i] in countyRows;
  }

  /** Returns the context, or the ValueError of `int()` on a missing year.
      The objective text comes from the first matching row; the latest text
      from the newest trend row. */
  function ChipData(t: Option<Table>, priority: Value, focus: Value, indicator: Value, county: Value): (res: Result<ChipContext>)
    ensures t.None? ==> res == Success(ChipContext(NotAvailable, NotAvailable, []))
    ensures t.Some? && IndicatorRows(t.value, priority, focus, indicator) == [] ==>
      res == Success(ChipContext(NotAvailable, NotAvailable, []))
    ensures res.Success? ==> |res.value.trend| <= 5 && YearsDescending(res.value.trend)
    ensures t.Some? ==>
      var cr := CountyRows(IndicatorRows(t.value, priority, focus, indicator), county);
      && (res.Success? ==> (res.value.trend == [] <==> cr == []))
      && (res.Failure? <==> cr != [] && forall r :: r in cr ==> ToNumeric(Year(r)).Missing?)
    ensures t.Some? && res.Success? && IndicatorRows(t.value, priority, focus, indicator) != [] ==>
      var first := IndicatorRows(t.value, priority, focus, indicator)[0];
      var objective := Cell(first, "2024 Objective");
      var measure := Cell(first, "Measure Unit");
      && (objective == Missing ==> res.value.objective == NotAvailable)
      && (objective != Missing ==> res.value.objective == Show(objective) + " " + Show(measure))
    ensures t.Some? && res.Success? ==>
      var rows := IndicatorRows(t.value, priority, focus, indicator);
      var cr := CountyRows(rows, county);
      && (cr == [] ==> res.value.latest == NotAvailable)
      && (cr != [] ==>
        var top := Trend(cr)[0];
        var value := Cell(top, "Percentage/Rate/Ratio");
        && Year(top).Num?
        && (value == Missing ==> res.value.latest == NotAvailable)
        && (value != Missing ==>
              res.value.latest == Show(value) + " " + Show(Cell(rows[0], "Measure Unit")) + " (" + IntToString(Year(top).n) + ")"))
  {
    if t.None? then Success(ChipContext(NotAvailable, NotAvailable, []))
    else
      var rows := IndicatorRows(t.value, priority, focus, indicator);
      if rows == [] then Success(ChipContext(NotAvailable, NotAvailable, []))
      else
        var objective := Cell(rows[0], "2024 Objective");
        var measure := Cell(rows[0], "Measure Unit");
        var objectiveText := if objective != Missing then Show(objective) + " " + Show(measure) else NotAvailable;
        var countyRows := CountyRows(rows, county);
        if countyRows == [] then Success(ChipContext(objectiveText, NotAvailable, []))
        else
          var trend := Trend(countyRows);
          var latest := trend[0];
          var value := Cell(latest, "Percentage/Rate/Ratio");
          if Year(latest).Missing? then
            TrendFirstYear(countyRows);
            Failure("ValueError: cannot convert float NaN to integer")
          else
            var latestText :=
              if value != Missing then Show(value) + " " + Show(measure) + " (" + IntToString(Year(latest).n) + ")"
              else NotAvailable;
            TrendHeadNumeric(countyRows);
            assert !(forall r :: r in countyRows ==> ToNumeric(Year(r)).Missing?) by {
              if forall r :: r in countyRows ==> ToNumeric(Year(r)).Missing? {
                TrendHeadMissing(countyRows);
              }
            }
            Success(ChipContext(objectiveText, latestText, trend))
  }

  /** The objective text is "Not available" when the first matching row has
      no objective, and otherwise the objective followed by the measure unit,
      which is never "Not available" when the objective is a number (the
      loader makes the column numeric). */
  lemma ChipObjective(t: Table, priority: Value, focus: Value, indicator: Value, county: Value)
    requires IndicatorRows(t, priority, focus, indicator) != []
    requires ChipData(Some(t), priority, focus, indicator, county).Success?
    ensures var first := IndicatorRows(t, priority, focus, indicator)[0];
      var o := Cell(first, "2024 Objective");
      var text := ChipData(Some(t), priority, focus, indicator, county).value.objective;
      && (o == Missing ==> text == NotAvailable)
      && (o != Missing ==> text == Show(o) + " " + Show(Cell(first, "Measure Unit")))
      && (o.Num? ==> text != NotAvailable)
  {
    var first := IndicatorRows(t, priority, focus, indicator)[0];
    var o := Cell(first, "2024 Objective");
    if o.Num? {
      var shown := Show(o) + " " + Show(Cell(first, "Measure Unit"));
      assert shown[0] == IntToString(o.n)[0];
      assert NatToString(if o.n < 0 then -o.n else o.n)[0] != 'N';
      assert NotAvailable[0] == 'N';
    }
  }

  /** Every trend row is one of the county's rows for the chosen indicator. */
  lemma ChipTrendRows(t: Table, priority: Value, focus: Value, indicator: Value, county: Value)
    requires ChipData(Some(t), priority, focus, indicator, county).Success?
    ensures forall r :: r in ChipData(Some(t), priority, focus, indicator, county).value.trend ==>
      (CellEq(r, "County Name", county) && CellEq(r, "Priority Area", priority)
        && CellEq(r, "Focus Area", focus) && CellEq(r, "Indicator", indicator))
  {
    var cr := CountyRows(IndicatorRows(t, priority, focus, indicator), county);
    ChipDataTrend(t, priority, focus, indicator, county);
    forall r | r in Trend(cr)
      ensures CellEq(r, "County Name", county) && CellEq(r, "Priority Area", priority)
        && CellEq(r, "Focus Area", focus) && CellEq(r, "Indicator", indicator)
    {
      var i :| 0 <= i < |cr| && r == SetCell(cr[i], "Data Years", ToNumeric(Year(cr[i])));
      assert cr[i] in cr;
    }
  }

  /** A successful context's trend is empty or the county's trend. */
  lemma ChipDataTrend(t: Table, priority: Value, focus: Value, indicator: Value, county: Value)
    requires ChipData(Some(t), priority, focus, indicator, county).Success?
    ensures var trend := ChipData(Some(t), priority, focus, indicator, county).value.trend;
      trend == [] || trend == Trend(CountyRows(IndicatorRows(t, priority, focus, indicator), county))
  {
  }
}
