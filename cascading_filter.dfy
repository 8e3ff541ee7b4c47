/** The configuration-driven dashboard engine (`render_dashboard`): an
    ordered list of filter steps narrows a table step by step, each step
    offering the values left by the selections before it, and the final
    table keeps the rows that pass every step. */
module CascadingFilter {
  import opened Wrappers
  import opened Strings
  import opened Tables

  /** The `"default"` of a multiselect step: a list of values, or the word "all". */
  datatype Default = AllOptions | Listed(values: seq<Value>)

  /** The widget a step shows: a selectbox, or a multiselect with its default
      (`[]` when the step has none). */
  datatype Widget = SelectBox | MultiSelect(default: Default)

  datatype FilterStep = FilterStep(caption: string, col: string, widget: Widget)

  /** The dashed objective line drawn over the chart, in the dashboards that have one. */
  datatype ObjectiveLine = ObjectiveLine(col: string, caption: string, color: string)

  datatype Config = Config(
    title: string,
    filters: seq<FilterStep>,
    indicatorLabel: string,
    countyCol: string,
    yearCol: string,
    valueCol: string,
    yAxisLabel: string,
    sourceCol: string,
    notesCol: string,
    objective: Option<ObjectiveLine>)

  /** What a widget returns: a selectbox one value, or None when it offers
      nothing; a multiselect a list. */
  datatype Selection = One(value: Value) | NoneSelected | Many(values: seq<Value>)

  /** What the user did with one widget. A selectbox can only be set to an
      offered value and a multiselect only holds offered values, so a pick
      naming anything else leaves the widget at what it shows by default. */
  datatype Pick = Untouched | PickOne(value: Value) | PickMany(values: seq<Value>)

  /** The `filters` dict: selections keyed by step label. */
  type Filters = map<string, Selection>

  /** The lookup `filters[config['indicator_label']]` is defined. */
  predicate IndicatorIsStep(cfg: Config) {
    exists j :: 0 <= j < |cfg.filters| && cfg.filters[j].caption == cfg.indicatorLabel
  }

  predicate DistinctLabels(steps: seq<FilterStep>) {
    forall i, j :: 0 <= i < j < |steps| ==> steps[i].caption != steps[j].caption
  }

  /** `not selected_val`: None, an empty list, or a falsy single value. */
  predicate IsEmpty(sel: Selection) {
    match sel
    case NoneSelected => true
    case Many(vs) => vs == []
    case One(v) => !Truthy(v)
  }

  /** A step's row predicate: `isin` for a list, `==` otherwise (`== None` holds for no row). */
  predicate Matches(r: Row, col: string, sel: Selection) {
    match sel
    case One(v) => CellEq(r, col, v)
    case NoneSelected => false
    case Many(vs) => Cell(r, col) in vs
  }

  function Where(t: Table, col: string, sel: Selection): (r: Table)
    ensures forall row :: row in r <==> row in t && Matches(row, col, sel)
  {
    Filter(t, (row: Row) => Matches(row, col, sel))
  }

  /** `[d for d in default if d in options]`. */
  function KeepOffered(vs: seq<Value>, options: seq<Value>): (r: seq<Value>)
    ensures forall v :: v in r <==> v in vs && v in options
  {
    Filter(vs, (v: Value) => v in options)
  }

  /** Restricting a default keeps its order: it distributes over concatenation. */
  lemma KeepOfferedOrder(a: seq<Value>, b: seq<Value>, options: seq<Value>)
    ensures KeepOffered(a + b, options) == KeepOffered(a, options) + KeepOffered(b, options)
  {
    FilterAppend(a, b, (v: Value) => v in options);
  }

  /** The default selection of a multiselect: "all" is every option, a list
      loses the members that are not offered. */
  function DefaultSelection(d: Default, options: seq<Value>): (r: seq<Value>)
    ensures forall v :: v in r ==> v in options
    ensures d.AllOptions? ==> r == options
    ensures d.Listed? ==> forall v :: v in r <==> v in d.values && v in options
  {
    match d
    case AllOptions => options
    case Listed(vs) => KeepOffered(vs, options)
  }

  /** The value a widget returns for the options it offers and what the user did with it. */
  function Resolve(w: Widget, options: seq<Value>, pick: Pick): (sel: Selection)
    ensures w.SelectBox? ==> (sel.One? || sel.NoneSelected?) && (sel.NoneSelected? <==> options == [])
    ensures w.SelectBox? && sel.One? ==> sel.value in options
    ensures w.SelectBox? && pick.PickOne? && pick.value in options ==> sel == One(pick.value)
    ensures w.MultiSelect? ==> sel.Many? && forall v :: v in sel.values ==> v in options
    ensures w.MultiSelect? && !pick.PickMany? ==> sel == Many(DefaultSelection(w.default, options))
  {
    match w
    case SelectBox =>
      if pick.PickOne? && pick.value in options then One(pick.value)
      else if options == [] then NoneSelected
      else One(options[0])
    case MultiSelect(d) =>
      if pick.PickMany? then Many(KeepOffered(pick.values, options))
      else Many(DefaultSelection(d, options))
  }

  // ---------------------------------------------------------------------
  // The option universes (the first loop of render_dashboard)

  predicate Labelled(steps: seq<FilterStep>, f: Filters, i: nat)
    requires i <= |steps|
  {
    forall j :: 0 <= j < i ==> steps[j].caption in f
  }

  /** `temp_df` after the inner loop has applied steps 0..i-1 in order. */
  function Narrowed(t: Table, steps: seq<FilterStep>, f: Filters, i: nat): Table
    requires i <= |steps| && Labelled(steps, f, i)
    decreases i
  {
    if i == 0 then t
    else Where(Narrowed(t, steps, f, i - 1), steps[i - 1].col, f[steps[i - 1].caption])
  }

  /** A row passes the selections of steps 0..i-1. */
  predicate PassesFirst(r: Row, steps: seq<FilterStep>, f: Filters, i: nat)
    requires i <= |steps| && Labelled(steps, f, i)
  {
    forall j :: 0 <= j < i ==> Matches(r, steps[j].col, f[steps[j].caption])
  }

  /** Narrowing step by step is the row-wise conjunction of the step predicates,
      with the rows kept in their original order. */
  lemma {:induction false} NarrowedIsConjunction(t: Table, steps: seq<FilterStep>, f: Filters, i: nat)
    requires i <= |steps| && Labelled(steps, f, i)
    ensures Narrowed(t, steps, f, i) == Filter(t, (r: Row) => PassesFirst(r, steps, f, i))
    decreases i
  {
    if i == 0 {
      FilterExt(t, (r: Row) => true, (r: Row) => PassesFirst(r, steps, f, 0));
      FilterAll(t);
    } else {
      NarrowedIsConjunction(t, steps, f, i - 1);
      var step := steps[i - 1];
      FilterCompose(t, (r: Row) => PassesFirst(r, steps, f, i - 1),
        (r: Row) => Matches(r, step.col, f[step.caption]),
        (r: Row) => PassesFirst(r, steps, f, i));
    }
  }

  lemma {:induction false} FilterAll(t: Table)
    ensures Filter(t, (r: Row) => true) == t
    decreases |t|
  {
    if t != [] { FilterAll(t[1..]); }
  }

  /** The options step i offers, computed from the selections made so far. */
  function StepOptions(cfg: Config, t: Table, f: Filters, i: nat): seq<Value>
    requires i < |cfg.filters| && Labelled(cfg.filters, f, i)
  {
    var step := cfg.filters[i];
    SortedOptions(Narrowed(t, cfg.filters, f, i), step.col, step.col == cfg.yearCol)
  }

  /** The dict built by storing each value under its step's label, in step order. */
  function Store(steps: seq<FilterStep>, vals: seq<Selection>): (f: Filters)
    requires |vals| == |steps|
    ensures forall k :: 0 <= k < |steps| ==> steps[k].caption in f
    decreases |steps|
  {
    if steps == [] then map[]
    else Store(steps[..|steps| - 1], vals[..|vals| - 1])[steps[|steps| - 1].caption := vals[|vals| - 1]]
  }

  /** The value stored under a label is the last one stored under it. */
  lemma {:induction false} StoreLast(steps: seq<FilterStep>, vals: seq<Selection>, j: nat)
    requires |vals| == |steps| && j < |steps|
    requires forall k :: j < k < |steps| ==> steps[k].caption != steps[j].caption
    ensures Store(steps, vals)[steps[j].caption] == vals[j]
    decreases |steps|
  {
    var n := |steps| - 1;
    if j < n {
      StoreLast(steps[..n], vals[..n], j);
      assert steps[..n][j] == steps[j];
    }
  }

  /** The widget values of steps 0..i-1, in order. */
  function Selections(cfg: Config, t: Table, picks: seq<Pick>, i: nat): (sels: seq<Selection>)
    requires i <= |cfg.filters| && |picks| == |cfg.filters|
    ensures |sels| == i
    ensures forall k :: 0 <= k < i ==> sels[k] == SelectionAt(cfg, t, picks, k)
    decreases i, 0
  {
    if i == 0 then [] else Selections(cfg, t, picks, i - 1) + [SelectionAt(cfg, t, picks, i - 1)]
  }

  /** The `filters` dict once the first i steps have drawn their widgets. */
  function FiltersAfter(cfg: Config, t: Table, picks: seq<Pick>, i: nat): (f: Filters)
    requires i <= |cfg.filters| && |picks| == |cfg.filters|
    ensures Labelled(cfg.filters, f, i)
    decreases i, 1
  {
    var f := Store(cfg.filters[..i], Selections(cfg, t, picks, i));
    assert forall k :: 0 <= k < i ==> cfg.filters[..i][k] == cfg.filters[k];
    f
  }

  /** One more step stores its widget's value under its label. */
  lemma FiltersAfterStep(cfg: Config, t: Table, picks: seq<Pick>, i: nat)
    requires i < |cfg.filters| && |picks| == |cfg.filters|
    ensures FiltersAfter(cfg, t, picks, i + 1)
      == FiltersAfter(cfg, t, picks, i)[cfg.filters[i].caption := SelectionAt(cfg, t, picks, i)]
  {
    var steps := cfg.filters[..i + 1];
    var sels := Selections(cfg, t, picks, i + 1);
    assert steps[..i] == cfg.filters[..i];
    assert sels[..i] == Selections(cfg, t, picks, i);
  }

  /** What step i's widget returned. */
  function SelectionAt(cfg: Config, t: Table, picks: seq<Pick>, i: nat): Selection
    requires i < |cfg.filters| && |picks| == |cfg.filters|
    decreases i, 2
  {
    var f := FiltersAfter(cfg, t, picks, i);
    Resolve(cfg.filters[i].widget, StepOptions(cfg, t, f, i), picks[i])
  }

  /** Step i offers exactly the distinct non-missing values of its column among
      the rows that pass every earlier selection, strictly ascending, or strictly
      descending for the year column. */
  lemma OptionUniverse(cfg: Config, t: Table, picks: seq<Pick>, i: nat)
    requires i < |cfg.filters| && |picks| == |cfg.filters|
    ensures var f := FiltersAfter(cfg, t, picks, i);
      var opts := StepOptions(cfg, t, f, i);
      var col := cfg.filters[i].col;
      && (col == cfg.yearCol ==> StrictlyDescending(opts))
      && (col != cfg.yearCol ==> StrictlyAscending(opts))
      && forall v :: v in opts <==>
           v != Missing && exists r :: r in t && PassesFirst(r, cfg.filters, f, i) && Cell(r, col) == v
  {
    var f := FiltersAfter(cfg, t, picks, i);
    NarrowedIsConjunction(t, cfg.filters, f, i);
  }

  /** With distinct labels, the selection stored under a step's label is the one
      its widget returned, whatever later steps do. */
  lemma StoredSelection(cfg: Config, t: Table, picks: seq<Pick>, i: nat, j: nat)
    requires i <= |cfg.filters| && |picks| == |cfg.filters| && DistinctLabels(cfg.filters)
    requires j < i
    ensures FiltersAfter(cfg, t, picks, i)[cfg.filters[j].caption] == SelectionAt(cfg, t, picks, j)
  {
    var steps := cfg.filters[..i];
    assert forall k :: j < k < i ==> steps[k] == cfg.filters[k];
    StoreLast(steps, Selections(cfg, t, picks, i), j);
  }

  // ---------------------------------------------------------------------
  // The final filtering (the second loop of render_dashboard)

  datatype Outcome = Stop(caption: string) | Rows(table: Table)

  /** The second loop from a given step on: the first empty selection stops it. */
  function ApplyAll(steps: seq<FilterStep>, f: Filters, t: Table): Outcome
    requires Labelled(steps, f, |steps|)
    decreases |steps|
  {
    if steps == [] then Rows(t)
    else
      var sel := f[steps[0].caption];
      if IsEmpty(sel) then Stop(steps[0].caption)
      else ApplyAll(steps[1..], f, Where(t, steps[0].col, sel))
  }

  /** The loop stops exactly when some selection is empty, and then at the first
      one; otherwise it keeps, in order, the rows that pass every step. */
  lemma {:induction false} ApplyAllSpec(steps: seq<FilterStep>, f: Filters, t: Table)
    requires Labelled(steps, f, |steps|)
    ensures ApplyAll(steps, f, t).Stop? <==> exists k :: 0 <= k < |steps| && IsEmpty(f[steps[k].caption])
    ensures ApplyAll(steps, f, t).Stop? ==> exists k :: (0 <= k < |steps|
      && ApplyAll(steps, f, t).caption == steps[k].caption && IsEmpty(f[steps[k].caption])
      && forall j :: 0 <= j < k ==> !IsEmpty(f[steps[j].caption]))
    ensures ApplyAll(steps, f, t).Rows? ==>
      ApplyAll(steps, f, t).table == Filter(t, (r: Row) => PassesFirst(r, steps, f, |steps|))
    decreases |steps|
  {
    if steps == [] {
      FilterExt(t, (r: Row) => true, (r: Row) => PassesFirst(r, steps, f, 0));
      FilterAll(t);
    } else {
      var sel := f[steps[0].caption];
      if !IsEmpty(sel) {
        var rest := steps[1..];
        var w := Where(t, steps[0].col, sel);
        ApplyAllSpec(rest, f, w);
        if ApplyAll(rest, f, w).Stop? {
          var k :| 0 <= k < |rest| && ApplyAll(rest, f, w).caption == rest[k].caption && IsEmpty(f[rest[k].caption])
            && forall j :: 0 <= j < k ==> !IsEmpty(f[rest[j].caption]);
          assert forall j :: 0 <= j < k + 1 ==> !IsEmpty(f[steps[j].caption]) by {
            forall j | 0 <= j < k + 1 ensures !IsEmpty(f[steps[j].caption]) {
              if j > 0 { assert steps[j] == rest[j - 1]; }
            }
          }
        } else {
          assert forall k :: 0 <= k < |steps| ==> !IsEmpty(f[steps[k].caption]) by {
            forall k | 0 <= k < |steps| ensures !IsEmpty(f[steps[k].caption]) {
              if k > 0 { assert steps[k] == rest[k - 1]; }
            }
          }
          FilterCompose(t, (r: Row) => Matches(r, steps[0].col, sel),
            (r: Row) => PassesFirst(r, rest, f, |rest|),
            (r: Row) => PassesFirst(r, steps, f, |steps|)) by {
            forall r: Row ensures PassesFirst(r, steps, f, |steps|)
              == (Matches(r, steps[0].col, sel) && PassesFirst(r, rest, f, |rest|)) {
              if Matches(r, steps[0].col, sel) && PassesFirst(r, rest, f, |rest|) {
                forall j | 0 <= j < |steps| ensures Matches(r, steps[j].col, f[steps[j].caption]) {
                  if j > 0 { assert steps[j] == rest[j - 1]; }
                }
              }
            }
          }
        }
      }
    }
  }

  /** One turn of the second loop. */
  lemma ApplyAllStep(steps: seq<FilterStep>, f: Filters, t: Table, k: nat)
    requires k < |steps| && Labelled(steps, f, |steps|)
    ensures var sel := f[steps[k].caption];
      && (IsEmpty(sel) ==> ApplyAll(steps[k..], f, t) == Stop(steps[k].caption))
      && (!IsEmpty(sel) ==> ApplyAll(steps[k..], f, t) == ApplyAll(steps[k + 1..], f, Where(t, steps[k].col, sel)))
  {
    assert steps[k..][0] == steps[k];
    assert steps[k..][1..] == steps[k + 1..];
  }

  /** What the page shows. */
  datatype View =
    | Blocked(warning: string)
    | NoData(filters: Filters, indicator: Selection)
    | Shown(filters: Filters, indicator: Selection, table: Table, sources: seq<Value>, notes: seq<Value>)

  function SelectWarning(caption: string): string {
    "\U{2b05}\U{fe0f} Please select at least one " + caption + "."
  }

  /** `dropna(subset=[value_col])`. */
  function DropMissing(t: Table, col: string): (r: Table)
    ensures forall row :: row in r <==> row in t && Cell(row, col) != Missing
  {
    Filter(t, (row: Row) => Cell(row, col) != Missing)
  }

  /** A row ends up in the dashboard's table: it passes every step and has a value. */
  predicate Kept(cfg: Config, f: Filters, r: Row)
    requires Labelled(cfg.filters, f, |cfg.filters|)
  {
    PassesFirst(r, cfg.filters, f, |cfg.filters|) && (cfg.valueCol != "" ==> Cell(r, cfg.valueCol) != Missing)
  }

  lemma IndicatorLabelled(cfg: Config, f: Filters)
    requires IndicatorIsStep(cfg) && Labelled(cfg.filters, f, |cfg.filters|)
    ensures cfg.indicatorLabel in f
  {
    var j :| 0 <= j < |cfg.filters| && cfg.filters[j].caption == cfg.indicatorLabel;
    assert cfg.filters[j].caption in f;
  }

  /** One pass of `render_dashboard` over the table with the user's picks. */
  function Dashboard(cfg: Config, t: Table, picks: seq<Pick>): View
    requires |picks| == |cfg.filters| && IndicatorIsStep(cfg)
  {
    var f := FiltersAfter(cfg, t, picks, |cfg.filters|);
    match ApplyAll(cfg.filters, f, t)
    case Stop(caption) => Blocked(SelectWarning(caption))
    case Rows(rows) =>
      var out := if cfg.valueCol != "" then DropMissing(rows, cfg.valueCol) else rows;
      var indicator := f[cfg.indicatorLabel];
      if out == [] then NoData(f, indicator)
      else Shown(f, indicator, out, PresentValues(out, cfg.sourceCol), PresentValues(out, cfg.notesCol))
  }

  /** The page is blocked exactly when some selection is empty, naming the first
      such step in config order; otherwise the table shown holds, in original
      order, exactly the rows that pass every step and have a value. */
  lemma DashboardSpec(cfg: Config, t: Table, picks: seq<Pick>)
    requires |picks| == |cfg.filters| && IndicatorIsStep(cfg)
    ensures var f := FiltersAfter(cfg, t, picks, |cfg.filters|);
      var v := Dashboard(cfg, t, picks);
      && (v.Blocked? <==> exists k :: 0 <= k < |cfg.filters| && IsEmpty(f[cfg.filters[k].caption]))
      && (v.Blocked? ==> exists k :: (0 <= k < |cfg.filters|
            && v.warning == SelectWarning(cfg.filters[k].caption) && IsEmpty(f[cfg.filters[k].caption])
            && forall j :: 0 <= j < k ==> !IsEmpty(f[cfg.filters[j].caption])))
      && (!v.Blocked? ==> v.indicator == f[cfg.indicatorLabel])
      && (v.Shown? ==> v.filters == f && v.table == Filter(t, (r: Row) => Kept(cfg, f, r)) && v.table != [])
      && (v.NoData? ==> Filter(t, (r: Row) => Kept(cfg, f, r)) == [])
  {
    var f := FiltersAfter(cfg, t, picks, |cfg.filters|);
    var steps := cfg.filters;
    ApplyAllSpec(steps, f, t);
    var o := ApplyAll(steps, f, t);
    if o.Rows? {
      var all := Filter(t, (r: Row) => PassesFirst(r, steps, f, |steps|));
      if cfg.valueCol != "" {
        FilterCompose(t, (r: Row) => PassesFirst(r, steps, f, |steps|),
          (r: Row) => Cell(r, cfg.valueCol) != Missing, (r: Row) => Kept(cfg, f, r));
      } else {
        FilterExt(t, (r: Row) => PassesFirst(r, steps, f, |steps|), (r: Row) => Kept(cfg, f, r));
      }
    }
  }

  /** Every row the dashboard shows has a value in the value column. */
  lemma ShownRowsHaveValues(cfg: Config, t: Table, picks: seq<Pick>)
    requires |picks| == |cfg.filters| && IndicatorIsStep(cfg) && cfg.valueCol != ""
    ensures Dashboard(cfg, t, picks).Shown? ==>
      forall r :: r in Dashboard(cfg, t, picks).table ==> Cell(r, cfg.valueCol) != Missing
  {
  }

  /** The first loop of `render_dashboard`: each step's widget is drawn over
      the options left by the selections before it. */
  method SelectFilters(cfg: Config, t: Table, picks: seq<Pick>) returns (filters: Filters)
    requires |picks| == |cfg.filters|
    ensures filters == FiltersAfter(cfg, t, picks, |cfg.filters|)
  {
    filters := map[];
    var i := 0;
    while i < |cfg.filters|
      invariant 0 <= i <= |cfg.filters|
      invariant filters == FiltersAfter(cfg, t, picks, i)
    {
      var sel := StepWidget(cfg, t, picks, filters, i);
      FiltersAfterStep(cfg, t, picks, i);
      filters := filters[cfg.filters[i].caption := sel];
      i := i + 1;
    }
  }

  /** One pass of the first loop: step i's widget over the narrowed table. */
  method StepWidget(cfg: Config, t: Table, picks: seq<Pick>, filters: Filters, i: nat) returns (sel: Selection)
    requires i < |cfg.filters| && |picks| == |cfg.filters|
    requires filters == FiltersAfter(cfg, t, picks, i)
    ensures sel == SelectionAt(cfg, t, picks, i)
  {
    var step := cfg.filters[i];
    var temp := NarrowBy(t, cfg.filters, filters, i);
    var options := SortedOptions(temp, step.col, step.col == cfg.yearCol);
    sel := Resolve(step.widget, options, picks[i]);
  }

  /** The inner loop: the table narrowed by the selections of steps 0..i-1. */
  method NarrowBy(t: Table, steps: seq<FilterStep>, filters: Filters, i: nat) returns (temp: Table)
    requires i <= |steps| && Labelled(steps, filters, i)
    ensures temp == Narrowed(t, steps, filters, i)
  {
    temp := t;
    var j := 0;
    while j < i
      invariant 0 <= j <= i
      invariant temp == Narrowed(t, steps, filters, j)
    {
      var prev := steps[j];
      temp := Where(temp, prev.col, filters[prev.caption]);
      j := j + 1;
    }
  }

  lemma LabelledSuffix(steps: seq<FilterStep>, f: Filters, k: nat)
    requires k <= |steps| && Labelled(steps, f, |steps|)
    ensures Labelled(steps[k..], f, |steps| - k)
  {
    forall j | 0 <= j < |steps| - k ensures steps[k..][j].caption in f {
      assert steps[k..][j] == steps[k + j];
    }
  }

  /** `render_dashboard` as the source runs it: the selections are collected,
      then a loop applies them to the table and stops at the first empty one. */
  method RenderDashboard(cfg: Config, t: Table, picks: seq<Pick>) returns (view: View)
    requires |picks| == |cfg.filters| && IndicatorIsStep(cfg)
    ensures view == Dashboard(cfg, t, picks)
  {
    var filters := SelectFilters(cfg, t, picks);
    var filtered := t;
    var k := 0;
    LabelledSuffix(cfg.filters, filters, 0);
    assert cfg.filters[0..] == cfg.filters;
    while k < |cfg.filters|
      invariant 0 <= k <= |cfg.filters|
      invariant Labelled(cfg.filters[k..], filters, |cfg.filters| - k)
      invariant ApplyAll(cfg.filters[k..], filters, filtered) == ApplyAll(cfg.filters, filters, t)
    {
      var step := cfg.filters[k];
      var selected := filters[step.caption];
      ApplyAllStep(cfg.filters, filters, filtered, k);
      if IsEmpty(selected) {
        return Blocked(SelectWarning(step.caption));
      }
      filtered := Where(filtered, step.col, selected);
      k := k + 1;
      LabelledSuffix(cfg.filters, filters, k);
    }

    if cfg.valueCol != "" {
      filtered := DropMissing(filtered, cfg.valueCol);
    }
    IndicatorLabelled(cfg, filters);
    var indicator := filters[cfg.indicatorLabel];
    if filtered == [] {
      return NoData(filters, indicator);
    }
    view := Shown(filters, indicator, filtered, PresentValues(filtered, cfg.sourceCol), PresentValues(filtered, cfg.notesCol));
  }
}
