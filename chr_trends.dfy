/** The County Health Rankings trend page: measure and county options, the
    default counties, the empty-selection guard and the measure/county filter. */
module ChrTrends {
  import opened Wrappers
  import opened Tables

  const DefaultCounties: seq<Value> :=
    [Text("Dutchess"), Text("Orange"), Text("Rockland"), Text("Putnam"), Text("Sullivan"), Text("Westchester"), Text("Ulster")]

  /** `sorted(df['measurename'].unique())`. */
  function Measures(t: Table): (r: seq<Value>)
    ensures StrictlyAscending(r)
    ensures forall v :: v in r <==> v != Missing && v in Column(t, "measurename")
  {
    SortedDistinct(Column(t, "measurename"))
  }

  /** `sorted(df['county'].dropna().unique())`. */
  function Counties(t: Table): (r: seq<Value>)
    ensures StrictlyAscending(r)
    ensures forall v :: v in r <==> v != Missing && exists row :: row in t && Cell(row, "county") == v
  {
    SortedOptions(t, "county", false)
  }

  /** The measure selectbox: the pick when offered, else the first measure;
      None when there is none. */
  function MeasureChoice(measures: seq<Value>, pick: Option<Value>): (m: Option<Value>)
    ensures m.None? <==> measures == []
    ensures m.Some? ==> m.value in measures
    ensures pick.Some? && pick.value in measures ==> m == pick
  {
    if pick.Some? && pick.value in measures then pick
    else if measures == [] then None
    else Some(measures[0])
  }

  /** `[c for c in default_counties if c in all_counties]`. */
  function PresentDefaults(all: seq<Value>): (d: seq<Value>)
    ensures forall c :: c in d <==> c in DefaultCounties && c in all
  {
    Filter(DefaultCounties, c => c in all)
  }

  /** The defaults keep their own order: a default that comes before another
      in the fixed list comes before it in the preselection. */
  lemma PresentDefaultsOrder(all: seq<Value>, k: nat)
    requires k <= |DefaultCounties|
    ensures PresentDefaults(all)
      == Filter(DefaultCounties[..k], c => c in all) + Filter(DefaultCounties[k..], c => c in all)
  {
    assert DefaultCounties == DefaultCounties[..k] + DefaultCounties[k..];
    FilterAppend(DefaultCounties[..k], DefaultCounties[k..], c => c in all);
  }

  /** The county multiselect: the present defaults until the user picks,
      then the picked counties that are offered. */
  function SelectedCounties(all: seq<Value>, pick: Option<seq<Value>>): (sel: seq<Value>)
    ensures forall c :: c in sel ==> c in all
    ensures pick.None? ==> sel == PresentDefaults(all)
  {
    match pick
    case None => PresentDefaults(all)
    case Some(p) => Filter(p, c => c in all)
  }

  /** `(df['measurename'] == measure) & df['county'].isin(counties)`; a
      missing measure or no measure at all matches nothing. */
  predicate Matches(r: Row, measure: Option<Value>, counties: seq<Value>) {
    measure.Some? && CellEq(r, "measurename", measure.value) && Cell(r, "county") in counties
  }

  function Filtered(t: Table, measure: Option<Value>, counties: seq<Value>): (r: Table)
    ensures forall row :: row in r <==> row in t && Matches(row, measure, counties)
    ensures |r| <= |t|
  {
    Filter(t, row => Matches(row, measure, counties))
  }

  /** Rows stay in the order they have in the data. */
  lemma FilteredOrder(a: Table, b: Table, measure: Option<Value>, counties: seq<Value>)
    ensures Filtered(a + b, measure, counties) == Filtered(a, measure, counties) + Filtered(b, measure, counties)
  {
    FilterAppend(a, b, row => Matches(row, measure, counties));
  }

  datatype Outcome =
    | LoadError              // "Could not load the County Health Rankings trend data."
    | SelectCounty           // "Please select at least one county."
    | NoTrend                // "No data available for the selected measure and counties."
    | Trend(rows: Table)

  /** The page for the loaded table (None when it could not be loaded) and
      the user's picks. */
  function Page(data: Option<Table>, measurePick: Option<Value>, countyPick: Option<seq<Value>>): (o: Outcome)
    ensures o == LoadError <==> data.None?
    ensures data.Some? ==> Body(data.value, measurePick, countyPick) == o
  {
    match data
    case None => LoadError
    case Some(t) => Body(t, measurePick, countyPick)
  }

  /** The page below the sidebar, for a loaded table. */
  function Body(t: Table, measurePick: Option<Value>, countyPick: Option<seq<Value>>): (o: Outcome)
    ensures o != LoadError
    ensures o == SelectCounty <==> SelectedCounties(Counties(t), countyPick) == []
    ensures SelectedCounties(Counties(t), countyPick) != [] ==>
      (o == NoTrend <==> Filtered(t, MeasureChoice(Measures(t), measurePick), SelectedCounties(Counties(t), countyPick)) == [])
    ensures o.Trend? ==> (o.rows != []
      && o.rows == Filtered(t, MeasureChoice(Measures(t), measurePick), SelectedCounties(Counties(t), countyPick)))
    ensures o.Trend? ==> forall row :: row in o.rows ==>
      (Cell(row, "measurename") in Measures(t) && Cell(row, "county") in Counties(t))
  {
    var measure := MeasureChoice(Measures(t), measurePick);
    var counties := SelectedCounties(Counties(t), countyPick);
    if counties == [] then SelectCounty
    else
      var rows := Filtered(t, measure, counties);
      if rows == [] then NoTrend else Trend(rows)
  }

  /** Before the user touches the county box, the chart shows only the
      preselected Hudson Valley counties, and only the chosen measure. */
  lemma UntouchedShowsDefaults(t: Table, measurePick: Option<Value>)
    requires Body(t, measurePick, None).Trend?
    ensures forall row :: row in Body(t, measurePick, None).rows ==>
      (Cell(row, "county") in DefaultCounties
      && CellEq(row, "measurename", MeasureChoice(Measures(t), measurePick).value))
  {
    var rows := Body(t, measurePick, None).rows;
    forall row | row in rows
      ensures Cell(row, "county") in DefaultCounties
        && CellEq(row, "measurename", MeasureChoice(Measures(t), measurePick).value)
    {
      assert Matches(row, MeasureChoice(Measures(t), measurePick), PresentDefaults(Counties(t)));
    }
  }
}
