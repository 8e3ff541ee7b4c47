/** The Census Explorer page: dataset and year choice, variable codes typed
    by hand or picked, the geography parameters, the local county filter and
    the plot candidates. */
module CensusExplorer {
  import opened Wrappers
  import opened Strings
  import opened Tables
  import opened CensusApi

  /** The dataset selectbox: the user's pick when offered, else the first key. */
  function DatasetChoice(pick: Option<string>): (key: string)
    ensures key in KeysOf(ValidDatasets)
    ensures pick.Some? && pick.value in KeysOf(ValidDatasets) ==> key == pick.value
  {
    if pick.Some? && pick.value in KeysOf(ValidDatasets) then pick.value else ValidDatasets[0].0
  }

  /** The year options: exactly the years listed for the dataset. */
  function YearOptions(key: string): (years: seq<string>)
    requires key in KeysOf(ValidDatasets)
    ensures |years| >= 1
    ensures exists i :: 0 <= i < |ValidDatasets| && ValidDatasets[i] == (key, Dataset(ValidDatasets[i].1.name, years))
  {
    DatasetsHaveYears();
    var d := Lookup(ValidDatasets, key).value;
    d.years
  }

  /** The year selectbox never comes back empty. */
  function YearChoice(key: string, pick: Option<string>): (year: string)
    requires key in KeysOf(ValidDatasets)
    ensures year in YearOptions(key)
    ensures pick.Some? && pick.value in YearOptions(key) ==> year == pick.value
  {
    if pick.Some? && pick.value in YearOptions(key) then pick.value else YearOptions(key)[0]
  }

  /** `[v.strip() for v in raw.split(",")]`. */
  function ManualVariables(raw: string): (codes: seq<string>)
    ensures |codes| == |Split(raw, ',')| && |codes| >= 1
    ensures forall i :: 0 <= i < |codes| ==> NoEdgeSpace(codes[i]) && ',' !in codes[i]
  {
    var parts := Split(raw, ',');
    seq(|parts|, i requires 0 <= i < |parts| => StripNoComma(parts[i]))
  }

  /** Stripping keeps a comma-free piece comma-free. */
  function StripNoComma(p: string): (r: string)
    requires ',' !in p
    ensures r == Strip(p) && ',' !in r
  {
    var a, b :| 0 <= a <= b <= |p| && Strip(p) == p[a..b];
    assert forall k :: 0 <= k < b - a ==> p[a..b][k] == p[a + k];
    Strip(p)
  }

  /** Codes typed comma-separated, without surrounding blanks, come back as typed. */
  lemma ManualVariablesRoundTrip(codes: seq<string>)
    requires |codes| >= 1
    requires forall c :: c in codes ==> ',' !in c && NoEdgeSpace(c)
    ensures ManualVariables(Join(codes, ",")) == codes
  {
    SplitJoin(codes, ',');
  }

  const DefaultVariable := "B01001_001E"

  /** The codes to fetch: typed by hand when no variable list could be
      loaded (the box starts with the default code), else the multiselect's
      codes, starting from the default code when it is offered. */
  function SelectedVariables(options: map<string, string>, raw: string, pick: Option<seq<string>>): (codes: seq<string>)
    ensures options == map[] ==> codes == ManualVariables(raw)
    ensures options != map[] ==> forall c :: c in codes ==> c in options
    ensures options != map[] && pick.None? ==> codes == (if DefaultVariable in options then [DefaultVariable] else [])
  {
    if options == map[] then ManualVariables(raw)
    else
      match pick
      case None => if DefaultVariable in options then [DefaultVariable] else []
      case Some(p) => Filter(p, c => c in options)
  }

  datatype GeoLevel = AllNyCounties | SpecificNyCounties | AllStates

  /** `(geo_for_param, geo_in_param, fips_to_filter)`. */
  datatype GeoParams = GeoParams(geoFor: Option<string>, geoIn: map<string, string>, fips: Option<seq<string>>)

  /** `[NY_COUNTY_FIPS_MAP[c] for c in counties]`; None where a name has no
      code (a KeyError). */
  function FipsList(counties: seq<string>): (r: Option<seq<string>>)
    ensures r.Some? <==> forall c :: c in counties ==> c in KeysOf(NyCountyFips)
    ensures r.Some? ==> (|r.value| == |counties|
      && forall i :: 0 <= i < |counties| ==> Lookup(NyCountyFips, counties[i]) == Some(r.value[i]))
    decreases |counties|
  {
    if counties == [] then Some([])
    else
      match Lookup(NyCountyFips, counties[0])
      case None => None
      case Some(code) =>
        match FipsList(counties[1..])
        case None => None
        case Some(rest) =>
          assert forall i :: 1 <= i < |counties| ==> counties[i] == counties[1..][i - 1];
          Some([code] + rest)
  }

  /** The counties preselected for "Specific NY Counties" here and on the SDoH Explorer. */
  const DefaultNyCounties: seq<string> := ["Dutchess", "Orange", "Rockland", "Putnam", "Sullivan", "Westchester", "Ulster"]

  /** The county multiselect over the county table's names. */
  function SelectedCounties(pick: Option<seq<string>>): (counties: seq<string>)
    ensures pick.None? ==> counties == DefaultNyCounties
    ensures pick.Some? ==> forall c :: c in counties ==> c in KeysOf(NyCountyFips)
  {
    match pick
    case None => DefaultNyCounties
    case Some(p) => Filter(p, c => c in KeysOf(NyCountyFips))
  }

  /** Every preselected county has a code. */
  lemma DefaultsHaveCodes()
    ensures forall c :: c in DefaultNyCounties ==> c in KeysOf(NyCountyFips)
  {
    var keys := KeysOf(NyCountyFips);
    assert keys[13] == "Dutchess";
    assert keys[35] == "Orange";
    assert keys[43] == "Rockland";
    assert keys[39] == "Putnam";
    assert keys[52] == "Sullivan";
    assert keys[59] == "Westchester";
    assert keys[55] == "Ulster";
  }

  /** The county choice always maps to a FIPS list, one code per county. */
  lemma SelectedCountiesHaveCodes(pick: Option<seq<string>>)
    ensures FipsList(SelectedCounties(pick)).Some?
    ensures |FipsList(SelectedCounties(pick)).value| == |SelectedCounties(pick)|
  {
    DefaultsHaveCodes();
  }

  /** "state:36": the New York state code from the state table. */
  function NyIn(): (m: map<string, string>)
    ensures m == map["in" := "state:36"]
  {
    NewYorkCode();
    assert "state:" + "36" == "state:36";
    map["in" := "state:" + Lookup(StateFips, "New York").value]
  }

  /** The geography branch. An empty county choice leaves `geo_for` unset. */
  function Geography(level: GeoLevel, counties: seq<string>): (g: GeoParams)
    ensures level == AllStates ==> g == GeoParams(Some("state:*"), map[], None)
    ensures level == AllNyCounties ==> g == GeoParams(Some("county:*"), map["in" := "state:36"], None)
    ensures level == SpecificNyCounties && counties == [] ==> g == GeoParams(None, map[], None)
    ensures level == SpecificNyCounties && counties != [] ==>
      g == GeoParams(Some("county:*"), map["in" := "state:36"], FipsList(counties))
  {
    match level
    case AllStates => GeoParams(Some("state:*"), map[], None)
    case AllNyCounties => GeoParams(Some("county:*"), NyIn(), None)
    case SpecificNyCounties =>
      if counties == [] then GeoParams(None, map[], None)
      else GeoParams(Some("county:*"), NyIn(), FipsList(counties))
  }

  /** Specific counties query the same as all New York counties; they only
      add the local filter. */
  lemma SpecificAddsOnlyFilter(counties: seq<string>)
    requires counties != []
    ensures Geography(SpecificNyCounties, counties).geoFor == Geography(AllNyCounties, counties).geoFor
    ensures Geography(SpecificNyCounties, counties).geoIn == Geography(AllNyCounties, counties).geoIn
    ensures Geography(AllNyCounties, counties).fips.None?
  {
  }

  /** `if geo_for_param and selected_variables`. */
  predicate ShouldFetch(g: GeoParams, codes: seq<string>) {
    g.geoFor.Some? && codes != []
  }

  predicate CountyIn(r: Row, fips: seq<string>) {
    Cell(r, "county").Text? && Cell(r, "county").s in fips
  }

  /** `df[df["county"].isin(fips)]`, applied only with a non-empty FIPS list,
      a non-empty frame and a "county" column. */
  function CountyFilter(f: Frame, fips: Option<seq<string>>): (r: Frame)
    ensures r.columns == f.columns
    ensures (fips.Some? && fips.value != [] && f.rows != [] && "county" in f.columns) ==>
      (forall row :: row in r.rows <==> row in f.rows && CountyIn(row, fips.value))
    ensures !(fips.Some? && fips.value != [] && f.rows != [] && "county" in f.columns) ==> r == f
  {
    if fips.Some? && fips.value != [] && f.rows != [] && "county" in f.columns then
      f.(rows := Filter(f.rows, row => CountyIn(row, fips.value)))
    else f
  }

  /** The filter keeps rows in their fetched order. */
  lemma CountyFilterOrder(f: Frame, fips: seq<string>, a: Table, b: Table)
    requires fips != [] && "county" in f.columns && f.rows == a + b && f.rows != []
    ensures CountyFilter(f, Some(fips)).rows == Filter(a, row => CountyIn(row, fips)) + Filter(b, row => CountyIn(row, fips))
  {
    FilterAppend(a, b, row => CountyIn(row, fips));
  }

  /** A column pandas reports as numeric: every cell a number or missing. */
  predicate NumericColumn(f: Frame, c: string) {
    forall i :: 0 <= i < |f.rows| ==> Cell(f.rows[i], c).Num? || Cell(f.rows[i], c).Missing?
  }

  /** The plot candidates: the selected codes, in order, that are numeric columns. */
  function NumericCols(codes: seq<string>, f: Frame): (r: seq<string>)
    ensures forall c :: c in r <==> c in codes && c in f.columns && NumericColumn(f, c)
    ensures |r| <= |codes|
  {
    Filter(codes, c => c in f.columns && NumericColumn(f, c))
  }

  /** Every fetched code other than "NAME" that came back as a column is a
      plot candidate: the fetch coerced it. */
  lemma FetchedCodesPlottable(items: seq<string>, data: seq<seq<Value>>, c: string)
    requires |data| >= 2 && Width(data[1..]) == |data[0]|
    requires c in items && c != "NAME" && c in HeaderNames(data[0])
    ensures ResponseFrame(items, Decoded(data)).Success?
    ensures c in NumericCols(items, ResponseFrame(items, Decoded(data)).value)
  {
    var header := HeaderNames(data[0]);
    var raw := RawFrame(header, data[1..]);
    assert ResponseFrame(items, Decoded(data)) == Success(CoerceColumns(raw, items));
    var f := CoerceColumns(raw, items);
    forall i | 0 <= i < |f.rows| ensures Cell(f.rows[i], c).Num? || Cell(f.rows[i], c).Missing? {
      CoerceColumnsCells(raw, items, i, c);
    }
  }

  /** What the page shows after the button. */
  datatype Outcome =
    | SelectFirst                                 // "Please ensure you have selected ..."
    | NoData                                      // "No data returned from API. ..."
    | Shown(frame: Frame, plottable: seq<string>)

  /** The page after "Fetch": a warning without a geography or variables;
      otherwise the fetched frame (already computed from the code list the
      fetch extended) filtered to the chosen counties. */
  function AfterFetch(g: GeoParams, codes: seq<string>, fetched: Frame): (o: Outcome)
    ensures o == SelectFirst <==> !ShouldFetch(g, codes)
    ensures ShouldFetch(g, codes) ==> (o == NoData <==> CountyFilter(fetched, g.fips).rows == [])
    ensures o.Shown? ==> o.frame.rows != [] && o.frame == CountyFilter(fetched, g.fips)
    ensures o.Shown? ==> o.plottable == NumericCols(codes, o.frame)
  {
    if !ShouldFetch(g, codes) then SelectFirst
    else
      var f := CountyFilter(fetched, g.fips);
      if f.rows == [] then NoData else Shown(f, NumericCols(codes, f))
  }
}
