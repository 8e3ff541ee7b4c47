/** The County Snapshot page: the boundary feature lookup for the map, the
    metric cards with their fallback, and the metric map handed to the
    summary prompt. */
module CountySnapshot {
  import opened Wrappers
  import opened Tables
  import opened CountyPicker

  /** A GeoJSON feature, reduced to its `properties.name`. */
  datatype Feature = Feature(name: Value)

  /** The county picked on this page; None when the Prevention Agenda table
      could not be loaded (only an error is shown) or names no county. */
  function SnapshotCounty(pa: Option<Table>, pick: Option<Value>): (c: Option<Value>)
    ensures pa.None? ==> c.None?
    ensures pa.Some? ==> c == PickCounty(pa.value, pick)
  {
    match pa
    case None => None
    case Some(t) => PickCounty(t, pick)
  }

  /** The name a county's boundary carries: "{county} County". */
  function BoundaryName(county: Value): string {
    Show(county) + " County"
  }

  /** `next(f for f in features if name == target, None)`: the index of the
      first feature with that name. */
  function FindBoundary(features: seq<Feature>, target: string): (r: Option<nat>)
    ensures r.None? <==> forall j :: 0 <= j < |features| ==> features[j].name != Text(target)
    ensures r.Some? ==> (r.value < |features| && features[r.value].name == Text(target)
      && forall j :: 0 <= j < r.value ==> features[j].name != Text(target))
    decreases |features|
  {
    if features == [] then None
    else if features[0].name == Text(target) then Some(0)
    else
      match FindBoundary(features[1..], target)
      case None => None
      case Some(i) => Some(i + 1)
  }

  datatype BoundaryOutcome =
    | NoGeoJson            // "County boundary GeoJSON file could not be loaded."
    | NotFound(name: string) // "Boundary data not found for {name}."
    | Found(index: nat)

  /** The location panel: no file, no matching feature, or the first match.
      A falsy GeoJSON value (None or an empty dict) is `None` here. */
  function Boundary(geojson: Option<seq<Feature>>, county: Value): (o: BoundaryOutcome)
    ensures geojson.None? <==> o.NoGeoJson?
    ensures o.NotFound? ==> (o.name == BoundaryName(county)
      && forall j :: 0 <= j < |geojson.value| ==> geojson.value[j].name != Text(BoundaryName(county)))
    ensures o.Found? ==> (o.index < |geojson.value| && geojson.value[o.index].name == Text(BoundaryName(county))
      && forall j :: 0 <= j < o.index ==> geojson.value[j].name != Text(BoundaryName(county)))
  {
    match geojson
    case None => NoGeoJson
    case Some(features) =>
      match FindBoundary(features, BoundaryName(county))
      case None => NotFound(BoundaryName(county))
      case Some(i) => Found(i)
  }

  /** With a loaded file, the boundary is found exactly when some feature
      carries the county's name. */
  lemma BoundaryFoundIff(features: seq<Feature>, county: Value)
    ensures Boundary(Some(features), county).Found?
      <==> exists j :: 0 <= j < |features| && features[j].name == Text(BoundaryName(county))
  {
  }

  /** One entry of the snapshot metrics: (value, year, indicator name). */
  datatype Metric = Metric(val: Value, year: Value, name: Value)

  const NotFoundMetric := Metric(Text("N/A"), Text(""), Text("Not Found"))

  /** `display_metric`: the card title "{label} ({year or '...'})" and the
      card value, "No Data" standing in for "N/A". */
  function DisplayMetric(metrics: map<string, Metric>, caption: string): (card: (string, Value))
    ensures card.1 != Text("N/A")
    ensures caption !in metrics ==> card == (caption + " (...)", Text("No Data"))
    ensures caption in metrics && metrics[caption].val != Text("N/A") ==> card.1 == metrics[caption].val
    ensures caption in metrics && metrics[caption].val == Text("N/A") ==> card.1 == Text("No Data")
    ensures caption in metrics && Truthy(metrics[caption].year) ==> card.0 == caption + " (" + Show(metrics[caption].year) + ")"
    ensures caption in metrics && !Truthy(metrics[caption].year) ==> card.0 == caption + " (...)"
  {
    var m := if caption in metrics then metrics[caption] else NotFoundMetric;
    assert !Truthy(NotFoundMetric.year);
    assert caption + " (" + "..." + ")" == caption + " (...)";
    var year := if Truthy(m.year) then Show(m.year) else "...";
    (caption + " (" + year + ")", if m.val == Text("N/A") then Text("No Data") else m.val)
  }

  /** A label the snapshot lacks is shown exactly like one reported as "N/A"
      with an empty year. */
  lemma MissingShowsAsNoData(metrics: map<string, Metric>, caption: string, name: Value)
    requires caption !in metrics
    ensures DisplayMetric(metrics, caption) == DisplayMetric(metrics[caption := Metric(Text("N/A"), Text(""), name)], caption)
  {
  }

  /** The card value differs from the metric's value only for "N/A". */
  lemma DisplayedValue(metrics: map<string, Metric>, caption: string)
    requires caption in metrics
    ensures DisplayMetric(metrics, caption).1 == metrics[caption].val <==> metrics[caption].val != Text("N/A")
  {
  }

  /** `{label: (val, year)}` from the snapshot, then `update` with every
      census entry paired with the year "2022". */
  function MetricsForAi(all: map<string, Metric>, census: map<string, Value>): (r: map<string, (Value, Value)>)
    ensures r.Keys == all.Keys + census.Keys
    ensures forall k :: k in census ==> r[k] == (census[k], Text("2022"))
    ensures forall k :: k in all && k !in census ==> r[k] == (all[k].val, all[k].year)
  {
    (map l | l in all :: (all[l].val, all[l].year)) + (map k | k in census :: (census[k], Text("2022")))
  }

  /** The indicator names never reach the prompt: two snapshots that agree on
      values and years give the same map. */
  lemma MetricsForAiIgnoresNames(all: map<string, Metric>, all': map<string, Metric>, census: map<string, Value>)
    requires all.Keys == all'.Keys
    requires forall k :: k in all ==> all[k].val == all'[k].val && all[k].year == all'[k].year
    ensures MetricsForAi(all, census) == MetricsForAi(all', census)
  {
    var r := MetricsForAi(all, census);
    var r' := MetricsForAi(all', census);
    assert forall k :: k in r ==> r[k] == r'[k];
  }
}
