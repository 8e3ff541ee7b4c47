/** The SDoH Explorer page: the fixed socio-economic variables restricted to
    those the year offers, the county choice, the local county filter and
    the renaming of codes to labels for display. */
module SdohExplorer {
  import opened Wrappers
  import opened Tables
  import opened CensusApi
  import CensusExplorer

  /** The fixed variables with their display labels, in source order. */
  const SdohVariables: Entries<string> := [
    ("B19013_001E", "Median Household Income ($)"),
    ("B17001_002E", "Population Below Poverty Level"),
    ("B25003_002E", "Owner-Occupied Housing Units"),
    ("B25003_003E", "Renter-Occupied Housing Units"),
    ("B15003_022E", "Population with Bachelor's Degree or Higher"),
    ("C27001_001E", "Civilian Population with Health Insurance"),
    ("B01003_001E", "Total Population")
  ]

  /** `{code: label for code, label in SDOH_VARIABLES.items() if code in all_variables}`. */
  function AvailableSdoh(all: map<string, string>): (avail: Entries<string>)
    ensures forall e :: e in avail <==> e in SdohVariables && e.0 in all
    ensures |avail| <= |SdohVariables|
  {
    Filter(SdohVariables, (e: (string, string)) => e.0 in all)
  }

  /** The variable multiselect: every available code until the user picks,
      then the picked codes that are offered. */
  function SelectedSdoh(avail: Entries<string>, pick: Option<seq<string>>): (codes: seq<string>)
    ensures pick.None? ==> codes == KeysOf(avail)
    ensures forall c :: c in codes ==> c in KeysOf(avail)
  {
    match pick
    case None => KeysOf(avail)
    case Some(p) => Filter(p, c => c in KeysOf(avail))
  }

  /** Labels for display: the "NAME" column becomes the index, and each
      available code is renamed to its label. */
  function DisplayColumns(columns: seq<string>, avail: Entries<string>): (shown: seq<string>)
    ensures |shown| == |Filter(columns, c => c != "NAME")|
    ensures forall i :: 0 <= i < |shown| ==>
      shown[i] == Rename(Filter(columns, c => c != "NAME")[i], avail)
  {
    var kept := Filter(columns, c => c != "NAME");
    seq(|kept|, i requires 0 <= i < |kept| => Rename(kept[i], avail))
  }

  /** `rename(columns=available_sdoh_vars)` on one label. */
  function Rename(c: string, avail: Entries<string>): (r: string)
    ensures c in KeysOf(avail) ==> r == Lookup(avail, c).value
    ensures c !in KeysOf(avail) ==> r == c
  {
    match Lookup(avail, c)
    case None => c
    case Some(caption) => caption
  }

  /** An available code is shown under its fixed label. */
  lemma RenamedToLabel(all: map<string, string>, i: nat)
    requires i < |SdohVariables| && SdohVariables[i].0 in all
    ensures Rename(SdohVariables[i].0, AvailableSdoh(all)) == SdohVariables[i].1
  {
    var avail := AvailableSdoh(all);
    var e := SdohVariables[i];
    CodesDistinct();
    forall x | x in avail && x.0 == e.0 ensures x == e {
      var a :| 0 <= a < |SdohVariables| && SdohVariables[a] == x;
    }
    LookupUnique(avail, e);
  }

  /** An entry whose key no other entry carries is what a lookup of that key finds. */
  lemma LookupUnique<V>(entries: Entries<V>, e: (string, V))
    requires e in entries
    requires forall x :: x in entries && x.0 == e.0 ==> x == e
    ensures Lookup(entries, e.0) == Some(e.1)
  {
    var k :| 0 <= k < |entries| && entries[k] == e;
    assert KeysOf(entries)[k] == e.0;
  }

  /** No code appears twice in the fixed list. */
  lemma CodesDistinct()
    ensures forall a, b :: 0 <= a < b < |SdohVariables| ==> SdohVariables[a].0 != SdohVariables[b].0
  {
  }

  datatype Outcome =
    | SelectFirst                                // "Please select at least one variable and one county."
    | NoData                                     // "No data returned from API. ..."
    | Shown(frame: Frame, columns: seq<string>)

  /** The page after "Fetch": nothing without variables and counties;
      otherwise the fetched frame filtered to the counties' codes, with its
      display labels. */
  function AfterFetch(codes: seq<string>, counties: seq<string>, avail: Entries<string>, fetched: Frame): (o: Outcome)
    requires CensusExplorer.FipsList(counties).Some?
    ensures (codes == [] || counties == []) <==> o == SelectFirst
    ensures codes != [] && counties != [] ==>
      (o == NoData <==> CensusExplorer.CountyFilter(fetched, CensusExplorer.FipsList(counties)).rows == [])
    ensures o.Shown? ==> o.frame == CensusExplorer.CountyFilter(fetched, CensusExplorer.FipsList(counties)) && o.frame.rows != []
    ensures o.Shown? ==> o.columns == DisplayColumns(fetched.columns, avail)
  {
    if codes == [] || counties == [] then SelectFirst
    else
      var f := CensusExplorer.CountyFilter(fetched, CensusExplorer.FipsList(counties));
      if f.rows == [] then NoData else Shown(f, DisplayColumns(f.columns, avail))
  }
}
