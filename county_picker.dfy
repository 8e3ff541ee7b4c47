/** The county selectbox shared by the Hanlon and County Snapshot pages:
    the sorted present county names, preselecting "Dutchess" when offered. */
module CountyPicker {
  import opened Wrappers
  import opened Tables

  function CountyOptions(t: Table): (r: seq<Value>)
    ensures StrictlyAscending(r)
    ensures forall v :: v in r <==> (v != Missing && exists row :: row in t && Cell(row, "County Name") == v)
  {
    SortedOptions(t, "County Name", false)
  }

  /** The selected county: the user's pick when offered, otherwise the
      default; None when the table names no county, where `all_counties[0]`
      raises IndexError. */
  function PickCounty(t: Table, pick: Option<Value>): (c: Option<Value>)
    ensures c.None? <==> CountyOptions(t) == []
    ensures c.Some? ==> c.value in CountyOptions(t)
    ensures c.Some? && (pick.None? || pick.value !in CountyOptions(t)) ==> c.value == DefaultCounty(CountyOptions(t))
    ensures c.Some? && pick.Some? && pick.value in CountyOptions(t) ==> c.value == pick.value
  {
    var counties := CountyOptions(t);
    if counties == [] then None
    else if pick.Some? && pick.value in counties then Some(pick.value)
    else Some(DefaultCounty(counties))
  }

  /** Left untouched, the picker shows "Dutchess" whenever a row names it. */
  lemma UntouchedPicksDutchess(t: Table)
    requires exists row :: row in t && Cell(row, "County Name") == Text("Dutchess")
    ensures PickCounty(t, None) == Some(Text("Dutchess"))
  {
    assert Text("Dutchess") in CountyOptions(t);
  }
}
