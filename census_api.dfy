/** The Census API side of `modules/utils.py`: the dataset, state and
    county constants, and `fetch_census_data`'s request and response rules. */
module CensusApi {
  import opened Wrappers
  import opened Strings
  import opened Tables

  /** A Python dict literal as its entries in source order; its keys are
      distinct, so the first entry with a key is the dict's entry. */
  type Entries<V> = seq<(string, V)>

  function KeysOf<V>(entries: Entries<V>): (ks: seq<string>)
    ensures |ks| == |entries|
    ensures forall i :: 0 <= i < |entries| ==> ks[i] == entries[i].0
  {
    seq(|entries|, i requires 0 <= i < |entries| => entries[i].0)
  }

  /** `d.get(key)`: the value of the first entry with that key. */
  function Lookup<V>(entries: Entries<V>, key: string): (r: Option<V>)
    ensures r.None? <==> key !in KeysOf(entries)
    ensures r.Some? ==> exists i :: 0 <= i < |entries| && entries[i] == (key, r.value)
    decreases |entries|
  {
    if entries == [] then None
    else if entries[0].0 == key then Some(entries[0].1)
    else
      var r := Lookup(entries[1..], key);
      assert forall i :: 1 <= i < |entries| ==> entries[i] == entries[1..][i - 1];
      assert KeysOf(entries) == [entries[0].0] + KeysOf(entries[1..]);
      r
  }

  datatype Dataset = Dataset(name: string, years: seq<string>)

  /** The datasets offered, each with the years it is published for. */
  const ValidDatasets: Entries<Dataset> := [
    ("acs/acs5", Dataset("ACS 5-Year Estimates", ["2022", "2021", "2020", "2019"])),
    ("acs/acs1", Dataset("ACS 1-Year Estimates", ["2022", "2021", "2019"])),
    ("dec/pl", Dataset("Decennial Census (PL)", ["2020", "2010"])),
    ("pep/population", Dataset("Population Estimates", ["2022", "2021"]))
  ]

  /** Every dataset lists at least one year. */
  lemma DatasetsHaveYears()
    ensures forall i :: 0 <= i < |ValidDatasets| ==> |ValidDatasets[i].1.years| >= 1
  {
  }

  /** Two-digit state FIPS codes. */
  const StateFips: Entries<string> :=
    StateFips1 + StateFips2 + StateFips3 + StateFips4 + StateFips5 + StateFips6 + StateFips7
  const StateFips1: Entries<string> := [
    ("New York", "36"), ("New Jersey", "34"), ("Connecticut", "09"), ("Pennsylvania", "42"),
    ("Massachusetts", "25"), ("Alabama", "01"), ("Alaska", "02"), ("Arizona", "04")
  ]
  const StateFips2: Entries<string> := [
    ("Arkansas", "05"), ("California", "06"), ("Colorado", "08"), ("Delaware", "10"),
    ("District of Columbia", "11"), ("Florida", "12"), ("Georgia", "13"), ("Hawaii", "15")
  ]
  const StateFips3: Entries<string> := [
    ("Idaho", "16"), ("Illinois", "17"), ("Indiana", "18"), ("Iowa", "19"), ("Kansas", "20"),
    ("Kentucky", "21"), ("Louisiana", "22"), ("Maine", "23")
  ]
  const StateFips4: Entries<string> := [
    ("Maryland", "24"), ("Michigan", "26"), ("Minnesota", "27"), ("Mississippi", "28"),
    ("Missouri", "29"), ("Montana", "30"), ("Nebraska", "31"), ("Nevada", "32")
  ]
  const StateFips5: Entries<string> := [
    ("New Hampshire", "33"), ("New Mexico", "35"), ("North Carolina", "37"),
    ("North Dakota", "38"), ("Ohio", "39"), ("Oklahoma", "40"), ("Oregon", "41"),
    ("Rhode Island", "44")
  ]
  const StateFips6: Entries<string> := [
    ("South Carolina", "45"), ("South Dakota", "46"), ("Tennessee", "47"), ("Texas", "48"),
    ("Utah", "49"), ("Vermont", "50"), ("Virginia", "51"), ("Washington", "53")
  ]
  const StateFips7: Entries<string> := [
    ("West Virginia", "54"), ("Wisconsin", "55"), ("Wyoming", "56")
  ]

  /** Three-digit FIPS codes of the 62 New York counties. */
  const NyCountyFips: Entries<string> :=
    NyCountyFips1 + NyCountyFips2 + NyCountyFips3 + NyCountyFips4 + NyCountyFips5 + NyCountyFips6 + NyCountyFips7 + NyCountyFips8
  const NyCountyFips1: Entries<string> := [
    ("Albany", "001"), ("Allegany", "003"), ("Bronx", "005"), ("Broome", "007"),
    ("Cattaraugus", "009"), ("Cayuga", "011"), ("Chautauqua", "013"), ("Chemung", "015")
  ]
  const NyCountyFips2: Entries<string> := [
    ("Chenango", "017"), ("Clinton", "019"), ("Columbia", "021"), ("Cortland", "023"),
    ("Delaware", "025"), ("Dutchess", "027"), ("Erie", "029"), ("Essex", "031")
  ]
  const NyCountyFips3: Entries<string> := [
    ("Franklin", "033"), ("Fulton", "035"), ("Genesee", "037"), ("Greene", "039"),
    ("Hamilton", "041"), ("Herkimer", "043"), ("Jefferson", "045"), ("Kings (Brooklyn)", "047")
  ]
  const NyCountyFips4: Entries<string> := [
    ("Lewis", "049"), ("Livingston", "051"), ("Madison", "053"), ("Monroe", "055"),
    ("Montgomery", "057"), ("Nassau", "059"), ("New York (Manhattan)", "061"), ("Niagara", "063")
  ]
  const NyCountyFips5: Entries<string> := [
    ("Oneida", "065"), ("Onondaga", "067"), ("Ontario", "069"), ("Orange", "071"),
    ("Orleans", "073"), ("Oswego", "075"), ("Otsego", "077"), ("Putnam", "079")
  ]
  const NyCountyFips6: Entries<string> := [
    ("Queens", "081"), ("Rensselaer", "083"), ("Richmond (Staten Island)", "085"),
    ("Rockland", "087"), ("Saratoga", "091"), ("Schenectady", "093"), ("Schoharie", "095"),
    ("Schuyler", "097")
  ]
  const NyCountyFips7: Entries<string> := [
    ("Seneca", "099"), ("St. Lawrence", "089"), ("Steuben", "101"), ("Suffolk", "103"),
    ("Sullivan", "105"), ("Tioga", "107"), ("Tompkins", "109"), ("Ulster", "111")
  ]
  const NyCountyFips8: Entries<string> := [
    ("Warren", "113"), ("Washington", "115"), ("Wayne", "117"), ("Westchester", "119"),
    ("Wyoming", "121"), ("Yates", "123")
  ]

  /** New York's state code, used for every county-level query. */
  lemma NewYorkCode()
    ensures Lookup(StateFips, "New York") == Some("36")
  {
    assert StateFips[0] == ("New York", "36");
  }

  /** A table with its column labels: what a `pd.DataFrame` holds here. */
  datatype Frame = Frame(columns: seq<string>, rows: Table)

  const EmptyFrame := Frame([], [])

  /** The caller's list of variable codes, which the fetch extends in place. */
  class VarList {
    var items: seq<string>

    constructor (items: seq<string>)
      ensures this.items == items
    {
      this.items := items;
    }
  }

  /** The code list after `if "NAME" not in variables: variables.insert(0, "NAME")`. */
  function WithName(vars: seq<string>): (r: seq<string>)
    ensures "NAME" in r
    ensures "NAME" in vars ==> r == vars
    ensures "NAME" !in vars ==> r[0] == "NAME" && r[1..] == vars
  {
    if "NAME" in vars then vars else ["NAME"] + vars
  }

  /** The query: "get" is the comma-join of the codes, "for" the geography,
      and the `geo_in` entries are merged over them. */
  function Params(items: seq<string>, geoFor: string, geoIn: map<string, string>): (p: map<string, string>)
    ensures p.Keys == {"get", "for"} + geoIn.Keys
    ensures forall k :: k in geoIn ==> p[k] == geoIn[k]
    ensures "get" !in geoIn ==> p["get"] == Join(items, ",")
    ensures "for" !in geoIn ==> p["for"] == geoFor
  {
    map["get" := Join(items, ","), "for" := geoFor] + geoIn
  }

  /** The server reads the codes back off "get" exactly, provided no code
      contains a comma. */
  lemma GetListsCodes(items: seq<string>, geoFor: string, geoIn: map<string, string>)
    requires |items| >= 1 && "get" !in geoIn
    requires forall c :: c in items ==> ',' !in c
    ensures Split(Params(items, geoFor, geoIn)["get"], ',') == items
  {
    SplitJoin(items, ',');
  }

  /** The header row's cells as column labels. */
  function HeaderNames(h: seq<Value>): (r: seq<string>)
    ensures |r| == |h|
    ensures forall j :: 0 <= j < |h| ==> r[j] == Show(h[j])
  {
    seq(|h|, j requires 0 <= j < |h| => Show(h[j]))
  }

  /** The longest data row: pandas pads shorter rows with missing values and
      requires this width to equal the number of column labels. */
  function Width(body: seq<seq<Value>>): (w: nat)
    ensures forall i :: 0 <= i < |body| ==> |body[i]| <= w
    ensures body != [] ==> exists i :: 0 <= i < |body| && |body[i]| == w
    decreases |body|
  {
    if body == [] then 0
    else
      var w := Width(body[1..]);
      assert forall i :: 1 <= i < |body| ==> body[i] == body[1..][i - 1];
      if |body[0]| >= w then |body[0]| else w
  }

  /** The `j`-th cell of a data row, missing past its end. */
  function CellAt(cells: seq<Value>, j: nat): Value {
    if j < |cells| then cells[j] else Missing
  }

  /** The position of the last column labelled `c`. */
  function LastIndex(header: seq<string>, c: string): (r: nat)
    requires c in header
    ensures r < |header| && header[r] == c
    ensures forall k :: r < k < |header| ==> header[k] != c
    decreases |header|
  {
    var n := |header| - 1;
    if header[n] == c then n
    else
      assert c in header[..n] by {
        var k :| 0 <= k < |header| && header[k] == c;
        assert header[..n][k] == c;
      }
      LastIndex(header[..n], c)
  }

  /** One data row under the column labels; of two equal labels the later
      column's cell is kept. */
  function BuildRow(header: seq<string>, cells: seq<Value>): (r: Row)
    ensures r.Keys == set c | c in header
    ensures forall j :: ((0 <= j < |header| && (forall k :: j < k < |header| ==> header[k] != header[j]))
      ==> r[header[j]] == CellAt(cells, j))
  {
    map c | c in header :: CellAt(cells, LastIndex(header, c))
  }

  /** `df[col] = pd.to_numeric(df[col], errors='coerce')`. */
  function CoerceColumn(rows: Table, col: string): (r: Table)
    ensures |r| == |rows|
    ensures forall i, c :: 0 <= i < |rows| ==>
      Cell(r[i], c) == (if c == col then ToNumeric(Cell(rows[i], c)) else Cell(rows[i], c))
  {
    seq(|rows|, i requires 0 <= i < |rows| => SetCell(rows[i], col, ToNumeric(Cell(rows[i], col))))
  }

  /** The coercion loop over the code list, one listed code after another. */
  function CoerceColumns(f: Frame, vars: seq<string>): (r: Frame)
    ensures r.columns == f.columns && |r.rows| == |f.rows|
    decreases |vars|
  {
    if vars == [] then f
    else
      var n := |vars| - 1;
      var prev := CoerceColumns(f, vars[..n]);
      var col := vars[n];
      if col != "NAME" && col in prev.columns then prev.(rows := CoerceColumn(prev.rows, col)) else prev
  }

  /** Every listed code other than "NAME" that is a column is coerced,
      whatever its position or repetition; every other cell is untouched. */
  lemma {:induction false} CoerceColumnsCells(f: Frame, vars: seq<string>, i: nat, c: string)
    requires i < |f.rows|
    ensures Cell(CoerceColumns(f, vars).rows[i], c)
      == (if c in vars && c != "NAME" && c in f.columns then ToNumeric(Cell(f.rows[i], c)) else Cell(f.rows[i], c))
    decreases |vars|
  {
    if vars != [] {
      var n := |vars| - 1;
      CoerceColumnsCells(f, vars[..n], i, c);
      assert vars == vars[..n] + [vars[n]];
      assert c in vars <==> c in vars[..n] || c == vars[n];
    }
  }

  /** What the request ends in: a decoded JSON body; an HTTP error status;
      a body that cannot be decoded or indexed (the JSON, key and index
      errors the fetch catches); or a connection error or timeout, which the
      fetch does not catch. */
  datatype Response =
    | Decoded(data: seq<seq<Value>>)
    | HttpError
    | BadFormat
    | ConnectionFailure

  /** The frame `fetch_census_data` returns for a response, given the final
      code list. The errors it catches are reported and answered with an
      empty frame; a connection failure propagates. */
  function ResponseFrame(items: seq<string>, response: Response): (r: Result<Frame>)
    ensures (response.HttpError? || response.BadFormat? || (response.Decoded? && |response.data| < 2)) ==>
      r == Success(EmptyFrame)
    ensures response.ConnectionFailure? ==> r.Failure?
    ensures response.Decoded? && |response.data| >= 2 ==>
      (r.Success? <==> Width(response.data[1..]) == |response.data[0]|)
  {
    match response
    case HttpError => Success(EmptyFrame)
    case BadFormat => Success(EmptyFrame)
    case ConnectionFailure => Failure("ConnectionError")
    case Decoded(data) =>
      if |data| < 2 then Success(EmptyFrame)
      else
        var header := HeaderNames(data[0]);
        var body := data[1..];
        if Width(body) != |header| then
          Failure("ValueError: " + NatToString(|header|) + " columns passed, passed data had " + NatToString(Width(body)) + " columns")
        else Success(CoerceColumns(RawFrame(header, body), items))
  }

  /** `pd.DataFrame(data[1:], columns=data[0])` before any coercion. */
  function RawFrame(header: seq<string>, body: seq<seq<Value>>): (f: Frame)
    ensures f.columns == header && |f.rows| == |body|
    ensures forall i :: 0 <= i < |body| ==> f.rows[i] == BuildRow(header, body[i])
  {
    Frame(header, seq(|body|, i requires 0 <= i < |body| => BuildRow(header, body[i])))
  }

  /** A decoded response of at least two rows yields a frame whose columns
      are the header and which has one row per remaining response row; under
      distinct labels each listed code's cell is the coerced response cell
      and every other cell is the response cell itself. */
  lemma ResponseCells(items: seq<string>, data: seq<seq<Value>>)
    requires |data| >= 2 && Width(data[1..]) == |data[0]|
    ensures ResponseFrame(items, Decoded(data)).Success?
    ensures ResponseFrame(items, Decoded(data)).value.columns == HeaderNames(data[0])
    ensures |ResponseFrame(items, Decoded(data)).value.rows| == |data| - 1
    ensures forall i, j :: (
      (0 <= i < |data| - 1 && 0 <= j < |data[0]| && (forall k :: j < k < |data[0]| ==> Show(data[0][k]) != Show(data[0][j])))
      ==> (Cell(ResponseFrame(items, Decoded(data)).value.rows[i], Show(data[0][j]))
        == (if Show(data[0][j]) in items && Show(data[0][j]) != "NAME" then ToNumeric(CellAt(data[i + 1], j)) else CellAt(data[i + 1], j))))
  {
    var header := HeaderNames(data[0]);
    var body := data[1..];
    var raw := RawFrame(header, body);
    var f := CoerceColumns(raw, items);
    assert ResponseFrame(items, Decoded(data)) == Success(f);
    forall i, j | (0 <= i < |data| - 1 && 0 <= j < |data[0]|
      && (forall k :: j < k < |data[0]| ==> Show(data[0][k]) != Show(data[0][j])))
      ensures Cell(f.rows[i], Show(data[0][j]))
        == (if Show(data[0][j]) in items && Show(data[0][j]) != "NAME" then ToNumeric(CellAt(data[i + 1], j)) else CellAt(data[i + 1], j))
    {
      assert header[j] == Show(data[0][j]);
      assert forall k :: j < k < |header| ==> header[k] != header[j];
      assert body[i] == data[i + 1];
      assert Cell(raw.rows[i], header[j]) == CellAt(data[i + 1], j);
      assert header[j] in raw.columns;
      CoerceColumnsCells(raw, items, i, header[j]);
    }
  }

  /** `fetch_census_data` once the response is known: an empty code list
      sends nothing; otherwise "NAME" is put first in the caller's list when
      absent, the query is formed from that list, and the response becomes a
      frame whose listed columns are coerced to numbers. */
  method FetchCensusData(vars: VarList, geoFor: string, geoIn: map<string, string>, response: Response)
    returns (request: Option<map<string, string>>, result: Result<Frame>)
    modifies vars
    ensures old(vars.items) == [] ==> vars.items == [] && request.None? && result == Success(EmptyFrame)
    ensures old(vars.items) != [] ==> vars.items == WithName(old(vars.items))
    ensures old(vars.items) != [] ==> request == Some(Params(vars.items, geoFor, geoIn))
    ensures old(vars.items) != [] ==> result == ResponseFrame(vars.items, response)
  {
    if vars.items == [] {
      return None, Success(EmptyFrame);
    }
    if "NAME" !in vars.items {
      vars.items := ["NAME"] + vars.items;
    }
    request := Some(map["get" := Join(vars.items, ","), "for" := geoFor] + geoIn);
    if response.ConnectionFailure? {
      return request, Failure("ConnectionError");
    }
    if !response.Decoded? || |response.data| < 2 {
      return request, Success(EmptyFrame);
    }
    var data := response.data;
    var header := HeaderNames(data[0]);
    var body := data[1..];
    if Width(body) != |header| {
      return request, Failure("ValueError: " + NatToString(|header|) + " columns passed, passed data had " + NatToString(Width(body)) + " columns");
    }
    var frame := CoerceListed(RawFrame(header, body), vars.items);
    return request, Success(frame);
  }

  /** `for col in variables: if col != 'NAME' and col in df.columns: ...` */
  method CoerceListed(raw: Frame, items: seq<string>) returns (frame: Frame)
    ensures frame == CoerceColumns(raw, items)
  {
    frame := raw;
    var k := 0;
    while k < |items|
      invariant 0 <= k <= |items|
      invariant frame == CoerceColumns(raw, items[..k])
    {
      var col := items[k];
      assert items[..k + 1][..k] == items[..k];
      if col != "NAME" && col in frame.columns {
        frame := frame.(rows := CoerceColumn(frame.rows, col));
      }
      k := k + 1;
    }
    assert items[..k] == items;
  }
}
