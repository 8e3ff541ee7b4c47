/** The tabular data every page works on: a table is an ordered sequence of
    rows, a row maps column names to cells, and a cell is text, a number or
    missing (pandas' NaN). A column a row does not have reads as missing. */
module Tables {
  import opened Strings

  datatype Value = Text(s: string) | Num(n: int) | Missing

  type Row = map<string, Value>
  type Table = seq<Row>

  function Cell(r: Row, col: string): Value {
    if col in r then r[col] else Missing
  }

  /** Python truthiness of a cell: the empty string and zero are false; NaN is true. */
  predicate Truthy(v: Value) {
    match v
    case Text(s) => s != ""
    case Num(n) => n != 0
    case Missing => true
  }

  /** f-string rendering of a cell. */
  function Show(v: Value): string {
    match v
    case Text(s) => s
    case Num(n) => IntToString(n)
    case Missing => "nan"
  }

  // ---------------------------------------------------------------------
  // Ordering, as Python's `sorted` compares the values of one column

  /** Python's `<` on str: lexicographic by code point. */
  predicate StrLt(a: string, b: string)
    decreases |a|
  {
    if a == [] then b != []
    else b != [] && (a[0] < b[0] || (a[0] == b[0] && StrLt(a[1..], b[1..])))
  }

  lemma {:induction false} StrLtIrreflexive(a: string)
    ensures !StrLt(a, a)
    decreases |a|
  {
    if a != [] { StrLtIrreflexive(a[1..]); }
  }

  lemma {:induction false} StrLtTransitive(a: string, b: string, c: string)
    requires StrLt(a, b) && StrLt(b, c)
    ensures StrLt(a, c)
    decreases |a|
  {
    if a != [] && a[0] == b[0] && b[0] == c[0] {
      StrLtTransitive(a[1..], b[1..], c[1..]);
    }
  }

  lemma {:induction false} StrLtTotal(a: string, b: string)
    ensures a == b || StrLt(a, b) || StrLt(b, a)
    decreases |a|
  {
    if a != [] && b != [] && a[0] == b[0] {
      StrLtTotal(a[1..], b[1..]);
      if a[1..] == b[1..] {
        assert a == [a[0]] + a[1..] && b == [b[0]] + b[1..];
      }
    }
  }

  /** The order in which sorted() arranges one column: numbers by value,
      texts lexicographically. Columns are homogeneous in the data; the
      places given to missing cells and to mixed kinds only make the order total. */
  predicate Lt(a: Value, b: Value) {
    match (a, b)
    case (Missing, Missing) => false
    case (Missing, _) => true
    case (Num(x), Num(y)) => x < y
    case (Num(_), Text(_)) => true
    case (Text(x), Text(y)) => StrLt(x, y)
    case _ => false
  }

  lemma LtIrreflexive(a: Value)
    ensures !Lt(a, a)
  {
    if a.Text? { StrLtIrreflexive(a.s); }
  }

  lemma LtTransitive(a: Value, b: Value, c: Value)
    requires Lt(a, b) && Lt(b, c)
    ensures Lt(a, c)
  {
    if a.Text? && b.Text? && c.Text? { StrLtTransitive(a.s, b.s, c.s); }
  }

  lemma LtTotal(a: Value, b: Value)
    ensures a == b || Lt(a, b) || Lt(b, a)
  {
    if a.Text? && b.Text? { StrLtTotal(a.s, b.s); }
  }

  predicate StrictlyAscending(s: seq<Value>) {
    forall i, j :: 0 <= i < j < |s| ==> Lt(s[i], s[j])
  }

  predicate StrictlyDescending(s: seq<Value>) {
    forall i, j :: 0 <= i < j < |s| ==> Lt(s[j], s[i])
  }

  /** Inserts `v` into a strictly ascending sequence, unless it is there already. */
  function Insert(s: seq<Value>, v: Value): (r: seq<Value>)
    requires StrictlyAscending(s)
    ensures StrictlyAscending(r)
    ensures forall x :: x in r <==> x in s || x == v
    decreases |s|
  {
    if s == [] then [v]
    else if v == s[0] then s
    else if Lt(v, s[0]) then
      assert forall j :: 0 < j < |s| ==> Lt(v, s[j]) by {
        forall j | 0 < j < |s| { LtTransitive(v, s[0], s[j]); }
      }
      [v] + s
    else
      LtTotal(v, s[0]);
      var tail := Insert(s[1..], v);
      assert forall x :: x in tail ==> Lt(s[0], x) by {
        forall x | x in tail ensures Lt(s[0], x) {
          if x != v { var k :| 0 <= k < |s[1..]| && s[1..][k] == x; assert s[1 + k] == x; }
        }
      }
      [s[0]] + tail
  }

  /** `sorted(set(vals) - {NaN})`: the distinct non-missing values, ascending. */
  function SortedDistinct(vals: seq<Value>): (r: seq<Value>)
    ensures StrictlyAscending(r)
    ensures forall x :: x in r <==> x in vals && x != Missing
    decreases |vals|
  {
    if vals == [] then []
    else
      var rest := SortedDistinct(vals[1..]);
      if vals[0] == Missing then rest else Insert(rest, vals[0])
  }

  function Reverse(s: seq<Value>): (r: seq<Value>)
    ensures |r| == |s| && forall i :: 0 <= i < |s| ==> r[i] == s[|s| - 1 - i]
  {
    seq(|s|, i requires 0 <= i < |s| => s[|s| - 1 - i])
  }

  /** The cells of one column, in row order. */
  function Column(t: Table, col: string): (vs: seq<Value>)
    ensures |vs| == |t| && forall i :: 0 <= i < |t| ==> vs[i] == Cell(t[i], col)
  {
    seq(|t|, i requires 0 <= i < |t| => Cell(t[i], col))
  }

  lemma ColumnMembers(t: Table, col: string)
    ensures forall v :: v in Column(t, col) <==> exists row :: row in t && Cell(row, col) == v
  {
    forall v | v in Column(t, col) ensures exists row :: row in t && Cell(row, col) == v {
      var i :| 0 <= i < |t| && Column(t, col)[i] == v;
      assert t[i] in t;
    }
    forall v | exists row :: row in t && Cell(row, col) == v ensures v in Column(t, col) {
      var row :| row in t && Cell(row, col) == v;
      var i :| 0 <= i < |t| && t[i] == row;
      assert Column(t, col)[i] == v;
    }
  }

  /** `sorted(t[col].dropna().unique(), reverse=descending)`. */
  function SortedOptions(t: Table, col: string, descending: bool): (r: seq<Value>)
    ensures !descending ==> StrictlyAscending(r)
    ensures descending ==> StrictlyDescending(r)
    ensures forall v :: v in r <==> v != Missing && exists row :: row in t && Cell(row, col) == v
  {
    var asc := SortedDistinct(Column(t, col));
    ColumnMembers(t, col);
    if descending then
      var d := Reverse(asc);
      assert forall v :: v in d <==> v in asc by {
        forall v | v in asc ensures v in d {
          var i :| 0 <= i < |asc| && asc[i] == v;
          assert d[|asc| - 1 - i] == v;
        }
      }
      d
    else asc
  }

  predicate NoDuplicates(s: seq<Value>) {
    forall i, j :: 0 <= i < j < |s| ==> s[i] != s[j]
  }

  /** The position where `x` first appears in `s`. */
  function FirstIndex(s: seq<Value>, x: Value): (i: nat)
    requires x in s
    ensures i < |s| && s[i] == x
    ensures forall k :: 0 <= k < i ==> s[k] != x
    decreases |s|
  {
    if s[0] == x then 0 else 1 + FirstIndex(s[1..], x)
  }

  /** Every element of `r` occurs in `vals`, and `r` lists them in the order
      in which they first appear there. */
  predicate FirstAppearanceOrder(r: seq<Value>, vals: seq<Value>) {
    && (forall x :: x in r ==> x in vals)
    && (forall i, j :: 0 <= i < j < |r| ==> FirstIndex(vals, r[i]) < FirstIndex(vals, r[j]))
  }

  /** A value met in a prefix is first met at the same position in the whole. */
  lemma FirstIndexPrefix(s: seq<Value>, n: nat, x: Value)
    requires n <= |s| && x in s[..n]
    ensures FirstIndex(s, x) == FirstIndex(s[..n], x)
  {
    var i := FirstIndex(s[..n], x);
    assert s[i] == x;
    assert forall k :: 0 <= k < i ==> s[k] == s[..n][k];
  }

  /** pandas' `unique()`: each distinct value once, in order of first appearance. */
  function Unique(vals: seq<Value>): (r: seq<Value>)
    ensures NoDuplicates(r)
    ensures forall x :: x in r <==> x in vals
    ensures FirstAppearanceOrder(r, vals)
    ensures r != [] ==> vals != [] && r[0] == vals[0]
    decreases |vals|
  {
    if vals == [] then []
    else
      var n := |vals| - 1;
      var u := Unique(vals[..n]);
      assert vals == vals[..n] + [vals[n]];
      UniqueStep(vals, u);
      if vals[n] in u then u else u + [vals[n]]
  }

  /** One more value keeps the first-appearance order: earlier values keep
      their positions, and a new value comes last. */
  lemma UniqueStep(vals: seq<Value>, u: seq<Value>)
    requires vals != []
    requires forall x :: x in u <==> x in vals[..|vals| - 1]
    requires FirstAppearanceOrder(u, vals[..|vals| - 1])
    ensures FirstAppearanceOrder(u, vals)
    ensures vals[|vals| - 1] !in u ==> FirstAppearanceOrder(u + [vals[|vals| - 1]], vals)
  {
    var n := |vals| - 1;
    forall x | x in u ensures FirstIndex(vals, x) == FirstIndex(vals[..n], x) && FirstIndex(vals, x) < n {
      FirstIndexPrefix(vals, n, x);
    }
    if vals[n] !in u {
      assert FirstIndex(vals, vals[n]) == n;
      var r := u + [vals[n]];
      assert forall k :: 0 <= k < |r| ==> r[k] in vals by {
        forall k | 0 <= k < |r| ensures r[k] in vals {
          if k < |u| { assert r[k] == u[k] && u[k] in vals[..n]; }
        }
      }
      forall i, j | 0 <= i < j < |r| ensures FirstIndex(vals, r[i]) < FirstIndex(vals, r[j]) {
        assert r[i] == u[i];
        if j < |u| { assert r[j] == u[j]; }
      }
    }
  }

  /** `[v for v in t[col].dropna().unique() if v]`, the sources and notes of
      a dashboard: in the order they first appear in the column. */
  function PresentValues(t: Table, col: string): (r: seq<Value>)
    ensures NoDuplicates(r)
    ensures forall v :: v in r <==> v != Missing && Truthy(v) && exists row :: row in t && Cell(row, col) == v
    ensures FirstAppearanceOrder(r, Column(t, col))
  {
    var u := Unique(Column(t, col));
    var r := FilterValues(u);
    ColumnMembers(t, col);
    FilterValuesOrder(u, Column(t, col));
    r
  }

  /** Keeps the non-missing, truthy values, in order. */
  function FilterValues(vs: seq<Value>): (r: seq<Value>)
    requires NoDuplicates(vs)
    ensures NoDuplicates(r)
    ensures forall v :: v in r <==> v in vs && v != Missing && Truthy(v)
    decreases |vs|
  {
    if vs == [] then []
    else
      var rest := FilterValues(vs[1..]);
      assert vs[0] !in vs[1..];
      if vs[0] != Missing && Truthy(vs[0]) then [vs[0]] + rest else rest
  }

  /** Dropping values keeps the first-appearance order of the rest. */
  lemma {:induction false} FilterValuesOrder(vs: seq<Value>, vals: seq<Value>)
    requires NoDuplicates(vs) && FirstAppearanceOrder(vs, vals)
    ensures FirstAppearanceOrder(FilterValues(vs), vals)
    decreases |vs|
  {
    if vs != [] {
      var tail := vs[1..];
      OrderTail(vs, vals);
      FilterValuesOrder(tail, vals);
      var rest := FilterValues(tail);
      if vs[0] != Missing && Truthy(vs[0]) {
        forall k | 0 <= k < |rest| ensures FirstIndex(vals, vs[0]) < FirstIndex(vals, rest[k]) {
          assert rest[k] in tail;
          var m :| 0 <= m < |tail| && tail[m] == rest[k];
          assert vs[m + 1] == rest[k];
        }
        OrderCons(vs[0], rest, vals);
      }
    }
  }

  lemma OrderTail(vs: seq<Value>, vals: seq<Value>)
    requires vs != [] && FirstAppearanceOrder(vs, vals)
    ensures FirstAppearanceOrder(vs[1..], vals)
  {
    var tail := vs[1..];
    forall i, j | 0 <= i < j < |tail| ensures FirstIndex(vals, tail[i]) < FirstIndex(vals, tail[j]) {
      assert tail[i] == vs[i + 1] && tail[j] == vs[j + 1];
    }
  }

  lemma OrderCons(x: Value, rest: seq<Value>, vals: seq<Value>)
    requires x in vals && FirstAppearanceOrder(rest, vals)
    requires forall k :: 0 <= k < |rest| ==> FirstIndex(vals, x) < FirstIndex(vals, rest[k])
    ensures FirstAppearanceOrder([x] + rest, vals)
  {
    var r := [x] + rest;
    forall i, j | 0 <= i < j < |r| ensures FirstIndex(vals, r[i]) < FirstIndex(vals, r[j]) {
      assert r[j] == rest[j - 1];
      if i > 0 { assert r[i] == rest[i - 1]; }
    }
  }

  // ---------------------------------------------------------------------
  // Row selection (boolean masks)

  /** `t[mask]` (and a list comprehension with an `if`): the elements
      satisfying `p`, in their original order. */
  function Filter<T(!new)>(t: seq<T>, p: T -> bool): (r: seq<T>)
    ensures |r| <= |t|
    ensures forall x :: x in r <==> x in t && p(x)
    decreases |t|
  {
    if t == [] then []
    else
      var rest := Filter(t[1..], p);
      assert t == [t[0]] + t[1..];
      if p(t[0]) then [t[0]] + rest else rest
  }

  /** Filtering keeps the relative order of elements: it distributes over concatenation. */
  lemma {:induction false} FilterAppend<T(!new)>(a: seq<T>, b: seq<T>, p: T -> bool)
    ensures Filter(a + b, p) == Filter(a, p) + Filter(b, p)
    decreases |a|
  {
    if a == [] {
      assert a + b == b;
    } else {
      FilterAppend(a[1..], b, p);
      FilterAppendHead(a, b, p);
      if p(a[0]) {
        ConsAssoc(a[0], Filter(a[1..], p), Filter(b, p));
      }
    }
  }

  lemma FilterAppendHead<T(!new)>(a: seq<T>, b: seq<T>, p: T -> bool)
    requires a != []
    ensures Filter(a + b, p) == if p(a[0]) then [a[0]] + Filter(a[1..] + b, p) else Filter(a[1..] + b, p)
  {
    assert (a + b)[0] == a[0] && (a + b)[1..] == a[1..] + b;
  }

  lemma ConsAssoc<T>(x: T, u: seq<T>, v: seq<T>)
    ensures [x] + (u + v) == ([x] + u) + v
  {
  }

  /** Two masks that agree on every element select the same elements. */
  lemma {:induction false} FilterExt<T(!new)>(t: seq<T>, p: T -> bool, q: T -> bool)
    requires forall x :: x in t ==> p(x) == q(x)
    ensures Filter(t, p) == Filter(t, q)
    decreases |t|
  {
    if t != [] {
      assert forall x :: x in t[1..] ==> x in t;
      FilterExt(t[1..], p, q);
    }
  }

  /** Narrowing by `p` and then by `q` is narrowing once by both. */
  lemma {:induction false} FilterCompose<T(!new)>(t: seq<T>, p: T -> bool, q: T -> bool, pq: T -> bool)
    requires forall x :: pq(x) == (p(x) && q(x))
    ensures Filter(Filter(t, p), q) == Filter(t, pq)
    decreases |t|
  {
    if t != [] {
      FilterCompose(t[1..], p, q, pq);
    }
  }

  /** pandas' `==` against a value: true only when the cell holds that value (NaN equals nothing). */
  predicate CellEq(r: Row, col: string, v: Value) {
    Cell(r, col) == v && v != Missing
  }

  // ---------------------------------------------------------------------
  // Numeric coercion

  /** A text pandas' `to_numeric` reads as an integer: an optional sign and decimal digits. */
  predicate IsIntLiteral(s: string) {
    var d := if |s| > 0 && (s[0] == '-' || s[0] == '+') then s[1..] else s;
    |d| > 0 && forall i :: 0 <= i < |d| ==> IsDigit(d[i])
  }

  function IntLiteralValue(s: string): int
    requires IsIntLiteral(s)
  {
    if s[0] == '-' then 0 - DigitsValue(s[1..])
    else if s[0] == '+' then DigitsValue(s[1..])
    else DigitsValue(s)
  }

  /** `pd.to_numeric(v, errors='coerce')`: numbers stay, integer texts are
      parsed, everything else becomes missing. */
  function ToNumeric(v: Value): (r: Value)
    ensures r.Num? || r.Missing?
    ensures v.Num? ==> r == v
    ensures v.Missing? ==> r.Missing?
  {
    match v
    case Num(_) => v
    case Missing => Missing
    case Text(s) => if IsIntLiteral(s) then Num(IntLiteralValue(s)) else Missing
  }

  /** Rendering an integer and coercing it back gives the same number. */
  lemma ToNumericShow(n: int)
    ensures ToNumeric(Text(IntToString(n))) == Num(n)
  {
    if n < 0 {
      ToNumericDigits(-n);
      var t := NatToString(-n);
      var s := "-" + t;
      assert s[0] == '-' && s[1..] == t;
      assert IsIntLiteral(s);
      assert IntLiteralValue(s) == 0 - DigitsValue(t);
    } else {
      ToNumericDigits(n);
    }
  }

  /** A digit string is an integer literal of its own value. */
  lemma ToNumericDigits(n: nat)
    ensures IsIntLiteral(NatToString(n)) && IntLiteralValue(NatToString(n)) == n
    ensures DigitsValue(NatToString(n)) == n
  {
    var s := NatToString(n);
    DigitsOfNat(n);
    assert IsDigit(s[0]);
    assert s[0] != '-' && s[0] != '+';
  }

  /** Replaces one cell of a row. */
  function SetCell(r: Row, col: string, v: Value): Row {
    r[col := v]
  }

  /** The first sorted county, or "Dutchess" when offered: the default of
      every county picker. */
  function DefaultCounty(counties: seq<Value>): (c: Value)
    requires |counties| > 0
    ensures c in counties
    ensures Text("Dutchess") in counties ==> c == Text("Dutchess")
    ensures Text("Dutchess") !in counties ==> c == counties[0]
  {
    if Text("Dutchess") in counties then Text("Dutchess") else counties[0]
  }
}
