/** Python's `html.escape(s)` (with its default `quote=True`) and the
    `.replace('\n', '<br>')` the CHIP report applies after it, each with the
    inverse that recovers the user's text. */
module Html {
  import opened Strings

  /** The replacement of one character: `&`, `<`, `>`, `"` and `'` become
      entities, every other character stays. */
  function EscapeChar(c: char): string {
    if c == '&' then "&amp;"
    else if c == '<' then "&lt;"
    else if c == '>' then "&gt;"
    else if c == '"' then "&quot;"
    else if c == '\'' then "&#x27;"
    else [c]
  }

  function Escape(s: string): (r: string)
    ensures |r| >= |s|
    ensures forall i :: 0 <= i < |r| ==> r[i] != '<' && r[i] != '>' && r[i] != '"' && r[i] != '\''
    ensures '\n' !in s ==> '\n' !in r
    decreases |s|
  {
    if s == [] then [] else EscapeChar(s[0]) + Escape(s[1..])
  }

  /** Reads the entities `Escape` produces back into characters. */
  function Unescape(s: string): string
    decreases |s|
  {
    if s == [] then []
    else if StartsWith(s, "&amp;") then "&" + Unescape(s[5..])
    else if StartsWith(s, "&lt;") then "<" + Unescape(s[4..])
    else if StartsWith(s, "&gt;") then ">" + Unescape(s[4..])
    else if StartsWith(s, "&quot;") then "\"" + Unescape(s[6..])
    else if StartsWith(s, "&#x27;") then "'" + Unescape(s[6..])
    else [s[0]] + Unescape(s[1..])
  }

  /** Unescaping reads one escaped character back off the front. */
  lemma UnescapeHead(c: char, rest: string)
    ensures Unescape(EscapeChar(c) + rest) == [c] + Unescape(rest)
  {
    if c == '&' {
      UnescapeAmp(rest);
    } else if c == '<' {
      UnescapeLt(rest);
    } else if c == '>' {
      UnescapeGt(rest);
    } else if c == '"' {
      UnescapeQuot(rest);
    } else if c == '\'' {
      UnescapeApos(rest);
    } else {
      UnescapePlain(c, rest);
    }
  }

  lemma UnescapeAmp(rest: string)
    ensures Unescape("&amp;" + rest) == "&" + Unescape(rest)
  {
    var r := "&amp;" + rest;
    assert r[..5] == "&amp;" && r[5..] == rest;
  }

  /** Text not starting with `&` is read one character at a time. */
  lemma UnescapePlain(c: char, rest: string)
    requires c != '&'
    ensures Unescape([c] + rest) == [c] + Unescape(rest)
  {
    var r := [c] + rest;
    assert r[0] == c && r[1..] == rest;
    NoEntityAt(r);
  }

  /** No entity starts at a character other than `&`. */
  lemma NoEntityAt(r: string)
    requires r != [] && r[0] != '&'
    ensures !StartsWith(r, "&amp;") && !StartsWith(r, "&lt;") && !StartsWith(r, "&gt;")
    ensures !StartsWith(r, "&quot;") && !StartsWith(r, "&#x27;")
  {
    assert forall p: string :: |p| > 0 && StartsWith(r, p) ==> r[0] == p[0] by {
      forall p: string | |p| > 0 && StartsWith(r, p) ensures r[0] == p[0] {
        assert r[..|p|][0] == r[0];
      }
    }
  }

  lemma UnescapeLt(rest: string)
    ensures Unescape("&lt;" + rest) == "<" + Unescape(rest)
  {
    var r := "&lt;" + rest;
    assert r[..4] == "&lt;" && r[4..] == rest;
    assert !StartsWith(r, "&amp;") by { assert r[1] == 'l'; }
  }

  lemma UnescapeGt(rest: string)
    ensures Unescape("&gt;" + rest) == ">" + Unescape(rest)
  {
    var r := "&gt;" + rest;
    assert r[..4] == "&gt;" && r[4..] == rest;
    assert !StartsWith(r, "&amp;") by { assert r[1] == 'g'; }
    assert !StartsWith(r, "&lt;") by { assert r[1] == 'g'; }
  }

  lemma UnescapeQuot(rest: string)
    ensures Unescape("&quot;" + rest) == "\"" + Unescape(rest)
  {
    var r := "&quot;" + rest;
    assert r[..6] == "&quot;" && r[6..] == rest;
    assert !StartsWith(r, "&amp;") && !StartsWith(r, "&lt;") && !StartsWith(r, "&gt;") by { assert r[1] == 'q'; }
  }

  lemma UnescapeApos(rest: string)
    ensures Unescape("&#x27;" + rest) == "'" + Unescape(rest)
  {
    var r := "&#x27;" + rest;
    assert r[..6] == "&#x27;" && r[6..] == rest;
    assert !StartsWith(r, "&amp;") && !StartsWith(r, "&lt;") && !StartsWith(r, "&gt;") by { assert r[1] == '#'; }
    assert !StartsWith(r, "&quot;") by { assert r[1] == '#'; }
  }

  /** Escaping loses nothing: the user's text is recovered from the page. */
  lemma {:induction false} UnescapeEscape(s: string)
    ensures Unescape(Escape(s)) == s
    decreases |s|
  {
    if s != [] {
      UnescapeHead(s[0], Escape(s[1..]));
      UnescapeEscape(s[1..]);
    }
  }

  /** `s.replace('\n', '<br>')`, one character at a time. */
  function Breaks(s: string): (r: string)
    decreases |s|
  {
    if s == [] then [] else (if s[0] == '\n' then "<br>" else [s[0]]) + Breaks(s[1..])
  }

  /** For the one-character pattern, `Breaks` is Python's `replace`. */
  lemma {:induction false} BreaksIsReplace(s: string)
    ensures Breaks(s) == ReplaceAll(s, "\n", "<br>")
    decreases |s|
  {
    if s != [] {
      BreaksIsReplace(s[1..]);
      assert s[..1] == [s[0]];
    }
  }

  /** Turns each `<br>` back into a newline. */
  function Unbreak(s: string): string
    decreases |s|
  {
    if s == [] then []
    else if StartsWith(s, "<br>") then "\n" + Unbreak(s[4..])
    else [s[0]] + Unbreak(s[1..])
  }

  /** In text without `<`, every `<br>` came from a newline. */
  lemma {:induction false} UnbreakBreaks(s: string)
    requires forall i :: 0 <= i < |s| ==> s[i] != '<'
    ensures Unbreak(Breaks(s)) == s
    decreases |s|
  {
    if s != [] {
      var head: string := if s[0] == '\n' then "<br>" else [s[0]];
      var r := head + Breaks(s[1..]);
      assert r[..|head|] == head && r[|head|..] == Breaks(s[1..]);
      UnbreakBreaks(s[1..]);
      if s[0] == '\n' {
        assert StartsWith(r, "<br>");
      } else {
        assert r[0] == s[0];
        assert !StartsWith(r, "<br>");
      }
    }
  }

  /** Activity and partner cells: escaped, then line breaks as `<br>`. */
  function MultilineCell(s: string): (r: string)
    ensures forall i :: 0 <= i < |r| ==> r[i] != '\n'
  {
    BreaksIsReplace(Escape(s));
    NoNewlineAfterBreaks(Escape(s));
    ReplaceAll(Escape(s), "\n", "<br>")
  }

  lemma {:induction false} NoNewlineAfterBreaks(s: string)
    ensures forall i :: 0 <= i < |Breaks(s)| ==> Breaks(s)[i] != '\n'
    decreases |s|
  {
    if s != [] {
      NoNewlineAfterBreaks(s[1..]);
      var head: string := if s[0] == '\n' then "<br>" else [s[0]];
      forall i | 0 <= i < |Breaks(s)| ensures Breaks(s)[i] != '\n' {
        if i >= |head| {
          assert Breaks(s)[i] == Breaks(s[1..])[i - |head|];
        }
      }
    }
  }

  /** The cell's text is recovered exactly, line breaks included. */
  lemma MultilineCellRoundTrip(s: string)
    ensures Unescape(Unbreak(MultilineCell(s))) == s
  {
    BreaksIsReplace(Escape(s));
    UnbreakBreaks(Escape(s));
    UnescapeEscape(s);
  }
}
