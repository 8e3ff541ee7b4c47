/** Census variable metadata: the label cleaner `clean_variable_label` and
    the code filter of `fetch_census_variables`. */
module CensusLabels {
  import opened Wrappers
  import opened Strings
  import opened Tables

  /** No two consecutive exclamation marks. */
  predicate NoBangBang(s: string) {
    forall i :: 0 <= i < |s| - 1 ==> !(s[i] == '!' && s[i + 1] == '!')
  }

  /** `re.sub(r'\s+', ' ', s)`: every run of whitespace becomes one blank. */
  function Collapse(s: string): (r: string)
    ensures SpacesNormal(r)
    ensures s == [] <==> r == []
    ensures s != [] ==> r[0] == (if IsSpace(s[0]) then ' ' else s[0])
    decreases |s|
  {
    if s == [] then []
    else if IsSpace(s[0]) then
      var rest := LStrip(s);
      assert |rest| < |s|;
      " " + Collapse(rest)
    else [s[0]] + Collapse(s[1..])
  }

  /** Text whose whitespace is already single blanks is left unchanged. */
  lemma {:induction false} CollapseNormal(s: string)
    requires SpacesNormal(s)
    ensures Collapse(s) == s
    decreases |s|
  {
    if s != [] {
      assert SpacesNormal(s[1..]) by {
        forall i | 0 <= i < |s[1..]| && IsSpace(s[1..][i])
          ensures s[1..][i] == ' ' && (i + 1 < |s[1..]| ==> !IsSpace(s[1..][i + 1]))
        {
          assert s[1..][i] == s[i + 1];
        }
      }
      CollapseNormal(s[1..]);
      if IsSpace(s[0]) {
        assert |s| > 1 ==> !IsSpace(s[1]);
        assert LStrip(s[1..]) == s[1..];
        assert LStrip(s) == s[1..];
        assert s == " " + s[1..];
      } else {
        assert s == [s[0]] + s[1..];
      }
    }
  }

  /** Replacing "!!" by " | " leaves no "!!": the first character of the
      result is the blank of a replacement or the input's own first one. */
  lemma {:induction false} ReplaceBangsHead(s: string)
    requires s != []
    ensures ReplaceAll(s, "!!", " | ") != []
    ensures ReplaceAll(s, "!!", " | ")[0] == (if StartsWith(s, "!!") then ' ' else s[0])
  {
  }

  lemma {:induction false} ReplaceBangsNoBangBang(s: string)
    ensures NoBangBang(ReplaceAll(s, "!!", " | "))
    decreases |s|
  {
    if |s| >= 2 {
      if s[..2] == "!!" {
        ReplaceBangsNoBangBang(s[2..]);
        var rest := ReplaceAll(s[2..], "!!", " | ");
        assert ReplaceAll(s, "!!", " | ") == " | " + rest;
        assert forall i :: 3 <= i < |" | " + rest| ==> (" | " + rest)[i] == rest[i - 3];
      } else {
        ReplaceBangsNoBangBang(s[1..]);
        ReplaceBangsHead(s[1..]);
        var rest := ReplaceAll(s[1..], "!!", " | ");
        assert ReplaceAll(s, "!!", " | ") == [s[0]] + rest;
        assert s[0] == '!' ==> s[1] != '!';
        assert s[0] == '!' ==> !StartsWith(s[1..], "!!");
        assert forall i :: 1 <= i < |[s[0]] + rest| ==> ([s[0]] + rest)[i] == rest[i - 1];
      }
    }
  }

  lemma SuffixNoBangBang(s: string, k: nat)
    requires k <= |s| && NoBangBang(s)
    ensures NoBangBang(s[k..])
  {
    forall i | 0 <= i < |s[k..]| - 1 ensures !(s[k..][i] == '!' && s[k..][i + 1] == '!') {
      assert s[k..][i] == s[k + i] && s[k..][i + 1] == s[k + i + 1];
    }
  }

  lemma {:induction false} CollapseNoBangBang(s: string)
    requires NoBangBang(s)
    ensures NoBangBang(Collapse(s))
    decreases |s|
  {
    if s != [] {
      if IsSpace(s[0]) {
        var rest := LStrip(s);
        SuffixNoBangBang(s, |s| - |rest|);
        CollapseNoBangBang(rest);
        var c := Collapse(rest);
        assert Collapse(s) == " " + c;
        assert forall i :: 1 <= i < |" " + c| ==> (" " + c)[i] == c[i - 1];
      } else {
        SuffixNoBangBang(s, 1);
        CollapseNoBangBang(s[1..]);
        var c := Collapse(s[1..]);
        assert Collapse(s) == [s[0]] + c;
        assert s[0] == '!' && |s| > 1 ==> s[1] != '!';
        assert forall i :: 1 <= i < |[s[0]] + c| ==> ([s[0]] + c)[i] == c[i - 1];
      }
    }
  }

  /** `Strip` keeps a slice, and slices keep both properties. */
  lemma StripKeeps(s: string)
    ensures NoBangBang(s) ==> NoBangBang(Strip(s))
    ensures SpacesNormal(s) ==> SpacesNormal(Strip(s))
  {
    var a, b :| 0 <= a <= b <= |s| && Strip(s) == s[a..b];
    SliceNoBangBang(s, a, b);
    SliceSpacesNormal(s, a, b);
  }

  lemma SliceNoBangBang(s: string, a: nat, b: nat)
    requires a <= b <= |s|
    ensures NoBangBang(s) ==> NoBangBang(s[a..b])
  {
    if NoBangBang(s) {
      forall i | 0 <= i < b - a - 1 ensures !(s[a..b][i] == '!' && s[a..b][i + 1] == '!') {
        assert s[a..b][i] == s[a + i] && s[a..b][i + 1] == s[a + i + 1];
      }
    }
  }

  lemma SliceSpacesNormal(s: string, a: nat, b: nat)
    requires a <= b <= |s|
    ensures SpacesNormal(s) ==> SpacesNormal(s[a..b])
  {
    if SpacesNormal(s) {
      var r := s[a..b];
      forall i | 0 <= i < |r| && IsSpace(r[i]) ensures r[i] == ' ' && (i + 1 < |r| ==> !IsSpace(r[i + 1])) {
        assert r[i] == s[a + i];
        if i + 1 < |r| { assert r[i + 1] == s[a + i + 1]; }
      }
    }
  }

  /** A text without "!!" contains no pattern ending in "!!". */
  lemma {:induction false} NoBangBangExcludes(s: string, p: string)
    requires NoBangBang(s) && |p| >= 2 && p[|p| - 2] == '!' && p[|p| - 1] == '!'
    ensures !Contains(s, p)
    decreases |s|
  {
    if s != [] {
      SuffixNoBangBang(s, 1);
      NoBangBangExcludes(s[1..], p);
    }
  }

  /** The three replacements of `clean_variable_label`, in order. */
  function Rewrite(s: string): string {
    ReplaceAll(ReplaceAll(ReplaceAll(s, "Estimate!!", ""), "Total:!!", ""), "!!", " | ")
  }

  /** `clean_variable_label`: "N/A" for a non-string; otherwise "Estimate!!"
      and "Total:!!" deleted, the remaining "!!" turned into " | ",
      whitespace runs collapsed and the ends stripped. */
  function CleanVariableLabel(v: Value): (r: string)
    ensures !v.Text? ==> r == "N/A"
    ensures NoEdgeSpace(r)
  {
    if !v.Text? then "N/A" else Strip(Collapse(Rewrite(v.s)))
  }

  /** A cleaned label has no edge whitespace, only single blanks inside, and
      no "!!". */
  lemma CleanLabelShape(v: Value)
    ensures NoEdgeSpace(CleanVariableLabel(v))
    ensures SpacesNormal(CleanVariableLabel(v))
    ensures !Contains(CleanVariableLabel(v), "!!")
  {
    if v.Text? {
      var x := Rewrite(v.s);
      ReplaceBangsNoBangBang(ReplaceAll(ReplaceAll(v.s, "Estimate!!", ""), "Total:!!", ""));
      CollapseNoBangBang(x);
      StripKeeps(Collapse(x));
      NoBangBangExcludes(CleanVariableLabel(v), "!!");
    } else {
      assert NoBangBang("N/A");
      NoBangBangExcludes("N/A", "!!");
    }
  }

  /** Cleaning a cleaned label changes nothing. */
  lemma CleanLabelIdempotent(v: Value)
    ensures CleanVariableLabel(Text(CleanVariableLabel(v))) == CleanVariableLabel(v)
  {
    var r := CleanVariableLabel(v);
    CleanLabelShape(v);
    NotContainsBangBang(r);
    CleanFixpoint(r);
  }

  lemma {:induction false} NotContainsBangBang(s: string)
    requires !Contains(s, "!!")
    ensures NoBangBang(s)
  {
    if !NoBangBang(s) {
      var i :| 0 <= i < |s| - 1 && s[i] == '!' && s[i + 1] == '!';
      assert s[i..i + 2] == "!!";
      ContainsAt(s, "!!", i);
    }

  }

  /** Text in the cleaned shape is a fixpoint of the cleaner. */
  lemma CleanFixpoint(r: string)
    requires NoBangBang(r) && SpacesNormal(r) && NoEdgeSpace(r)
    ensures CleanVariableLabel(Text(r)) == r
  {
    NoBangBangExcludes(r, "Estimate!!");
    ReplaceAbsent(r, "Estimate!!", "");
    NoBangBangExcludes(r, "Total:!!");
    ReplaceAbsent(r, "Total:!!", "");
    NoBangBangExcludes(r, "!!");
    ReplaceAbsent(r, "!!", " | ");
    assert Rewrite(r) == r;
    CollapseNormal(r);
  }

  /** An occurrence at position `i` is an occurrence. */
  lemma {:induction false} ContainsAt(s: string, p: string, i: nat)
    requires i + |p| <= |s| && s[i..i + |p|] == p
    ensures Contains(s, p)
    decreases i
  {
    if i > 0 {
      assert s[1..][i - 1..i - 1 + |p|] == s[i..i + |p|];
      ContainsAt(s[1..], p, i - 1);
    }
  }

  /** The code filter: a "label" entry, a code ending in "E" or "N", and
      not ending in "A", "M", "MA" or "EA". The last two exclusions are
      implied by the first: what is kept is exactly the codes whose last
      character is "E" or "N". */
  function KeepCode(code: string): (keep: bool)
    ensures keep <==> |code| > 0 && (code[|code| - 1] == 'E' || code[|code| - 1] == 'N')
  {
    !(EndsWith(code, "A") || EndsWith(code, "M") || EndsWith(code, "MA") || EndsWith(code, "EA"))
    && (EndsWith(code, "E") || EndsWith(code, "N"))
  }

  /** `fetch_census_variables` on the decoded "variables" object: each code
      maps to its entry's "label" (None when the entry has none). */
  function FetchCensusVariables(data: map<string, Option<Value>>): (r: map<string, string>)
    ensures forall k :: k in r <==> k in data && data[k].Some? && KeepCode(k)
    ensures forall k :: k in r ==> r[k] == CleanVariableLabel(data[k].value)
  {
    map k | k in data && data[k].Some? && KeepCode(k) :: CleanVariableLabel(data[k].value)
  }

  /** Every label offered for selection is clean. */
  lemma FetchedLabelsClean(data: map<string, Option<Value>>)
    ensures forall k :: k in FetchCensusVariables(data) ==>
      (NoEdgeSpace(FetchCensusVariables(data)[k]) && SpacesNormal(FetchCensusVariables(data)[k])
      && !Contains(FetchCensusVariables(data)[k], "!!"))
  {
    forall k | k in FetchCensusVariables(data)
      ensures NoEdgeSpace(FetchCensusVariables(data)[k]) && SpacesNormal(FetchCensusVariables(data)[k])
        && !Contains(FetchCensusVariables(data)[k], "!!")
    {
      CleanLabelShape(data[k].value);
    }
  }
}
