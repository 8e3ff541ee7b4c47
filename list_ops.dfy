/** Removal from a session list: the report pages collect the indices whose
    remove button was pressed and pop them in descending order, but each pop
    is followed by `st.rerun()`, which ends the script run, so only the
    highest marked index is removed in one run. */
module ListOps {

  function MaxOf(xs: seq<nat>): (m: nat)
    requires xs != []
    ensures m in xs && forall x :: x in xs ==> x <= m
  {
    if |xs| == 1 then xs[0]
    else
      var rest := MaxOf(xs[1..]);
      assert forall x :: x in xs[1..] ==> x <= rest;
      assert forall x :: x in xs ==> x == xs[0] || x in xs[1..];
      if xs[0] >= rest then xs[0] else rest
  }

  /** `list.pop(i)`: exactly the entry at index i goes; the others keep their order. */
  function RemoveAt<T>(s: seq<T>, i: nat): (r: seq<T>)
    requires i < |s|
    ensures |r| == |s| - 1
    ensures forall j :: 0 <= j < i ==> r[j] == s[j]
    ensures forall j :: i <= j < |r| ==> r[j] == s[j + 1]
    ensures multiset(r) + multiset{s[i]} == multiset(s)
  {
    assert s == s[..i] + [s[i]] + s[i + 1..];
    s[..i] + s[i + 1..]
  }

  /** Removing what was just appended gives back the list. */
  lemma AppendThenRemove<T>(s: seq<T>, x: T)
    ensures RemoveAt(s + [x], |s|) == s
  {
    assert (s + [x])[..|s|] == s;
  }

  /** The list after one run of the removal loop. */
  function AfterRemoval<T>(s: seq<T>, marked: seq<nat>): (r: seq<T>)
    requires forall i :: i in marked ==> i < |s|
    ensures marked == [] ==> r == s
    ensures marked != [] ==> |r| == |s| - 1
  {
    if marked == [] then s else RemoveAt(s, MaxOf(marked))
  }
}
