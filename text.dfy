/** Whitespace trimming, as used by the task list to validate titles
    (the JavaScript `String.prototype.trim` calls of MainFeature.jsx). */
module Text {

  /** The whitespace characters `trim` strips in this model: the ASCII
      whitespace and line terminators, no-break space, the byte-order mark
      and the Unicode line and paragraph separators. */
  const Whitespace: set<char> :=
    {' ', '\t', '\n', '\r', '\U{000B}', '\U{000C}', '\U{00A0}', '\U{FEFF}', '\U{2028}', '\U{2029}'}

  predicate IsSpace(c: char) {
    c in Whitespace
  }

  predicate AllSpace(s: string) {
    forall i :: 0 <= i < |s| ==> IsSpace(s[i])
  }

  /** The first position at or after `i` that does not hold whitespace
      (or `|s|`); everything skipped is whitespace. */
  function SkipStart(s: string, i: nat): (k: nat)
    requires i <= |s|
    ensures i <= k <= |s|
    ensures forall j :: i <= j < k ==> IsSpace(s[j])
    ensures k < |s| ==> !IsSpace(s[k])
    decreases |s| - i
  {
    if i < |s| && IsSpace(s[i]) then SkipStart(s, i + 1) else i
  }

  /** The end of `s[lo..j]` once its trailing whitespace is dropped;
      everything dropped is whitespace. */
  function SkipEnd(s: string, lo: nat, j: nat): (k: nat)
    requires lo <= j <= |s|
    ensures lo <= k <= j
    ensures forall m :: k <= m < j ==> IsSpace(s[m])
    ensures k > lo ==> !IsSpace(s[k - 1])
    decreases j
  {
    if j > lo && IsSpace(s[j - 1]) then SkipEnd(s, lo, j - 1) else j
  }

  /** Where the trimmed text of `s` starts. */
  function TrimOffset(s: string): nat
  {
    SkipStart(s, 0)
  }

  /** `s.trim()`: the contiguous middle of `s` that is left once the
      whitespace runs at both ends are stripped; it neither starts nor ends
      with whitespace. */
  function Trim(s: string): (r: string)
    ensures TrimOffset(s) + |r| <= |s|
    ensures forall i :: 0 <= i < |r| ==> r[i] == s[TrimOffset(s) + i]
    ensures forall i :: 0 <= i < TrimOffset(s) ==> IsSpace(s[i])
    ensures forall i :: TrimOffset(s) + |r| <= i < |s| ==> IsSpace(s[i])
    ensures r != [] ==> !IsSpace(r[0]) && !IsSpace(r[|r| - 1])
  {
    var b := SkipStart(s, 0);
    s[b..SkipEnd(s, b, |s|)]
  }

  /** The falsy test `!s.trim()`: nothing but whitespace is left. */
  predicate IsBlank(s: string) {
    Trim(s) == []
  }

  /** A string is blank exactly when every character is whitespace. */
  lemma BlankIffAllSpace(s: string)
    ensures IsBlank(s) <==> AllSpace(s)
  {
    var r := Trim(s);
    if r != [] {
      assert s[TrimOffset(s)] == r[0];
    }
  }

  /** Trimming a trimmed string changes nothing. */
  lemma TrimIdempotent(s: string)
    ensures Trim(Trim(s)) == Trim(s)
  {
    var r := Trim(s);
    assert SkipStart(r, 0) == 0;
    assert SkipEnd(r, 0, |r|) == |r|;
    assert r[0..|r|] == r;
  }
}
