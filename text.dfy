/** The string sanitiser the request validators apply before measuring a
    field: `trim()` removes leading and trailing characters matched by the
    JavaScript `\s` class. */
module Text {

  /** The JavaScript `\s` class: tab, line feed, vertical tab, form feed,
      carriage return, space, no-break space, ogham space mark, the spaces
      U+2000..U+200A, line and paragraph separators, narrow no-break space,
      medium mathematical space, ideographic space and the byte order mark. */
  predicate IsSpace(c: char) {
    c in SpaceChars || ('\U{2000}' <= c <= '\U{200A}')
  }

  /** The members of the JavaScript `\s` class outside U+2000..U+200A. */
  const SpaceChars: set<char> := {'\t', '\n', '\U{B}', '\U{C}', '\r', ' ', '\U{A0}', '\U{1680}',
                                  '\U{2028}', '\U{2029}', '\U{202F}', '\U{205F}', '\U{3000}', '\U{FEFF}'}

  predicate AllSpace(s: string) {
    forall i :: 0 <= i < |s| ==> IsSpace(s[i])
  }

  /** The index of the first character at or after `i` that is not
      whitespace (`|s|` when there is none): everything skipped is
      whitespace. */
  function TrimFrom(s: string, i: nat): (k: nat)
    requires i <= |s|
    ensures i <= k <= |s|
    ensures forall j :: i <= j < k ==> IsSpace(s[j])
    ensures k < |s| ==> !IsSpace(s[k])
    decreases |s| - i
  {
    if i < |s| && IsSpace(s[i]) then TrimFrom(s, i + 1) else i
  }

  /** The end of `s[lo..e]` once its trailing whitespace is cut: everything
      cut is whitespace and the character before the end is not. */
  function TrimTo(s: string, lo: nat, e: nat): (k: nat)
    requires lo <= e <= |s|
    ensures lo <= k <= e
    ensures forall j :: k <= j < e ==> IsSpace(s[j])
    ensures lo < k ==> !IsSpace(s[k - 1])
    decreases e
  {
    if lo < e && IsSpace(s[e - 1]) then TrimTo(s, lo, e - 1) else e
  }

  /** `trim()`: a contiguous piece of `s` with no whitespace at either end,
      everything cut away being whitespace. */
  function Trim(s: string): (r: string)
    ensures |r| <= |s|
    ensures r != [] ==> !IsSpace(r[0]) && !IsSpace(r[|r| - 1])
    ensures exists k :: 0 <= k <= |s| - |r| && r == s[k..k + |r|] && AllSpace(s[..k]) && AllSpace(s[k + |r|..])
  {
    var k := TrimFrom(s, 0);
    var e := TrimTo(s, k, |s|);
    assert AllSpace(s[..k]) && AllSpace(s[e..]);
    s[k..e]
  }

  /** The whitespace run is pinned down by its ends: `TrimFrom` stops at the
      first non-whitespace character and nowhere else. */
  lemma TrimFromAt(s: string, i: nat, k: nat)
    requires i <= k <= |s|
    requires forall j :: i <= j < k ==> IsSpace(s[j])
    requires k < |s| ==> !IsSpace(s[k])
    ensures TrimFrom(s, i) == k
  {
  }

  lemma TrimToAt(s: string, lo: nat, e: nat, k: nat)
    requires lo <= k <= e <= |s|
    requires forall j :: k <= j < e ==> IsSpace(s[j])
    requires lo < k ==> !IsSpace(s[k - 1])
    ensures TrimTo(s, lo, e) == k
  {
  }

  /** A value with no whitespace at either end is its own trim. */
  lemma TrimOfTrimmed(t: string)
    requires t != [] ==> !IsSpace(t[0]) && !IsSpace(t[|t| - 1])
    ensures Trim(t) == t
  {
    TrimFromAt(t, 0, 0);
    TrimToAt(t, 0, |t|, |t|);
  }

  /** Trimming twice is trimming once. */
  lemma TrimIdempotent(s: string)
    ensures Trim(Trim(s)) == Trim(s)
  {
    TrimOfTrimmed(Trim(s));
  }

  /** Trim removes exactly the surrounding whitespace: a value padded with
      whitespace on either side trims back to the value. */
  lemma TrimOfPadded(before: string, t: string, after: string)
    requires AllSpace(before) && AllSpace(after)
    requires t != [] ==> !IsSpace(t[0]) && !IsSpace(t[|t| - 1])
    ensures Trim(before + t + after) == t
  {
    var s := before + t + after;
    var k := |before|;
    var e := |before| + |t|;
    assert forall j :: 0 <= j < k ==> s[j] == before[j];
    assert forall j :: e <= j < |s| ==> s[j] == after[j - e];
    if t == [] {
      TrimFromAt(s, 0, |s|);
      TrimToAt(s, |s|, |s|, |s|);
    } else {
      assert s[k] == t[0] && s[e - 1] == t[|t| - 1];
      TrimFromAt(s, 0, k);
      TrimToAt(s, k, |s|, e);
      assert s[k..e] == t;
    }
  }
}
