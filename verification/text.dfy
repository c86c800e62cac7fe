/** Character-level helpers standing for the Python string methods the
    application relies on: `str.isspace`/`str.strip` (form fields strip their
    input), `str.lower` restricted to ASCII letters, and the substring test
    `in`. */
module Text {

  /** Python's `str.isspace`: the Unicode white-space characters. */
  predicate IsSpace(c: char)
  {
    var n := c as int;
    (9 <= n <= 13) || (28 <= n <= 32) || n == 0x85 || n == 0xA0 || n == 0x1680
    || (0x2000 <= n <= 0x200A) || n == 0x2028 || n == 0x2029 || n == 0x202F
    || n == 0x205F || n == 0x3000
  }

  /** Every character of `s` is white space (vacuously true of ""). */
  predicate AllSpace(s: string)
  {
    forall k :: 0 <= k < |s| ==> IsSpace(s[k])
  }

  /** The number of white-space characters `s` starts with. */
  function LeadingSpace(s: string): (k: nat)
    ensures k <= |s|
    ensures forall j :: 0 <= j < k ==> IsSpace(s[j])
    ensures k < |s| ==> !IsSpace(s[k])
  {
    if |s| > 0 && IsSpace(s[0]) then 1 + LeadingSpace(s[1..]) else 0
  }

  /** The number of white-space characters `s` ends with. */
  function TrailingSpace(s: string): (k: nat)
    ensures k <= |s|
    ensures forall j :: |s| - k <= j < |s| ==> IsSpace(s[j])
    ensures k < |s| ==> !IsSpace(s[|s| - k - 1])
  {
    if |s| > 0 && IsSpace(s[|s| - 1]) then 1 + TrailingSpace(s[..|s| - 1]) else 0
  }

  /** `s[i..j]` is what is left of `s` once the white space at both ends is
      dropped: everything outside is white space, and the slice neither
      starts nor ends with white space. */
  predicate Trimmed(s: string, i: int, j: int)
  {
    && 0 <= i <= j <= |s|
    && (forall k :: 0 <= k < i ==> IsSpace(s[k]))
    && (forall k :: j <= k < |s| ==> IsSpace(s[k]))
    && (i < j ==> !IsSpace(s[i]) && !IsSpace(s[j - 1]))
  }

  /** `s.strip()`. */
  function Strip(s: string): (r: string)
    ensures |r| <= |s|
    ensures exists i, j :: Trimmed(s, i, j) && r == s[i..j]
  {
    var i := LeadingSpace(s);
    var u := s[i..];
    var k := TrailingSpace(u);
    TrimmedByRuns(s, i, u, k);
    s[i..|s| - k]
  }

  /** A leading run of white space, then a trailing run of what follows it,
      mark a slice that `Trimmed` describes. */
  lemma TrimmedByRuns(s: string, i: nat, u: string, k: nat)
    requires i <= |s| && u == s[i..]
    requires forall m :: 0 <= m < i ==> IsSpace(s[m])
    requires i < |s| ==> !IsSpace(s[i])
    requires k <= |u|
    requires forall m :: |u| - k <= m < |u| ==> IsSpace(u[m])
    requires k < |u| ==> !IsSpace(u[|u| - k - 1])
    ensures Trimmed(s, i, |s| - k)
  {
    var j := |s| - k;
    forall m | j <= m < |s| ensures IsSpace(s[m]) {
      assert s[m] == u[m - i];
    }
    assert j < |s| ==> u[|u| - k - 1] == s[j - 1];
  }

  /** A form field is blank exactly when the stripped text is empty, which
      happens exactly when the text is nothing but white space. */
  lemma StripEmptyIffAllSpace(s: string)
    ensures Strip(s) == [] <==> AllSpace(s)
  {
    var r := Strip(s);
    var i, j :| Trimmed(s, i, j) && r == s[i..j];
    if !AllSpace(s) {
      var k :| 0 <= k < |s| && !IsSpace(s[k]);
      assert i <= k < j;
    }
  }

  /** The character every Django text field refuses ("Null characters are not
      allowed."). */
  const NullChar: char := '\0'

  /** Stripping keeps a null character, since it is not white space. */
  lemma StripKeepsNullChar(s: string)
    ensures NullChar in Strip(s) <==> NullChar in s
  {
    var r := Strip(s);
    var i, j :| Trimmed(s, i, j) && r == s[i..j];
    if NullChar in s {
      var k :| 0 <= k < |s| && s[k] == NullChar;
      assert !IsSpace(s[k]);
      assert r[k - i] == s[k];
    }
  }

  /** Lower-casing of the ASCII letters only; every other character is left
      as it is (Python's `str.lower` also folds non-ASCII letters). */
  function LowerChar(c: char): (r: char)
    ensures 'A' <= c <= 'Z' ==> r as int == c as int + 32
    ensures !('A' <= c <= 'Z') ==> r == c
  {
    if 'A' <= c <= 'Z' then (c as int + 32) as char else c
  }

  function Lower(s: string): (r: string)
    ensures |r| == |s|
    ensures forall k :: 0 <= k < |s| ==> r[k] == LowerChar(s[k])
  {
    if |s| == 0 then [] else [LowerChar(s[0])] + Lower(s[1..])
  }

  /** Lower-casing twice is lower-casing once. */
  lemma LowerIdempotent(s: string)
    ensures Lower(Lower(s)) == Lower(s)
  {
  }

  /** `pat` occurs in `s` at position `i`. */
  predicate OccursAt(pat: string, s: string, i: int)
  {
    0 <= i && i + |pat| <= |s| && s[i..i + |pat|] == pat
  }

  /** `pat` occurs somewhere in `s`. */
  ghost predicate Occurs(pat: string, s: string)
  {
    exists i :: OccursAt(pat, s, i)
  }

  /** Python's `pat in s`, computed by scanning `s` from the left. */
  function Contains(pat: string, s: string): (r: bool)
    ensures r <==> Occurs(pat, s)
    decreases |s|
  {
    if |pat| <= |s| && s[..|pat|] == pat then
      assert OccursAt(pat, s, 0);
      true
    else if |s| <= |pat| then
      assert forall i :: !OccursAt(pat, s, i);
      false
    else
      var r := Contains(pat, s[1..]);
      assert r ==> exists i :: OccursAt(pat, s, i) by {
        if r {
          var i :| OccursAt(pat, s[1..], i);
          assert s[1..][i..i + |pat|] == s[i + 1..i + 1 + |pat|];
          assert OccursAt(pat, s, i + 1);
        }
      }
      assert (exists i :: OccursAt(pat, s, i)) ==> r by {
        if exists i :: OccursAt(pat, s, i) {
          var i :| OccursAt(pat, s, i);
          assert i != 0;
          assert s[1..][i - 1..i - 1 + |pat|] == s[i..i + |pat|];
          assert OccursAt(pat, s[1..], i - 1);
        }
      }
      r
  }
}
