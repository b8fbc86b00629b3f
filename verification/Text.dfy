/**
 String search shared by the codecs.

 A C++ `std::string` is a Dafny `string`; one `char` stands for one byte.  `Find` is what
 `buf_find` and `getline` look for: the first place of a pattern, or the length of the text.

 `FindInStream` is the fact the incremental parsers rest on: if the text that is still to come
 completes the window to a text in which the pattern first occurs at a known place, then the
 window alone already shows that place, or does not show the pattern at all.
 */
module Text {
  const CR := '\r'
  const LF := '\n'
  const CRLF := "\r\n"
  const DASH := "--"

  /** The limit on header lines. */
  const HEADER_MAX_LENGTH: nat := 8192

  /** `isspace` in the C locale, and what Python strips. */
  predicate IsSpace(c: char) { c == ' ' || '\t' <= c <= '\r' }

  function StripLeft(s: string): (r: string)
    ensures |r| <= |s|
  {
    if s != "" && IsSpace(s[0]) then StripLeft(s[1..]) else s
  }

  predicate OccursAt(s: string, pat: string, i: int) {
    0 <= i && i + |pat| <= |s| && s[i..i + |pat|] == pat
  }

  /** The first place where `pat` occurs in `s`, or `|s|` if it does not occur. */
  function Find(s: string, pat: string): (r: nat)
    requires pat != ""
    ensures r <= |s|
    ensures r < |s| ==> OccursAt(s, pat, r)
    ensures forall j :: 0 <= j < r ==> !OccursAt(s, pat, j)
  {
    FindFrom(s, pat, 0)
  }

  function FindFrom(s: string, pat: string, i: nat): (r: nat)
    requires pat != "" && i <= |s|
    ensures i <= r <= |s|
    ensures r < |s| ==> OccursAt(s, pat, r)
    ensures forall j :: i <= j < r ==> !OccursAt(s, pat, j)
    decreases |s| - i
  {
    if i == |s| || OccursAt(s, pat, i) then i else FindFrom(s, pat, i + 1)
  }

  /** Anything with the defining property of the first occurrence is `Find`. */
  lemma FindIs(s: string, pat: string, i: nat)
    requires pat != ""
    requires OccursAt(s, pat, i)
    requires forall j :: 0 <= j < i ==> !OccursAt(s, pat, j)
    ensures Find(s, pat) == i
  {
    assert Find(s, pat) <= i;
  }

  lemma FindNone(s: string, pat: string)
    requires pat != ""
    requires forall j :: 0 <= j < |s| ==> !OccursAt(s, pat, j)
    ensures Find(s, pat) == |s|
  {
  }

  /** An occurrence in a prefix is an occurrence in the whole, and back if it fits. */
  lemma OccursInPrefix(w: string, r: string, pat: string, i: int)
    ensures OccursAt(w, pat, i) <==> OccursAt(w + r, pat, i) && i + |pat| <= |w|
  {
    if 0 <= i && i + |pat| <= |w| {
      assert (w + r)[i..i + |pat|] == w[i..i + |pat|];
    }
  }

  /**
   The streaming fact behind every scan for a delimiter: when the bytes seen so far are
   a prefix `w` of `a + pat + t`, and `pat` first occurs in `a + pat` at the end of `a`,
   the scan of `w` finds the delimiter exactly when all of it has arrived.
   */
  lemma FindInStream(w: string, r: string, a: string, pat: string, t: string)
    requires pat != ""
    requires w + r == a + pat + t
    requires forall j :: 0 <= j < |a| ==> !OccursAt(a + pat, pat, j)
    ensures Find(w, pat) == if |a| + |pat| <= |w| then |a| else |w|
  {
    forall j | 0 <= j < |a|
      ensures !OccursAt(w, pat, j)
    {
      OccursInPrefix(w, r, pat, j);
      OccursInPrefix(a + pat, t, pat, j);
    }
    if |a| + |pat| <= |w| {
      OccursInPrefix(w, r, pat, |a|);
      assert (a + pat + t)[|a|..|a| + |pat|] == pat;
      FindIs(w, pat, |a|);
    } else {
      FindNone(w, pat);
    }
  }
}
