/**
 `trim`, `split` and `divide`.

 `split` walks over the text once, trims each piece between delimiters and calls back with
 those that are not empty.  `trim` is given positions in the whole text and may walk past the
 piece on either side, when the piece is blank throughout or the delimiter is itself a blank, as
 for a request line: the two ends then cross, and the piece counts as empty.

 `Pieces` is the meaning of the whole: cut at the delimiters, trim, drop the empty ones.
 */
module Splitting {
  import opened Basics

  predicate IsBlank(c: char) { c == ' ' || c == '\t' }

  function TrimLeft(s: string): (r: string)
    ensures |r| <= |s|
  {
    if s != "" && IsBlank(s[0]) then TrimLeft(s[1..]) else s
  }

  function TrimRight(s: string): (r: string)
    ensures |r| <= |s|
  {
    if s != "" && IsBlank(s[|s| - 1]) then TrimRight(s[..|s| - 1]) else s
  }

  function Trim(s: string): string { TrimRight(TrimLeft(s)) }

  /** The first place of `d` in `s`, or `|s|`. */
  function IndexOf(s: string, d: char): (i: nat)
    ensures i <= |s| && (i < |s| ==> s[i] == d)
    ensures forall j :: 0 <= j < i ==> s[j] != d
  {
    if s == "" || s[0] == d then 0 else 1 + IndexOf(s[1..], d)
  }

  function Keep(piece: string): seq<string> { if piece == "" then [] else [piece] }

  /** The trimmed pieces between delimiters, empty ones dropped. */
  function Pieces(s: string, d: char): seq<string>
    decreases |s|
  {
    var i := IndexOf(s, d);
    if i == |s| then Keep(Trim(s)) else Keep(Trim(s[..i])) + Pieces(s[i + 1..], d)
  }

  /** `trim`: moves both ends of `s[left0..right0]` over blanks, perhaps past each other. */
  method TrimRange(s: string, left0: nat, right0: nat) returns (left: nat, right: nat)
    requires left0 <= right0 <= |s|
    ensures left <= |s| && right <= |s|
    ensures (if left < right then s[left..right] else "") == Trim(s[left0..right0])
  {
    left, right := left0, right0;
    while left < |s| && IsBlank(s[left])
      invariant left0 <= left <= |s|
      invariant forall j :: left0 <= j < left ==> IsBlank(s[j])
    {
      left := left + 1;
    }
    while right > 0 && IsBlank(s[right - 1])
      invariant 0 <= right <= right0
      invariant forall j :: right <= j < right0 ==> IsBlank(s[j])
    {
      right := right - 1;
    }
    TrimmedRange(s, left0, right0, left, right);
  }

  lemma {:induction false} TrimLeftIs(t: string, k: nat)
    requires k <= |t| && forall j :: 0 <= j < k ==> IsBlank(t[j])
    requires k < |t| ==> !IsBlank(t[k])
    ensures TrimLeft(t) == t[k..]
  {
    if k > 0 {
      TrimLeftIs(t[1..], k - 1);
      assert t[1..][k - 1..] == t[k..];
    }
  }

  lemma {:induction false} TrimRightIs(t: string, k: nat)
    requires k <= |t| && forall j :: k <= j < |t| ==> IsBlank(t[j])
    requires k > 0 ==> !IsBlank(t[k - 1])
    ensures TrimRight(t) == t[..k]
  {
    var n := |t| - 1;
    if k <= n {
      TrimRightIs(t[..n], k);
      assert t[..n][..k] == t[..k];
    }
  }

  /** The ends stop at the first and behind the last character that is no blank; without one they cross. */
  lemma TrimmedRange(s: string, left0: nat, right0: nat, left: nat, right: nat)
    requires left0 <= right0 <= |s| && left0 <= left <= |s| && right <= right0
    requires forall j :: left0 <= j < left ==> IsBlank(s[j])
    requires left < |s| ==> !IsBlank(s[left])
    requires forall j :: right <= j < right0 ==> IsBlank(s[j])
    requires right > 0 ==> !IsBlank(s[right - 1])
    ensures (if left < right then s[left..right] else "") == Trim(s[left0..right0])
  {
    var t := s[left0..right0];
    if left < right0 {
      assert right > left;
      TrimLeftIs(t, left - left0);
      assert t[left - left0..] == s[left..right0];
      TrimRightIs(s[left..right0], right - left);
      assert s[left..right0][..right - left] == s[left..right];
    } else {
      TrimLeftIs(t, |t|);
      assert t[|t|..] == "";
      assert right <= left0 || right <= left;
    }
  }

  /** The callback is called with the piece unless it is empty. */
  method Offer(s: string, beg: nat, i: nat) returns (piece: seq<string>)
    requires beg <= i <= |s|
    ensures piece == Keep(Trim(s[beg..i]))
  {
    var l, r := TrimRange(s, beg, i);
    return if l < r then [s[l..r]] else [];
  }

  /** `split`: calls back with each piece. */
  method Split(s: string, d: char) returns (pieces: seq<string>)
    ensures pieces == Pieces(s, d)
  {
    var beg;
    pieces, beg := Scan(s, d);
    ScanEnd(s, d, pieces, beg);
    if |s| > 0 {
      var piece := Offer(s, beg, |s|);
      pieces := pieces + piece;
    }
  }

  /** The loop, up to the end of the text. */
  method Scan(s: string, d: char) returns (pieces: seq<string>, beg: nat)
    ensures Scanned(s, d, pieces, beg, |s|)
  {
    pieces, beg := [], 0;
    assert s[0..] == s;
    for i := 0 to |s|
      invariant Scanned(s, d, pieces, beg, i)
    {
      pieces, beg := ScanAt(s, d, pieces, beg, i);
    }
  }

  method ScanAt(s: string, d: char, pieces0: seq<string>, beg0: nat, i: nat) returns (pieces: seq<string>, beg: nat)
    requires Scanned(s, d, pieces0, beg0, i) && i < |s|
    ensures Scanned(s, d, pieces, beg, i + 1)
  {
    pieces, beg := pieces0, beg0;
    if s[i] == d {
      var piece := Offer(s, beg, i);
      ScanPiece(s, d, pieces, beg, i, piece);
      pieces := pieces + piece;
      beg := i + 1;
    }
  }

  lemma ScanPiece(s: string, d: char, pieces: seq<string>, beg: nat, i: nat, piece: seq<string>)
    requires Scanned(s, d, pieces, beg, i) && i < |s| && s[i] == d && piece == Keep(Trim(s[beg..i]))
    ensures Scanned(s, d, pieces + piece, i + 1, i + 1)
  {
    PieceEnds(s, d, beg, i);
    Associate(pieces, piece, Pieces(s[i + 1..], d));
  }

  lemma ScanEnd(s: string, d: char, pieces: seq<string>, beg: nat)
    requires Scanned(s, d, pieces, beg, |s|)
    ensures pieces + Keep(Trim(s[beg..|s|])) == Pieces(s, d)
    ensures s == "" ==> pieces == Pieces(s, d)
  {
    LastPiece(s, d, beg);
  }

  /** What has been found before place `i`, the current piece beginning at `beg`. */
  ghost predicate Scanned(s: string, d: char, pieces: seq<string>, beg: nat, i: nat) {
    && beg <= i <= |s|
    && (beg > 0 ==> s[beg - 1] == d)
    && (forall j :: beg <= j < i ==> s[j] != d)
    && pieces + Pieces(s[beg..], d) == Pieces(s, d)
  }

  lemma IndexIs(s: string, d: char, i: nat)
    requires i <= |s| && (i < |s| ==> s[i] == d)
    requires forall j :: 0 <= j < i ==> s[j] != d
    ensures IndexOf(s, d) == i
  {
  }

  lemma PieceEnds(s: string, d: char, beg: nat, i: nat)
    requires beg <= i < |s| && s[i] == d
    requires forall j :: beg <= j < i ==> s[j] != d
    ensures Pieces(s[beg..], d) == Keep(Trim(s[beg..i])) + Pieces(s[i + 1..], d)
  {
    var t := s[beg..];
    IndexIs(t, d, i - beg);
    assert t[..i - beg] == s[beg..i] && t[i - beg + 1..] == s[i + 1..];
  }

  lemma LastPiece(s: string, d: char, beg: nat)
    requires beg <= |s|
    requires forall j :: beg <= j < |s| ==> s[j] != d
    ensures Pieces(s[beg..], d) == Keep(Trim(s[beg..|s|]))
  {
    IndexIs(s[beg..], d, |s| - beg);
    assert s[beg..] == s[beg..|s|];
  }

  // ------------------------------------------------------ splitting joined text

  /** A text with no blank at either end is its own trim. */
  lemma TrimSolid(s: string)
    requires s != "" ==> !IsBlank(s[0]) && !IsBlank(s[|s| - 1])
    ensures Trim(s) == s
  {
  }

  /** The first piece of `a d t`, when `a` holds no delimiter. */
  lemma PiecesOfJoin(a: string, d: char, t: string)
    requires forall j :: 0 <= j < |a| ==> a[j] != d
    ensures Pieces(a + [d] + t, d) == Keep(Trim(a)) + Pieces(t, d)
    ensures Pieces(a, d) == Keep(Trim(a))
  {
    var s := a + [d] + t;
    assert s[|a|] == d && forall j :: 0 <= j < |a| ==> s[j] == a[j];
    PieceEnds(s, d, 0, |a|);
    assert s[0..] == s && s[0..|a|] == a && s[|a| + 1..] == t;
    LastPiece(a, d, 0);
    assert a[0..] == a && a[0..|a|] == a;
  }

  lemma TrimBlank(t: string)
    ensures Trim(" " + t) == Trim(t)
  {
    assert (" " + t)[1..] == t;
    assert TrimLeft(" " + t) == TrimLeft(t);
  }

  /** A blank in front of the text is trimmed away. */
  lemma LeadingBlank(t: string, d: char)
    requires !IsBlank(d)
    ensures Pieces(" " + t, d) == Pieces(t, d)
  {
    var s, i := " " + t, IndexOf(t, d);
    assert forall j :: 1 <= j < |s| ==> s[j] == t[j - 1];
    IndexIs(s, d, i + 1);
    if i == |t| {
      TrimBlank(t);
    } else {
      TrimBlank(t[..i]);
      assert s[..i + 1] == " " + t[..i] && s[i + 2..] == t[i + 1..];
    }
  }
}
