/**
 The Range field: make_range_header and parse_range_header.

 The printer joins ranges with a comma and a blank.  The parser splits at commas, trims, divides each
 piece at its dash and keeps a flag for the first piece that is no range; numbers beyond 64 bits make
 it throw, which it catches.

 `RoundTrip` is exact: a list comes back just if it is not empty and all its ranges are valid.
 */
module RangeHeader {
  import opened Ranges
  import opened Numerals
  import opened Splitting
  import opened Joining

  const LLONG_LIMIT: int := 0x8000_0000_0000_0000
  const UNIT: string := "bytes="

  datatype Piece = BadPiece | GoodPiece(range: Range)
  datatype Header = BadHeader | GoodHeader(ranges: seq<Range>)

  function Half(n: int): string { if n == -1 then "" else ShowInt(n) }

  function PrintRange(r: Range): string { Half(r.first) + "-" + Half(r.last) }

  function PrintRest(rs: seq<Range>): string {
    if rs == [] then "" else ", " + PrintRange(rs[0]) + PrintRest(rs[1..])
  }

  function PrintRanges(rs: seq<Range>): string {
    if rs == [] then "" else PrintRange(rs[0]) + PrintRest(rs[1..])
  }

  /** make_range_header: the field value. */
  method MakeRangeHeader(rs: seq<Range>) returns (field: string)
    ensures field == UNIT + PrintRanges(rs)
  {
    field := UNIT;
    if rs == [] {
      return;
    }
    ghost var goal := UNIT + PrintRanges(rs);
    var i := 0;
    while i < |rs|
      invariant 0 <= i <= |rs|
      invariant i == 0 ==> field == UNIT
      invariant i > 0 ==> field + PrintRest(rs[i..]) == goal
    {
      if i != 0 {
        AppendRest(field, PrintRange(rs[i]), rs[i..]);
        field := field + ", ";
      } else {
        AppendFirst(field, PrintRange(rs[0]), PrintRest(rs[1..]));
      }
      field := field + PrintRange(rs[i]);
      assert rs[i..][1..] == rs[i + 1..];
      i := i + 1;
    }
  }

  lemma AppendRest(field: string, p: string, rs: seq<Range>)
    requires rs != [] && p == PrintRange(rs[0])
    ensures field + PrintRest(rs) == field + ", " + p + PrintRest(rs[1..])
  {
  }

  lemma AppendFirst(field: string, p: string, rest: string)
    ensures field + (p + rest) == field + p + rest
  {
  }

  // -------------------------------------------------------------------- the parser

  /** `stoll` of digits, absent for the empty text; beyond the 64-bit maximum it throws. */
  predicate FitsHalf(s: string)
    requires AllDigits(s, 10)
  {
    Value(s, 10) < LLONG_LIMIT
  }

  function HalfValue(s: string): int
    requires AllDigits(s, 10)
  {
    if s == "" then -1 else Value(s, 10)
  }

  function ParsePiece(p: string): Piece {
    var i := IndexOf(p, '-');
    if i == |p| then BadPiece
    else
      var lhs, rhs := p[..i], p[i + 1..];
      if !AllDigits(lhs, 10) || !AllDigits(rhs, 10) || !FitsHalf(lhs) || !FitsHalf(rhs) then BadPiece
      else
        var first, last := HalfValue(lhs), HalfValue(rhs);
        if (first == -1 && last == -1) || (first != -1 && last != -1 && first > last) then BadPiece
        else GoodPiece(Range(first, last))
  }

  /** All pieces or nothing. */
  function Gather(ps: seq<Piece>): Header {
    if ps == [] then GoodHeader([])
    else
      match Gather(ps[..|ps| - 1])
      case BadHeader => BadHeader
      case GoodHeader(rs) =>
        match ps[|ps| - 1]
        case BadPiece => BadHeader
        case GoodPiece(r) => GoodHeader(rs + [r])
  }

  function ParseEach(ps: seq<string>): (qs: seq<Piece>)
    ensures |qs| == |ps| && forall i :: 0 <= i < |ps| ==> qs[i] == ParsePiece(ps[i])
  {
    seq(|ps|, i requires 0 <= i < |ps| => ParsePiece(ps[i]))
  }

  function ParseHeader(s: string): Header {
    if |s| > 7 && s[..6] == UNIT then
      var h := Gather(ParseEach(Pieces(s[6..], ',')));
      if h == GoodHeader([]) then BadHeader else h
    else BadHeader
  }

  /** The ranges in front of the first bad piece. */
  function Leading(ps: seq<Piece>): seq<Range> {
    if ps == [] || ps[0].BadPiece? then [] else [ps[0].range] + Leading(ps[1..])
  }

  /** parse_range_header; a refused text leaves behind the ranges in front of its first bad piece. */
  method ParseRangeHeader(s: string) returns (ok: bool, ranges: seq<Range>)
    ensures ok <==> ParseHeader(s).GoodHeader?
    ensures ok ==> ParseHeader(s) == GoodHeader(ranges)
    ensures ranges == if |s| > 7 && s[..6] == UNIT then Leading(ParseEach(Pieces(s[6..], ','))) else []
  {
    ranges := [];
    if |s| > 7 && s[..6] == UNIT {
      var pieces := Split(s[6..], ',');
      ok, ranges := CollectPieces(pieces);
      ok := ok && ranges != [];
    } else {
      ok := false;
    }
  }

  /** The callback given to `split`, called on each piece; `ok` is all_valid_ranges. */
  method CollectPieces(ps: seq<string>) returns (ok: bool, ranges: seq<Range>)
    ensures Gather(ParseEach(ps)) == if ok then GoodHeader(ranges) else BadHeader
    ensures ranges == Leading(ParseEach(ps))
  {
    ghost var qs := ParseEach(ps);
    ok, ranges := true, [];
    CollectNone(qs);
    for i := 0 to |ps|
      invariant Collected(qs, i, ok, ranges)
    {
      var piece := ParsePiece(ps[i]);
      var ok', ranges' := CollectOne(piece, ok, ranges);
      CollectNext(qs, i, piece, ok, ranges, ok', ranges');
      ok, ranges := ok', ranges';
    }
    CollectedAll(qs, ok, ranges);
  }

  /** One call of the callback; after a bad piece it does nothing more. */
  method CollectOne(q: Piece, ok0: bool, ranges0: seq<Range>) returns (ok: bool, ranges: seq<Range>)
    ensures ok == (ok0 && q.GoodPiece?)
    ensures ranges == if ok then ranges0 + [q.range] else ranges0
  {
    ok, ranges := ok0, ranges0;
    if ok {
      match q {
        case BadPiece => ok := false;
        case GoodPiece(r) => ranges := ranges + [r];
      }
    }
  }

  ghost predicate AllGood(qs: seq<Piece>, i: nat)
    requires i <= |qs|
  {
    forall j :: 0 <= j < i ==> qs[j].GoodPiece?
  }

  /** The header and the ranges that the first `i` pieces make up, and whether all of them are good. */
  ghost function Made(qs: seq<Piece>, i: nat): (Header, seq<Range>, bool)
    requires i <= |qs|
  {
    (Gather(qs[..i]), Leading(qs[..i]), AllGood(qs, i))
  }

  /** What the callback has put together after `i` pieces. */
  ghost predicate Collected(qs: seq<Piece>, i: nat, ok: bool, ranges: seq<Range>)
    requires i <= |qs|
  {
    Made(qs, i) == (if ok then GoodHeader(ranges) else BadHeader, ranges, ok)
  }

  lemma CollectNone(qs: seq<Piece>)
    ensures Collected(qs, 0, true, [])
  {
    assert qs[..0] == [];
  }

  lemma CollectNext(qs: seq<Piece>, i: nat, q: Piece, ok: bool, ranges: seq<Range>, ok': bool, ranges': seq<Range>)
    requires i < |qs| && q == qs[i] && Collected(qs, i, ok, ranges)
    requires ok' == (ok && q.GoodPiece?) && ranges' == if ok' then ranges + [q.range] else ranges
    ensures Collected(qs, i + 1, ok', ranges')
  {
    LeadingNext(qs, i);
    GatherNext(qs, i);
    assert AllGood(qs, i + 1) <==> AllGood(qs, i) && q.GoodPiece?;
  }

  lemma GatherNext(qs: seq<Piece>, i: nat)
    requires i < |qs|
    ensures var h := Gather(qs[..i]);
            Gather(qs[..i + 1])
            == if h.GoodHeader? && qs[i].GoodPiece? then GoodHeader(h.ranges + [qs[i].range]) else BadHeader
  {
    assert qs[..i + 1][..i] == qs[..i];
  }

  lemma CollectedAll(qs: seq<Piece>, ok: bool, ranges: seq<Range>)
    requires Collected(qs, |qs|, ok, ranges)
    ensures Gather(qs) == (if ok then GoodHeader(ranges) else BadHeader) && ranges == Leading(qs)
  {
    assert qs[..|qs|] == qs;
  }

  lemma AllGoodRest(qs: seq<Piece>, i: nat)
    requires 0 < i <= |qs|
    ensures AllGood(qs, i) <==> qs[0].GoodPiece? && AllGood(qs[1..], i - 1)
  {
    assert forall j :: 1 <= j < i ==> qs[j] == qs[1..][j - 1];
  }

  lemma LeadingFirst(qs: seq<Piece>, i: nat)
    requires 0 < i <= |qs|
    ensures Leading(qs[..i]) == if qs[0].BadPiece? then [] else [qs[0].range] + Leading(qs[1..][..i - 1])
  {
    assert qs[..i][1..] == qs[1..][..i - 1];
  }

  lemma {:induction false} LeadingNext(qs: seq<Piece>, i: nat)
    requires i < |qs|
    ensures Leading(qs[..i + 1])
         == if AllGood(qs, i) && qs[i].GoodPiece? then Leading(qs[..i]) + [qs[i].range] else Leading(qs[..i])
  {
    LeadingFirst(qs, i + 1);
    if i == 0 {
      assert qs[1..][..0] == [];
    } else {
      LeadingFirst(qs, i);
      AllGoodRest(qs, i);
      if qs[0].GoodPiece? {
        var rest := qs[1..];
        LeadingNext(rest, i - 1);
        InFront(qs[0].range, Leading(rest[..i - 1]), rest[i - 1], Leading(rest[..i]), AllGood(rest, i - 1));
      }
    }
  }

  lemma InFront(first: Range, before: seq<Range>, q: Piece, after: seq<Range>, good: bool)
    requires after == if good && q.GoodPiece? then before + [q.range] else before
    ensures [first] + after == if good && q.GoodPiece? then [first] + before + [q.range] else [first] + before
  {
  }

  // ------------------------------------------------------------------- round trip

  /** first-last with first <= last, first-, or -suffix, each number a 64-bit one. */
  predicate ValidRange(r: Range) {
    || (r.first == -1 && 0 <= r.last < LLONG_LIMIT)
    || (0 <= r.first < LLONG_LIMIT && (r.last == -1 || r.first <= r.last < LLONG_LIMIT))
  }

  ghost predicate AllValid(rs: seq<Range>) {
    forall i :: 0 <= i < |rs| ==> ValidRange(rs[i])
  }

  lemma HalfReads(n: int)
    requires -1 <= n < LLONG_LIMIT
    ensures AllDigits(Half(n), 10) && FitsHalf(Half(n)) && HalfValue(Half(n)) == n
  {
    if n >= 0 {
      ValueShow(n, 10);
    }
  }

  lemma PieceReads(r: Range)
    requires ValidRange(r)
    ensures ParsePiece(PrintRange(r)) == GoodPiece(r)
  {
    HalfReads(r.first);
    HalfReads(r.last);
    Halves(Half(r.first), Half(r.last));
  }

  /** The halves are found again around the hyphen. */
  lemma Halves(a: string, b: string)
    requires AllDigits(a, 10)
    ensures var p := a + "-" + b;
            IndexOf(p, '-') == |a| < |p| && p[..|a|] == a && p[|a| + 1..] == b
  {
    var p := a + "-" + b;
    forall j | 0 <= j < |a|
      ensures p[j] != '-'
    {
      assert p[j] == a[j] && IsDigit(a[j], 10);
    }
    assert p[|a|] == '-';
    IndexIs(p, '-', |a|);
  }

  /** A printed range holds no comma and no blank. */
  lemma PieceSolid(r: Range)
    requires ValidRange(r)
    ensures forall j :: 0 <= j < |PrintRange(r)| ==> PrintRange(r)[j] != ',' && !IsBlank(PrintRange(r)[j])
    ensures Keep(Trim(PrintRange(r))) == [PrintRange(r)]
  {
    HalfReads(r.first);
    HalfReads(r.last);
    SolidAround(Half(r.first), '-', Half(r.last), ',');
    TrimSolid(PrintRange(r));
  }

  function PrintEach(rs: seq<Range>): (ps: seq<string>)
    ensures |ps| == |rs| && forall i :: 0 <= i < |rs| ==> ps[i] == PrintRange(rs[i])
  {
    if rs == [] then [] else [PrintRange(rs[0])] + PrintEach(rs[1..])
  }

  lemma RestIs(p: string, rs: seq<Range>)
    requires rs != []
    ensures p + PrintRest(rs) == p + [','] + (" " + PrintRanges(rs))
  {
    CommaBlank(p, PrintRange(rs[0]), PrintRest(rs[1..]));
  }

  lemma CommaBlank(p: string, q: string, t: string)
    ensures p + (", " + q + t) == p + [','] + (" " + (q + t))
  {
    assert ", " == [','] + " ";
  }

  /** Splitting the printed list gives back the printed ranges. */
  lemma {:induction false} SplitsBack(rs: seq<Range>)
    requires rs != [] && AllValid(rs)
    ensures Pieces(PrintRanges(rs), ',') == PrintEach(rs)
  {
    var p, rest := PrintRange(rs[0]), rs[1..];
    PieceSolid(rs[0]);
    PiecesOfJoin(p, ',', " " + PrintRanges(rest));
    if rest == [] {
      assert PrintRanges(rs) == p;
    } else {
      RestIs(p, rest);
      LeadingBlank(PrintRanges(rest), ',');
      SplitsBack(rest);
    }
  }

  lemma {:induction false} GatherGood(qs: seq<Piece>, rs: seq<Range>)
    requires |qs| == |rs| && forall i :: 0 <= i < |rs| ==> qs[i] == GoodPiece(rs[i])
    ensures Gather(qs) == GoodHeader(rs)
  {
    if rs != [] {
      var n := |rs| - 1;
      GatherGood(qs[..n], rs[..n]);
      assert rs == rs[..n] + [rs[n]];
    }
  }

  lemma {:induction false} GatheredFrom(qs: seq<Piece>)
    ensures Gather(qs).GoodHeader? ==>
              |Gather(qs).ranges| == |qs| && forall i :: 0 <= i < |qs| ==> qs[i] == GoodPiece(Gather(qs).ranges[i])
  {
    if qs != [] {
      GatheredFrom(qs[..|qs| - 1]);
    }
  }

  lemma PieceValid(p: string)
    ensures ParsePiece(p).GoodPiece? ==> ValidRange(ParsePiece(p).range)
  {
  }

  lemma ReadValid(ps: seq<string>)
    ensures Gather(ParseEach(ps)).GoodHeader? ==> AllValid(Gather(ParseEach(ps)).ranges)
  {
    GatheredFrom(ParseEach(ps));
    forall i | 0 <= i < |ps|
      ensures ParsePiece(ps[i]).GoodPiece? ==> ValidRange(ParsePiece(ps[i]).range)
    {
      PieceValid(ps[i]);
    }
  }

  lemma PiecesRead(rs: seq<Range>)
    requires AllValid(rs)
    ensures Gather(ParseEach(PrintEach(rs))) == GoodHeader(rs)
  {
    forall i | 0 <= i < |rs|
      ensures ParsePiece(PrintRange(rs[i])) == GoodPiece(rs[i])
    {
      PieceReads(rs[i]);
    }
    GatherGood(ParseEach(PrintEach(rs)), rs);
  }

  lemma PrintedLength(rs: seq<Range>)
    requires rs != [] && ValidRange(rs[0])
    ensures |PrintRanges(rs)| >= 2
  {
  }

  /** The parser returns the printed list exactly when it is a non-empty list of valid ranges. */
  lemma RoundTrip(rs: seq<Range>)
    ensures ParseHeader(UNIT + PrintRanges(rs)) == GoodHeader(rs) <==> rs != [] && AllValid(rs)
  {
    var s := UNIT + PrintRanges(rs);
    assert s[..6] == UNIT && s[6..] == PrintRanges(rs);
    if rs != [] && AllValid(rs) {
      PrintedLength(rs);
      SplitsBack(rs);
      PiecesRead(rs);
    }
    ReadValid(Pieces(s[6..], ','));
  }

  /** Whatever text is accepted, the ranges are valid. */
  lemma AcceptedAreValid(s: string)
    ensures ParseHeader(s).GoodHeader? ==> ParseHeader(s).ranges != [] && AllValid(ParseHeader(s).ranges)
  {
    if |s| > 7 {
      ReadValid(Pieces(s[6..], ','));
    }
  }
}
