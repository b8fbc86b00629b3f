/** The multipart/byteranges body (section 14.6 of RFC 9110) and its announced length. */
module RangeData {
  import opened Basics
  import opened Ranges
  import opened Numerals
  import opened Splitting

  /** What process_multipart_ranges_data hands to its callbacks. */
  datatype Token = Text(text: string) | Slice(offset: nat, length: nat)

  function OffsetAndLength(r: Range, len: nat): (o: (nat, nat))
    requires InBounds(r, len)
    ensures o.1 > 0 && o.0 + o.1 <= len
    ensures forall x: int :: o.0 <= x < o.0 + o.1 <==> Holds(r, x)
  {
    (r.first, r.last - r.first + 1)
  }

  function ContentRange(o: (nat, nat), len: nat): string
    requires o.1 > 0
  {
    BytesField(o.0, o.0 + o.1 - 1, len)
  }

  function BytesField(first: nat, last: nat, len: nat): string {
    "bytes " + Show(first, 10) + "-" + Show(last, 10) + "/" + Show(len, 10)
  }

  /** The first and last byte and the whole length that a Content-Range field names. */
  function ReadContentRange(field: string): Option<(int, int, int)> {
    if |field| >= 6 && field[..6] == "bytes " then ReadBounds(field[6..]) else None
  }

  function ReadBounds(s: string): Option<(int, int, int)> {
    var dash := IndexOf(s, '-');
    if dash == |s| then None else ReadLength(s[..dash], s[dash + 1..])
  }

  function ReadLength(first: string, s: string): Option<(int, int, int)> {
    var slash := IndexOf(s, '/');
    if slash == |s| then None else ReadNumbers(first, s[..slash], s[slash + 1..])
  }

  function ReadNumbers(a: string, b: string, n: string): Option<(int, int, int)> {
    if a != "" && b != "" && n != "" && AllDigits(a, 10) && AllDigits(b, 10) && AllDigits(n, 10)
    then Some((Value(a, 10), Value(b, 10), Value(n, 10))) else None
  }

  /** The field printed for a range names its bytes. */
  lemma ContentRangeReads(r: Range, len: nat, field: string)
    requires InBounds(r, len) && field == ContentRange(OffsetAndLength(r, len), len)
    ensures ReadContentRange(field) == Some((r.first, r.last, len))
  {
    ShownReads(r.first, r.last, len, field);
  }

  lemma ShownReads(a: nat, b: nat, n: nat, field: string)
    requires field == BytesField(a, b, n)
    ensures ReadContentRange(field) == Some((a, b, n))
  {
    FieldSplits(Show(a, 10), Show(b, 10), Show(n, 10), field);
    NumbersRead(a, b, n);
  }

  lemma NumbersRead(a: nat, b: nat, n: nat)
    ensures ReadNumbers(Show(a, 10), Show(b, 10), Show(n, 10)) == Some((a, b, n))
  {
    ValueShow(a, 10);
    ValueShow(b, 10);
    ValueShow(n, 10);
  }

  lemma FieldSplits(a: string, b: string, n: string, field: string)
    requires AllDigits(a, 10) && AllDigits(b, 10) && field == "bytes " + a + "-" + b + "/" + n
    ensures ReadContentRange(field) == ReadNumbers(a, b, n)
  {
    FieldText("bytes ", a, "-", b, "/", n);
    DigitsEnd(a, '-', b + "/" + n);
    DigitsEnd(b, '/', n);
  }

  lemma FieldText(unit: string, a: string, dash: string, b: string, slash: string, n: string)
    ensures var field := unit + a + dash + b + slash + n;
            field[..|unit|] == unit && field[|unit|..] == a + dash + (b + slash + n)
  {
    assert unit + a + dash + b + slash + n == unit + (a + dash + (b + slash + n));
  }

  lemma DigitsEnd(a: string, d: char, t: string)
    requires AllDigits(a, 10) && !IsDigit(d, 10)
    ensures IndexOf(a + [d] + t, d) == |a|
    ensures (a + [d] + t)[..|a|] == a && (a + [d] + t)[|a| + 1..] == t
  {
    var s := a + [d] + t;
    forall j | 0 <= j < |a|
      ensures s[j] != d
    {
      assert s[j] == a[j] && IsDigit(a[j], 10);
    }
    IndexIs(s, d, |a|);
  }

  /** The tokens of a part with delimiter `d`, boundary `b`, line end `nl`, and fields `k: t` and `f: v`. */
  function PartPieces(d: string, b: string, nl: string, k: string, t: string, f: string, v: string, o: (nat, nat))
    : seq<Token>
  {
    [Text(d), Text(b), Text(nl)]
    + (if t == "" then [] else [Text(k), Text(t), Text(nl)])
    + [Text(f), Text(v), Text(nl), Text(nl)]
    + [Slice(o.0, o.1), Text(nl)]
  }

  function PartTokens(r: Range, boundary: string, contentType: string, len: nat): seq<Token>
    requires InBounds(r, len)
  {
    var o := OffsetAndLength(r, len);
    PartPieces("--", boundary, "\r\n", "Content-Type: ", contentType, "Content-Range: ", ContentRange(o, len), o)
  }

  function Closing(boundary: string): seq<Token> { [Text("--"), Text(boundary), Text("--")] }

  function PartList(rs: seq<Range>, boundary: string, contentType: string, len: nat): (ps: seq<seq<Token>>)
    requires AllInBounds(rs, len)
    ensures |ps| == |rs| && forall i :: 0 <= i < |rs| ==> ps[i] == PartTokens(rs[i], boundary, contentType, len)
  {
    seq(|rs|, i requires 0 <= i < |rs| => PartTokens(rs[i], boundary, contentType, len))
  }

  function AllTokens(rs: seq<Range>, boundary: string, contentType: string, len: nat): seq<Token>
    requires AllInBounds(rs, len)
  {
    Flatten(PartList(rs, boundary, contentType, len)) + Closing(boundary)
  }

  // ------------------------------------------------------------- the two consumers

  /** `substr`, which clips at the end and throws beyond it. */
  predicate CanRender(t: Token, body: string) { t.Slice? ==> t.offset <= |body| }

  function Substr(body: string, offset: nat, length: nat): string
    requires offset <= |body|
  {
    if offset + length <= |body| then body[offset..offset + length] else body[offset..]
  }

  function RenderOne(t: Token, body: string): string
    requires CanRender(t, body)
  {
    match t
    case Text(text) => text
    case Slice(offset, length) => Substr(body, offset, length)
  }

  ghost predicate CanRenderAll(ts: seq<Token>, body: string) {
    forall i :: 0 <= i < |ts| ==> CanRender(ts[i], body)
  }

  function Render(ts: seq<Token>, body: string): string
    requires CanRenderAll(ts, body)
  {
    if ts == [] then "" else Render(ts[..|ts| - 1], body) + RenderOne(ts[|ts| - 1], body)
  }

  function SizeOne(t: Token): nat {
    match t
    case Text(text) => |text|
    case Slice(_, length) => length
  }

  function Size(ts: seq<Token>): nat {
    if ts == [] then 0 else Size(ts[..|ts| - 1]) + SizeOne(ts[|ts| - 1])
  }

  /** Every slice lies inside content of length `len`: the assertion of the content callback. */
  ghost predicate SlicesWithin(ts: seq<Token>, len: nat) {
    forall i :: 0 <= i < |ts| ==> SliceWithin(ts[i], len)
  }

  predicate SliceWithin(t: Token, len: nat) { t.Slice? ==> t.offset + t.length <= len }

  lemma {:induction false} SizeIsLength(ts: seq<Token>, body: string)
    requires SlicesWithin(ts, |body|)
    ensures CanRenderAll(ts, body) && |Render(ts, body)| == Size(ts)
  {
    assert CanRenderAll(ts, body) by {
      forall i | 0 <= i < |ts|
        ensures CanRender(ts[i], body)
      {
        assert SliceWithin(ts[i], |body|);
      }
    }
    if ts != [] {
      SizeIsLength(ts[..|ts| - 1], body);
      assert SliceWithin(ts[|ts| - 1], |body|);
    }
  }

  lemma WithinJoin(a: seq<Token>, b: seq<Token>, len: nat)
    requires SlicesWithin(a, len) && SlicesWithin(b, len)
    ensures SlicesWithin(a + b, len)
  {
  }

  lemma PiecesWithin(d: string, b: string, nl: string, k: string, t: string, f: string, v: string, o: (nat, nat),
                     len: nat)
    requires o.0 + o.1 <= len
    ensures SlicesWithin(PartPieces(d, b, nl, k, t, f, v, o), len)
  {
  }

  lemma {:induction false} FlatWithin(parts: seq<seq<Token>>, len: nat)
    requires forall i :: 0 <= i < |parts| ==> SlicesWithin(parts[i], len)
    ensures SlicesWithin(Flatten(parts), len)
  {
    if parts != [] {
      FlatWithin(parts[1..], len);
      WithinJoin(parts[0], Flatten(parts[1..]), len);
    }
  }

  lemma TokensWithin(rs: seq<Range>, boundary: string, contentType: string, len: nat)
    requires AllInBounds(rs, len)
    ensures SlicesWithin(AllTokens(rs, boundary, contentType, len), len)
  {
    var parts := PartList(rs, boundary, contentType, len);
    forall i | 0 <= i < |rs|
      ensures SlicesWithin(parts[i], len)
    {
      var o := OffsetAndLength(rs[i], len);
      PiecesWithin("--", boundary, "\r\n", "Content-Type: ", contentType, "Content-Range: ", ContentRange(o, len),
                   o, len);
    }
    FlatWithin(parts, len);
    WithinJoin(Flatten(parts), Closing(boundary), len);
  }

  // -------------------------------------------------------------------- the methods

  /** process_multipart_ranges_data: the tokens in the order the callbacks see them. */
  method ProcessRanges(rs: seq<Range>, boundary: string, contentType: string, len: nat) returns (ts: seq<Token>)
    requires AllInBounds(rs, len)
    ensures ts == AllTokens(rs, boundary, contentType, len)
    ensures SlicesWithin(ts, len)
  {
    ts := [];
    ghost var parts := PartList(rs, boundary, contentType, len);
    for i := 0 to |rs|
      invariant ts == Flatten(parts[..i])
    {
      FlattenNext(parts, i);
      ts := ts + PartTokens(rs[i], boundary, contentType, len);
    }
    assert parts[..|rs|] == parts;
    TokensWithin(rs, boundary, contentType, len);
    ts := ts + Closing(boundary);
  }

  /** The callbacks of make_multipart_ranges_data. */
  method RenderTokens(ts: seq<Token>, body: string) returns (data: string)
    requires CanRenderAll(ts, body)
    ensures data == Render(ts, body)
  {
    data := "";
    for i := 0 to |ts|
      invariant data == Render(ts[..i], body)
    {
      assert ts[..i + 1][..i] == ts[..i];
      data := data + RenderOne(ts[i], body);
    }
    assert ts[..|ts|] == ts;
  }

  /** The callbacks of get_multipart_ranges_data_length. */
  method SizeTokens(ts: seq<Token>) returns (size: nat)
    ensures size == Size(ts)
  {
    size := 0;
    for i := 0 to |ts|
      invariant size == Size(ts[..i])
    {
      assert ts[..i + 1][..i] == ts[..i];
      size := size + SizeOne(ts[i]);
    }
    assert ts[..|ts|] == ts;
  }

  /** make_multipart_ranges_data over a body that is the whole content. */
  method MakeData(rs: seq<Range>, body: string, boundary: string, contentType: string) returns (data: string)
    requires AllInBounds(rs, |body|)
    ensures data == Document(rs, body, boundary, contentType)
  {
    var ts := ProcessRanges(rs, boundary, contentType, |body|);
    SizeIsLength(ts, body);
    data := RenderTokens(ts, body);
    RenderAll(rs, body, boundary, contentType);
  }

  /** get_multipart_ranges_data_length: needs only the length of the content. */
  method DataLength(rs: seq<Range>, len: nat, boundary: string, contentType: string) returns (size: nat)
    requires AllInBounds(rs, len)
    ensures size == Size(AllTokens(rs, boundary, contentType, len))
  {
    var ts := ProcessRanges(rs, boundary, contentType, len);
    size := SizeTokens(ts);
  }

  // ------------------------------------------------------------------- what is sent

  /** One part written out: its header lines, a blank line, the bytes of the range. */
  function PartLines(d: string, b: string, nl: string, k: string, t: string, f: string, v: string, bytes: string)
    : string
  {
    d + b + nl + (if t == "" then "" else k + t + nl) + f + v + nl + nl + bytes + nl
  }

  function PartText(r: Range, body: string, boundary: string, contentType: string): string
    requires InBounds(r, |body|)
  {
    var v := ContentRange(OffsetAndLength(r, |body|), |body|);
    PartLines("--", boundary, "\r\n", "Content-Type: ", contentType, "Content-Range: ", v, body[r.first..r.last + 1])
  }

  function PartTexts(rs: seq<Range>, body: string, boundary: string, contentType: string): (ts: seq<string>)
    requires AllInBounds(rs, |body|)
    ensures |ts| == |rs| && forall i :: 0 <= i < |rs| ==> ts[i] == PartText(rs[i], body, boundary, contentType)
  {
    seq(|rs|, i requires 0 <= i < |rs| => PartText(rs[i], body, boundary, contentType))
  }

  /** The parts in order, and the closing delimiter. */
  function Document(rs: seq<Range>, body: string, boundary: string, contentType: string): string
    requires AllInBounds(rs, |body|)
  {
    Flatten(PartTexts(rs, body, boundary, contentType)) + "--" + boundary + "--"
  }

  lemma {:induction false} RenderJoin(a: seq<Token>, b: seq<Token>, body: string)
    requires CanRenderAll(a, body) && CanRenderAll(b, body)
    ensures CanRenderAll(a + b, body) && Render(a + b, body) == Render(a, body) + Render(b, body)
  {
    if b == [] {
      assert a + b == a;
    } else {
      var init, t := b[..|b| - 1], b[|b| - 1];
      LastToken(a, b, init, t);
      RenderJoin(a, init, body);
      RenderSnoc(a + init, t, body);
      Associate(Render(a, body), Render(init, body), RenderOne(t, body));
    }
  }

  lemma LastToken(a: seq<Token>, b: seq<Token>, init: seq<Token>, t: Token)
    requires b != [] && init == b[..|b| - 1] && t == b[|b| - 1]
    ensures a + b == (a + init) + [t]
  {
  }

  lemma RenderText(a: string, body: string)
    ensures CanRenderAll([Text(a)], body) && Render([Text(a)], body) == a
  {
    assert [Text(a)][..0] == [];
  }

  /** Appending one text token appends its text. */
  lemma RenderSnoc(ts: seq<Token>, t: Token, body: string)
    requires CanRenderAll(ts, body) && CanRender(t, body)
    ensures CanRenderAll(ts + [t], body) && Render(ts + [t], body) == Render(ts, body) + RenderOne(t, body)
  {
    assert (ts + [t])[..|ts + [t]| - 1] == ts;
  }

  lemma RenderThree(a: string, b: string, c: string, body: string)
    ensures CanRenderAll([Text(a), Text(b), Text(c)], body)
    ensures Render([Text(a), Text(b), Text(c)], body) == a + b + c
  {
    RenderText(a, body);
    RenderSnoc([Text(a)], Text(b), body);
    assert [Text(a)] + [Text(b)] == [Text(a), Text(b)];
    RenderSnoc([Text(a), Text(b)], Text(c), body);
    assert [Text(a), Text(b)] + [Text(c)] == [Text(a), Text(b), Text(c)];
  }

  lemma RenderPart(r: Range, body: string, boundary: string, contentType: string)
    requires InBounds(r, |body|)
    ensures CanRenderAll(PartTokens(r, boundary, contentType, |body|), body)
    ensures Render(PartTokens(r, boundary, contentType, |body|), body) == PartText(r, body, boundary, contentType)
  {
    var o := OffsetAndLength(r, |body|);
    var ts, text := PartTokens(r, boundary, contentType, |body|), PartText(r, body, boundary, contentType);
    RenderLabelled("--", "\r\n", "Content-Type: ", "Content-Range: ", r, body, boundary, contentType, ts, text);
  }

  lemma RenderLabelled(d: string, nl: string, k: string, f: string, r: Range, body: string, b: string, t: string,
                       ts: seq<Token>, text: string)
    requires InBounds(r, |body|)
    requires var o := OffsetAndLength(r, |body|); ts == PartPieces(d, b, nl, k, t, f, ContentRange(o, |body|), o)
    requires text == PartLines(d, b, nl, k, t, f, ContentRange(OffsetAndLength(r, |body|), |body|),
                               body[r.first..r.last + 1])
    ensures CanRenderAll(ts, body) && Render(ts, body) == text
  {
    var o := OffsetAndLength(r, |body|);
    RenderPieces(d, b, nl, k, t, f, ContentRange(o, |body|), o, body);
  }

  lemma RenderType(a: string, t: string, c: string, body: string, ts: seq<Token>)
    requires ts == if t == "" then [] else [Text(a), Text(t), Text(c)]
    ensures CanRenderAll(ts, body) && Render(ts, body) == if t == "" then "" else a + t + c
  {
    RenderThree(a, t, c, body);
  }

  lemma RenderFour(a: string, b: string, c: string, d: string, body: string)
    ensures CanRenderAll([Text(a), Text(b), Text(c), Text(d)], body)
    ensures Render([Text(a), Text(b), Text(c), Text(d)], body) == a + b + c + d
  {
    RenderThree(a, b, c, body);
    RenderSnoc([Text(a), Text(b), Text(c)], Text(d), body);
    assert [Text(a), Text(b), Text(c)] + [Text(d)] == [Text(a), Text(b), Text(c), Text(d)];
  }

  lemma RenderSlice(o: (nat, nat), nl: string, body: string)
    requires o.0 + o.1 <= |body|
    ensures CanRenderAll([Slice(o.0, o.1), Text(nl)], body)
    ensures Render([Slice(o.0, o.1), Text(nl)], body) == body[o.0..o.0 + o.1] + nl
  {
    var t := Slice(o.0, o.1);
    assert [t][..0] == [];
    assert Render([t], body) == RenderOne(t, body);
    RenderSnoc([t], Text(nl), body);
    assert [t] + [Text(nl)] == [t, Text(nl)];
  }

  lemma RenderPieces(d: string, b: string, nl: string, k: string, t: string, f: string, v: string, o: (nat, nat),
                     body: string)
    requires o.0 + o.1 <= |body|
    ensures CanRenderAll(PartPieces(d, b, nl, k, t, f, v, o), body)
    ensures Render(PartPieces(d, b, nl, k, t, f, v, o), body) == PartLines(d, b, nl, k, t, f, v, body[o.0..o.0 + o.1])
  {
    var first, mid, field, tail := [Text(d), Text(b), Text(nl)], if t == "" then [] else [Text(k), Text(t), Text(nl)],
      [Text(f), Text(v), Text(nl), Text(nl)], [Slice(o.0, o.1), Text(nl)];
    RenderThree(d, b, nl, body);
    RenderType(k, t, nl, body, mid);
    RenderFour(f, v, nl, nl, body);
    RenderSlice(o, nl, body);
    RenderJoin(first, mid, body);
    RenderJoin(first + mid, field, body);
    RenderJoin(first + mid + field, tail, body);
    FlatText(d + b + nl + if t == "" then "" else k + t + nl, f, v, nl, body[o.0..o.0 + o.1]);
  }

  lemma FlatText(head: string, f: string, v: string, nl: string, s: string)
    ensures head + (f + v + nl + nl) + (s + nl) == head + f + v + nl + nl + s + nl
  {
  }

  lemma {:induction false} RenderFlat(parts: seq<seq<Token>>, texts: seq<string>, body: string)
    requires |parts| == |texts|
    requires forall i :: 0 <= i < |parts| ==> CanRenderAll(parts[i], body) && Render(parts[i], body) == texts[i]
    ensures CanRenderAll(Flatten(parts), body) && Render(Flatten(parts), body) == Flatten(texts)
  {
    if parts != [] {
      RenderFlat(parts[1..], texts[1..], body);
      RenderJoin(parts[0], Flatten(parts[1..]), body);
    }
  }

  lemma RenderParts(rs: seq<Range>, body: string, boundary: string, contentType: string,
                    parts: seq<seq<Token>>, texts: seq<string>)
    requires AllInBounds(rs, |body|)
    requires parts == PartList(rs, boundary, contentType, |body|) && texts == PartTexts(rs, body, boundary, contentType)
    ensures CanRenderAll(Flatten(parts), body) && Render(Flatten(parts), body) == Flatten(texts)
  {
    forall i | 0 <= i < |rs|
      ensures CanRenderAll(parts[i], body) && Render(parts[i], body) == texts[i]
    {
      RenderPart(rs[i], body, boundary, contentType);
    }
    RenderFlat(parts, texts, body);
  }

  /** The data is the parts in order, each carrying exactly the bytes of its range, and the closing delimiter. */
  lemma RenderAll(rs: seq<Range>, body: string, boundary: string, contentType: string)
    requires AllInBounds(rs, |body|)
    ensures CanRenderAll(AllTokens(rs, boundary, contentType, |body|), body)
    ensures Render(AllTokens(rs, boundary, contentType, |body|), body) == Document(rs, body, boundary, contentType)
  {
    var parts, texts := PartList(rs, boundary, contentType, |body|), PartTexts(rs, body, boundary, contentType);
    RenderParts(rs, body, boundary, contentType, parts, texts);
    RenderClosed(Flatten(parts), Flatten(texts), boundary, body);
  }

  lemma RenderClosed(ts: seq<Token>, text: string, boundary: string, body: string)
    requires CanRenderAll(ts, body) && Render(ts, body) == text
    ensures CanRenderAll(ts + Closing(boundary), body)
    ensures Render(ts + Closing(boundary), body) == text + "--" + boundary + "--"
  {
    RenderThree("--", boundary, "--", body);
    RenderJoin(ts, Closing(boundary), body);
    FlatEnd(text, "--", boundary);
  }

  lemma FlatEnd(a: string, d: string, b: string)
    ensures a + (d + b + d) == a + d + b + d
  {
  }

  /** The length announced from the content's length alone is the length of the data built from the content. */
  lemma AnnouncedLength(rs: seq<Range>, body: string, boundary: string, contentType: string)
    requires AllInBounds(rs, |body|)
    ensures Size(AllTokens(rs, boundary, contentType, |body|))
         == |Document(rs, body, boundary, contentType)|
  {
    TokensWithin(rs, boundary, contentType, |body|);
    SizeIsLength(AllTokens(rs, boundary, contentType, |body|), body);
    RenderAll(rs, body, boundary, contentType);
  }

  // ------------------------------------------------------------------- apply_ranges

  const PARTIAL_CONTENT: int := 206

  /** Whether the ranges are applied to a response with this status. */
  predicate Applies(rs: seq<Range>, status: int) { rs != [] && status == PARTIAL_CONTENT }

  /** The body that answers the request: all of it, the bytes of one range, or a part for each range. */
  function Answer(rs: seq<Range>, status: int, body: string, boundary: string, contentType: string): string
    requires Applies(rs, status) ==> AllInBounds(rs, |body|)
  {
    if !Applies(rs, status) then body
    else if |rs| == 1 then body[rs[0].first..rs[0].last + 1]
    else Document(rs, body, boundary, contentType)
  }

  /** The Content-Range field, set for a single range only. */
  function RangeField(rs: seq<Range>, status: int, len: nat): Option<string>
    requires Applies(rs, status) ==> AllInBounds(rs, len)
  {
    if Applies(rs, status) && |rs| == 1 then Some(ContentRange(OffsetAndLength(rs[0], len), len)) else None
  }

  /** The branch without a body: the Content-Length for content of length `len`. */
  method AnnounceRanges(rs: seq<Range>, status: int, len: nat, boundary: string, contentType: string)
    returns (length: nat, field: Option<string>)
    requires Applies(rs, status) ==> AllInBounds(rs, len)
    ensures forall body :: |body| == len ==> length == |Answer(rs, status, body, boundary, contentType)|
    ensures field == RangeField(rs, status, len)
  {
    field := None;
    if !Applies(rs, status) {
      length := len;
    } else if |rs| == 1 {
      var o := OffsetAndLength(rs[0], len);
      length, field := o.1, Some(ContentRange(o, len));
    } else {
      length := DataLength(rs, len, boundary, contentType);
      forall body: string | |body| == len
        ensures length == |Document(rs, body, boundary, contentType)|
      {
        AnnouncedLength(rs, body, boundary, contentType);
      }
    }
  }

  /** The branch with a body: what it becomes. */
  method ApplyRanges(rs: seq<Range>, status: int, body: string, boundary: string, contentType: string)
    returns (data: string, field: Option<string>)
    requires Applies(rs, status) ==> AllInBounds(rs, |body|)
    ensures data == Answer(rs, status, body, boundary, contentType)
    ensures field == RangeField(rs, status, |body|)
  {
    data, field := body, None;
    if Applies(rs, status) {
      if |rs| == 1 {
        var o := OffsetAndLength(rs[0], |body|);
        assert o.0 + o.1 <= |body|;
        data, field := Substr(body, o.0, o.1), Some(ContentRange(o, |body|));
      } else {
        data := MakeData(rs, body, boundary, contentType);
      }
    }
  }

  /** Whatever range_error lets through meets the demands of both branches, which then agree on length and field. */
  method Serve(rs: seq<Range>, status: int, body: string, boundary: string, contentType: string)
    returns (error: bool, out: seq<Range>, announced: nat, data: string, field: Option<string>)
    ensures error == (rs != [] && 200 <= status < 300 && !Servable(rs, |body|))
    ensures !error && (rs == [] || status != 206) ==> data == body && field == None
    ensures !error && rs != [] && status == 206 ==>
              && out != [] && Coalesced(AllNormalised(rs, |body|), out, |body|)
              && (forall x :: Covered(out, x) <==> Asked(rs, |body|, x))
              && if |out| == 1 then data == body[out[0].first..out[0].last + 1] && field.Some?
                 else data == Document(out, body, boundary, contentType) && field == None
    ensures !error && field.Some? ==>
              |out| == 1 && ReadContentRange(field.value) == Some((out[0].first, out[0].last, |body|))
    ensures !error ==> announced == |data|
  {
    announced, data, field := 0, "", None;
    error, out := RangeError(rs, status, |body|);
    if !error {
      if Applies(rs, status) {
        AcceptableMeans(rs, |body|);
        StillSome(rs, out, |body|);
      }
      ghost var applies := Applies(out, status);
      assert applies ==> AllInBounds(out, |body|) && Applies(rs, status);
      var field';
      announced, field := AnnounceRanges(out, status, |body|, boundary, contentType);
      data, field' := ApplyRanges(out, status, body, boundary, contentType);
      assert field == field';
      if field.Some? {
        ContentRangeReads(out[0], |body|, field.value);
      }
    }
  }

  /** Something acceptable leaves something to serve. */
  lemma StillSome(rs: seq<Range>, out: seq<Range>, len: int)
    requires rs != [] && Acceptable(rs, len) && Coalesced(AllNormalised(rs, len), out, len)
    ensures out != []
  {
    var ns := AllNormalised(rs, len);
    assert InBounds(ns[0], len) && Holds(ns[0], ns[0].first);
    assert Covered(ns, ns[0].first);
  }
}
