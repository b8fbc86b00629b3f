/** Chunked transfer coding as functions, and the round trip. */
module ChunkedSpec {
  import opened Basics
  import opened Text
  import opened Numerals
  import opened Strtoul
  import opened LineReading


  datatype Status = Success | PayloadTooLarge | Error

  /** The result, the bytes delivered and the bytes left in the stream. */
  datatype Outcome = Outcome(status: Status, out: string, rest: string)

  // ---------------------------------------------------------------------- strtoul

  /** A C string ends at its first NUL. */
  function CStr(s: string): string {
    if s == "" || s[0] == '\0' then "" else [s[0]] + CStr(s[1..])
  }

  // ----------------------------------------------------------------------- reader

  /** After the last chunk, with no declared trailers: skip lines up to an empty one. */
  function Trailer(line: string, data: string): (o: Outcome)
    ensures o.out == ""
    decreases |data|
  {
    if CStr(line) == CRLF then Outcome(Success, "", data)
    else if |line| > HEADER_MAX_LENGTH then Outcome(Error, "", data)
    else
      var l := NextLine(data);
      if l.ok then Trailer(l.line, l.rest) else Outcome(Error, "", l.rest)
  }

  function AfterLast(data: string): (o: Outcome)
    ensures o.out == ""
  {
    var l := NextLine(data);
    if l.ok then Trailer(l.line, l.rest) else Outcome(Success, "", l.rest)
  }

  /** The reader, from the start of a size line, with `total` bytes announced so far. */
  function Decode(data: string, max: nat, total: nat): (o: Outcome)
    ensures total <= max ==> total + |o.out| <= max
    decreases |data|, 2
  {
    var l := NextLine(data);
    if l.ok then DecodeSized(StrToUl16(CStr(l.line)), l.rest, max, total) else Outcome(Error, "", l.rest)
  }

  /** The reader behind a size line. */
  function DecodeSized(size: Parsed, data: string, max: nat, total: nat): (o: Outcome)
    ensures total <= max ==> total + |o.out| <= max
    decreases |data|, 1
  {
    match size
    case NoNumber => Outcome(Error, "", data)
    case Number(n) =>
      if n == ULONG_MAX then Outcome(Error, "", data)
      else if n == 0 then AfterLast(data)
      else if total > max || max - total < n then Outcome(PayloadTooLarge, "", data)
      else if |data| < n then Outcome(Error, data, "")
      else DecodeEnd(data[..n], data[n..], max, total + n)
  }

  /** The reader behind a chunk that has been delivered. */
  function DecodeEnd(chunk: string, data: string, max: nat, total: nat): (o: Outcome)
    ensures total <= max ==> total + |o.out| <= max + |chunk|
    decreases |data|, 3
  {
    var l := NextLine(data);
    if l.ok && CStr(l.line) == CRLF then
      var more := Decode(l.rest, max, total);
      Outcome(more.status, chunk + more.out, more.rest)
    else Outcome(Error, chunk, l.rest)
  }

  lemma SizedIsEnd(n: nat, data: string, max: nat, total: nat)
    requires 0 < n < ULONG_MAX && total + n <= max && n <= |data|
    ensures DecodeSized(Number(n), data, max, total) == DecodeEnd(data[..n], data[n..], max, total + n)
  {
  }

  lemma EndUnfolds(chunk: string, data: string, max: nat, total: nat, e: LineRead, more: Outcome)
    requires e == NextLine(data) && more == Decode(e.rest, max, total)
    ensures DecodeEnd(chunk, data, max, total)
         == if e.ok && CStr(e.line) == CRLF then Outcome(more.status, chunk + more.out, more.rest)
            else Outcome(Error, chunk, e.rest)
  {
  }

  // ----------------------------------------------------------------------- writer

  /** One write: nothing for an empty payload. */
  function Chunk(payload: string): string {
    if payload == "" then "" else Show(|payload|, 16) + CRLF + payload + CRLF
  }

  const DONE := "0\r\n\r\n"

  function Encode(writes: seq<string>): string {
    if writes == [] then DONE else Chunk(writes[0]) + Encode(writes[1..])
  }

  // ------------------------------------------------------------------- round trip

  /** The line `text CRLF` at the front of a stream is read whole. */
  lemma LineAtFront(text: string, t: string)
    requires forall i :: 0 <= i < |text| ==> text[i] != CR
    requires |text| + 2 <= MAX_LINE_LENGTH
    ensures NextLine(text + CRLF + t) == LineRead(true, text + CRLF, t)
  {
    var data := text + CRLF + t;
    forall j | 0 <= j < |text|
      ensures !OccursAt(text + CRLF, CRLF, j)
    {
      assert (text + CRLF)[j] == text[j];
    }
    assert data + "" == text + CRLF + t;
    FindInStream(data, "", text, CRLF, t);
  }

  lemma {:induction false} CStrWhole(s: string)
    requires forall i :: 0 <= i < |s| ==> s[i] != '\0'
    ensures CStr(s) == s
  {
    if s != "" {
      CStrWhole(s[1..]);
    }
  }

  lemma {:induction false} HexRunStops(digits: string, t: string)
    requires AllDigits(digits, 16)
    requires t == "" || !IsDigit(t[0], 16)
    ensures HexRun(digits + t) == digits
  {
    if digits == "" {
      assert digits + t == t;
    } else {
      assert (digits + t)[1..] == digits[1..] + t;
      HexRunStops(digits[1..], t);
    }
  }

  /** A line of hexadecimal digits is read whole and converted. */
  lemma HexLine(hex: string)
    requires hex != "" && AllDigits(hex, 16) && Value(hex, 16) <= ULONG_MAX
    ensures StrToUl16(hex + CRLF) == Number(Value(hex, 16))
  {
    var line := hex + CRLF;
    assert line[0] == hex[0] && IsDigit(hex[0], 16);
    assert StripLeft(line) == line;
    assert line[1] == if |hex| > 1 then hex[1] else CR;
    assert |hex| > 1 ==> IsDigit(hex[1], 16);
    HexRunStops(hex, CRLF);
  }

  lemma DigitIsText(c: char)
    requires IsDigit(c, 16)
    ensures c != CR && c != '\0'
  {
  }

  lemma DigitsAreText(digits: string)
    requires AllDigits(digits, 16)
    ensures forall i :: 0 <= i < |digits| ==> digits[i] != CR
    ensures CStr(digits + CRLF) == digits + CRLF
  {
    forall i | 0 <= i < |digits|
      ensures digits[i] != CR && digits[i] != '\0'
    {
      DigitIsText(digits[i]);
    }
    LineIsText(digits, digits + CRLF);
  }

  lemma LineIsText(s: string, line: string)
    requires line == s + CRLF && forall i :: 0 <= i < |s| ==> s[i] != '\0'
    ensures CStr(line) == line
  {
    forall i | 0 <= i < |line|
      ensures line[i] != '\0'
    {
      assert i < |s| ==> line[i] == s[i];
      assert i == |s| ==> line[i] == CR;
    }
    CStrWhole(line);
  }

  /** The size line the writer prints is read back as that size. */
  lemma SizeLine(n: nat)
    requires n < ULONG_MAX
    ensures StrToUl16(CStr(Show(n, 16) + CRLF)) == Number(n)
    ensures forall i :: 0 <= i < |Show(n, 16)| ==> Show(n, 16)[i] != CR
    ensures |Show(n, 16)| <= 16
  {
    Powers();
    ShowLength(n, 16, 16);
    ValueShow(n, 16);
    DigitsAreText(Show(n, 16));
    HexLine(Show(n, 16));
  }

  /** The empty line that ends a chunk. */
  lemma EmptyLine(t: string)
    ensures NextLine(CRLF + t) == LineRead(true, CRLF, t)
    ensures CStr(CRLF) == CRLF
  {
    LineAtFront("", t);
    assert "" + CRLF + t == CRLF + t;
    CStrWhole(CRLF);
  }

  lemma DoneDecodes(max: nat, total: nat, t: string)
    ensures Decode(DONE + t, max, total) == Outcome(Success, "", t)
  {
    var rest := CRLF + t;
    assert DONE + t == "0" + CRLF + rest;
    LineAtFront("0", rest);
    assert Show(0, 16) == "0";
    SizeLine(0);
    EmptyLine(t);
  }

  lemma ChunkDecodes(payload: string, max: nat, total: nat, t: string)
    requires payload != "" && |payload| < ULONG_MAX && total + |payload| <= max
    ensures var more := Decode(t, max, total + |payload|);
            Decode(Chunk(payload) + t, max, total) == Outcome(more.status, payload + more.out, more.rest)
  {
    var hex, rest, n := Show(|payload|, 16), payload + (CRLF + t), |payload|;
    Reassociate(hex, CRLF, payload, CRLF, t);
    SizeLine(n);
    LineAtFront(hex, rest);
    SizedDecodes(payload, max, total, t);
    DecodeLine(Chunk(payload) + t, hex + CRLF, rest, Number(n), max, total);
  }

  lemma DecodeLine(data: string, line: string, rest: string, size: Parsed, max: nat, total: nat)
    requires NextLine(data) == LineRead(true, line, rest) && StrToUl16(CStr(line)) == size
    ensures Decode(data, max, total) == DecodeSized(size, rest, max, total)
  {
  }

  lemma SizedDecodes(payload: string, max: nat, total: nat, t: string)
    requires payload != "" && |payload| < ULONG_MAX && total + |payload| <= max
    ensures var more := Decode(t, max, total + |payload|);
            DecodeSized(Number(|payload|), payload + (CRLF + t), max, total)
            == Outcome(more.status, payload + more.out, more.rest)
  {
    var data := payload + (CRLF + t);
    assert data[..|payload|] == payload && data[|payload|..] == CRLF + t;
    EmptyLine(t);
  }

  lemma EncodeStep(writes: seq<string>, t: string)
    requires writes != []
    ensures Encode(writes) + t == Chunk(writes[0]) + (Encode(writes[1..]) + t)
  {
    Reassociate("", "", Chunk(writes[0]), Encode(writes[1..]), t);
  }

  /**
   Round trip: the reader delivers exactly the concatenation of the writes and stops exactly
   at the end of the coded text, whatever follows it.
   */
  lemma {:induction false} RoundTrip(writes: seq<string>, max: nat, total: nat, t: string)
    requires forall i :: 0 <= i < |writes| ==> |writes[i]| < ULONG_MAX
    requires total + |Flatten(writes)| <= max
    ensures Decode(Encode(writes) + t, max, total) == Outcome(Success, Flatten(writes), t)
  {
    if writes == [] {
      DoneDecodes(max, total, t);
    } else {
      var w, rest := writes[0], Encode(writes[1..]) + t;
      RoundTrip(writes[1..], max, total + |w|, t);
      EncodeStep(writes, t);
      if w == "" {
        assert Chunk(w) + rest == rest;
        assert w + Flatten(writes[1..]) == Flatten(writes[1..]);
      } else {
        ChunkDecodes(w, max, total, rest);
      }
    }
  }

  /** A chunk that would pass the limit is refused before any of it is delivered. */
  lemma TooLarge(payload: string, max: nat, total: nat, t: string)
    requires payload != "" && |payload| < ULONG_MAX && total <= max < total + |payload|
    ensures Decode(Chunk(payload) + t, max, total) == Outcome(PayloadTooLarge, "", payload + CRLF + t)
  {
    var hex, rest := Show(|payload|, 16), payload + CRLF + t;
    assert Chunk(payload) + t == hex + CRLF + rest;
    SizeLine(|payload|);
    LineAtFront(hex, rest);
  }

  // ----------------------------------------------------------------------- trailers

  /** A trailer line of this length at most is skipped. */
  predicate IsTrailer(text: string) {
    && text != "" && (forall i :: 0 <= i < |text| ==> text[i] != CR && text[i] != '\0')
    && |text| + 2 <= MAX_LINE_LENGTH
  }

  function Lines(texts: seq<string>): string { if texts == [] then "" else texts[0] + CRLF + Lines(texts[1..]) }

  lemma TrailerLine(text: string, rest: string, data: string)
    requires IsTrailer(text) && data == text + CRLF + rest
    ensures NextLine(data) == LineRead(true, text + CRLF, rest) && CStr(text + CRLF) == text + CRLF != CRLF
  {
    LineAtFront(text, rest);
    CStrWhole(text + CRLF);
  }

  /** Trailer lines within the limit are skipped up to the empty line, and what follows is left. */
  lemma {:induction false} TrailersSkipped(texts: seq<string>, rest: string, data: string)
    requires forall i :: 0 <= i < |texts| ==> IsTrailer(texts[i]) && |texts[i]| + 2 <= HEADER_MAX_LENGTH
    requires data == Lines(texts) + CRLF + rest
    ensures NextLine(data).ok && AfterLast(data) == Outcome(Success, "", rest)
    decreases |texts|
  {
    if texts == [] {
      assert data == CRLF + rest;
      EmptyLine(rest);
    } else {
      var tail := Lines(texts[1..]) + CRLF + rest;
      TrailersSkipped(texts[1..], rest, tail);
      MoveFirst(texts[0] + CRLF, Lines(texts[1..]), CRLF, rest);
      TrailerSkipped(texts[0], tail, data);
    }
  }

  lemma MoveFirst(a: string, b: string, c: string, d: string)
    ensures a + b + c + d == a + (b + c + d)
  {
  }

  lemma TrailerSkipped(text: string, rest: string, data: string)
    requires IsTrailer(text) && |text| + 2 <= HEADER_MAX_LENGTH && data == text + CRLF + rest && NextLine(rest).ok
    ensures NextLine(data).ok && AfterLast(data) == AfterLast(rest)
  {
    TrailerLine(text, rest, data);
    SkipsOn(rest, text + CRLF);
  }

  /** Behind a trailer line the reader goes on as behind the last chunk, but for wanting the empty line. */
  lemma SkipsOn(data: string, line: string)
    requires CStr(line) != CRLF && |line| <= HEADER_MAX_LENGTH && NextLine(data).ok
    ensures Trailer(line, data) == AfterLast(data)
  {
  }

  /** A longer trailer line is an error, and so is the end of the stream behind one. */
  lemma TrailerRefused(text: string, rest: string, data: string)
    requires IsTrailer(text) && data == text + CRLF + rest
    requires |text| + 2 > HEADER_MAX_LENGTH || rest == ""
    ensures AfterLast(data).status == Error
  {
    TrailerLine(text, rest, data);
  }

  /** The end of the stream in place of the empty line is not an error. */
  lemma NothingAfterLast()
    ensures AfterLast("") == Outcome(Success, "", "")
  {
  }
}
