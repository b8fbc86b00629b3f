/** The chunked writer and reader over streams. */
module Chunked {
  import opened Basics
  import opened Text
  import opened Numerals
  import opened SocketStreaming
  import opened Strtoul
  import opened LineReading
  import opened ChunkedSpec

  const RECV_BUFSIZ: nat := 16384

  /** `from_i_to_hex`: digits are put in front, lowest first. */
  method FromIToHex(size: nat) returns (ret: string)
    ensures ret == Show(size, 16)
  {
    var n := size;
    ret := [DigitChar(n % 16)];
    n := n / 16;
    while n > 0
      invariant Above(n) + ret == Show(size, 16)
    {
      DigitInFront(n, ret);
      ret := [DigitChar(n % 16)] + ret;
      n := n / 16;
    }
  }

  /** The digits still to be put in front. */
  ghost function Above(n: nat): string { if n == 0 then "" else Show(n, 16) }

  lemma DigitInFront(n: nat, ret: string)
    requires n > 0
    ensures Above(n / 16) + ([DigitChar(n % 16)] + ret) == Above(n) + ret
  {
    assert Above(n) == Above(n / 16) + [DigitChar(n % 16)];
  }

  /** The data sink of `write_content_chunked` without compression; `out` is the stream. */
  class ChunkedWriter {
    var out: string
    var ok: bool
    var dataAvailable: bool
    var offset: nat

    constructor ()
      ensures out == "" && ok && dataAvailable && offset == 0
    {
      out, ok, dataAvailable, offset := "", true, true, 0;
    }

    /** `write_data`: the stream takes `taken` bytes of it, or all if it could take more. */
    method WriteData(data: string, taken: nat) returns (r: bool)
      modifies this`out
      ensures r == (taken >= |data|)
      ensures out == old(out) + Front(data, taken)
    {
      r := taken >= |data|;
      out := out + Front(data, taken);
    }

    /** A write; the stream takes `taken` bytes of its chunk before it fails, if it does. */
    method Write(payload: string, taken: nat) returns (r: bool)
      modifies this
      ensures r == ok == (old(ok) && taken >= |Chunk(payload)|)
      ensures out == if old(ok) then old(out) + Front(Chunk(payload), taken) else old(out)
      ensures old(ok) ==> offset == old(offset) + |payload| && dataAvailable == (payload != "")
      ensures !old(ok) ==> offset == old(offset) && dataAvailable == old(dataAvailable)
    {
      if ok {
        dataAvailable := |payload| > 0;
        offset := offset + |payload|;
        if payload != "" {
          var hex := FromIToHex(|payload|);
          ok := WriteData(hex + CRLF + payload + CRLF, taken);
        }
      }
      return ok;
    }

    /** `done` without trailers: two writes, the second made even if the first fails. */
    method Done(taken: nat, taken': nat)
      modifies this
      ensures ok == (old(ok) && taken >= |LAST_CHUNK| && taken' >= |CRLF|)
      ensures out == if old(ok) then old(out) + Front(LAST_CHUNK, taken) + Front(CRLF, taken') else old(out)
      ensures dataAvailable == (old(dataAvailable) && !old(ok))
    {
      if !ok {
        return;
      }
      dataAvailable := false;
      var r := WriteData(LAST_CHUNK, taken);
      if !r {
        ok := false;
      }
      r := WriteData(CRLF, taken');
      if !r {
        ok := false;
      }
    }
  }

  const LAST_CHUNK: string := "0\r\n"

  /** As much of the data as the stream takes. */
  function Front(data: string, taken: nat): string { if taken < |data| then data[..taken] else data }

  lemma WriteStep(out: string, writes: seq<string>, i: nat)
    requires i < |writes|
    ensures out + Encode(writes[i..]) == out + Chunk(writes[i]) + Encode(writes[i + 1..])
  {
    assert writes[i..][0] == writes[i] && writes[i..][1..] == writes[i + 1..];
    Reassociate("", "", out, Chunk(writes[i]), Encode(writes[i + 1..]));
  }

  /** Writing all the pieces and `done` puts `Encode` on the stream. */
  method WriteAll(writes: seq<string>) returns (w: ChunkedWriter)
    ensures w.ok && w.out == Encode(writes)
  {
    w := new ChunkedWriter();
    for i := 0 to |writes|
      invariant w.ok && fresh(w)
      invariant w.out + Encode(writes[i..]) == Encode(writes)
    {
      WriteStep(w.out, writes, i);
      var _ := w.Write(writes[i], |Chunk(writes[i])|);
    }
    w.Done(|LAST_CHUNK|, |CRLF|);
    assert DONE == LAST_CHUNK + CRLF;
  }

  ghost predicate AcceptsAll(accept: string -> bool) {
    forall s :: accept(s)
  }

  /**
   `read_content_with_length`.  `delivered` is what the receiver has been given so far;
   `accept` is its verdict on everything given to it including the current piece.
   */
  method ReadContentWithLength(strm: Stream, len: nat, delivered: string, accept: string -> bool)
    returns (ok: bool, all: string)
    requires strm.Valid()
    modifies strm.Repr
    ensures strm.Valid()
    ensures |delivered| <= |all| <= |delivered| + len
    ensures Taken(old(strm.data), delivered, |all| - |delivered|, all, strm.data)
    ensures ok ==> |all| == |delivered| + len
    ensures strm.reliable && AcceptsAll(accept) ==> ok == (len <= |old(strm.data)|) && (ok || strm.data == "")
  {
    all := delivered;
    var r := 0;
    ghost var data := strm.data;
    TakeNone(data, delivered);
    while r < len
      invariant 0 <= r <= len && strm.Valid()
      invariant |all| == |delivered| + r && Taken(data, delivered, r, all, strm.data)
      decreases len - r
    {
      var n;
      ok, n, all := ReadPiece(strm, len - r, all, accept, data, delivered, r);
      r := r + n;
      if !ok {
        return;
      }
    }
    return true, all;
  }

  /** One trip of the loop: a read of at most the `left` bytes, given to the receiver. */
  method ReadPiece(strm: Stream, left: nat, before: string, accept: string -> bool,
                   ghost data: string, ghost delivered: string, ghost r: nat)
    returns (ok: bool, n: nat, all: string)
    requires strm.Valid() && 0 < left && |before| == |delivered| + r && Taken(data, delivered, r, before, strm.data)
    modifies strm.Repr
    ensures strm.Valid() && n <= left && (ok ==> n > 0)
    ensures |all| == |before| + n && Taken(data, delivered, r + n, all, strm.data)
    ensures strm.reliable && AcceptsAll(accept) && !ok ==> n == 0 && strm.data == ""
  {
    ghost var rest := strm.data;
    var got, bytes := strm.Read(if left < RECV_BUFSIZ then left else RECV_BUFSIZ);
    PieceTaken(data, delivered, r, before, rest, got, bytes, strm.data);
    n, all := if got <= 0 then 0 else got, if got <= 0 then before else before + bytes;
    ok := got > 0 && accept(all);
  }

  lemma PieceTaken(data: string, delivered: string, r: nat, before: string, rest: string,
                   n: int, bytes: string, rest': string)
    requires Taken(data, delivered, r, before, rest)
    requires if n == -1 then rest' == rest else 0 <= n <= |rest| && bytes == rest[..n] && rest' == rest[n..]
    ensures n <= 0 ==> rest' == rest
    ensures n > 0 ==> |bytes| == n && Taken(data, delivered, r + n, before + bytes, rest')
  {
    if n > 0 {
      TakeMore(data, delivered, r, before, rest, n, bytes, rest');
    }
  }

  /** `r` bytes of `data` go behind `before`, the others stay. */
  ghost function Moved(data: string, before: string, r: nat): (string, string)
    requires r <= |data|
  {
    (before + data[..r], data[r..])
  }

  /** Of `data`, `r` bytes have been delivered behind `before`, and `rest` is left. */
  ghost predicate Taken(data: string, before: string, r: nat, all: string, rest: string) {
    r <= |data| && (all, rest) == Moved(data, before, r)
  }

  lemma TakeNone(data: string, before: string)
    ensures Taken(data, before, 0, before, data)
  {
    assert before + data[..0] == before;
  }

  lemma TakeMore(data: string, before: string, r: nat, all: string, rest: string, n: nat, bytes: string, rest': string)
    requires Taken(data, before, r, all, rest) && n <= |rest| && bytes == rest[..n] && rest' == rest[n..]
    ensures Taken(data, before, r + n, all + bytes, rest')
  {
    assert data[..r] + bytes == data[..r + n];
    assert before + data[..r] + bytes == before + (data[..r] + bytes);
  }

  /** What the reader promises of its result, of what it delivered and of what it left. */
  ghost predicate Follows(exact: bool, o: Outcome, before: string, status: Status, delivered: string, rest: string) {
    exact ==> status == o.status && delivered == before + o.out && rest == o.rest
  }

  /** The end of the body: an optional run of undeclared trailer lines. */
  method SkipTrailers(reader: LineReader) returns (status: Status)
    requires reader.Ready()
    modifies reader, reader.fixed, reader.strm.Repr
    ensures reader.Ready() && |reader.strm.data| <= |old(reader.strm.data)|
    ensures Follows(reader.strm.reliable, AfterLast(old(reader.strm.data)), "", status, "", reader.strm.data)
  {
    ghost var start := AfterLast(reader.strm.data);
    var ok := reader.GetLine();
    if !ok {
      return Success;
    }
    while CStr(reader.Contents()) != CRLF
      invariant reader.Ready()
      invariant |reader.strm.data| <= |old(reader.strm.data)|
      invariant reader.strm.reliable ==> Trailer(reader.Contents(), reader.strm.data) == start
      decreases |reader.strm.data|
    {
      if |reader.Contents()| > HEADER_MAX_LENGTH {
        return Error;
      }
      ok := reader.GetLine();
      if !ok {
        return Error;
      }
    }
    return Success;
  }

  /** Reading the chunk of `n` bytes and the empty line behind it: success, what is delivered then, what is left. */
  ghost function ChunkRest(data: string, n: nat, before: string): (bool, string, string) {
    if |data| < n then (false, before + data, "")
    else
      var e := NextLine(data[n..]);
      (e.ok && CStr(e.line) == CRLF, before + data[..n], e.rest)
  }

  ghost predicate ChunkTaken(data: string, n: nat, before: string, ok: bool, delivered: string, rest: string) {
    (ok, delivered, rest) == ChunkRest(data, n, before)
  }

  /** A chunk and the empty line behind it. */
  method ReadChunk(reader: LineReader, n: nat, before: string, accept: string -> bool)
    returns (ok: bool, delivered: string)
    requires reader.Ready()
    modifies reader, reader.fixed, reader.strm.Repr
    ensures reader.Ready()
    ensures before <= delivered && |delivered| <= |before| + n
    ensures |reader.strm.data| <= |old(reader.strm.data)|
    ensures reader.strm.reliable && AcceptsAll(accept) ==>
              ChunkTaken(old(reader.strm.data), n, before, ok, delivered, reader.strm.data)
  {
    ghost var data := reader.strm.data;
    ok, delivered := ReadContentWithLength(reader.strm, n, before, accept);
    ghost var rest := reader.strm.data;
    if !ok {
      ChunkCutOff(data, n, before, delivered, rest);
      return;
    }
    ok := reader.GetLine();
    ChunkRead(reader.strm.reliable, data, n, before, delivered, rest, ok, reader.Contents(), reader.strm.data);
    ok := ok && CStr(reader.Contents()) == CRLF;
  }

  lemma ChunkCutOff(data: string, n: nat, before: string, delivered: string, rest: string)
    requires |before| <= |delivered| && Taken(data, before, |delivered| - |before|, delivered, rest)
    ensures before <= delivered
    ensures |data| < n && rest == "" ==> ChunkTaken(data, n, before, false, delivered, rest)
  {
    assert data[..|data|] == data;
  }

  lemma ChunkRead(exact: bool, data: string, n: nat, before: string, delivered: string, rest: string,
                  ok: bool, line: string, rest': string)
    requires Taken(data, before, n, delivered, rest) && LineTaken(exact, rest, ok, line, rest')
    ensures before <= delivered && |rest'| <= |data|
    ensures exact ==> ChunkTaken(data, n, before, ok && CStr(line) == CRLF, delivered, rest')
  {
  }

  /**
   `read_content_chunked` for a message that declares no trailers: at most `max` bytes are
   delivered from any stream; from a reliable stream to a willing receiver the result is
   `Decode`, whatever the pattern of short reads.
   */
  method ReadContentChunked(strm: Stream, max: nat, accept: string -> bool) returns (status: Status, delivered: string)
    requires strm.Valid()
    modifies strm.Repr
    ensures strm.Valid()
    ensures |delivered| <= max
    ensures Follows(strm.reliable && AcceptsAll(accept), Decode(old(strm.data), max, 0), "",
                    status, delivered, strm.data)
  {
    var reader := new LineReader(strm, 16);
    ghost var exact, goal := strm.reliable && AcceptsAll(accept), Decode(strm.data, max, 0);
    delivered := "";
    status := Error;
    var total, more := 0, true;
    assert "" + goal.out == goal.out;
    while more
      invariant reader.Ready() && reader.strm == strm && fresh(reader) && fresh(reader.fixed)
      invariant |delivered| <= total <= max
      invariant exact ==> Leads(Trip(more, total, status, delivered, strm.data), max, goal)
      decreases more, |strm.data|
    {
      LineLeads(strm.data, max, total, delivered);
      more, total, status, delivered := ReadOne(reader, max, total, delivered, accept);
    }
  }

  /** One trip of the loop: a size line and what it announces. */
  method ReadOne(reader: LineReader, max: nat, total0: nat, before: string, accept: string -> bool)
    returns (more: bool, total: nat, status: Status, delivered: string)
    requires reader.Ready() && |before| <= total0 <= max
    modifies reader, reader.fixed, reader.strm.Repr
    ensures reader.Ready() && |delivered| <= total <= max
    ensures more ==> |reader.strm.data| < |old(reader.strm.data)|
    ensures reader.strm.reliable && AcceptsAll(accept) ==>
              Trip(more, total, status, delivered, reader.strm.data)
              == LineTrip(old(reader.strm.data), max, total0, before)
  {
    var ok := reader.GetLine();
    if !ok {
      return false, total0, Error, before;
    }
    var size := StrToUl16(CStr(reader.Contents()));
    more, total, status, delivered := ReadSized(reader, size, max, total0, before, accept);
  }

  /** What a size line announces: the end, or a chunk within the limit. */
  method ReadSized(reader: LineReader, size: Parsed, max: nat, total0: nat, before: string, accept: string -> bool)
    returns (more: bool, total: nat, status: Status, delivered: string)
    requires reader.Ready() && |before| <= total0 <= max
    requires size.Number? ==> size.value <= ULONG_MAX
    modifies reader, reader.fixed, reader.strm.Repr
    ensures reader.Ready() && |delivered| <= total <= max
    ensures |reader.strm.data| <= |old(reader.strm.data)|
    ensures reader.strm.reliable && AcceptsAll(accept) ==>
              Trip(more, total, status, delivered, reader.strm.data)
              == SizedTrip(size, old(reader.strm.data), max, total0, before)
  {
    more, total, status, delivered := false, total0, Error, before;
    if size.Number? && size.value != ULONG_MAX {
      if size.value == 0 {
        status := SkipTrailers(reader);
      } else if max - total0 < size.value {
        status := PayloadTooLarge;
      } else {
        total := total0 + size.value;
        more, delivered := ReadChunk(reader, size.value, before, accept);
      }
    }
  }

  /** Where a trip of the loop ends: whether the loop goes on, its variables, and what is left of the stream. */
  datatype Trip = Trip(more: bool, total: nat, status: Status, delivered: string, rest: string)

  ghost function SizedTrip(size: Parsed, data: string, max: nat, total: nat, before: string): Trip {
    if !size.Number? || size.value == ULONG_MAX then Trip(false, total, Error, before, data)
    else if size.value == 0 then Trip(false, total, AfterLast(data).status, before, AfterLast(data).rest)
    else if total > max || max - total < size.value then Trip(false, total, PayloadTooLarge, before, data)
    else
      var c := ChunkRest(data, size.value, before);
      Trip(c.0, total + size.value, Error, c.1, c.2)
  }

  ghost function LineTrip(data: string, max: nat, total: nat, before: string): Trip {
    var l := NextLine(data);
    if l.ok then SizedTrip(StrToUl16(CStr(l.line)), l.rest, max, total, before)
    else Trip(false, total, Error, before, l.rest)
  }

  /** The result `o` behind what is delivered already. */
  ghost function Behind(delivered: string, o: Outcome): Outcome { Outcome(o.status, delivered + o.out, o.rest) }

  /** How the loop ends when what a trip has left is decoded. */
  ghost function Ahead(t: Trip, max: nat): Outcome {
    if t.more then Behind(t.delivered, Decode(t.rest, max, t.total)) else Outcome(t.status, t.delivered, t.rest)
  }

  ghost predicate Leads(t: Trip, max: nat, goal: Outcome) { Ahead(t, max) == goal }

  ghost function EndTrip(chunk: string, data: string, total: nat, before: string): Trip {
    var e := NextLine(data);
    Trip(e.ok && CStr(e.line) == CRLF, total, Error, before + chunk, e.rest)
  }

  lemma EndLeads(chunk: string, data: string, max: nat, total: nat, before: string)
    ensures Leads(EndTrip(chunk, data, total, before), max, Behind(before, DecodeEnd(chunk, data, max, total)))
  {
    var e := NextLine(data);
    var more := Decode(e.rest, max, total);
    EndUnfolds(chunk, data, max, total, e, more);
    Associate(before, chunk, more.out);
  }

  lemma ChunkLeads(n: nat, data: string, max: nat, total: nat, before: string)
    requires 0 < n < ULONG_MAX && total + n <= max && n <= |data|
    ensures Leads(SizedTrip(Number(n), data, max, total, before), max,
                  Behind(before, DecodeSized(Number(n), data, max, total)))
  {
    SizedIsEnd(n, data, max, total);
    SizedTripIsEnd(n, data, max, total, before);
    EndLeads(data[..n], data[n..], max, total + n, before);
  }

  lemma CutOffLeads(n: nat, data: string, max: nat, total: nat, before: string)
    requires 0 < n < ULONG_MAX && total + n <= max && |data| < n
    ensures Leads(SizedTrip(Number(n), data, max, total, before), max,
                  Behind(before, DecodeSized(Number(n), data, max, total)))
  {
    assert SizedTrip(Number(n), data, max, total, before) == Trip(false, total + n, Error, before + data, "");
  }

  lemma SizedTripIsEnd(n: nat, data: string, max: nat, total: nat, before: string)
    requires 0 < n < ULONG_MAX && total + n <= max && n <= |data|
    ensures SizedTrip(Number(n), data, max, total, before) == EndTrip(data[..n], data[n..], total + n, before)
  {
  }

  lemma SizedLeads(size: Parsed, data: string, max: nat, total: nat, before: string)
    requires total <= max && (size.Number? ==> size.value <= ULONG_MAX)
    ensures Leads(SizedTrip(size, data, max, total, before), max, Behind(before, DecodeSized(size, data, max, total)))
  {
    assert before + "" == before;
    if size.Number? && 0 < size.value < ULONG_MAX && total + size.value <= max {
      if size.value <= |data| {
        ChunkLeads(size.value, data, max, total, before);
      } else {
        CutOffLeads(size.value, data, max, total, before);
      }
    }
  }

  lemma LineLeads(data: string, max: nat, total: nat, before: string)
    requires total <= max
    ensures Leads(LineTrip(data, max, total, before), max, Behind(before, Decode(data, max, total)))
  {
    var l := NextLine(data);
    assert before + "" == before;
    if l.ok {
      var size := StrToUl16(CStr(l.line));
      DecodeLine(data, l.line, l.rest, size, max, total);
      SizedLeads(size, l.rest, max, total, before);
    }
  }

  /** What was written is what is received, through any pattern of short reads; `after` is left unread. */
  method Transfer(writes: seq<string>, after: string, max: nat, buffering: bool)
    returns (status: Status, delivered: string, strm: Stream)
    requires forall i :: 0 <= i < |writes| ==> |writes[i]| < ULONG_MAX
    requires |Flatten(writes)| <= max
    ensures status == Success && delivered == Flatten(writes) && strm.data == after
  {
    var w := WriteAll(writes);
    var sock := new Socket(w.out + after, true);
    strm := new Stream(sock, buffering);
    RoundTrip(writes, max, 0, after);
    status, delivered := ReadContentChunked(strm, max, _ => true);
  }
}
