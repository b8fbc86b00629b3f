/**
 The line reader on top of a stream.

 `LineReader` collects a line byte by byte, first in a fixed buffer and then in a growing one;
 `NextLine` is what it must return, whatever the pattern of short reads.  The stream may be a bare
 socket or the buffered reader above it, and may fail at any time unless it is `reliable`.
 */
module LineReading {
  import opened Text
  import opened SocketStreaming

  const MAX_LINE_LENGTH: nat := 32768

  /** Where the line at the front of `data` ends: after its CRLF, or at the end of the data. */
  function LineEnd(data: string): (e: nat)
    ensures e <= |data|
    ensures data != "" ==> e > 0
  {
    var pos := Find(data, CRLF);
    if pos == |data| then pos else pos + 2
  }

  /** Whether `getline` returns true: the line is not empty and not too long. */
  predicate LineFits(data: string) {
    var e := LineEnd(data);
    data != "" && if Find(data, CRLF) < |data| then e <= MAX_LINE_LENGTH else e < MAX_LINE_LENGTH
  }

  datatype LineRead = LineRead(ok: bool, line: string, rest: string)

  /** What `getline` takes from the front of `data`; a line that is too long is cut off. */
  function NextLine(data: string): (l: LineRead)
    ensures l.ok ==> l.line != "" && data == l.line + l.rest
    ensures |l.rest| <= |data|
  {
    if LineFits(data) then LineRead(true, data[..LineEnd(data)], data[LineEnd(data)..])
    else LineRead(false, "", if |data| < MAX_LINE_LENGTH then "" else data[MAX_LINE_LENGTH..])
  }

  class LineReader {
    const strm: Stream
    const fixed: array<char>
    var used: nat
    var growable: string

    ghost predicate Valid()
      reads this, fixed
    {
      && 2 <= fixed.Length
      && used < fixed.Length
      && (used > 0 ==> fixed[used] == '\0')
      && (growable != "" ==> used == fixed.Length - 1)
    }

    /** The stream is in order and shares nothing with the reader. */
    ghost predicate Ready()
      reads this, fixed, strm, strm.Repr
    {
      Valid() && strm.Valid() && this !in strm.Repr && fixed !in strm.Repr
    }

    /** `ptr()` up to `size()`. */
    function Contents(): string
      requires Valid()
      reads this, fixed
    {
      if growable == "" then fixed[..used] else growable
    }

    constructor (strm: Stream, bufferSize: nat)
      requires 2 <= bufferSize
      ensures Valid() && fresh(fixed) && this.strm == strm
    {
      this.strm := strm;
      fixed := new char[bufferSize];
      used, growable := 0, "";
    }

    method Append(c: char)
      requires Valid()
      modifies this, fixed
      ensures Valid()
      ensures Contents() == old(Contents()) + [c]
    {
      if used < fixed.Length - 1 {
        fixed[used] := c;
        used := used + 1;
        fixed[used] := '\0';
      } else {
        if growable == "" {
          assert fixed[used] == '\0';
          growable := fixed[..used];
        }
        growable := growable + [c];
      }
    }

    /** Reads one byte into the buffer; `n` is the result of the read. */
    method TakeByte() returns (n: int, byte: char)
      requires Ready()
      modifies this, fixed, strm.Repr
      ensures Ready()
      ensures n == -1 || n == 0 || n == 1
      ensures n == -1 ==> !strm.reliable
      ensures n == 0 ==> old(strm.data) == ""
      ensures n < 1 ==> Contents() == old(Contents()) && strm.data == old(strm.data)
      ensures n == 1 ==> old(strm.data) == [byte] + strm.data && Contents() == old(Contents()) + [byte]
    {
      var bytes;
      n, bytes := strm.Read(1);
      byte := '\0';
      if n == 1 {
        byte := bytes[0];
        Append(byte);
      }
    }

    /**
     One trip of the loop: a byte more, or the end of the line.  `prev` is the byte before, `data` what
     the stream held at the start.
     */
    method Scan(prev: char, ghost data: string) returns (more: bool, ok: bool, byte: char)
      requires Ready() && Scanning(data, Contents(), strm.data, prev)
      modifies this, fixed, strm.Repr
      ensures Ready()
      ensures more ==> Scanning(data, Contents(), strm.data, byte) && |strm.data| < |old(strm.data)|
      ensures !more ==> LineTaken(strm.reliable, data, ok, Contents(), strm.data)
    {
      ghost var got, rest := Contents(), strm.data;
      more, ok, byte := false, false, '\0';
      if |Contents()| >= MAX_LINE_LENGTH {
        LineGoesOn(strm.reliable, data, got, rest);
        return;
      }
      var n;
      n, byte := TakeByte();
      ok := n > 0 || (n == 0 && Contents() != "");
      more := n > 0 && !(prev == CR && byte == LF);
      ByteTaken(strm.reliable, data, got, rest, n, byte, strm.data, prev);
    }

    /** Reads one line. */
    method GetLine() returns (ok: bool)
      requires Ready()
      modifies this, fixed, strm.Repr
      ensures Ready()
      ensures LineTaken(strm.reliable, old(strm.data), ok, Contents(), strm.data)
    {
      used, growable := 0, "";
      ghost var data := strm.data;
      var prev, more := '\0', true;
      ok := false;
      assert Contents() + data == data;
      while more
        invariant Ready()
        invariant more ==> Scanning(data, Contents(), strm.data, prev)
        invariant !more ==> LineTaken(strm.reliable, data, ok, Contents(), strm.data)
        decreases more, |strm.data|
      {
        more, ok, prev := Scan(prev, data);
      }
    }
  }

  /** In the middle of a line: what has been taken, what is left, and the last byte taken. */
  ghost predicate Scanning(data: string, got: string, rest: string, prev: char) {
    data == got + rest && Unfinished(got) && prev == if got == "" then '\0' else got[|got| - 1]
  }

  /** What the result of reading one byte makes of the line. */
  lemma ByteTaken(reliable: bool, data: string, got: string, rest: string, n: int, byte: char, rest': string,
                  prev: char)
    requires Scanning(data, got, rest, prev) && |got| < MAX_LINE_LENGTH
    requires n == -1 ==> !reliable && rest' == rest
    requires n == 0 ==> rest == "" == rest'
    requires n == 1 ==> rest == [byte] + rest'
    requires -1 <= n <= 1
    ensures n == 1 && !(prev == CR && byte == LF) ==> Scanning(data, got + [byte], rest', byte)
    ensures n == 1 && prev == CR && byte == LF ==> LineTaken(reliable, data, true, got + [byte], rest')
    ensures n == 0 ==> LineTaken(reliable, data, got != "", got, rest')
    ensures n == -1 ==> LineTaken(reliable, data, false, got, rest')
  {
    if n == 0 {
      assert data == got;
      LineUnterminated(reliable, data);
    } else if n == 1 {
      assert data == got + [byte] + rest';
      if prev == CR && byte == LF {
        LineFinished(reliable, data, got, rest');
      } else {
        Extend(got, byte);
      }
    }
  }

  /**
   What `getline` promises: the line it returns is what it took from the stream, and on a
   reliable stream it is exactly the line at the front, whatever the pattern of reads.
   */
  ghost predicate LineTaken(reliable: bool, data: string, ok: bool, line: string, rest: string) {
    && |rest| <= |data|
    && (ok ==> line != "" && data == line + rest)
    && (reliable ==> ok == NextLine(data).ok && rest == NextLine(data).rest)
    && (reliable && ok ==> line == NextLine(data).line)
  }

  /** The bytes read so far hold no CRLF. */
  ghost predicate Unfinished(got: string) {
    |got| <= MAX_LINE_LENGTH && forall j :: 0 <= j < |got| ==> !OccursAt(got, CRLF, j)
  }

  lemma Extend(got: string, byte: char)
    requires Unfinished(got) && |got| < MAX_LINE_LENGTH
    requires !(got != "" && got[|got| - 1] == CR && byte == LF)
    ensures Unfinished(got + [byte])
  {
    forall j | 0 <= j < |got| + 1
      ensures !OccursAt(got + [byte], CRLF, j)
    {
      OccursInPrefix(got, [byte], CRLF, j);
      if j == |got| - 1 {
        assert (got + [byte])[j..j + 2] == [got[j], byte];
      }
    }
  }

  lemma LineFinished(reliable: bool, data: string, got: string, rest: string)
    requires Unfinished(got) && got != "" && got[|got| - 1] == CR && |got| < MAX_LINE_LENGTH
    requires data == got + [LF] + rest
    ensures LineTaken(reliable, data, true, got + [LF], rest)
  {
    var i := |got| - 1;
    assert data[i..i + 2] == [got[i], LF];
    forall j | 0 <= j < i
      ensures !OccursAt(data, CRLF, j)
    {
      assert data == got + ([LF] + rest);
      OccursInPrefix(got, [LF] + rest, CRLF, j);
    }
    FindIs(data, CRLF, i);
  }

  /** No CRLF among the first bytes means the line is longer than they are. */
  lemma LineGoesOn(reliable: bool, data: string, got: string, rest: string)
    requires Unfinished(got) && |got| == MAX_LINE_LENGTH && data == got + rest
    ensures LineTaken(reliable, data, false, got, rest)
  {
    var pos := Find(data, CRLF);
    OccursInPrefix(got, rest, CRLF, pos);
  }

  lemma LineUnterminated(reliable: bool, data: string)
    requires Unfinished(data) && |data| < MAX_LINE_LENGTH
    ensures LineTaken(reliable, data, data != "", data, "")
  {
    FindNone(data, CRLF);
  }
}
