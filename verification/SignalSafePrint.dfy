/**
 The integer printers of the crash handler.

 They must not allocate, so each digit loop fills a fixed scratch buffer from the lowest digit up and
 the result is copied out in reverse.  The printers are proved equal to the numerals of the number,
 the scratch buffers are proved never to be full early, and nothing else in the output is touched.
 */
module SignalSafePrint {
  import opened Basics
  import opened Numerals

  const UINT64_LIMIT: int := 0x1_0000_0000_0000_0000
  const INT64_LIMIT: int := 0x8000_0000_0000_0000

  /** What the printers put into `buf`: `s` at `off`, the rest untouched. */
  ghost predicate Written(before: seq<char>, after: seq<char>, off: nat, s: string) {
    && |after| == |before| && off + |s| <= |after|
    && after[off..off + |s|] == s
    && (forall i :: 0 <= i < off || off + |s| <= i < |after| ==> after[i] == before[i])
  }

  function Reversed(s: seq<char>): (r: seq<char>)
    ensures |r| == |s|
    ensures forall i :: 0 <= i < |s| ==> r[i] == s[|s| - 1 - i]
  {
    if s == [] then [] else Reversed(s[1..]) + [s[0]]
  }

  /**
   The digit loop: fills `tmp` from the lowest digit.  Every 64-bit value fits, so the
   capacity test of the loop never cuts a number short.
   */
  method Digits(v: nat, base: nat, tmp: array<char>) returns (n: nat)
    requires 0 < v && 2 <= base <= 16 && v < Pow(base, tmp.Length) && 0 < tmp.Length
    modifies tmp
    ensures n <= tmp.Length
    ensures Reversed(tmp[..n]) == Show(v, base)
  {
    ShowLength(v, base, tmp.Length);
    var u: nat := v;
    n := 0;
    while u > 0 && n < tmp.Length
      invariant 0 <= n <= tmp.Length
      invariant Higher(u, base) + Reversed(tmp[..n]) == Show(v, base)
      decreases u
    {
      ghost var done := tmp[..n];
      DigitMoves(u, base, done);
      tmp[n] := DigitChar(u % base);
      assert tmp[..n + 1] == done + [DigitChar(u % base)];
      u := u / base;
      n := n + 1;
    }
    assert |Higher(u, base)| + n == |Show(v, base)|;
    assert Higher(u, base) == "" ==> Higher(u, base) + Reversed(tmp[..n]) == Reversed(tmp[..n]);
  }

  /** The digits not yet produced. */
  ghost function Higher(u: nat, base: nat): (s: string)
    requires 2 <= base <= 16
    ensures u > 0 ==> s != ""
  {
    if u == 0 then "" else Show(u, base)
  }

  lemma DigitMoves(u: nat, base: nat, done: seq<char>)
    requires 2 <= base <= 16 && u > 0
    ensures 0 <= u / base < u && 0 <= u % base < base
    ensures Higher(u / base, base) + Reversed(done + [DigitChar(u % base)]) == Higher(u, base) + Reversed(done)
  {
    DivMod(u, base);
    SmallQuotient(u, base);
    var c := DigitChar(u % base);
    assert Show(u, base) == Higher(u / base, base) + [c];
    ReversedPush(done, c);
    Associate(Higher(u / base, base), [c], Reversed(done));
  }

  lemma SmallQuotient(u: nat, base: nat)
    requires 2 <= base
    ensures u < base ==> u / base == 0 && u % base == u
    ensures u > 0 ==> u / base < u
    ensures u >= base ==> u / base > 0
  {
    DivMod(u, base);
  }

  lemma ReversedPush(s: seq<char>, c: char)
    ensures Reversed(s + [c]) == [c] + Reversed(s)
  {
    var a, b := Reversed(s + [c]), [c] + Reversed(s);
    forall i | 0 <= i < |a|
      ensures a[i] == b[i]
    {
      assert a[i] == (s + [c])[|s| - i];
    }
  }

  /** Copies the scratch digits out in reverse. */
  method CopyReversed(tmp: array<char>, n: nat, buf: array<char>, off: nat)
    requires n <= tmp.Length && off + n <= buf.Length && tmp != buf
    modifies buf
    ensures Written(old(buf[..]), buf[..], off, Reversed(tmp[..n]))
  {
    ghost var text, before := Reversed(tmp[..n]), buf[..];
    for i := 0 to n
      invariant forall j :: 0 <= j < i ==> buf[off + j] == text[j]
      invariant forall j :: 0 <= j < off || off + i <= j < buf.Length ==> buf[j] == before[j]
    {
      buf[off + i] := tmp[n - 1 - i];
    }
    assert buf[..][off..off + n] == text;
  }

  /** Decimal, at least one digit. */
  method WriteUint(buf: array<char>, v: nat) returns (n: nat)
    requires v < UINT64_LIMIT && |Show(v, 10)| <= buf.Length
    modifies buf
    ensures n == |Show(v, 10)|
    ensures Written(old(buf[..]), buf[..], 0, Show(v, 10))
  {
    if v == 0 {
      buf[0] := '0';
      assert buf[..][0..1] == "0";
      return 1;
    }
    var tmp := new char[24];
    FitsDecimal(v);
    n := Digits(v, 10, tmp);
    CopyReversed(tmp, n, buf, 0);
  }

  lemma FitsDecimal(v: nat)
    requires v < UINT64_LIMIT
    ensures v < Pow(10, 24)
  {
    Powers();
    assert Pow(10, 21) == 10 * Pow(10, 20);
    assert Pow(10, 22) == 10 * Pow(10, 21);
    assert Pow(10, 23) == 10 * Pow(10, 22);
    assert Pow(10, 24) == 10 * Pow(10, 23);
  }

  /** The magnitude is formed without overflow also for the smallest value. */
  function Magnitude(v: int): (u: nat)
    requires -INT64_LIMIT <= v < INT64_LIMIT
    ensures u == (if v < 0 then -v else v) <= INT64_LIMIT
  {
    if v < 0 then
      assert 0 <= -(v + 1) < INT64_LIMIT;
      (-(v + 1)) + 1
    else v
  }

  method WriteInt(buf: array<char>, v: int) returns (n: nat)
    requires -INT64_LIMIT <= v < INT64_LIMIT && |ShowInt(v)| <= buf.Length
    modifies buf
    ensures n == |ShowInt(v)|
    ensures Written(old(buf[..]), buf[..], 0, ShowInt(v))
  {
    ghost var before := buf[..];
    var off, u := 0, Magnitude(v);
    if v < 0 {
      buf[0] := '-';
      off := 1;
    }
    if u == 0 {
      buf[off] := '0';
      assert buf[..][0..1] == "0";
      return off + 1;
    }
    var tmp := new char[24];
    FitsDecimal(u);
    n := Digits(u, 10, tmp);
    ghost var middle := buf[..];
    CopyReversed(tmp, n, buf, off);
    if v < 0 {
      JoinWritten(before, middle, buf[..], '-', Show(u, 10));
    }
    return off + n;
  }

  lemma JoinWritten(before: seq<char>, middle: seq<char>, after: seq<char>, c: char, s: string)
    requires |before| > 0 && middle == before[0 := c] && Written(middle, after, 1, s)
    ensures Written(before, after, 0, [c] + s)
  {
    assert after[0..1 + |s|] == [after[0]] + after[1..1 + |s|];
  }

  function ShowHex(v: nat): string { "0x" + Show(v, 16) }

  method WriteHex(buf: array<char>, v: nat) returns (n: nat)
    requires v < UINT64_LIMIT && |ShowHex(v)| <= buf.Length
    modifies buf
    ensures n == |ShowHex(v)|
    ensures Written(old(buf[..]), buf[..], 0, ShowHex(v))
  {
    ghost var before := buf[..];
    buf[0] := '0';
    buf[1] := 'x';
    if v == 0 {
      buf[2] := '0';
      assert buf[..][0..3] == "0x" + "0";
      return 3;
    }
    var tmp := new char[16];
    Powers();
    n := Digits(v, 16, tmp);
    ghost var middle := buf[..];
    CopyReversed(tmp, n, buf, 2);
    assert buf[..][0..2 + n] == [buf[0], buf[1]] + buf[..][2..2 + n];
    return n + 2;
  }

  /** Every 64-bit number fits the callers' buffers, and the text determines the number. */
  lemma PrintedForms(v: nat)
    requires v < UINT64_LIMIT
    ensures |Show(v, 10)| <= 20 && Value(Show(v, 10), 10) == v
    ensures |ShowHex(v)| <= 18 && Value(ShowHex(v)[2..], 16) == v
  {
    Powers();
    ShowLength(v, 10, 20);
    ShowLength(v, 16, 16);
    ValueShow(v, 10);
    ValueShow(v, 16);
    assert ShowHex(v)[2..] == Show(v, 16);
  }

  /** Reads a printed signed number back. */
  function ReadInt(s: string): int
    requires s != "" && AllDigits(if s[0] == '-' then s[1..] else s, 10)
  {
    if s[0] == '-' then 0 - Value(s[1..], 10) as int else Value(s, 10)
  }

  lemma IntRoundTrip(v: int)
    requires -INT64_LIMIT <= v < INT64_LIMIT
    ensures |ShowInt(v)| <= 20
    ensures AllDigits(if ShowInt(v)[0] == '-' then ShowInt(v)[1..] else ShowInt(v), 10)
    ensures ReadInt(ShowInt(v)) == v
  {
    Powers();
    var u := Magnitude(v);
    ShowLength(u, 10, 19);
    ValueShow(u, 10);
    if v < 0 {
      assert ShowInt(v)[1..] == Show(u, 10);
    } else {
      assert IsDigit(Show(v, 10)[0], 10);
    }
  }
}
