/**
 Percent-encoding of query components (section 2.1 of RFC 3986).

 The encoder and the decoder each have a flag for writing a space as a plus sign.  The decoder is
 lenient: it takes whatever `strtoul` takes for two characters, a blank or a sign in the first place
 included, and leaves anything else as it is.
 */
module Percent {
  import opened Basics
  import opened Numerals
  import opened Text
  import opened Strtoul

  predicate IsByte(c: char) { c as int < 256 }

  ghost predicate Bytes(s: string) { forall i :: 0 <= i < |s| ==> IsByte(s[i]) }

  /** `isalnum` in the C locale, and the unreserved marks. */
  predicate Unreserved(c: char) {
    'a' <= c <= 'z' || 'A' <= c <= 'Z' || '0' <= c <= '9' || c == '-' || c == '.' || c == '_' || c == '~'
  }

  predicate QuerySafe(c: char) {
    || c == '!' || c == '$' || c == '\'' || c == '(' || c == ')' || c == '*' || c == ',' || c == ';'
    || c == ':' || c == '@' || c == '/' || c == '?'
  }

  /** One upper-case hexadecimal digit, as `%02X` prints it. */
  function UpperHex(d: nat): (c: char)
    requires d < 16
    ensures DigitValue(c) == d
  {
    if d < 10 then (d + '0' as int) as char else (d - 10 + 'A' as int) as char
  }

  function Escape(c: char): string
    requires IsByte(c)
  {
    ['%', UpperHex(c as int / 16), UpperHex(c as int % 16)]
  }

  function EncodeChar(c: char, spaceAsPlus: bool): string
    requires IsByte(c)
  {
    if Unreserved(c) then [c]
    else if c == ' ' then if spaceAsPlus then "+" else "%20"
    else if c == '+' then if spaceAsPlus then "%2B" else "+"
    else if QuerySafe(c) then [c]
    else Escape(c)
  }

  function Encode(s: string, spaceAsPlus: bool): string
    requires Bytes(s)
  {
    if s == "" then "" else EncodeChar(s[0], spaceAsPlus) + Encode(s[1..], spaceAsPlus)
  }

  /**
   `strtoul` base 16 of two characters when it consumes both, reduced to a byte; otherwise -1.
   A blank or a sign may stand in the first place.
   */
  function HexPair(a: char, b: char): (v: int)
    ensures -1 <= v < 256
  {
    var h, l := DigitValue(a), DigitValue(b);
    if l == -1 then -1
    else if h != -1 then 16 * h + l
    else if a == '+' || a == ' ' || '\t' <= a <= '\r' then l
    else if a == '-' then (256 - l) % 256
    else -1
  }

  function Decode(s: string, plusAsSpace: bool): string {
    if s == "" then ""
    else if s[0] == '%' && |s| > 2 && HexPair(s[1], s[2]) != -1 then
      [HexPair(s[1], s[2]) as char] + Decode(s[3..], plusAsSpace)
    else if s[0] == '+' && plusAsSpace then " " + Decode(s[1..], plusAsSpace)
    else [s[0]] + Decode(s[1..], plusAsSpace)
  }

  // -------------------------------------------------------------------- the loops

  method EncodeQueryComponent(s: string, spaceAsPlus: bool) returns (r: string)
    requires Bytes(s)
    ensures r == Encode(s, spaceAsPlus)
  {
    r := "";
    assert s[0..] == s;
    for i := 0 to |s|
      invariant r + Encode(s[i..], spaceAsPlus) == Encode(s, spaceAsPlus)
    {
      assert s[i..][1..] == s[i + 1..];
      Associate(r, EncodeChar(s[i], spaceAsPlus), Encode(s[i + 1..], spaceAsPlus));
      r := r + EncodeChar(s[i], spaceAsPlus);
    }
  }

  method DecodeQueryComponent(s: string, plusAsSpace: bool) returns (r: string)
    ensures r == Decode(s, plusAsSpace)
  {
    r := "";
    var i := 0;
    ghost var goal := Decode(s, plusAsSpace);
    assert s[0..] == s;
    while i < |s|
      invariant 0 <= i <= |s|
      invariant r + Decode(s[i..], plusAsSpace) == goal
    {
      var next, step := s[i], 1;
      if s[i] == '%' && i + 2 < |s| {
        var value := HexPair(s[i + 1], s[i + 2]);
        if value != -1 {
          next, step := value as char, 3;
        }
      } else if s[i] == '+' && plusAsSpace {
        next := ' ';
      }
      DecodeStep(s, i, plusAsSpace, next, step);
      Associate(r, [next], Decode(s[i + step..], plusAsSpace));
      r := r + [next];
      i := i + step;
    }
  }

  lemma DecodeStep(s: string, i: nat, plusAsSpace: bool, next: char, step: nat)
    requires i < |s|
    requires var hex := if s[i] == '%' && i + 2 < |s| then HexPair(s[i + 1], s[i + 2]) else -1;
             && step == (if hex != -1 then 3 else 1)
             && next == (if hex != -1 then hex as char else if s[i] == '+' && plusAsSpace then ' ' else s[i])
    ensures i + step <= |s|
    ensures Decode(s[i..], plusAsSpace) == [next] + Decode(s[i + step..], plusAsSpace)
  {
    var t := s[i..];
    assert t[0] == s[i] && t[1..] == s[i + 1..];
    if i + 2 < |s| {
      assert t[1] == s[i + 1] && t[2] == s[i + 2] && t[3..] == s[i + 3..];
    }
  }

  // ------------------------------------------------------------------- round trip

  /** What one byte becomes when the two sides may disagree about the plus sign. */
  function Seen(c: char, spaceAsPlus: bool, plusAsSpace: bool): char {
    if spaceAsPlus && !plusAsSpace && c == ' ' then '+'
    else if !spaceAsPlus && plusAsSpace && c == '+' then ' '
    else c
  }

  function AllSeen(s: string, spaceAsPlus: bool, plusAsSpace: bool): (r: string)
    ensures |r| == |s| && forall i :: 0 <= i < |s| ==> r[i] == Seen(s[i], spaceAsPlus, plusAsSpace)
  {
    if s == "" then "" else [Seen(s[0], spaceAsPlus, plusAsSpace)] + AllSeen(s[1..], spaceAsPlus, plusAsSpace)
  }

  lemma DecodePlain(c: char, t: string, plusAsSpace: bool)
    requires c != '%'
    ensures Decode([c] + t, plusAsSpace) == [if c == '+' && plusAsSpace then ' ' else c] + Decode(t, plusAsSpace)
  {
    assert ([c] + t)[1..] == t;
  }

  lemma DecodeEscape(a: char, b: char, t: string, plusAsSpace: bool)
    requires HexPair(a, b) != -1
    ensures Decode(['%', a, b] + t, plusAsSpace) == [HexPair(a, b) as char] + Decode(t, plusAsSpace)
  {
    var s := ['%', a, b] + t;
    assert s[0] == '%' && s[1] == a && s[2] == b && s[3..] == t;
  }

  lemma DecodeChar(c: char, t: string, spaceAsPlus: bool, plusAsSpace: bool)
    requires IsByte(c)
    ensures Decode(EncodeChar(c, spaceAsPlus) + t, plusAsSpace)
         == [Seen(c, spaceAsPlus, plusAsSpace)] + Decode(t, plusAsSpace)
  {
    var e := EncodeChar(c, spaceAsPlus);
    if |e| == 1 {
      DecodePlain(e[0], t, plusAsSpace);
      assert e == [e[0]];
    } else {
      assert e == ['%', e[1], e[2]];
      assert HexPair(e[1], e[2]) == c as int;
      DecodeEscape(e[1], e[2], t, plusAsSpace);
    }
  }

  lemma {:induction false} DecodeEncode(s: string, spaceAsPlus: bool, plusAsSpace: bool)
    requires Bytes(s)
    ensures Decode(Encode(s, spaceAsPlus), plusAsSpace) == AllSeen(s, spaceAsPlus, plusAsSpace)
  {
    if s != "" {
      DecodeEncode(s[1..], spaceAsPlus, plusAsSpace);
      DecodeChar(s[0], Encode(s[1..], spaceAsPlus), spaceAsPlus, plusAsSpace);
    }
  }

  /** Decoding undoes encoding exactly when the flags agree or the text lacks the character they disagree on. */
  lemma {:induction false} RoundTrip(s: string, spaceAsPlus: bool, plusAsSpace: bool)
    requires Bytes(s)
    ensures Decode(Encode(s, spaceAsPlus), plusAsSpace) == s <==>
            (spaceAsPlus == plusAsSpace || (if spaceAsPlus then ' ' else '+') !in s)
  {
    DecodeEncode(s, spaceAsPlus, plusAsSpace);
    var odd := if spaceAsPlus then ' ' else '+';
    if spaceAsPlus != plusAsSpace && odd in s {
      var i :| 0 <= i < |s| && s[i] == odd;
      assert AllSeen(s, spaceAsPlus, plusAsSpace)[i] != s[i];
    } else {
      assert AllSeen(s, spaceAsPlus, plusAsSpace) == s;
    }
  }

  /** No delimiter of a query, and no blank, survives encoding. */
  predicate Plain(c: char) { c != '&' && c != '=' && c != ' ' && c != '\t' }

  ghost predicate AllPlain(s: string) { forall i :: 0 <= i < |s| ==> Plain(s[i]) }

  lemma HexPlain(d: nat)
    requires d < 16
    ensures Plain(UpperHex(d))
  {
  }

  lemma CharPlain(c: char, spaceAsPlus: bool)
    requires IsByte(c)
    ensures AllPlain(EncodeChar(c, spaceAsPlus))
  {
    HexPlain(c as int / 16);
    HexPlain(c as int % 16);
  }

  lemma {:induction false} EncodedPlain(s: string, spaceAsPlus: bool)
    requires Bytes(s)
    ensures AllPlain(Encode(s, spaceAsPlus))
  {
    if s != "" {
      CharPlain(s[0], spaceAsPlus);
      EncodedPlain(s[1..], spaceAsPlus);
    }
  }

  // -------------------------------------------------------------- what is not escaped

  predicate IsLetter(c: char) { 'a' <= c <= 'z' || 'A' <= c <= 'Z' }

  /** The characters of a query (sections 2.2, 2.3 and 3.4 of RFC 3986). */
  predicate IsQueryChar(c: char) {
    IsLetter(c) || '0' <= c <= '9' || c in "-._~" || c in "!$&'()*+,;=" || c in ":@" || c in "/?"
  }

  /** Left as they are: the characters of a query, but for those that would part it or stand for a space. */
  lemma KeptExactly(c: char, spaceAsPlus: bool)
    requires IsByte(c)
    ensures EncodeChar(c, spaceAsPlus) == [c]
            <==> IsQueryChar(c) && c != '&' && c != '=' && !(c == '+' && spaceAsPlus)
  {
  }

  // ------------------------------------------------------- what an escape may look like

  /** Two hexadecimal digits in either case stand for the byte they write. */
  lemma EscapeReads(a: char, b: char, t: string, plusAsSpace: bool)
    requires IsDigit(a, 16) && IsDigit(b, 16)
    ensures Decode("%" + [a, b] + t, plusAsSpace)
         == [(16 * DigitValue(a) + DigitValue(b)) as char] + Decode(t, plusAsSpace)
  {
    var s := "%" + [a, b] + t;
    assert s[0] == '%' && s[1] == a && s[2] == b && s[3..] == t;
  }

  /** Two characters are read as an escape just if `strtoul` takes both. */
  lemma EscapeExactly(a: char, b: char)
    ensures HexPair(a, b) != -1 <==> IsDigit(b, 16) && (IsDigit(a, 16) || IsSpace(a) || a == '+' || a == '-')
  {
  }

  /** What is read as an escape is what `strtoul` makes of the two characters, reduced to a byte. */
  lemma HexPairIsStrtoul(a: char, b: char)
    requires HexPair(a, b) != -1
    ensures StrToUl16([a, b]).Number? && StrToUl16([a, b]).value % 256 == HexPair(a, b)
  {
    assert [a, b][1..] == [b] && [b][1..] == "";
    if IsDigit(a, 16) {
      TwoDigits(a, b);
    } else {
      OneDigit(b);
      AfterBlank(a, b);
    }
  }

  lemma TwoDigits(a: char, b: char)
    requires IsDigit(a, 16) && IsDigit(b, 16)
    ensures HexRun([a, b]) == [a, b] && Value([a, b], 16) == 16 * DigitValue(a) + DigitValue(b)
  {
    OneDigit(a);
    OneDigit(b);
    var ab := [a, b];
    assert ab[1..] == [b] && ab[..1] == [a] && ab == [a] + [b];
  }

  lemma OneDigit(b: char)
    requires IsDigit(b, 16)
    ensures HexRun([b]) == [b] && Value([b], 16) == DigitValue(b)
  {
    assert [b][1..] == "" && [b][..0] == "";
  }

  lemma AfterBlank(a: char, b: char)
    requires IsDigit(b, 16)
    ensures IsSpace(a) ==> StripLeft([a, b]) == [b]
    ensures a == '+' || a == '-' ==> StripLeft([a, b]) == [a, b]
  {
    assert [a, b][1..] == [b];
  }
}
