/**
 `strtoul` to base 16, as the chunk sizes and the percent codec use it.

 It skips white space, takes a sign and perhaps the prefix 0x, and reads as many digits as there are; a
 minus sign takes the number from 2^64, and a number that is too large becomes the largest.
 */
module Strtoul {
  import opened Text
  import opened Numerals

  const ULONG_MAX: nat := 0xffff_ffff_ffff_ffff

  /** The longest run of hexadecimal digits at the front. */
  function HexRun(s: string): (r: string)
    ensures AllDigits(r, 16)
  {
    if s != "" && IsDigit(s[0], 16) then [s[0]] + HexRun(s[1..]) else ""
  }

  datatype Parsed = NoNumber | Number(value: nat)

  /** The number of a run of digits, with or without a minus sign before it. */
  function Read(minus: bool, v: nat): (r: nat)
    ensures r <= ULONG_MAX && (v > ULONG_MAX ==> r == ULONG_MAX)
    ensures v <= ULONG_MAX ==> if minus then (r + v) % (ULONG_MAX + 1) == 0 else r == v
  {
    if v > ULONG_MAX then ULONG_MAX else if minus && v > 0 then ULONG_MAX + 1 - v else v
  }

  predicate Prefixed(u: string) { |u| > 2 && u[0] == '0' && (u[1] == 'x' || u[1] == 'X') && IsDigit(u[2], 16) }

  function BehindSign(minus: bool, u: string): (r: Parsed)
    ensures r.Number? ==> r.value <= ULONG_MAX
  {
    var digits := HexRun(if Prefixed(u) then u[2..] else u);
    if digits == "" then NoNumber else Number(Read(minus, Value(digits, 16)))
  }

  /** `strtoul(s, &end, 16)`; `NoNumber` is `end == s`. */
  function StrToUl16(s: string): (r: Parsed)
    ensures r.Number? ==> r.value <= ULONG_MAX
  {
    var t := StripLeft(s);
    if t != "" && (t[0] == '-' || t[0] == '+') then BehindSign(t[0] == '-', t[1..]) else BehindSign(false, t)
  }

  // ------------------------------------------------------------------ what it reads

  lemma {:induction false} SkipsSpace(ws: string, t: string)
    requires (forall i :: 0 <= i < |ws| ==> IsSpace(ws[i])) && (t != "" ==> !IsSpace(t[0]))
    ensures StripLeft(ws + t) == t
  {
    if ws == "" {
      assert ws + t == t;
    } else {
      SkipsSpace(ws[1..], t);
      assert (ws + t)[1..] == ws[1..] + t;
    }
  }

  lemma {:induction false} RunEnds(digits: string, rest: string)
    requires AllDigits(digits, 16) && (rest != "" ==> !IsDigit(rest[0], 16))
    ensures HexRun(digits + rest) == digits
  {
    if digits == "" {
      assert digits + rest == rest;
    } else {
      assert (digits + rest)[1..] == digits[1..] + rest;
      RunEnds(digits[1..], rest);
    }
  }

  lemma ReadsBehindSign(minus: bool, prefix: string, digits: string, rest: string, u: string)
    requires prefix == "" || prefix == "0x" || prefix == "0X"
    requires digits != "" && AllDigits(digits, 16) && (rest != "" ==> !IsDigit(rest[0], 16))
    requires prefix == "" && digits == "0" && rest != "" ==> rest[0] != 'x' && rest[0] != 'X'
    requires u == prefix + (digits + rest)
    ensures BehindSign(minus, u) == Number(Read(minus, Value(digits, 16)))
  {
    assert IsDigit(digits[0], 16);
    RunEnds(digits, rest);
    if prefix == "" {
      assert u == digits + rest;
      assert |digits| > 1 ==> u[1] == digits[1] && IsDigit(digits[1], 16);
    } else {
      assert u[2..] == digits + rest && u[2] == digits[0];
    }
  }

  /**
   White space, a sign or none, the prefix 0x or none, and digits up to something else: the number of the
   digits, taken from 2^64 behind a minus sign, and the largest number if it is too large.
   */
  lemma ReadsDigits(ws: string, sign: string, prefix: string, digits: string, rest: string, s: string)
    requires forall i :: 0 <= i < |ws| ==> IsSpace(ws[i])
    requires sign == "" || sign == "+" || sign == "-"
    requires prefix == "" || prefix == "0x" || prefix == "0X"
    requires digits != "" && AllDigits(digits, 16) && (rest != "" ==> !IsDigit(rest[0], 16))
    requires prefix == "" && digits == "0" && rest != "" ==> rest[0] != 'x' && rest[0] != 'X'
    requires s == ws + (sign + (prefix + (digits + rest)))
    ensures StrToUl16(s) == Number(Read(sign == "-", Value(digits, 16)))
  {
    var u := prefix + (digits + rest);
    ReadsBehindSign(sign == "-", prefix, digits, rest, u);
    FirstDigit(prefix, digits, rest, u);
    SignFirst(sign, u);
    SkipsSpace(ws, sign + u);
  }

  lemma FirstDigit(prefix: string, digits: string, rest: string, u: string)
    requires prefix == "" || prefix == "0x" || prefix == "0X"
    requires digits != "" && AllDigits(digits, 16) && u == prefix + (digits + rest)
    ensures u != "" && IsDigit(u[0], 16)
  {
    assert IsDigit(digits[0], 16);
    assert prefix == "" ==> u[0] == digits[0];
  }

  lemma SignFirst(sign: string, u: string)
    requires (sign == "" || sign == "+" || sign == "-") && u != "" && IsDigit(u[0], 16)
    ensures var t := sign + u;
            && !IsSpace(t[0])
            && if sign == "" then t == u && t[0] != '-' && t[0] != '+' else t[0] == sign[0] && t[1..] == u
  {
  }

  /** Without a digit in its place there is no number. */
  lemma ReadsNothing(ws: string, sign: string, rest: string)
    requires forall i :: 0 <= i < |ws| ==> IsSpace(ws[i])
    requires sign == "" || sign == "+" || sign == "-"
    requires rest != "" ==> !IsDigit(rest[0], 16)
    requires rest != "" && sign == "" ==> !IsSpace(rest[0]) && rest[0] != '-' && rest[0] != '+'
    ensures StrToUl16(ws + (sign + rest)) == NoNumber
  {
    var t := sign + rest;
    assert sign != "" ==> t[0] == sign[0] && t[1..] == rest;
    assert sign == "" ==> t == rest;
    SkipsSpace(ws, t);
  }
}
