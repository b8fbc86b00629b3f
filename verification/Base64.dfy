/**
 Base64 (section 4 of RFC 4648): the encoder's 32-bit accumulator against the definition by groups.

 The encoder shifts each byte into a 32-bit accumulator that it never clears, and takes out
 six bits whenever it has them.  After four bytes the accumulator wraps around; the model wraps
 it as a signed number.  Only its two low bytes are ever looked at, and those are always
 the last two bytes of the input.

 `Encode` is the definition: groups of three bytes as four letters, and one padded group for
 what is left over.  It and the bookkeeping of the loop are stated for any coding function
 of a letter's place and two neighbouring bytes, so that no arithmetic is involved;
 `PickedAgrees` is the arithmetic.
 */
module Base64 {
  import opened Basics

  type Byte = n: int | 0 <= n < 256
  type Sextet = n: int | 0 <= n < 64

  /** The base64 alphabet. */
  function Letter(v: Sextet): (c: char)
    ensures c != '='
  {
    if v < 26 then (v + 'A' as int) as char
    else if v < 52 then (v - 26 + 'a' as int) as char
    else if v < 62 then (v - 52 + '0' as int) as char
    else if v == 62 then '+' else '/'
  }

  // --------------------------------------------------------------- by groups of three

  /** The four sextets of three bytes. */
  function First(a: Byte): Sextet { a / 4 }

  function Second(a: Byte, b: Byte): Sextet { a % 4 * 16 + b / 16 }

  function Third(b: Byte, c: Byte): Sextet { b % 16 * 4 + c / 64 }

  function Fourth(c: Byte): Sextet { c % 64 }

  /** The letter in place `k` of a group, from a byte and the one before it. */
  type Coder = (nat, Byte, Byte) -> char

  const Code: Coder := (k: nat, a: Byte, b: Byte) =>
    Letter(if k == 0 then First(b) else if k == 1 then Second(a, b) else if k == 2 then Third(a, b) else Fourth(b))

  function Group(f: Coder, a: Byte, b: Byte, c: Byte): (r: string)
    ensures |r| == 4
  {
    [f(0, 0, a), f(1, a, b), f(2, b, c), f(3, b, c)]
  }

  /** Whole groups from the front, then a padded one for one or two bytes left over. */
  function Encode(f: Coder, s: seq<Byte>): string {
    if s == [] then ""
    else if |s| == 1 then [f(0, 0, s[0]), f(1, s[0], 0), '=', '=']
    else if |s| == 2 then [f(0, 0, s[0]), f(1, s[0], s[1]), f(2, s[1], 0), '=']
    else Group(f, s[0], s[1], s[2]) + Encode(f, s[3..])
  }

  // ------------------------------------------------------------------------ decoding

  function Worth(c: char): (v: Sextet) {
    if 'A' <= c <= 'Z' then c as int - 'A' as int
    else if 'a' <= c <= 'z' then c as int - 'a' as int + 26
    else if '0' <= c <= '9' then c as int - '0' as int + 52
    else if c == '+' then 62 else if c == '/' then 63 else 0
  }

  lemma WorthOfLetter(v: Sextet)
    ensures Worth(Letter(v)) == v
  {
  }

  const UPPER: string := "ABCDEFGHIJKLMNOPQRSTUVWXYZ"
  const LOWER: string := "abcdefghijklmnopqrstuvwxyz"
  const OTHERS: string := "0123456789+/"

  /** The alphabet as the source writes it. */
  function Lookup(): string { UPPER + LOWER + OTHERS }

  lemma UpperLetter(v: Sextet)
    requires v < 26
    ensures Letter(v) == UPPER[v]
  {
  }

  lemma LowerLetter(v: Sextet)
    requires 26 <= v < 52
    ensures Letter(v) == LOWER[v - 26]
  {
  }

  lemma OtherLetter(v: Sextet)
    requires 52 <= v
    ensures Letter(v) == OTHERS[v - 52]
  {
  }

  /** A letter is looked up in the alphabet. */
  lemma LetterIsLookup(v: Sextet)
    ensures |Lookup()| == 64 && Letter(v) == Lookup()[v]
  {
    Pick(UPPER, LOWER, OTHERS, v);
    if v < 26 {
      UpperLetter(v);
    } else if v < 52 {
      LowerLetter(v);
    } else {
      OtherLetter(v);
    }
  }

  lemma Pick(a: string, b: string, c: string, v: nat)
    requires v < |a| + |b| + |c|
    ensures (a + b + c)[v] == if v < |a| then a[v] else if v < |a| + |b| then b[v - |a|] else c[v - |a| - |b|]
  {
  }

  /** The bytes of a text of groups of four, padding ending it. */
  function Decode(t: string): seq<Byte> {
    if |t| < 4 then []
    else
      var a: Byte := Worth(t[0]) * 4 + Worth(t[1]) / 16;
      if t[2] == '=' then [a]
      else
        var b: Byte := Worth(t[1]) % 16 * 16 + Worth(t[2]) / 4;
        if t[3] == '=' then [a, b]
        else
          var c: Byte := Worth(t[2]) % 4 * 64 + Worth(t[3]);
          [a, b, c] + Decode(t[4..])
  }

  lemma Regained(a: Byte, b: Byte, c: Byte)
    ensures First(a) * 4 + Second(a, b) / 16 == a
    ensures Second(a, b) % 16 * 16 + Third(b, c) / 4 == b
    ensures Third(b, c) % 4 * 64 + Fourth(c) == c
  {
  }

  /** What a letter of a group is worth. */
  lemma CodeWorth(a: Byte, b: Byte)
    ensures Worth(Code(0, 0, b)) == First(b) && Worth(Code(1, a, b)) == Second(a, b)
    ensures Worth(Code(2, a, b)) == Third(a, b) && Worth(Code(3, a, b)) == Fourth(b)
    ensures Code(2, a, b) != '=' && Code(3, a, b) != '='
  {
    WorthOfLetter(First(b));
    WorthOfLetter(Second(a, b));
    WorthOfLetter(Third(a, b));
    WorthOfLetter(Fourth(b));
  }

  lemma DecodeGroup(a: Byte, b: Byte, c: Byte, t: string)
    ensures Decode(Group(Code, a, b, c) + t) == [a, b, c] + Decode(t)
  {
    CodeWorth(0, a);
    CodeWorth(a, b);
    CodeWorth(b, c);
    Regained(a, b, c);
    DecodeFour(Code(0, 0, a), Code(1, a, b), Code(2, b, c), Code(3, b, c), a, b, c, t);
  }

  lemma DecodeFour(w: char, x: char, y: char, z: char, a: Byte, b: Byte, c: Byte, t: string)
    requires y != '=' && z != '='
    requires Worth(w) * 4 + Worth(x) / 16 == a && Worth(x) % 16 * 16 + Worth(y) / 4 == b
    requires Worth(y) % 4 * 64 + Worth(z) == c
    ensures Decode([w, x, y, z] + t) == [a, b, c] + Decode(t)
  {
    var s := [w, x, y, z] + t;
    assert s[4..] == t;
  }

  lemma DecodeOne(a: Byte)
    ensures Decode([Code(0, 0, a), Code(1, a, 0), '=', '=']) == [a]
  {
    CodeWorth(0, a);
    CodeWorth(a, 0);
    Regained(a, 0, 0);
    DecodeTwoLetters(Code(0, 0, a), Code(1, a, 0), a);
  }

  lemma DecodeTwoLetters(w: char, x: char, a: Byte)
    requires Worth(w) * 4 + Worth(x) / 16 == a
    ensures Decode([w, x, '=', '=']) == [a]
  {
  }

  lemma DecodeTwo(a: Byte, b: Byte)
    ensures Decode([Code(0, 0, a), Code(1, a, b), Code(2, b, 0), '=']) == [a, b]
  {
    CodeWorth(0, a);
    CodeWorth(a, b);
    CodeWorth(b, 0);
    Regained(a, b, 0);
    DecodeThreeLetters(Code(0, 0, a), Code(1, a, b), Code(2, b, 0), a, b);
  }

  lemma DecodeThreeLetters(w: char, x: char, y: char, a: Byte, b: Byte)
    requires y != '=' && Worth(w) * 4 + Worth(x) / 16 == a && Worth(x) % 16 * 16 + Worth(y) / 4 == b
    ensures Decode([w, x, y, '=']) == [a, b]
  {
  }

  /** Decoding gives back every byte string. */
  lemma {:induction false} RoundTrip(s: seq<Byte>)
    ensures Decode(Encode(Code, s)) == s
  {
    if |s| >= 3 {
      RoundTrip(s[3..]);
      LongRoundTrip(s, Encode(Code, s[3..]));
    } else if |s| == 2 {
      DecodeTwo(s[0], s[1]);
      assert s == [s[0], s[1]];
    } else if |s| == 1 {
      DecodeOne(s[0]);
    }
  }

  lemma LongRoundTrip(s: seq<Byte>, rest: string)
    requires |s| >= 3 && Decode(rest) == s[3..]
    ensures Decode(Group(Code, s[0], s[1], s[2]) + rest) == s
  {
    DecodeGroup(s[0], s[1], s[2], rest);
    assert s == [s[0], s[1], s[2]] + s[3..];
  }

  // ------------------------------------------------------ the accumulator's low bits

  const INT_RANGE: int := 0x1_0000_0000

  /** A 32-bit signed result, wrapped around. */
  function Wrap(n: int): (r: int)
    ensures -0x8000_0000 <= r < 0x8000_0000
  {
    var low := n % INT_RANGE;
    if low < 0x8000_0000 then low else low - INT_RANGE
  }

  function Pow2(k: nat): nat { if k == 0 then 1 else if k == 2 then 4 else if k == 4 then 16 else 64 }

  /** `(val >> k) & 0x3F` for k = 0, 2, 4 or 6: the shift of a signed number rounds down. */
  function Bits(val: int, k: nat): Sextet { val / Pow2(k) % 64 }

  function Picked(val: int): nat -> char { (k: nat) => Letter(Bits(val, k)) }

  /** What the accumulator holds of the last two bytes, all that is ever looked at. */
  predicate Ends(val: int, b: Byte, c: Byte) { val % 65536 == b * 256 + c }

  lemma WrapKeeps(n: int)
    ensures Wrap(n) % 65536 == n % 65536
  {
    var q := n / INT_RANGE;
    assert n == q * INT_RANGE + n % INT_RANGE;
    var m := if n % INT_RANGE < 0x8000_0000 then q else q + 1;
    assert n == Wrap(n) + 65536 * (65536 * m);
    ModShift(Wrap(n), 65536 * m);
  }

  lemma ModShift(r: int, m: int)
    ensures (r + 65536 * m) % 65536 == r % 65536
  {
  }

  lemma NextByte(val: int, a: Byte, b: Byte, c: Byte)
    requires Ends(val, a, b)
    ensures Ends(Wrap(val * 256 + c), b, c)
  {
    WrapKeeps(val * 256 + c);
    var q := val / 65536;
    assert val == 65536 * q + a * 256 + b;
    assert val * 256 + c == b * 256 + c + 65536 * (256 * q + a);
    ModShift(b * 256 + c, 256 * q + a);
  }

  lemma By4(n: int, q: int, r: int)
    requires n == 4 * q + r && 0 <= r < 4
    ensures n / 4 == q
  {
  }

  lemma By16(n: int, q: int, r: int)
    requires n == 16 * q + r && 0 <= r < 16
    ensures n / 16 == q
  {
  }

  lemma By64(n: int, q: int, r: int)
    requires n == 64 * q + r && 0 <= r < 64
    ensures n / 64 == q && n % 64 == r
  {
  }

  lemma BitsTwo(val: int, b: Byte, c: Byte)
    requires Ends(val, b, c)
    ensures Bits(val, 2) == First(c)
  {
    var q := val / 65536;
    By4(val, 16384 * q + 64 * b + c / 4, c % 4);
    By64(val / 4, 256 * q + b, c / 4);
  }

  lemma BitsFour(val: int, b: Byte, c: Byte)
    requires Ends(val, b, c)
    ensures Bits(val, 4) == Second(b, c)
  {
    var q := val / 65536;
    By16(val, 4096 * q + 16 * b + c / 16, c % 16);
    By64(val / 16, 64 * q + b / 4, b % 4 * 16 + c / 16);
  }

  lemma BitsSix(val: int, b: Byte, c: Byte)
    requires Ends(val, b, c)
    ensures Bits(val, 6) == Third(b, c)
  {
    var q := val / 65536;
    By64(val, 1024 * q + 4 * b + c / 64, c % 64);
    By64(val / 64, 16 * q + b / 16, b % 16 * 4 + c / 64);
  }

  lemma BitsZero(val: int, b: Byte, c: Byte)
    requires Ends(val, b, c)
    ensures Bits(val, 0) == Fourth(c)
  {
    var q := val / 65536;
    By64(val, 1024 * q + 4 * b + c / 64, c % 64);
  }

  /** The letters picked from the accumulator are those of the group. */
  predicate Agree(f: Coder, g: nat -> char, b: Byte, c: Byte) {
    f(0, 0, c) == g(2) && f(1, b, c) == g(4) && f(2, b, c) == g(6) && f(3, b, c) == g(0)
  }

  lemma PickedAgrees(val: int, b: Byte, c: Byte)
    requires Ends(val, b, c)
    ensures Agree(Code, Picked(val), b, c)
  {
    BitsTwo(val, b, c);
    BitsFour(val, b, c);
    BitsSix(val, b, c);
    BitsZero(val, b, c);
  }

  // -------------------------------------------------------------------- the encoder

  /** The byte before place `i`. */
  function Before(s: seq<Byte>, i: nat): Byte
    requires i <= |s|
  {
    if i == 0 then 0 else s[i - 1]
  }

  /** The accumulator's low bytes are the last two of the first `i`. */
  predicate EndsAt(val: int, s: seq<Byte>, i: nat)
    requires i <= |s|
  {
    Ends(val, if i == 0 then 0 else Before(s, i - 1), Before(s, i))
  }

  /** The letters a byte completes, by its place in its group. */
  function Completed(f: Coder, place: nat, a: Byte, c: Byte): string {
    if place == 0 then [f(0, 0, c)] else if place == 1 then [f(1, a, c)] else [f(2, a, c), f(3, a, c)]
  }

  /** The letters written after the first `i` bytes. */
  function Written(f: Coder, s: seq<Byte>, i: nat): string
    requires i <= |s|
  {
    if i == 0 then "" else Written(f, s, i - 1) + Completed(f, (i - 1) % 3, Before(s, i - 1), s[i - 1])
  }

  /** `valb` after the first `i` bytes: how many bits are left over, less six. */
  function BitCount(i: nat): int { if i % 3 == 0 then -6 else if i % 3 == 1 then -4 else -2 }

  /** The encoder's variables after the first `i` bytes. */
  datatype Loop = Loop(out: string, val: int, valb: int)

  ghost predicate After(f: Coder, l: Loop, s: seq<Byte>, i: nat)
    requires i <= |s|
  {
    match l case Loop(out, val, valb) => out == Written(f, s, i) && valb == BitCount(i) && EndsAt(val, s, i)
  }

  method Base64Encode(s: seq<Byte>) returns (out: string)
    ensures out == Encode(Code, s)
  {
    out := "";
    var val, valb := 0, -6;
    for i := 0 to |s|
      invariant After(Code, Loop(out, val, valb), s, i)
    {
      NextEnds(val, s, i);
      ghost var before := Loop(out, val, valb);
      val := Wrap(val * 256 + s[i]);
      ByteStep(Code, Picked(val), before, s, i, val);
      out, valb := PushBits(out, Picked(val), valb + 8);
    }
    out := CloseOff(out, val, valb, s);
  }

  /** The bits left over, and the padding. */
  method CloseOff(out0: string, val: int, valb: int, s: seq<Byte>) returns (out: string)
    requires After(Code, Loop(out0, val, valb), s, |s|)
    ensures out == Encode(Code, s)
  {
    LastStep(val, s);
    Finish(Code, s);
    out := out0 + if valb > -6 then [Picked(Wrap(val * 256))(valb + 8)] else "";
    out := Pad(out);
  }

  /** The inner loop: every whole sextet among the `valb + 6` bits at hand. */
  method PushBits(out0: string, g: nat -> char, valb0: int) returns (out: string, valb: int)
    requires 0 <= valb0 <= 6
    ensures out == out0 + Letters(g, valb0) && valb == LeftOver(valb0)
  {
    out, valb := out0, valb0;
    while valb >= 0
      invariant valb <= 6 && (valb == valb0 || valb == valb0 - 6 || (valb0 == 6 && valb == -6))
      invariant out + Letters(g, valb) == out0 + Letters(g, valb0)
    {
      Associate(out, [g(valb)], Letters(g, valb - 6));
      out := out + [g(valb)];
      valb := valb - 6;
    }
  }

  function LeftOver(valb: int): int { if valb == 6 then -6 else valb - 6 }

  function Letters(g: nat -> char, valb: int): string
    decreases valb + 6
  {
    if valb < 0 then "" else [g(valb)] + Letters(g, valb - 6)
  }

  lemma NextEnds(val: int, s: seq<Byte>, i: nat)
    requires i < |s| && EndsAt(val, s, i)
    ensures var next := Wrap(val * 256 + s[i]); EndsAt(next, s, i + 1) && Agree(Code, Picked(next), Before(s, i), s[i])
  {
    NextByte(val, if i == 0 then 0 else Before(s, i - 1), Before(s, i), s[i]);
    PickedAgrees(Wrap(val * 256 + s[i]), Before(s, i), s[i]);
  }

  lemma CountStep(i: nat)
    ensures 0 <= BitCount(i) + 8 <= 6 && BitCount(i + 1) == LeftOver(BitCount(i) + 8)
  {
  }

  /** One trip of the loop. */
  lemma ByteStep(f: Coder, g: nat -> char, l: Loop, s: seq<Byte>, i: nat, next: int)
    requires i < |s| && After(f, l, s, i) && EndsAt(next, s, i + 1) && Agree(f, g, Before(s, i), s[i])
    ensures 0 <= l.valb + 8 <= 6
    ensures After(f, Loop(l.out + Letters(g, l.valb + 8), next, LeftOver(l.valb + 8)), s, i + 1)
  {
    CountStep(i);
    WriteStep(f, g, s, i);
  }

  lemma WriteStep(f: Coder, g: nat -> char, s: seq<Byte>, i: nat)
    requires i < |s| && Agree(f, g, Before(s, i), s[i])
    ensures Written(f, s, i + 1) == Written(f, s, i) + Letters(g, BitCount(i) + 8)
  {
    assert Letters(g, -6) == "" && Letters(g, 0) == [g(0)];
    assert Letters(g, BitCount(i) + 8) == Completed(f, i % 3, Before(s, i), s[i]);
  }

  /** The letter for the bits left over at the end, filled up with zero bits. */
  function Last(f: Coder, s: seq<Byte>): string {
    if |s| % 3 == 0 then ""
    else if |s| % 3 == 1 then [f(1, s[|s| - 1], 0)]
    else [f(2, s[|s| - 1], 0)]
  }

  lemma LastStep(val: int, s: seq<Byte>)
    requires EndsAt(val, s, |s|)
    ensures Last(Code, s) == if BitCount(|s|) > -6 then [Picked(Wrap(val * 256))(BitCount(|s|) + 8)] else ""
  {
    NextByte(val, if |s| == 0 then 0 else Before(s, |s| - 1), Before(s, |s|), 0);
    PickedAgrees(Wrap(val * 256 + 0), Before(s, |s|), 0);
    LastLetter(Code, Picked(Wrap(val * 256)), s);
  }

  lemma LastLetter(f: Coder, g: nat -> char, s: seq<Byte>)
    requires Agree(f, g, Before(s, |s|), 0)
    ensures Last(f, s) == if BitCount(|s|) > -6 then [g(BitCount(|s|) + 8)] else ""
  {
  }

  /** What makes `n` letters up to a multiple of four. */
  function Padding(n: nat): string {
    match n % 4
    case 0 => ""
    case 1 => "==="
    case 2 => "=="
    case _ => "="
  }

  function Padded(s: string): string { s + Padding(|s|) }

  lemma PaddingStep(n: nat)
    requires n % 4 != 0
    ensures Padding(n) == "=" + Padding(n + 1)
  {
  }

  method Pad(s: string) returns (out: string)
    ensures out == Padded(s)
  {
    out := s;
    while |out| % 4 != 0
      invariant out + Padding(|out|) == Padded(s)
      decreases |Padding(|out|)|
    {
      PaddingStep(|out|);
      Associate(out, "=", Padding(|out| + 1));
      out := out + "=";
    }
    assert out + "" == out;
  }

  /** Three places on, a byte completes the same letters. */
  lemma SamePlace(f: Coder, s: seq<Byte>, rest: seq<Byte>, i: nat)
    requires 0 < i && i + 3 <= |s| && rest == s[3..]
    ensures Completed(f, (i + 2) % 3, Before(s, i + 2), s[i + 2])
         == Completed(f, (i - 1) % 3, Before(rest, i - 1), rest[i - 1])
  {
    assert rest[i - 1] == s[i + 2];
    assert (i + 2) % 3 == (i - 1) % 3;
    if i > 1 {
      assert Before(rest, i - 1) == rest[i - 2] == s[i + 1];
    }
  }

  lemma {:induction false} WrittenGroup(f: Coder, s: seq<Byte>, rest: seq<Byte>, g: string, i: nat)
    requires i + 3 <= |s| && rest == s[3..] && g == Group(f, s[0], s[1], s[2])
    ensures Written(f, s, i + 3) == g + Written(f, rest, i)
  {
    if i == 0 {
      FirstGroup(f, s);
    } else {
      var w, c := Written(f, rest, i - 1), Completed(f, (i - 1) % 3, Before(rest, i - 1), rest[i - 1]);
      WrittenGroup(f, s, rest, g, i - 1);
      SamePlace(f, s, rest, i);
      assert Written(f, s, i + 3) == (g + w) + c;
      Associate(g, w, c);
    }
  }

  lemma FirstGroup(f: Coder, s: seq<Byte>)
    requires |s| >= 3
    ensures Written(f, s, 3) == Group(f, s[0], s[1], s[2]) + ""
  {
    assert Written(f, s, 0) == "";
    assert Written(f, s, 1) == [f(0, 0, s[0])];
    assert Written(f, s, 2) == [f(0, 0, s[0]), f(1, s[0], s[1])];
  }

  lemma PadAfter(g: string, w: string, l: string, e: string)
    requires |g| == 4 && Padded(w + l) == e
    ensures Padded(g + w + l) == g + e
  {
    var t := w + l;
    Associate(g, w, l);
    assert |g + t| % 4 == |t| % 4;
    Associate(g, t, Padding(|t|));
  }

  /** The letters written, the last one and the padding make up the encoding by groups. */
  lemma {:induction false} Finish(f: Coder, s: seq<Byte>)
    ensures Padded(Written(f, s, |s|) + Last(f, s)) == Encode(f, s)
  {
    if |s| >= 3 {
      Finish(f, s[3..]);
      FinishLong(f, s, s[3..], Encode(f, s[3..]));
    } else if |s| == 2 {
      FinishTwo(f, s);
    } else if |s| == 1 {
      FinishOne(f, s);
    }
  }

  lemma FinishLong(f: Coder, s: seq<Byte>, rest: seq<Byte>, e: string)
    requires |s| >= 3 && rest == s[3..] && Padded(Written(f, rest, |rest|) + Last(f, rest)) == e
    ensures Padded(Written(f, s, |s|) + Last(f, s)) == Group(f, s[0], s[1], s[2]) + e
  {
    AfterGroup(f, s, rest);
    PadAfter(Group(f, s[0], s[1], s[2]), Written(f, rest, |rest|), Last(f, rest), e);
  }

  lemma AfterGroup(f: Coder, s: seq<Byte>, rest: seq<Byte>)
    requires |s| >= 3 && rest == s[3..]
    ensures Written(f, s, |s|) == Group(f, s[0], s[1], s[2]) + Written(f, rest, |rest|)
    ensures Last(f, s) == Last(f, rest)
  {
    var n := |rest|;
    WrittenGroup(f, s, rest, Group(f, s[0], s[1], s[2]), n);
    assert n + 3 == |s|;
    SameLast(f, s, rest);
  }

  lemma SameLast(f: Coder, s: seq<Byte>, rest: seq<Byte>)
    requires |s| >= 3 && rest == s[3..]
    ensures Last(f, s) == Last(f, rest)
  {
    var n := |rest|;
    assert (n + 3) % 3 == n % 3;
    if n > 0 {
      assert s[|s| - 1] == rest[n - 1];
    }
  }

  lemma PadTwo(t: string, x: char, y: char)
    requires t == [x, y]
    ensures Padded(t) == [x, y, '=', '=']
  {
  }

  lemma PadThree(t: string, x: char, y: char, z: char)
    requires t == [x, y, z]
    ensures Padded(t) == [x, y, z, '=']
  {
  }

  lemma FinishOne(f: Coder, s: seq<Byte>)
    requires |s| == 1
    ensures Padded(Written(f, s, 1) + Last(f, s)) == Encode(f, s)
  {
    assert Written(f, s, 0) == "";
    assert Written(f, s, 1) == [f(0, 0, s[0])];
    PadTwo(Written(f, s, 1) + Last(f, s), f(0, 0, s[0]), f(1, s[0], 0));
  }

  lemma FinishTwo(f: Coder, s: seq<Byte>)
    requires |s| == 2
    ensures Padded(Written(f, s, 2) + Last(f, s)) == Encode(f, s)
  {
    WrittenTwo(f, s);
    PadThree(Written(f, s, 2) + Last(f, s), f(0, 0, s[0]), f(1, s[0], s[1]), f(2, s[1], 0));
  }

  lemma WrittenTwo(f: Coder, s: seq<Byte>)
    requires |s| == 2
    ensures Written(f, s, 2) == [f(0, 0, s[0]), f(1, s[0], s[1])]
  {
    assert Written(f, s, 0) == "";
    assert Written(f, s, 1) == [f(0, 0, s[0])];
  }
}
