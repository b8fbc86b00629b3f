/**
 Positional numerals: what the printers write and the readers read.

 `Show` is the numeral of a number in a base up to 16, `Value` the number of a numeral, and
 `ValueShow` says that the second undoes the first.  The printers of the crash handler, the
 chunk sizes, the byte ranges and the Redis codec all use them; each reader keeps its own
 rules about what may surround the digits and when a number is too large.

 `ShowLength` bounds the number of digits, which is why fixed scratch buffers are enough.
 */
module Numerals {
  /** The value of a digit in either case, or -1. */
  function DigitValue(c: char): (d: int)
    ensures -1 <= d < 16
  {
    if '0' <= c <= '9' then c as int - '0' as int
    else if 'a' <= c <= 'f' then c as int - 'a' as int + 10
    else if 'A' <= c <= 'F' then c as int - 'A' as int + 10
    else -1
  }

  predicate IsDigit(c: char, base: nat) { 0 <= DigitValue(c) < base }

  /** The decimal digits, and the hexadecimal ones in either case. */
  lemma DigitChars(c: char)
    ensures IsDigit(c, 10) <==> '0' <= c <= '9'
    ensures IsDigit(c, 16) <==> '0' <= c <= '9' || 'a' <= c <= 'f' || 'A' <= c <= 'F'
  {
  }

  predicate AllDigits(s: string, base: nat) {
    forall i :: 0 <= i < |s| ==> IsDigit(s[i], base)
  }

  function DigitChar(d: nat): (c: char)
    requires d < 16
    ensures DigitValue(c) == d
  {
    if d < 10 then (d + '0' as int) as char else (d - 10 + 'a' as int) as char
  }

  function Show(n: nat, base: nat): (s: string)
    requires 2 <= base <= 16
    ensures s != "" && AllDigits(s, base)
    decreases n
  {
    if n < base then [DigitChar(n)]
    else
      DivMod(n, base);
      Show(n / base, base) + [DigitChar(n % base)]
  }

  lemma DivMod(n: nat, base: nat)
    requires 2 <= base
    ensures 0 <= n % base < base
    ensures n == n / base * base + n % base
    ensures n >= base ==> 0 < n / base < n
  {
  }

  function Value(s: string, base: nat): nat
    requires AllDigits(s, base)
  {
    if s == "" then 0
    else Value(s[..|s| - 1], base) * base + DigitValue(s[|s| - 1])
  }

  function ShowInt(n: int): string { if n < 0 then "-" + Show(-n, 10) else Show(n, 10) }

  /** Reading what was printed gives the number back. */
  lemma {:induction false} ValueShow(n: nat, base: nat)
    requires 2 <= base <= 16
    ensures Value(Show(n, base), base) == n
    decreases n
  {
    var s := Show(n, base);
    if n < base {
      assert s[..0] == "";
    } else {
      DivMod(n, base);
      ValueShow(n / base, base);
      assert s[..|s| - 1] == Show(n / base, base);
      assert s[|s| - 1] == DigitChar(n % base);
    }
  }

  function Pow(base: nat, k: nat): nat {
    if k == 0 then 1 else base * Pow(base, k - 1)
  }

  /** A number below `base^k` takes at most `k` digits. */
  lemma {:induction false} ShowLength(n: nat, base: nat, k: nat)
    requires 2 <= base <= 16 && 1 <= k && n < Pow(base, k)
    ensures |Show(n, base)| <= k
    decreases k
  {
    if n >= base {
      assert Pow(base, 1) == base * Pow(base, 0);
      DivMod(n, base);
      DivLess(n, base, Pow(base, k - 1));
      ShowLength(n / base, base, k - 1);
    }
  }

  lemma MulGrows(d: nat, m: nat, q: nat)
    requires m <= q
    ensures d * m <= d * q
  {
  }

  lemma DivLess(n: nat, d: nat, m: nat)
    requires 0 < d && n < d * m
    ensures n / d < m
  {
    var q := n / d;
    if q >= m {
      MulGrows(d, m, q);
    }
  }

  lemma Powers()
    ensures Pow(16, 16) == 0x1_0000_0000_0000_0000
    ensures Pow(10, 19) == 10_000_000_000_000_000_000
    ensures Pow(10, 20) == 100_000_000_000_000_000_000
  {
    assert Pow(16, 1) == 16;
    assert Pow(16, 2) == 0x100;
    assert Pow(16, 3) == 0x1000;
    assert Pow(16, 4) == 0x1_0000;
    assert Pow(16, 5) == 0x10_0000;
    assert Pow(16, 6) == 0x100_0000;
    assert Pow(16, 7) == 0x1000_0000;
    assert Pow(16, 8) == 0x1_0000_0000;
    assert Pow(16, 9) == 0x10_0000_0000;
    assert Pow(16, 10) == 0x100_0000_0000;
    assert Pow(16, 11) == 0x1000_0000_0000;
    assert Pow(16, 12) == 0x1_0000_0000_0000;
    assert Pow(16, 13) == 0x10_0000_0000_0000;
    assert Pow(16, 14) == 0x100_0000_0000_0000;
    assert Pow(16, 15) == 0x1000_0000_0000_0000;
    assert Pow(10, 1) == 10;
    assert Pow(10, 2) == 100;
    assert Pow(10, 3) == 1_000;
    assert Pow(10, 4) == 10_000;
    assert Pow(10, 5) == 100_000;
    assert Pow(10, 6) == 1_000_000;
    assert Pow(10, 7) == 10_000_000;
    assert Pow(10, 8) == 100_000_000;
    assert Pow(10, 9) == 1_000_000_000;
    assert Pow(10, 10) == 10_000_000_000;
    assert Pow(10, 11) == 100_000_000_000;
    assert Pow(10, 12) == 1_000_000_000_000;
    assert Pow(10, 13) == 10_000_000_000_000;
    assert Pow(10, 14) == 100_000_000_000_000;
    assert Pow(10, 15) == 1_000_000_000_000_000;
    assert Pow(10, 16) == 10_000_000_000_000_000;
    assert Pow(10, 17) == 100_000_000_000_000_000;
    assert Pow(10, 18) == 1_000_000_000_000_000_000;
  }
}
