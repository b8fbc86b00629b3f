/**
 The chained 64-bit hash, in arithmetic modulo 2^64.

 A state is combined with each value in turn: the hashed value, a constant and two shifts of
 the state are added and the sum is combined with the state by exclusive or.  The state is a
 signed number in the source; its left shift drops the upper bits and its right shift rounds
 down, so the sum is the same modulo 2^64 as in unsigned arithmetic with the sign spread.

 Exclusive or is defined on binary digits; that it undoes itself is proved, not assumed.
 What the hasher makes of a value is a parameter.
 */
module HashUtil {
  import opened Basics

  const RANGE: int := 0x1_0000_0000_0000_0000
  const GOLDEN: int := 0x9e37_79b9_7f4a_7c15

  type Word = n: int | 0 <= n < 0x1_0000_0000_0000_0000

  /** Exclusive or of the binary digits. */
  function Xor(a: nat, b: nat): nat {
    if a == 0 && b == 0 then 0 else 2 * Xor(a / 2, b / 2) + if a % 2 == b % 2 then 0 else 1
  }

  function Pow2(k: nat): nat { if k == 0 then 1 else 2 * Pow2(k - 1) }

  lemma {:induction false} XorBound(a: nat, b: nat, k: nat)
    requires a < Pow2(k) && b < Pow2(k)
    ensures Xor(a, b) < Pow2(k)
  {
    if k > 0 {
      XorBound(a / 2, b / 2, k - 1);
    }
  }

  lemma {:induction false} XorBack(a: nat, b: nat)
    ensures Xor(a, Xor(a, b)) == b
  {
    if a != 0 || b != 0 {
      XorBack(a / 2, b / 2);
    }
  }

  lemma WordRange()
    ensures Pow2(64) == RANGE
  {
    assert Pow2(8) == 0x100;
    assert Pow2(16) == 0x1_0000;
    assert Pow2(24) == 0x100_0000;
    assert Pow2(32) == 0x1_0000_0000;
    assert Pow2(40) == 0x100_0000_0000;
    assert Pow2(48) == 0x1_0000_0000_0000;
    assert Pow2(56) == 0x100_0000_0000_0000;
  }

  function XorWords(a: Word, b: Word): Word {
    WordRange();
    XorBound(a, b, 64);
    Xor(a, b)
  }

  /** The word as the signed number it stands for. */
  function Signed(w: Word): int { if w < 0x8000_0000_0000_0000 then w else w - RANGE }

  /** `(hash << 12) + (hash >> 32)` and the constant; the right shift of a signed number rounds down. */
  function Offset(hash: Word): int { GOLDEN + hash * 4096 + Signed(hash) / 0x1_0000_0000 }

  /** HashIntFunc, `hashed` being what the hasher makes of the value. */
  function Step(hash: Word, hashed: Word): Word { XorWords(hash, (hashed + Offset(hash)) % RANGE) }

  function Hash<T>(hasher: T -> Word, s: seq<T>, hash: Word): Word {
    if s == [] then hash else Hash(hasher, s[1..], Step(hash, hasher(s[0])))
  }

  method HashIntArray<T>(hasher: T -> Word, a: array<T>, begin: nat, end: nat, hash0: Word) returns (hash: Word)
    requires begin <= end <= a.Length
    ensures hash == Hash(hasher, a[begin..end], hash0)
  {
    hash := hash0;
    var i := begin;
    while i != end
      invariant begin <= i <= end
      invariant Hash(hasher, a[i..end], hash) == Hash(hasher, a[begin..end], hash0)
    {
      assert a[i..end][1..] == a[i + 1..end];
      hash := Step(hash, hasher(a[i]));
      i := i + 1;
    }
  }

  // ---------------------------------------------------------------------- bit by bit

  /** Bit `i` of a number in two's complement. */
  function Bit(n: int, i: nat): (b: int)
    ensures b == 0 || b == 1
    decreases i
  {
    if i == 0 then n % 2 else Bit(n / 2, i - 1)
  }

  lemma {:induction false} XorBit(a: nat, b: nat, i: nat)
    ensures Bit(Xor(a, b), i) == if Bit(a, i) == Bit(b, i) then 0 else 1
  {
    if i > 0 {
      XorBit(a / 2, b / 2, i - 1);
      assert Xor(a, b) / 2 == Xor(a / 2, b / 2);
    }
  }

  /** The low bits do not see a multiple of a higher power. */
  lemma {:induction false} LowBits(n: int, m: int, k: nat, i: nat)
    requires i < k
    ensures Bit(n + m * Pow2(k), i) == Bit(n, i)
    decreases i
  {
    var half := m * Pow2(k - 1);
    Twice(m, Pow2(k - 1));
    assert n + m * Pow2(k) == n + 2 * half;
    if i > 0 {
      assert (n + 2 * half) / 2 == n / 2 + half;
      LowBits(n / 2, m, k - 1, i - 1);
    }
  }

  lemma Twice(m: int, p: int)
    ensures m * (2 * p) == 2 * (m * p)
  {
  }

  lemma ModBits(n: int, i: nat)
    requires i < 64
    ensures Bit(n % RANGE, i) == Bit(n, i)
  {
    WordRange();
    var q := n / RANGE;
    assert n == n % RANGE + q * RANGE;
    LowBits(n % RANGE, q, 64, i);
  }

  /** Shifting left. */
  lemma {:induction false} ShiftLeftBit(n: int, k: nat, i: nat)
    ensures Bit(n * Pow2(k), i) == if i < k then 0 else Bit(n, i - k)
    decreases k
  {
    if k > 0 {
      Twice(n, Pow2(k - 1));
      var half := n * Pow2(k - 1);
      assert n * Pow2(k) == 2 * half;
      if i > 0 {
        ShiftLeftBit(n, k - 1, i - 1);
      }
    }
  }

  /** Shifting right, rounding down. */
  lemma {:induction false} ShiftRightBit(n: int, k: nat, i: nat)
    ensures Pow2(k) > 0 && Bit(n / Pow2(k), i) == Bit(n, i + k)
    decreases k
  {
    if k > 0 {
      ShiftRightBit(n / 2, k - 1, i);
      HalveFirst(n, Pow2(k - 1));
      assert n / Pow2(k) == n / 2 / Pow2(k - 1);
    } else {
      assert n / 1 == n;
    }
  }

  lemma HalveFirst(n: int, p: int)
    requires p > 0
    ensures n / (2 * p) == n / 2 / p
  {
    var q, r := n / 2 / p, n / 2 % p;
    assert n / 2 == q * p + r;
    assert n == 2 * (q * p + r) + n % 2;
    DivisionIs(n, 2 * p, q, 2 * r + n % 2);
  }

  lemma DivisionIs(n: int, d: int, q: int, r: int)
    requires d > 0 && 0 <= r < d && n == q * d + r
    ensures n / d == q
  {
    var q' := n / d;
    assert n == q' * d + n % d;
    if q < q' {
      MoreThan(q, q', d);
    } else if q' < q {
      MoreThan(q', q, d);
    }
  }

  lemma MoreThan(a: int, b: int, d: int)
    requires a < b && d > 0
    ensures b * d >= a * d + d
  {
    var k := b - a - 1;
    assert b * d == a * d + d + k * d;
  }

  /** Above its highest place a number repeats its sign. */
  lemma {:induction false} SignBits(n: int, k: nat, i: nat)
    requires 0 - Pow2(k) <= n < Pow2(k) && i >= k
    ensures Bit(n, i) == if n < 0 then 1 else 0
    decreases k + i
  {
    if k > 0 {
      SignBits(n / 2, k - 1, i - 1);
    } else if i > 0 {
      SignBits(n / 2, 0, i - 1);
    }
  }

  /** The signed number has the bits of its word, and repeats the highest. */
  lemma SignedBit(w: Word, i: nat)
    ensures Bit(Signed(w), i) == Bit(w, if i < 64 then i else 63)
  {
    WordRange();
    assert Pow2(64) == 2 * Pow2(63);
    if i < 64 {
      LowBits(w, -1, 64, i);
    } else {
      SignBits(Signed(w), 63, i);
      SignBits(Signed(w), 63, 63);
      LowBits(w, -1, 64, 63);
    }
  }

  /** `left` is the word shifted left by twelve. */
  ghost predicate ShiftedLeft(w: Word, left: Word) {
    forall i :: 0 <= i < 64 ==> Bit(left, i) == if i < 12 then 0 else Bit(w, i - 12)
  }

  /** `right` is the word shifted right by 32, its highest bit spread. */
  ghost predicate ShiftedRight(w: Word, right: Word) {
    forall i :: 0 <= i < 64 ==> Bit(right, i) == Bit(w, if i < 32 then i + 32 else 63)
  }

  lemma {:induction false} SameBits(a: nat, b: nat, k: nat)
    requires a < Pow2(k) && b < Pow2(k) && forall i :: 0 <= i < k ==> Bit(a, i) == Bit(b, i)
    ensures a == b
  {
    if k > 0 {
      forall i | 0 <= i < k - 1
        ensures Bit(a / 2, i) == Bit(b / 2, i)
      {
        assert Bit(a, i + 1) == Bit(b, i + 1);
      }
      SameBits(a / 2, b / 2, k - 1);
      assert Bit(a, 0) == Bit(b, 0);
    }
  }

  lemma LeftIs(w: Word, left: Word)
    requires ShiftedLeft(w, left)
    ensures left == w * 4096 % RANGE
  {
    WordRange();
    assert Pow2(12) == 4096;
    forall i | 0 <= i < 64
      ensures Bit(left, i) == Bit(w * 4096 % RANGE, i)
    {
      ModBits(w * 4096, i);
      ShiftLeftBit(w, 12, i);
    }
    SameBits(left, w * 4096 % RANGE, 64);
  }

  lemma RightIs(w: Word, right: Word)
    requires ShiftedRight(w, right)
    ensures right == Signed(w) / 0x1_0000_0000 % RANGE
  {
    WordRange();
    assert Pow2(8) == 0x100 && Pow2(16) == 0x1_0000 && Pow2(24) == 0x100_0000;
    assert Pow2(32) == 0x1_0000_0000;
    var shifted := Signed(w) / 0x1_0000_0000;
    forall i | 0 <= i < 64
      ensures Bit(right, i) == Bit(shifted % RANGE, i)
    {
      ModBits(shifted, i);
      ShiftRightBit(Signed(w), 32, i);
      SignedBit(w, i + 32);
    }
    SameBits(right, shifted % RANGE, 64);
  }

  lemma SumMod(a: int, b: int, c: int)
    ensures (a + b % RANGE + c % RANGE) % RANGE == (a + b + c) % RANGE
  {
    var k := b / RANGE + c / RANGE;
    assert a + b + c == a + b % RANGE + c % RANGE + k * RANGE;
  }

  /**
   The step bit by bit: each bit of the state is flipped where the sum of the hashed value, the constant and
   the two shifts of the state has a one.
   */
  lemma StepBits(hash: Word, hashed: Word, left: Word, right: Word, i: nat)
    requires ShiftedLeft(hash, left) && ShiftedRight(hash, right)
    ensures var sum := (hashed + 0x9e37_79b9_7f4a_7c15 + left + right) % RANGE;
            Bit(Step(hash, hashed), i) == if Bit(sum, i) == 1 then 1 - Bit(hash, i) else Bit(hash, i)
  {
    LeftIs(hash, left);
    RightIs(hash, right);
    SumMod(hashed + GOLDEN, hash * 4096, Signed(hash) / 0x1_0000_0000);
    XorBit(hash, (hashed + Offset(hash)) % RANGE, i);
  }

  // ------------------------------------------------------------------------ chaining

  /** Hashing a concatenation is chaining: the hash of the first block seeds the second. */
  lemma {:induction false} HashConcat<T>(hasher: T -> Word, a: seq<T>, b: seq<T>, hash: Word)
    ensures Hash(hasher, a + b, hash) == Hash(hasher, b, Hash(hasher, a, hash))
  {
    if a == [] {
      assert a + b == b;
    } else {
      var next := Step(hash, hasher(a[0]));
      HashFirst(hasher, a, hash, next);
      HashFirst(hasher, a + b, hash, next);
      HashConcat(hasher, a[1..], b, next);
      assert (a + b)[1..] == a[1..] + b;
    }
  }

  lemma HashFirst<T>(hasher: T -> Word, s: seq<T>, hash: Word, next: Word)
    requires s != [] && next == Step(hash, hasher(s[0]))
    ensures Hash(hasher, s, hash) == Hash(hasher, s[1..], next)
  {
  }

  /** The hashes after each block, every one seeded by the one before. */
  function Chain<T>(hasher: T -> Word, blocks: seq<seq<T>>, hash: Word): (r: seq<Word>)
    ensures |r| == |blocks|
  {
    if blocks == [] then []
    else
      var h := Hash(hasher, blocks[0], hash);
      [h] + Chain(hasher, blocks[1..], h)
  }

  /** However a text is cut into blocks, each chained hash is the hash of everything so far. */
  lemma {:induction false} ChainIsPrefixHash<T>(hasher: T -> Word, blocks: seq<seq<T>>, hash: Word, k: nat)
    requires k < |blocks|
    ensures Chain(hasher, blocks, hash)[k] == Hash(hasher, Flatten(blocks[..k + 1]), hash)
  {
    var h, rest := Hash(hasher, blocks[0], hash), blocks[1..];
    if k == 0 {
      assert blocks[..1][1..] == [];
      assert Flatten(blocks[..1]) == blocks[0] + [];
      assert blocks[0] + [] == blocks[0];
    } else {
      ChainIsPrefixHash(hasher, rest, h, k - 1);
      assert blocks[..k + 1][1..] == rest[..k];
      HashConcat(hasher, blocks[0], Flatten(rest[..k]), hash);
    }
  }

  // --------------------------------------------------------------------- injectivity

  lemma AddInjective(x: Word, y: Word, c: int)
    requires (x + c) % RANGE == (y + c) % RANGE
    ensures x == y
  {
    assert x - y == RANGE * ((x + c) / RANGE - (y + c) / RANGE);
  }

  lemma XorInjective(h: Word, x: Word, y: Word)
    requires XorWords(h, x) == XorWords(h, y)
    ensures x == y
  {
    XorBack(h, x);
    XorBack(h, y);
  }

  /** For a fixed state the step tells any two hashed values apart. */
  lemma StepInjective(hash: Word, x: Word, y: Word)
    ensures Step(hash, x) == Step(hash, y) <==> x == y
  {
    if Step(hash, x) == Step(hash, y) {
      XorInjective(hash, (x + Offset(hash)) % RANGE, (y + Offset(hash)) % RANGE);
      AddInjective(x, y, Offset(hash));
    }
  }

  lemma HashOne<T>(hasher: T -> Word, x: T, hash: Word)
    ensures Hash(hasher, [x], hash) == Step(hash, hasher(x))
  {
    assert [x][1..] == [];
  }

  /** Texts that differ only in their last value hash differently, if the hasher tells those apart. */
  lemma LastValueTold<T>(hasher: T -> Word, s: seq<T>, x: T, y: T, hash: Word)
    ensures Hash(hasher, s + [x], hash) == Hash(hasher, s + [y], hash) <==> hasher(x) == hasher(y)
  {
    var h := Hash(hasher, s, hash);
    HashConcat(hasher, s, [x], hash);
    HashConcat(hasher, s, [y], hash);
    HashOne(hasher, x, h);
    HashOne(hasher, y, h);
    StepInjective(h, hasher(x), hasher(y));
  }
}
