/**
 The avatar hash: the shift-and-add loop on signed 32-bit shifts computes FNV-1a.

 Numbers are the program's doubles, exact as long as they stay below 2^53 in magnitude.
 */
module AvatarColor {
  import opened Text

  const TWO32: int := 0x1_0000_0000
  const TWO53: int := 0x20_0000_0000_0000
  const OFFSET_BASIS: int := 0x811C9DC5
  const FNV_PRIME: int := 16777619

  type Word = w: int | 0 <= w < TWO32 witness 0

  /** Bit by bit, from the lowest: the result's bit is 1 where the operands differ. */
  function Xor(a: nat, b: nat): nat {
    if a == 0 && b == 0 then 0 else 2 * Xor(a / 2, b / 2) + (if a % 2 == b % 2 then 0 else 1)
  }

  function Power2(n: nat): (p: nat)
    ensures p > 0
  {
    if n == 0 then 1 else 2 * Power2(n - 1)
  }

  lemma {:induction false} XorStaysBelow(a: nat, b: nat, n: nat)
    requires a < Power2(n) && b < Power2(n)
    ensures Xor(a, b) < Power2(n)
  {
    if n > 0 { XorStaysBelow(a / 2, b / 2, n - 1); }
  }

  lemma Power2Of32()
    ensures Power2(32) == TWO32
  {
    assert Power2(4) == 16 && Power2(8) == 16 * Power2(4) && Power2(12) == 16 * Power2(8);
    assert Power2(16) == 16 * Power2(12) && Power2(20) == 16 * Power2(16);
    assert Power2(24) == 16 * Power2(20) && Power2(28) == 16 * Power2(24) && Power2(32) == 16 * Power2(28);
  }

  function Xor32(a: Word, b: Word): Word {
    Power2Of32();
    XorStaysBelow(a, b, 32);
    Xor(a, b)
  }

  /** The 32-bit hash of draft-eastlake-fnv, section 2: xor the octet or code unit in, multiply. */
  function Fnv1a(text: seq<CodeUnit>): Word {
    if text == [] then OFFSET_BASIS
    else (Xor32(Fnv1a(text[..|text| - 1]), text[|text| - 1]) * FNV_PRIME) % TWO32
  }

  function Bit(x: nat, k: nat): int { (x / Power2(k)) % 2 }

  lemma XorLowestBit(a: nat, b: nat)
    ensures Xor(a, b) / 2 == Xor(a / 2, b / 2) && (Xor(a, b) % 2 == 1 <==> a % 2 != b % 2)
  {
  }

  lemma LowestBit(x: nat)
    ensures Bit(x, 0) == x % 2
  {
  }

  /** A bit of the result is set exactly where the operands' bits differ. */
  lemma {:induction false} XorBits(a: nat, b: nat, k: nat)
    ensures Bit(Xor(a, b), k) == 1 <==> Bit(a, k) != Bit(b, k)
    decreases k
  {
    XorLowestBit(a, b);
    if k == 0 {
      LowestBit(a);
      LowestBit(b);
      LowestBit(Xor(a, b));
    } else {
      XorBits(a / 2, b / 2, k - 1);
      HalfThenRest(a, k);
      HalfThenRest(b, k);
      HalfThenRest(Xor(a, b), k);
    }
  }

  lemma HalfThenRest(x: nat, k: nat)
    requires k > 0
    ensures Bit(x, k) == Bit(x / 2, k - 1)
  {
    DivideTwice(x, 2, Power2(k - 1));
  }

  lemma DivideTwice(x: nat, a: nat, b: nat)
    requires a > 0 && b > 0
    ensures a * b > 0 && x / (a * b) == (x / a) / b
  {
    var q, r := (x / a) / b, (x / a) % b;
    assert x / a == q * b + r;
    assert x == a * (x / a) + x % a;
    assert a * (q * b + r) == q * (a * b) + a * r;
    assert a * r + x % a < a * b by {
      assert a * r <= a * (b - 1);
      assert a * (b - 1) == a * b - a;
    }
    QuotientIs(x, a * b, q, a * r + x % a);
  }

  lemma QuotientIs(x: int, d: int, q: int, r: int)
    requires d > 0 && x == q * d + r && 0 <= r < d
    ensures x / d == q
  {
    var e := x / d - q;
    assert e * d == r - x % d;
    assert 0 - d < e * d < d;
    assert e == 0;
  }

  /** The hash by its own numbers: the offset basis for an empty text, and one round with the prime for each unit. */
  lemma FnvByRounds(text: seq<CodeUnit>, c: CodeUnit)
    ensures Fnv1a([]) == 2166136261
    ensures Fnv1a(text + [c]) == (Xor(Fnv1a(text), c) * 16777619) % 4294967296
  {
    assert (text + [c])[..|text|] == text;
  }

  // The conversions and operators of ECMA-262 on integral numbers

  function ToUint32(x: int): (w: Word) { x % TWO32 }

  function ToInt32(x: int): int {
    var w := x % TWO32;
    if w >= 0x8000_0000 then w - TWO32 else w
  }

  function SignedXor(a: int, b: int): int {
    ToInt32(Xor32(ToUint32(a), ToUint32(b)))
  }

  function ShiftLeft(x: int, n: nat): int {
    ToInt32(ToInt32(x) * Power2(n))
  }

  predicate Exact(x: int) { -TWO53 < x < TWO53 }

  lemma Int32IsCongruent(x: int)
    ensures ToInt32(x) % TWO32 == x % TWO32
    ensures -0x8000_0000 <= ToInt32(x) < 0x8000_0000
  {
  }

  lemma CongruentProduct(x: int, y: int, k: int)
    requires x % TWO32 == y % TWO32
    ensures (x * k) % TWO32 == (y * k) % TWO32
  {
    var q := x / TWO32 - y / TWO32;
    assert x == y + q * TWO32;
    assert x * k == y * k + (q * k) * TWO32;
    AddMultiple(y * k, q * k);
  }

  lemma AddMultiple(x: int, q: int)
    ensures (x + q * TWO32) % TWO32 == x % TWO32
  {
  }

  lemma ShiftIsCongruent(x: int, n: nat)
    ensures ShiftLeft(x, n) % TWO32 == (x * Power2(n)) % TWO32
  {
    Int32IsCongruent(x);
    Int32IsCongruent(ToInt32(x) * Power2(n));
    CongruentProduct(ToInt32(x), x, Power2(n));
  }

  lemma CongruentSum(a: int, b: int, c: int, d: int)
    requires a % TWO32 == b % TWO32 && c % TWO32 == d % TWO32
    ensures (a + c) % TWO32 == (b + d) % TWO32
  {
  }

  /** The five shifts and the value itself add up to the product with the prime, modulo 2^32; every
      partial sum, in the order the expression is evaluated, is exact. */
  lemma ShiftsMultiplyByPrime(h: int)
    requires -0x8000_0000 <= h < 0x8000_0000
    ensures var s1 := ShiftLeft(h, 1) + ShiftLeft(h, 4);
            var s2 := s1 + ShiftLeft(h, 7);
            var s3 := s2 + ShiftLeft(h, 8);
            var s4 := s3 + ShiftLeft(h, 24);
            && Exact(s1) && Exact(s2) && Exact(s3) && Exact(s4) && Exact(h + s4)
            && ToUint32(h + s4) == (h * FNV_PRIME) % TWO32
  {
    assert Power2(1) == 2 && Power2(4) == 16;
    assert Power2(7) == 8 * Power2(4) == 128 && Power2(8) == 256;
    assert Power2(12) == 16 * Power2(8) == 4096;
    assert Power2(16) == 16 * Power2(12) == 65536;
    assert Power2(20) == 16 * Power2(16) == 1048576;
    assert Power2(24) == 16 * Power2(20) == 16777216;
    ShiftIsCongruent(h, 1);
    ShiftIsCongruent(h, 4);
    ShiftIsCongruent(h, 7);
    ShiftIsCongruent(h, 8);
    ShiftIsCongruent(h, 24);
    Int32IsCongruent(ToInt32(h) * 2);
    Int32IsCongruent(ToInt32(h) * 16);
    Int32IsCongruent(ToInt32(h) * 128);
    Int32IsCongruent(ToInt32(h) * 256);
    Int32IsCongruent(ToInt32(h) * 16777216);
    var s1 := ShiftLeft(h, 1) + ShiftLeft(h, 4);
    var s2 := s1 + ShiftLeft(h, 7);
    var s3 := s2 + ShiftLeft(h, 8);
    var s4 := s3 + ShiftLeft(h, 24);
    CongruentSum(ShiftLeft(h, 1), h * 2, ShiftLeft(h, 4), h * 16);
    CongruentSum(s1, h * 18, ShiftLeft(h, 7), h * 128);
    CongruentSum(s2, h * 146, ShiftLeft(h, 8), h * 256);
    CongruentSum(s3, h * 402, ShiftLeft(h, 24), h * 16777216);
    CongruentSum(h, h, s4, h * 16777618);
  }

  /** The shifts of one value, added in the order the program writes them. */
  function ShiftSum(x: int): int {
    ShiftLeft(x, 1) + ShiftLeft(x, 4) + ShiftLeft(x, 7) + ShiftLeft(x, 8) + ShiftLeft(x, 24)
  }

  lemma ShiftSumIsProduct(y: Word)
    ensures ToUint32(ToInt32(y) + ShiftSum(ToInt32(y))) == (y * FNV_PRIME) % TWO32
  {
    var x := ToInt32(y);
    Int32IsCongruent(y);
    ShiftsMultiplyByPrime(x);
    CongruentProduct(x, y, FNV_PRIME);
  }

  lemma WordsAreThemselves(a: Word, b: CodeUnit)
    ensures SignedXor(a, b) == ToInt32(Xor32(a, b))
  {
    assert ToUint32(a) == a && ToUint32(b) == b;
  }

  const ANON: seq<CodeUnit> := [97, 110, 111, 110]

  /** One round of the loop: xor, shift and add is xor and multiply. */
  lemma OneRound(h: Word, c: CodeUnit)
    ensures var x := SignedXor(h, c); ToUint32(x + ShiftSum(x)) == (Xor32(h, c) * FNV_PRIME) % TWO32
  {
    WordsAreThemselves(h, c);
    ShiftSumIsProduct(Xor32(h, c));
  }

  lemma HashMore(text: seq<CodeUnit>, i: nat)
    requires i < |text|
    ensures Fnv1a(text[..i + 1]) == (Xor32(Fnv1a(text[..i]), text[i]) * FNV_PRIME) % TWO32
  {
    assert text[..i + 1][..i] == text[..i];
  }

  lemma RoundExtendsHash(text: seq<CodeUnit>, i: nat, h: Word)
    requires i < |text| && h == Fnv1a(text[..i])
    ensures var x := SignedXor(h, text[i]); ToUint32(x + ShiftSum(x)) == Fnv1a(text[..i + 1])
  {
    OneRound(h, text[i]);
    HashMore(text, i);
  }

  /** The loop: one round a code unit. */
  method Hash(text: seq<CodeUnit>) returns (h: Word)
    ensures h == Fnv1a(text)
  {
    h := OFFSET_BASIS;
    for i := 0 to |text|
      invariant h == Fnv1a(text[..i])
    {
      RoundExtendsHash(text, i, h);
      var x := SignedXor(h, text[i]);
      h := ToUint32(x + ShiftSum(x));
    }
    assert text[..|text|] == text;
  }

  /** The hue of a key: FNV-1a of its code units, or of "anon" for an empty key, reduced modulo 360. */
  method Hue(key: seq<CodeUnit>) returns (hue: int)
    ensures hue == Fnv1a(if key == [] then [97, 110, 111, 110] else key) % 360
    ensures 0 <= hue < 360
  {
    var h := Hash(if key == [] then ANON else key);
    hue := h % 360;
  }
}
