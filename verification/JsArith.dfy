/** 32-bit arithmetic in double-precision numbers (_/support/js/support.js).

    Numbers here are the integers a double can hold exactly, plus whatever a product
    rounds to. Bit operators follow section 7.1.6 (ToInt32) of ECMA-262. */
module JsArith {

  const TWO16: int := 0x1_0000
  const TWO31: int := 0x8000_0000
  const TWO32: int := 0x1_0000_0000
  const TWO53: int := 0x20_0000_0000_0000
  const MAX_SAFE_INTEGER: int := 0x1f_ffff_ffff_ffff
  const MIN_SAFE_INTEGER: int := -MAX_SAFE_INTEGER

  /** Rounding an integer to a double: exact up to 2^53, and monotonic. */
  ghost predicate Rounds(rnd: int -> int) {
    (forall x :: -TWO53 <= x <= TWO53 ==> rnd(x) == x) &&
    (forall x, y :: x <= y ==> rnd(x) <= rnd(y))
  }

  function Pow2(n: nat): (r: int)
    ensures r >= 1
  {
    if n == 0 then 1 else 2 * Pow2(n - 1)
  }

  function ToUint32(x: int): (r: int)
    ensures 0 <= r < TWO32
  {
    x % TWO32
  }

  function ToInt32(x: int): (r: int)
    ensures -TWO31 <= r < TWO31
  {
    var u := ToUint32(x);
    if u >= TWO31 then u - TWO32 else u
  }

  /** The lowest `n` bits of two numbers, combined bit by bit. */
  function AndBits(x: nat, y: nat, n: nat): nat {
    if n == 0 then 0 else 2 * AndBits(x / 2, y / 2, n - 1) + (if x % 2 == 1 && y % 2 == 1 then 1 else 0)
  }

  function XorBits(x: nat, y: nat, n: nat): nat {
    if n == 0 then 0 else 2 * XorBits(x / 2, y / 2, n - 1) + (if x % 2 != y % 2 then 1 else 0)
  }

  function And(x: int, y: int): int { ToInt32(AndBits(ToUint32(x), ToUint32(y), 32)) }

  function Xor(x: int, y: int): int { ToInt32(XorBits(ToUint32(x), ToUint32(y), 32)) }

  /** `x >> b`: division rounding down. */
  function Shr(x: int, b: nat): int
    requires b < 32
  {
    ToInt32(x) / Pow2(b)
  }

  function TruncInt32(x: int): int { And(x, 0xffff_ffff) }

  function TruncUInt32(x: int): int {
    var res := And(x, -1);
    if res < 0 then res + TWO32 else res
  }

  function Mul32s(rnd: int -> int, a: int, b: int): int {
    var res := rnd(a * b);
    if res <= MIN_SAFE_INTEGER || res >= MAX_SAFE_INTEGER
    then TruncInt32(rnd(rnd(And(a, 0xffff) * b) + rnd(And(b, 0xffff) * And(a, 0xffff_0000))))
    else TruncInt32(res)
  }

  function Mul32u(rnd: int -> int, a: int, b: int): int { TruncUInt32(Mul32s(rnd, a, b)) }

  function Shr32u(a: int, b: nat): int
    requires b < 32
  {
    TruncUInt32(if a <= 0x7fff_ffff then Shr(a, b)
                else if b == 0 then a
                else Xor(Shr(a, b), Shr(-0x8000_0000, b - 1)))
  }

  // ----- Masks -----

  lemma {:induction false} AndOnes(x: nat, y: nat, n: nat)
    requires y == Pow2(n) - 1
    ensures AndBits(x, y, n) == x % Pow2(n)
    decreases n
  {
    if n > 0 {
      assert y / 2 == Pow2(n - 1) - 1 && y % 2 == 1;
      AndOnes(x / 2, y / 2, n - 1);
      HalfMod(x, Pow2(n - 1));
    }
  }

  /** Splitting off the lowest bit of a remainder. */
  lemma HalfMod(x: nat, m: int)
    requires m >= 1
    ensures x % (2 * m) == 2 * ((x / 2) % m) + x % 2
  {
    var q, r := (x / 2) / m, (x / 2) % m;
    assert x / 2 == q * m + r;
    assert x == 2 * (q * m + r) + x % 2;
    assert x == q * (2 * m) + (2 * r + x % 2);
    ModUnique(x, 2 * m, q, 2 * r + x % 2);
  }

  lemma ModUnique(x: int, m: int, q: int, r: int)
    requires m > 0 && x == q * m + r && 0 <= r < m
    ensures x % m == r && x / m == q
  {
    var q', r' := x / m, x % m;
    assert (q - q') * m == r' - r;
    if q > q' { MulLower(q - q', m); } else if q < q' { MulLower(q' - q, m); }
  }

  lemma MulLower(k: int, m: int)
    requires k >= 1 && m > 0
    ensures k * m >= m
  {
  }

  /** A mask of ones above `k` zeros clears the lowest `k` bits. */
  lemma {:induction false} AndHigh(x: nat, y: nat, k: nat, n: nat)
    requires k <= n && y == Pow2(n) - Pow2(k) && x < Pow2(n)
    ensures AndBits(x, y, n) == x - x % Pow2(k)
    decreases n
  {
    if k == 0 {
      AndOnes(x, y, n);
      ModUnique(x, Pow2(n), 0, x);
    } else {
      assert y / 2 == Pow2(n - 1) - Pow2(k - 1) && y % 2 == 0;
      AndHigh(x / 2, y / 2, k - 1, n - 1);
      HalfMod(x, Pow2(k - 1));
    }
  }

  lemma Powers()
    ensures Pow2(16) == TWO16 && Pow2(31) == TWO31 && Pow2(32) == TWO32
  {
    assert Pow2(8) == 256;
    assert Pow2(16) == TWO16;
    assert Pow2(24) == 0x100_0000;
    assert Pow2(31) == TWO31;
  }

  lemma TruncIsToInt32(x: int)
    ensures TruncInt32(x) == ToInt32(x) && And(x, -1) == ToInt32(x)
  {
    Powers();
    AndOnes(ToUint32(x), 0xffff_ffff, 32);
    ModUnique(ToUint32(x), TWO32, 0, ToUint32(x));
    ModUnique(0xffff_ffff, TWO32, 0, 0xffff_ffff);
    ModUnique(-1, TWO32, -1, 0xffff_ffff);
  }

  lemma TruncUIsToUint32(x: int)
    ensures TruncUInt32(x) == ToUint32(x)
  {
    TruncIsToInt32(x);
  }

  lemma {:induction false} AndLow(x: nat, y: nat, k: nat, n: nat)
    requires k <= n && y == Pow2(k) - 1
    ensures AndBits(x, y, n) == x % Pow2(k)
    decreases n
  {
    if k == 0 {
      if n > 0 { AndLow(x / 2, 0, 0, n - 1); }
    } else {
      assert y / 2 == Pow2(k - 1) - 1 && y % 2 == 1;
      AndLow(x / 2, y / 2, k - 1, n - 1);
      HalfMod(x, Pow2(k - 1));
    }
  }

  // ----- Multiplication -----

  /** A signed or unsigned 32-bit operand. */
  predicate Operand(a: int) { -TWO31 <= a < TWO32 }

  /** Adding multiples of 2^32 changes no representative. */
  lemma Congruent(x: int, y: int, k: int)
    requires y == x + k * TWO32
    ensures ToUint32(y) == ToUint32(x) && ToInt32(y) == ToInt32(x)
  {
    ModUnique(y, TWO32, x / TWO32 + k, x % TWO32);
  }

  lemma ToInt32Is(x: int) returns (k: int)
    ensures ToInt32(x) == x + k * TWO32
  {
    k := if ToUint32(x) >= TWO31 then -(x / TWO32) - 1 else -(x / TWO32);
  }

  lemma LowHalf(a: int)
    requires Operand(a)
    ensures And(a, 0xffff) == a % TWO16
  {
    Powers();
    hide Pow2, AndBits;
    AndLow(ToUint32(a), 0xffff, 16, 32);
    var u := ToUint32(a);
    assert a == (a / TWO32) * TWO32 + u;
    var q := (a / TWO32) * TWO16 + u / TWO16;
    assert a == q * TWO16 + u % TWO16;
    ModUnique(a, TWO16, q, u % TWO16);
  }

  /** The high half is the rest of the operand, up to a multiple of 2^32. */
  lemma HighHalf(a: int) returns (p: int, k: int)
    requires Operand(a)
    ensures a == a % TWO16 + p * TWO16 && And(a, 0xffff_0000) == p * TWO16 + k * TWO32
    ensures -TWO31 <= And(a, 0xffff_0000) < TWO31
  {
    Powers();
    hide Pow2, AndBits;
    var u := ToUint32(a);
    AndHigh(u, 0xffff_0000, 16, 32);
    LowHalf(a);
    AndLow(u, 0xffff, 16, 32);
    p := a / TWO16;
    var j := ToInt32Is(u - u % TWO16);
    k := j - a / TWO32;
    assert u == a - (a / TWO32) * TWO32;
    assert u % TWO16 == a % TWO16;
    assert And(a, 0xffff_0000) == (u - u % TWO16) + j * TWO32;
  }

  lemma ProductSplit(a: int, b: int, al: int, p: int, k: int, bl: int, q: int)
    requires a == al + p * TWO16 && b == bl + q * TWO16
    ensures al * b + bl * (p * TWO16 + k * TWO32) == a * b + (bl * k - p * q) * TWO32
  {
    var x, y := p * TWO16, q * TWO16;
    assert a * b == al * b + x * (bl + y);
    assert x * (bl + y) == bl * x + x * y;
    assert x * y == (p * q) * (TWO16 * TWO16);
    assert bl * (x + k * TWO32) == bl * x + bl * (k * TWO32);
    assert bl * (k * TWO32) == (bl * k) * TWO32;
  }

  lemma MulBound(x: int, y: int, m: int, n: int)
    requires -m <= x <= m && -n <= y <= n
    ensures -m * n <= x * y <= m * n
  {
    if x >= 0 {
      if y >= 0 { MulMono(x, m, y, n); } else { MulMono(x, m, -y, n); assert x * y == -(x * -y); }
    } else {
      if y >= 0 { MulMono(-x, m, y, n); assert x * y == -(-x * y); } else { MulMono(-x, m, -y, n); assert x * y == -x * -y; }
    }
  }

  lemma MulMono(x: int, m: int, y: int, n: int)
    requires 0 <= x <= m && 0 <= y <= n
    ensures 0 <= x * y <= m * n
  {
    assert x * y <= m * y <= m * n;
  }

  /** The range test sends exactly the products that may be inexact to the split
      path. */
  lemma RangeTest(rnd: int -> int, a: int, b: int)
    requires Rounds(rnd)
    ensures
      var res := rnd(a * b);
      && (res <= MIN_SAFE_INTEGER || res >= MAX_SAFE_INTEGER <==> a * b <= MIN_SAFE_INTEGER || a * b >= MAX_SAFE_INTEGER)
      && (!(res <= MIN_SAFE_INTEGER || res >= MAX_SAFE_INTEGER) ==> res == a * b)
  {
    var x := a * b;
    assert rnd(MAX_SAFE_INTEGER) == MAX_SAFE_INTEGER && rnd(MIN_SAFE_INTEGER) == MIN_SAFE_INTEGER;
    if x >= MAX_SAFE_INTEGER { assert rnd(x) >= rnd(MAX_SAFE_INTEGER); }
    else if x <= MIN_SAFE_INTEGER { assert rnd(x) <= rnd(MIN_SAFE_INTEGER); }
    else { assert rnd(x) == x; }
  }

  /** On the split path every intermediate is below 2^53, so nothing is rounded. */
  lemma SplitExact(a: int, b: int)
    requires Operand(a) && Operand(b)
    ensures
      var x, y := And(a, 0xffff) * b, And(b, 0xffff) * And(a, 0xffff_0000);
      && -TWO53 < x < TWO53 && -TWO53 < y < TWO53 && -TWO53 < x + y < TWO53
      && ToInt32(x + y) == ToInt32(a * b)
  {
    LowHalf(a);
    LowHalf(b);
    var p, k := HighHalf(a);
    var q := b / TWO16;
    var al, bl, ah := a % TWO16, b % TWO16, And(a, 0xffff_0000);
    MulBound(al, b, TWO16, TWO32);
    MulBound(bl, ah, TWO16, TWO31);
    ProductSplit(a, b, al, p, k, bl, q);
    Congruent(a * b, al * b + bl * ah, bl * k - p * q);
  }

  /** Signed multiplication is the in-range representative of the product mod 2^32,
      however doubles round. */
  lemma Mul32sExact(rnd: int -> int, a: int, b: int)
    requires Rounds(rnd) && Operand(a) && Operand(b)
    ensures Mul32s(rnd, a, b) == ToInt32(a * b)
  {
    RangeTest(rnd, a, b);
    SplitExact(a, b);
    var x, y := And(a, 0xffff) * b, And(b, 0xffff) * And(a, 0xffff_0000);
    assert rnd(x) == x && rnd(y) == y && rnd(x + y) == x + y;
    TruncIsToInt32(x + y);
    TruncIsToInt32(rnd(a * b));
  }

  lemma Mul32uExact(rnd: int -> int, a: int, b: int)
    requires Rounds(rnd) && Operand(a) && Operand(b)
    ensures Mul32u(rnd, a, b) == ToUint32(a * b)
  {
    Mul32sExact(rnd, a, b);
    TruncUIsToUint32(Mul32s(rnd, a, b));
    var k := ToInt32Is(a * b);
    Congruent(a * b, ToInt32(a * b), k);
  }

  // ----- Unsigned shift -----

  lemma {:induction false} XorHigh(h: nat, lo: nat, m: nat, n: nat)
    requires m <= n && lo < Pow2(m)
    ensures XorBits(h * Pow2(m) + lo, h * Pow2(m), n) == lo
    decreases n
  {
    hide XorBits;
    if m == 0 {
      XorSelf(h, n);
    } else {
      XorHigh(h, lo / 2, m - 1, n - 1);
      Double(h, Pow2(m - 1));
      XorJoin(h * Pow2(m - 1), lo, n);
    }
  }

  lemma Double(h: int, p: int)
    ensures h * (2 * p) == 2 * (h * p)
  {
  }

  lemma XorJoin(t: nat, lo: nat, n: nat)
    requires n > 0 && XorBits(t + lo / 2, t, n - 1) == lo / 2
    ensures XorBits(2 * t + lo, 2 * t, n) == lo
  {
    XorStep(t + lo / 2, t, lo % 2, n);
  }

  lemma XorStep(x: nat, y: nat, bit: nat, n: nat)
    requires n > 0 && bit < 2
    ensures XorBits(2 * x + bit, 2 * y, n) == 2 * XorBits(x, y, n - 1) + bit
  {
    assert (2 * x + bit) / 2 == x && (2 * x + bit) % 2 == bit;
    assert (2 * y) / 2 == y && (2 * y) % 2 == 0;
  }

  lemma {:induction false} XorSelf(x: nat, n: nat)
    ensures XorBits(x, x, n) == 0
    decreases n
  {
    if n > 0 { XorSelf(x / 2, n - 1); }
  }

  lemma {:induction false} PowAdd(m: nat, n: nat)
    ensures Pow2(m + n) == Pow2(m) * Pow2(n)
    decreases m
  {
    if m > 0 {
      PowAdd(m - 1, n);
      assert 2 * (Pow2(m - 1) * Pow2(n)) == (2 * Pow2(m - 1)) * Pow2(n);
    }
  }

  /** With its top bit set, an operand shifts to its quotient less 2^m. */
  lemma ShrNegative(a: int, d: int, e: int)
    requires TWO31 <= a < TWO32 && d >= 1 && e >= 1 && d * e == TWO32
    ensures ToInt32(a) / d == a / d - e && 0 <= a / d < e
    ensures ToUint32(a / d - e) == (d - 1) * e + a / d
  {
    var lo, r := a / d, a % d;
    ModUnique(a, TWO32, 0, a);
    assert ToInt32(a) == a - TWO32;
    Distribute(lo, e, d);
    ModUnique(a - TWO32, d, lo - e, r);
    QuotientBound(a, d);
    if lo >= e { MulMono(e, lo, d, d); }
    Distribute(d, 1, e);
    ModUnique(lo - e, TWO32, -1, TWO32 + lo - e);
  }

  lemma Distribute(x: int, y: int, z: int)
    ensures (x - y) * z == x * z - y * z
  {
  }

  lemma ShrMin(d: int, e: int, f: int)
    requires d >= 1 && e >= 1 && f >= 1 && f * e == TWO31 && d * e == TWO32
    ensures ToInt32(-0x8000_0000) / f == -e && ToUint32(-e) == (d - 1) * e
  {
    ModUnique(-0x8000_0000, TWO32, -1, TWO31);
    Distribute(0, e, f);
    ModUnique(-TWO31, f, -e, 0);
    Distribute(d, 1, e);
    MulMono(1, d, e, e);
    ModUnique(-e, TWO32, -1, TWO32 - e);
  }

  /** The arithmetic shift brings in ones above the quotient, and the second operand
      has exactly those ones. */
  lemma ShrTop(a: int, b: nat)
    requires TWO31 <= a < TWO32 && 0 < b < 32
    ensures
      var h, lo, m := Pow2(b) - 1, a / Pow2(b), 32 - b;
      && 0 <= lo < Pow2(m)
      && ToUint32(Shr(a, b)) == h * Pow2(m) + lo
      && ToUint32(Shr(-0x8000_0000, b - 1)) == h * Pow2(m)
  {
    hide Pow2, ToInt32, ToUint32;
    Powers();
    PowAdd(b, 32 - b);
    PowAdd(b - 1, 32 - b);
    ShrNegative(a, Pow2(b), Pow2(32 - b));
    ShrMin(Pow2(b), Pow2(32 - b), Pow2(b - 1));
  }

  lemma Shr32uTop(a: int, b: nat)
    requires TWO31 <= a < TWO32 && 0 < b < 32
    ensures Xor(Shr(a, b), Shr(-0x8000_0000, b - 1)) == ToInt32(a / Pow2(b))
  {
    hide Pow2, XorBits;
    ShrTop(a, b);
    XorHigh(Pow2(b) - 1, a / Pow2(b), 32 - b, 32);
  }

  /** The unsigned right shift is division by a power of two, rounding down. */
  lemma Shr32uExact(a: int, b: nat)
    requires 0 <= a < TWO32 && b < 32
    ensures Shr32u(a, b) == a / Pow2(b)
  {
    var lo := a / Pow2(b);
    QuotientBound(a, Pow2(b));
    ModUnique(a, TWO32, 0, a);
    ModUnique(lo, TWO32, 0, lo);
    TruncUIsToUint32(lo);
    hide XorBits, AndBits;
    if a <= 0x7fff_ffff {
      assert ToInt32(a) == a;
    } else if b == 0 {
      ModUnique(a, 1, a, 0);
    } else {
      Shr32uTop(a, b);
      var k := ToInt32Is(lo);
      Congruent(lo, ToInt32(lo), k);
      TruncUIsToUint32(ToInt32(lo));
    }
  }

  lemma QuotientBound(a: int, d: int)
    requires 0 <= a && d >= 1
    ensures 0 <= a / d <= a
  {
    var q := a / d;
    assert a == q * d + a % d && q >= 0;
    MulMono(q, q, 1, d);
  }
}
