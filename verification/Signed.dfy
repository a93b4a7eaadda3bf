/** Signed `long long` arithmetic: `__muldi3`, `__divdi3` and `__moddi3` over the
    unsigned routines, in two's complement. */
module Signed {
  import opened Arith
  import opened Words
  import opened Multiply
  import opened Division

  predicate IsLong(h: nat, a: int)
  {
    0 <= 2 * a + LongSize(h) && 2 * a < LongSize(h)
  }

  /** The `long long` with the same bits as the integer x, that is, x reduced into range. */
  function Wrap(h: nat, x: int): int
  {
    LongSizePositive(h);
    var r := x % LongSize(h);
    if 2 * r < LongSize(h) then r else r - LongSize(h)
  }

  lemma {:induction false} LongSizePositive(h: nat)
    ensures LongSize(h) >= 1 && (h >= 1 ==> exists n: nat :: LongSize(h) == 2 * n)
  {
    var B, W := Base(h), WordSize(h);
    TimesMono(1, W, W); TimesOne(W);
    if h >= 1 {
      PowDef(2, h); Double(Pow(2, h - 1));
      var b := Pow(2, h - 1);
      TimesIs(B, B); TimesIs(W, W);
      EvenProduct(b, B, W);
    }
  }

  lemma EvenProduct(b: nat, B: nat, W: nat)
    requires B == 2 * b && W == B * B
    ensures W * W == 2 * (b * B * W)
  {}

  lemma ModUnique(x: int, M: nat, q: int, r: nat)
    requires r < M && x == q * M + r
    ensures x % M == r
  {
    var q' := x / M;
    var r' := x % M;
    assert (q - q') * M == r' - r;
    if q > q' { MulAtLeast(q - q', M); }
    if q < q' { assert (q' - q) * M == r - r'; MulAtLeast(q' - q, M); }
  }

  /** Wrap gives the only `long long` that differs from x by a multiple of the double word. */
  lemma {:induction false} WrapUnique(h: nat, x: int, r: int, k: int)
    requires IsLong(h, r) && x == r + k * LongSize(h)
    ensures Wrap(h, x) == r
  {
    var M := LongSize(h);
    LongSizePositive(h);
    if r >= 0 { ModUnique(x, M, k, r); }
    else { assert (k - 1) * M == k * M - M; ModUnique(x, M, k - 1, r + M); }
  }

  lemma {:induction false} WrapCongruent(h: nat, x: int) returns (k: int)
    requires h >= 1
    ensures IsLong(h, Wrap(h, x)) && x == Wrap(h, x) + k * LongSize(h)
  {
    LongSizePositive(h);
    var M := LongSize(h);
    var q := x / M;
    assert x == q * M + x % M;
    assert (q + 1) * M == q * M + M;
    k := if 2 * (x % M) < M then q else q + 1;
  }

  /** Adding a multiple of the double word does not change the wrapped value. */
  lemma {:induction false} WrapShift(h: nat, x: int, y: int, k: int)
    requires h >= 1 && x == y + k * LongSize(h)
    ensures Wrap(h, x) == Wrap(h, y)
  {
    var j := WrapCongruent(h, y);
    assert (j + k) * LongSize(h) == j * LongSize(h) + k * LongSize(h);
    WrapUnique(h, x, Wrap(h, y), j + k);
  }

  // ----- Multiplication

  lemma {:induction false} AddUpTo(h: nat, x: nat, y: nat) returns (c: nat)
    ensures Add(h, x, y) == x + y - c * WordSize(h)
  {
    QuotRem(x + y, WordSize(h));
    c := Quot(x + y, WordSize(h));
    TimesIs(c, WordSize(h));
  }

  lemma {:induction false} MulUpTo(h: nat, x: nat, y: nat) returns (c: nat)
    ensures Mul(h, x, y) == x * y - c * WordSize(h)
  {
    TimesIs(x, y);
    QuotRem(Times(x, y), WordSize(h));
    c := Quot(x * y, WordSize(h));
    TimesIs(c, WordSize(h));
  }

  /** high + (negmid ? -mid : mid) + low.ui[L] + low.ui[H], in `unsigned int`. */
  function HighWord(h: nat, high: nat, mid: nat, negmid: bool, lh: nat, ll: nat): (r: nat)
    requires mid < WordSize(h)
    ensures r < WordSize(h)
  {
    Add(h, Add(h, Add(h, high, if negmid then Sub(h, 0, mid) else mid), ll), lh)
  }

  lemma {:induction false} HighWordValue(h: nat, u1: nat, v1: nat, ud: nat, vd: nat, negmid: bool, lh: nat, ll: nat)
    returns (t: int)
    ensures HighWord(h, Mul(h, u1, v1), Mul(h, ud, vd), negmid, lh, ll)
         == u1 * v1 + (if negmid then -(ud * vd) else ud * vd) + ll + lh - t * WordSize(h)
  {
    var high, mid := Mul(h, u1, v1), Mul(h, ud, vd);
    var c1 := MulUpTo(h, u1, v1);
    var m := if negmid then Sub(h, 0, mid) else mid;
    var c2 := MiddleValue(h, ud, vd, negmid);
    var a1 := AddUpTo(h, high, m);
    var a2 := AddUpTo(h, Add(h, high, m), ll);
    var a3 := AddUpTo(h, Add(h, Add(h, high, m), ll), lh);
    t := c1 + c2 + a1 + a2 + a3;
    FiveMultiples(c1, c2, a1, a2, a3, WordSize(h));
  }

  lemma {:induction false} MiddleValue(h: nat, ud: nat, vd: nat, negmid: bool) returns (c: int)
    ensures (if negmid then Sub(h, 0, Mul(h, ud, vd)) else Mul(h, ud, vd))
         == (if negmid then -(ud * vd) else ud * vd) - c * WordSize(h)
  {
    var c2: int;
    c2 := MulUpTo(h, ud, vd);
    var mid: int := Mul(h, ud, vd);
    if !negmid { return c2; }
    NegatedWord(WordSize(h), ud * vd, c2, mid);
    c := if mid == 0 then 0 - c2 else -1 - c2;
  }

  lemma NegatedWord(W: int, p: int, c: int, mid: int)
    requires mid == p - c * W
    ensures -mid == -p - (0 - c) * W && W - mid == -p - (-1 - c) * W
  {}

  lemma FiveMultiples(a: int, b: int, c: int, d: int, e: int, m: int)
    ensures (a + b + c + d + e) * m == a * m + b * m + c * m + d * m + e * m
  {}

  /** The part of the product above the double word vanishes. */
  lemma DropHigh(W: nat, M: nat, u: nat, v: nat, u1: nat, u0: nat, v1: nat, v0: nat, lh: nat, ll: nat, t: int, hi: nat)
    requires M == W * W && u == u1 * W + u0 && v == v1 * W + v0 && u0 * v0 == lh * W + ll
    requires hi == u1 * v1 + (u1 - u0) * (v0 - v1) + ll + lh - t * W
    ensures hi * W + ll == u * v + (-(u1 * v1 + lh + t)) * M
  {
    assert (u1 - u0) * (v0 - v1) == u1 * v0 + u0 * v1 - u1 * v1 - (lh * W + ll);
    DropHighStar(W, u, v, u1, u0, v1, v0, lh, ll, t, hi);
  }

  lemma DropHighStar(W: nat, u: nat, v: nat, u1: nat, u0: nat, v1: nat, v0: nat, lh: nat, ll: nat, t: int, hi: nat)
    requires u == u1 * W + u0 && v == v1 * W + v0 && u0 * v0 == lh * W + ll
    requires hi == u1 * v0 + u0 * v1 - lh * W + lh - t * W
    ensures hi * W + ll == u * v + (-(u1 * v1 + lh + t)) * (W * W)
  {
    assert u * v == u1 * v1 * (W * W) + (u1 * v0 + u0 * v1) * W + u0 * v0;
  }

  /** The product of two magnitudes, modulo the double word. */
  method MagnitudeProduct(h: nat, u: nat, v: nat) returns (x: nat, ghost k: int)
    requires h >= 1
    ensures x == u * v + k * LongSize(h)
  {
    var W := WordSize(h);
    var u1, u0, v1, v0 := Quot(u, W), Rem(u, W), Quot(v, W), Rem(v, W);
    var lh, ll := Lmulq(h, u0, v0);
    WordsOf(h, u); WordsOf(h, v);
    if u1 == 0 && v1 == 0 {
      MulLe(0, lh, W);
      return lh * W + ll, 0;
    }
    var hi;
    ghost var t;
    hi, t := HighPart(h, u1, u0, v1, v0, lh, ll);
    MulLe(0, hi, W);
    x := hi * W + ll;
    TimesIs(W, W);
    k := -(u1 * v1 + lh + t);
    DropHigh(W, LongSize(h), u, v, u1, u0, v1, v0, lh, ll, t, hi);
  }

  /** The high word of the product, from its three products and the low one, up to a multiple
      of the word. */
  method HighPart(h: nat, u1: nat, u0: nat, v1: nat, v0: nat, lh: nat, ll: nat) returns (hi: nat, ghost t: int)
    ensures hi == u1 * v1 + (u1 - u0) * (v0 - v1) + ll + lh - t * WordSize(h)
  {
    var negmid := (u1 < u0) != (v0 < v1);
    var udiff := if u1 >= u0 then u1 - u0 else u0 - u1;
    var vdiff := if v0 >= v1 then v0 - v1 else v1 - v0;
    hi := HighWord(h, Mul(h, u1, v1), Mul(h, udiff, vdiff), negmid, lh, ll);
    t := HighWordValue(h, u1, v1, udiff, vdiff, negmid, lh, ll);
    MidSign(1, u1, u0, v1, v0, udiff, vdiff);
  }

  /** `__muldi3`: the product of two `long long`s, modulo their size. */
  method Muldi3(h: nat, a: int, b: int) returns (r: int)
    requires h >= 1 && IsLong(h, a) && IsLong(h, b)
    ensures r == Wrap(h, a * b)
  {
    var u, v := if a >= 0 then a else -a, if b >= 0 then b else -b;
    var negall := (a < 0) != (b < 0);
    var x: nat;
    ghost var k: int;
    x, k := MagnitudeProduct(h, u, v);
    r := Wrap(h, if negall then -(x as int) else x);
    SignedProduct(a, b, u, v);
    NegateMultiple(k, LongSize(h));
    if negall { WrapShift(h, -(x as int), a * b, -k); } else { WrapShift(h, x, a * b, k); }
  }

  lemma NegateMultiple(k: int, m: int)
    ensures (-k) * m == -(k * m)
  {}

  lemma SignedProduct(a: int, b: int, u: nat, v: nat)
    requires u == (if a >= 0 then a else -a) && v == (if b >= 0 then b else -b)
    ensures a * b == if (a < 0) != (b < 0) then -(u * v) else u * v
  {}

  lemma {:induction false} WordsOf(h: nat, x: nat)
    ensures x == Quot(x, WordSize(h)) * WordSize(h) + Rem(x, WordSize(h))
  {
    QuotRem(x, WordSize(h));
    TimesIs(Quot(x, WordSize(h)), WordSize(h));
  }

  // ----- Division

  function Abs(a: int): nat { if a >= 0 then a else -a }

  /** Quotient truncated toward zero, and the remainder that goes with it. */
  function TruncQuot(a: int, b: int): int
    requires b != 0
  {
    var q: int := Abs(a) / Abs(b);
    if (a < 0) != (b < 0) then -q else q
  }

  function TruncRem(a: int, b: int): int
    requires b != 0
  {
    var r: int := Abs(a) % Abs(b);
    if a < 0 then -r else r
  }

  /** Truncated division is the only division whose remainder is smaller than the divisor
      and takes the sign of the dividend. */
  lemma TruncDivision(a: int, b: int, q: int, r: int)
    requires b != 0
    ensures q == TruncQuot(a, b) && r == TruncRem(a, b)
       <==> a == b * q + r && Abs(r) < Abs(b) && (r == 0 || (r < 0) == (a < 0))
  {
    var x, y := Abs(a), Abs(b);
    DivModEquation(x, y);
    SignCases(a, b, x / y, x % y);
    if a == b * q + r && Abs(r) < Abs(b) && (r == 0 || (r < 0) == (a < 0)) {
      var s := if (a < 0) != (b < 0) then -q else q;
      assert x == s * y + Abs(r) by { SignBack(a, b, q, r); }
      if s < 0 { MulAtLeast(-s, y); assert (-s) * y == -(s * y); }
      ModUnique(x, y, s, Abs(r));
      assert (s - x / y) * y == 0;
      if s > x / y { MulAtLeast(s - x / y, y); }
      if s < x / y { assert (x / y - s) * y == 0; MulAtLeast(x / y - s, y); }
    }
  }

  lemma SignCases(a: int, b: int, q: int, r: int)
    requires Abs(a) == q * Abs(b) + r
    ensures a == b * (if (a < 0) != (b < 0) then -q else q) + if a < 0 then -r else r
  {}

  lemma SignBack(a: int, b: int, q: int, r: int)
    requires b != 0 && a == b * q + r && Abs(r) < Abs(b) && (r == 0 || (r < 0) == (a < 0))
    ensures Abs(a) == (if (a < 0) != (b < 0) then -q else q) * Abs(b) + Abs(r)
  {}

  lemma {:induction false} MagnitudeFits(h: nat, a: int)
    requires h >= 1 && IsLong(h, a)
    ensures Abs(a) < Pow(Base(h), 4)
  {
    FourthPower(Base(h));
    LongSizePositive(h);
  }

  /** `__divdi3`. */
  method Divdi3(h: nat, a: int, b: int) returns (r: int)
    requires h >= 1 && IsLong(h, a) && IsLong(h, b) && b != 0
    ensures r == Wrap(h, TruncQuot(a, b))
  {
    var neg := false;
    var ua, ub := a, b;
    if a < 0 { ua := -ua; neg := !neg; }
    if b < 0 { ub := -ub; neg := !neg; }
    MagnitudeFits(h, a); MagnitudeFits(h, b);
    var uq, _ := Qdivrem(h, ua, ub, false);
    r := Wrap(h, if neg then -(uq as int) else uq);
  }

  /** `__moddi3`. The remainder always fits, so nothing wraps. */
  method Moddi3(h: nat, a: int, b: int) returns (r: int)
    requires h >= 1 && IsLong(h, a) && IsLong(h, b) && b != 0
    ensures r == TruncRem(a, b)
  {
    var neg := false;
    var ua, ub := a, b;
    if a < 0 { ua := -ua; neg := true; }
    if b < 0 { ub := -ub; }
    MagnitudeFits(h, a); MagnitudeFits(h, b);
    var _, ur := Qdivrem(h, ua, ub, true);
    var m: int := if neg then -(ur.value as int) else ur.value;
    assert m == TruncRem(a, b);
    WrapRemainder(h, a, b);
    r := Wrap(h, m);
  }

  lemma {:induction false} WrapRemainder(h: nat, a: int, b: int)
    requires h >= 1 && IsLong(h, a) && IsLong(h, b) && b != 0
    ensures Wrap(h, TruncRem(a, b)) == TruncRem(a, b)
  {
    RemainderFits(h, a, b);
    WrapUnique(h, TruncRem(a, b), TruncRem(a, b), 0);
  }

  lemma {:induction false} RemainderFits(h: nat, a: int, b: int)
    requires h >= 1 && IsLong(h, a) && IsLong(h, b) && b != 0
    ensures IsLong(h, TruncRem(a, b))
  {
    TruncDivision(a, b, TruncQuot(a, b), TruncRem(a, b));
  }

  /** Dividing, multiplying back and adding the remainder gives the dividend, in `long long`
      arithmetic, for every divisor but zero: also where the quotient overflows. */
  lemma {:induction false} DivisionLaw(h: nat, a: int, b: int)
    requires h >= 1 && IsLong(h, a) && IsLong(h, b) && b != 0
    ensures Wrap(h, Wrap(h, b * Wrap(h, TruncQuot(a, b))) + TruncRem(a, b)) == a
  {
    var q, r, M := TruncQuot(a, b), TruncRem(a, b), LongSize(h);
    TruncDivision(a, b, q, r);
    var k := WrapCongruent(h, q);
    var w := Wrap(h, q);
    assert b * q == b * w + (b * k) * M by { ScaleCongruence(b, q, w, k, M); }
    var j := WrapCongruent(h, b * w);
    var x := Wrap(h, b * w) + r;
    assert x == a + (-(b * k) - j) * M by { CollectMultiples(b * k, j, M); }
    WrapUnique(h, x, a, -(b * k) - j);
  }

  lemma ScaleCongruence(b: int, q: int, w: int, k: int, M: int)
    requires q == w + k * M
    ensures b * q == b * w + (b * k) * M
  {}

  lemma CollectMultiples(x: int, j: int, M: int)
    ensures (-x - j) * M == -(x * M) - j * M
  {}

  /** The quotient overflows in one case only: the smallest `long long` divided by -1. */
  lemma {:induction false} QuotientExact(h: nat, a: int, b: int)
    requires h >= 1 && IsLong(h, a) && IsLong(h, b) && b != 0
    ensures Wrap(h, TruncQuot(a, b)) == TruncQuot(a, b) <==> !(2 * a == -(LongSize(h) as int) && b == -1)
  {
    var q := TruncQuot(a, b);
    var k := WrapCongruent(h, q);
    if 2 * a == -(LongSize(h) as int) && b == -1 {
      assert Abs(a) / 1 == Abs(a);
    } else {
      QuotientFits(a, b);
      WrapUnique(h, q, q, 0);
    }
  }

  lemma QuotientFits(a: int, b: int)
    requires b != 0
    ensures Abs(TruncQuot(a, b)) <= Abs(a)
    ensures Abs(b) >= 2 && a != 0 ==> Abs(TruncQuot(a, b)) < Abs(a)
    ensures b == 1 ==> TruncQuot(a, b) == a
    ensures b == -1 ==> TruncQuot(a, b) == -a
  {
    DivBounds(Abs(a), Abs(b));
  }

  lemma DivBounds(x: nat, y: nat)
    requires y >= 1
    ensures 0 <= x / y <= x && (y >= 2 && x > 0 ==> x / y < x) && (y == 1 ==> x / y == x)
  {
    DivModEquation(x, y);
    FactorBound(x / y, y);
  }

  lemma FactorBound(q: nat, y: nat)
    requires y >= 1
    ensures q * y >= q && (y >= 2 ==> q * y >= 2 * q)
  {}
}
