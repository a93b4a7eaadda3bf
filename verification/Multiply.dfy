/** `__lmulq` and `__muldi3`: Knuth's three-product multiplication (The Art of Computer
    Programming, volume 2, section 4.3.3), with every carry and borrow of the word
    arithmetic written out. */
module Multiply {
  import opened Arith
  import opened Words

  // ----- A product under construction: the value of a pair of words, modulo their size

  function PairOf(W: nat, hi: nat, lo: nat): nat { hi * W + lo }

  lemma {:induction false} AddWrap(h: nat, x: nat, y: nat)
    requires x < WordSize(h) && y < WordSize(h)
    ensures Add(h, x, y) == if x + y < WordSize(h) then x + y else x + y - WordSize(h)
    ensures (Add(h, x, y) < x) == (x + y >= WordSize(h)) == (Add(h, x, y) < y)
  {
    QuotRemDef(x + y, WordSize(h));
    if x + y >= WordSize(h) { QuotRemDef(x + y - WordSize(h), WordSize(h)); }
  }

  /** x << HALF_BITS as a pair of words: HHALF(x) and LHUP(x). */
  lemma {:induction false} ShiftedWord(h: nat, x: nat)
    requires x < WordSize(h)
    ensures x * Base(h) == PairOf(WordSize(h), HHalf(h, x), LHup(h, x))
    ensures HHalf(h, x) < Base(h)
  {
    var B, W, hi, lo := Base(h), WordSize(h), HHalf(h, x), LHalf(h, x);
    HalvesOfWord(h, x);
    ScaledHalves(B, W, hi, lo, x);
    TwoDigitsFit(B, lo, 0);
    QuotRemUnique(W, hi, Times(lo, B));
    TimesIs(x, B);
    TimesIs(hi, W);
  }

  lemma {:induction false} ScaledHalves(B: nat, W: nat, hi: nat, lo: nat, x: nat)
    requires W == Times(B, B) && x == Times(hi, B) + lo
    ensures Times(x, B) == Times(hi, W) + Times(lo, B)
  {
    TimesIs(B, B); TimesIs(hi, B); TimesIs(x, B); TimesIs(hi, W); TimesIs(lo, B);
    ScaleHalves(B, W, hi, lo, x);
  }

  lemma ScaleHalves(B: nat, W: nat, hi: nat, lo: nat, x: nat)
    requires W == B * B && x == hi * B + lo
    ensures x * B == hi * W + lo * B
  {}

  /** prod += x << N, the carry found by comparing with the previous low word. */
  function AddShifted(h: nat, p: (nat, nat), x: nat): (r: (nat, nat))
    requires p.0 < WordSize(h) && p.1 < WordSize(h) && x < WordSize(h)
    ensures r.0 < WordSize(h) && r.1 < WordSize(h)
  {
    var lo := Add(h, p.1, LHup(h, x));
    (Add(h, p.0, HHalf(h, x) + if lo < p.1 then 1 else 0), lo)
  }

  /** prod -= x << N, likewise with a borrow. */
  function SubShifted(h: nat, p: (nat, nat), x: nat): (r: (nat, nat))
    requires h >= 1 && p.0 < WordSize(h) && p.1 < WordSize(h) && x < WordSize(h)
    ensures r.0 < WordSize(h) && r.1 < WordSize(h)
  {
    ShiftedWord(h, x);
    TimesMono(2, Base(h), Base(h)); Double(Base(h));
    var lo := Sub(h, p.1, LHup(h, x));
    (Sub(h, p.0, HHalf(h, x) + if lo > p.1 then 1 else 0), lo)
  }

  /** prod += x. */
  function AddWord(h: nat, p: (nat, nat), x: nat): (r: (nat, nat))
    requires p.0 < WordSize(h) && p.1 < WordSize(h) && x < WordSize(h)
    ensures r.0 < WordSize(h) && r.1 < WordSize(h)
  {
    var lo := Add(h, p.1, x);
    (if lo < x then Add(h, p.0, 1) else p.0, lo)
  }

  /** The value lemmas below give the multiple of the double word that wrapped around. */
  lemma {:induction false} AddShiftedValue(h: nat, p: (nat, nat), x: nat) returns (k: int)
    requires h >= 1 && p.0 < WordSize(h) && p.1 < WordSize(h) && x < WordSize(h)
    ensures var r, W := AddShifted(h, p, x), WordSize(h);
            PairOf(W, r.0, r.1) == PairOf(W, p.0, p.1) + x * Base(h) + k * LongSize(h)
  {
    var W, r, hi, lo := WordSize(h), AddShifted(h, p, x), HHalf(h, x), LHup(h, x);
    TimesIs(W, W);
    ShiftedWord(h, x);
    BaseFits(h);
    AddWrap(h, p.1, lo);
    var c: int := if r.1 < p.1 then 1 else 0;
    AddWrap(h, p.0, hi + c);
    k := if p.0 + hi + c >= W then -1 else 0;
    Carry(W, LongSize(h), r.0, r.1, p.0, p.1, hi, lo, c, k);
  }

  lemma {:induction false} BaseFits(h: nat)
    requires h >= 1
    ensures 2 * Base(h) <= WordSize(h)
  {
    TimesMono(2, Base(h), Base(h)); Double(Base(h));
  }

  lemma Carry(W: nat, M: nat, h': int, l': int, h: int, l: int, hi: int, lo: int, c: int, k: int)
    requires M == W * W && l' == l + lo - c * W && h' == h + hi + c + k * W
    ensures h' * W + l' == (h * W + l) + (hi * W + lo) + k * M
  {}

  lemma {:induction false} SubShiftedValue(h: nat, p: (nat, nat), x: nat) returns (k: int)
    requires h >= 1 && p.0 < WordSize(h) && p.1 < WordSize(h) && x < WordSize(h)
    ensures var r, W := SubShifted(h, p, x), WordSize(h);
            PairOf(W, r.0, r.1) == PairOf(W, p.0, p.1) - x * Base(h) + k * LongSize(h)
  {
    var W, r, hi, lo := WordSize(h), SubShifted(h, p, x), HHalf(h, x), LHup(h, x);
    TimesIs(W, W);
    ShiftedWord(h, x);
    if r.1 > p.1 {
      k := if p.0 < hi + 1 then 1 else 0;
      Borrow(W, LongSize(h), r.0, r.1, p.0, p.1, hi, lo, 1, k);
    } else {
      k := if p.0 < hi then 1 else 0;
      Borrow(W, LongSize(h), r.0, r.1, p.0, p.1, hi, lo, 0, k);
    }
  }

  lemma Borrow(W: nat, M: nat, h': int, l': int, h: int, l: int, hi: int, lo: int, c: int, k: int)
    requires M == W * W && l' == l - lo + c * W && h' == h - hi - c + k * W
    ensures h' * W + l' == (h * W + l) - (hi * W + lo) + k * M
  {}

  lemma {:induction false} AddWordValue(h: nat, p: (nat, nat), x: nat) returns (k: int)
    requires h >= 1 && p.0 < WordSize(h) && p.1 < WordSize(h) && x < WordSize(h)
    ensures var r, W := AddWord(h, p, x), WordSize(h);
            PairOf(W, r.0, r.1) == PairOf(W, p.0, p.1) + x + k * LongSize(h)
  {
    var W, r := WordSize(h), AddWord(h, p, x);
    TimesIs(W, W);
    BaseFits(h);
    AddWrap(h, p.1, x);
    AddWrap(h, p.0, 1);
    var c: int := if r.1 < x then 1 else 0;
    k := if c == 1 && p.0 + 1 >= W then -1 else 0;
    Carry(W, LongSize(h), r.0, r.1, p.0, p.1, 0, x, c, k);
  }

  /** Numbers below M that differ by a multiple of M are equal. */
  lemma SameBelow(M: nat, x: nat, y: nat, k: int)
    requires x == y + k * M && x < M && y < M
    ensures x == y
  {
    if k >= 1 { MulAtLeast(k, M); }
    if k <= -1 { MulAtLeast(-k, M); }
  }

  lemma MulAtLeast(k: int, M: nat)
    requires k >= 1
    ensures k * M >= M
  {}

  // ----- __lmulq

  function HalfProduct(h: nat, x: nat, y: nat): (r: nat)
    requires x < Base(h) && y < Base(h)
    ensures r == x * y && r < WordSize(h)
  {
    TimesMono(y, Base(h), x); TwoDigitsFit(Base(h), x, 0);
    TimesIs(x, y);
    Mul(h, x, y)
  }

  /** Assemble high, mid and low into the product pair. */
  function Assemble(h: nat, high: nat, mid: nat, neg: bool, low: nat): (r: (nat, nat))
    requires h >= 1 && high < WordSize(h) && mid < WordSize(h) && low < WordSize(h)
    ensures r.0 < WordSize(h) && r.1 < WordSize(h)
  {
    var p0 := (Add(h, high, HHalf(h, high)), LHup(h, high));
    var p1 := if neg then SubShifted(h, p0, mid) else AddShifted(h, p0, mid);
    AddWord(h, AddShifted(h, p1, low), low)
  }

  lemma {:induction false} AssembleValue(h: nat, high: nat, mid: nat, neg: bool, low: nat) returns (k: int)
    requires h >= 1 && high < WordSize(h) && mid < WordSize(h) && low < WordSize(h)
    ensures var r, W, B := Assemble(h, high, mid, neg, low), WordSize(h), Base(h);
            PairOf(W, r.0, r.1) == high * W + high * B + (if neg then -(mid * B) else mid * B) + low * B + low +
                k * LongSize(h)
  {
    var W := WordSize(h);
    var p0 := (Add(h, high, HHalf(h, high)), LHup(h, high));
    assert p0 == AddShifted(h, (high, 0), high) by { AddWrap(h, 0, LHup(h, high)); }
    var k0 := AddShiftedValue(h, (high, 0), high);
    var p1, k1;
    if neg {
      p1 := SubShifted(h, p0, mid);
      k1 := SubShiftedValue(h, p0, mid);
    } else {
      p1 := AddShifted(h, p0, mid);
      k1 := AddShiftedValue(h, p0, mid);
    }
    var k2 := AddShiftedValue(h, p1, low);
    var k3 := AddWordValue(h, AddShifted(h, p1, low), low);
    k := k0 + k1 + k2 + k3;
    FourMultiples(k0, k1, k2, k3, LongSize(h));
  }

  lemma FourMultiples(a: int, b: int, c: int, d: int, m: int)
    ensures (a + b + c + d) * m == a * m + b * m + c * m + d * m
  {}

  /** The exact double-word product of two words. */
  method Lmulq(h: nat, u: nat, v: nat) returns (hi: nat, lo: nat)
    requires h >= 1 && u < WordSize(h) && v < WordSize(h)
    ensures hi < WordSize(h) && lo < WordSize(h)
    ensures hi * WordSize(h) + lo == u * v
  {
    ghost var B, W := Base(h), WordSize(h);
    TimesIs(B, B);
    HalvesOfWord(h, u); HalvesOfWord(h, v);
    var u1, u0, v1, v0 := HHalf(h, u), LHalf(h, u), HHalf(h, v), LHalf(h, v);
    TimesIs(u1, B); TimesIs(v1, B);
    var low := HalfProduct(h, u0, v0);
    if u1 == 0 && v1 == 0 {
      return 0, low;
    }
    var udiff := if u1 >= u0 then u1 - u0 else u0 - u1;
    var vdiff := if v0 >= v1 then v0 - v1 else v1 - v0;
    var neg := (u1 < u0) != (v0 < v1);
    var mid := HalfProduct(h, udiff, vdiff);
    var high := HalfProduct(h, u1, v1);
    var p := Assemble(h, high, mid, neg, low);
    hi, lo := p.0, p.1;
    LmulqValue(h, u, v, u1, u0, v1, v0, udiff, vdiff, high, mid, low);
  }

  /** The assembled pair is the product: no multiple of the double word is lost. */
  lemma {:induction false} LmulqValue(h: nat, u: nat, v: nat, u1: nat, u0: nat, v1: nat, v0: nat,
                                      udiff: nat, vdiff: nat, high: nat, mid: nat, low: nat)
    requires h >= 1 && u < WordSize(h) && v < WordSize(h)
    requires u == u1 * Base(h) + u0 && v == v1 * Base(h) + v0
    requires udiff == (if u1 >= u0 then u1 - u0 else u0 - u1) && vdiff == (if v0 >= v1 then v0 - v1 else v1 - v0)
    requires high == u1 * v1 < WordSize(h) && mid == udiff * vdiff < WordSize(h) && low == u0 * v0 < WordSize(h)
    ensures var p := Assemble(h, high, mid, (u1 < u0) != (v0 < v1), low);
            p.0 * WordSize(h) + p.1 == u * v
  {
    var neg := (u1 < u0) != (v0 < v1);
    var p := Assemble(h, high, mid, neg, low);
    var k := AssembleValue(h, high, mid, neg, low);
    TimesIs(Base(h), Base(h));
    UpToWrap(Base(h), WordSize(h), u, v, u1, u0, v1, v0, udiff, vdiff, p.0 * WordSize(h) + p.1, k * LongSize(h));
    NoWrap(h, p.0, p.1, u, v, k, p.0 * WordSize(h) + p.1, u * v, k * LongSize(h));
  }

  lemma UpToWrap(B: nat, W: nat, u: nat, v: nat, u1: nat, u0: nat, v1: nat, v0: nat, udiff: nat, vdiff: nat,
                 p: int, w: int)
    requires W == B * B && u == u1 * B + u0 && v == v1 * B + v0
    requires udiff == (if u1 >= u0 then u1 - u0 else u0 - u1) && vdiff == (if v0 >= v1 then v0 - v1 else v1 - v0)
    requires p == u1 * v1 * W + u1 * v1 * B
                  + (if (u1 < u0) != (v0 < v1) then -(udiff * vdiff * B) else udiff * vdiff * B)
                  + u0 * v0 * B + u0 * v0 + w
    ensures p == u * v + w
  {
    MidSign(B, u1, u0, v1, v0, udiff, vdiff);
    ThreeProducts(B, W, u, v, u1, u0, v1, v0);
  }

  lemma MidSign(B: nat, u1: nat, u0: nat, v1: nat, v0: nat, udiff: nat, vdiff: nat)
    requires udiff == (if u1 >= u0 then u1 - u0 else u0 - u1) && vdiff == (if v0 >= v1 then v0 - v1 else v1 - v0)
    ensures (u1 - u0) * (v0 - v1) * B
         == if (u1 < u0) != (v0 < v1) then -(udiff * vdiff * B) else udiff * vdiff * B
  {}

  /** Knuth's identity for the three half-size products. */
  lemma ThreeProducts(B: nat, W: nat, u: nat, v: nat, u1: nat, u0: nat, v1: nat, v0: nat)
    requires W == B * B && u == u1 * B + u0 && v == v1 * B + v0
    ensures u1 * v1 * W + u1 * v1 * B + (u1 - u0) * (v0 - v1) * B + u0 * v0 * B + u0 * v0 == u * v
  {}

  /** The products are parameters, so that only the lemmas about them see them as products. */
  lemma {:induction false} NoWrap(h: nat, x: nat, y: nat, u: nat, v: nat, k: int, p: int, q: int, w: int)
    requires x < WordSize(h) && y < WordSize(h) && u < WordSize(h) && v < WordSize(h)
    requires p == x * WordSize(h) + y && q == u * v && w == k * LongSize(h) && p == q + w
    ensures p == q
  {
    MulLe(0, x, WordSize(h));
    MulLe(0, u, v);
    PairBelow(h, x, y, p);
    ProductBelow(h, u, v, q);
    SameBelow(LongSize(h), p, q, k);
  }

  lemma {:induction false} PairBelow(h: nat, x: nat, y: nat, p: nat)
    requires x < WordSize(h) && y < WordSize(h) && p == x * WordSize(h) + y
    ensures p < LongSize(h)
  {
    TimesIs(WordSize(h), WordSize(h));
    MulLe(x + 1, WordSize(h), WordSize(h));
  }

  lemma {:induction false} ProductBelow(h: nat, u: nat, v: nat, q: nat)
    requires u < WordSize(h) && v < WordSize(h) && q == u * v
    ensures q < LongSize(h)
  {
    TimesIs(WordSize(h), WordSize(h));
    MulLe(v, WordSize(h), u);
    MulLe(u + 1, WordSize(h), WordSize(h));
  }

  lemma MulLe(a: nat, b: nat, c: nat)
    requires a <= b
    ensures a * c <= b * c
  {}
}
