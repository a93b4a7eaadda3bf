/** Half-words, words and the digit strings built from them.

    The millicode library works for any `int` width, so everything here is
    parameterised by `h`, the number of bits in half an `int` (HALF_BITS).
    A digit is below `Base(h)`, a word (`unsigned int`) is below `WordSize(h)`. */
module Words {
  import opened Arith

  function Base(h: nat): (b: nat)
    ensures b >= 1 && (h >= 1 ==> b >= 2)
  {
    PowPositive(2, h);
    Pow(2, h)
  }

  function WordSize(h: nat): (w: nat)
    ensures w >= Base(h)
  {
    TimesMono(1, Base(h), Base(h));
    TimesOne(Base(h));
    Times(Base(h), Base(h))
  }

  /** The number of values of a `long long`. */
  function LongSize(h: nat): nat
  {
    Times(WordSize(h), WordSize(h))
  }

  // ----- Operators of `unsigned int`

  function Add(h: nat, x: nat, y: nat): (r: nat)
    ensures r < WordSize(h) && (x + y < WordSize(h) ==> r == x + y)
  {
    QuotRemDef(x + y, WordSize(h));
    Rem(x + y, WordSize(h))
  }

  function Sub(h: nat, x: nat, y: nat): (r: nat)
    requires x < WordSize(h) && y < WordSize(h)
    ensures r < WordSize(h)
  {
    if x >= y then x - y else x + WordSize(h) - y
  }

  function Mul(h: nat, x: nat, y: nat): (r: nat)
    ensures r < WordSize(h) && (Times(x, y) < WordSize(h) ==> r == Times(x, y))
  {
    QuotRemDef(Times(x, y), WordSize(h));
    Rem(Times(x, y), WordSize(h))
  }

  function BitOr(x: nat, y: nat): nat
    decreases x + y, 2
  {
    BitOr1(x, y)
  }

  function BitOr1(x: nat, y: nat): nat
    decreases x + y, 1
  {
    BitOr2(x, y)
  }

  function BitOr2(x: nat, y: nat): nat
    decreases x + y, 0
  {
    if x == 0 && y == 0 then 0
    else 2 * BitOr(x / 2, y / 2) + if x % 2 == 1 || y % 2 == 1 then 1 else 0
  }

  lemma {:induction false} BitOrDef(x: nat, y: nat)
    ensures BitOr(x, y) == if x == 0 && y == 0 then 0
                           else 2 * BitOr(x / 2, y / 2) + if x % 2 == 1 || y % 2 == 1 then 1 else 0
  {
    assert BitOr(x, y) == BitOr1(x, y);
    assert BitOr1(x, y) == BitOr2(x, y);
  }

  function BitAnd(x: nat, y: nat): nat
    decreases x + y, 2
  {
    BitAnd1(x, y)
  }

  function BitAnd1(x: nat, y: nat): nat
    decreases x + y, 1
  {
    BitAnd2(x, y)
  }

  function BitAnd2(x: nat, y: nat): nat
    decreases x + y, 0
  {
    if x == 0 || y == 0 then 0
    else 2 * BitAnd(x / 2, y / 2) + if x % 2 == 1 && y % 2 == 1 then 1 else 0
  }

  lemma {:induction false} BitAndDef(x: nat, y: nat)
    ensures BitAnd(x, y) == if x == 0 || y == 0 then 0
                            else 2 * BitAnd(x / 2, y / 2) + if x % 2 == 1 && y % 2 == 1 then 1 else 0
  {
    assert BitAnd(x, y) == BitAnd1(x, y);
    assert BitAnd1(x, y) == BitAnd2(x, y);
  }

  lemma {:induction false} Double(x: nat)
    ensures Times(2, x) == 2 * x
  {
    TimesIs(2, x);
  }

  /** Or-ing numbers that share no bit is adding them. */
  lemma {:induction false} BitOrDisjoint(x: nat, y: nat, k: nat)
    requires y < Pow(2, k)
    ensures BitOr(Times(x, Pow(2, k)), y) == Times(x, Pow(2, k)) + y
    decreases k, x
  {
    PowDef(2, k);
    BitOrDef(Times(x, Pow(2, k)), y);
    if k == 0 {
      TimesOne(x);
      if x > 0 {
        TimesOne(x / 2);
        BitOrDisjoint(x / 2, 0, 0);
      }
    } else {
      TimesSwap(x, 2, Pow(2, k - 1));
      Double(Times(x, Pow(2, k - 1)));
      Double(Pow(2, k - 1));
      BitOrDisjoint(x, y / 2, k - 1);
    }
  }

  /** And-ing with a string of ones keeps the low bits. */
  lemma {:induction false} BitAndMask(x: nat, k: nat)
    ensures Pow(2, k) >= 1
    ensures BitAnd(x, Pow(2, k) - 1) == Rem(x, Pow(2, k))
    decreases k
  {
    PowPositive(2, k);
    PowDef(2, k);
    BitAndDef(x, Pow(2, k) - 1);
    RemBelow(x, Pow(2, k));
    if k > 0 {
      PowPositive(2, k - 1);
      Double(Pow(2, k - 1));
      BitAndMask(x / 2, k - 1);
      RemTwice(x, Pow(2, k - 1));
      var y := Pow(2, k) - 1;
      assert y % 2 == 1 && y / 2 == Pow(2, k - 1) - 1;
    }
  }

  lemma {:induction false} RemBelow(x: nat, p: nat)
    requires p >= 1
    ensures x < p ==> Rem(x, p) == x
  {
    QuotRemDef(x, p);
  }

  /** The low k+1 bits of x are its low bit and the low k bits of x/2. */
  lemma {:induction false} RemTwice(x: nat, p: nat)
    requires p >= 1
    ensures Rem(x, 2 * p) == 2 * Rem(x / 2, p) + x % 2
  {
    var q, r := Quot(x / 2, p), Rem(x / 2, p);
    QuotRem(x / 2, p);
    TimesSwap(q, 2, p);
    Double(p);
    Double(Times(q, p));
    QuotRemUnique(2 * p, q, 2 * r + x % 2);
  }

  // ----- The macros of longlong.h and qdivrem.c

  /** HHALF(x): the word shifted right by half its bits. */
  function HHalf(h: nat, x: nat): (r: nat)
  {
    Quot(x, Base(h))
  }

  /** LHALF(x): the word masked to its low half. */
  function LHalf(h: nat, x: nat): (r: nat)
    ensures r == Rem(x, Base(h)) && r < Base(h)
  {
    BitAndMask(x, h);
    BitAnd(x, Base(h) - 1)
  }

  /** LHUP(x): the low half shifted to the top of the word. */
  function LHup(h: nat, x: nat): (r: nat)
    ensures r < WordSize(h)
  {
    Mul(h, x, Base(h))
  }

  /** COMBINE(a, b): `a` shifted up half a word, or-ed with the digit `b`. */
  function Combine(h: nat, a: nat, b: nat): (r: nat)
    requires a < Base(h) && b < Base(h)
    ensures r == Times(a, Base(h)) + b
    ensures r < WordSize(h)
  {
    TwoDigitsFit(Base(h), a, b);
    BitOrDisjoint(a, b, h);
    BitOr(Mul(h, a, Base(h)), b)
  }

  lemma {:induction false} TwoDigitsFit(B: nat, a: nat, b: nat)
    requires a < B && b < B
    ensures Times(a, B) + b < Times(B, B)
  {
    TimesDist(a, 1, B);
    TimesOne(B);
    TimesMono(a + 1, B, B);
  }

  lemma {:induction false} HalvesOfWord(h: nat, x: nat)
    requires x < WordSize(h)
    ensures HHalf(h, x) < Base(h) && x == Times(HHalf(h, x), Base(h)) + LHalf(h, x)
  {
    QuotRem(x, Base(h));
    QuotSmall(x, Base(h), Base(h));
  }

  // ----- Digit strings, most significant digit first

  ghost predicate IsDigits(b: nat, s: seq<nat>)
  {
    forall i :: 0 <= i < |s| ==> s[i] < b
  }

  function Val(b: nat, s: seq<nat>): nat
    decreases |s|, 2
  {
    Val1(b, s)
  }

  function Val1(b: nat, s: seq<nat>): nat
    decreases |s|, 1
  {
    Val2(b, s)
  }

  function Val2(b: nat, s: seq<nat>): nat
    decreases |s|, 0
  {
    if |s| == 0 then 0 else Times(Val(b, s[..|s| - 1]), b) + s[|s| - 1]
  }

  lemma {:induction false} ValDef(b: nat, s: seq<nat>)
    ensures Val(b, s) == if |s| == 0 then 0 else Times(Val(b, s[..|s| - 1]), b) + s[|s| - 1]
  {
    assert Val(b, s) == Val1(b, s);
    assert Val1(b, s) == Val2(b, s);
  }

  lemma {:induction false} LastDigit(b: nat, s: seq<nat>, k: nat)
    requires 0 < k <= |s|
    ensures Val(b, s[..k]) == Times(Val(b, s[..k - 1]), b) + s[k - 1]
  {
    ValDef(b, s[..k]);
    assert s[..k][..k - 1] == s[..k - 1];
  }

  lemma {:induction false} ValPrepend(b: nat, x: nat, s: seq<nat>)
    ensures Val(b, [x] + s) == Times(x, Pow(b, |s|)) + Val(b, s)
  {
    var t := [x] + s;
    ValDef(b, t); ValDef(b, s); PowDef(b, |s|);
    if |s| == 0 {
      assert t[..|t| - 1] == s;
      TimesOne(x); TimesOne(b);
    } else {
      var r, y := s[..|s| - 1], s[|s| - 1];
      assert t[..|t| - 1] == [x] + r;
      var p := Pow(b, |r|);
      calc {
        Val(b, t);
        Times(Val(b, [x] + r), b) + y;
        { ValPrepend(b, x, r); }
        Times(Times(x, p) + Val(b, r), b) + y;
        { TimesDist(Times(x, p), Val(b, r), b); }
        Times(Times(x, p), b) + Val(b, s);
        { TimesAssoc(x, p, b); TimesComm(p, b); }
        Times(x, Pow(b, |s|)) + Val(b, s);
      }
    }
  }

  lemma {:induction false} ValConcat(b: nat, s: seq<nat>, t: seq<nat>)
    ensures Val(b, s + t) == Times(Val(b, s), Pow(b, |t|)) + Val(b, t)
  {
    ValDef(b, s + t); ValDef(b, t); PowDef(b, |t|);
    if |t| == 0 {
      assert s + t == s;
      TimesOne(Val(b, s));
    } else {
      var r, y := t[..|t| - 1], t[|t| - 1];
      assert (s + t)[..|s + t| - 1] == s + r;
      var p := Pow(b, |r|);
      calc {
        Val(b, s + t);
        Times(Val(b, s + r), b) + y;
        { ValConcat(b, s, r); }
        Times(Times(Val(b, s), p) + Val(b, r), b) + y;
        { TimesDist(Times(Val(b, s), p), Val(b, r), b); }
        Times(Times(Val(b, s), p), b) + Val(b, t);
        { TimesAssoc(Val(b, s), p, b); TimesComm(p, b); }
        Times(Val(b, s), Pow(b, |t|)) + Val(b, t);
      }
    }
  }

  lemma {:induction false} ValBound(b: nat, s: seq<nat>)
    requires IsDigits(b, s)
    ensures Val(b, s) < Pow(b, |s|)
  {
    ValDef(b, s); PowDef(b, |s|);
    if |s| > 0 {
      var v, p := Val(b, s[..|s| - 1]), Pow(b, |s| - 1);
      ValBound(b, s[..|s| - 1]);
      TimesMono(v + 1, p, b);
      TimesDist(v, 1, b);
      TimesOne(b);
      TimesComm(b, p);
    }
  }

  /** Leading zeros do not count. */
  lemma {:induction false} ValLeadingZeros(b: nat, s: seq<nat>, k: nat)
    requires k <= |s| && forall i :: 0 <= i < k ==> s[i] == 0
    ensures Val(b, s) == Val(b, s[k..])
    decreases k
  {
    if k > 0 {
      assert s == [s[0]] + s[1..];
      ValPrepend(b, s[0], s[1..]);
      TimesOne(Pow(b, |s| - 1));
      ValLeadingZeros(b, s[1..], k - 1);
      assert s[1..][k - 1..] == s[k..];
    } else {
      assert s[k..] == s;
    }
  }

  /** A value that fits in the tail forces the first digit to be zero. */
  lemma {:induction false} ValTopDigitZero(b: nat, s: seq<nat>)
    requires |s| > 0 && Val(b, s) < Pow(b, |s| - 1)
    ensures s[0] == 0 && Val(b, s[1..]) == Val(b, s)
  {
    var p := Pow(b, |s| - 1);
    assert s == [s[0]] + s[1..];
    ValPrepend(b, s[0], s[1..]);
    TimesOne(p);
    if s[0] > 0 { TimesMono(1, s[0], p); }
  }
}
