/** Natural-number arithmetic by repeated addition and subtraction.

    The double-word proofs reason about products of several unknowns. Stated with the
    operators of the language such products send the solver into non-linear search;
    stated with `Times`, `Quot` and `Rem` every step stays linear, and each law that a
    proof needs is named. `TimesIs` and `QuotRemAre` lead back to `*`, `/` and `%`.

    These functions, and a few in `Words`, reach their defining equations through two
    intermediate functions, so that a product or a power is unfolded only where a proof
    asks for it (with `TimesDef`, `PowDef`, ...) and is otherwise a plain term. */
module Arith {

  function Times(x: nat, y: nat): nat
    decreases y, 2
  {
    Times1(x, y)
  }

  function Times1(x: nat, y: nat): nat
    decreases y, 1
  {
    Times2(x, y)
  }

  function Times2(x: nat, y: nat): nat
    decreases y, 0
  {
    if y == 0 then 0 else Times(x, y - 1) + x
  }

  lemma {:induction false} TimesDef(x: nat, y: nat)
    ensures Times(x, y) == if y == 0 then 0 else Times(x, y - 1) + x
  {
    assert Times(x, y) == Times1(x, y);
    assert Times1(x, y) == Times2(x, y);
  }

  function Quot(x: nat, d: nat): nat
    requires d > 0
    decreases x, 2
  {
    Quot1(x, d)
  }

  function Quot1(x: nat, d: nat): nat
    requires d > 0
    decreases x, 1
  {
    Quot2(x, d)
  }

  function Quot2(x: nat, d: nat): nat
    requires d > 0
    decreases x, 0
  {
    if x < d then 0 else Quot(x - d, d) + 1
  }

  function Rem(x: nat, d: nat): (r: nat)
    requires d > 0
    ensures r < d
    decreases x, 2
  {
    Rem1(x, d)
  }

  function Rem1(x: nat, d: nat): (r: nat)
    requires d > 0
    ensures r < d
    decreases x, 1
  {
    Rem2(x, d)
  }

  function Rem2(x: nat, d: nat): (r: nat)
    requires d > 0
    ensures r < d
    decreases x, 0
  {
    if x < d then x else Rem(x - d, d)
  }

  lemma {:induction false} QuotRemDef(x: nat, d: nat)
    requires d > 0
    ensures Quot(x, d) == if x < d then 0 else Quot(x - d, d) + 1
    ensures Rem(x, d) == if x < d then x else Rem(x - d, d)
  {
    assert Quot(x, d) == Quot1(x, d);
    assert Quot1(x, d) == Quot2(x, d);
    assert Rem(x, d) == Rem1(x, d);
    assert Rem1(x, d) == Rem2(x, d);
  }

  function Pow(b: nat, n: nat): nat
    decreases n, 2
  {
    Pow1(b, n)
  }

  function Pow1(b: nat, n: nat): nat
    decreases n, 1
  {
    Pow2(b, n)
  }

  function Pow2(b: nat, n: nat): nat
    decreases n, 0
  {
    if n == 0 then 1 else Times(b, Pow(b, n - 1))
  }

  lemma {:induction false} PowDef(b: nat, n: nat)
    ensures Pow(b, n) == if n == 0 then 1 else Times(b, Pow(b, n - 1))
  {
    assert Pow(b, n) == Pow1(b, n);
    assert Pow1(b, n) == Pow2(b, n);
  }

  lemma {:induction false} TimesIs(x: nat, y: nat)
    ensures Times(x, y) == x * y
  {
    TimesDef(x, y);
    if y > 0 {
      TimesIs(x, y - 1);
      assert x * y == x * (y - 1) + x;
    }
  }

  lemma {:induction false} QuotRemAre(x: nat, d: nat)
    requires d > 0
    ensures Quot(x, d) == x / d && Rem(x, d) == x % d
  {
    DivModEquation(x, d);
    TimesIs(x / d, d);
    QuotRemUnique(d, x / d, x % d);
  }

  lemma {:induction false} DivModEquation(x: nat, d: nat)
    requires d > 0
    ensures x / d * d + x % d == x && x / d >= 0 && 0 <= x % d < d
  {}

  lemma {:induction false} TimesOne(x: nat)
    ensures Times(x, 1) == x && Times(1, x) == x && Times(x, 0) == 0 && Times(0, x) == 0
  {
    TimesDef(x, 0); TimesDef(x, 1); TimesDef(0, x); TimesDef(1, x);
    if x > 0 { TimesOne(x - 1); }
  }

  lemma {:induction false} TimesDist(x: nat, y: nat, z: nat)
    ensures Times(x + y, z) == Times(x, z) + Times(y, z)
    ensures Times(z, x + y) == Times(z, x) + Times(z, y)
  {
    DistLeft(x, y, z);
    DistRight(z, x, y);
  }

  /** Distribution over a sum that is already known under another name. */
  lemma {:induction false} TimesSum(s: nat, x: nat, y: nat, z: nat)
    requires s == x + y
    ensures Times(s, z) == Times(x, z) + Times(y, z)
    ensures Times(z, s) == Times(z, x) + Times(z, y)
  {
    TimesDist(x, y, z);
  }

  lemma {:induction false} DistLeft(x: nat, y: nat, z: nat)
    ensures Times(x + y, z) == Times(x, z) + Times(y, z)
  {
    TimesDef(x + y, z); TimesDef(x, z); TimesDef(y, z);
    if z > 0 { DistLeft(x, y, z - 1); }
  }

  lemma {:induction false} DistRight(z: nat, x: nat, y: nat)
    ensures Times(z, x + y) == Times(z, x) + Times(z, y)
  {
    TimesDef(z, x + y); TimesDef(z, y);
    if y > 0 { DistRight(z, x, y - 1); }
  }

  lemma {:induction false} TimesComm(x: nat, y: nat)
    ensures Times(x, y) == Times(y, x)
  {
    TimesOne(x);
    TimesDef(x, y);
    if y > 0 {
      TimesComm(x, y - 1);
      DistLeft(y - 1, 1, x);
    }
  }

  lemma {:induction false} TimesAssoc(x: nat, y: nat, z: nat)
    ensures Times(Times(x, y), z) == Times(x, Times(y, z))
  {
    TimesDef(Times(x, y), z); TimesDef(y, z); TimesOne(x);
    if z > 0 {
      TimesAssoc(x, y, z - 1);
      DistRight(x, Times(y, z - 1), y);
    }
  }

  lemma {:induction false} TimesSwap(x: nat, y: nat, z: nat)
    ensures Times(x, Times(y, z)) == Times(y, Times(x, z))
  {
    TimesAssoc(x, y, z); TimesAssoc(y, x, z); TimesComm(x, y);
  }

  lemma {:induction false} TimesMono(x: nat, y: nat, z: nat)
    requires x <= y
    ensures Times(x, z) <= Times(y, z) && Times(z, x) <= Times(z, y)
  {
    TimesDist(x, y - x, z);
  }

  /** Dividing a strict inequality by a common factor. */
  lemma {:induction false} TimesCancel(x: nat, y: nat, z: nat)
    requires Times(x, z) < Times(y, z)
    ensures x < y
  {
    if y <= x { TimesMono(y, x, z); }
  }

  lemma {:induction false} QuotRem(x: nat, d: nat)
    requires d > 0
    ensures x == Times(Quot(x, d), d) + Rem(x, d)
  {
    QuotRemDef(x, d);
    TimesOne(d);
    if x >= d {
      QuotRem(x - d, d);
      TimesDist(Quot(x - d, d), 1, d);
    }
  }

  /** Quotient and remainder are determined by their equation. */
  lemma {:induction false} QuotRemUnique(d: nat, q: nat, r: nat)
    requires r < d
    ensures Quot(Times(q, d) + r, d) == q && Rem(Times(q, d) + r, d) == r
    decreases q
  {
    TimesOne(d);
    QuotRemDef(Times(q, d) + r, d);
    if q > 0 {
      TimesDist(q - 1, 1, d);
      QuotRemUnique(d, q - 1, r);
    }
  }

  lemma {:induction false} RemSmall(x: nat, d: nat)
    requires x < d
    ensures Rem(x, d) == x && Quot(x, d) == 0
  {
    QuotRemDef(x, d);
  }

  lemma {:induction false} QuotSmall(x: nat, d: nat, q: nat)
    requires d > 0 && x < Times(q, d)
    ensures Quot(x, d) < q
  {
    QuotRem(x, d);
    if Quot(x, d) >= q { TimesMono(q, Quot(x, d), d); }
  }

  lemma {:induction false} PowPositive(b: nat, n: nat)
    requires b >= 1
    ensures Pow(b, n) >= 1
    ensures n >= 1 ==> Pow(b, n) >= b
  {
    PowDef(b, n);
    if n > 0 {
      PowPositive(b, n - 1);
      TimesMono(1, Pow(b, n - 1), b);
      TimesOne(b);
    }
  }

  lemma {:induction false} PowAdd(b: nat, m: nat, n: nat)
    ensures Pow(b, m + n) == Times(Pow(b, m), Pow(b, n))
  {
    PowDef(b, m); PowDef(b, m + n);
    if m == 0 {
      TimesOne(Pow(b, n));
    } else {
      PowAdd(b, m - 1, n);
      TimesAssoc(b, Pow(b, m - 1), Pow(b, n));
    }
  }

  lemma {:induction false} PowSum(b: nat, s: nat, m: nat, n: nat)
    requires s == m + n
    ensures Pow(b, s) == Times(Pow(b, m), Pow(b, n))
  {
    PowAdd(b, m, n);
  }

  /** Numbers less than n apart have different remainders. */
  lemma {:induction false} RemDiffers(x: nat, y: nat, n: nat)
    requires n > 0 && x < y < x + n
    ensures Rem(x, n) != Rem(y, n)
  {
    QuotRem(x, n);
    QuotRem(y, n);
    if Rem(x, n) == Rem(y, n) { SameRem(x, y, n, Quot(x, n), Quot(y, n)); }
  }

  lemma {:induction false} SameRem(x: nat, y: nat, n: nat, p: nat, q: nat)
    requires n > 0 && x < y && y - x == Times(q, n) - Times(p, n)
    ensures y - x >= n
  {
    TimesCancel(p, q, n);
    TimesSum(q, p, q - p, n);
    TimesMono(1, q - p, n);
    TimesOne(n);
  }

  /** Counting on modulo n. */
  lemma {:induction false} RemNext(x: nat, n: nat)
    requires n > 0
    ensures Rem(x + 1, n) == Rem(Rem(x, n) + 1, n)
  {
    QuotRem(x, n);
    var q, r := Quot(x, n), Rem(x, n);
    if r + 1 < n {
      QuotRemUnique(n, q, r + 1);
      RemSmall(r + 1, n);
    } else {
      TimesSum(q + 1, q, 1, n);
      TimesOne(n);
      QuotRemUnique(n, q + 1, 0);
      QuotRemUnique(n, 1, 0);
    }
  }
}
