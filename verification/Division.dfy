/** `__qdivrem`: Knuth's Program D (The Art of Computer Programming, volume 2,
    section 4.3.1) in base `Base(h)`, in place on three five-digit arrays. */
module Division {
  import opened Arith
  import opened Options
  import opened Words

  // ----- Shifting digit strings

  /** One digit of a string shifted left by `sh` bits: the low bits of `hi`
      moved up, or-ed with the top bits of `lo`. */
  function ShiftPair(h: nat, sh: nat, hi: nat, lo: nat): (r: nat)
    requires 0 < sh < h && hi < Base(h) && lo < Base(h)
    ensures r < Base(h)
  {
    PowPositive(2, h - sh);
    ShiftPairValue(h, sh, hi, lo);
    BitOr(LHalf(h, Mul(h, hi, Pow(2, sh))), Quot(lo, Pow(2, h - sh)))
  }

  lemma {:induction false} ShiftPairValue(h: nat, sh: nat, hi: nat, lo: nat)
    requires 0 < sh < h && hi < Base(h) && lo < Base(h)
    ensures Pow(2, h - sh) >= 1
    ensures var s, t := Pow(2, sh), Pow(2, h - sh);
            var r := BitOr(LHalf(h, Mul(h, hi, s)), Quot(lo, t));
            r < Base(h) && r == Times(Rem(hi, t), s) + Quot(lo, t)
  {
    var s, t := Pow(2, sh), Pow(2, h - sh);
    PowPositive(2, sh); PowPositive(2, h - sh);
    SplitBase(h, sh);
    ShiftedDigit(h, s, t, hi);
    QuotSmall(lo, t, s);
    BitOrDisjoint(Rem(hi, t), Quot(lo, t), sh);
    TimesMono(Rem(hi, t) + 1, t, s);
    TimesDist(Rem(hi, t), 1, s);
    TimesOne(s);
    TimesComm(s, t);
  }

  lemma {:induction false} SplitBase(h: nat, sh: nat)
    requires sh <= h
    ensures Base(h) == Times(Pow(2, sh), Pow(2, h - sh))
  {
    PowAdd(2, sh, h - sh);
  }

  /** x * s in base s * t: the top part of x carries out, the rest moves up. */
  lemma {:induction false} DigitTimes(s: nat, t: nat, x: nat)
    requires t >= 1
    ensures Times(x, s) == Times(Quot(x, t), Times(s, t)) + Times(Rem(x, t), s)
  {
    calc {
      Times(x, s);
      { QuotRem(x, t); }
      Times(Times(Quot(x, t), t) + Rem(x, t), s);
      { TimesDist(Times(Quot(x, t), t), Rem(x, t), s); }
      Times(Times(Quot(x, t), t), s) + Times(Rem(x, t), s);
      { TimesAssoc(Quot(x, t), t, s); TimesComm(t, s); }
      Times(Quot(x, t), Times(s, t)) + Times(Rem(x, t), s);
    }
  }

  lemma {:induction false} ShiftedDigit(h: nat, s: nat, t: nat, x: nat)
    requires s >= 1 && t >= 1 && Times(s, t) == Base(h) && x < Base(h)
    ensures LHalf(h, Mul(h, x, s)) == Times(Rem(x, t), s)
  {
    var B := Base(h);
    TimesMono(1, t, s); TimesOne(s);
    ProductFits(B, x, s);
    assert Mul(h, x, s) == Times(x, s);
    DigitTimes(s, t, x);
    TimesMono(Rem(x, t) + 1, t, s); TimesDist(Rem(x, t), 1, s); TimesComm(s, t);
    QuotRemUnique(B, Quot(x, t), Times(Rem(x, t), s));
  }

  lemma {:induction false} ProductFits(B: nat, x: nat, y: nat)
    requires x < B && y <= B
    ensures Times(x, y) < Times(B, B)
  {
    TimesMono(y, B, x);
    TwoDigitsFit(B, x, 0);
  }

  /** `s` shifted left by `sh` bits, without the bits that leave it on the left. */
  function Shifted(h: nat, sh: nat, s: seq<nat>): (r: seq<nat>)
    requires 0 < sh < h && IsDigits(Base(h), s)
    ensures |r| == |s| && IsDigits(Base(h), r)
  {
    seq(|s|, i requires 0 <= i < |s| => ShiftPair(h, sh, s[i], if i + 1 < |s| then s[i + 1] else 0))
  }

  /** Shifting multiplies: only the bits of the first digit that fall out are lost. */
  lemma {:induction false} ShiftedValue(h: nat, sh: nat, s: seq<nat>)
    requires 0 < sh < h && IsDigits(Base(h), s) && |s| > 0
    ensures Pow(2, h - sh) >= 1
    ensures Times(Val(Base(h), s), Pow(2, sh))
         == Times(Quot(s[0], Pow(2, h - sh)), Pow(Base(h), |s|)) + Val(Base(h), Shifted(h, sh, s))
  {
    PowPositive(2, h - sh);
    var s0 := s + [0];
    ShiftedPrefix(h, sh, s0, |s|);
    RemSmall(0, Pow(2, h - sh));
    assert s0[..|s|] == s;
    assert Shifted(h, sh, s0)[..|s|] == Shifted(h, sh, s);
  }

  lemma {:induction false} ShiftedPrefix(h: nat, sh: nat, s: seq<nat>, k: nat)
    requires 0 < sh < h && IsDigits(Base(h), s) && k < |s|
    ensures Pow(2, h - sh) >= 1
    ensures Times(Val(Base(h), s[..k]), Pow(2, sh)) + Quot(s[k], Pow(2, h - sh))
         == Times(Quot(s[0], Pow(2, h - sh)), Pow(Base(h), k)) + Val(Base(h), Shifted(h, sh, s)[..k])
  {
    PowPositive(2, h - sh);
    var B, e, t, r := Base(h), Pow(2, sh), Pow(2, h - sh), Shifted(h, sh, s);
    PowDef(B, k);
    if k == 0 {
      ValDef(B, s[..0]); ValDef(B, r[..0]);
      TimesOne(e);
      TimesOne(Quot(s[0], t));
    } else {
      var x, y := s[k - 1], s[k];
      ShiftedPrefix(h, sh, s, k - 1);
      SplitBase(h, sh);
      LastDigit(B, s, k);
      LastDigit(B, r, k);
      assert r[k - 1] == ShiftPair(h, sh, x, y);
      ShiftPairValue(h, sh, x, y);
      PrefixStep(e, t, Val(B, s[..k - 1]), Val(B, r[..k - 1]), x, y, Quot(s[0], t), Pow(B, k - 1));
    }
  }

  lemma {:induction false} PrefixStep(e: nat, t: nat, o: nat, n: nat, x: nat, y: nat, z: nat, p: nat)
    requires t >= 1
    requires Times(o, e) + Quot(x, t) == Times(z, p) + n
    ensures Times(Times(o, Times(e, t)) + x, e) + Quot(y, t)
         == Times(z, Times(Times(e, t), p)) + (Times(n, Times(e, t)) + (Times(Rem(x, t), e) + Quot(y, t)))
  {
    var B := Times(e, t);
    calc {
      Times(Times(o, B) + x, e);
      { TimesDist(Times(o, B), x, e); }
      Times(Times(o, B), e) + Times(x, e);
      { TimesComm(Times(o, B), e); TimesSwap(e, o, B); TimesAssoc(o, e, B); }
      Times(Times(o, e), B) + Times(x, e);
      { DigitTimes(e, t, x); }
      Times(Times(o, e), B) + Times(Quot(x, t), B) + Times(Rem(x, t), e);
      { TimesDist(Times(o, e), Quot(x, t), B); }
      Times(Times(z, p) + n, B) + Times(Rem(x, t), e);
      { TimesDist(Times(z, p), n, B); TimesAssoc(z, p, B); TimesComm(p, B); }
      Times(z, Times(B, p)) + Times(n, B) + Times(Rem(x, t), e);
    }
  }

  /** `shl`: shift p[at..at+len] left in place. */
  method Shl(h: nat, p: array<nat>, at: nat, len: nat, sh: nat)
    requires 0 < sh < h && at + len < p.Length
    requires IsDigits(Base(h), p[at..at + len + 1])
    modifies p
    ensures p[at..at + len + 1] == Shifted(h, sh, old(p[at..at + len + 1]))
    ensures p[..at] == old(p[..at]) && p[at + len + 1..] == old(p[at + len + 1..])
  {
    ghost var o := p[..];
    ghost var s := p[at..at + len + 1];
    ghost var t := Shifted(h, sh, s);
    assert forall k :: at <= k <= at + len ==> o[k] == s[k - at];
    var i := 0;
    while i < len
      invariant 0 <= i <= len
      invariant forall k :: 0 <= k < at ==> p[k] == o[k]
      invariant forall k :: at <= k < at + i ==> p[k] == t[k - at]
      invariant forall k :: at + i <= k < p.Length ==> p[k] == o[k]
    {
      p[at + i] := ShiftPair(h, sh, p[at + i], p[at + i + 1]);
      i := i + 1;
    }
    p[at + i] := ShiftPair(h, sh, p[at + i], 0);
  }

  // ----- D1: the normalising shift

  /** Doubling `v1` until it reaches half the base. */
  method NormaliseShift(h: nat, v1: nat) returns (d: nat)
    requires h >= 1 && 0 < v1 < Base(h)
    ensures d < h && Base(h) <= 2 * Times(v1, Pow(2, d)) && Times(v1, Pow(2, d)) < Base(h)
  {
    d := 0;
    var t := v1;
    TimesOne(v1);
    PowDef(2, h); PowDef(2, 0);
    Double(Pow(2, h - 1));
    while t < Base(h) / 2
      invariant t == Times(v1, Pow(2, d)) && 0 < t < Base(h)
      decreases Base(h) - t
    {
      PowDef(2, d + 1);
      TimesSwap(v1, 2, Pow(2, d));
      Double(t);
      AddColumn(h, t + t);
      t := Add(h, t, t);
      d := d + 1;
    }
    ShiftBound(h, v1, d);
  }

  lemma {:induction false} ShiftBound(h: nat, v1: nat, d: nat)
    requires v1 >= 1 && Times(v1, Pow(2, d)) < Base(h)
    ensures d < h
  {
    TimesMono(1, v1, Pow(2, d)); TimesOne(Pow(2, d));
    if d >= h {
      PowAdd(2, h, d - h);
      PowPositive(2, d - h);
      TimesMono(1, Pow(2, d - h), Pow(2, h)); TimesOne(Pow(2, h));
    }
  }

  // ----- D3: the trial digit

  /** The two leading digits of the divisor, the three leading digits of the window. */
  function Two(B: nat, x: nat, y: nat): nat { Times(x, B) + y }
  function Three(B: nat, x: nat, y: nat, z: nat): nat { Times(Two(B, x, y), B) + z }

  /** The D3 loop computes min(B-1, (w0 w1 w2) / (v1 v2)): the largest digit whose
      product with the two leading digits of the divisor still fits. It decrements
      at most twice, because the divisor is normalised, and no product or
      sum in it leaves an `unsigned int`. */
  method TrialDigit(h: nat, w0: nat, w1: nat, w2: nat, v1: nat, v2: nat) returns (qhat: nat, ghost decrements: nat)
    requires h >= 1 && w0 < Base(h) && w1 < Base(h) && w2 < Base(h) && v1 < Base(h) && v2 < Base(h)
    requires Base(h) <= 2 * v1 && w0 <= v1
    ensures qhat < Base(h)
    ensures Times(qhat, Two(Base(h), v1, v2)) <= Three(Base(h), w0, w1, w2)
    ensures qhat == Base(h) - 1 || Three(Base(h), w0, w1, w2) < Times(qhat + 1, Two(Base(h), v1, v2))
    ensures decrements <= 2
  {
    var B := Base(h);
    var rhat: nat;
    if w0 == v1 {
      // qhat = B is always too big
      TimesDist(B - 1, 1, v1); TimesOne(v1); TimesComm(v1, B);
      qhat, rhat, decrements := B - 1, w1 + v1, 1;
    } else {
      var nn := Combine(h, w0, w1);
      QuotRem(nn, v1);
      qhat, rhat, decrements := Quot(nn, v1), Rem(nn, v1), 0;
      FirstEstimate(B, w0, w1, w2, v1, v2, qhat, rhat);
    }
    while rhat < B && Mul(h, v2, qhat) > Combine(h, rhat, w2)
      invariant qhat < B && Times(qhat, v1) + rhat == Two(B, w0, w1)
      invariant qhat == B - 1 || Three(B, w0, w1, w2) < Times(qhat + 1, Two(B, v1, v2))
      invariant decrements == 0 || (decrements == 1 && rhat >= v1) || (decrements == 2 && rhat >= B)
      decreases qhat
    {
      ProductFits(B, v2, qhat);
      TooBig(B, w0, w1, w2, v1, v2, qhat, rhat);
      qhat, rhat, decrements := qhat - 1, rhat + v1, decrements + 1;
    }
    ProductFits(B, v2, qhat);
    EstimateGap(B, w0, w1, w2, v1, v2, qhat, rhat);
    if rhat >= B { TimesMono(B, rhat, B); }
  }

  /** The three-digit estimate differs from the two-digit one by rhat*B + w2 - qhat*v2. */
  lemma {:induction false} EstimateGap(B: nat, w0: nat, w1: nat, w2: nat, v1: nat, v2: nat, qhat: nat, rhat: nat)
    requires Times(qhat, v1) + rhat == Two(B, w0, w1)
    ensures Three(B, w0, w1, w2) + Times(v2, qhat) == Times(qhat, Two(B, v1, v2)) + Times(rhat, B) + w2
  {
    calc {
      Times(qhat, Two(B, v1, v2));
      { TimesDist(Times(v1, B), v2, qhat); }
      Times(qhat, Times(v1, B)) + Times(qhat, v2);
      { TimesAssoc(qhat, v1, B); TimesComm(qhat, v2); }
      Times(Times(qhat, v1), B) + Times(v2, qhat);
    }
    TimesDist(Times(qhat, v1), rhat, B);
  }

  /** While the test succeeds, qhat is too big. */
  lemma {:induction false} TooBig(B: nat, w0: nat, w1: nat, w2: nat, v1: nat, v2: nat, qhat: nat, rhat: nat)
    requires Times(qhat, v1) + rhat == Two(B, w0, w1) && Times(v2, qhat) > Times(rhat, B) + w2
    ensures qhat > 0 && Times(qhat - 1, v1) + rhat + v1 == Two(B, w0, w1)
    ensures Three(B, w0, w1, w2) < Times(qhat, Two(B, v1, v2))
  {
    EstimateGap(B, w0, w1, w2, v1, v2, qhat, rhat);
    TimesOne(v2);
    TimesSum(qhat, qhat - 1, 1, v1); TimesOne(v1);
  }

  lemma {:induction false} FirstEstimate(B: nat, w0: nat, w1: nat, w2: nat, v1: nat, v2: nat, qhat: nat, rhat: nat)
    requires Times(qhat, v1) + rhat == Two(B, w0, w1) && rhat < v1 && w0 < v1 && w1 < B && w2 < B
    ensures qhat < B
    ensures Three(B, w0, w1, w2) < Times(qhat + 1, Two(B, v1, v2))
  {
    TimesMono(w0 + 1, v1, B); TimesDist(w0, 1, B); TimesOne(B);
    if qhat >= B { TimesMono(B, qhat, v1); TimesComm(v1, B); }
    EstimateGap(B, w0, w1, w2, v1, v2, qhat, rhat);
    TimesDist(qhat, 1, Two(B, v1, v2)); TimesOne(Two(B, v1, v2));
    TimesMono(rhat + 1, v1, B); TimesDist(rhat, 1, B);
  }

  /** Knuth's bound: the trial digit is the true digit w / v or one more. */
  lemma {:induction false} TrialDigitBound(B: nat, w: seq<nat>, v: seq<nat>, qhat: nat)
    requires |v| >= 2 && |w| == |v| + 1 && IsDigits(B, w) && IsDigits(B, v)
    requires v[0] >= 1 && Val(B, w) < Times(B, Val(B, v))
    requires qhat < B
    requires Times(qhat, Two(B, v[0], v[1])) <= Three(B, w[0], w[1], w[2])
    requires qhat == B - 1 || Three(B, w[0], w[1], w[2]) < Times(qhat + 1, Two(B, v[0], v[1]))
    ensures Val(B, w) < Times(qhat + 1, Val(B, v))
    ensures Times(qhat, Val(B, v)) <= Val(B, w) + Val(B, v)
  {
    var w3, v2, P := Three(B, w[0], w[1], w[2]), Two(B, v[0], v[1]), Pow(B, |v| - 2);
    LeadingDigits(B, w, v);
    ValBound(B, w[3..]); ValBound(B, v[2..]);
    TimesMono(1, v[0], B); TimesOne(B);
    if qhat < B - 1 { TrialTooSmall(w3, v2, Val(B, w[3..]), Val(B, v[2..]), P, qhat); }
    TrialTooLarge(B, w3, v2, Val(B, w[3..]), Val(B, v[2..]), P, qhat);
  }

  lemma {:induction false} TrialTooSmall(w3: nat, v2: nat, wr: nat, vr: nat, P: nat, qhat: nat)
    requires w3 < Times(qhat + 1, v2) && wr < P
    ensures Times(w3, P) + wr < Times(qhat + 1, Times(v2, P) + vr)
  {
    calc {
      Times(w3, P) + wr;
    <
      Times(w3, P) + P;
      { TimesDist(w3, 1, P); TimesOne(P); }
      Times(w3 + 1, P);
    <= { TimesMono(w3 + 1, Times(qhat + 1, v2), P); }
      Times(Times(qhat + 1, v2), P);
      { TimesAssoc(qhat + 1, v2, P); }
      Times(qhat + 1, Times(v2, P));
    <= { TimesMono(Times(v2, P), Times(v2, P) + vr, qhat + 1); }
      Times(qhat + 1, Times(v2, P) + vr);
    }
  }

  lemma {:induction false} TrialTooLarge(B: nat, w3: nat, v2: nat, wr: nat, vr: nat, P: nat, qhat: nat)
    requires Times(qhat, v2) <= w3 && vr < P && qhat < B <= v2
    ensures Times(qhat, Times(v2, P) + vr) <= Times(w3, P) + wr + (Times(v2, P) + vr)
  {
    calc {
      Times(qhat, Times(v2, P) + vr);
      { TimesDist(Times(v2, P), vr, qhat); }
      Times(qhat, Times(v2, P)) + Times(qhat, vr);
    <= { TimesMono(qhat, v2, vr); TimesMono(vr, P, v2); }
      Times(qhat, Times(v2, P)) + Times(v2, P);
      { TimesAssoc(qhat, v2, P); }
      Times(Times(qhat, v2), P) + Times(v2, P);
    <= { TimesMono(Times(qhat, v2), w3, P); }
      Times(w3, P) + Times(v2, P);
    }
  }

  lemma {:induction false} LeadingDigits(B: nat, w: seq<nat>, v: seq<nat>)
    requires |v| >= 2 && |w| == |v| + 1
    ensures Val(B, v) == Times(Two(B, v[0], v[1]), Pow(B, |v| - 2)) + Val(B, v[2..])
    ensures Val(B, w) == Times(Three(B, w[0], w[1], w[2]), Pow(B, |v| - 2)) + Val(B, w[3..])
  {
    assert v == [v[0], v[1]] + v[2..];
    ValConcat(B, [v[0], v[1]], v[2..]);
    ShortVals(B, v[0], v[1], 0);
    assert w == [w[0], w[1], w[2]] + w[3..];
    ValConcat(B, [w[0], w[1], w[2]], w[3..]);
    ShortVals(B, w[0], w[1], w[2]);
  }

  lemma {:induction false} ShortVals(B: nat, x: nat, y: nat, z: nat)
    ensures Val(B, [x, y]) == Two(B, x, y)
    ensures Val(B, [x, y, z]) == Three(B, x, y, z)
  {
    assert [x, y, z][..2] == [x, y];
    assert [x, y][..1] == [x] && [x][..0] == [];
    ValDef(B, [x, y, z]); ValDef(B, [x, y]); ValDef(B, [x]); ValDef(B, []);
    TimesOne(B);
  }

  // ----- D4 and D6: subtracting a multiple of the divisor, and adding it back

  /** One column of D4, as computed in `unsigned int`: x - y * qhat - t. */
  function Column(h: nat, x: nat, y: nat, qhat: nat, t: nat): (r: nat)
    requires x < Base(h) && t < Base(h)
    ensures r < WordSize(h)
  {
    Sub(h, Sub(h, x, Mul(h, y, qhat)), t)
  }

  /** The borrow a column passes on: (B - HHALF(t)) & (B - 1). */
  function Borrow(h: nat, r: nat): nat
    requires r < WordSize(h)
  {
    HalvesOfWord(h, r);
    BitAnd(Base(h) - HHalf(h, r), Base(h) - 1)
  }

  /** The digit kept and the borrow passed on account for the column; the borrow is a digit. */
  lemma {:induction false} SubtractColumn(h: nat, x: nat, y: nat, qhat: nat, t: nat)
    requires h >= 1 && x < Base(h) && y < Base(h) && qhat < Base(h) && t < Base(h)
    ensures var r := Column(h, x, y, qhat, t);
            Borrow(h, r) < Base(h) &&
            LHalf(h, r) + Times(y, qhat) + t == x + Times(Borrow(h, r), Base(h))
  {
    var B, m, r := Base(h), Times(y, qhat), Column(h, x, y, qhat, t);
    var g := HHalf(h, r);
    ColumnRange(B, y, qhat, t);
    HalvesOfWord(h, r);
    BitAndMask(B - g, h);
    if x >= m + t {
      RemSmall(r, B);
      QuotRemUnique(B, 1, 0);
      TimesOne(B);
    } else {
      assert r == x + WordSize(h) - m - t;
      if g == 0 { TimesOne(B); }
      TimesSum(B, B - g, g, B);
      RemSmall(B - g, B);
    }
  }

  /** A column subtracts at most B * (B - 1), so it borrows at most B - 1. */
  lemma {:induction false} ColumnRange(B: nat, y: nat, qhat: nat, t: nat)
    requires y < B && qhat < B && t < B
    ensures Times(y, qhat) + t + B <= Times(B, B)
  {
    TimesMono(y, B - 1, qhat); TimesMono(qhat, B - 1, B - 1);
    TimesSum(B, B - 1, 1, B - 1); TimesOne(B - 1);
    TimesSum(B, B - 1, 1, B); TimesOne(B);
  }

  /** The D4 columns from the right end down to column i: the digits left in the window
      and the borrow. */
  function Subtracted(h: nat, us: seq<nat>, vs: seq<nat>, qhat: nat, i: nat): (r: (seq<nat>, nat))
    requires h >= 1 && |us| == |vs| && IsDigits(Base(h), us) && IsDigits(Base(h), vs) && qhat < Base(h)
    requires i <= |us|
    ensures |r.0| == |us| - i && IsDigits(Base(h), r.0) && r.1 < Base(h)
    decreases |us| - i
  {
    if i == |us| then ([], 0)
    else
      var (ds, t) := Subtracted(h, us, vs, qhat, i + 1);
      var r := Column(h, us[i], vs[i], qhat, t);
      SubtractColumn(h, us[i], vs[i], qhat, t);
      ([LHalf(h, r)] + ds, Borrow(h, r))
  }

  lemma {:induction false} SubtractedValue(h: nat, us: seq<nat>, vs: seq<nat>, qhat: nat, i: nat)
    requires h >= 1 && |us| == |vs| && IsDigits(Base(h), us) && IsDigits(Base(h), vs) && qhat < Base(h)
    requires i <= |us|
    ensures Val(Base(h), Subtracted(h, us, vs, qhat, i).0) + Times(qhat, Val(Base(h), vs[i..]))
         == Val(Base(h), us[i..]) + Times(Subtracted(h, us, vs, qhat, i).1, Pow(Base(h), |us| - i))
    decreases |us| - i
  {
    if i == |us| {
      ValDef(Base(h), []); PowDef(Base(h), 0);
      TimesOne(qhat); TimesOne(1);
      assert us[i..] == [] && vs[i..] == [];
    } else {
      var (ds, t) := Subtracted(h, us, vs, qhat, i + 1);
      SubtractedValue(h, us, vs, qhat, i + 1);
      SubtractColumn(h, us[i], vs[i], qhat, t);
      var r := Column(h, us[i], vs[i], qhat, t);
      SubtractStep(Base(h), LHalf(h, r), ds, vs[i], vs[i + 1..], us[i], us[i + 1..], qhat, t, Borrow(h, r));
      assert us[i..] == [us[i]] + us[i + 1..] && vs[i..] == [vs[i]] + vs[i + 1..];
    }
  }

  method SubtractColumns(h: nat, u: array<nat>, at: nat, v: array<nat>, vat: nat, n: nat, qhat: nat) returns (t: nat)
    requires h >= 1 && u != v && at + n < u.Length && vat + n < v.Length && qhat < Base(h)
    requires IsDigits(Base(h), u[at + 1..at + n + 1]) && IsDigits(Base(h), v[vat + 1..vat + n + 1])
    modifies u
    ensures u[..] == old(u[..at + 1]) + Subtracted(h, old(u[at + 1..at + n + 1]), v[vat + 1..vat + n + 1], qhat, 0).0
                     + old(u[at + n + 1..])
    ensures t == Subtracted(h, old(u[at + 1..at + n + 1]), v[vat + 1..vat + n + 1], qhat, 0).1
  {
    ghost var o, os, vs := u[..], u[at + 1..at + n + 1], v[vat + 1..vat + n + 1];
    ghost var ds: seq<nat>, post := [], u[at + n + 1..];
    assert o == o[..at + n + 1] + [] + post;
    var i := n;
    t := 0;
    while i > 0
      invariant 0 <= i <= n
      invariant u[..] == o[..at + i + 1] + ds + post
      invariant (ds, t) == Subtracted(h, os, vs, qhat, i)
    {
      var x, y := u[at + i], v[vat + i];
      ColumnDone(u[..], o, at + i, ds, post, LHalf(h, Column(h, x, y, qhat, t)));
      assert x == u[..][at + i] == os[i - 1] && y == vs[i - 1];
      t := Column(h, x, y, qhat, t);
      ghost var before := u[..];
      u[at + i] := LHalf(h, t);
      assert u[..] == before[at + i := LHalf(h, t)];
      ds := [LHalf(h, t)] + ds;
      t := Borrow(h, t);
      i := i - 1;
    }
  }

  /** Digit k is still as it was, and overwriting it moves the line between old and new. */
  lemma {:induction false} ColumnDone(u: seq<nat>, o: seq<nat>, k: nat, ds: seq<nat>, post: seq<nat>, d: nat)
    requires k < |o| && u == o[..k + 1] + ds + post
    ensures u[k] == o[k] && u[k := d] == o[..k] + ([d] + ds) + post
  {
    OverwriteLast(o[..k + 1], d, ds, post);
    assert o[..k + 1][..k] == o[..k];
  }

  lemma WindowParts(u: seq<nat>, A: seq<nat>, us: seq<nat>, C: seq<nat>)
    requires u == A + us + C && |A| > 0
    ensures u[|A| - 1] == A[|A| - 1] && u[..|A| - 1] == A[..|A| - 1]
    ensures u[|A|..|A| + |us|] == us && u[|A| + |us|..] == C
  {}

  lemma Overwritten(u: seq<nat>, u': seq<nat>, at: nat, d: nat, us: seq<nat>, n: nat)
    requires at + n < |u| && u' == u[at := d] && u[at + 1..at + n + 1] == us
    ensures u'[at..at + n + 1] == [d] + us && u'[..at] == u[..at] && u'[at + n + 1..] == u[at + n + 1..]
  {}

  lemma {:induction false} OverwriteLast(a: seq<nat>, x: nat, b: seq<nat>, c: seq<nat>)
    requires |a| > 0
    ensures (a + b + c)[|a| - 1 := x] == a[..|a| - 1] + ([x] + b) + c
  {}

  /** D4: subtract qhat times the divisor from the window u[at..at+n]. The borrow out
      is exactly the sign of the difference. */
  method MultiplySubtract(h: nat, u: array<nat>, at: nat, v: array<nat>, vat: nat, n: nat, qhat: nat)
    returns (borrow: bool)
    requires h >= 1 && u != v && at + n < u.Length && vat + n < v.Length && qhat < Base(h)
    requires IsDigits(Base(h), u[at..at + n + 1]) && IsDigits(Base(h), v[vat + 1..vat + n + 1])
    modifies u
    ensures IsDigits(Base(h), u[at..at + n + 1])
    ensures Val(Base(h), u[at..at + n + 1]) + Times(qhat, Val(Base(h), v[vat + 1..vat + n + 1]))
         == old(Val(Base(h), u[at..at + n + 1])) + if borrow then Pow(Base(h), n + 1) else 0
    ensures u[..at] == old(u[..at]) && u[at + n + 1..] == old(u[at + n + 1..])
  {
    var B := Base(h);
    ghost var os, vs := u[at..at + n + 1], v[vat + 1..vat + n + 1];
    assert os[1..] == u[at + 1..at + n + 1];
    SubtractedValue(h, os[1..], vs, qhat, 0);
    assert os[1..][0..] == os[1..] && vs[0..] == vs;
    ghost var us := Subtracted(h, os[1..], vs, qhat, 0).0;
    var t := SubtractColumns(h, u, at, v, vat, n, qhat);
    ghost var t0 := t;
    Window(old(u[..]), u[..], at, n, us, LHalf(h, Sub(h, u[at], t)));
    ghost var before := u[..];
    TopColumn(h, u[at], t);
    t := Sub(h, u[at], t);
    u[at] := LHalf(h, t);
    borrow := HHalf(h, t) != 0;
    assert u[..] == before[at := u[at]];
    assert u[at..at + n + 1] == u[..][at..at + n + 1] && os == [os[0]] + os[1..];
    assert u[..at] == u[..][..at] && u[at + n + 1..] == u[..][at + n + 1..];
    WindowStep(B, u[at], us, t0, os[0], os[1..], borrow);
  }

  /** The last column has no divisor digit; its high half is the borrow out. */
  lemma {:induction false} TopColumn(h: nat, x: nat, t: nat)
    requires h >= 1 && x < Base(h) && t < Base(h)
    ensures var r := Sub(h, x, t);
            LHalf(h, r) + t == x + if HHalf(h, r) != 0 then Base(h) else 0
  {
    var B, r := Base(h), Sub(h, x, t);
    TimesDist(B - 1, 1, B); TimesOne(B);
    if x < t { QuotRemUnique(B, B - 1, x + B - t); } else { RemSmall(x - t, B); }
  }

  lemma {:induction false} WindowStep(B: nat, d: nat, us: seq<nat>, t: nat, x: nat, os: seq<nat>, borrow: bool)
    requires |us| == |os|
    requires d + t == x + if borrow then B else 0
    ensures Val(B, [d] + us) + Times(t, Pow(B, |us|)) + Val(B, os)
         == Val(B, [x] + os) + Val(B, us) + if borrow then Pow(B, |us| + 1) else 0
  {
    PowDef(B, |us| + 1);
    ValPrepend(B, d, us);
    ValPrepend(B, x, os);
    TopStep(B, d, t, x, borrow, Pow(B, |us|));
  }

  lemma {:induction false} TopStep(B: nat, d: nat, t: nat, x: nat, borrow: bool, p: nat)
    requires d + t == x + if borrow then B else 0
    ensures Times(d, p) + Times(t, p) == Times(x, p) + if borrow then Times(B, p) else 0
  {
    var s := d + t;
    TimesSum(s, d, t, p);
    if borrow { TimesSum(s, x, B, p); }
  }

  lemma {:induction false} SubtractStep(B: nat, d: nat, us: seq<nat>, y: nat, vs: seq<nat>, x: nat, os: seq<nat>,
                                        qhat: nat, t: nat, t': nat)
    requires |us| == |vs| == |os|
    requires d + Times(y, qhat) + t == x + Times(t', B)
    requires Val(B, us) + Times(qhat, Val(B, vs)) == Val(B, os) + Times(t, Pow(B, |us|))
    ensures Val(B, [d] + us) + Times(qhat, Val(B, [y] + vs)) == Val(B, [x] + os) + Times(t', Pow(B, |us| + 1))
  {
    var p := Pow(B, |us|);
    PowDef(B, |us| + 1);
    ValPrepend(B, d, us); ValPrepend(B, y, vs); ValPrepend(B, x, os);
    TimesDist(Times(y, p), Val(B, vs), qhat);
    TimesSwap(qhat, y, p); TimesAssoc(y, qhat, p);
    TimesDist(d + Times(y, qhat), t, p); TimesDist(d, Times(y, qhat), p);
    TimesSum(d + Times(y, qhat) + t, x, Times(t', B), p); TimesAssoc(t', B, p);
  }

  /** The D6 columns from the right end down to column i: the digits and the carry. */
  function Added(h: nat, us: seq<nat>, vs: seq<nat>, i: nat): (r: (seq<nat>, nat))
    requires h >= 1 && |us| == |vs| && IsDigits(Base(h), us) && IsDigits(Base(h), vs)
    requires i <= |us|
    ensures |r.0| == |us| - i && IsDigits(Base(h), r.0) && r.1 <= 1
    decreases |us| - i
  {
    if i == |us| then ([], 0)
    else
      var (ds, t) := Added(h, us, vs, i + 1);
      AddColumn(h, t + us[i] + vs[i]);
      var r := Add(h, t, us[i] + vs[i]);
      ([LHalf(h, r)] + ds, HHalf(h, r))
  }

  lemma {:induction false} AddedValue(h: nat, us: seq<nat>, vs: seq<nat>, i: nat)
    requires h >= 1 && |us| == |vs| && IsDigits(Base(h), us) && IsDigits(Base(h), vs)
    requires i <= |us|
    ensures Val(Base(h), Added(h, us, vs, i).0) + Times(Added(h, us, vs, i).1, Pow(Base(h), |us| - i))
         == Val(Base(h), us[i..]) + Val(Base(h), vs[i..])
    decreases |us| - i
  {
    if i == |us| {
      ValDef(Base(h), []); PowDef(Base(h), 0);
      TimesOne(1);
      assert us[i..] == [] && vs[i..] == [];
    } else {
      var (ds, t) := Added(h, us, vs, i + 1);
      AddedValue(h, us, vs, i + 1);
      AddColumn(h, t + us[i] + vs[i]);
      var r := Add(h, t, us[i] + vs[i]);
      AddStep(Base(h), LHalf(h, r), ds, vs[i], vs[i + 1..], us[i], us[i + 1..], t, HHalf(h, r));
      assert us[i..] == [us[i]] + us[i + 1..] && vs[i..] == [vs[i]] + vs[i + 1..];
    }
  }

  method AddColumns(h: nat, u: array<nat>, at: nat, v: array<nat>, vat: nat, n: nat) returns (t: nat)
    requires h >= 1 && u != v && at + n < u.Length && vat + n < v.Length
    requires IsDigits(Base(h), u[at + 1..at + n + 1]) && IsDigits(Base(h), v[vat + 1..vat + n + 1])
    modifies u
    ensures u[..] == old(u[..at + 1]) + Added(h, old(u[at + 1..at + n + 1]), v[vat + 1..vat + n + 1], 0).0
                     + old(u[at + n + 1..])
    ensures t == Added(h, old(u[at + 1..at + n + 1]), v[vat + 1..vat + n + 1], 0).1
  {
    ghost var o, os, vs := u[..], u[at + 1..at + n + 1], v[vat + 1..vat + n + 1];
    ghost var ds: seq<nat>, post := [], u[at + n + 1..];
    assert o == o[..at + n + 1] + [] + post;
    var i := n;
    t := 0;
    while i > 0
      invariant 0 <= i <= n
      invariant u[..] == o[..at + i + 1] + ds + post
      invariant (ds, t) == Added(h, os, vs, i)
    {
      var x, y := u[at + i], v[vat + i];
      ColumnDone(u[..], o, at + i, ds, post, LHalf(h, Add(h, t, x + y)));
      assert x == u[..][at + i] == os[i - 1] && y == vs[i - 1];
      t := Add(h, t, x + y);
      ghost var before := u[..];
      u[at + i] := LHalf(h, t);
      assert u[..] == before[at + i := LHalf(h, t)];
      ds := [LHalf(h, t)] + ds;
      t := HHalf(h, t);
      i := i - 1;
    }
  }

  /** D6: add the divisor back into the window, dropping the carry out. */
  method AddBack(h: nat, u: array<nat>, at: nat, v: array<nat>, vat: nat, n: nat) returns (ghost carry: nat)
    requires h >= 1 && u != v && at + n < u.Length && vat + n < v.Length
    requires IsDigits(Base(h), u[at..at + n + 1]) && IsDigits(Base(h), v[vat + 1..vat + n + 1])
    modifies u
    ensures IsDigits(Base(h), u[at..at + n + 1])
    ensures Val(Base(h), u[at..at + n + 1]) + Times(carry, Pow(Base(h), n + 1))
         == old(Val(Base(h), u[at..at + n + 1])) + Val(Base(h), v[vat + 1..vat + n + 1])
    ensures u[..at] == old(u[..at]) && u[at + n + 1..] == old(u[at + n + 1..])
  {
    var B := Base(h);
    ghost var os, vs := u[at..at + n + 1], v[vat + 1..vat + n + 1];
    assert os[1..] == u[at + 1..at + n + 1];
    AddedValue(h, os[1..], vs, 0);
    assert os[1..][0..] == os[1..] && vs[0..] == vs;
    ghost var us := Added(h, os[1..], vs, 0).0;
    var t := AddColumns(h, u, at, v, vat, n);
    Window(old(u[..]), u[..], at, n, us, LHalf(h, Add(h, u[at], t)));
    AddColumn(h, u[at] + t);
    carry := HHalf(h, u[at] + t);
    ghost var before := u[..];
    u[at] := LHalf(h, Add(h, u[at], t));
    assert u[..] == before[at := u[at]];
    assert u[at..at + n + 1] == u[..][at..at + n + 1] && os == [os[0]] + os[1..];
    assert u[..at] == u[..][..at] && u[at + n + 1..] == u[..][at + n + 1..];
    CarryStep(B, u[at], us, t, os[0], os[1..], carry);
  }

  /** All but the first digit of a window of o have been replaced, and then the first is. */
  lemma Window(o: seq<nat>, u: seq<nat>, at: nat, n: nat, us: seq<nat>, d: nat)
    requires at + n < |o| && |us| == n && u == o[..at + 1] + us + o[at + n + 1..]
    ensures u[at] == o[at]
    ensures var u' := u[at := d];
            && u'[at..at + n + 1] == [d] + us
            && u'[..at] == o[..at] && u'[at + n + 1..] == o[at + n + 1..]
  {
    WindowParts(u, o[..at + 1], us, o[at + n + 1..]);
    Overwritten(u, u[at := d], at, d, us, n);
  }

  lemma {:induction false} CarryStep(B: nat, d: nat, us: seq<nat>, t: nat, x: nat, os: seq<nat>, carry: nat)
    requires |us| == |os|
    requires d + Times(carry, B) == x + t
    ensures Val(B, [d] + us) + Times(carry, Pow(B, |us| + 1)) + Val(B, os)
         == Val(B, [x] + os) + Val(B, us) + Times(t, Pow(B, |us|))
  {
    PowDef(B, |us| + 1);
    ValPrepend(B, d, us);
    ValPrepend(B, x, os);
    AddScaled(B, d, x, t, carry, Pow(B, |us|));
  }

  lemma {:induction false} AddColumn(h: nat, s: nat)
    requires h >= 1 && s < 2 * Base(h)
    ensures s < WordSize(h) && HHalf(h, s) <= 1
    ensures LHalf(h, s) + Times(HHalf(h, s), Base(h)) == s
  {
    TimesMono(2, Base(h), Base(h)); Double(Base(h));
    QuotRem(s, Base(h));
    QuotSmall(s, Base(h), 2);
  }

  lemma {:induction false} AddStep(B: nat, d: nat, us: seq<nat>, y: nat, vs: seq<nat>, x: nat, os: seq<nat>, t: nat,
                                   t': nat)
    requires |us| == |vs| == |os|
    requires d + Times(t', B) == x + y + t
    requires Val(B, us) + Times(t, Pow(B, |us|)) == Val(B, os) + Val(B, vs)
    ensures Val(B, [d] + us) + Times(t', Pow(B, |us| + 1)) == Val(B, [x] + os) + Val(B, [y] + vs)
  {
    PowDef(B, |us| + 1);
    ValPrepend(B, d, us); ValPrepend(B, y, vs); ValPrepend(B, x, os);
    AddScaled(B, d, x, y + t, t', Pow(B, |us|));
    TimesDist(y, t, Pow(B, |us|));
  }

  lemma {:induction false} AddScaled(B: nat, d: nat, x: nat, y: nat, t': nat, p: nat)
    requires d + Times(t', B) == x + y
    ensures Times(d, p) + Times(t', Times(B, p)) == Times(x, p) + Times(y, p)
  {
    TimesAssoc(t', B, p);
    TimesDist(d, Times(t', B), p);
    TimesSum(d + Times(t', B), x, y, p);
  }

  // ----- Steps D3 to D6 on one window

  /** D3 on the window u[at..at+n]: the true quotient digit or one more. */
  method TrialFor(h: nat, u: array<nat>, at: nat, v: array<nat>, vat: nat, n: nat) returns (qhat: nat)
    requires h >= 1 && n >= 2 && at + n < u.Length && vat + n < v.Length
    requires IsDigits(Base(h), u[at..at + n + 1]) && IsDigits(Base(h), v[vat + 1..vat + n + 1])
    requires Base(h) <= 2 * v[vat + 1]
    requires Val(Base(h), u[at..at + n]) < Val(Base(h), v[vat + 1..vat + n + 1])
    ensures qhat < Base(h)
    ensures Val(Base(h), u[at..at + n + 1])
          < Times(qhat, Val(Base(h), v[vat + 1..vat + n + 1])) + Val(Base(h), v[vat + 1..vat + n + 1])
    ensures Times(qhat, Val(Base(h), v[vat + 1..vat + n + 1]))
         <= Val(Base(h), u[at..at + n + 1]) + Val(Base(h), v[vat + 1..vat + n + 1])
  {
    ghost var B, w, vs := Base(h), u[at..at + n + 1], v[vat + 1..vat + n + 1];
    assert u[at..at + n] == w[..n];
    WindowBound(B, w, vs);
    assert v[vat + 1] == vs[0] && v[vat + 2] == vs[1];
    assert u[at] == w[0] && u[at + 1] == w[1] && u[at + 2] == w[2];
    ghost var dec;
    qhat, dec := TrialDigit(h, u[at], u[at + 1], u[at + 2], v[vat + 1], v[vat + 2]);
    TrialDigitBound(B, w, vs, qhat);
    TimesDist(qhat, 1, Val(B, vs)); TimesOne(Val(B, vs));
  }

  /** One turn of the D7 loop: divide the n+1 digits u[at..at+n] by the n digits of v.
      The quotient digit is exact and the remainder replaces the window. The trial digit
      needs the add-back exactly when it is one too large. */
  method DivideStep(h: nat, u: array<nat>, at: nat, v: array<nat>, vat: nat, n: nat)
    returns (qhat: nat, ghost rem: seq<nat>, ghost addedBack: bool, ghost trial: nat)
    requires h >= 1 && n >= 2 && u != v && at + n < u.Length && vat + n < v.Length
    requires IsDigits(Base(h), u[at..at + n + 1]) && IsDigits(Base(h), v[vat + 1..vat + n + 1])
    requires Base(h) <= 2 * v[vat + 1]
    requires Val(Base(h), u[at..at + n]) < Val(Base(h), v[vat + 1..vat + n + 1])
    modifies u
    ensures qhat < Base(h) && |rem| == n && IsDigits(Base(h), rem)
    ensures Times(qhat, Val(Base(h), v[vat + 1..vat + n + 1])) + Val(Base(h), rem)
         == old(Val(Base(h), u[at..at + n + 1]))
    ensures Val(Base(h), rem) < Val(Base(h), v[vat + 1..vat + n + 1])
    ensures u[..] == old(u[..at]) + ([0] + rem) + old(u[at + n + 1..])
    ensures trial == qhat || trial == qhat + 1
    ensures addedBack <==> trial == qhat + 1
  {
    ghost var B, vs := Base(h), v[vat + 1..vat + n + 1];
    ghost var V := Val(B, vs);
    qhat := TrialFor(h, u, at, v, vat, n);
    trial := qhat;
    ValBound(B, vs);
    PowGrows(B, n);
    var borrow := MultiplySubtract(h, u, at, v, vat, n, qhat);
    ValBound(B, u[at..at + n + 1]);
    addedBack := borrow;
    if borrow {
      OneLess(qhat, V);
      qhat := qhat - 1;
      ghost var carry := AddBack(h, u, at, v, vat, n);
      ValBound(B, u[at..at + n + 1]);
      CarryOut(Pow(B, n + 1), carry);
    }
    ghost var r := u[at..at + n + 1];
    ValTopDigitZero(B, r);
    rem := r[1..];
    assert u[..] == u[..at] + r + u[at + n + 1..];
    assert r == [0] + rem;
  }

  lemma {:induction false} OneLess(q: nat, V: nat)
    requires Times(q, V) > 0
    ensures q > 0 && Times(q - 1, V) + V == Times(q, V)
  {
    TimesOne(V);
    TimesSum(q, q - 1, 1, V);
  }

  lemma {:induction false} CarryOut(p: nat, carry: nat)
    ensures carry == 0 ==> Times(carry, p) == 0
    ensures carry == 1 ==> Times(carry, p) == p
    ensures carry >= 2 ==> Times(carry, p) >= 2 * p
  {
    TimesOne(p);
    if carry >= 2 { TimesMono(2, carry, p); Double(p); }
  }

  /** A window whose first n digits are below the divisor: its quotient is one digit,
      and its first digit is at most the divisor's. */
  lemma {:induction false} WindowBound(B: nat, w: seq<nat>, v: seq<nat>)
    requires |v| >= 2 && |w| == |v| + 1 && IsDigits(B, w) && IsDigits(B, v)
    requires Val(B, w[..|v|]) < Val(B, v)
    ensures w[0] <= v[0] && Val(B, w) < Times(B, Val(B, v))
  {
    var n := |v|;
    LastDigit(B, w, n + 1);
    assert w[..n + 1] == w;
    TimesMono(Val(B, w[..n]) + 1, Val(B, v), B);
    TimesDist(Val(B, w[..n]), 1, B); TimesOne(B); TimesComm(B, Val(B, v));
    FirstDigitBound(B, w[..n], v);
  }

  lemma {:induction false} FirstDigitBound(B: nat, w: seq<nat>, v: seq<nat>)
    requires |w| == |v| > 0 && IsDigits(B, v) && Val(B, w) < Val(B, v)
    ensures w[0] <= v[0]
  {
    var p := Pow(B, |v| - 1);
    assert w == [w[0]] + w[1..] && v == [v[0]] + v[1..];
    ValPrepend(B, w[0], w[1..]); ValPrepend(B, v[0], v[1..]);
    ValBound(B, v[1..]);
    if w[0] > v[0] { TimesMono(v[0] + 1, w[0], p); TimesDist(v[0], 1, p); TimesOne(p); }
  }

  lemma {:induction false} PowGrows(B: nat, n: nat)
    requires B >= 1
    ensures Pow(B, n) <= Pow(B, n + 1)
  {
    PowDef(B, n + 1);
    TimesMono(1, B, Pow(B, n)); TimesOne(Pow(B, n));
  }

  // ----- D1: normalisation

  /** D1: scale dividend and divisor by the same power of two so that the divisor's first
      digit is at least half the base. Nothing falls out of either string. */
  method Normalise(h: nat, us: array<nat>, a: nat, vs: array<nat>, vat: nat) returns (d: nat)
    requires h >= 1 && us != vs && a + 1 < us.Length && vat < vs.Length
    requires IsDigits(Base(h), us[a..]) && IsDigits(Base(h), vs[vat..])
    requires vs[vat] != 0 && us[a] == 0
    modifies us, vs
    ensures d < h && us[..a] == old(us[..a])
    ensures IsDigits(Base(h), us[a..]) && IsDigits(Base(h), vs[vat..])
    ensures Base(h) <= 2 * vs[vat]
    ensures Val(Base(h), us[a..]) == Times(old(Val(Base(h), us[a..])), Pow(2, d))
    ensures Val(Base(h), vs[vat..]) == Times(old(Val(Base(h), vs[vat..])), Pow(2, d))
  {
    ghost var su, sv := us[a..], vs[vat..];
    assert vs[vat] == sv[0] && us[a] == su[0];
    d := NormaliseShift(h, vs[vat]);
    PowDef(2, 0); TimesOne(Val(Base(h), su)); TimesOne(Val(Base(h), sv)); TimesOne(sv[0]);
    if d > 0 {
      TimesOne(Pow(2, d));
      ShlAll(h, us, a, d);
      ShlAll(h, vs, vat, d);
    }
  }

  method ShlAll(h: nat, p: array<nat>, at: nat, d: nat)
    requires 0 < d < h && at < p.Length && IsDigits(Base(h), p[at..]) && Times(p[at], Pow(2, d)) < Base(h)
    modifies p
    ensures p[..at] == old(p[..at]) && IsDigits(Base(h), p[at..])
    ensures Val(Base(h), p[at..]) == Times(old(Val(Base(h), p[at..])), Pow(2, d))
    ensures p[at] >= Times(old(p[at]), Pow(2, d))
  {
    ghost var s := p[at..];
    assert p[at..at + (p.Length - 1 - at) + 1] == s;
    NothingFallsOut(h, d, s);
    ShiftedTop(h, d, s);
    Shl(h, p, at, p.Length - 1 - at, d);
    assert p[at..] == p[at..at + (p.Length - 1 - at) + 1];
    assert p[at] == p[at..][0];
  }

  lemma {:induction false} NothingFallsOut(h: nat, d: nat, s: seq<nat>)
    requires 0 < d < h && |s| > 0 && IsDigits(Base(h), s) && Times(s[0], Pow(2, d)) < Base(h)
    ensures Val(Base(h), Shifted(h, d, s)) == Times(Val(Base(h), s), Pow(2, d))
  {
    PowPositive(2, h - d);
    SplitBase(h, d); TimesComm(Pow(2, d), Pow(2, h - d));
    TimesCancel(s[0], Pow(2, h - d), Pow(2, d));
    RemSmall(s[0], Pow(2, h - d));
    ShiftedValue(h, d, s);
    TimesOne(Pow(Base(h), |s|));
  }

  lemma {:induction false} ShiftedTop(h: nat, d: nat, s: seq<nat>)
    requires 0 < d < h && |s| > 0 && IsDigits(Base(h), s) && Times(s[0], Pow(2, d)) < Base(h)
    ensures Shifted(h, d, s)[0] >= Times(s[0], Pow(2, d))
  {
    PowPositive(2, h - d);
    SplitBase(h, d); TimesComm(Pow(2, d), Pow(2, h - d));
    TimesCancel(s[0], Pow(2, h - d), Pow(2, d));
    RemSmall(s[0], Pow(2, h - d));
    ShiftPairValue(h, d, s[0], if 1 < |s| then s[1] else 0);
  }

  // ----- D2 to D7: the digit loop

  /** `DivideStep` with the parts of the dividend named: digits already zero, current
      remainder R, next digit x, and the rest. */
  method DivideAt(h: nat, u: array<nat>, at: nat, v: array<nat>, vat: nat, n: nat,
                  ghost P: seq<nat>, ghost R: seq<nat>, ghost x: nat, ghost rest: seq<nat>)
    returns (qhat: nat, ghost rem: seq<nat>)
    requires h >= 1 && n >= 2 && u != v && vat + n < v.Length
    requires |P| == at && |R| == n && u[..] == P + R + [x] + rest
    requires IsDigits(Base(h), R) && x < Base(h) && IsDigits(Base(h), v[vat + 1..vat + n + 1])
    requires Base(h) <= 2 * v[vat + 1]
    requires Val(Base(h), R) < Val(Base(h), v[vat + 1..vat + n + 1])
    modifies u
    ensures qhat < Base(h) && |rem| == n && IsDigits(Base(h), rem)
    ensures Times(qhat, Val(Base(h), v[vat + 1..vat + n + 1])) + Val(Base(h), rem) == Val(Base(h), R + [x])
    ensures Val(Base(h), rem) < Val(Base(h), v[vat + 1..vat + n + 1])
    ensures u[..] == P + ([0] + rem) + rest
  {
    Slices(u[..], P, R, x, rest);
    DigitsAppend(Base(h), R, x);
    assert u[at..at + n] == u[..][at..at + n] && u[at..at + n + 1] == u[..][at..at + n + 1];
    assert u[..at] == u[..][..at] && u[at + n + 1..] == u[..][at + n + 1..];
    ghost var ab, tr;
    qhat, rem, ab, tr := DivideStep(h, u, at, v, vat, n);
  }

  /** The state of the D7 loop after k digits of the dividend T have been brought down:
      quotient digits Q, remainder R. */
  ghost predicate Divided(B: nat, T: seq<nat>, k: nat, V: nat, Q: seq<nat>, R: seq<nat>)
  {
    && k <= |T| && IsDigits(B, R) && IsDigits(B, Q) && Val(B, R) < V
    && Val(B, T[..k]) == Times(Val(B, Q), V) + Val(B, R)
  }

  /** One turn of the D7 loop, on the dividend array P R x rest. */
  method DigitTurn(h: nat, us: array<nat>, at: nat, vs: array<nat>, n: nat, ghost T: seq<nat>, ghost k: nat,
                   ghost P: seq<nat>, ghost Q: seq<nat>, ghost R: seq<nat>)
    returns (qhat: nat, ghost R': seq<nat>)
    requires h >= 1 && vs.Length == 5 && 2 <= n <= 4 && us != vs && IsDigits(Base(h), vs[5 - n..])
    requires IsDigits(Base(h), T) && Base(h) <= 2 * vs[5 - n]
    requires k < |T| && |P| == at && |R| == n && us[..] == P + R + T[k..]
    requires Divided(Base(h), T, k, Val(Base(h), vs[5 - n..]), Q, R)
    modifies us
    ensures qhat < Base(h) && |R'| == n && us[..] == (P + [0]) + R' + T[k + 1..]
    ensures Divided(Base(h), T, k + 1, Val(Base(h), vs[5 - n..]), Q + [qhat], R')
  {
    ghost var x, rest := T[k], T[k + 1..];
    assert vs[5 - n..] == vs[5 - n..5];
    assert T[k..] == [x] + rest;
    assert us[..] == P + R + [x] + rest;
    qhat, R' := DivideAt(h, us, at, vs, 4 - n, n, P, R, x, rest);
    Reassociate(P, R', rest);
    AppendStep(Base(h), T, k, Q, qhat, Val(Base(h), vs[5 - n..]), R, R');
  }

  /** The D7 loop, run over all m+1 quotient digits. */
  method DigitLoop(h: nat, us: array<nat>, vs: array<nat>, qs: array<nat>, m: nat, n: nat,
                   ghost P0: seq<nat>, ghost T: seq<nat>)
    returns (ghost P: seq<nat>, ghost Q: seq<nat>, ghost R: seq<nat>)
    requires h >= 1 && us.Length == vs.Length == qs.Length == 5 && us != vs && us != qs && vs != qs
    requires n >= 2 && m + n <= 4 && |P0| == 4 - m - n && us[..] == P0 + T
    requires IsDigits(Base(h), T) && IsDigits(Base(h), vs[5 - n..]) && Base(h) <= 2 * vs[5 - n]
    requires Val(Base(h), T[..n]) < Val(Base(h), vs[5 - n..])
    modifies us, qs
    ensures |P| == 5 - n && us[..] == P + R && P[..|P0|] == P0 && forall i :: |P0| <= i < |P| ==> P[i] == 0
    ensures qs[..] == old(qs[..4 - m]) + Q
    ensures Divided(Base(h), T, |T|, Val(Base(h), vs[5 - n..]), Q, R)
  {
    ghost var B, a, V := Base(h), |P0|, Val(Base(h), vs[5 - n..]);
    ghost var q0 := qs[..];
    P, Q, R := P0, [], T[..n];
    ValDef(B, []); TimesOne(V);
    assert T == R + T[n..];
    var j := 0;
    while j <= m
      invariant 0 <= j <= m + 1
      invariant |P| == a + j && |R| == n && us[..] == P + R + T[n + j..]
      invariant P[..a] == P0 && forall i :: a <= i < a + j ==> P[i] == 0
      invariant |Q| == j && (forall i :: 0 <= i < 4 - m ==> qs[i] == q0[i])
      invariant forall i :: 0 <= i < j ==> qs[4 - m + i] == Q[i]
      invariant Divided(B, T, n + j, V, Q, R)
    {
      var qhat: nat;
      ghost var R';
      qhat, R' := DigitTurn(h, us, 4 - m - n + j, vs, n, T, n + j, P, Q, R);
      qs[4 - m + j] := qhat;
      P, R, Q := P + [0], R', Q + [qhat];
      j := j + 1;
    }
    assert T[n + j..] == [];
  }

  /** With the first n digits of the dividend below the divisor, the quotient has m+1
      digits and the remainder is left in the last n digits. */
  method DivideDigits(h: nat, us: array<nat>, vs: array<nat>, qs: array<nat>, m: nat, n: nat)
    requires h >= 1 && us.Length == vs.Length == qs.Length == 5 && us != vs && us != qs && vs != qs
    requires n >= 2 && m + n <= 4
    requires IsDigits(Base(h), us[4 - m - n..]) && IsDigits(Base(h), vs[5 - n..])
    requires Base(h) <= 2 * vs[5 - n]
    requires Val(Base(h), us[4 - m - n..4 - m]) < Val(Base(h), vs[5 - n..])
    modifies us, qs
    ensures IsDigits(Base(h), us[4 - m - n..]) && IsDigits(Base(h), qs[4 - m..])
    ensures us[..4 - m - n] == old(us[..4 - m - n]) && qs[..4 - m] == old(qs[..4 - m])
    ensures forall i :: 4 - m - n <= i <= 4 - n ==> us[i] == 0
    ensures Times(Val(Base(h), qs[4 - m..]), Val(Base(h), vs[5 - n..])) + Val(Base(h), us[5 - n..])
         == old(Val(Base(h), us[4 - m - n..]))
    ensures Val(Base(h), us[5 - n..]) < Val(Base(h), vs[5 - n..])
  {
    ghost var B, a := Base(h), 4 - m - n;
    ghost var P0, T := us[..a], us[a..];
    assert us[..] == P0 + T && T[..n] == us[a..a + n];
    ghost var P, Q, R := DigitLoop(h, us, vs, qs, m, n, P0, T);
    assert T[..|T|] == T;
    Finished(B, us[..], a, P, R);
    assert us[5 - n..] == us[..][5 - n..] && us[..a] == us[..][..a] && us[a..] == us[..][a..];
    assert qs[4 - m..] == qs[..][4 - m..] && qs[..4 - m] == qs[..][..4 - m];
    forall i | a <= i <= 4 - n
      ensures us[i] == 0
    {
      assert us[i] == us[..][i];
    }
  }

  lemma {:induction false} Reassociate(P: seq<nat>, R: seq<nat>, rest: seq<nat>)
    ensures P + ([0] + R) + rest == (P + [0]) + R + rest
  {}

  lemma {:induction false} DigitsAppend(B: nat, s: seq<nat>, x: nat)
    requires IsDigits(B, s) && x < B
    ensures IsDigits(B, s + [x])
  {}

  lemma {:induction false} Slices(u: seq<nat>, P: seq<nat>, R: seq<nat>, x: nat, rest: seq<nat>)
    requires u == P + R + [x] + rest
    ensures |u| == |P| + |R| + 1 + |rest|
    ensures u[..|P|] == P && u[|P|..|P| + |R|] == R && u[|P|..|P| + |R| + 1] == R + [x]
    ensures u[|P| + |R| + 1..] == rest
  {}

  lemma {:induction false} Finished(B: nat, u: seq<nat>, a: nat, P: seq<nat>, R: seq<nat>)
    requires B > 0 && u == P + R && a <= |P|
    requires (forall i :: a <= i < |P| ==> P[i] == 0) && IsDigits(B, R)
    ensures u[|P|..] == R && u[..a] == P[..a] && IsDigits(B, u[a..])
    ensures forall i :: a <= i < |P| ==> u[i] == 0
  {
    forall i | 0 <= i < |u| - a
      ensures u[a..][i] < B
    {
      if a + i >= |P| { assert u[a..][i] == R[a + i - |P|]; }
    }
  }

  /** Bringing down the next digit of the dividend and dividing again extends the quotient. */
  lemma {:induction false} AppendStep(B: nat, T: seq<nat>, k: nat, Q: seq<nat>, q: nat, V: nat, R: seq<nat>,
                                      R': seq<nat>)
    requires k < |T|
    requires Val(B, T[..k]) == Times(Val(B, Q), V) + Val(B, R)
    requires Times(q, V) + Val(B, R') == Val(B, R + [T[k]])
    ensures Val(B, T[..k + 1]) == Times(Val(B, Q + [q]), V) + Val(B, R')
  {
    ValAppend(B, R, T[k]);
    ValAppend(B, Q, q);
    LastDigit(B, T, k + 1);
    BringDown(B, Val(B, T[..k]), Val(B, Q), V, Val(B, R), T[k], q, Val(B, R'), Val(B, Q + [q]));
  }

  lemma {:induction false} ValAppend(B: nat, s: seq<nat>, x: nat)
    ensures Val(B, s + [x]) == Times(Val(B, s), B) + x
  {
    ValDef(B, s + [x]);
    assert (s + [x])[..|s|] == s;
  }

  lemma {:induction false} BringDown(B: nat, U: nat, Q: nat, V: nat, R: nat, x: nat, q: nat, R': nat, Q': nat)
    requires U == Times(Q, V) + R && Q' == Times(Q, B) + q
    requires Times(q, V) + R' == Times(R, B) + x
    ensures Times(U, B) + x == Times(Q', V) + R'
  {
    TimesIs(Q, V); TimesIs(Q, B); TimesIs(q, V); TimesIs(R, B); TimesIs(U, B); TimesIs(Q', V);
    BringDownStar(B, U, Q, V, R, x, q, R', Q');
  }

  lemma {:induction false} BringDownStar(B: nat, U: nat, Q: nat, V: nat, R: nat, x: nat, q: nat, R': nat, Q': nat)
    requires U == Q * V + R && Q' == Q * B + q && q * V + R' == R * B + x
    ensures U * B + x == Q' * V + R'
  {}

  // ----- The remainder

  /** Shift u[m..m+n] right by d bits into u[m+1..m+n]. */
  method Denormalise(h: nat, us: array<nat>, n: nat, d: nat)
    requires 0 < d < h && us.Length == 5 && 1 <= n <= 4 && IsDigits(Base(h), us[4 - n..]) && us[4 - n] == 0
    modifies us
    ensures us[..5 - n] == old(us[..5 - n])
    ensures us[5 - n..] == Shifted(h, h - d, old(us[4 - n..]))[..n]
  {
    ghost var o := us[..];
    ghost var s := us[4 - n..];
    ghost var t := Shifted(h, h - d, s);
    var i := 4;
    while i > 4 - n
      invariant 4 - n <= i <= 4
      invariant forall k :: 0 <= k <= i ==> us[k] == o[k]
      invariant forall k :: i < k < 5 ==> us[k] == t[k - 5 + n]
    {
      assert us[i - 1] == o[i - 1] == s[i - 5 + n] && us[i] == o[i] == s[i - 4 + n];
      assert t[i - 5 + n] == ShiftPair(h, h - d, s[i - 5 + n], s[i - 4 + n]);
      us[i] := ShiftPair(h, h - d, us[i - 1], us[i]);
      i := i - 1;
    }
    us[i] := 0;
  }

  /** Shifting right by d bits divides by 2^d. */
  lemma {:induction false} DenormalisedValue(h: nat, d: nat, s: seq<nat>)
    requires 0 < d < h && |s| >= 2 && IsDigits(Base(h), s) && s[0] == 0
    ensures Pow(2, d) >= 1
    ensures Val(Base(h), Shifted(h, h - d, s)[..|s| - 1]) == Quot(Val(Base(h), s), Pow(2, d))
  {
    var B, e, f, n := Base(h), Pow(2, d), Pow(2, h - d), |s| - 1;
    PowPositive(2, d);
    SplitBase(h, h - d);
    ShiftedPrefix(h, h - d, s, n);
    RemSmall(0, e); TimesOne(Pow(B, n));
    var x, y := Val(B, s[..n]), s[n];
    calc {
      Times(Val(B, Shifted(h, h - d, s)[..n]), e);
      Times(Times(x, f) + Quot(y, e), e);
      { TimesDist(Times(x, f), Quot(y, e), e); }
      Times(Times(x, f), e) + Times(Quot(y, e), e);
      { TimesAssoc(x, f, e); }
      Times(x, B) + Times(Quot(y, e), e);
    }
    QuotRem(y, e);
    LastDigit(B, s, n + 1);
    assert s[..n + 1] == s;
    QuotRemUnique(e, Val(B, Shifted(h, h - d, s)[..n]), Rem(y, e));
  }

  /** Dividing scaled numbers gives the same quotient and the scaled remainder. */
  lemma {:induction false} ScaledDivision(U: nat, V: nat, e: nat, q: nat, r: nat)
    requires e >= 1
    requires Times(U, e) == Times(q, Times(V, e)) + r && r < Times(V, e)
    ensures V > 0 && q == Quot(U, V) && Rem(U, V) == Quot(r, e)
  {
    TimesAssoc(q, V, e);
    var p := Times(q, V);
    NotBelow(U, p, e);
    var t := U - p;
    TimesSum(U, p, t, e);
    TimesCancel(t, V, e);
    QuotRemUnique(V, q, t);
    QuotRemUnique(e, t, 0);
  }

  lemma {:induction false} NotBelow(x: nat, y: nat, e: nat)
    requires e >= 1 && Times(x, e) >= Times(y, e)
    ensures x >= y
  {
    if x < y { TimesSum(y, x, y - x, e); TimesMono(1, y - x, e); TimesOne(e); }
  }

  // ----- The whole division

  /** Program D for an n-digit divisor, n >= 2, that ends the array `vs`, and an
      (m+n)-digit dividend that ends the array `us`. */
  method ProgramD(h: nat, us: array<nat>, vs: array<nat>, qs: array<nat>, m: nat, n: nat, wantRem: bool)
    requires h >= 1 && us.Length == vs.Length == qs.Length == 5 && us != vs && us != qs && vs != qs
    requires n >= 2 && m + n <= 4
    requires IsDigits(Base(h), us[..]) && IsDigits(Base(h), vs[5 - n..]) && vs[5 - n] != 0
    requires forall i :: 0 <= i <= 4 - m - n ==> us[i] == 0
    requires forall i :: 0 <= i < 4 - m ==> qs[i] == 0
    modifies us, vs, qs
    ensures IsDigits(Base(h), qs[..]) && IsDigits(Base(h), us[..])
    ensures old(Val(Base(h), vs[5 - n..])) > 0
    ensures Val(Base(h), qs[..]) == Quot(old(Val(Base(h), us[..])), old(Val(Base(h), vs[5 - n..])))
    ensures wantRem ==> Val(Base(h), us[..]) == Rem(old(Val(Base(h), us[..])), old(Val(Base(h), vs[5 - n..])))
  {
    ghost var B, a := Base(h), 4 - m - n;
    ghost var U, V := Val(B, us[..]), Val(B, vs[5 - n..]);
    ghost var T, v := us[a..], vs[5 - n..];
    ValLeadingZeros(B, us[..], a);
    assert us[..][a..] == T;
    var d := Normalise(h, us, 4 - m - n, vs, 5 - n);
    ghost var e := Pow(2, d);
    PowPositive(2, d);
    FirstWindow(B, T, us[a..], v, Val(B, vs[5 - n..]), e);
    assert us[a..][..n] == us[a..a + n];
    DivideDigits(h, us, vs, qs, m, n);
    ScaledDivision(U, V, e, Val(B, qs[4 - m..]), Val(B, us[5 - n..]));
    ZeroExtend(B, qs[..], 4 - m);
    assert qs[..][4 - m..] == qs[4 - m..];
    assert us[..a] == old(us[..a]);
    assert forall i :: 0 <= i < a ==> us[i] == us[..a][i] == old(us[..a])[i] == 0;
    assert us[5 - n..] == us[a..][m + 1..];
    if wantRem { Remainder(h, us, n, d); }
    else { ZeroExtend(B, us[..], 5 - n); assert us[..][5 - n..] == us[5 - n..]; }
  }

  /** The remainder u[m..m+n] >> d, with the digits before it already zero. */
  method Remainder(h: nat, us: array<nat>, n: nat, d: nat)
    requires d < h && us.Length == 5 && 1 <= n <= 4 && IsDigits(Base(h), us[5 - n..])
    requires forall i :: 0 <= i < 5 - n ==> us[i] == 0
    modifies us
    ensures IsDigits(Base(h), us[..]) && Pow(2, d) >= 1
    ensures Val(Base(h), us[..]) == Quot(old(Val(Base(h), us[5 - n..])), Pow(2, d))
  {
    PowPositive(2, d);
    if d > 0 {
      ShiftBack(h, us, n, d);
    } else {
      ghost var r := Val(Base(h), us[5 - n..]);
      PowDef(2, 0); TimesOne(r);
      QuotRemUnique(1, r, 0);
    }
    assert us[..][5 - n..] == us[5 - n..];
    ZeroExtend(Base(h), us[..], 5 - n);
  }

  method ShiftBack(h: nat, us: array<nat>, n: nat, d: nat)
    requires 0 < d < h && us.Length == 5 && 1 <= n <= 4 && IsDigits(Base(h), us[5 - n..])
    requires forall i :: 0 <= i < 5 - n ==> us[i] == 0
    modifies us
    ensures IsDigits(Base(h), us[5 - n..]) && Pow(2, d) >= 1 && forall i :: 0 <= i < 5 - n ==> us[i] == 0
    ensures Val(Base(h), us[5 - n..]) == Quot(old(Val(Base(h), us[5 - n..])), Pow(2, d))
  {
    ghost var B, r, s := Base(h), us[5 - n..], us[4 - n..];
    PowPositive(2, d);
    assert s[0] == us[4 - n] == 0 && s[1..] == r;
    assert s == [0] + r;
    ValPrepend(B, 0, r); TimesOne(Pow(B, n));
    DenormalisedValue(h, d, s);
    Denormalise(h, us, n, d);
    assert forall i :: 0 <= i < 5 - n ==> us[i] == us[..5 - n][i] == 0;
  }

  lemma {:induction false} ZeroExtend(B: nat, s: seq<nat>, k: nat)
    requires B > 0 && k <= |s| && (forall i :: 0 <= i < k ==> s[i] == 0) && IsDigits(B, s[k..])
    ensures IsDigits(B, s) && Val(B, s) == Val(B, s[k..])
  {
    ValLeadingZeros(B, s, k);
    forall i | 0 <= i < |s|
      ensures s[i] < B
    {
      if i >= k { assert s[i] == s[k..][i - k]; }
    }
  }

  /** The invariant of the D7 loop holds at the start: the first n digits of the scaled
      dividend are below the scaled divisor. */
  lemma {:induction false} FirstWindow(B: nat, T: seq<nat>, T': seq<nat>, v: seq<nat>, V': nat, e: nat)
    requires |v| >= 1 && |T| == |T'| > |v| && IsDigits(B, T) && T[0] == 0 && v[0] >= 1 && e >= 1
    requires Val(B, T') == Times(Val(B, T), e) && V' == Times(Val(B, v), e)
    ensures Val(B, T'[..|v|]) < V'
  {
    LeadingZeroBound(B, T);
    LeadingOneBound(B, v);
    PrefixBelow(B, T', |v|);
    PowSum(B, |T| - 1, |v| - 1, |T| - |v|);
    WindowScale(Val(B, T'[..|v|]), Pow(B, |T| - |v|), Val(B, T), Pow(B, |v| - 1), Val(B, v), e);
  }

  lemma {:induction false} PrefixBelow(B: nat, s: seq<nat>, n: nat)
    requires n <= |s|
    ensures Times(Val(B, s[..n]), Pow(B, |s| - n)) <= Val(B, s)
  {
    assert s == s[..n] + s[n..];
    ValConcat(B, s[..n], s[n..]);
  }

  lemma {:induction false} LeadingZeroBound(B: nat, T: seq<nat>)
    requires |T| > 0 && T[0] == 0 && IsDigits(B, T)
    ensures Val(B, T) < Pow(B, |T| - 1)
  {
    ValLeadingZeros(B, T, 1);
    ValBound(B, T[1..]);
  }

  lemma {:induction false} LeadingOneBound(B: nat, v: seq<nat>)
    requires |v| > 0 && v[0] >= 1
    ensures Val(B, v) >= Pow(B, |v| - 1)
  {
    assert v == [v[0]] + v[1..];
    ValPrepend(B, v[0], v[1..]);
    TimesMono(1, v[0], Pow(B, |v| - 1)); TimesOne(Pow(B, |v| - 1));
  }

  lemma {:induction false} WindowScale(x: nat, q: nat, t: nat, p: nat, v: nat, e: nat)
    requires e >= 1 && Times(x, q) <= Times(t, e) && t < Times(p, q) && p <= v
    ensures x < Times(v, e)
  {
    if x >= Times(v, e) {
      TimesMono(Times(v, e), x, q);
      TimesAssoc(v, e, q); TimesComm(e, q); TimesAssoc(v, q, e);
      TimesMono(p, v, q);
      TimesMono(t + 1, Times(v, q), e);
      TimesDist(t, 1, e); TimesOne(e);
    }
  }

  /** A `long long` seen as two words, each split into two digits. */
  function Split(h: nat, x: nat): (s: seq<nat>)
    requires x < Pow(Base(h), 4)
    ensures |s| == 4 && IsDigits(Base(h), s) && Val(Base(h), s) == x
  {
    var hi, lo := Quot(x, WordSize(h)), Rem(x, WordSize(h));
    SplitValue(h, x);
    [HHalf(h, hi), LHalf(h, hi), HHalf(h, lo), LHalf(h, lo)]
  }

  lemma {:induction false} SplitValue(h: nat, x: nat)
    requires x < Pow(Base(h), 4)
    ensures var hi, lo := Quot(x, WordSize(h)), Rem(x, WordSize(h));
            var s := [HHalf(h, hi), LHalf(h, hi), HHalf(h, lo), LHalf(h, lo)];
            hi < WordSize(h) && IsDigits(Base(h), s) && Val(Base(h), s) == x
  {
    var B, W := Base(h), WordSize(h);
    var hi, lo := Quot(x, W), Rem(x, W);
    FourthPower(B);
    QuotRem(x, W);
    QuotSmall(x, W, W);
    HalvesOfWord(h, hi); HalvesOfWord(h, lo);
    FourDigits(B, HHalf(h, hi), LHalf(h, hi), HHalf(h, lo), LHalf(h, lo));
  }

  lemma {:induction false} FourthPower(B: nat)
    ensures Pow(B, 4) == Times(Times(B, B), Times(B, B)) && Pow(B, 2) == Times(B, B)
  {
    PowAdd(B, 2, 2);
    PowDef(B, 2); PowDef(B, 1); PowDef(B, 0);
    TimesOne(B);
  }

  lemma {:induction false} FourDigits(B: nat, a: nat, b: nat, c: nat, d: nat)
    ensures Val(B, [a, b, c, d]) == Times(Two(B, a, b), Times(B, B)) + Two(B, c, d)
  {
    assert [a, b, c, d] == [a, b] + [c, d];
    ValConcat(B, [a, b], [c, d]);
    FourthPower(B);
    ShortVals(B, a, b, 0); ShortVals(B, c, d, 0);
  }

  /** The `long long` whose words are COMBINE(a, b) and COMBINE(c, d). */
  function Join(h: nat, a: nat, b: nat, c: nat, d: nat): (r: nat)
    requires a < Base(h) && b < Base(h) && c < Base(h) && d < Base(h)
    ensures r == Val(Base(h), [a, b, c, d])
  {
    FourDigits(Base(h), a, b, c, d);
    Times(Combine(h, a, b), WordSize(h)) + Combine(h, c, d)
  }

  /** After k digits of u the quotient digits are q and the running remainder is r. */
  ghost predicate ShortDivided(B: nat, u: seq<nat>, k: nat, t: nat, q: seq<nat>, r: nat)
  {
    k <= |u| && r < t && |q| == k && IsDigits(B, q) && Val(B, u[..k]) == Times(Val(B, q), t) + r
  }

  lemma {:induction false} ShortStep(B: nat, u: seq<nat>, k: nat, t: nat, q: seq<nat>, r: nat)
    requires ShortDivided(B, u, k, t, q, r) && k < |u| && u[k] < B
    ensures var rbj := Times(r, B) + u[k];
            ShortDivided(B, u, k + 1, t, q + [Quot(rbj, t)], Rem(rbj, t))
  {
    var rbj := Times(r, B) + u[k];
    TimesMono(r + 1, t, B); TimesDist(r, 1, B); TimesOne(B); TimesComm(B, t);
    QuotRem(rbj, t);
    QuotSmall(rbj, t, B);
    LastDigit(B, u, k + 1);
    ValAppend(B, q, Quot(rbj, t));
    BringDown(B, Val(B, u[..k]), Val(B, q), t, r, u[k], Quot(rbj, t), Rem(rbj, t), Val(B, q + [Quot(rbj, t)]));
  }

  /** The next quotient digit and the remainder it leaves. */
  method ShortDigit(h: nat, u: seq<nat>, k: nat, t: nat, ghost q: seq<nat>, r: nat) returns (d: nat, r': nat)
    requires k < |u| && IsDigits(Base(h), u) && 0 < t < Base(h) && ShortDivided(Base(h), u, k, t, q, r)
    ensures ShortDivided(Base(h), u, k + 1, t, q + [d], r')
  {
    var rbj := Combine(h, r, u[k]);
    d, r' := Quot(rbj, t), Rem(rbj, t);
    ShortStep(Base(h), u, k, t, q, r);
  }

  /** The one-digit path: schoolbook division of four digits by a single digit t. */
  method ShortDivide(h: nat, u: seq<nat>, t: nat) returns (quot: nat, rem: nat)
    requires |u| == 4 && IsDigits(Base(h), u) && 0 < t < Base(h)
    ensures quot == Quot(Val(Base(h), u), t) && rem == Rem(Val(Base(h), u), t)
  {
    ghost var B := Base(h);
    ValDef(B, []); TimesOne(t); TimesOne(B);
    assert u[..0] == [];
    ShortStep(B, u, 0, t, [], 0);
    var q1 := Quot(u[0], t);
    assert [] + [q1] == [q1];
    var q2, r2 := ShortDigit(h, u, 1, t, [q1], Rem(u[0], t));
    assert [q1] + [q2] == [q1, q2];
    var q3, r3 := ShortDigit(h, u, 2, t, [q1, q2], r2);
    assert [q1, q2] + [q3] == [q1, q2, q3];
    var q4;
    q4, rem := ShortDigit(h, u, 3, t, [q1, q2, q3], r3);
    assert [q1, q2, q3] + [q4] == [q1, q2, q3, q4] && u[..4] == u;
    quot := JoinFour(h, [q1, q2, q3, q4]);
    QuotRemUnique(t, quot, rem);
  }

  /** The four quotient digits as one number. */
  method JoinFour(h: nat, q: seq<nat>) returns (quot: nat)
    requires |q| == 4 && IsDigits(Base(h), q)
    ensures quot == Val(Base(h), q)
  {
    assert q[0] < Base(h) && q[1] < Base(h) && q[2] < Base(h) && q[3] < Base(h);
    quot := Join(h, q[0], q[1], q[2], q[3]);
    assert q == [q[0], q[1], q[2], q[3]];
  }

  /** Skip the leading zeros of the divisor: it has n digits, the first of them not zero. */
  method DivisorDigits(h: nat, vs: array<nat>) returns (n: nat)
    requires vs.Length == 5 && IsDigits(Base(h), vs[..]) && vs[0] == 0 && Val(Base(h), vs[..]) > 0
    ensures 1 <= n <= 4 && vs[5 - n] != 0
    ensures Val(Base(h), vs[5 - n..]) == Val(Base(h), vs[..])
  {
    n := 4;
    while n > 1 && vs[5 - n] == 0
      invariant 1 <= n <= 4 && forall i :: 0 <= i < 5 - n ==> vs[i] == 0
    {
      n := n - 1;
    }
    ValLeadingZeros(Base(h), vs[..], 5 - n);
    assert vs[..][5 - n..] == vs[5 - n..];
    if vs[5 - n] == 0 { AllZeros(Base(h), vs[..]); }
  }

  lemma {:induction false} AllZeros(B: nat, s: seq<nat>)
    requires forall i :: 0 <= i < |s| ==> s[i] == 0
    ensures Val(B, s) == 0
  {
    ValLeadingZeros(B, s, |s|);
    ValDef(B, s[|s|..]);
  }

  /** Skip the leading zeros of the dividend, which is not below the divisor: it has m+n digits. */
  method DividendDigits(h: nat, us: array<nat>, n: nat) returns (m: nat)
    requires us.Length == 5 && 2 <= n <= 4 && IsDigits(Base(h), us[..]) && us[0] == 0
    requires Val(Base(h), us[..]) >= Pow(Base(h), n - 1)
    ensures m + n <= 4 && forall i :: 0 <= i <= 4 - m - n ==> us[i] == 0
  {
    m := 4 - n;
    while us[5 - m - n] == 0
      invariant 0 <= m <= 4 - n && forall i :: 0 <= i <= 4 - m - n ==> us[i] == 0
      decreases m
    {
      if m == 0 {
        ValLeadingZeros(Base(h), us[..], 6 - n);
        ValBound(Base(h), us[..][6 - n..]);
      }
      m := m - 1;
    }
  }

  lemma {:induction false} JoinAll(h: nat, s: seq<nat>)
    requires |s| == 5 && IsDigits(Base(h), s) && Val(Base(h), s) < Pow(Base(h), 4)
    ensures Join(h, s[1], s[2], s[3], s[4]) == Val(Base(h), s)
  {
    ValTopDigitZero(Base(h), s);
    assert s[1..] == [s[1], s[2], s[3], s[4]];
  }

  /** `__qdivrem`: the quotient of two double words and, if asked for, the remainder.
      Division by zero traps before anything is computed. */
  method Qdivrem(h: nat, ull: nat, vll: nat, wantRem: bool) returns (quot: nat, rem: Option<nat>)
    requires h >= 1 && ull < Pow(Base(h), 4) && 0 < vll < Pow(Base(h), 4)
    ensures quot == ull / vll
    ensures rem == if wantRem then Some(ull % vll) else None
    ensures ull == quot * vll + ull % vll
  {
    QuotRemAre(ull, vll);
    DivModEquation(ull, vll);
    if ull < vll {
      RemSmall(ull, vll);
      return 0, if wantRem then Some(ull) else None;
    }
    var us, vs, qs := new nat[5], new nat[5], new nat[5];
    LoadDigits(h, us, ull);
    LoadDigits(h, vs, vll);
    var n := DivisorDigits(h, vs);
    if n == 1 {
      OneDigit(Base(h), vs[4..]);
      JustDigits(h, us[..]);
      var q, r := ShortDivide(h, us[1..], vs[4]);
      return q, if wantRem then Some(r) else None;
    }
    LeadingOneBound(Base(h), vs[5 - n..]);
    var m := DividendDigits(h, us, n);
    ClearDigits(qs, 4 - m);
    SubDigits(Base(h), vs[..], 5 - n);
    ProgramD(h, us, vs, qs, m, n, wantRem);
    QuotRem(ull, vll);
    SmallQuot(ull, vll);
    JoinAll(h, qs[..]);
    quot := Join(h, qs[1], qs[2], qs[3], qs[4]);
    if wantRem {
      JoinAll(h, us[..]);
      rem := Some(Join(h, us[1], us[2], us[3], us[4]));
    } else {
      rem := None;
    }
  }

  method LoadDigits(h: nat, a: array<nat>, x: nat)
    requires a.Length == 5 && x < Pow(Base(h), 4)
    modifies a
    ensures IsDigits(Base(h), a[..]) && a[0] == 0 && Val(Base(h), a[..]) == x
  {
    var d := Split(h, x);
    a[0], a[1], a[2], a[3], a[4] := 0, d[0], d[1], d[2], d[3];
    assert a[..] == [0] + d;
    ValPrepend(Base(h), 0, d); TimesOne(Pow(Base(h), 4));
  }

  method ClearDigits(q: array<nat>, k: nat)
    requires k <= q.Length
    modifies q
    ensures forall i :: 0 <= i < k ==> q[i] == 0
  {
    var i := k;
    while i > 0
      invariant 0 <= i <= k && forall j :: i <= j < k ==> q[j] == 0
    {
      i := i - 1;
      q[i] := 0;
    }
  }

  lemma {:induction false} SmallQuot(x: nat, d: nat)
    requires d > 0
    ensures Quot(x, d) <= x && Rem(x, d) <= x
  {
    QuotRem(x, d);
    TimesMono(1, d, Quot(x, d)); TimesOne(Quot(x, d));
  }

  lemma {:induction false} OneDigit(B: nat, s: seq<nat>)
    requires |s| == 1
    ensures Val(B, s) == s[0]
  {
    ValDef(B, s); ValDef(B, s[..0]);
    TimesOne(B);
  }

  lemma {:induction false} JustDigits(h: nat, s: seq<nat>)
    requires |s| > 0 && s[0] == 0 && IsDigits(Base(h), s)
    ensures IsDigits(Base(h), s[1..]) && Val(Base(h), s[1..]) == Val(Base(h), s)
  {
    ValLeadingZeros(Base(h), s, 1);
  }

  lemma {:induction false} SubDigits(B: nat, s: seq<nat>, k: nat)
    requires k <= |s| && IsDigits(B, s)
    ensures IsDigits(B, s[k..])
  {}
}
