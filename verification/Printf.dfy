/** Number printing, the bounded output buffer of snprintf, and atoi. */
module Printf {

  const WORD := 0x1_0000_0000
  const LONG_WORD := 0x1_0000_0000_0000_0000

  // ----- Digits and their value

  predicate IsBase(b: nat)
  {
    b == 8 || b == 10 || b == 16
  }

  /** Arithmetic in the three bases: n / b, n % b and n * b. */
  function DivBase(n: nat, b: nat): (q: nat)
    requires IsBase(b)
    ensures q <= n && (n > 0 ==> q < n) && (q > 0 <==> n >= b)
  {
    if b == 8 then n / 8 else if b == 10 then n / 10 else n / 16
  }

  function ModBase(n: nat, b: nat): (r: nat)
    requires IsBase(b)
    ensures r < b && (n < b ==> r == n)
  {
    if b == 8 then n % 8 else if b == 10 then n % 10 else n % 16
  }

  function Scale(n: nat, b: nat): nat
    requires IsBase(b)
  {
    if b == 8 then 8 * n else if b == 10 then 10 * n else 16 * n
  }

  lemma DivModBase(n: nat, b: nat)
    requires IsBase(b)
    ensures Scale(DivBase(n, b), b) + ModBase(n, b) == n && DivBase(n, b) <= n / 8
  {}

  function DigitChar(d: nat): char
    requires d < 16
  {
    if d < 10 then ('0' as int + d) as char else ('a' as int + d - 10) as char
  }

  /** The value of a digit character, or 16 for any other. */
  function DigitValue(c: char): nat
  {
    if '0' <= c <= '9' then (c as int) - ('0' as int)
    else if 'a' <= c <= 'f' then (c as int) - ('a' as int) + 10 else 16
  }

  lemma DigitRound(d: nat)
    requires d < 16
    ensures DigitValue(DigitChar(d)) == d && (d < 10 ==> '0' <= DigitChar(d) <= '9')
  {}

  /** The number in base b, without leading zeros. */
  function Digits(n: nat, b: nat): (s: string)
    requires IsBase(b)
    ensures |s| >= 1
    decreases n
  {
    if n < b then [DigitChar(n)] else Digits(DivBase(n, b), b) + [DigitChar(ModBase(n, b))]
  }

  function Number(s: string, b: nat): nat
    requires IsBase(b)
    decreases |s|, 1
  {
    Number1(s, b)
  }

  function Number1(s: string, b: nat): nat
    requires IsBase(b)
    decreases |s|, 0
  {
    if s == [] then 0 else Scale(Number(s[..|s| - 1], b), b) + DigitValue(s[|s| - 1])
  }

  lemma {:induction false} NumberEmpty(b: nat)
    requires IsBase(b)
    ensures Number([], b) == 0
  {
    assert Number([], b) == Number1([], b);
  }

  lemma {:induction false} NumberSnoc(s: string, c: char, b: nat)
    requires IsBase(b)
    ensures Number(s + [c], b) == Scale(Number(s, b), b) + DigitValue(c)
  {
    assert Number(s + [c], b) == Number1(s + [c], b);
    assert (s + [c])[..|s|] == s;
  }

  /** Printing a number and reading it back. */
  lemma {:induction false} DigitsRound(n: nat, b: nat)
    requires IsBase(b)
    ensures Number(Digits(n, b), b) == n
    decreases n
  {
    DigitRound(ModBase(n, b));
    DivModBase(n, b);
    NumberEmpty(b);
    if n < b {
      NumberSnoc([], DigitChar(n), b);
      assert Digits(n, b) == [] + [DigitChar(n)];
    } else {
      DigitsRound(DivBase(n, b), b);
      NumberSnoc(Digits(DivBase(n, b), b), DigitChar(ModBase(n, b)), b);
    }
  }

  /** Only digits of the base are printed. */
  lemma {:induction false} DigitsAre(n: nat, b: nat)
    requires IsBase(b)
    ensures forall i :: 0 <= i < |Digits(n, b)| ==> DigitValue(Digits(n, b)[i]) < b
    decreases n
  {
    DigitRound(ModBase(n, b));
    if n >= b { DigitsAre(DivBase(n, b), b); }
  }

  // ----- The digit buffer of __pf_printnum

  const BUF_SIZE := 23  // 64 / 3 + 2

  function Pow8(k: nat): nat
  {
    if k == 0 then 1 else 8 * Pow8(k - 1)
  }

  /** How many digits a number below 8^k can need. */
  lemma {:induction false} DigitsFit(n: nat, b: nat, k: nat)
    requires IsBase(b) && n < Pow8(k) && k > 0
    ensures |Digits(n, b)| <= k
    decreases k
  {
    FitsNext(n, b, k);
    if n >= b { DigitsFit(DivBase(n, b), b, k - 1); }
  }

  lemma FourDigits(k: nat)
    ensures Pow8(k + 4) == 4096 * Pow8(k)
  {
    assert Pow8(k + 4) == 8 * Pow8(k + 3) && Pow8(k + 3) == 8 * Pow8(k + 2);
    assert Pow8(k + 2) == 8 * Pow8(k + 1) && Pow8(k + 1) == 8 * Pow8(k);
  }

  lemma LongFits(n: nat)
    requires n < LONG_WORD
    ensures n < Pow8(22)
  {
    FourDigits(0);
    FourDigits(4);
    FourDigits(8);
    FourDigits(12);
    FourDigits(16);
    assert Pow8(22) == 64 * Pow8(20) by { assert Pow8(21) == 8 * Pow8(20); }
  }

  /** The buffer holds text and its terminator, ending at the end. */
  ghost predicate TextAt(buf: seq<char>, x: nat, text: string)
  {
    |buf| == BUF_SIZE && x < BUF_SIZE && buf[x..] == text + ['\0']
  }

  method Put(buf: array<char>, x: nat, c: char, ghost text: string)
    requires TextAt(buf[..], x, text) && x > 0
    modifies buf
    ensures TextAt(buf[..], x - 1, [c] + text)
  {
    buf[x - 1] := c;
    assert buf[..][x..] == old(buf[..])[x..] && buf[..][x - 1..] == [c] + buf[..][x..];
    assert [c] + (text + ['\0']) == [c] + text + ['\0'];
  }

  /** The conversion loop of __pf_printnum, right to left in a buffer that starts with its
      terminator: the text is the number, and it fits whatever the value and base. */
  method Convert(num: nat, b: nat) returns (buf: array<char>, x: nat)
    requires num < LONG_WORD && IsBase(b)
    ensures fresh(buf) && TextAt(buf[..], x, Digits(num, b))
    ensures forall i :: x <= i < BUF_SIZE - 1 ==> DigitValue(buf[i]) < b
  {
    buf := new char[BUF_SIZE];
    buf[BUF_SIZE - 1] := '\0';
    LongFits(num);
    x := BUF_SIZE - 1;
    var xnum: nat := num;
    var more := true;
    ghost var text: string := [];
    while more
      invariant TextAt(buf[..], x, text)
      invariant if more then x > 0 && xnum < Pow8(x) && Digits(num, b) == Digits(xnum, b) + text
                else Digits(num, b) == text
      decreases more, xnum
    {
      var c := DigitChar(ModBase(xnum, b));
      FitsNext(xnum, b, x);
      Peel(xnum, b, text);
      Put(buf, x, c, text);
      x, text := x - 1, [c] + text;
      more := DivBase(xnum, b) > 0;
      xnum := DivBase(xnum, b);
    }
    WrittenAre(buf[..], x, num, b);
  }

  lemma WrittenAre(buf: seq<char>, x: nat, num: nat, b: nat)
    requires IsBase(b) && TextAt(buf, x, Digits(num, b))
    ensures forall i :: x <= i < BUF_SIZE - 1 ==> DigitValue(buf[i]) < b
  {
    DigitsAre(num, b);
    TextIs(buf, x, Digits(num, b));
    forall i | x <= i < BUF_SIZE - 1 ensures DigitValue(buf[i]) < b {
      assert buf[i] == Digits(num, b)[i - x];
    }
  }

  lemma Peel(n: nat, b: nat, text: string)
    requires IsBase(b)
    ensures Digits(n, b) + text == if n < b then [DigitChar(ModBase(n, b))] + text
            else Digits(DivBase(n, b), b) + ([DigitChar(ModBase(n, b))] + text)
  {}

  lemma FitsNext(n: nat, b: nat, k: nat)
    requires IsBase(b) && n < Pow8(k) && k > 0
    ensures DivBase(n, b) < Pow8(k - 1) && (n >= b ==> k > 1)
  {
    DivModBase(n, b);
    assert Pow8(k) == 8 * Pow8(k - 1);
  }

  /** A 64-bit number with its top bit set takes the whole buffer in octal. */
  lemma OctalFills(n: nat)
    requires Pow8(21) <= n < LONG_WORD
    ensures |Digits(n, 8)| == BUF_SIZE - 1
  {
    LongFits(n);
    DigitsFit(n, 8, 22);
    DigitsLong(n, 21);
  }

  lemma {:induction false} DigitsLong(n: nat, k: nat)
    requires Pow8(k) <= n
    ensures |Digits(n, 8)| > k
    decreases k
  {
    if k > 0 {
      assert Pow8(k) == 8 * Pow8(k - 1);
      Pow8Positive(k - 1);
      DigitsLong(DivBase(n, 8), k - 1);
    }
  }

  lemma {:induction false} Pow8Positive(k: nat)
    ensures Pow8(k) >= 1
  {
    if k > 0 { Pow8Positive(k - 1); }
  }

  // ----- atoi

  predicate Blank(c: char)
  {
    c == ' ' || c == '\t'
  }

  predicate IsDigit(c: char)
  {
    '0' <= c <= '9'
  }

  /** What is left after the blanks at the front. Like Number, this and the next function
      are defined in two steps, so that proofs unfold them only where they say so. */
  function SkipBlanks(s: string): string
    decreases |s|, 1
  {
    SkipBlanks1(s)
  }

  function SkipBlanks1(s: string): string
    decreases |s|, 0
  {
    if s != [] && Blank(s[0]) then SkipBlanks(s[1..]) else s
  }

  /** The digits at the front. */
  function DigitRun(s: string): string
    decreases |s|, 1
  {
    DigitRun1(s)
  }

  function DigitRun1(s: string): string
    decreases |s|, 0
  {
    if s != [] && IsDigit(s[0]) then [s[0]] + DigitRun(s[1..]) else []
  }

  lemma {:induction false} ReadDefs(s: string)
    ensures SkipBlanks(s) == if s != [] && Blank(s[0]) then SkipBlanks(s[1..]) else s
    ensures DigitRun(s) == if s != [] && IsDigit(s[0]) then [s[0]] + DigitRun(s[1..]) else []
  {
    assert SkipBlanks(s) == SkipBlanks1(s) && DigitRun(s) == DigitRun1(s);
  }

  /** x as a 32-bit int. */
  function Signed(x: int): int
  {
    (x + WORD / 2) % WORD - WORD / 2
  }

  function Unsigned(s: string): string
  {
    if s != [] && (s[0] == '-' || s[0] == '+') then s[1..] else s
  }

  /** What atoi returns: blanks, a sign, digits, anything; the value modulo the word size. */
  function AtoiValue(s: string): int
  {
    var t := SkipBlanks(s);
    var n := Number(DigitRun(Unsigned(t)), 10);
    Signed(if t != [] && t[0] == '-' then 0 - n else n)
  }

  lemma {:induction false} SkipIs(s: string, i: nat)
    requires i <= |s| && forall k :: 0 <= k < i ==> Blank(s[k])
    ensures SkipBlanks(s) == SkipBlanks(s[i..])
    decreases i
  {
    ReadDefs(s);
    if i > 0 {
      SkipIs(s[1..], i - 1);
      assert s[1..][i - 1..] == s[i..];
    } else {
      assert s[0..] == s;
    }
  }

  lemma {:induction false} RunIs(s: string, i: nat)
    requires i <= |s| && (forall k :: 0 <= k < i ==> IsDigit(s[k])) && (i < |s| ==> !IsDigit(s[i]))
    ensures DigitRun(s) == s[..i]
    decreases i
  {
    ReadDefs(s);
    if i > 0 {
      RunIs(s[1..], i - 1);
      assert [s[0]] + s[1..][..i - 1] == s[..i];
    }
  }

  /** atoi, with its accumulator in 32-bit unsigned arithmetic. */
  method Atoi(s: string) returns (r: int)
    ensures r == AtoiValue(s)
  {
    var i := 0;
    while i < |s| && Blank(s[i])
      invariant i <= |s| && forall k :: 0 <= k < i ==> Blank(s[k])
    {
      i := i + 1;
    }
    SkipIs(s, i);
    ghost var t := s[i..];
    ReadDefs(t);
    assert SkipBlanks(t) == t;
    var neg := false;
    if i < |s| && s[i] == '-' {
      neg := true;
      i := i + 1;
    } else if i < |s| && s[i] == '+' {
      i := i + 1;
    }
    ghost var u := s[i..];
    assert u == Unsigned(t);
    var val := Accumulate(u, s, i);
    var x: int := val;
    if neg { x := -x; }
    r := Signed(x);
    Wraps(Number(DigitRun(u), 10));
  }

  /** The digit loop of atoi, from index i of s. */
  method Accumulate(ghost u: string, s: string, i: nat) returns (val: nat)
    requires i <= |s| && u == s[i..]
    ensures val == Number(DigitRun(u), 10) % WORD
  {
    val := 0;
    var j := i;
    ghost var n := 0;
    NumberEmpty(10);
    while j < |s| && IsDigit(s[j])
      invariant i <= j <= |s| && (forall k :: i <= k < j ==> IsDigit(s[k]))
      invariant n == Number(s[i..j], 10) && val == n % WORD
    {
      assert s[i..j + 1] == s[i..j] + [s[j]];
      NumberSnoc(s[i..j], s[j], 10);
      StepWraps(n, DigitValue(s[j]));
      n, val := 10 * n + DigitValue(s[j]), (val * 10 + DigitValue(s[j])) % WORD;
      j := j + 1;
    }
    RunIs(u, j - i);
    assert u[..j - i] == s[i..j];
  }

  lemma StepWraps(n: nat, d: nat)
    ensures (n % WORD * 10 + d) % WORD == (10 * n + d) % WORD
  {}

  lemma Wraps(n: nat)
    ensures Signed(n % WORD) == Signed(n) && Signed(0 - n % WORD) == Signed(0 - n)
  {
    SignedShift(n % WORD, n / WORD);
    SignedShift(0 - n % WORD, 0 - n / WORD);
  }

  lemma SignedShift(x: int, k: int)
    ensures Signed(x + k * WORD) == Signed(x)
  {
    var y := x + WORD / 2;
    assert y == y / WORD * WORD + y % WORD;
  }

  // ----- Fields

  function Fill(c: char, n: nat): (s: string)
    ensures |s| == n && forall i :: 0 <= i < n ==> s[i] == c
  {
    seq(n, _ => c)
  }

  /** The padding a text of this length needs. */
  function Pad(width: int, len: nat): nat
  {
    if width > len then width - len else 0
  }

  /** A field: spaces go in front of the prefix, zeros behind it, and padding on the right
      behind everything. */
  function Field(width: int, left: bool, fill: char, prefix: string, text: string): string
  {
    var pad := Fill(fill, Pad(width, |prefix| + |text|));
    if left then prefix + text + pad else if fill == '0' then prefix + pad + text else pad + prefix + text
  }

  lemma FieldLength(width: int, left: bool, fill: char, prefix: string, text: string)
    ensures |Field(width, left, fill, prefix, text)| == if width > |prefix| + |text| then width else |prefix| + |text|
  {}

  /** Where printed text goes, and how much there has been. */
  class Output {
    var out: string
    var charcount: int

    /** __pf_fill */
    method Filled(c: char, n: nat)
      modifies this
      ensures out == old(out) + Fill(c, n) && charcount == old(charcount) + n
    {
      var i := 0;
      while i < n
        invariant i <= n && out == old(out) + Fill(c, i) && charcount == old(charcount) + i
      {
        out, charcount := out + [c], charcount + 1;
        i := i + 1;
        assert Fill(c, i) == Fill(c, i - 1) + [c];
      }
    }

    method Print(s: string)
      modifies this
      ensures out == old(out) + s && charcount == old(charcount) + |s|
    {
      out, charcount := out + s, charcount + |s|;
    }

    /** __pf_printstuff, with its two prefixes. */
    method PrintStuff(width: int, left: bool, fill: char, prefix: string, prefix2: string, text: string)
      modifies this
      ensures out == old(out) + Field(width, left, fill, prefix + prefix2, text)
      ensures charcount == old(charcount) + |Field(width, left, fill, prefix + prefix2, text)|
    {
      var len := |prefix| + |prefix2| + |text|;
      var spc := width;
      if spc > len { spc := spc - len; } else { spc := 0; }
      if spc > 0 && !left && fill != '0' { Filled(fill, spc); }
      Print(prefix);
      Print(prefix2);
      if spc > 0 && !left && fill == '0' { Filled(fill, spc); }
      Print(text);
      if spc > 0 && left { Filled(fill, spc); }
      FieldLength(width, left, fill, prefix + prefix2, text);
      Assembled(old(out), Fill(fill, spc), prefix, prefix2, text);
    }

    /** __pf_printnum: sign, base prefix and digits in one field. */
    method PrintNum(width: int, left: bool, fill: char, b: nat, baseprefix: bool, neg: bool, num: nat)
      requires num < LONG_WORD && IsBase(b)
      modifies this
      ensures out == old(out) +
              Field(width, left, fill, (if neg then "-" else "") + BasePrefix(b, baseprefix), Digits(num, b))
      ensures charcount - old(charcount) == |out| - |old(out)|
    {
      var buf, x := Convert(num, b);
      var text := buf[x..BUF_SIZE - 1];
      TextIs(buf[..], x, Digits(num, b));
      PrintStuff(width, left, fill, if neg then "-" else "", BasePrefix(b, baseprefix), text);
    }
  }

  function BasePrefix(b: nat, wanted: bool): string
  {
    if wanted && b == 16 then "0x" else if wanted && b == 8 then "0" else ""
  }

  lemma TextIs(buf: seq<char>, x: nat, text: string)
    requires TextAt(buf, x, text)
    ensures buf[x..BUF_SIZE - 1] == text
  {
    assert buf[x..BUF_SIZE - 1] == buf[x..][..BUF_SIZE - 1 - x];
  }

  lemma Assembled(o: string, pad: string, p: string, q: string, t: string)
    ensures o + pad + p + q + t == o + (pad + (p + q) + t)
    ensures o + p + q + pad + t == o + ((p + q) + pad + t)
    ensures o + p + q + t + pad == o + ((p + q) + t + pad)
    ensures pad == [] ==> o + p + q + t == o + (pad + (p + q) + t) == o + ((p + q) + pad + t) == o + ((p + q) + t + pad)
  {}

  // ----- snprintf

  /** The buffer holds as much of the text as fits. */
  ghost predicate Stored(buf: seq<char>, buflen: nat, pos: nat, text: string)
  {
    && buflen <= |buf| && pos == (if |text| < buflen then |text| else buflen)
    && buf[..pos] == text[..pos]
  }

  /** __snprintf_send: what fits of the text so far becomes what fits of the text with data. */
  method SnprintfSend(buf: array<char>, buflen: nat, pos: nat, data: string, ghost text: string) returns (pos': nat)
    requires Stored(buf[..], buflen, pos, text)
    modifies buf
    ensures Stored(buf[..], buflen, pos', text + data)
    ensures forall i :: pos' <= i < buf.Length ==> buf[i] == old(buf[i])
  {
    pos' := pos;
    var i := 0;
    assert text + data[..0] == text;
    while i < |data|
      invariant i <= |data| && Stored(buf[..], buflen, pos', text + data[..i]) && pos <= pos'
      invariant forall k :: pos' <= k < buf.Length ==> buf[k] == old(buf[k])
    {
      StoreOne(buf[..], buflen, pos', text + data[..i], data[i]);
      assert data[..i + 1] == data[..i] + [data[i]] && text + data[..i + 1] == text + data[..i] + [data[i]];
      if pos' < buflen {
        ghost var was := buf[..];
        buf[pos'] := data[i];
        assert buf[..] == was[pos' := data[i]];
        pos' := pos' + 1;
      }
      i := i + 1;
    }
    assert data[..i] == data;
  }

  lemma StoreOne(buf: seq<char>, buflen: nat, pos: nat, text: string, c: char)
    requires Stored(buf, buflen, pos, text)
    ensures pos < buflen ==> Stored(buf[pos := c], buflen, pos + 1, text + [c])
    ensures pos == buflen ==> Stored(buf, buflen, pos, text + [c])
  {
    if pos < buflen {
      assert buf[pos := c][..pos + 1] == buf[..pos] + [c] && (text + [c])[..pos + 1] == text[..pos] + [c];
    } else {
      assert (text + [c])[..pos] == text[..pos];
    }
  }

  function Concat(chunks: seq<string>): string
  {
    if chunks == [] then "" else Concat(chunks[..|chunks| - 1]) + chunks[|chunks| - 1]
  }

  /** vsnprintf, given the pieces __vprintf sends: the buffer gets the longest part that
      leaves room for the terminator, and the result is the full length. */
  method Vsnprintf(buf: array<char>, len: nat, chunks: seq<string>) returns (chars: nat)
    requires len <= buf.Length
    modifies buf
    ensures chars == |Concat(chunks)|
    ensures len > 0 ==>
              var k := if chars < len - 1 then chars else len - 1;
              && buf[..k] == Concat(chunks)[..k] && buf[k] == '\0'
              && forall i :: k < i < buf.Length ==> buf[i] == old(buf[i])
    ensures len == 0 ==> buf[..] == old(buf[..])
  {
    var buflen := if len == 0 then 0 else len - 1;
    var pos: nat := 0;
    chars := 0;
    var i := 0;
    assert chunks[..0] == [];
    while i < |chunks|
      invariant i <= |chunks| && Stored(buf[..], buflen, pos, Concat(chunks[..i])) && chars == |Concat(chunks[..i])|
      invariant forall k :: pos <= k < buf.Length ==> buf[k] == old(buf[k])
    {
      assert chunks[..i + 1][..i] == chunks[..i];
      pos := SnprintfSend(buf, buflen, pos, chunks[i], Concat(chunks[..i]));
      chars := chars + |chunks[i]|;
      i := i + 1;
    }
    assert chunks[..i] == chunks;
    if len > 0 {
      ghost var was := buf[..];
      buf[pos] := '\0';
      assert buf[..pos] == was[..pos];
    }
  }

  // ----- %d and back

  datatype Size = IntSize | LongSize | LongLongSize | SizeTSize

  /** The part of the PF record that modifiers set. */
  datatype Flags = Flags(size: Size, spacing: int, left: bool, fill: char, alt: bool)

  const CLEAN := Flags(IntSize, 0, false, ' ', false)

  predicate IsModifier(c: char)
  {
    c == '#' || c == '-' || c == 'l' || c == 'z' || IsDigit(c)
  }

  /** __pf_modifier */
  function Modifier(f: Flags, c: char): Flags
    requires IsModifier(c)
  {
    if c == '#' then f.(alt := true)
    else if c == '-' then f.(left := true)
    else if c == 'l' then f.(size := if f.size.LongSize? then LongLongSize else LongSize)
    else if c == 'z' then f.(size := SizeTSize)
    else if c == '0' then (if f.spacing > 0 then f.(spacing := f.spacing * 10) else f.(fill := '0'))
    else f.(spacing := f.spacing * 10 + DigitValue(c))
  }

  function Modifiers(f: Flags, s: string): Flags
    requires forall i :: 0 <= i < |s| ==> IsModifier(s[i])
  {
    if s == [] then f else Modifier(Modifiers(f, s[..|s| - 1]), s[|s| - 1])
  }

  lemma {:induction false} DecimalsModify(w: nat)
    ensures forall i :: 0 <= i < |Digits(w, 10)| ==> IsModifier(Digits(w, 10)[i]) && IsDigit(Digits(w, 10)[i])
    decreases w
  {
    DigitRound(ModBase(w, 10));
    if w >= 10 { DecimalsModify(DivBase(w, 10)); }
  }

  /** A decimal number among the modifiers is read as the field width it says, wherever its
      zeros are. */
  lemma {:induction false} WidthRead(f: Flags, w: nat)
    requires f.spacing == 0 && w > 0
    ensures forall i :: 0 <= i < |Digits(w, 10)| ==> IsModifier(Digits(w, 10)[i])
    ensures Modifiers(f, Digits(w, 10)) == f.(spacing := w)
    decreases w
  {
    DecimalsModify(w);
    DigitRound(ModBase(w, 10));
    var s := Digits(w, 10);
    if w < 10 {
      assert s[..0] == [];
    } else {
      WidthRead(f, DivBase(w, 10));
      assert s[..|s| - 1] == Digits(DivBase(w, 10), 10);
      DivModBase(w, 10);
    }
  }

  lemma {:induction false} FillIs(f: Flags, s: string)
    requires (f.fill == ' ' || f.fill == '0') && forall i :: 0 <= i < |s| ==> IsModifier(s[i])
    ensures var g := Modifiers(f, s); g.fill == ' ' || g.fill == '0'
    decreases |s|
  {
    if s != [] { FillIs(f, s[..|s| - 1]); }
  }

  function Magnitude(v: int): nat
  {
    if v < 0 then -v else v
  }

  function Sign(v: int): string
  {
    if v < 0 then "-" else ""
  }

  /** What %d prints for v with these flags. */
  function Printed(f: Flags, v: int): string
  {
    Field(f.spacing, f.left, f.fill, Sign(v), Digits(Magnitude(v), 10))
  }

  predicate IsInt(v: int)
  {
    -0x8000_0000 <= v < 0x8000_0000
  }

  // Strings of digits

  ghost predicate AllDigits(s: string)
  {
    forall i :: 0 <= i < |s| ==> IsDigit(s[i])
  }

  lemma Decimal(n: nat)
    ensures AllDigits(Digits(n, 10)) && Number(Digits(n, 10), 10) == n
  {
    DecimalsModify(n);
    DigitsRound(n, 10);
  }

  lemma {:induction false} LeadingZeros(k: nat, s: string)
    ensures Number(Fill('0', k) + s, 10) == Number(s, 10)
    decreases |s|, k
  {
    var t := Fill('0', k) + s;
    if s != [] {
      var n := |s| - 1;
      LeadingZeros(k, s[..n]);
      assert t == (Fill('0', k) + s[..n]) + [s[n]] && s == s[..n] + [s[n]];
      NumberSnoc(Fill('0', k) + s[..n], s[n], 10);
      NumberSnoc(s[..n], s[n], 10);
    } else if k > 0 {
      LeadingZeros(k - 1, s);
      assert t == Fill('0', k - 1) + s + ['0'];
      NumberSnoc(Fill('0', k - 1) + s, '0', 10);
    }
  }

  /** n with k zeros behind it. */
  function Shifted(n: nat, k: nat): nat
  {
    if k == 0 then n else 10 * Shifted(n, k - 1)
  }

  lemma {:induction false} TrailingZeros(s: string, k: nat)
    ensures Number(s + Fill('0', k), 10) == Shifted(Number(s, 10), k)
    decreases k
  {
    if k == 0 {
      assert s + Fill('0', 0) == s;
    } else {
      TrailingZeros(s, k - 1);
      assert s + Fill('0', k) == (s + Fill('0', k - 1)) + ['0'];
      NumberSnoc(s + Fill('0', k - 1), '0', 10);
    }
  }

  // Reading

  lemma Skips(blanks: string, t: string)
    requires forall i :: 0 <= i < |blanks| ==> blanks[i] == ' ' || blanks[i] == '\t'
    requires t == [] || (t[0] != ' ' && t[0] != '\t')
    ensures SkipBlanks(blanks + t) == t
  {
    var s := blanks + t;
    SkipIs(s, |blanks|);
    assert s[|blanks|..] == t;
    ReadDefs(t);
  }

  lemma RunStops(digits: string, rest: string)
    requires AllDigits(digits) && (rest == [] || !IsDigit(rest[0]))
    ensures DigitRun(digits + rest) == digits
  {
    RunIs(digits + rest, |digits|);
    assert (digits + rest)[..|digits|] == digits;
  }

  function Negated(v: int, n: nat): int
  {
    if v < 0 then 0 - n else n
  }

  /** What atoi reads, whatever it is given: blanks and tabs, a sign, and the digits up to the
      first other character. */
  lemma AtoiIs(blanks: string, sign: string, digits: string, rest: string)
    requires forall i :: 0 <= i < |blanks| ==> blanks[i] == ' ' || blanks[i] == '\t'
    requires (sign == "" || sign == "-" || sign == "+") && AllDigits(digits)
    requires rest == "" || !IsDigit(rest[0])
    requires sign == "" && digits == "" && rest != "" ==> rest[0] !in " \t-+"
    ensures AtoiValue(blanks + (sign + (digits + rest))) ==
            Signed(if sign == "-" then 0 - Number(digits, 10) else Number(digits, 10))
  {
    var u := digits + rest;
    var t := sign + u;
    SignRead(sign, digits, rest, u, t);
    Skips(blanks, t);
    RunStops(digits, rest);
  }

  lemma SignRead(sign: string, digits: string, rest: string, u: string, t: string)
    requires (sign == "" || sign == "-" || sign == "+") && AllDigits(digits) && u == digits + rest && t == sign + u
    requires sign == "" && digits == "" && rest != "" ==> rest[0] !in " \t-+"
    ensures Unsigned(t) == u && (t != [] && t[0] == '-' <==> sign == "-")
    ensures t == [] || (t[0] != ' ' && t[0] != '\t')
  {
    if sign != "" {
      assert t[0] == sign[0] && t[1..] == u;
    } else {
      assert t == u;
      if digits != "" {
        assert u[0] == digits[0];
      } else {
        assert u == rest;
      }
    }
  }

  lemma AtoiReads(v: int, k: nat, digits: string, rest: string)
    requires AllDigits(digits) && digits != [] && (rest == [] || !IsDigit(rest[0]))
    ensures AtoiValue(Fill(' ', k) + (Sign(v) + (digits + rest))) == Signed(Negated(v, Number(digits, 10)))
  {
    AtoiIs(Fill(' ', k), Sign(v), digits, rest);
  }

  lemma SignedInt(v: int)
    requires IsInt(v)
    ensures Signed(v) == v
  {}

  // Zeros behind a number change it

  function TwoTo(j: nat): nat
  {
    if j == 0 then 1 else 2 * TwoTo(j - 1)
  }

  /** x is divisible by two j times over. */
  predicate Halves(x: int, j: nat)
    decreases j
  {
    j == 0 || (x % 2 == 0 && Halves(x / 2, j - 1))
  }

  lemma {:induction false} HalvesWhen(x: int, j: nat, q: int, p: nat)
    requires p == TwoTo(j) && x == q * p
    ensures Halves(x, j)
    decreases j
  {
    if j > 0 {
      var h := TwoTo(j - 1);
      assert x == 2 * (q * h);
      HalvesWhen(x / 2, j - 1, q, h);
    }
  }

  lemma {:induction false} HalvesSmall(n: nat, j: nat)
    requires Halves(n, j) && n < TwoTo(j)
    ensures n == 0
    decreases j
  {
    if j > 0 { HalvesSmall(n / 2, j - 1); }
  }

  lemma {:induction false} ShiftedHalf(n: nat, k: nat)
    requires n % 2 == 0
    ensures Shifted(n, k) == 2 * Shifted(n / 2, k)
    decreases k
  {
    if k > 0 { ShiftedHalf(n, k - 1); }
  }

  lemma {:induction false} ShiftedDiffers(n: nat, k: nat, j: nat)
    requires k > 0 && Halves(Shifted(n, k) - n, j)
    ensures Halves(n, j)
    decreases j
  {
    if j > 0 {
      assert Shifted(n, k) == 10 * Shifted(n, k - 1);
      ShiftedHalf(n, k);
      ShiftedDiffers(n / 2, k, j - 1);
    }
  }

  lemma WordIs()
    ensures TwoTo(32) == WORD
  {
    assert TwoTo(8) == 256;
    assert TwoTo(16) == 256 * TwoTo(8) by { assert TwoTo(12) == 16 * TwoTo(8); }
    assert TwoTo(24) == 256 * TwoTo(16) by { assert TwoTo(20) == 16 * TwoTo(16); }
    assert TwoTo(32) == 256 * TwoTo(24) by { assert TwoTo(28) == 16 * TwoTo(24); }
  }

  /** Taken modulo the word size, a number with zeros behind it is the number only if it is 0. */
  lemma ZerosMatter(v: int, k: nat)
    requires IsInt(v) && k > 0
    ensures Signed(Negated(v, Shifted(Magnitude(v), k))) == v <==> v == 0
  {
    var n := Magnitude(v);
    var m := Shifted(n, k);
    if Signed(Negated(v, m)) == v {
      var q := Multiple(v, m);
      WordIs();
      HalvesWhen(m - n, 32, q, WORD);
      ShiftedDiffers(n, k, 32);
      HalvesSmall(n, 32);
    }
    if v == 0 { ShiftedZero(k); }
  }

  lemma Multiple(v: int, m: nat) returns (q: int)
    requires IsInt(v) && Signed(Negated(v, m)) == v
    ensures m - Magnitude(v) == q * WORD
  {
    if v >= 0 { q := (m + WORD / 2) / WORD; } else { q := 0 - (WORD / 2 - m) / WORD; }
  }

  lemma {:induction false} ShiftedZero(k: nat)
    ensures Shifted(0, k) == 0
  {
    if k > 0 { ShiftedZero(k - 1); }
  }

  /** A number other than 0 with zeros behind it. */
  predicate Garbled(f: Flags, v: int)
  {
    f.left && f.fill == '0' && f.spacing > |Sign(v)| + |Digits(Magnitude(v), 10)| && v != 0
  }

  lemma SpacesBehind(v: int, digits: string, pad: nat)
    requires IsInt(v) && AllDigits(digits) && digits != [] && Number(digits, 10) == Magnitude(v)
    ensures AtoiValue(Sign(v) + digits + Fill(' ', pad)) == v
  {
    SignedInt(v);
    AtoiReads(v, 0, digits, Fill(' ', pad));
    assert Sign(v) + digits + Fill(' ', pad) == Fill(' ', 0) + (Sign(v) + (digits + Fill(' ', pad)));
  }

  lemma ZerosBehind(v: int, digits: string, pad: nat)
    requires IsInt(v) && AllDigits(digits) && digits != [] && Number(digits, 10) == Magnitude(v)
    ensures AtoiValue(Sign(v) + digits + Fill('0', pad)) == v <==> pad == 0 || v == 0
  {
    SignedInt(v);
    var longer := digits + Fill('0', pad);
    AtoiReads(v, 0, longer, []);
    assert Sign(v) + digits + Fill('0', pad) == Fill(' ', 0) + (Sign(v) + (longer + []));
    TrailingZeros(digits, pad);
    if pad > 0 { ZerosMatter(v, pad); }
  }

  lemma SpacesBefore(v: int, digits: string, pad: nat)
    requires IsInt(v) && AllDigits(digits) && digits != [] && Number(digits, 10) == Magnitude(v)
    ensures AtoiValue(Fill(' ', pad) + Sign(v) + digits) == v
  {
    SignedInt(v);
    AtoiReads(v, pad, digits, []);
    assert Fill(' ', pad) + Sign(v) + digits == Fill(' ', pad) + (Sign(v) + (digits + []));
  }

  lemma ZerosBefore(v: int, digits: string, pad: nat)
    requires IsInt(v) && AllDigits(digits) && digits != [] && Number(digits, 10) == Magnitude(v)
    ensures AtoiValue(Sign(v) + Fill('0', pad) + digits) == v
  {
    SignedInt(v);
    var longer := Fill('0', pad) + digits;
    AtoiReads(v, 0, longer, []);
    assert Sign(v) + Fill('0', pad) + digits == Fill(' ', 0) + (Sign(v) + (longer + []));
    LeadingZeros(pad, digits);
  }

  lemma FieldReads(f: Flags, v: int)
    requires IsInt(v) && (f.fill == ' ' || f.fill == '0')
    ensures AtoiValue(Printed(f, v)) == v <==> !Garbled(f, v)
  {
    var digits := Digits(Magnitude(v), 10);
    var pad := Pad(f.spacing, |Sign(v)| + |digits|);
    Decimal(Magnitude(v));
    if f.left {
      if f.fill == ' ' { SpacesBehind(v, digits, pad); } else { ZerosBehind(v, digits, pad); }
    } else {
      if f.fill == ' ' { SpacesBefore(v, digits, pad); } else { ZerosBefore(v, digits, pad); }
    }
  }

  /** Printing an int with %d and any modifiers, and reading it with atoi, gives the int back,
      except exactly when a number other than 0 is padded on the right with zeros. */
  lemma RoundTrip(modifiers: string, v: int)
    requires IsInt(v) && forall i :: 0 <= i < |modifiers| ==> IsModifier(modifiers[i])
    ensures var f := Modifiers(CLEAN, modifiers); AtoiValue(Printed(f, v)) == v <==> !Garbled(f, v)
  {
    FillIs(CLEAN, modifiers);
    FieldReads(Modifiers(CLEAN, modifiers), v);
  }

  /** For example %-03d of 5. */
  lemma RoundTripFails()
    ensures var f := Modifiers(CLEAN, "-03"); AtoiValue(Printed(f, 5)) != 5
  {
    var m := "-03";
    assert m[..2] == "-0" && "-0"[..1] == "-" && "-"[..0] == "";
    assert Modifiers(CLEAN, "-0") == Modifier(Modifiers(CLEAN, "-"), '0');
    RoundTrip(m, 5);
  }

  /** The text that %d sends with these flags. */
  method PrintInt(f: Flags, v: int) returns (text: string)
    requires IsInt(v)
    ensures text == Printed(f, v)
  {
    var o := new Output;
    o.out, o.charcount := "", 0;
    o.PrintNum(f.spacing, f.left, f.fill, 10, f.alt, v < 0, Magnitude(v));
    ghost var prefix := Sign(v) + BasePrefix(10, f.alt);
    assert prefix == Sign(v);
    assert o.out == "" + Field(f.spacing, f.left, f.fill, prefix, Digits(Magnitude(v), 10));
    text := o.out;
  }

  /** snprintf of one piece of text, and atoi of the buffer up to its terminator. */
  method PutAndRead(text: string, buf: array<char>, len: nat) returns (chars: nat, r: int)
    requires 0 < len <= buf.Length
    modifies buf
    ensures chars == |text| && r == AtoiValue(if |text| < len then text else text[..len - 1])
  {
    chars := Vsnprintf(buf, len, [text]);
    assert Concat([text]) == text;
    var k := if chars < len then chars else len - 1;
    assert chars < len ==> text[..k] == text;
    r := Atoi(buf[..k]);
  }

  /** All of it together: snprintf of an int with %d and any modifiers into a buffer, and atoi
      of the buffer. When the text fits, the int comes back or not just as RoundTrip says. */
  method PrintAndRead(modifiers: string, v: int, buf: array<char>, len: nat) returns (chars: nat, r: int)
    requires IsInt(v) && (forall i :: 0 <= i < |modifiers| ==> IsModifier(modifiers[i])) && 0 < len <= buf.Length
    modifies buf
    ensures var f := Modifiers(CLEAN, modifiers);
            && chars == |Printed(f, v)|
            && (chars < len ==> (r == v <==> !Garbled(f, v)))
            && (chars >= len ==> r == AtoiValue(Printed(f, v)[..len - 1]))
  {
    var text := PrintInt(Modifiers(CLEAN, modifiers), v);
    chars, r := PutAndRead(text, buf, len);
    RoundTrip(modifiers, v);
  }
}
