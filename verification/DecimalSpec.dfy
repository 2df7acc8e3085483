/** Decimal text of numbers, 32-bit wraparound, and what _doprnt's %d and %u and atoi make of them. */
module DecimalSpec {

  type Byte = x: int | 0 <= x < 256

  type Bytes = seq<Byte>

  const ZERO: Byte := 48
  const NINE: Byte := 57
  const MINUS: Byte := 45
  const PLUS: Byte := 43
  const BLANK: Byte := 32
  const TAB: Byte := 9
  const TWO31 := 0x8000_0000
  const TWO32 := 0x1_0000_0000
  const BILLION := 1_000_000_000

  type int32 = x: int | -0x8000_0000 <= x < 0x8000_0000

  // ---- C arithmetic ----

  /** Division and remainder that truncate toward zero. */
  function CDiv(a: int, b: int): (q: int)
    requires b != 0
  {
    if a >= 0 then a / b else -(-a / b)
  }

  function CMod(a: int, b: int): (r: int)
    requires b > 0
  {
    if a >= 0 then a % b else -(-a % b)
  }

  function Abs(a: int): (r: nat) { if a < 0 then -a else a }

  /** Two's-complement wraparound to 32 bits. */
  function Wrap(a: int): (r: int32) { (a + TWO31) % TWO32 - TWO31 }

  lemma WrapIs(a: int) returns (k: int)
    ensures a == Wrap(a) + TWO32 * k
  {
    k := (a + TWO31) / TWO32;
  }

  lemma WrapShift(a: int, k: int)
    ensures Wrap(a + TWO32 * k) == Wrap(a)
  {
    var j := WrapIs(a);
    var i := WrapIs(a + TWO32 * k);
    assert Wrap(a + TWO32 * k) - Wrap(a) == TWO32 * (k + j - i);
  }

  /** Wrapping after each of the operations of n * 10 + c - '0' or only at the end is the same. */
  lemma WrapStep(n: int, c: int)
    ensures Wrap(Wrap(Wrap(Wrap(n) * 10) + c) - ZERO) == Wrap(n * 10 + c - ZERO)
  {
    var j := WrapIs(n);
    var k := WrapIs(Wrap(n) * 10);
    var l := WrapIs(Wrap(Wrap(n) * 10) + c);
    WrapShift(Wrap(Wrap(Wrap(n) * 10) + c) - ZERO, l + k + 10 * j);
  }

  /** The unsigned value of a 32-bit word. */
  function Unsigned(a: int32): (r: nat) { if a < 0 then a + TWO32 else a }

  // ---- decimal text ----

  predicate IsDigit(c: Byte) { ZERO <= c <= NINE }

  ghost predicate AllDigits(t: Bytes) { forall i :: 0 <= i < |t| ==> IsDigit(t[i]) }

  /** The number a string of digits stands for. */
  function Value(t: Bytes): (n: int) {
    if t == [] then 0 else Value(t[..|t| - 1]) * 10 + t[|t| - 1] - ZERO
  }

  function Digits(n: nat): (t: Bytes)
    ensures t != []
  {
    if n < 10 then [n + 48] else Digits(n / 10) + [n % 10 + 48]
  }

  /** Digits without superfluous zeros in front. */
  ghost predicate Canonical(t: Bytes) { t != [] && AllDigits(t) && (|t| > 1 ==> t[0] != ZERO) }

  lemma {:induction false} ValueNonNegative(t: Bytes)
    requires AllDigits(t)
    ensures Value(t) >= 0
    ensures t != [] && t[0] != ZERO ==> Value(t) >= 1
  {
    if t != [] { ValueNonNegative(t[..|t| - 1]); }
  }

  /** Digits(n) is the one text without superfluous zeros that stands for n. */
  lemma {:induction false} DigitsUnique(t: Bytes, n: nat)
    ensures Canonical(t) && Value(t) == n <==> t == Digits(n)
    decreases n, |t|
  {
    DigitsAre(n);
    if Canonical(t) && Value(t) == n {
      var u, d := t[..|t| - 1], t[|t| - 1] - ZERO;
      assert IsDigit(t[|t| - 1]) && t == u + [t[|t| - 1]];
      if u != [] {
        ValueNonNegative(u);
        assert n / 10 == Value(u) && n % 10 == d;
        assert Canonical(u);
        DigitsUnique(u, n / 10);
      }
    }
  }

  lemma {:induction false} DigitsAre(n: nat)
    ensures Canonical(Digits(n)) && Value(Digits(n)) == n
    ensures n > 0 ==> Digits(n)[0] != ZERO
  {
    if n >= 10 {
      DigitsAre(n / 10);
      var u := Digits(n / 10);
      assert (u + [n % 10 + 48])[..|u|] == u;
    } else {
      assert Digits(n)[..0] == [];
    }
  }

  /** %d: the sign, then the digits. */
  function Signed(x: int): (t: Bytes) { if x < 0 then [MINUS] + Digits(-x) else Digits(x) }

  // ---- _prtl10: ten digits, then without the zeros in front ----

  function Pow10(k: nat): (r: nat)
    ensures r >= 1
  {
    if k == 0 then 1 else 10 * Pow10(k - 1)
  }

  /** The last k decimal digits. */
  function Fixed(n: nat, k: nat): (t: Bytes)
    ensures |t| == k
    decreases k
  {
    if k == 0 then [] else Fixed(n / 10, k - 1) + [n % 10 + 48]
  }

  function Zeros(k: nat): (t: Bytes)
    ensures |t| == k && forall i :: 0 <= i < k ==> t[i] == ZERO
  {
    seq(k, _ => ZERO)
  }

  lemma {:induction false} FixedIs(n: nat, k: nat)
    requires k >= 1 && n < Pow10(k)
    ensures |Digits(n)| <= k && Fixed(n, k) == Zeros(k - |Digits(n)|) + Digits(n)
    decreases k
  {
    if k > 1 {
      if n < 10 {
        FixedIs(0, k - 1);
        assert Zeros(k - 1) == Zeros(k - 2) + [ZERO];
      } else {
        FixedIs(n / 10, k - 1);
      }
    } else {
      assert Fixed(n / 10, 0) == [] && Zeros(0) == [];
    }
  }

  lemma Pow10Ten()
    ensures Pow10(10) == 10 * BILLION && Pow10(9) == BILLION
  {
    assert Pow10(3) == 1000 && Pow10(6) == 1000 * Pow10(3) && Pow10(9) == 1000 * Pow10(6);
  }

  // ---- %u: adding to the leading digit ----

  /** Adding k at the leading place adds k to the first digit. */
  lemma {:induction false} AddLead(v: nat, k: nat, e: nat)
    requires Pow10(e) <= v && v + k * Pow10(e) < Pow10(e + 1)
    ensures Digits(v)[0] + k <= NINE && Digits(v + k * Pow10(e)) == Digits(v)[0 := Digits(v)[0] + k]
    decreases e
  {
    if e == 0 {
      assert k * Pow10(0) == k;
    } else {
      var x := k * Pow10(e - 1);
      assert k * Pow10(e) == 10 * x;
      AddLead(v / 10, k, e - 1);
      assert (v + 10 * x) / 10 == v / 10 + x && (v + 10 * x) % 10 == v % 10;
    }
  }

  // ---- atoi ----

  /** The character at p, or the NUL that ends the string. */
  function At(s: Bytes, p: nat): (c: Byte) { if p < |s| then s[p] else 0 }

  /** Where the first character that is neither a blank nor a tab is. */
  function SkipBlanks(s: Bytes, p: nat): (r: nat)
    ensures r >= p && At(s, r) != BLANK && At(s, r) != TAB
    decreases |s| - p
  {
    if At(s, p) == BLANK || At(s, p) == TAB then SkipBlanks(s, p + 1) else p
  }

  /** The digits from p on. */
  function DigitRun(s: Bytes, p: nat): (t: Bytes)
    decreases |s| - p
  {
    if IsDigit(At(s, p)) then [At(s, p)] + DigitRun(s, p + 1) else []
  }

  function Atoi(s: Bytes): (r: int32) {
    var p := SkipBlanks(s, 0);
    var signed := At(s, p) == MINUS || At(s, p) == PLUS;
    var v := Value(DigitRun(s, if signed then p + 1 else p));
    var n: int := Wrap(v);
    if At(s, p) == MINUS then Wrap(-n) else n
  }

  lemma {:induction false} RunOfDigits(s: Bytes, p: nat)
    requires p <= |s| && AllDigits(s[p..])
    ensures DigitRun(s, p) == s[p..]
    decreases |s| - p
  {
    if p < |s| {
      assert s[p..][0] == s[p] && s[p + 1..] == s[p..][1..];
      RunOfDigits(s, p + 1);
    }
  }

  lemma AtoiOfDigits(n: nat)
    requires n < TWO31
    ensures Atoi(Digits(n)) == n
  {
    var t := Digits(n);
    DigitsAre(n);
    assert IsDigit(t[0]) && t[0..] == t && At(t, 0) == t[0] && SkipBlanks(t, 0) == 0;
    RunOfDigits(t, 0);
  }

  lemma ReadsMinus(t: Bytes, s: Bytes)
    requires AllDigits(t) && s == [MINUS] + t
    ensures SkipBlanks(s, 0) == 0 && At(s, 0) == MINUS && DigitRun(s, 1) == t
  {
    assert s[1..] == t;
    RunOfDigits(s, 1);
  }

  lemma WrapMinus(n: int)
    requires 0 <= n <= TWO31
    ensures var m: int := Wrap(n); Wrap(-m) == -n
  {}

  lemma AtoiMinusIs(t: Bytes, s: Bytes, v: int)
    requires AllDigits(t) && s == [MINUS] + t && v == Value(t)
    ensures var m: int := Wrap(v); Atoi(s) == Wrap(-m)
  {
    ReadsMinus(t, s);
  }

  lemma AtoiOfMinus(n: int)
    requires 0 <= n <= TWO31
    ensures Atoi([MINUS] + Digits(n)) == -n
  {
    DigitsAre(n);
    AtoiMinusIs(Digits(n), [MINUS] + Digits(n), n);
    WrapMinus(n);
  }

  /** atoi reads back what %d prints, for every 32-bit value, the most negative one included. */
  lemma AtoiOfSigned(x: int32)
    ensures Atoi(Signed(x)) == x
  {
    if x < 0 { AtoiOfMinus(-(x as int)); } else { AtoiOfDigits(x); }
  }

  predicate IsBlank(c: Byte) { c == BLANK || c == TAB }

  lemma {:induction false} SkipsTo(s: Bytes, p: nat, q: nat)
    requires p <= q <= |s| && (forall i :: p <= i < q ==> IsBlank(s[i])) && !IsBlank(At(s, q))
    ensures SkipBlanks(s, p) == q
    decreases q - p
  {
    if p < q { SkipsTo(s, p + 1, q); }
  }

  lemma {:induction false} RunIs(s: Bytes, p: nat, t: Bytes)
    requires p + |t| <= |s| && s[p..p + |t|] == t && AllDigits(t) && !IsDigit(At(s, p + |t|))
    ensures DigitRun(s, p) == t
    decreases |t|
  {
    if t != [] {
      assert s[p] == s[p..p + |t|][0] == t[0] && IsDigit(t[0]);
      assert s[p + 1..p + 1 + |t[1..]|] == s[p..p + |t|][1..];
      RunIs(s, p + 1, t[1..]);
    }
  }

  /** What atoi makes of any string: blanks and tabs, a sign or none, digits, and whatever follows them. */
  lemma AtoiReads(blanks: Bytes, sign: Bytes, t: Bytes, rest: Bytes)
    requires (forall i :: 0 <= i < |blanks| ==> IsBlank(blanks[i])) && (sign == [] || sign == [MINUS] || sign == [PLUS])
    requires AllDigits(t) && !IsDigit(At(rest, 0))
    requires sign == [] && t == [] ==> !IsBlank(At(rest, 0)) && At(rest, 0) != MINUS && At(rest, 0) != PLUS
    ensures var n: int := Wrap(Value(t));
      Atoi(blanks + sign + t + rest) == if sign == [MINUS] then Wrap(-n) else n
  {
    var s, b, p := blanks + sign + t + rest, |blanks|, |blanks + sign|;
    assert At(s, b) == if sign != [] then sign[0] else if t != [] then t[0] else At(rest, 0);
    assert t != [] ==> IsDigit(t[0]);
    SkipsTo(s, 0, b);
    assert s[p..p + |t|] == t && At(s, p + |t|) == At(rest, 0);
    RunIs(s, p, t);
  }

  lemma {:induction false} ValuePrefix(t: Bytes, i: nat)
    requires AllDigits(t) && i <= |t|
    ensures 0 <= Value(t[..i]) <= Value(t)
    decreases |t| - i
  {
    ValueNonNegative(t[..i]);
    if i < |t| {
      ValuePrefix(t, i + 1);
      assert t[..i + 1][..i] == t[..i] && IsDigit(t[i]);
    } else {
      assert t[..i] == t;
    }
  }

  /** The largest value atoi computes at the i-th digit: n * 10 + c, before '0' is taken off. */
  function SumAt(t: Bytes, i: nat): (n: int)
    requires i < |t|
  {
    Value(t[..i]) * 10 + t[i]
  }

  ghost predicate SumsFit(t: Bytes) { forall i :: 0 <= i < |t| ==> SumAt(t, i) < TWO31 }

  /** Reading a string of digits, no sum on the way leaves 32 bits if and only if the value is at least 48
      below the limit. */
  lemma SumsFitIff(t: Bytes)
    requires AllDigits(t) && t != []
    ensures SumsFit(t) <==> Value(t) + ZERO < TWO31
  {
    forall i | 0 <= i < |t| ensures SumAt(t, i) == Value(t[..i + 1]) + ZERO <= Value(t) + ZERO {
      assert t[..i + 1][..i] == t[..i];
      ValuePrefix(t, i + 1);
    }
    assert t[..|t|] == t && SumAt(t, |t| - 1) == Value(t) + ZERO;
  }

  /** So atoi reads back what %d printed without a sum out of range exactly up to 2147483599. */
  lemma AtoiNeverWrapsIff(x: int32)
    ensures SumsFit(Digits(Abs(x))) <==> Abs(x) + ZERO < TWO31
  {
    DigitsAre(Abs(x));
    SumsFitIff(Digits(Abs(x)));
  }

  /** Of the largest number the sum at the last digit is out of range, although the number is not. */
  lemma LargestWraps()
    ensures !SumsFit(Digits(0x7FFF_FFFF)) && Atoi(Signed(0x7FFF_FFFF)) == 0x7FFF_FFFF
  {
    AtoiNeverWrapsIff(0x7FFF_FFFF);
    AtoiOfSigned(0x7FFF_FFFF);
  }
}
