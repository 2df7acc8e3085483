/** The %d and %u conversions of _doprnt, without field widths, and atoi. */
module Decimal {
  import opened DecimalSpec

  /** The first digit and the quotient of _prtl10 are those of the absolute value, even where that
      itself has no 32-bit representation. */
  lemma FirstStep(num: int32)
    ensures (if num < 0 then -CMod(num, 10) else CMod(num, 10)) == Abs(num) % 10
    ensures CDiv(num, if num < 0 then -10 else 10) == Abs(num) / 10
  {}

  lemma LastDigit(n: nat, k: nat)
    requires k >= 1
    ensures Fixed(n, k)[k - 1] == n % 10 + 48 && Fixed(n, k)[..k - 1] == Fixed(n / 10, k - 1)
  {}

  /** temp[1..i] are the low digits of ten, last one first, and n is what the others stand for. */
  ghost predicate Filled(temp: seq<Byte>, ten: Bytes, i: nat, n: nat) {
    && |temp| == 11 && |ten| == 10 && 1 <= i <= 11 && temp[0] == 0
    && (forall m :: 1 <= m < i ==> temp[m] == ten[10 - m])
    && ten[..11 - i] == Fixed(n, 11 - i)
  }

  lemma FilledStep(temp: seq<Byte>, ten: Bytes, i: nat, n: nat, i': nat)
    requires Filled(temp, ten, i, n) && i <= 10 && i' == i + 1
    ensures Filled(temp[i := n % 10 + 48], ten, i', n / 10)
  {
    LastDigit(n, 11 - i);
    assert ten[..11 - i][10 - i] == ten[10 - i] && ten[..11 - i][..10 - i] == ten[..10 - i];
  }

  method PutDigit(temp: array<Byte>, i: nat, n: nat, ghost ten: Bytes) returns (i': nat, n': nat)
    requires temp.Length == 11 && Filled(temp[..], ten, i, n) && i <= 10
    modifies temp
    ensures i' == i + 1 && n' == n / 10 && Filled(temp[..], ten, i', n')
  {
    i', n' := i + 1, n / 10;
    FilledStep(temp[..], ten, i, n, i');
    temp[i] := n % 10 + 48;
  }

  /** _prtl10: the digits of the absolute value of num, and a NUL. */
  method Prtl10(num: int32, str: array<Byte>)
    requires str.Length >= 11
    modifies str
    ensures var t := Digits(Abs(num)); |t| <= 10 && str[..|t|] == t && str[|t|] == 0
  {
    var temp := new Byte[11](_ => 0);
    ghost var ten := Fixed(Abs(num), 10);
    FirstStep(num);
    assert ten[..10] == ten;
    var first: int := if num < 0 then -CMod(num, 10) else CMod(num, 10);
    FilledStep(temp[..], ten, 1, Abs(num), 2);
    temp[1] := first + 48;
    var n: nat, i := CDiv(num, if num < 0 then -10 else 10), 2;
    while i <= 10
      invariant i >= 2 && Filled(temp[..], ten, i, n)
    {
      i, n := PutDigit(temp, i, n, ten);
    }
    TenDigits(temp[..], num);
    CopyDigits(temp, str, Digits(Abs(num)));
  }

  lemma TenDigits(temp: seq<Byte>, num: int32)
    requires |temp| == 11 && forall m :: 1 <= m < 11 ==> temp[m] == Fixed(Abs(num), 10)[10 - m]
    ensures var t := Digits(Abs(num));
      Canonical(t) && |t| <= 10 && forall m :: 1 <= m <= 10 ==> temp[m] == if m <= |t| then t[|t| - m] else ZERO
  {
    Pow10Ten();
    FixedIs(Abs(num), 10);
    DigitsAre(Abs(num));
  }

  /** Pass over the zeros in front, and copy what is left, last digit last, with the NUL. */
  method CopyDigits(temp: array<Byte>, str: array<Byte>, ghost t: Bytes)
    requires temp.Length == 11 && str.Length >= 11 && temp != str && Canonical(t) && |t| <= 10 && temp[0] == 0
    requires forall m :: 1 <= m <= 10 ==> temp[m] == if m <= |t| then t[|t| - m] else ZERO
    modifies str
    ensures str[..|t|] == t && str[|t|] == 0
  {
    var i := 10;
    while temp[i] == ZERO
      invariant 0 <= i <= 10 && (t[0] == ZERO || i >= |t|)
      decreases i
    {
      i := i - 1;
    }
    if i == 0 {
      i := i + 1;
    }
    var p := 0;
    while i >= 0
      invariant -1 <= i <= |t| && p == |t| - i
      invariant forall j :: 0 <= j < p ==> str[j] == if j < |t| then t[j] else 0
    {
      str[p] := temp[i];
      p, i := p + 1, i - 1;
    }
  }

  /** The characters _doprnt puts out for str when no width is given. */
  method PutString(str: array<Byte>, sign: bool, ghost t: Bytes) returns (out: Bytes)
    requires |t| < str.Length && str[..|t|] == t && str[|t|] == 0 && 0 !in t
    ensures out == (if sign then [MINUS] else []) + t
  {
    var length := 0;
    assert forall k :: 0 <= k < |t| ==> str[k] == str[..|t|][k] == t[k] && t[k] in t;
    while str[length] != 0
      invariant 0 <= length <= |t|
      decreases |t| - length
    {
      length := length + 1;
    }
    out := if sign then [MINUS] else [];
    var i := 0;
    while i < length
      invariant 0 <= i <= length && out == (if sign then [MINUS] else []) + str[..i]
    {
      out := out + [str[i]];
      i := i + 1;
    }
  }

  method PrintD(larg: int32) returns (out: Bytes)
    ensures out == Signed(larg)
  {
    var text := new Byte[20](_ => 0);
    var sign := larg < 0;
    Prtl10(larg, text);
    DigitsAre(Abs(larg));
    out := PutString(text, sign, Digits(Abs(larg)));
  }

  /** %u takes billions off a value with the top bit set until it is positive, and adds their number to
      the first digit of what is left. */
  method PrintU(arg: int32) returns (out: Bytes)
    ensures out == Digits(Unsigned(arg))
  {
    var text := new Byte[20](_ => 0);
    var digit1, larg := TakeBillions(arg);
    Prtl10(larg, text);
    LeadDigit(arg, larg, digit1);
    ghost var u := Digits(Unsigned(arg));
    DigitsAre(Unsigned(arg));
    ghost var v := Digits(larg);
    assert text[..|v|][0] == v[0];
    text[0] := text[0] + digit1;
    assert text[..|v|] == u;
    out := PutString(text, false, u);
  }

  method TakeBillions(arg: int32) returns (digit1: nat, larg: int32)
    ensures larg >= 0 && larg + digit1 * BILLION == Unsigned(arg)
    ensures digit1 > 0 ==> larg >= BILLION
  {
    digit1, larg := 0, arg;
    while larg < 0
      invariant Unsigned(larg) + digit1 * BILLION == Unsigned(arg)
      invariant digit1 > 0 ==> Unsigned(larg) >= BILLION
      decreases Unsigned(larg)
    {
      BillionOff(larg);
      larg := Wrap(larg as int - BILLION);
      digit1 := digit1 + 1;
    }
  }

  lemma LeadDigit(arg: int32, larg: int32, digit1: nat)
    requires larg >= 0 && larg + digit1 * BILLION == Unsigned(arg) && (digit1 > 0 ==> larg >= BILLION)
    ensures var v := Digits(larg); v[0] + digit1 <= NINE && Digits(Unsigned(arg)) == v[0 := v[0] + digit1]
  {
    DigitsAre(larg);
    if digit1 > 0 {
      Pow10Ten();
      AddLead(larg, digit1, 9);
    }
  }

  lemma BillionOff(larg: int32)
    requires larg < 0
    ensures Unsigned(Wrap(larg as int - BILLION)) == Unsigned(larg) - BILLION >= BILLION
  {
    var k := WrapIs(larg as int - BILLION);
  }

  method AtoiLoop(p: Bytes) returns (r: int32)
    ensures r == Atoi(p)
  {
    var n: int32, f, i := 0, 0, 0;
    while At(p, i) == BLANK || At(p, i) == TAB
      invariant SkipBlanks(p, 0) == SkipBlanks(p, i)
      decreases |p| - i
    {
      i := i + 1;
    }
    if At(p, i) == MINUS {
      f := f + 1;
      i := i + 1;
    } else if At(p, i) == PLUS {
      i := i + 1;
    }
    ghost var run, done: Bytes := DigitRun(p, i), [];
    while ZERO <= At(p, i) <= NINE
      invariant run == done + DigitRun(p, i) && n == Wrap(Value(done))
      decreases |p| - i
    {
      var c := At(p, i);
      WrapStep(Value(done), c);
      assert (done + [c])[..|done|] == done;
      n := Wrap(Wrap(Wrap(n as int * 10) + c) - ZERO);
      done := done + [c];
      i := i + 1;
    }
    assert done == run;
    return if f != 0 then Wrap(-(n as int)) else n;
  }
}
