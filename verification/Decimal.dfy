/** Decimal text: `fmt.Sprintf("%d", n)` and `strconv.ParseInt(s, 10, 32)`. */
module Decimal {
  import opened GoInt
  import opened Wrappers

  predicate IsDigit(c: char) {
    '0' <= c <= '9'
  }

  function Digit(d: nat): (c: char)
    requires d < 10
    ensures IsDigit(c) && c as int - '0' as int == d
  {
    '0' + d as char
  }

  /** The decimal digits of a natural number. */
  function Digits(n: nat): (s: string)
    ensures s != [] && AllDigits(s)
  {
    if n < 10 then [Digit(n)] else Digits(n / 10) + [Digit(n % 10)]
  }

  /** `fmt.Sprintf("%d", n)`. */
  function Print(n: int): string {
    if n < 0 then "-" + Digits(-n) else Digits(n)
  }

  predicate AllDigits(s: string) {
    forall i :: 0 <= i < |s| ==> IsDigit(s[i])
  }

  /** The number a string of digits denotes. */
  function NumberOf(s: string): nat
    requires AllDigits(s)
  {
    if s == [] then 0
    else
      assert IsDigit(s[|s| - 1]);
      NumberOf(s[..|s| - 1]) * 10 + (s[|s| - 1] as int - '0' as int)
  }

  /** `strconv.ParseInt(s, 10, 32)`: an optional sign, at least one digit, and a value that fits. */
  function ParseInt32(s: string): Option<int> {
    var negative := s != "" && s[0] == '-';
    var digits := if s != "" && (s[0] == '-' || s[0] == '+') then s[1..] else s;
    if digits == "" || !AllDigits(digits) then None
    else
      var v := if negative then -(NumberOf(digits) as int) else NumberOf(digits);
      if INT32_MIN <= v <= INT32_MAX then Some(v) else None
  }

  lemma {:induction false} NumberOfDigits(n: nat)
    ensures NumberOf(Digits(n)) == n
  {
    var s := Digits(n);
    if n >= 10 {
      assert s[..|s| - 1] == Digits(n / 10);
      NumberOfDigits(n / 10);
    } else {
      assert s[..|s| - 1] == [];
    }
  }

  /** Printing is injective. */
  lemma DigitsInjective(m: nat, n: nat)
    requires Digits(m) == Digits(n)
    ensures m == n
  {
    NumberOfDigits(m);
    NumberOfDigits(n);
  }

  /** Parsing what was printed gives the number back, over the whole int32 range. */
  lemma ParsePrint(n: int)
    requires INT32_MIN <= n <= INT32_MAX
    ensures ParseInt32(Print(n)) == Some(n)
  {
    var s := Print(n);
    if n < 0 {
      assert s[1..] == Digits(-n);
      NumberOfDigits(-n);
    } else {
      assert IsDigit(s[0]);
      NumberOfDigits(n);
    }
  }

  predicate EndsInDigit(s: string) {
    s != "" && IsDigit(s[|s| - 1])
  }

  /** A name followed by an index splits in one way only, if the name does not end in a digit. */
  lemma NameIndexSplits(a: string, i: nat, b: string, j: nat)
    requires !EndsInDigit(a) && !EndsInDigit(b)
    requires a + Digits(i) == b + Digits(j)
    ensures a == b && i == j
  {
    if |a| > |b| {
      LongerEndsInDigit(a, i, b, j);
    } else if |a| < |b| {
      LongerEndsInDigit(b, j, a, i);
    } else {
      var s := a + Digits(i);
      assert a == s[..|a|] == b;
      assert Digits(i) == s[|a|..] == Digits(j);
      DigitsInjective(i, j);
    }
  }

  lemma LongerEndsInDigit(a: string, i: nat, b: string, j: nat)
    requires a + Digits(i) == b + Digits(j)
    requires |a| > |b|
    ensures EndsInDigit(a)
  {
    assert (a + Digits(i))[|a| - 1] == (b + Digits(j))[|a| - 1] == Digits(j)[|a| - 1 - |b|];
  }

  /** Without that condition it does not: zone "z1" with index 0 reads like zone "z" with index 10. */
  lemma NameIndexClash()
    ensures "z1" + Digits(0) == "z" + Digits(10)
  {
  }

  // ---- Which texts parse ----

  function Zeros(k: nat): string {
    seq(k, _ => '0')
  }

  /** An optional sign that fits, leading zeros, and the digits of the number's size. */
  ghost predicate Denotes(s: string, sign: string, k: nat, n: int) {
    && s == sign + Zeros(k) + Digits(if n < 0 then -n else n)
    && ((sign == "-" && n <= 0) || ((sign == "" || sign == "+") && n >= 0))
  }

  lemma {:induction false} ZerosAddNothing(k: nat, s: string)
    requires AllDigits(s)
    ensures AllDigits(Zeros(k) + s) && NumberOf(Zeros(k) + s) == NumberOf(s)
    decreases |s|, k
  {
    var z := Zeros(k) + s;
    if s != [] {
      assert z[..|z| - 1] == Zeros(k) + s[..|s| - 1];
      ZerosAddNothing(k, s[..|s| - 1]);
    } else if k > 0 {
      assert z[..k - 1] == Zeros(k - 1) + [];
      ZerosAddNothing(k - 1, []);
    }
  }

  /** A nonempty run of digits is the number it denotes, printed, behind some zeros. */
  lemma {:induction false} DigitsBehindZeros(s: string) returns (k: nat)
    requires s != "" && AllDigits(s)
    ensures s == Zeros(k) + Digits(NumberOf(s))
  {
    var n := |s| - 1;
    assert IsDigit(s[n]);
    var d := s[n] as int - '0' as int;
    assert Digit(d) == s[n];
    assert NumberOf(s) == NumberOf(s[..n]) * 10 + d;
    if n == 0 {
      k := 0;
    } else {
      k := DigitsBehindZeros(s[..n]);
      assert s == s[..n] + [Digit(d)];
      if NumberOf(s[..n]) == 0 {
        k := k + 1;
        assert Digits(0) == "0";
      }
    }
  }

  /** A text parses as n exactly when n fits in int32 and the text is an optional sign, leading zeros and the
      digits of n. */
  lemma ParsesExactly(s: string, n: int)
    ensures ParseInt32(s) == Some(n)
            <==> INT32_MIN <= n <= INT32_MAX && exists sign, k :: Denotes(s, sign, k, n)
  {
    hide ParseInt32, Denotes;
    if ParseInt32(s) == Some(n) {
      var sign, k := ParsedDenotes(s, n);
    }
    if sign, k :| Denotes(s, sign, k, n) {
      DenotedParses(s, sign, k, n);
    }
  }

  lemma ParsedDenotes(s: string, n: int) returns (sign: string, k: nat)
    requires ParseInt32(s) == Some(n)
    ensures Denotes(s, sign, k, n) && INT32_MIN <= n <= INT32_MAX
  {
    hide NumberOf, Digits, Zeros, AllDigits, IsDigit;
    sign := if s[0] == '-' || s[0] == '+' then s[..1] else "";
    k := DigitsBehindZeros(s[|sign|..]);
    assert s == sign + s[|sign|..];
  }

  lemma DenotedParses(s: string, sign: string, k: nat, n: int)
    requires Denotes(s, sign, k, n)
    ensures ParseInt32(s) == if INT32_MIN <= n <= INT32_MAX then Some(n) else None
  {
    hide ParseInt32, NumberOf, Digits, Zeros;
    var m := if n < 0 then -n else n;
    ZerosAddNothing(k, Digits(m));
    NumberOfDigits(m);
    assert s == sign + (Zeros(k) + Digits(m));
    SignedParses(sign, Zeros(k) + Digits(m));
  }

  lemma SignedParses(sign: string, digits: string)
    requires sign == "" || sign == "+" || sign == "-"
    requires digits != "" && AllDigits(digits)
    ensures var n := if sign == "-" then -(NumberOf(digits) as int) else NumberOf(digits);
            ParseInt32(sign + digits) == if INT32_MIN <= n <= INT32_MAX then Some(n) else None
  {
    hide NumberOf, AllDigits;
    assert IsDigit(digits[0]) by { FirstIsDigit(digits); }
    assert (sign + digits)[|sign|..] == digits;
  }

  lemma FirstIsDigit(digits: string)
    requires digits != "" && AllDigits(digits)
    ensures IsDigit(digits[0])
  {
  }
}
