/** Go's 64-bit int: its range, its wrap-around, and the decimal conversions
    strconv.Itoa, fmt's %d and strconv.Atoi. */
module GoInt {
  import opened Wrappers

  const MIN_INT: int := -0x8000_0000_0000_0000
  const MAX_INT: int := 0x7fff_ffff_ffff_ffff

  type Int = x: int | MIN_INT <= x <= MAX_INT

  /** A Go slice is no longer than its int length can say. */
  type Slice<T> = s: seq<T> | |s| <= MAX_INT

  /** The sum of two machine integers, wrapping around. */
  function Add(a: Int, b: Int): Int {
    if a + b > MAX_INT then a + b - 0x1_0000_0000_0000_0000
    else if a + b < MIN_INT then a + b + 0x1_0000_0000_0000_0000
    else a + b
  }

  /** The wrapped sum is the machine integer congruent to the sum modulo 2^64. */
  lemma AddWraps(a: Int, b: Int)
    ensures -0x8000_0000_0000_0000 <= Add(a, b) < 0x8000_0000_0000_0000
    ensures (Add(a, b) - (a + b)) % 0x1_0000_0000_0000_0000 == 0
  {
  }

  predicate IsDigit(c: char) {
    '0' <= c <= '9'
  }

  predicate AllDigits(s: string) {
    forall i :: 0 <= i < |s| ==> IsDigit(s[i])
  }

  function Digits(n: nat): (s: string)
    ensures |s| > 0 && AllDigits(s)
  {
    if n < 10 then [('0' as int + n) as char]
    else Digits(n / 10) + [('0' as int + n % 10) as char]
  }

  function DigitsValue(s: string): nat
    requires AllDigits(s)
  {
    if s == "" then 0
    else 10 * DigitsValue(s[..|s| - 1]) + (s[|s| - 1] as int - '0' as int)
  }

  /** strconv.Itoa, and the %d verb. */
  function Itoa(n: int): string {
    if n < 0 then "-" + Digits(-n) else Digits(n)
  }

  /** strconv.Atoi: an optional sign, then one or more digits, in range. */
  function Atoi(s: string): Option<Int> {
    var signed := s != "" && (s[0] == '-' || s[0] == '+');
    var digits := if signed then s[1..] else s;
    if digits == "" || !AllDigits(digits) then None
    else
      var v: int := DigitsValue(digits);
      var n: int := if signed && s[0] == '-' then -v else v;
      if MIN_INT <= n <= MAX_INT then Some(n) else None
  }

  lemma {:induction false} DigitsRoundTrip(n: nat)
    ensures DigitsValue(Digits(n)) == n
  {
    var s := Digits(n);
    if n >= 10 {
      assert s[..|s| - 1] == Digits(n / 10);
      DigitsRoundTrip(n / 10);
    } else {
      assert s[..|s| - 1] == "";
    }
  }

  /** What Atoi makes of an optional minus sign and digits. */
  lemma AtoiOfDigits(d: string, n: Int)
    requires d != "" && AllDigits(d)
    ensures DigitsValue(d) == n ==> Atoi(d) == Some(n)
    ensures 0 - DigitsValue(d) == n ==> Atoi("-" + d) == Some(n)
  {
    assert IsDigit(d[0]);
    assert ("-" + d)[1..] == d;
  }

  /** Atoi reads a string as n exactly when it is one or more digits, with or
      without a sign, and n is their signed value. */
  lemma AtoiReadsExactly(s: string, n: Int)
    ensures Atoi(s) == Some(n) <==>
            exists d :: AllDigits(d) && d != "" && (if s == "-" + d then n == 0 - DigitsValue(d)
                                                    else (s == d || s == "+" + d) && n == DigitsValue(d))
  {
    if Atoi(s) == Some(n) {
      var d := if s[0] == '-' || s[0] == '+' then s[1..] else s;
      assert AllDigits(d) && d != "" && (s == d || s == "+" + d || s == "-" + d);
    }
    forall d | AllDigits(d) && d != "" && (s == d || s == "+" + d || s == "-" + d)
      ensures d == if s[0] == '-' || s[0] == '+' then s[1..] else s
    {
      assert IsDigit(d[0]);
    }
  }

  /** Parsing what was printed gives the number back, for every machine integer. */
  lemma AtoiOfItoa(n: Int)
    ensures Atoi(Itoa(n)) == Some(n)
  {
    var m: int := n;
    DigitsRoundTrip(if m < 0 then -m else m);
    AtoiOfDigits(Digits(if m < 0 then -m else m), n);
  }

  /** Distinct numbers print differently, also outside the machine range. */
  lemma ItoaInjective(a: int, b: int)
    requires Itoa(a) == Itoa(b)
    ensures a == b
  {
    var da, db := Digits(if a < 0 then -a else a), Digits(if b < 0 then -b else b);
    assert IsDigit(da[0]) && IsDigit(db[0]);
    if a < 0 {
      assert Itoa(a)[1..] == da && Itoa(b)[1..] == db;
    }
    assert da == db;
    DigitsRoundTrip(if a < 0 then -a else a);
    DigitsRoundTrip(if b < 0 then -b else b);
  }

  lemma ItoaHasNoColon(n: int)
    ensures ':' !in Itoa(n)
  {
    var d := Digits(if n < 0 then -n else n);
    assert forall i :: 0 <= i < |d| ==> IsDigit(d[i]);
  }
}
