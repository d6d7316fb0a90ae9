/** Decimal numerals, as `%d` and StrCat print them. */
module Decimal {

  predicate IsDigit(c: char) {
    '0' <= c <= '9'
  }

  predicate AllDigits(s: string) {
    forall i :: 0 <= i < |s| ==> IsDigit(s[i])
  }

  function DigitOf(d: nat): (c: char)
    requires d < 10
    ensures IsDigit(c) && ValueOf(c) == d
  {
    '0' + d as char
  }

  function ValueOf(c: char): (d: nat)
    requires IsDigit(c)
    ensures d < 10
  {
    (c - '0') as int
  }

  function PrintNat(n: nat): (s: string)
    ensures s != [] && AllDigits(s)
  {
    if n < 10 then [DigitOf(n)] else PrintNat(n / 10) + [DigitOf(n % 10)]
  }

  function Print(n: int): (s: string)
    ensures s != []
  {
    if n < 0 then "-" + PrintNat(-n) else PrintNat(n)
  }

  /** The number a string of digits stands for; leading zeros are allowed. */
  function ReadNat(s: string): nat
    requires AllDigits(s)
  {
    if s == [] then 0 else 10 * ReadNat(s[..|s| - 1]) + ValueOf(s[|s| - 1])
  }

  predicate IsNumeral(s: string) {
    || (s != [] && AllDigits(s))
    || (|s| > 1 && s[0] == '-' && AllDigits(s[1..]))
  }

  function Read(s: string): int
    requires IsNumeral(s)
  {
    if s[0] == '-' then 0 - ReadNat(s[1..]) else ReadNat(s)
  }

  lemma {:induction false} ReadPrintNat(n: nat)
    ensures ReadNat(PrintNat(n)) == n
  {
    if n >= 10 {
      ReadPrintNat(n / 10);
      assert PrintNat(n)[..|PrintNat(n)| - 1] == PrintNat(n / 10);
    } else {
      assert PrintNat(n)[..0] == [];
    }
  }

  lemma ReadPrint(n: int)
    ensures IsNumeral(Print(n)) && Read(Print(n)) == n
  {
    ReadPrintNat(if n < 0 then -n else n);
    if n < 0 {
      assert Print(n)[1..] == PrintNat(-n);
    }
  }

  /** A printed number has no leading zero, but for zero itself. */
  lemma {:induction false} NoLeadingZero(n: nat)
    ensures PrintNat(n)[0] == '0' <==> n == 0
  {
    if n >= 10 {
      NoLeadingZero(n / 10);
    }
  }

  /** Digits without a leading zero are what is printed for the number they stand for. */
  lemma {:induction false} PrintReadNat(s: string)
    requires s != [] && AllDigits(s) && s[0] != '0'
    ensures ReadNat(s) >= 1 && PrintNat(ReadNat(s)) == s
  {
    var k := |s| - 1;
    var d := ValueOf(s[k]);
    assert s == s[..k] + [DigitOf(d)];
    if k > 0 {
      PrintReadNat(s[..k]);
      assert ReadNat(s) == 10 * ReadNat(s[..k]) + d;
    } else {
      assert ReadNat(s[..k]) == 0;
    }
  }

  lemma PrintIsInjective(m: int, n: int)
    requires Print(m) == Print(n)
    ensures m == n
  {
    ReadPrint(m);
    ReadPrint(n);
  }

  lemma ReadNatAppend(s: string, c: char)
    requires AllDigits(s) && IsDigit(c)
    ensures AllDigits(s + [c]) && ReadNat(s + [c]) == 10 * ReadNat(s) + ValueOf(c)
  {
    assert (s + [c])[..|s|] == s;
  }

  /** A larger number stays larger when the same digits are appended. */
  lemma {:induction false} AppendKeepsOrder(a: string, b: string, s: string)
    requires AllDigits(a) && AllDigits(b) && AllDigits(s) && ReadNat(a) <= ReadNat(b)
    ensures AllDigits(a + s) && AllDigits(b + s) && ReadNat(a + s) <= ReadNat(b + s)
  {
    if s == [] {
      assert a + s == a && b + s == b;
    } else {
      var k := |s| - 1;
      AppendKeepsOrder(a, b, s[..k]);
      ReadNatAppend(a + s[..k], s[k]);
      ReadNatAppend(b + s[..k], s[k]);
      assert a + s == (a + s[..k]) + [s[k]] && b + s == (b + s[..k]) + [s[k]];
    }
  }

  /** The number that the digits of `n` make behind `s`. */
  function Behind(s: string, n: nat): nat
    requires AllDigits(s)
  {
    ReadNat(s + PrintNat(n))
  }

  lemma BehindUnfolds(s: string, n: nat)
    requires AllDigits(s)
    ensures Behind(s, n) == if n < 10 then 10 * ReadNat(s) + n else 10 * Behind(s, n / 10) + n % 10
  {
    if n < 10 {
      ReadNatAppend(s, DigitOf(n));
    } else {
      ReadNatAppend(s + PrintNat(n / 10), DigitOf(n % 10));
      assert s + PrintNat(n) == (s + PrintNat(n / 10)) + [DigitOf(n % 10)];
    }
  }

  lemma {:induction false} BehindIsMore(s: string, n: nat)
    requires AllDigits(s) && n >= 1
    ensures Behind(s, n) >= ReadNat(s) + 1 && Behind(s, n) >= n
  {
    BehindUnfolds(s, n);
    if n >= 10 {
      BehindIsMore(s, n / 10);
    }
  }

  /** Behind the same digits, a larger number makes a larger one. */
  lemma {:induction false} BehindIncreases(s: string, m: nat, n: nat)
    requires AllDigits(s) && m < n
    ensures Behind(s, m) < Behind(s, n)
  {
    BehindUnfolds(s, m);
    BehindUnfolds(s, n);
    if n >= 10 && m < 10 {
      BehindIsMore(s, n / 10);
    } else if n >= 10 && m / 10 < n / 10 {
      BehindIncreases(s, m / 10, n / 10);
    }
  }

  /** Digits that do not start with a zero, appended, make at least ten times as much and one. */
  lemma {:induction false} AppendedMuch(s: string, digits: string)
    requires AllDigits(s) && AllDigits(digits) && digits != [] && digits[0] != '0'
    ensures AllDigits(s + digits) && ReadNat(s + digits) >= 10 * ReadNat(s) + 1
  {
    var k := |digits| - 1;
    if k == 0 {
      assert digits == [digits[0]];
      ReadNatAppend(s, digits[0]);
    } else {
      AppendedMuch(s, digits[..k]);
      ReadNatAppend(s + digits[..k], digits[k]);
      assert s + digits == (s + digits[..k]) + [digits[k]];
    }
  }
}
