/**
 * Decimal renderings of natural numbers, as template strings and
 * `toLocaleString("en-US")` produce them.
 */
module Decimal {

  function Digit(d: nat): char
    requires d < 10
  {
    "0123456789"[d]
  }

  /** `${n}` for a natural number. */
  function Digits(n: nat): (s: string)
    ensures |s| > 0
  {
    if n < 10 then [Digit(n)] else Digits(n / 10) + [Digit(n % 10)]
  }

  /** `n.toLocaleString("en-US")`: groups of three digits separated by commas. */
  function Grouped(n: nat): (s: string)
    ensures |s| > 0
  {
    if n < 1000 then Digits(n)
    else Grouped(n / 1000) + "," + [Digit(n / 100 % 10), Digit(n / 10 % 10), Digit(n % 10)]
  }

  predicate IsDigit(c: char) {
    '0' <= c <= '9'
  }

  predicate IsDigits(s: string) {
    forall i | 0 <= i < |s| :: IsDigit(s[i])
  }

  /** The number a decimal text stands for. */
  function ValueOf(s: string): nat
    requires IsDigits(s)
  {
    if s == "" then 0 else 10 * ValueOf(s[..|s| - 1]) + (s[|s| - 1] as nat - '0' as nat)
  }

  lemma DigitRead(d: nat)
    requires d < 10
    ensures IsDigit(Digit(d)) && Digit(d) as nat - '0' as nat == d
  {}

  /** The text of a number stands for the number, and starts with a zero only for zero itself. */
  lemma {:induction false} DigitsRead(n: nat)
    ensures IsDigits(Digits(n)) && ValueOf(Digits(n)) == n
    ensures Digits(n)[0] == '0' <==> n == 0
  {
    if n < 10 {
      DigitRead(n);
      assert [Digit(n)][..0] == "";
    } else {
      DigitsRead(n / 10);
      DigitRead(n % 10);
      assert Digits(n)[..|Digits(n)| - 1] == Digits(n / 10);
    }
  }

  /** Every decimal text without a leading zero is the text of its number. */
  lemma {:induction false} ReadDigits(s: string)
    requires IsDigits(s) && s != "" && (s[0] == '0' ==> |s| == 1)
    ensures Digits(ValueOf(s)) == s
    ensures s[0] == '0' <==> ValueOf(s) == 0
    decreases |s|
  {
    var n := |s| - 1;
    var d := s[n] as nat - '0' as nat;
    assert s == s[..n] + [s[n]] && Digit(d) == s[n];
    if n == 0 {
      assert s[..0] == "";
    } else {
      ReadDigits(s[..n]);
      assert ValueOf(s) / 10 == ValueOf(s[..n]) && ValueOf(s) % 10 == d;
    }
  }

  /** Two numbers with the same decimal text are the same number. */
  lemma DigitsInjective(a: nat, b: nat)
    requires Digits(a) == Digits(b)
    ensures a == b
  {
    DigitsRead(a);
    DigitsRead(b);
  }

  /** A larger number never has a shorter decimal text. */
  lemma {:induction false} DigitsLengthMonotone(a: nat, b: nat)
    requires a <= b
    ensures |Digits(a)| <= |Digits(b)|
  {
    if b >= 10 && a >= 10 {
      DigitsLengthMonotone(a / 10, b / 10);
    }
  }

  function WithoutCommas(s: string): string {
    if s == "" then "" else (if s[0] == ',' then "" else [s[0]]) + WithoutCommas(s[1..])
  }

  lemma {:induction false} CommasConcat(s: string, t: string)
    ensures WithoutCommas(s + t) == WithoutCommas(s) + WithoutCommas(t)
  {
    if s == "" {
      assert s + t == t;
    } else {
      assert (s + t)[1..] == s[1..] + t;
      CommasConcat(s[1..], t);
    }
  }

  lemma {:induction false} NoCommas(s: string)
    requires IsDigits(s)
    ensures WithoutCommas(s) == s
  {
    if s != "" {
      NoCommas(s[1..]);
      assert s == [s[0]] + s[1..];
    }
  }

  lemma ThreeMore(n: nat)
    requires n >= 1000
    ensures Digits(n) == Digits(n / 1000) + [Digit(n / 100 % 10), Digit(n / 10 % 10), Digit(n % 10)]
  {
    assert n / 10 / 10 == n / 100 && n / 10 / 10 / 10 == n / 1000;
    assert Digits(n / 10) == Digits(n / 100) + [Digit(n / 10 % 10)];
    assert Digits(n / 100) == Digits(n / 1000) + [Digit(n / 100 % 10)];
  }

  /** Every fourth character from the end is a comma, and no other. */
  ghost predicate CommaEveryFourth(s: string) {
    forall i | 0 <= i < |s| :: s[i] == ',' <==> (|s| - 1 - i) % 4 == 3
  }

  lemma ThreeDigits(a: nat, b: nat, c: nat)
    requires a < 10 && b < 10 && c < 10
    ensures IsDigits([Digit(a), Digit(b), Digit(c)])
  {}

  lemma LastGroup(head: string, last: string)
    requires IsDigits(last)
    ensures WithoutCommas(head + "," + last) == WithoutCommas(head) + last
  {
    NoCommas(last);
    CommasConcat(head + ",", last);
    CommasConcat(head, ",");
  }

  lemma OneMoreGroup(head: string, last: string)
    requires CommaEveryFourth(head) && |last| == 3 && IsDigits(last)
    ensures CommaEveryFourth(head + "," + last)
  {
    var s := head + "," + last;
    forall i | 0 <= i < |s| ensures s[i] == ',' <==> (|s| - 1 - i) % 4 == 3 {
      if i < |head| {
        assert s[i] == head[i] && |s| - 1 - i == |head| - 1 - i + 4;
      } else if i > |head| {
        assert s[i] == last[i - |head| - 1];
      }
    }
  }

  lemma FewDigits(n: nat)
    requires n < 1000
    ensures WithoutCommas(Digits(n)) == Digits(n) && CommaEveryFourth(Digits(n))
  {
    DigitsRead(n);
    NoCommas(Digits(n));
    DigitsLengthMonotone(n, 999);
    assert |Digits(999)| == 3;
  }

  /** A grouped number is its decimal text with a comma before every three digits that others precede. */
  lemma {:induction false} GroupedRead(n: nat)
    ensures WithoutCommas(Grouped(n)) == Digits(n) && CommaEveryFourth(Grouped(n)) && IsDigit(Grouped(n)[0])
  {
    DigitsRead(n);
    if n < 1000 {
      FewDigits(n);
    } else {
      var head, last := Grouped(n / 1000), [Digit(n / 100 % 10), Digit(n / 10 % 10), Digit(n % 10)];
      GroupedRead(n / 1000);
      ThreeMore(n);
      ThreeDigits(n / 100 % 10, n / 10 % 10, n % 10);
      LastGroup(head, last);
      OneMoreGroup(head, last);
    }
  }
}
