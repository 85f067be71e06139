/**
 Decimal numerals as Redis stores them, and the order Lua puts on them.

 The scripts keep expiry times as text and compare them with Lua's `<`, which is
 lexicographic on strings.  This module says exactly when that order is the numeric one.
 */
module Numerals {

  function Digit(d: nat): char
    requires d < 10
  {
    ('0' as int + d) as char
  }

  /** The decimal numeral of a natural number, without leading zeros. */
  function Digits(n: nat): (s: string)
    ensures |s| >= 1
  {
    if n < 10 then [Digit(n)] else Digits(n / 10) + [Digit(n % 10)]
  }

  /** The text Redis stores for the number n. */
  function Decimal(n: int): (s: string)
    ensures |s| >= 1
  {
    if n < 0 then "-" + Digits(-n) else Digits(n)
  }

  function Unsigned(s: string): int {
    if s == "" then 0 else 10 * Unsigned(s[..|s| - 1]) + (s[|s| - 1] as int - '0' as int)
  }

  /** The number that a numeral denotes. */
  function Value(s: string): int {
    if s != "" && s[0] == '-' then -Unsigned(s[1..]) else Unsigned(s)
  }

  lemma {:induction false} UnsignedOfDigits(n: nat)
    ensures Unsigned(Digits(n)) == n && Digits(n)[0] != '-'
  {
    if n >= 10 {
      UnsignedOfDigits(n / 10);
      assert Digits(n)[..|Digits(n)| - 1] == Digits(n / 10);
    } else {
      assert Digits(n)[..0] == "";
    }
  }

  /** Writing a number and reading it back gives the number. */
  lemma ValueOfDecimal(n: int)
    ensures Value(Decimal(n)) == n
  {
    if n < 0 {
      UnsignedOfDigits(-n);
      assert Decimal(n)[1..] == Digits(-n);
    } else {
      UnsignedOfDigits(n);
    }
  }

  /** Lua's `<` on strings. */
  predicate LuaLess(a: string, b: string) {
    b != "" && (a == "" || a[0] < b[0] || (a[0] == b[0] && LuaLess(a[1..], b[1..])))
  }

  lemma {:induction false} LessSnocBoth(a: string, c: char, b: string, d: char)
    requires |a| == |b|
    ensures LuaLess(a + [c], b + [d]) <==> LuaLess(a, b) || (a == b && c < d)
  {
    if a == "" {
    } else {
      assert (a + [c])[1..] == a[1..] + [c] && (b + [d])[1..] == b[1..] + [d];
      LessSnocBoth(a[1..], c, b[1..], d);
      assert a == [a[0]] + a[1..] && b == [b[0]] + b[1..];
    }
  }

  lemma {:induction false} LessSnocLeft(a: string, c: char, b: string)
    requires |a| >= |b|
    ensures LuaLess(a + [c], b) <==> LuaLess(a, b)
  {
    if b == "" {
    } else {
      assert (a + [c])[1..] == a[1..] + [c];
      LessSnocLeft(a[1..], c, b[1..]);
    }
  }

  lemma {:induction false} LessSnocRight(a: string, b: string, d: char)
    requires |a| <= |b|
    ensures LuaLess(a, b + [d]) <==> LuaLess(a, b) || a == b
  {
    if a == "" {
    } else {
      assert (b + [d])[1..] == b[1..] + [d];
      LessSnocRight(a[1..], b[1..], d);
      assert a == [a[0]] + a[1..] && b == [b[0]] + b[1..];
    }
  }

  lemma DigitsInjective(a: nat, b: nat)
    requires Digits(a) == Digits(b)
    ensures a == b
  {
    UnsignedOfDigits(a);
    UnsignedOfDigits(b);
  }

  /** n with its last k digits dropped. */
  function Drop(n: nat, k: nat): nat {
    if k == 0 then n else Drop(n / 10, k - 1)
  }

  lemma {:induction false} SameLength(a: nat, b: nat)
    requires |Digits(a)| == |Digits(b)|
    ensures LuaLess(Digits(a), Digits(b)) <==> a < b
  {
    if a >= 10 {
      SameLength(a / 10, b / 10);
      LessSnocBoth(Digits(a / 10), Digit(a % 10), Digits(b / 10), Digit(b % 10));
      if Digits(a / 10) == Digits(b / 10) { DigitsInjective(a / 10, b / 10); }
    } else {
      LessSnocBoth("", Digit(a), "", Digit(b));
    }
  }

  lemma {:induction false} LongerLeft(a: nat, b: nat)
    requires |Digits(a)| >= |Digits(b)|
    ensures LuaLess(Digits(a), Digits(b)) <==> Drop(a, |Digits(a)| - |Digits(b)|) < b
    decreases a
  {
    if |Digits(a)| == |Digits(b)| {
      SameLength(a, b);
    } else {
      LessSnocLeft(Digits(a / 10), Digit(a % 10), Digits(b));
      LongerLeft(a / 10, b);
    }
  }

  lemma {:induction false} LongerRight(a: nat, b: nat)
    requires |Digits(a)| < |Digits(b)|
    ensures LuaLess(Digits(a), Digits(b)) <==> a <= Drop(b, |Digits(b)| - |Digits(a)|)
    decreases b
  {
    LessSnocRight(Digits(a), Digits(b / 10), Digit(b % 10));
    if |Digits(a)| == |Digits(b / 10)| {
      SameLength(a, b / 10);
      if Digits(a) == Digits(b / 10) { DigitsInjective(a, b / 10); }
      assert Drop(b, 1) == Drop(b / 10, 0);
    } else {
      LongerRight(a, b / 10);
    }
  }

  lemma {:induction false} MoreDigitsIsLarger(a: nat, b: nat)
    requires |Digits(a)| > |Digits(b)|
    ensures a > b
  {
    if b >= 10 { MoreDigitsIsLarger(a / 10, b / 10); }
  }

  /** For which naturals the text order is the numeric order: equal lengths always; otherwise the
      shorter numeral must also be the smaller one once the longer is cut to its length. */
  predicate NaturalsAgree(a: nat, b: nat) {
    var m, n := |Digits(a)|, |Digits(b)|;
    if m == n then true
    else if m > n then b <= Drop(a, m - n)
    else a <= Drop(b, n - m)
  }

  lemma NaturalOrderExact(a: nat, b: nat)
    ensures (LuaLess(Digits(a), Digits(b)) <==> a < b) <==> NaturalsAgree(a, b)
  {
    if |Digits(a)| >= |Digits(b)| {
      LongerLeft(a, b);
      if |Digits(a)| > |Digits(b)| { MoreDigitsIsLarger(a, b); } else { SameLength(a, b); }
    } else {
      LongerRight(a, b);
      MoreDigitsIsLarger(b, a);
    }
  }

  /** For which pairs below zero: the signs are equal, so the text compares the numbers without sign,
      which is the wrong way round unless a prefix decides. */
  predicate NegativesAgree(a: nat, b: nat) {
    var m, n := |Digits(a)|, |Digits(b)|;
    if m == n then a == b
    else if m > n then Drop(a, m - n) < b
    else Drop(b, n - m) < a
  }

  lemma NegativeOrderExact(a: nat, b: nat)
    ensures (LuaLess(Digits(a), Digits(b)) <==> b < a) <==> NegativesAgree(a, b)
  {
    if |Digits(a)| >= |Digits(b)| {
      LongerLeft(a, b);
      if |Digits(a)| > |Digits(b)| { MoreDigitsIsLarger(a, b); } else { SameLength(a, b); }
    } else {
      LongerRight(a, b);
      MoreDigitsIsLarger(b, a);
    }
  }

  /** For which pairs the text order is the numeric order: always for different signs. */
  predicate OrdersAgree(a: int, b: int) {
    if a < 0 && b < 0 then NegativesAgree(-a, -b)
    else a < 0 || b < 0 || NaturalsAgree(a, b)
  }

  lemma {:induction false} StartsWithDigit(n: nat)
    ensures Digits(n)[0] > '-'
  {
    if n >= 10 { StartsWithDigit(n / 10); }
  }

  lemma SignDecides(a: nat, b: nat)
    requires a > 0
    ensures LuaLess("-" + Digits(a), Digits(b)) && !LuaLess(Digits(b), "-" + Digits(a))
  {
    StartsWithDigit(b);
  }

  lemma SameSign(a: nat, b: nat)
    ensures LuaLess("-" + Digits(a), "-" + Digits(b)) <==> LuaLess(Digits(a), Digits(b))
  {
    assert ("-" + Digits(a))[1..] == Digits(a) && ("-" + Digits(b))[1..] == Digits(b);
  }

  /** Text order against numeric order on all numbers, both directions. */
  lemma TextOrderExact(a: int, b: int)
    ensures (LuaLess(Decimal(a), Decimal(b)) <==> a < b) <==> OrdersAgree(a, b)
  {
    hide LuaLess, NegativesAgree, NaturalsAgree, Digits;
    if a < 0 && b < 0 {
      SameSign(-a, -b);
      NegativeOrderExact(-a, -b);
    } else if a < 0 {
      SignDecides(-a, b);
    } else if b < 0 {
      SignDecides(-b, a);
    } else {
      NaturalOrderExact(a, b);
    }
  }

  /** The text order is not the numeric order in general: 9 is less than 10, "9" is not less than
      "10"; and "-1" is less than "-2". */
  lemma TextOrderCounterexample()
    ensures !LuaLess(Decimal(9), Decimal(10)) && LuaLess(Decimal(-1), Decimal(-2))
  {
    assert Digits(10) == Digits(1) + [Digit(0)];
    assert Drop(10, 1) == Drop(1, 0) == 1;
    TextOrderExact(9, 10);
    TextOrderExact(-1, -2);
  }

  const BILLION: nat := 1_000_000_000

  lemma {:induction false} LengthFrom(n: nat, low: nat, k: nat)
    requires low >= 1 && low <= n < 10 * low
    requires |Digits(low)| == k
    requires PowerOfTen(low)
    ensures |Digits(n)| == k
  {
    if low >= 10 { LengthFrom(n / 10, low / 10, k - 1); }
  }

  predicate PowerOfTen(n: nat) {
    n == 1 || (n >= 10 && n % 10 == 0 && PowerOfTen(n / 10))
  }

  /** The numbers from 10^9 up to 10^10 are exactly ten digits long. */
  lemma TenDigits(n: nat)
    requires BILLION <= n < 10 * BILLION
    ensures |Digits(n)| == 10
  {
    assert PowerOfTen(BILLION) && |Digits(BILLION)| == 10;
    LengthFrom(n, BILLION, 10);
  }

  /** Within ten digits Lua's comparison of stored times is the comparison of the times. */
  lemma TextOrderInWindow(a: nat, b: nat)
    requires BILLION <= a < 10 * BILLION && BILLION <= b < 10 * BILLION
    ensures LuaLess(Decimal(a), Decimal(b)) <==> a < b
  {
    TenDigits(a);
    TenDigits(b);
    SameLength(a, b);
  }
}
