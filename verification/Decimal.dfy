/** Decimal notation of natural numbers. */
module Decimal {

  /** Decimal digits of n, left-padded with zeros to at least width characters. */
  function Padded(n: nat, width: nat): (s: string)
    ensures |s| >= width
    ensures forall c :: c in s ==> '0' <= c <= '9'
    decreases n + width
  {
    if n == 0 && width == 0 then ""
    else Padded(n / 10, if width > 0 then width - 1 else 0) + ['0' + (n % 10) as char]
  }

  function DigitsValue(s: string): int {
    if s == "" then 0 else 10 * DigitsValue(s[..|s| - 1]) + (s[|s| - 1] as int - '0' as int)
  }

  lemma {:induction false} PaddedValue(n: nat, width: nat)
    ensures DigitsValue(Padded(n, width)) == n
    decreases n + width
  {
    if n != 0 || width != 0 {
      var w := if width > 0 then width - 1 else 0;
      PaddedValue(n / 10, w);
      assert Padded(n, width)[..|Padded(n, width)| - 1] == Padded(n / 10, w);
    }
  }

  lemma PaddedTwo(n: nat)
    requires n < 100
    ensures |Padded(n, 2)| == 2
  {
    assert Padded(n / 10 / 10, 0) == "";
  }

  lemma PaddedInjective(a: nat, b: nat, width: nat)
    requires Padded(a, width) == Padded(b, width)
    ensures a == b
  {
    PaddedValue(a, width);
    PaddedValue(b, width);
  }

  predicate AllDigits(s: string) {
    forall c :: c in s ==> '0' <= c <= '9'
  }

  function Pow10(k: nat): (p: nat)
    ensures p >= 1
  {
    if k == 0 then 1 else 10 * Pow10(k - 1)
  }

  lemma {:induction false} PaddedLength(n: nat, width: nat)
    requires n < Pow10(width)
    ensures |Padded(n, width)| == width
  {
    if width > 0 {
      PaddedLength(n / 10, width - 1);
    }
  }

  /** The last three digits, and the digits before them. */
  lemma PaddedThousands(n: nat)
    requires n >= 1000
    ensures Padded(n, 1) == Padded(n / 1000, 1) + Padded(n % 1000, 3)
  {
    hide Padded;
    var q := n / 1000;
    var a, b, c := n % 10, n / 10 % 10, n / 100 % 10;
    DigitsOfThousand(n);
    ThreeDigits(a, b, c);
    LastDigit(n, 1);
    LastDigit(n / 10, 0);
    LastDigit(n / 100, 0);
    LastDigit(q, 0);
    LastDigit(q, 1);
  }

  lemma LastDigit(n: nat, width: nat)
    requires n > 0 && width <= 1
    ensures Padded(n, width) == Padded(n / 10, 0) + ['0' + (n % 10) as char]
  {
  }

  lemma DigitsOfThousand(n: nat)
    ensures n % 1000 == 100 * (n / 100 % 10) + 10 * (n / 10 % 10) + n % 10
    ensures n / 10 / 10 == n / 100 && n / 100 / 10 == n / 1000
  {
  }

  lemma ThreeDigits(a: nat, b: nat, c: nat)
    requires a < 10 && b < 10 && c < 10
    ensures Padded(100 * c + 10 * b + a, 3) == ['0' + c as char, '0' + b as char, '0' + a as char]
  {
    assert Padded(0, 0) == "";
    assert Padded(c, 1) == Padded(0, 0) + ['0' + c as char];
    assert Padded(10 * c + b, 2) == Padded(c, 1) + ['0' + b as char];
  }

  /** Digits are the padded notation of their own value. */
  lemma {:induction false} DigitsArePadded(s: string)
    requires AllDigits(s)
    ensures 0 <= DigitsValue(s) < Pow10(|s|) && Padded(DigitsValue(s), |s|) == s
  {
    if s != "" {
      var n := |s| - 1;
      var last := s[n] as int - '0' as int;
      assert s[n] in s && s == s[..n] + [s[n]];
      assert forall c :: c in s[..n] ==> c in s;
      DigitsArePadded(s[..n]);
      var v := DigitsValue(s[..n]);
      assert DigitsValue(s) == 10 * v + last;
      TenTimes(v, last);
      assert '0' + last as char == s[n];
    }
  }

  lemma TenTimes(v: nat, last: nat)
    requires last < 10
    ensures (10 * v + last) / 10 == v && (10 * v + last) % 10 == last
  {
  }
}
