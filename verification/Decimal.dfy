// Decimal numerals and dotted text, as the release scripts print and match them.
module Decimal {
  import opened Wrappers

  predicate IsDigit(c: char) { '0' <= c <= '9' }

  predicate AllDigits(s: string) { forall i :: 0 <= i < |s| ==> IsDigit(s[i]) }

  function Digit(n: nat): (c: char)
    requires n < 10
    ensures IsDigit(c) && DigitValue(c) == n
  {
    '0' + n as char
  }

  function DigitValue(c: char): (n: nat)
    requires IsDigit(c)
    ensures n < 10
  {
    (c - '0') as nat
  }

  /** `str(n)`. */
  function Digits(n: nat): (s: string)
    ensures AllDigits(s) && |s| > 0
  {
    if n < 10 then [Digit(n)] else Digits(n / 10) + [Digit(n % 10)]
  }

  /** `int(s)`. */
  function Number(s: string): nat
    requires AllDigits(s)
  {
    if s == "" then 0
    else Number(s[..|s| - 1]) * 10 + DigitValue(s[|s| - 1])
  }

  /** The pattern `0|[1-9][0-9]*`. */
  predicate IsNumeral(s: string) { s != "" && AllDigits(s) && (s[0] != '0' || |s| == 1) }

  /** The pattern `[1-9][0-9]*`. */
  predicate IsPositive(s: string) { IsNumeral(s) && s[0] != '0' }

  lemma {:induction false} NumberOfDigits(n: nat)
    ensures Number(Digits(n)) == n && IsNumeral(Digits(n))
    ensures n > 0 <==> IsPositive(Digits(n))
  {
    if n >= 10 {
      NumberOfDigits(n / 10);
      var s := Digits(n);
      assert s[..|s| - 1] == Digits(n / 10) && s[|s| - 1] == Digit(n % 10);
      assert s[0] == Digits(n / 10)[0];
    } else {
      assert Digits(n)[..0] == "";
    }
  }

  /** The digits stand in order of their weight. */
  lemma DigitsByWeight(n: nat, d: nat)
    requires d < 10
    ensures Digits(d) == ["0123456789"[d]]
    ensures n > 0 ==> Digits(10 * n + d) == Digits(n) + ["0123456789"[d]]
  {
    assert (10 * n + d) / 10 == n && (10 * n + d) % 10 == d;
  }

  lemma {:induction false} NumberIsPositive(s: string)
    requires AllDigits(s) && s != "" && s[0] != '0'
    ensures Number(s) > 0
  {
    var init := s[..|s| - 1];
    if init != "" {
      NumberIsPositive(init);
    }
  }

  lemma {:induction false} NumberInjective(s: string, t: string)
    requires IsNumeral(s) && IsNumeral(t) && Number(s) == Number(t)
    ensures s == t
  {
    var s', t' := s[..|s| - 1], t[..|t| - 1];
    assert s == s' + [s[|s| - 1]] && t == t' + [t[|t| - 1]];
    if s' != "" { NumberIsPositive(s'); }
    if t' != "" { NumberIsPositive(t'); }
    assert DigitValue(s[|s| - 1]) == DigitValue(t[|t| - 1]);
    if s' != "" {
      NumberInjective(s', t');
    }
  }

  lemma DigitsOfNumber(s: string)
    requires IsNumeral(s)
    ensures Digits(Number(s)) == s
  {
    NumberOfDigits(Number(s));
    NumberInjective(Digits(Number(s)), s);
  }

  lemma DigitsInjective(m: nat, n: nat)
    requires Digits(m) == Digits(n)
    ensures m == n
  {
    NumberOfDigits(m);
    NumberOfDigits(n);
  }

  // ---- cutting text at a separator ----

  predicate Lacks(s: string, c: char) { forall i :: 0 <= i < |s| ==> s[i] != c }

  /** `s.split(c, 1)`: the text before the first `c`, and what follows it. */
  function Cut(s: string, c: char): (r: (string, Option<string>))
    ensures Lacks(r.0, c)
    ensures match r.1 case None => r.0 == s case Some(rest) => r.0 + [c] + rest == s
  {
    if s == "" then ("", None)
    else if s[0] == c then ("", Some(s[1..]))
    else
      var (before, rest) := Cut(s[1..], c);
      assert s == [s[0]] + s[1..];
      ([s[0]] + before, rest)
  }

  lemma {:induction false} CutJoined(before: string, c: char, rest: string)
    requires Lacks(before, c)
    ensures Cut(before + [c] + rest, c) == (before, Some(rest))
  {
    var s := before + [c] + rest;
    if before != "" {
      assert s[1..] == before[1..] + [c] + rest;
      CutJoined(before[1..], c, rest);
      assert [before[0]] + before[1..] == before;
    } else {
      assert s[1..] == rest;
    }
  }

  lemma {:induction false} CutWhole(s: string, c: char)
    requires Lacks(s, c)
    ensures Cut(s, c) == (s, None)
  {
    if s != "" {
      CutWhole(s[1..], c);
      assert [s[0]] + s[1..] == s;
    }
  }
}
