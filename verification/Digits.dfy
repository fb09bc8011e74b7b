/** Decimal digits as text: what BigInt(text) reads and what toString() prints. */
module Digits {
  predicate IsDigit(c: char) { '0' <= c <= '9' }

  predicate AllDigits(s: string) { forall i :: 0 <= i < |s| ==> IsDigit(s[i]) }

  /** At least one digit and no needless zero in front. */
  predicate Canonical(s: string) { |s| > 0 && AllDigits(s) && (|s| == 1 || s[0] != '0') }

  function DigitOf(c: char): nat
    requires IsDigit(c)
  {
    c as nat - '0' as nat
  }

  function CharOf(d: nat): (c: char)
    requires d < 10
    ensures IsDigit(c) && DigitOf(c) == d
  {
    '0' + d as char
  }

  /** BigInt of a string of digits; the empty string is zero. */
  function Value(s: string): nat
    requires AllDigits(s)
  {
    if s == "" then 0 else 10 * Value(s[..|s| - 1]) + DigitOf(s[|s| - 1])
  }

  function Print(n: nat): string {
    if n < 10 then [CharOf(n)] else Print(n / 10) + [CharOf(n % 10)]
  }

  function Pow10(k: nat): nat { if k == 0 then 1 else 10 * Pow10(k - 1) }

  function Zeros(k: nat): string { seq(k, i => '0') }

  function PadStart(s: string, width: nat): string { if |s| >= width then s else Zeros(width - |s|) + s }

  function PadEnd(s: string, width: nat): string { if |s| >= width then s else s + Zeros(width - |s|) }

  lemma {:induction false} PrintReads(n: nat)
    ensures Canonical(Print(n)) && Value(Print(n)) == n
    ensures n > 0 ==> Print(n)[0] != '0'
  {
    if n >= 10 {
      PrintReads(n / 10);
      assert Print(n)[..|Print(n)| - 1] == Print(n / 10);
    }
  }

  lemma {:induction false} ReadPrints(s: string)
    requires Canonical(s)
    ensures Print(Value(s)) == s
  {
    var init := s[..|s| - 1];
    if |s| > 1 {
      ReadPrints(init);
      CanonicalIsPositive(init);
      assert s == init + [s[|s| - 1]];
    } else {
      assert init == "";
    }
  }

  lemma {:induction false} CanonicalIsPositive(s: string)
    requires AllDigits(s) && |s| > 0 && s[0] != '0'
    ensures Value(s) > 0
  {
    if |s| > 1 { CanonicalIsPositive(s[..|s| - 1]); } else { assert s[..|s| - 1] == ""; }
  }

  lemma {:induction false} Append(a: string, c: char)
    requires AllDigits(a) && IsDigit(c)
    ensures AllDigits(a + [c]) && Value(a + [c]) == 10 * Value(a) + DigitOf(c)
  {
    assert (a + [c])[..|a|] == a;
  }

  lemma {:induction false} AppendTwo(a: string, b: string)
    requires AllDigits(a) && AllDigits(b) && |b| == 2
    ensures AllDigits(a + b) && Value(a + b) == 100 * Value(a) + Value(b)
  {
    Append("", b[0]);
    Append([b[0]], b[1]);
    assert b == "" + [b[0]] + [b[1]];
    Append(a, b[0]);
    Append(a + [b[0]], b[1]);
    assert a + b == a + [b[0]] + [b[1]];
  }

  lemma {:induction false} LeadingZero(s: string)
    requires AllDigits(s) && |s| > 0 && s[0] == '0'
    ensures AllDigits(s[1..]) && Value(s) == Value(s[1..])
  {
    if |s| > 1 {
      var init := s[..|s| - 1];
      LeadingZero(init);
      Append(init[1..], s[|s| - 1]);
      assert s[1..] == init[1..] + [s[|s| - 1]];
    } else {
      assert s[..|s| - 1] == "" && s[1..] == "";
    }
  }

  lemma {:induction false} ZerosInFront(k: nat, s: string)
    requires AllDigits(s)
    ensures AllDigits(Zeros(k) + s) && Value(Zeros(k) + s) == Value(s)
  {
    if k > 0 {
      LeadingZero(Zeros(k) + s);
      assert (Zeros(k) + s)[1..] == Zeros(k - 1) + s;
      ZerosInFront(k - 1, s);
    } else {
      assert Zeros(0) + s == s;
    }
  }

  /** k digits hold exactly the numbers below 10^k. */
  lemma {:induction false} ValueBelow(s: string)
    requires AllDigits(s)
    ensures Value(s) < Pow10(|s|)
  {
    if s != "" { ValueBelow(s[..|s| - 1]); }
  }

  lemma {:induction false} PrintLength(n: nat, k: nat)
    requires k >= 1
    ensures |Print(n)| <= k <==> n < Pow10(k)
  {
    if n >= 10 && k > 1 { PrintLength(n / 10, k - 1); }
    assert Pow10(0) == 1;
    assert k == 1 ==> Pow10(k) == 10;
    if n < 10 && k > 1 { PowAtLeast(k); }
  }

  lemma {:induction false} PowAtLeast(k: nat)
    requires k >= 1
    ensures Pow10(k) >= 10
  {
    if k > 1 { PowAtLeast(k - 1); } else { assert Pow10(0) == 1; }
  }

  /** Numbers below 100 in two digits. */
  lemma TwoDigits(n: nat)
    requires n < 100
    ensures |PadStart(Print(n), 2)| == 2 && AllDigits(PadStart(Print(n), 2)) && Value(PadStart(Print(n), 2)) == n
  {
    PrintReads(n);
    assert Pow10(1) == 10 && Pow10(2) == 100;
    PrintLength(n, 2);
    ZerosInFront(1, Print(n));
  }

  lemma {:induction false} TwoDigitText(s: string)
    requires AllDigits(s) && |s| == 2
    ensures Value(s) < 100 && PadStart(Print(Value(s)), 2) == s
  {
    Append("", s[0]);
    Append([s[0]], s[1]);
    assert s == "" + [s[0]] + [s[1]];
    var n := Value(s);
    if n < 10 {
      assert s[0] == '0';
      assert Print(n) == [s[1]];
      assert PadStart(Print(n), 2) == "0" + [s[1]];
    } else {
      assert Print(n) == [s[0]] + [s[1]];
    }
  }
}
