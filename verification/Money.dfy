/** Exact money and quantities (src/common/money.ts): BigInt fixed point over decimal text. */
module Money {
  import opened Options
  import opened Digits

  const MAX_DB_BIGINT: int := 9_223_372_036_854_775_807

  predicate TyiynPattern(s: string) { Canonical(s) && |s| <= 16 }

  /** ^(0|[1-9]\d{0,9})(\.\d{1,2})?$ */
  predicate Decimal2Pattern(s: string) {
    var (whole, rest) := CutDot(s);
    && Canonical(whole) && |whole| <= 10
    && (rest.Some? ==> AllDigits(rest.value) && 1 <= |rest.value| <= 2)
  }

  /** The text before the first dot, and what follows the dot if there is one. */
  function CutDot(s: string): (r: (string, Option<string>))
    ensures s == if r.1.None? then r.0 else r.0 + "." + r.1.value
    ensures '.' !in r.0
    decreases |s|
  {
    if s == "" then ("", None)
    else if s[0] == '.' then ("", Some(s[1..]))
    else
      var (whole, rest) := CutDot(s[1..]);
      ([s[0]] + whole, rest)
  }

  /** const [whole, frac = ''] = text.split('.') */
  function SplitDot(s: string): (string, string) {
    var (whole, rest) := CutDot(s);
    (whole, if rest.None? then "" else CutDot(rest.value).0)
  }

  function ParseTyiyn(s: string): Option<nat> { if TyiynPattern(s) then Some(Value(s)) else None }

  lemma {:induction false} CutPlain(w: string)
    requires '.' !in w
    ensures CutDot(w) == (w, None)
  {
    if w != "" {
      assert forall c :: c in w[1..] ==> c in w;
      assert w[0] in w;
      CutPlain(w[1..]);
      assert w == [w[0]] + w[1..];
    }
  }

  lemma {:induction false} CutJoined(w: string, f: string)
    requires '.' !in w
    ensures CutDot(w + "." + f) == (w, Some(f))
  {
    if w == "" {
      assert (w + "." + f)[1..] == f;
    } else {
      var rest := w[1..];
      assert w == [w[0]] + rest && w[0] in w;
      assert forall c :: c in rest ==> c in w;
      CutJoined(rest, f);
      assert (w + "." + f)[1..] == rest + "." + f;
    }
  }

  lemma DigitsHaveNoDot(s: string)
    requires AllDigits(s)
    ensures '.' !in s && '-' !in s
  {
  }

  lemma SplitJoined(w: string, f: string)
    requires AllDigits(w) && AllDigits(f)
    ensures SplitDot(w + "." + f) == (w, f)
  {
    DigitsHaveNoDot(w);
    DigitsHaveNoDot(f);
    CutJoined(w, f);
    CutPlain(f);
  }

  lemma SplitPlain(w: string)
    requires AllDigits(w)
    ensures SplitDot(w) == (w, "")
  {
    DigitsHaveNoDot(w);
    CutPlain(w);
  }

  lemma PatternSplits(s: string)
    requires Decimal2Pattern(s)
    ensures AllDigits(SplitDot(s).0) && AllDigits(SplitDot(s).1) && |SplitDot(s).1| <= 2
    ensures SplitDot(s).0 == CutDot(s).0 && |SplitDot(s).0| >= 1
    ensures SplitDot(s).1 == if CutDot(s).1.Some? then CutDot(s).1.value else ""
  {
    if CutDot(s).1.Some? {
      DigitsHaveNoDot(CutDot(s).1.value);
      CutPlain(CutDot(s).1.value);
    }
  }

  lemma PaddedIsDigits(f: string)
    requires AllDigits(f)
    ensures AllDigits(PadEnd(f, 2)) && (|f| <= 2 ==> |PadEnd(f, 2)| == 2)
  {
  }

  /** "45.5" to 4550 hundredths. */
  function ParseCenti(s: string): Option<nat> {
    if !Decimal2Pattern(s) then None
    else
      PatternSplits(s);
      PaddedIsDigits(SplitDot(s).1);
      Some(100 * Value(SplitDot(s).0) + Value(PadEnd(SplitDot(s).1, 2)))
  }

  function Abs(v: int): nat { if v < 0 then -v else v }

  function Whole(a: nat): string { Print(a / 100) }

  function Cents(a: nat): string { PadStart(Print(a % 100), 2) }

  function Signed(v: int, unsigned: string): string { if v < 0 then "-" + unsigned else unsigned }

  function FormatCenti(v: int): string { Signed(v, Whole(Abs(v)) + "." + Cents(Abs(v))) }

  /** BigInt of a piece of the text; None is the SyntaxError. */
  function BigIntOf(s: string): Option<nat> { if AllDigits(s) then Some(Value(s)) else None }

  function CentiOf(whole: string, frac: string): Option<nat> {
    var (w, f) := (BigIntOf(whole), BigIntOf(PadEnd(frac, 2)[..2]));
    if w.None? || f.None? then None else Some(w.value * 100 + f.value)
  }

  function UnsignedToCenti(s: string): Option<nat> { CentiOf(SplitDot(s).0, SplitDot(s).1) }

  function DecimalToCenti(s: string): Option<int> {
    var negative := s != "" && s[0] == '-';
    var centi := UnsignedToCenti(if negative then s[1..] else s);
    if centi.None? then None
    else
      var value: int := centi.value;
      Some(if negative then -value else value)
  }

  // --- Printing and parsing undo each other ---------------------------------------------

  /** A minus sign in front negates. */
  lemma SignedText(s: string, n: int)
    requires s != "" && s[0] != '-' && UnsignedToCenti(s).Some? && UnsignedToCenti(s).value == n
    ensures DecimalToCenti(s) == Some(n) && DecimalToCenti("-" + s) == Some(-n)
  {
    assert ("-" + s)[1..] == s;
  }

  lemma CentiOfDigits(w: string, f: string)
    requires AllDigits(w) && AllDigits(f) && |f| <= 2
    ensures AllDigits(PadEnd(f, 2)) && CentiOf(w, f) == Some(100 * Value(w) + Value(PadEnd(f, 2)))
  {
    PaddedIsDigits(f);
    assert PadEnd(f, 2)[..2] == PadEnd(f, 2);
  }

  lemma UnsignedJoined(s: string, w: string, f: string)
    requires Canonical(w) && AllDigits(f) && |f| <= 2 && s == w + "." + f
    ensures AllDigits(PadEnd(f, 2)) && UnsignedToCenti(s) == Some(100 * Value(w) + Value(PadEnd(f, 2)))
    ensures s != "" && s[0] != '-'
  {
    SplitJoined(w, f);
    CentiOfDigits(w, f);
    assert s[0] == w[0];
  }

  /** The unsigned part of a printed amount. */
  lemma UnsignedText(s: string, w: string, f: string)
    requires Canonical(w) && AllDigits(f) && |f| <= 2 && s == w + "." + f
    ensures AllDigits(PadEnd(f, 2))
    ensures DecimalToCenti(s) == Some(100 * Value(w) + Value(PadEnd(f, 2)))
    ensures DecimalToCenti("-" + s) == Some(-(100 * Value(w) + Value(PadEnd(f, 2))))
  {
    UnsignedJoined(s, w, f);
    SignedText(s, 100 * Value(w) + Value(PadEnd(f, 2)));
  }

  lemma PlainText(w: string)
    requires Canonical(w)
    ensures DecimalToCenti(w) == Some(100 * Value(w))
    ensures DecimalToCenti("-" + w) == Some(-(100 * Value(w)))
  {
    SplitPlain(w);
    CentiOfDigits(w, "");
    NoFraction();
    SignedText(w, 100 * Value(w));
  }

  lemma NoFraction()
    ensures PadEnd("", 2)[..2] == PadEnd("", 2) && AllDigits(PadEnd("", 2)) && Value(PadEnd("", 2)) == 0
  {
    var z := PadEnd("", 2);
    assert z == "" + Zeros(2) == Zeros(2) + "";
    ZerosInFront(2, "");
  }

  lemma Parts(a: nat)
    ensures Canonical(Whole(a)) && Value(Whole(a)) == a / 100
    ensures AllDigits(Cents(a)) && |Cents(a)| == 2 && Value(Cents(a)) == a % 100
  {
    PrintReads(a / 100);
    TwoDigits(a % 100);
  }

  /** Every stored amount survives being shown and read back. */
  lemma FormatThenDecimal(v: int)
    ensures DecimalToCenti(FormatCenti(v)) == Some(v)
  {
    var a := Abs(v);
    Parts(a);
    UnsignedText(Whole(a) + "." + Cents(a), Whole(a), Cents(a));
    assert a == 100 * (a / 100) + a % 100;
  }

  lemma PrintedPattern(a: nat)
    ensures Decimal2Pattern(Whole(a) + "." + Cents(a)) <==> a < 1_000_000_000_000
    ensures a < 1_000_000_000_000 ==> ParseCenti(Whole(a) + "." + Cents(a)) == Some(a)
  {
    var w, f := Whole(a), Cents(a);
    Parts(a);
    DigitsHaveNoDot(w);
    CutJoined(w, f);
    SplitJoined(w, f);
    PrintLength(a / 100, 10);
    TenDigits();
    assert PadEnd(f, 2) == f;
  }

  /** The API parser reads the printed form back exactly when the amount is non-negative and below 10^12. */
  lemma FormatThenParse(v: int)
    ensures ParseCenti(FormatCenti(v)) == if 0 <= v < 1_000_000_000_000 then Some(v) else None
  {
    var a := Abs(v);
    PrintedPattern(a);
    if v < 0 {
      Parts(a);
      DigitsHaveNoDot(Whole(a));
      MinusIsNoDigit(Whole(a), Cents(a));
      assert FormatCenti(v) == "-" + (Whole(a) + "." + Cents(a));
    }
  }

  lemma MinusIsNoDigit(w: string, f: string)
    requires '.' !in w
    ensures !Decimal2Pattern("-" + (w + "." + f))
  {
    CutJoined("-" + w, f);
    assert "-" + (w + "." + f) == ("-" + w) + "." + f;
    assert !IsDigit(("-" + w)[0]);
  }

  lemma TenDigits()
    ensures Pow10(10) == 10_000_000_000
  {
    assert Pow10(5) == 100_000 by { assert Pow10(3) == 1000; }
    assert Pow10(8) == 100_000_000;
  }

  lemma ParseIsUnsigned(s: string)
    requires Decimal2Pattern(s)
    ensures ParseCenti(s).Some? && UnsignedToCenti(s) == ParseCenti(s)
    ensures s != "" && s[0] != '-'
  {
    PatternSplits(s);
    CentiOfDigits(SplitDot(s).0, SplitDot(s).1);
    assert s[0] == CutDot(s).0[0];
  }

  /** What the API parser accepts, the database reads as the same number. */
  lemma ParseAgrees(s: string)
    requires Decimal2Pattern(s)
    ensures ParseCenti(s).Some? && DecimalToCenti(s) == Some(ParseCenti(s).value)
  {
    ParseIsUnsigned(s);
    SignedText(s, ParseCenti(s).value);
  }

  lemma ParseBelow(s: string)
    requires Decimal2Pattern(s)
    ensures ParseCenti(s).Some? && ParseCenti(s).value < 1_000_000_000_000
  {
    PatternSplits(s);
    var w, f := SplitDot(s).0, SplitDot(s).1;
    PaddedIsDigits(f);
    ValueBelow(w);
    PowGrows(|w|, 10);
    TenDigits();
    ValueBelow(PadEnd(f, 2));
    assert Pow10(2) == 100;
  }

  lemma {:induction false} PowGrows(j: nat, k: nat)
    requires j <= k
    ensures 1 <= Pow10(j) <= Pow10(k)
  {
    if j > 0 { PowGrows(j - 1, k - 1); } else if k > 0 { PowGrows(0, k - 1); }
  }

  /** Printing puts a number in the one form with two decimals. */
  lemma ParseThenFormat(s: string)
    requires Decimal2Pattern(s)
    ensures ParseCenti(s).Some?
    ensures FormatCenti(ParseCenti(s).value) == s <==> CutDot(s).1.Some? && |CutDot(s).1.value| == 2
  {
    PatternSplits(s);
    var w, f := SplitDot(s).0, SplitDot(s).1;
    PaddedIsDigits(f);
    var p := PadEnd(f, 2);
    ReadPrints(w);
    TwoDigitText(p);
    var v := ParseCenti(s).value;
    assert v == 100 * Value(w) + Value(p) && v / 100 == Value(w) && v % 100 == Value(p);
    assert FormatCenti(v) == w + "." + p;
    DigitsHaveNoDot(w);
    CutJoined(w, p);
  }

  /** A database Decimal as the driver prints it: no trailing zeros after the dot. */
  function DecimalText(v: int): string {
    var a := Abs(v);
    Parts(a);
    if a % 100 == 0 then Signed(v, Whole(a))
    else if a % 10 == 0 then Signed(v, Whole(a) + "." + [Cents(a)[0]])
    else FormatCenti(v)
  }

  lemma StoredDecimalReads(v: int)
    ensures DecimalToCenti(DecimalText(v)) == Some(v)
  {
    var a := Abs(v);
    if a % 100 == 0 {
      Parts(a);
      PlainText(Whole(a));
    } else if a % 10 == 0 {
      OneDecimalReads(v);
    } else {
      FormatThenDecimal(v);
    }
  }

  lemma OneDecimalReads(v: int)
    requires Abs(v) % 10 == 0 && Abs(v) % 100 != 0
    ensures DecimalToCenti(DecimalText(v)) == Some(v)
  {
    var a := Abs(v);
    Parts(a);
    TrailingZero(a);
    UnsignedText(Whole(a) + "." + [Cents(a)[0]], Whole(a), [Cents(a)[0]]);
    assert a == 100 * (a / 100) + a % 100;
  }

  lemma TrailingZero(a: nat)
    requires a % 10 == 0
    ensures |Cents(a)| == 2 && AllDigits([Cents(a)[0]]) && PadEnd([Cents(a)[0]], 2) == Cents(a)
  {
    Parts(a);
    var c := Cents(a);
    Append("", c[0]);
    Append([c[0]], c[1]);
    assert c == "" + [c[0]] + [c[1]];
    assert a % 100 == 10 * DigitOf(c[0]) + DigitOf(c[1]);
  }

  lemma TyiynRoundTrip(n: nat)
    ensures ParseTyiyn(Print(n)) == if n < 10_000_000_000_000_000 then Some(n) else None
  {
    PrintReads(n);
    PrintLength(n, 16);
    TenDigits();
    assert Pow10(13) == 10_000_000_000_000;
  }

  lemma TyiynText(s: string)
    requires TyiynPattern(s)
    ensures ParseTyiyn(s).Some? && Print(ParseTyiyn(s).value) == s && ParseTyiyn(s).value < 10_000_000_000_000_000
  {
    ReadPrints(s);
    TyiynRoundTrip(Value(s));
  }

  // --- Rounding ---------------------------------------------------------------------------

  /** None is the Error thrown on a negative operand or divisor. */
  function MulDivRoundHalfUp(a: int, b: int, divisor: int): Option<nat> {
    if a < 0 || b < 0 || divisor <= 0 then None
    else
      MulNonNegative(a, b);
      Some((a * b * 2 + divisor) / (divisor * 2))
  }

  lemma MulNonNegative(a: nat, b: nat)
    ensures a * b >= 0
  {
  }

  /** q is x/d rounded to the nearest integer, a tie going up. */
  predicate RoundsTo(x: nat, d: nat, q: int) { 2 * d * q - d <= 2 * x < 2 * d * q + d }

  lemma RoundsHalfUp(a: nat, b: nat, divisor: nat, q: int)
    requires divisor > 0
    ensures MulDivRoundHalfUp(a, b, divisor).Some?
    ensures q == MulDivRoundHalfUp(a, b, divisor).value <==> RoundsTo(a * b, divisor, q)
  {
    MulNonNegative(a, b);
    var n, m := a * b * 2 + divisor, divisor * 2;
    Quotient(n, m, q);
  }

  lemma Cancel(m: nat, q: int, r: int)
    requires m * q < m * r + m
    ensures q <= r
  {
    if q > r {
      MulMonotone(r + 1, q, m);
      assert false;
    }
  }

  lemma Quotient(n: nat, m: nat, q: int)
    requires m > 0
    ensures q == n / m <==> m * q <= n < m * q + m
  {
    var r := n / m;
    assert m * r <= n < m * r + m;
    if m * q <= n < m * q + m {
      Cancel(m, q, r);
      Cancel(m, r, q);
    }
  }

  lemma MulMonotone(a: int, b: int, c: nat)
    requires a <= b
    ensures c * a <= c * b
  {
  }

  lemma RoundingMonotone(x: nat, y: nat, d: nat, p: int, q: int)
    requires d > 0 && x <= y && RoundsTo(x, d, p) && RoundsTo(y, d, q)
    ensures p <= q
  {
    Cancel(2 * d, p, q);
  }

  lemma MulDivMonotone(a: nat, b: nat, c: nat, e: nat, divisor: nat)
    requires divisor > 0 && a <= c && b <= e
    ensures MulDivRoundHalfUp(a, b, divisor).Some? && MulDivRoundHalfUp(c, e, divisor).Some?
    ensures MulDivRoundHalfUp(a, b, divisor).value <= MulDivRoundHalfUp(c, e, divisor).value
  {
    MulMonotone(a, c, b);
    MulMonotone(b, e, c);
    assert a * b <= c * e;
    var p, q := MulDivRoundHalfUp(a, b, divisor).value, MulDivRoundHalfUp(c, e, divisor).value;
    RoundsHalfUp(a, b, divisor, p);
    RoundsHalfUp(c, e, divisor, q);
    RoundingMonotone(a * b, c * e, divisor, p, q);
  }

  function ContractTotal(areaCenti: int, pricePerSqmTyiyn: int): Option<nat> {
    MulDivRoundHalfUp(areaCenti, pricePerSqmTyiyn, 100)
  }

  function PercentOf(amountTyiyn: int, percentCenti: int): Option<nat> {
    MulDivRoundHalfUp(amountTyiyn, percentCenti, 10_000)
  }

  /** A share of at most 100 % never exceeds the whole, and 100 % is the whole. */
  lemma PercentWithinWhole(x: nat, p: nat)
    requires p <= 10_000
    ensures PercentOf(x, p).Some? && PercentOf(x, p).value <= x
    ensures p == 10_000 ==> PercentOf(x, p).value == x
    ensures p == 0 ==> PercentOf(x, p).value == 0
  {
    RoundsHalfUp(x, 10_000, 10_000, x);
    MulDivMonotone(x, p, x, 10_000, 10_000);
    RoundsHalfUp(x, 0, 10_000, 0);
  }

  /** Splitting an amount into a share and its complement loses or gains at most one tyiyn. */
  lemma SharesAddUp(x: nat, p: nat)
    requires p <= 10_000
    ensures PercentOf(x, p).Some? && PercentOf(x, 10_000 - p).Some?
    ensures x <= PercentOf(x, p).value + PercentOf(x, 10_000 - p).value <= x + 1
  {
    var q := 10_000 - p;
    var r, t := PercentOf(x, p).value, PercentOf(x, q).value;
    RoundsHalfUp(x, p, 10_000, r);
    RoundsHalfUp(x, q, 10_000, t);
    assert x * p + x * q == 10_000 * x;
  }

  /** None is the RangeError. */
  function AssertFitsBigint(v: int): Option<int> {
    if v > MAX_DB_BIGINT || v < -MAX_DB_BIGINT then None else Some(v)
  }
}
