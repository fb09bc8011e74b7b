/**
 * The browser's money text (frontend/src/features/contracts/money.ts): what a user types in som
 * against the tyiyn strings of the API. Everything is string arithmetic.
 */
module FrontendMoney {
  import opened Options
  import opened Digits
  import opened Money

  /** \s of a JavaScript regular expression. */
  predicate IsSpace(c: char) {
    || c == ' ' || '\U{0009}' <= c <= '\U{000D}' || c == '\U{00A0}' || c == '\U{1680}'
    || '\U{2000}' <= c <= '\U{200A}' || c == '\U{2028}' || c == '\U{2029}'
    || c == '\U{202F}' || c == '\U{205F}' || c == '\U{3000}' || c == '\U{FEFF}'
  }

  /** replace(/\s/g, '') */
  function RemoveSpaces(s: string): string {
    if s == "" then ""
    else (if IsSpace(s[0]) then "" else [s[0]]) + RemoveSpaces(s[1..])
  }

  /** replace(',', '.'): the first comma only. */
  function CommaToDot(s: string): string {
    if s == "" then ""
    else if s[0] == ',' then "." + s[1..]
    else [s[0]] + CommaToDot(s[1..])
  }

  function Compact(input: string): string { CommaToDot(RemoveSpaces(input)) }

  /** ^\d+(\.\d{1,2})?$, which unlike the API's pattern allows leading zeros and any length. */
  predicate InputPattern(s: string) {
    var (whole, rest) := CutDot(s);
    && |whole| > 0 && AllDigits(whole)
    && (rest.Some? ==> AllDigits(rest.value) && 1 <= |rest.value| <= 2)
  }

  /** replace(/^0+(?=\d)/, ''): zeros go while another digit follows. */
  function StripLeadingZeros(s: string): (r: string)
    requires AllDigits(s)
    ensures Canonical(r)
    ensures s != "" ==> Value(r) == Value(s)
  {
    if s == "" then "0"
    else if |s| > 1 && s[0] == '0' then
      LeadingZero(s);
      StripLeadingZeros(s[1..])
    else s
  }

  lemma InputSplits(s: string)
    requires InputPattern(s)
    ensures AllDigits(SplitDot(s).0) && AllDigits(SplitDot(s).1) && |SplitDot(s).1| <= 2 && |SplitDot(s).0| > 0
  {
    if CutDot(s).1.Some? {
      DigitsHaveNoDot(CutDot(s).1.value);
      CutPlain(CutDot(s).1.value);
    }
  }

  function SomToTyiyn(input: string): Option<string> {
    var compact := Compact(input);
    if compact == "" || !InputPattern(compact) then None
    else
      InputSplits(compact);
      var (integer, fraction) := SplitDot(compact);
      var tyiyn := StripLeadingZeros(integer + (fraction + "00")[..2]);
      if TyiynPattern(tyiyn) then Some(tyiyn) else None
  }

  /** { whole, fraction } of a tyiyn string. */
  function SplitTyiynAsSom(value: string): (string, string)
    requires AllDigits(value)
  {
    var digits := PadStart(value, 3);
    (StripLeadingZeros(digits[..|digits| - 2]), digits[|digits| - 2..])
  }

  /** A space before every digit but the first that has a multiple of three digits from it to the end. */
  function GroupFrom(digits: string, i: nat): string
    requires i <= |digits|
    decreases |digits| - i
  {
    if i == |digits| then ""
    else Piece(digits, i) + GroupFrom(digits, i + 1)
  }

  function GroupThousands(digits: string): string { GroupFrom(digits, 0) }

  /** formatTyiynAsSom without its unit; None is the dash. */
  function FormatTyiynAsSom(value: string): Option<string> {
    if !TyiynPattern(value) then None
    else
      var (whole, fraction) := SplitTyiynAsSom(value);
      Some(GroupThousands(whole) + "," + fraction)
  }

  /** The same with an optional minus in front. */
  function FormatSignedTyiynAsSom(value: string): Option<string> {
    if value == "" then None
    else if value[0] == '-' then
      match FormatTyiynAsSom(value[1..])
      case None => None
      case Some(magnitude) => Some("-" + magnitude)
    else FormatTyiynAsSom(value)
  }

  function StripTrailingZeros(s: string): (r: string)
    ensures r <= s
  {
    if s != "" && s[|s| - 1] == '0' then StripTrailingZeros(s[..|s| - 1]) else s
  }

  function NormalizeDecimal2Input(input: string): Option<string> {
    var compact := Compact(input);
    if compact == "" || !InputPattern(compact) then None
    else
      InputSplits(compact);
      var (rawInteger, rawFraction) := SplitDot(compact);
      var integer := StripLeadingZeros(rawInteger);
      var fraction := StripTrailingZeros(rawFraction);
      Some(if fraction == "" then integer else integer + "." + fraction)
  }

  // --- Spaces and grouping ------------------------------------------------------------------

  lemma {:induction false} RemoveSpacesSplits(a: string, b: string)
    ensures RemoveSpaces(a + b) == RemoveSpaces(a) + RemoveSpaces(b)
  {
    if a == "" {
      assert a + b == b;
    } else {
      assert (a + b)[1..] == a[1..] + b;
      RemoveSpacesSplits(a[1..], b);
    }
  }

  lemma {:induction false} NoSpaces(s: string)
    requires forall i :: 0 <= i < |s| ==> !IsSpace(s[i])
    ensures RemoveSpaces(s) == s
  {
    if s != "" { NoSpaces(s[1..]); }
  }

  function Separator(digits: string, i: nat): string
    requires i <= |digits|
  {
    if i > 0 && (|digits| - i) % 3 == 0 then " " else ""
  }

  function Piece(digits: string, i: nat): string
    requires i < |digits|
  {
    Separator(digits, i) + [digits[i]]
  }

  lemma {:induction false} GroupingOnlyAddsSpaces(digits: string, i: nat)
    requires i <= |digits| && AllDigits(digits)
    ensures RemoveSpaces(GroupFrom(digits, i)) == digits[i..]
    decreases |digits| - i
  {
    if i < |digits| {
      GroupingOnlyAddsSpaces(digits, i + 1);
      RemoveSpacesSplits(Piece(digits, i), GroupFrom(digits, i + 1));
      PieceWithoutSpace(digits, i);
      HeadOf(digits, i);
    }
  }

  lemma PieceWithoutSpace(digits: string, i: nat)
    requires i < |digits| && AllDigits(digits)
    ensures RemoveSpaces(Piece(digits, i)) == [digits[i]]
  {
    RemoveSpacesSplits(Separator(digits, i), [digits[i]]);
    NoSpaces([digits[i]]);
  }

  /** From a group boundary on, the text is groups of exactly three digits. */
  function Groups(digits: string): string
    decreases |digits|
  {
    if |digits| <= 3 then digits else Groups(digits[..|digits| - 3]) + (" " + digits[|digits| - 3..])
  }

  /** Fewer than three digits from the end there is no boundary left. */
  lemma {:induction false} LastDigits(digits: string, i: nat)
    requires i <= |digits| && |digits| - i <= 2
    ensures GroupFrom(digits, i) == digits[i..]
    decreases |digits| - i
  {
    if i < |digits| {
      LastDigits(digits, i + 1);
      assert Separator(digits, i) == "";
      assert digits[i..] == Piece(digits, i) + digits[i + 1..];
    }
  }

  lemma {:induction false} GroupTail(digits: string, i: nat)
    requires |digits| > 3 && i <= |digits| - 3
    ensures GroupFrom(digits, i) == GroupFrom(digits[..|digits| - 3], i) + (" " + digits[|digits| - 3..])
    decreases |digits| - i
  {
    if i == |digits| - 3 {
      GroupTailBase(digits);
      Associative("", "", " " + digits[i..]);
    } else {
      GroupTail(digits, i + 1);
      GroupTailStep(digits, i);
    }
  }

  lemma GroupTailBase(digits: string)
    requires |digits| > 3
    ensures GroupFrom(digits, |digits| - 3) == " " + digits[|digits| - 3..]
    ensures GroupFrom(digits[..|digits| - 3], |digits| - 3) == ""
  {
    var n := |digits| - 3;
    var tail := digits[n + 1..];
    LastDigits(digits, n + 1);
    HeadOf(digits, n);
    assert Separator(digits, n) == " ";
    Associative(" ", [digits[n]], tail);
  }

  lemma HeadOf(s: string, n: nat)
    requires n < |s|
    ensures s[n..] == [s[n]] + s[n + 1..]
  {
  }

  lemma GroupTailStep(digits: string, i: nat)
    requires |digits| > 3 && i < |digits| - 3
    requires GroupFrom(digits, i + 1) == GroupFrom(digits[..|digits| - 3], i + 1) + (" " + digits[|digits| - 3..])
    ensures GroupFrom(digits, i) == GroupFrom(digits[..|digits| - 3], i) + (" " + digits[|digits| - 3..])
  {
    var front := digits[..|digits| - 3];
    SamePiece(digits, i);
    var piece, rest := Piece(digits, i), GroupFrom(front, i + 1);
    assert GroupFrom(front, i) == piece + rest;
    Associative(piece, rest, " " + digits[|digits| - 3..]);
  }

  lemma SamePiece(digits: string, i: nat)
    requires |digits| > 3 && i < |digits| - 3
    ensures Piece(digits[..|digits| - 3], i) == Piece(digits, i)
  {
  }

  lemma Associative(a: string, b: string, c: string)
    ensures a + (b + c) == (a + b) + c
  {
  }

  /** The regular expression of groupThousands cuts threes from the right. */
  lemma {:induction false} GroupsFromTheRight(digits: string)
    ensures GroupThousands(digits) == Groups(digits)
    decreases |digits|
  {
    if |digits| > 3 {
      GroupTail(digits, 0);
      GroupsFromTheRight(digits[..|digits| - 3]);
    } else {
      ShortGroup(digits, 0);
    }
  }

  lemma {:induction false} ShortGroup(digits: string, i: nat)
    requires |digits| <= 3 && i <= |digits|
    ensures GroupFrom(digits, i) == digits[i..]
    decreases |digits| - i
  {
    if i < |digits| { ShortGroup(digits, i + 1); }
  }

  // --- Round trips ----------------------------------------------------------------------------

  lemma {:induction false} CommaJoined(w: string, f: string)
    requires AllDigits(w)
    ensures CommaToDot(w + "," + f) == w + "." + f
  {
    var s := w + "," + f;
    if w == "" {
      assert s == "," + f && s[1..] == f;
      assert w + "." + f == "." + f;
    } else {
      assert s[1..] == w[1..] + "," + f;
      CommaJoined(w[1..], f);
      assert w + "." + f == [w[0]] + (w[1..] + "." + f);
    }
  }

  /** Whatever stands for w with spaces in it, then a comma and two digits, compacts to w.f. */
  lemma CompactGrouped(w: string, f: string)
    requires AllDigits(w) && AllDigits(f)
    ensures Compact(GroupThousands(w) + "," + f) == w + "." + f
  {
    var g := GroupThousands(w);
    GroupingOnlyAddsSpaces(w, 0);
    assert w[0..] == w;
    RemoveSpacesSplits(g + ",", f);
    RemoveSpacesSplits(g, ",");
    NoSpaces(",");
    NoSpaces(f);
    CommaJoined(w, f);
  }

  lemma TyiynParts(value: string)
    requires TyiynPattern(value)
    ensures Canonical(SplitTyiynAsSom(value).0) && AllDigits(SplitTyiynAsSom(value).1)
    ensures |SplitTyiynAsSom(value).1| == 2
    ensures StripLeadingZeros(SplitTyiynAsSom(value).0 + SplitTyiynAsSom(value).1) == value
  {
    var digits := PadStart(value, 3);
    ZerosInFront(3 - (if |value| < 3 then |value| else 3), value);
    assert AllDigits(digits) && Value(digits) == Value(value);
    var (w, f) := SplitTyiynAsSom(value);
    var front, back := digits[..|digits| - 2], digits[|digits| - 2..];
    assert front + back == digits;
    AppendTwo(front, back);
    AppendTwo(w, f);
    assert Value(w + f) == Value(value);
    SameCanonical(StripLeadingZeros(w + f), value);
  }

  lemma SameCanonical(a: string, b: string)
    requires Canonical(a) && Canonical(b) && Value(a) == Value(b)
    ensures a == b
  {
    ReadPrints(a);
    ReadPrints(b);
  }

  /** Typing what was shown gives back the amount, for every amount the API can send. */
  lemma FormatThenType(value: string)
    requires TyiynPattern(value)
    ensures FormatTyiynAsSom(value).Some? && SomToTyiyn(FormatTyiynAsSom(value).value) == Some(value)
  {
    var (w, f) := SplitTyiynAsSom(value);
    TyiynParts(value);
    CompactGrouped(w, f);
    DigitsHaveNoDot(w);
    CutJoined(w, f);
    SplitJoined(w, f);
    assert (f + "00")[..2] == f;
  }

  /** Different amounts are shown differently. */
  lemma FormatInjective(a: string, b: string)
    requires TyiynPattern(a) && TyiynPattern(b) && FormatTyiynAsSom(a) == FormatTyiynAsSom(b)
    ensures a == b
  {
    FormatThenType(a);
    FormatThenType(b);
  }

  /** A negative total is shown as the minus sign and its magnitude, and as nothing a form would accept. */
  lemma SignedFormat(value: string)
    requires TyiynPattern(value)
    ensures FormatSignedTyiynAsSom(value) == FormatTyiynAsSom(value)
    ensures FormatSignedTyiynAsSom("-" + value).Some?
    ensures SomToTyiyn(FormatSignedTyiynAsSom("-" + value).value).None?
  {
    assert ("-" + value)[1..] == value;
    var t := FormatSignedTyiynAsSom("-" + value).value;
    assert RemoveSpaces(t)[0] == '-';
    var c := Compact(t);
    assert c[0] == '-';
    assert CutDot(c).0[0] == '-';
  }

  /** 12,5 and 12.50 and 012.5 all mean 1250 tyiyn: the digits with the missing decimals filled in. */
  lemma TypedAmount(input: string)
    ensures SomToTyiyn(input).Some? ==>
              InputPattern(Compact(input)) && DecimalToCenti(Compact(input)) == ParsedAs(SomToTyiyn(input).value)
    ensures SomToTyiyn(input).None? <==>
              !InputPattern(Compact(input)) || DecimalToCenti(Compact(input)).None?
              || DecimalToCenti(Compact(input)).value >= 10_000_000_000_000_000
  {
    var c := Compact(input);
    if InputPattern(c) {
      InputReads(c);
      var (w, f) := SplitDot(c);
      InputSplits(c);
      var p := PadEnd(f, 2);
      assert (f + "00")[..2] == p;
      AppendTwo(w, p);
      SixteenDigits(StripLeadingZeros(w + p));
    }
  }

  lemma SixteenDigits(t: string)
    requires Canonical(t)
    ensures TyiynPattern(t) <==> Value(t) < 10_000_000_000_000_000
  {
    ReadPrints(t);
    TyiynRoundTrip(Value(t));
  }

  function ParsedAs(tyiyn: string): Option<int> {
    match ParseTyiyn(tyiyn)
    case None => None
    case Some(n) => Some(n)
  }

  lemma InputReads(c: string)
    requires InputPattern(c)
    ensures AllDigits(SplitDot(c).0) && AllDigits(PadEnd(SplitDot(c).1, 2)) && |PadEnd(SplitDot(c).1, 2)| == 2
    ensures DecimalToCenti(c) == Some(100 * Value(SplitDot(c).0) + Value(PadEnd(SplitDot(c).1, 2)))
  {
    InputSplits(c);
    var (w, f) := SplitDot(c);
    PaddedIsDigits(f);
    assert CutDot(c).0 == w && c[0] == w[0];
    assert PadEnd(f, 2)[..2] == PadEnd(f, 2);
  }

  /** The normalised text stands for the same number as the typed one, and the API accepts it below 10^12. */
  lemma NormalizedMeansTheSame(input: string)
    ensures NormalizeDecimal2Input(input).Some? <==> InputPattern(Compact(input))
    ensures NormalizeDecimal2Input(input).Some? ==>
              && DecimalToCenti(Compact(input)).Some?
              && DecimalToCenti(NormalizeDecimal2Input(input).value) == DecimalToCenti(Compact(input))
    ensures NormalizeDecimal2Input(input).Some? && ParseCenti(NormalizeDecimal2Input(input).value).Some? ==>
              ParseCenti(NormalizeDecimal2Input(input).value).value == DecimalToCenti(Compact(input)).value
    ensures NormalizeDecimal2Input(input).Some? ==>
              (Decimal2Pattern(NormalizeDecimal2Input(input).value) <==>
               DecimalToCenti(Compact(input)).value < 1_000_000_000_000)
  {
    var c := Compact(input);
    if InputPattern(c) {
      InputSplits(c);
      InputReads(c);
      NormalizedValue(SplitDot(c).0, SplitDot(c).1);
      if Decimal2Pattern(NormalizeDecimal2Input(input).value) { ParseAgrees(NormalizeDecimal2Input(input).value); }
    }
  }

  function Joined(integer: string, fraction: string): string {
    if fraction == "" then integer else integer + "." + fraction
  }

  lemma NormalizedValue(w: string, f: string)
    requires AllDigits(w) && |w| > 0 && AllDigits(f) && |f| <= 2
    ensures AllDigits(PadEnd(f, 2))
    ensures DecimalToCenti(Joined(StripLeadingZeros(w),
            StripTrailingZeros(f))) == Some(100 * Value(w) + Value(PadEnd(f, 2)))
    ensures Decimal2Pattern(Joined(StripLeadingZeros(w), StripTrailingZeros(f)))
            <==> 100 * Value(w) + Value(PadEnd(f, 2)) < 1_000_000_000_000
  {
    var i, g := StripLeadingZeros(w), StripTrailingZeros(f);
    PaddedIsDigits(f);
    TrailingZerosPad(f);
    JoinedValue(i, g);
    JoinedPattern(i, g);
    TenDigitsHold(i, PadEnd(f, 2));
  }

  lemma TenDigitsHold(i: string, p: string)
    requires Canonical(i) && AllDigits(p) && |p| == 2
    ensures |i| <= 10 <==> 100 * Value(i) + Value(p) < 1_000_000_000_000
  {
    ReadPrints(i);
    PrintLength(Value(i), 10);
    TenDigits();
    TwoDigitText(p);
  }

  lemma JoinedValue(i: string, g: string)
    requires Canonical(i) && AllDigits(g) && |g| <= 2
    ensures AllDigits(PadEnd(g, 2)) && DecimalToCenti(Joined(i, g)) == Some(100 * Value(i) + Value(PadEnd(g, 2)))
  {
    if g == "" {
      PlainText(i);
      NoFraction();
    } else {
      UnsignedText(i + "." + g, i, g);
    }
  }

  lemma JoinedPattern(i: string, g: string)
    requires Canonical(i) && AllDigits(g) && |g| <= 2
    ensures Decimal2Pattern(Joined(i, g)) <==> |i| <= 10
  {
    DigitsHaveNoDot(i);
    if g == "" { CutPlain(i); } else { CutJoined(i, g); }
  }

  lemma {:induction false} TrailingZerosPad(f: string)
    requires AllDigits(f) && |f| <= 2
    ensures AllDigits(StripTrailingZeros(f)) && PadEnd(StripTrailingZeros(f), 2) == PadEnd(f, 2)
  {
    if f != "" && f[|f| - 1] == '0' {
      var g := f[..|f| - 1];
      TrailingZerosPad(g);
      assert PadEnd(g, 2) == g + Zeros(2 - |g|) == f + Zeros(2 - |f|);
    }
  }
}
