/** Decimal text of amounts (crates/cc-wallet-domain/src/amount.rs): canonical base-10
    integers, the two domain checks made on text, and the fixed-9 send and display forms. */
module Decimal {
  import opened Wrappers
  import opened Amounts
  import opened Arith

  predicate IsDigit(c: char) { '0' <= c <= '9' }

  predicate AllDigits(s: string) { forall i :: 0 <= i < |s| ==> IsDigit(s[i]) }

  function DigitValue(c: char): (d: nat)
    requires IsDigit(c)
    ensures d < 10
  {
    c as int - '0' as int
  }

  function DigitChar(d: nat): (c: char)
    requires d < 10
    ensures IsDigit(c) && DigitValue(c) == d
  {
    '0' + d as char
  }

  function Pow10(k: nat): (p: nat)
    ensures p >= 1
  {
    if k == 0 then 1 else 10 * Pow10(k - 1)
  }

  /** The number a digit string denotes. */
  function Value(s: string): nat
    requires AllDigits(s)
  {
    if s == [] then 0 else Value(s[..|s| - 1]) * 10 + DigitValue(s[|s| - 1])
  }

  /** `to_string` of an unsigned integer. */
  function Text(n: nat): (s: string)
    ensures AllDigits(s) && s != []
  {
    if n < 10 then [DigitChar(n)] else Text(n / 10) + [DigitChar(n % 10)]
  }

  predicate Canonical(s: string) {
    s != [] && AllDigits(s) && (|s| > 1 ==> s[0] != '0')
  }

  function Zeros(k: nat): (s: string)
    ensures |s| == k && AllDigits(s) && forall i :: 0 <= i < k ==> s[i] == '0'
  {
    seq(k, _ => '0')
  }

  // ----- text and value determine each other -----

  lemma {:induction false} TextIsCanonical(n: nat)
    ensures Canonical(Text(n)) && Value(Text(n)) == n
    ensures n > 0 ==> Text(n)[0] != '0'
  {
    if n >= 10 {
      TextIsCanonical(n / 10);
      var s := Text(n);
      assert s[..|s| - 1] == Text(n / 10);
    } else {
      assert Text(n)[..0] == [];
    }
  }

  lemma {:induction false} ValuePositive(s: string)
    requires AllDigits(s) && s != [] && s[0] != '0'
    ensures Value(s) > 0
  {
    if |s| > 1 { ValuePositive(s[..|s| - 1]); }
  }

  lemma {:induction false} TextOfValue(s: string)
    requires Canonical(s)
    ensures Text(Value(s)) == s
  {
    if |s| > 1 {
      var front := s[..|s| - 1];
      TextOfValue(front);
      ValuePositive(front);
      assert Value(s) / 10 == Value(front) && Value(s) % 10 == DigitValue(s[|s| - 1]);
      assert s == front + [s[|s| - 1]];
    } else {
      assert s[..0] == [];
      assert s == [s[0]];
    }
  }

  lemma {:induction false} ValueConcat(a: string, b: string)
    requires AllDigits(a) && AllDigits(b)
    ensures AllDigits(a + b) && Value(a + b) == Value(a) * Pow10(|b|) + Value(b)
  {
    if b == [] {
      assert a + b == a;
    } else {
      var front := b[..|b| - 1];
      ValueConcat(a, front);
      assert (a + b)[..|a + b| - 1] == a + front;
      ShiftDigit(Value(a), Pow10(|front|), Value(front));
      assert Pow10(|b|) == 10 * Pow10(|front|);
    }
  }

  lemma ShiftDigit(v: nat, p: nat, f: nat)
    ensures (v * p + f) * 10 == v * (10 * p) + f * 10
  {
    assert v * (10 * p) == v * p * 10;
  }

  lemma {:induction false} ValueOfZeros(k: nat)
    ensures Value(Zeros(k)) == 0
  {
    if k > 0 {
      assert Zeros(k)[..k - 1] == Zeros(k - 1);
      ValueOfZeros(k - 1);
    }
  }

  lemma {:induction false} ValueBelow(s: string)
    requires AllDigits(s)
    ensures Value(s) < Pow10(|s|)
  {
    if s != [] { ValueBelow(s[..|s| - 1]); }
  }

  lemma {:induction false} ValueAtLeast(s: string)
    requires AllDigits(s) && s != [] && s[0] != '0'
    ensures Value(s) >= Pow10(|s| - 1)
  {
    if |s| > 1 { ValueAtLeast(s[..|s| - 1]); }
  }

  lemma {:induction false} Pow10Monotone(a: nat, b: nat)
    requires a <= b
    ensures Pow10(a) <= Pow10(b)
  {
    if a < b { Pow10Monotone(a, b - 1); }
  }

  // ----- the domain checks made on text -----

  /** `str` comparison: lexicographic by character. */
  predicate TextGreater(a: string, b: string) {
    a != [] && (b == [] || a[0] > b[0] || (a[0] == b[0] && TextGreater(a[1..], b[1..])))
  }

  lemma ValueSplitFirst(s: string)
    requires AllDigits(s) && s != []
    ensures Value(s) == DigitValue(s[0]) * Pow10(|s| - 1) + Value(s[1..])
    ensures Value(s[1..]) < Pow10(|s| - 1)
  {
    var head, tail := [s[0]], s[1..];
    assert s == head + tail;
    ValueOne(s[0]);
    ValueConcat(head, tail);
    ValueBelow(tail);
  }

  lemma ValueOne(c: char)
    requires IsDigit(c)
    ensures AllDigits([c]) && Value([c]) == DigitValue(c)
  {
    assert [c][..0] == [];
  }

  lemma LeadingDigitDecides(x: nat, y: nat, p: nat, u: nat, v: nat)
    requires x < y && u < p
    ensures x * p + u < y * p + v
  {
    MulMonotone(x + 1, y, p);
    MulDistributes(x, 1, p);
  }

  /** Between digit strings of one length the textual order is the numeric order. */
  lemma {:induction false} TextOrderIsNumeric(a: string, b: string)
    requires AllDigits(a) && AllDigits(b) && |a| == |b|
    ensures TextGreater(a, b) <==> Value(a) > Value(b)
  {
    if a != [] {
      ValueSplitFirst(a);
      ValueSplitFirst(b);
      var p, u, v := Pow10(|a| - 1), Value(a[1..]), Value(b[1..]);
      if a[0] > b[0] {
        LeadingDigitDecides(DigitValue(b[0]), DigitValue(a[0]), p, v, u);
      } else if a[0] < b[0] {
        LeadingDigitDecides(DigitValue(a[0]), DigitValue(b[0]), p, u, v);
      } else {
        TextOrderIsNumeric(a[1..], b[1..]);
      }
    }
  }

  // the constant of the source, cut into three runs of 25 digits
  const CC_MAX_HEAD := "45231" + "28485" + "83266" + "38837" + "33241"
  const CC_MAX_MIDDLE := "60190" + "18714" + "00518" + "35877" + "60015"
  const CC_MAX_TAIL := "84532" + "79131" + "18753" + "09106" + "62655"
  const CC_MAX_DECIMAL := CC_MAX_HEAD + CC_MAX_MIDDLE + CC_MAX_TAIL

  lemma Value5(s: string)
    requires |s| == 5 && AllDigits(s)
    ensures Value(s) == DigitValue(s[0]) * 10000 + DigitValue(s[1]) * 1000 + DigitValue(s[2]) * 100
                        + DigitValue(s[3]) * 10 + DigitValue(s[4])
  {
    assert s[..4][..3] == s[..3] && s[..3][..2] == s[..2] && s[..2][..1] == s[..1] && s[..1][..0] == [];
    assert Value(s[..1]) == DigitValue(s[0]);
    assert Value(s[..2]) == DigitValue(s[0]) * 10 + DigitValue(s[1]);
    assert Value(s[..3]) == DigitValue(s[0]) * 100 + DigitValue(s[1]) * 10 + DigitValue(s[2]);
  }

  /** Reading five more digits. */
  lemma Push5(s: string, head: nat, chunk: string)
    requires AllDigits(s) && Value(s) == head && |chunk| == 5 && AllDigits(chunk)
    ensures AllDigits(s + chunk)
    ensures Value(s + chunk) == head * 100000
      + DigitValue(chunk[0]) * 10000 + DigitValue(chunk[1]) * 1000 + DigitValue(chunk[2]) * 100
      + DigitValue(chunk[3]) * 10 + DigitValue(chunk[4])
  {
    ValueConcat(s, chunk);
    Value5(chunk);
    assert Pow10(3) == 1000;
    assert Pow10(5) == 100000;
  }

  lemma CcMaxHeadValue()
    ensures AllDigits(CC_MAX_HEAD) && |CC_MAX_HEAD| == 25
    ensures Value(CC_MAX_HEAD) == 4523128485832663883733241
  {
    Value5("45231");
    var s := "45231";
    Push5(s, 45231, "28485");
    s := s + "28485";
    Push5(s, 4523128485, "83266");
    s := s + "83266";
    Push5(s, 452312848583266, "38837");
    s := s + "38837";
    Push5(s, 45231284858326638837, "33241");
  }

  lemma CcMaxMiddleValue()
    ensures AllDigits(CC_MAX_MIDDLE) && |CC_MAX_MIDDLE| == 25
    ensures Value(CC_MAX_MIDDLE) == 6019018714005183587760015
  {
    Value5("60190");
    var s := "60190";
    Push5(s, 60190, "18714");
    s := s + "18714";
    Push5(s, 6019018714, "00518");
    s := s + "00518";
    Push5(s, 601901871400518, "35877");
    s := s + "35877";
    Push5(s, 60190187140051835877, "60015");
  }

  lemma CcMaxTailValue()
    ensures AllDigits(CC_MAX_TAIL) && |CC_MAX_TAIL| == 25
    ensures Value(CC_MAX_TAIL) == 8453279131187530910662655
  {
    Value5("84532");
    var s := "84532";
    Push5(s, 84532, "79131");
    s := s + "79131";
    Push5(s, 8453279131, "18753");
    s := s + "18753";
    Push5(s, 845327913118753, "09106");
    s := s + "09106";
    Push5(s, 84532791311875309106, "62655");
  }

  /** The 75-digit text constant is 2^248 - 1. */
  lemma CcMaxDecimalValue()
    ensures AllDigits(CC_MAX_DECIMAL) && |CC_MAX_DECIMAL| == 75
    ensures Value(CC_MAX_DECIMAL) == CC_MAX_UNITS
  {
    CcMaxHeadValue();
    CcMaxMiddleValue();
    CcMaxTailValue();
    ValueConcat(CC_MAX_HEAD, CC_MAX_MIDDLE);
    ValueConcat(CC_MAX_HEAD + CC_MAX_MIDDLE, CC_MAX_TAIL);
    Pow10At25();
  }

  lemma Pow10At25()
    ensures Pow10(25) == 10000000000000000000000000
  {
    assert Pow10(5) == 100000;
    assert Pow10(10) == 10000000000;
    assert Pow10(15) == 1000000000000000;
    assert Pow10(20) == 100000000000000000000;
  }

  function EnsureCanonical(text: string): (r: Option<AmountError>)
    ensures r.None? <==> Canonical(text)
  {
    if text == [] then Some(Empty)
    else if !AllDigits(text) then Some(NonCanonicalDecimal)
    else if |text| > 1 && text[0] == '0' then Some(NonCanonicalDecimal)
    else None
  }

  function NativeFromDecimal(text: string): Result<nat, AmountError> {
    var shape := EnsureCanonical(text);
    if shape.Some? then Err(shape.value)
    else if |text| > 37 then Err(NativeOutOfDomain)
    else if Value(text) > NATIVE_MAX_UNITS then Err(NativeOutOfDomain)
    else Ok(Value(text))
  }

  function CcFromDecimal(text: string): Result<nat, AmountError> {
    var shape := EnsureCanonical(text);
    if shape.Some? then Err(shape.value)
    else if |text| > 75 then Err(TooManyDigits)
    else if |text| == 75 && TextGreater(text, CC_MAX_DECIMAL) then Err(ExtraCurrencyOutOfDomain)
    else Ok(Value(text))
  }

  lemma Pow10Bounds()
    ensures Pow10(37) > NATIVE_MAX_UNITS
    ensures Pow10(74) <= CC_MAX_UNITS < Pow10(75)
  {
    assert Pow10(5) == 100000;
    assert Pow10(10) == 10000000000;
    assert Pow10(15) == 1000000000000000;
    assert Pow10(20) == 100000000000000000000;
    assert Pow10(25) == 10000000000000000000000000;
    assert Pow10(30) == 1000000000000000000000000000000;
    assert Pow10(35) == 100000000000000000000000000000000000;
    assert Pow10(40) == 10000000000000000000000000000000000000000;
    assert Pow10(45) == 1000000000000000000000000000000000000000000000;
    assert Pow10(50) == 100000000000000000000000000000000000000000000000000;
    assert Pow10(55) == 10000000000000000000000000000000000000000000000000000000;
    assert Pow10(60) == 1000000000000000000000000000000000000000000000000000000000000;
    assert Pow10(65) == 100000000000000000000000000000000000000000000000000000000000000000;
    assert Pow10(70) == 10000000000000000000000000000000000000000000000000000000000000000000000;
    assert Pow10(75) == 1000000000000000000000000000000000000000000000000000000000000000000000000000;
  }

  /** The digit count and the text comparison accept exactly the canonical decimals below 2^248. */
  lemma CcFromDecimalExact(text: string)
    ensures CcFromDecimal(text).Ok? <==> Canonical(text) && Value(text) <= CC_MAX_UNITS
    ensures CcFromDecimal(text).Ok? ==> CcFromDecimal(text).value == Value(text)
  {
    if Canonical(text) {
      Pow10Bounds();
      CcMaxDecimalValue();
      if |text| > 75 {
        ValueAtLeast(text);
        Pow10Monotone(75, |text| - 1);
      } else if |text| == 75 {
        TextOrderIsNumeric(text, CC_MAX_DECIMAL);
      } else {
        ValueBelow(text);
        Pow10Monotone(|text|, 74);
      }
    }
  }

  lemma NativeFromDecimalExact(text: string)
    ensures NativeFromDecimal(text).Ok? <==> Canonical(text) && Value(text) <= NATIVE_MAX_UNITS
    ensures NativeFromDecimal(text).Ok? ==> NativeFromDecimal(text).value == Value(text)
  {
    if Canonical(text) && |text| > 37 {
      Pow10Bounds();
      ValueAtLeast(text);
      Pow10Monotone(37, |text| - 1);
    }
  }

  // ----- the fixed-9 forms -----

  const FIXED9_DECIMALS := 9

  datatype SendAmountError =
    | NonCanonicalSyntax | BadFraction | NotSendable | WholeTooLong | OutOfDomain(error: AmountError) | ZeroAmount

  function FirstDot(s: string): (i: nat)
    ensures i <= |s| && '.' !in s[..i] && (i < |s| ==> s[i] == '.')
  {
    if s == [] || s[0] == '.' then 0
    else
      var i := FirstDot(s[1..]) + 1;
      assert s[..i] == [s[0]] + s[1..][..i - 1];
      i
  }

  function WholePart(s: string): string { s[..FirstDot(s)] }

  /** The text after the first dot, if there is one. */
  function FractionPart(s: string): Option<string> {
    if FirstDot(s) < |s| then Some(s[FirstDot(s) + 1..]) else None
  }

  /** The syntax a send amount must have: a canonical whole part and 1 to 9 fraction digits. */
  predicate WellFormed(s: string) {
    && Canonical(WholePart(s))
    && (FractionPart(s).Some? ==> 1 <= |FractionPart(s).value| <= FIXED9_DECIMALS && AllDigits(FractionPart(s).value))
  }

  function FractionDigits(s: string): (f: string)
    requires WellFormed(s)
    ensures AllDigits(f) && |f| <= FIXED9_DECIMALS
  {
    if FractionPart(s).Some? then FractionPart(s).value else ""
  }

  function PaddedFraction(s: string): (f: string)
    requires WellFormed(s)
    ensures AllDigits(f) && |f| == FIXED9_DECIMALS
  {
    FractionDigits(s) + Zeros(FIXED9_DECIMALS - |FractionDigits(s)|)
  }

  /** Whole digits followed by the fraction padded to nine digits. */
  function FixedDigits(s: string): (d: string)
    requires WellFormed(s)
    ensures AllDigits(d) && |d| == |WholePart(s)| + FIXED9_DECIMALS
  {
    WholePart(s) + PaddedFraction(s)
  }

  function TrimZeros(s: string): (t: string)
    ensures t != [] ==> t[0] != '0'
    ensures AllDigits(s) ==> AllDigits(t)
    ensures |t| <= |s| && s == Zeros(|s| - |t|) + t
  {
    if s != [] && s[0] == '0' then
      var t := TrimZeros(s[1..]);
      assert s == ['0'] + s[1..];
      assert Zeros(|s| - |t|) == ['0'] + Zeros(|s| - 1 - |t|);
      t
    else s
  }

  function SyntaxError(value: string): (e: Option<SendAmountError>)
    ensures e.None? <==> WellFormed(value)
  {
    var fraction := FractionPart(value);
    if (fraction.Some? && '.' in fraction.value) || !Canonical(WholePart(value)) then Some(NonCanonicalSyntax)
    else if fraction.Some?
         && (fraction.value == [] || |fraction.value| > FIXED9_DECIMALS || !AllDigits(fraction.value)) then
      Some(BadFraction)
    else None
  }

  function UnitsFromDecimal(asset: AssetId, text: string): Result<nat, AmountError> {
    if asset.Native? then NativeFromDecimal(text) else CcFromDecimal(text)
  }

  function ParseSendAmount(asset: AssetId, value: string): Result<AssetAmount, SendAmountError> {
    var syntax := SyntaxError(value);
    if syntax.Some? then Err(syntax.value)
    else if !asset.IsSendable() then Err(NotSendable)
    else if |WholePart(value)| > MaxWholeDigits(asset) then Err(WholeTooLong)
    else AmountOfDigits(asset, FixedDigits(value))
  }

  /** Leading zeros dropped, the digits are read as base units. */
  function AmountOfDigits(asset: AssetId, digits: string): Result<AssetAmount, SendAmountError>
    requires AllDigits(digits)
  {
    AmountOfCanonical(asset, WithoutLeadingZeros(digits))
  }

  function WithoutLeadingZeros(digits: string): string {
    if TrimZeros(digits) == [] then "0" else TrimZeros(digits)
  }

  function AmountOfCanonical(asset: AssetId, canonical: string): Result<AssetAmount, SendAmountError> {
    var units := UnitsFromDecimal(asset, canonical);
    if units.Err? then Err(OutOfDomain(units.error))
    else
      UnitsInDomain(asset, canonical);
      if units.value == 0 then Err(SendAmountError.ZeroAmount) else Ok(TaggedUnits(asset, units.value))
  }

  function MaxWholeDigits(asset: AssetId): nat {
    if asset.Native? then 28 else 66
  }

  lemma UnitsInDomain(asset: AssetId, text: string)
    ensures UnitsFromDecimal(asset, text).Ok?
      <==> Canonical(text) && Value(text) <= asset.MaxUnits()
    ensures UnitsFromDecimal(asset, text).Ok?
      ==> UnitsFromDecimal(asset, text).value == Value(text)
  {
    NativeFromDecimalExact(text);
    CcFromDecimalExact(text);
  }

  function PadTo(s: string, width: nat): string {
    if |s| < width then Zeros(width - |s|) + s else s
  }

  /** At least one digit before the nine of the fraction. */
  function PaddedText(n: nat): (s: string)
    ensures |s| > FIXED9_DECIMALS
  {
    if |Text(n)| <= FIXED9_DECIMALS then PadTo(Text(n), FIXED9_DECIMALS + 1) else Text(n)
  }

  function FormatFixed9(amount: AssetAmount): string {
    var padded := PaddedText(amount.units);
    var split := |padded| - FIXED9_DECIMALS;
    padded[..split] + "." + padded[split..]
  }

  lemma TrimKeepsValue(s: string)
    requires AllDigits(s)
    ensures Value(TrimZeros(s)) == Value(s)
  {
    var t := TrimZeros(s);
    var z := Zeros(|s| - |t|);
    assert s == z + t;
    ValueConcat(z, t);
    ValueOfZeros(|s| - |t|);
    ZeroTimes(Value(z), Pow10(|t|));
  }

  lemma ZeroTimes(a: nat, b: nat)
    requires a == 0
    ensures a * b == 0
  {}

  /** Trimmed, with "0" standing for nothing left, a digit string is its number's canonical text. */
  lemma TrimmedText(s: string)
    requires AllDigits(s)
    ensures WithoutLeadingZeros(s) == Text(Value(s))
  {
    TrimKeepsValue(s);
    var t := TrimZeros(s);
    if t == [] {
      assert Value(s) == 0;
      assert Text(0) == [DigitChar(0)] == "0";
    } else {
      TextOfValue(t);
    }
  }

  /** The whole-part length precheck refuses nothing that would fit the domain. */
  lemma PrecheckIsImplied(asset: AssetId, text: string)
    requires WellFormed(text) && asset.IsSendable()
    requires |WholePart(text)| > MaxWholeDigits(asset)
    ensures Value(FixedDigits(text)) > asset.MaxUnits()
  {
    Pow10Bounds();
    ValueAtLeast(FixedDigits(text));
    Pow10Monotone(if asset.Native? then 37 else 75, |FixedDigits(text)| - 1);
  }

  lemma AmountOfDigitsExact(asset: AssetId, digits: string)
    requires AllDigits(digits)
    ensures AmountOfDigits(asset, digits).Ok? <==> 0 < Value(digits) <= asset.MaxUnits()
    ensures AmountOfDigits(asset, digits).Ok? ==> AmountOfDigits(asset, digits).value == TaggedUnits(asset, Value(digits))
  {
    TrimmedText(digits);
    TextIsCanonical(Value(digits));
    AmountOfCanonicalExact(asset, WithoutLeadingZeros(digits));
  }

  lemma AmountOfCanonicalExact(asset: AssetId, canonical: string)
    requires Canonical(canonical)
    ensures AmountOfCanonical(asset, canonical).Ok? <==> 0 < Value(canonical) <= asset.MaxUnits()
    ensures AmountOfCanonical(asset, canonical).Ok? ==>
      AmountOfCanonical(asset, canonical).value == TaggedUnits(asset, Value(canonical))
  {
    UnitsInDomain(asset, canonical);
  }

  /** A text is accepted exactly when it is well-formed, its asset can be sent and the number
      it denotes is positive and inside the asset's domain; then that number is the result. */
  lemma ParseSendAmountExact(asset: AssetId, text: string)
    ensures ParseSendAmount(asset, text).Ok? <==>
      WellFormed(text) && asset.IsSendable() && 0 < Value(FixedDigits(text)) <= asset.MaxUnits()
    ensures ParseSendAmount(asset, text).Ok? ==>
      ParseSendAmount(asset, text).value == TaggedUnits(asset, Value(FixedDigits(text)))
  {
    if WellFormed(text) && asset.IsSendable() {
      if |WholePart(text)| > MaxWholeDigits(asset) {
        PrecheckIsImplied(asset, text);
      } else {
        AmountOfDigitsExact(asset, FixedDigits(text));
      }
    }
  }

  lemma {:induction false} FirstDotOf(a: string, b: string)
    requires '.' !in a
    ensures FirstDot(a + "." + b) == |a|
    ensures WholePart(a + "." + b) == a && FractionPart(a + "." + b) == Some(b)
  {
    var s := a + "." + b;
    if a != [] {
      assert a[0] in a;
      assert s[1..] == a[1..] + "." + b;
      FirstDotOf(a[1..], b);
    }
    assert s[|a| + 1..] == b;
    assert s[..|a|] == a;
  }

  lemma PaddedTextDenotes(n: nat)
    ensures AllDigits(PaddedText(n)) && Value(PaddedText(n)) == n
    ensures Canonical(PaddedText(n)[..|PaddedText(n)| - FIXED9_DECIMALS])
  {
    TextIsCanonical(n);
    var k := FIXED9_DECIMALS + 1 - |Text(n)|;
    if k > 0 {
      ValueConcat(Zeros(k), Text(n));
      ValueOfZeros(k);
    }
  }

  /** A dotted text with nine fraction digits denotes its digits read as one number. */
  lemma DottedDigits(a: string, b: string)
    requires Canonical(a) && AllDigits(b) && |b| == FIXED9_DECIMALS
    ensures WellFormed(a + "." + b) && FixedDigits(a + "." + b) == a + b
  {
    assert '.' !in a by {
      forall i | 0 <= i < |a| ensures a[i] != '.' { assert IsDigit(a[i]); }
    }
    FirstDotOf(a, b);
    assert b + Zeros(0) == b;
  }

  /** What the display form denotes. */
  lemma FormatDenotes(amount: AssetAmount)
    ensures WellFormed(FormatFixed9(amount))
    ensures Value(FixedDigits(FormatFixed9(amount))) == amount.units
  {
    var padded := PaddedText(amount.units);
    var split := |padded| - FIXED9_DECIMALS;
    PaddedTextDenotes(amount.units);
    DottedDigits(padded[..split], padded[split..]);
    assert padded == padded[..split] + padded[split..];
  }

  /** Parsing the displayed text of a nonzero sendable amount returns that amount. */
  lemma FormatThenParse(amount: AssetAmount)
    requires amount.asset.IsSendable() && amount.units > 0
    ensures ParseSendAmount(amount.asset, FormatFixed9(amount)) == Ok(amount)
  {
    FormatDenotes(amount);
    ParseSendAmountExact(amount.asset, FormatFixed9(amount));
  }

  /** Ten or more digits without a needless leading zero are recovered from their number. */
  lemma PaddedTextOfValue(digits: string)
    requires AllDigits(digits) && |digits| >= FIXED9_DECIMALS + 1
    requires |digits| > FIXED9_DECIMALS + 1 ==> digits[0] != '0'
    ensures PaddedText(Value(digits)) == digits
  {
    if digits[0] != '0' {
      TextOfValue(digits);
    } else {
      TrimmedText(digits);
      var t := TrimZeros(digits);
      if t == [] {
        assert digits == Zeros(10) + t;
        assert PadTo("0", 10) == Zeros(10);
      } else {
        assert |t| < 10;
      }
    }
  }

  /** Displaying an accepted text only pads its fraction to nine digits. */
  lemma ParseThenFormat(asset: AssetId, text: string)
    requires ParseSendAmount(asset, text).Ok?
    ensures WellFormed(text)
    ensures FormatFixed9(ParseSendAmount(asset, text).value) == WholePart(text) + "." + PaddedFraction(text)
  {
    ParseSendAmountExact(asset, text);
    PaddedTextOfValue(FixedDigits(text));
    CutConcat(WholePart(text), PaddedFraction(text));
  }

  lemma CutConcat(a: string, b: string)
    ensures (a + b)[..|a + b| - |b|] == a && (a + b)[|a + b| - |b|..] == b
  {}

  // ----- the syntax and what it denotes, by parts -----

  lemma NoDotInDigits(s: string)
    requires AllDigits(s)
    ensures '.' !in s
  {
    forall i | 0 <= i < |s| ensures s[i] != '.' { assert IsDigit(s[i]); }
  }

  lemma {:induction false} NoDotMeansWhole(s: string)
    requires '.' !in s
    ensures FirstDot(s) == |s|
  {
    if s != [] { NoDotMeansWhole(s[1..]); }
  }

  /** A send amount is a canonical whole number, or one followed by a dot and one to nine digits. */
  lemma WellFormedIsGrammar(s: string)
    ensures WellFormed(s) <==>
      Canonical(s) || exists whole, fraction ::
        s == whole + "." + fraction && Canonical(whole) && 1 <= |fraction| <= 9 && AllDigits(fraction)
  {
    var k := FirstDot(s);
    if WellFormed(s) {
      if k < |s| {
        assert s == s[..k] + "." + s[k + 1..];
      } else {
        assert s[..k] == s;
      }
    }
    if Canonical(s) {
      NoDotInDigits(s);
      NoDotMeansWhole(s);
      assert s[..|s|] == s;
    }
    if whole, fraction :| s == whole + "." + fraction && Canonical(whole) && 1 <= |fraction| <= 9 && AllDigits(fraction) {
      NoDotInDigits(whole);
      FirstDotOf(whole, fraction);
    }
  }

  lemma ShiftValue(s: string, k: nat)
    requires AllDigits(s)
    ensures AllDigits(s + Zeros(k)) && Value(s + Zeros(k)) == Value(s) * Pow10(k)
  {
    ValueConcat(s, Zeros(k));
    ValueOfZeros(k);
  }

  lemma DottedParts(whole: string, fraction: string)
    requires Canonical(whole) && AllDigits(fraction) && 1 <= |fraction| <= 9
    ensures WellFormed(whole + "." + fraction)
    ensures FixedDigits(whole + "." + fraction) == whole + (fraction + Zeros(9 - |fraction|))
  {
    NoDotInDigits(whole);
    FirstDotOf(whole, fraction);
  }

  /** The number a dotted text denotes, in billionths. */
  lemma DottedValue(whole: string, fraction: string)
    requires Canonical(whole) && AllDigits(fraction) && 1 <= |fraction| <= 9
    ensures WellFormed(whole + "." + fraction)
    ensures Value(FixedDigits(whole + "." + fraction)) == Value(whole) * Pow10(9) + Value(fraction) * Pow10(9 - |fraction|)
  {
    DottedParts(whole, fraction);
    ShiftValue(fraction, 9 - |fraction|);
    ValueConcat(whole, fraction + Zeros(9 - |fraction|));
  }

  lemma WholeValue(whole: string)
    requires Canonical(whole)
    ensures WellFormed(whole) && Value(FixedDigits(whole)) == Value(whole) * Pow10(9)
  {
    NoDotInDigits(whole);
    NoDotMeansWhole(whole);
    assert whole[..|whole|] == whole;
    assert "" + Zeros(9) == Zeros(9);
    ShiftValue(whole, 9);
  }
}
