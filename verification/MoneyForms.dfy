/**
 Which texts are amounts and what the forms look like: the language of each parser, and the display and editable forms
 of every amount, negative ones and leading zeros included.
 */
module MoneyForms {
  import opened Wrappers
  import opened Money

  // ----- what the parsers accept -----

  /** The text is a number of whole units, perhaps with a dot and `least` to two further digits. */
  predicate Reads(text: string, whole: string, fraction: Option<string>, least: nat) {
    && whole != "" && AllDigits(whole)
    && match fraction
       case None => text == whole
       case Some(cents) => text == whole + "." + cents && AllDigits(cents) && least <= |cents| <= 2
  }

  /** A tenth counts ten, a hundredth one. */
  function Minor(whole: string, fraction: Option<string>): nat
    requires AllDigits(whole) && (fraction.Some? ==> AllDigits(fraction.value))
  {
    var cents := fraction.UnwrapOr("");
    Value(whole) * 100 + (if |cents| == 1 then 10 * Value(cents) else Value(cents))
  }

  lemma PaddedValue(cents: string)
    requires AllDigits(cents) && |cents| <= 2
    ensures Value(PadEnd(cents, 2)) == if |cents| == 1 then 10 * Value(cents) else Value(cents)
  {
    if cents == "" {
      PadNothing();
    } else if |cents| == 1 {
      assert PadEnd(cents, 2) == PadEnd(cents + ['0'], 2) == cents + ['0'];
      assert (cents + ['0'])[..1] == cents;
    }
  }

  lemma ReadsShape(s: string, whole: string, fraction: Option<string>, least: nat)
    ensures Reads(s, whole, fraction, least) <==> DecimalShape(s, least) && SplitDot(s) == (whole, fraction)
    ensures Reads(s, whole, fraction, least) ==> DecimalShape(s, 0) && MinorValue(s) == Minor(whole, fraction)
  {
    SplitDotJoins(s);
    if Reads(s, whole, fraction, least) {
      SplitDigits(whole, fraction.UnwrapOr(""));
      PaddedValue(fraction.UnwrapOr(""));
    }
  }

  /** The form's parser accepts exactly whole units with up to two digits after the dot, spaces around them aside. */
  lemma FormAccepts(s: string, v: nat)
    ensures ParseMajorToMinor(s) == Some(v)
       <==> exists whole, fraction :: Reads(Trim(s), whole, fraction, 0) && Minor(whole, fraction) == v
  {
    TrimTwice(s);
    ParseIsMinorValue(Trim(s));
    ShapeValue(Trim(s), 0, v);
    if DecimalShape(Trim(s), 0) { SomeIs(ParseMajorToMinor(s), MinorValue(Trim(s)), v); }
  }

  lemma SomeIs(o: Option<nat>, w: nat, v: nat)
    requires o == Some(w)
    ensures o == Some(v) <==> w == v
  {
  }

  lemma ShapeValue(s: string, least: nat, v: nat)
    ensures DecimalShape(s, least) ==> DecimalShape(s, 0)
    ensures DecimalShape(s, least) && MinorValue(s) == v
       <==> exists whole, fraction :: Reads(s, whole, fraction, least) && Minor(whole, fraction) == v
  {
    var (whole, fraction) := SplitDot(s);
    ReadsShape(s, whole, fraction, least);
    if w, f :| Reads(s, w, f, least) && Minor(w, f) == v { ReadsShape(s, w, f, least); }
  }

  /** The migration's parser wants at least one digit after a dot. */
  lemma MigrationAccepts(s: string, v: nat)
    ensures DecimalToMinor(s) == Some(v)
       <==> exists whole, fraction :: Reads(Trim(s), whole, fraction, 1) && Minor(whole, fraction) == v
  {
    ShapeValue(Trim(s), 1, v);
    if DecimalShape(Trim(s), 1) { SomeIs(DecimalToMinor(s), MinorValue(Trim(s)), v); }
  }

  /** The gateway's parser also wants no space around the amount. */
  lemma GatewayAccepts(s: string, v: nat)
    ensures GatewayAmount(s) == Some(v)
       <==> exists whole, fraction :: Reads(s, whole, fraction, 1) && Minor(whole, fraction) == v
  {
    ShapeValue(s, 1, v);
    if DecimalShape(s, 1) { SomeIs(GatewayAmount(s), MinorValue(s), v); }
  }

  // ----- trimming -----

  predicate AllSpace(s: string) {
    forall c :: c in s ==> IsSpace(c)
  }

  lemma {:induction false} TrimStartTakes(s: string) returns (front: string)
    ensures s == front + TrimStart(s) && AllSpace(front)
  {
    front := "";
    if s != "" && IsSpace(s[0]) {
      var rest := TrimStartTakes(s[1..]);
      front := [s[0]] + rest;
    }
  }

  lemma {:induction false} TrimEndTakes(s: string) returns (back: string)
    ensures s == TrimEnd(s) + back && AllSpace(back)
  {
    back := "";
    if s != "" && IsSpace(s[|s| - 1]) {
      var rest := TrimEndTakes(s[..|s| - 1]);
      back := rest + [s[|s| - 1]];
    }
  }

  /** Trimming takes white space from both ends, all of it and nothing else. */
  lemma TrimTakesSpace(s: string) returns (front: string, back: string)
    ensures s == front + Trim(s) + back && AllSpace(front) && AllSpace(back)
    ensures Trim(s) != "" ==> !IsSpace(Trim(s)[0]) && !IsSpace(Trim(s)[|Trim(s)| - 1])
  {
    front := TrimStartTakes(s);
    back := TrimEndTakes(TrimStart(s));
    TrimStartShape(s);
    TrimEndShape(TrimStart(s));
  }

  // ----- leading zeros -----

  predicate NoLeadingZero(s: string) {
    s != "" && (|s| > 1 ==> s[0] != '0')
  }

  lemma {:induction false} StripZerosShape(s: string)
    requires s != "" && AllDigits(s)
    ensures NoLeadingZero(StripZeros(s))
  {
    if |s| > 1 && s[0] == '0' { StripZerosShape(s[1..]); }
  }

  lemma {:induction false} DigitsOfValue(s: string)
    requires AllDigits(s) && NoLeadingZero(s)
    ensures ToDigits(Value(s)) == s && (s[0] != '0' ==> Value(s) > 0)
  {
    var init, last := s[..|s| - 1], s[|s| - 1];
    if init == "" {
      assert Value(init) == 0 && s == [last];
    } else {
      assert init[0] == s[0];
      DigitsOfValue(init);
      assert Value(s) / 10 == Value(init) && Value(s) % 10 == DigitValue(last);
      assert s == init + [last];
    }
  }

  /** Without its leading zeros a number is what its value prints as. */
  lemma StrippedIsPrinted(s: string)
    requires s != "" && AllDigits(s)
    ensures AllDigits(StripZeros(s)) && StripZeros(s) == ToDigits(Value(s))
  {
    StripZerosShape(s);
    StripZerosValue(s);
    DigitsOfValue(StripZeros(s));
  }

  // ----- negative amounts, and texts that are no amounts -----

  /** A minus sign comes after the symbol, in front of the form of the positive amount. */
  lemma NegativeForms(digits: string, currency: string, always: bool)
    requires digits != "" && AllDigits(digits)
    ensures var shown := FormatMinor(digits, currency, always);
            && Symbol(currency) <= shown
            && FormatMinor("-" + digits, currency, always) == Symbol(currency) + "-" + shown[|Symbol(currency)|..]
    ensures MinorToMajorInput("-" + digits) == "-" + MinorToMajorInput(digits)
  {
    var raw := "-" + digits;
    assert raw[1..] == digits && IsAmount(raw) && IsNegative(raw);
    AmountDigits(digits);
    var number := Shown(MinorDigits(digits), always);
    assert (Symbol(currency) + number)[|Symbol(currency)|..] == number;
    assert Symbol(currency) + ("-" + number) == Symbol(currency) + "-" + number;
  }

  /** A row of digits, perhaps behind a minus sign. */
  ghost predicate SignedDigits(raw: string) {
    exists digits :: digits != "" && AllDigits(digits) && (raw == digits || raw == "-" + digits)
  }

  lemma AmountsAreSignedDigits(raw: string)
    ensures IsAmount(raw) <==> SignedDigits(raw)
  {
    if digits :| digits != "" && AllDigits(digits) && raw == "-" + digits { assert raw[1..] == digits; }
    if IsAmount(raw) && !AllDigits(raw) { assert raw == "-" + raw[1..]; }
  }

  /** The forms treat a text as an amount exactly when it is a row of digits, perhaps behind a minus sign. */
  lemma OnlyAmountsAreShown(raw: string, currency: string, always: bool)
    ensures FormatMinor(raw, currency, always) == Symbol(currency) + DASH <==> !SignedDigits(raw)
    ensures MinorToMajorInput(raw) == "" <==> !SignedDigits(raw)
  {
    AmountsAreSignedDigits(raw);
    if IsAmount(raw) { ShownIsNoDash(raw, currency, always); }
  }

  lemma ShownIsNoDash(raw: string, currency: string, always: bool)
    requires IsAmount(raw)
    ensures FormatMinor(raw, currency, always) != Symbol(currency) + DASH
  {
    var digits := MinorDigits(raw);
    var whole := StripZeros(digits[..|digits| - 2]);
    var number := Shown(digits, always);
    var text := if IsNegative(raw) then "-" + number else number;
    GroupedFirst(whole);
    assert text[0] == '-' || IsDigit(text[0]);
    assert (Symbol(currency) + text)[|Symbol(currency)|] == text[0];
    assert (Symbol(currency) + DASH)[|Symbol(currency)|] == DASH[0];
  }

  lemma GroupedFirst(whole: string)
    requires whole != "" && AllDigits(whole)
    ensures Grouped(whole) != "" && IsDigit(Grouped(whole)[0])
  {
    if |whole| > 3 { PairsFirst(whole[..|whole| - 3]); }
  }

  lemma {:induction false} PairsFirst(head: string)
    requires head != "" && AllDigits(head)
    ensures Pairs(head) != "" && IsDigit(Pairs(head)[0])
  {
    if |head| > 2 { PairsFirst(head[..|head| - 2]); }
  }

  // ----- the forms in terms of the value -----

  /** Taka have a sign of their own; any other currency is named, with a space. */
  lemma SymbolOf(currency: string)
    ensures Symbol("BDT") == [0x09F3 as char] && (currency != "BDT" ==> Symbol(currency) == currency + " ")
  {
  }

  function TwoDigits(n: nat): string
    requires n < 100
  {
    [('0' as int + n / 10) as char, ('0' as int + n % 10) as char]
  }

  lemma TwoDigitsValue(s: string)
    requires AllDigits(s) && |s| == 2
    ensures Value(s) < 100 && TwoDigits(Value(s)) == s && (s == "00" <==> Value(s) == 0)
  {
    assert Value(s) == 10 * Value(s[..1]) + DigitValue(s[1]) && Value(s[..1]) == DigitValue(s[0]) by {
      assert s[..1][..0] == "";
    }
  }

  lemma PadsToThree(s: string)
    requires s != "" && |s| < 3
    ensures |PadStart(s, 3)| == 3
  {
    if |s| == 1 { assert |PadStart("0" + s, 3)| == |PadStart("0" + ("0" + s), 3)|; }
  }

  /** Cutting three or more digits before the last two leaves no leading zero, if they are stripped or just padded. */
  lemma UnitsStripped(raw: string)
    requires raw != "" && AllDigits(raw)
    ensures IsAmount(raw) && NoLeadingZero(MinorDigits(raw)[..|MinorDigits(raw)| - 2])
  {
    MinorDigitsValue(raw);
    var stripped, digits := StripZeros(raw), MinorDigits(raw);
    StripZerosShape(raw);
    if |stripped| < 3 { PadsToThree(stripped); }
  }

  lemma Hundreds(v: nat, units: nat, cents: nat)
    requires v == units * 100 + cents && cents < 100
    ensures v / 100 == units && v % 100 == cents
  {
  }

  lemma UnitsAndCents(raw: string) returns (units: string, cents: string)
    requires raw != "" && AllDigits(raw)
    ensures IsAmount(raw) && !IsNegative(raw) && MinorDigits(raw) == units + cents
    ensures |cents| == 2 && units == ToDigits(Value(raw) / 100) && cents == TwoDigits(Value(raw) % 100)
    ensures cents == "00" <==> Value(raw) % 100 == 0
  {
    MinorDigitsValue(raw);
    UnitsStripped(raw);
    var digits := MinorDigits(raw);
    units, cents := digits[..|digits| - 2], digits[|digits| - 2..];
    SplitCents(digits);
    DigitsOfValue(units);
    TwoDigitsValue(cents);
    Hundreds(Value(raw), Value(units), Value(cents));
  }

  /**
   The display form is the symbol, the grouped units, and the two digits of the cents exactly where cents are asked for
   or are not zero. The editable form is the units and always both digits of the cents.
   */
  lemma FormsOfValue(raw: string, currency: string, always: bool)
    requires raw != "" && AllDigits(raw)
    ensures FormatMinor(raw, currency, always)
         == Symbol(currency)
            + (Grouped(ToDigits(Value(raw) / 100))
               + if always || Value(raw) % 100 != 0 then "." + TwoDigits(Value(raw) % 100) else "")
    ensures MinorToMajorInput(raw) == ToDigits(Value(raw) / 100) + "." + TwoDigits(Value(raw) % 100)
  {
    var units, cents := UnitsAndCents(raw);
    var digits := MinorDigits(raw);
    assert digits[..|digits| - 2] == units && digits[|digits| - 2..] == cents;
    ToDigitsValue(Value(raw) / 100);
    PrintedIsStripped(Value(raw) / 100);
  }

  lemma PrintedIsStripped(n: nat)
    ensures StripZeros(ToDigits(n)) == ToDigits(n)
  {
    ToDigitsValue(n);
    StrippedIsPrinted(ToDigits(n));
  }
}
