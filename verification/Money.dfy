/**
 Decimal money: the display and input forms of money.ts, and the three parsers of decimal amounts.
 */
module Money {
  import opened Wrappers

  // ----- digits -----

  predicate IsDigit(c: char) {
    '0' <= c <= '9'
  }

  predicate AllDigits(s: string) {
    forall i :: 0 <= i < |s| ==> IsDigit(s[i])
  }

  function DigitValue(c: char): nat
    requires IsDigit(c)
  {
    c as int - '0' as int
  }

  /** BigInt of a string of digits; the empty string is zero. */
  function Value(s: string): nat
    requires AllDigits(s)
  {
    if s == "" then 0 else 10 * Value(s[..|s| - 1]) + DigitValue(s[|s| - 1])
  }

  /** String of a non-negative BigInt. */
  function ToDigits(n: nat): string {
    if n < 10 then [('0' as int + n) as char] else ToDigits(n / 10) + [('0' as int + n % 10) as char]
  }

  lemma {:induction false} ToDigitsValue(n: nat)
    ensures ToDigits(n) != "" && AllDigits(ToDigits(n)) && Value(ToDigits(n)) == n
  {
    var s := ToDigits(n);
    if n >= 10 {
      ToDigitsValue(n / 10);
      assert s[..|s| - 1] == ToDigits(n / 10);
    } else {
      assert s[..0] == "";
    }
  }

  function Power(k: nat): nat { if k == 0 then 1 else 10 * Power(k - 1) }

  lemma {:induction false} ValueAppend(a: string, b: string)
    requires AllDigits(a) && AllDigits(b)
    ensures AllDigits(a + b) && Value(a + b) == Value(a) * Power(|b|) + Value(b)
  {
    if b == "" {
      assert a + b == a;
    } else {
      var init := b[..|b| - 1];
      assert (a + b)[..|a + b| - 1] == a + init;
      ValueAppend(a, init);
      assert (a + b)[|a + b| - 1] == b[|b| - 1];
      Scale(Value(a), Power(|init|));
    }
  }

  lemma Scale(x: nat, p: nat)
    ensures 10 * (x * p) == x * (10 * p)
  {
  }

  /** replace(/^0+(?=\d)/, ""): drops leading zeros but keeps one digit. */
  function StripZeros(s: string): (r: string)
    ensures AllDigits(s) ==> AllDigits(r)
    ensures s != "" ==> r != "" && |r| <= |s|
  {
    if |s| > 1 && s[0] == '0' && IsDigit(s[1]) then StripZeros(s[1..]) else s
  }

  lemma {:induction false} StripZerosValue(s: string)
    requires AllDigits(s)
    ensures AllDigits(StripZeros(s)) && Value(StripZeros(s)) == Value(s)
  {
    if StripZeros(s) != s {
      StripZerosValue(s[1..]);
      assert s == ['0'] + s[1..];
      ValueAppend(['0'], s[1..]);
    }
  }

  function PadStart(s: string, length: nat): (r: string)
    ensures |r| >= length && |r| >= |s|
    ensures AllDigits(s) ==> AllDigits(r)
    decreases length - |s|
  {
    if |s| >= length then s else PadStart(['0'] + s, length)
  }

  lemma {:induction false} PadStartValue(s: string, length: nat)
    requires AllDigits(s)
    ensures Value(PadStart(s, length)) == Value(s)
    decreases length - |s|
  {
    if |s| < length {
      ValueAppend(['0'], s);
      PadStartValue(['0'] + s, length);
    }
  }

  function PadEnd(s: string, length: nat): (r: string)
    ensures |r| >= length && (|s| <= length ==> |r| == length)
    ensures AllDigits(s) ==> AllDigits(r)
    decreases length - |s|
  {
    if |s| >= length then s else PadEnd(s + ['0'], length)
  }

  // ----- the display and input forms -----

  predicate IsAmount(raw: string) {
    raw != "" && (AllDigits(raw) || (raw[0] == '-' && |raw| > 1 && AllDigits(raw[1..])))
  }

  lemma AmountDigits(raw: string)
    requires IsAmount(raw)
    ensures !IsNegative(raw) <==> AllDigits(raw)
  {
    assert AllDigits(raw) ==> IsDigit(raw[0]);
  }

  predicate IsNegative(raw: string) {
    raw != "" && raw[0] == '-'
  }

  /** The digits without sign and leading zeros, at least three of them. */
  function MinorDigits(raw: string): (d: string)
    requires IsAmount(raw)
    ensures AllDigits(d) && |d| >= 3
  {
    assert AllDigits(raw) ==> IsDigit(raw[0]);
    PadStart(StripZeros(if IsNegative(raw) then raw[1..] else raw), 3)
  }

  function WithDot(digits: string): string
    requires |digits| >= 3
  {
    digits[..|digits| - 2] + "." + digits[|digits| - 2..]
  }

  /** minorToMajorInput. */
  function MinorToMajorInput(raw: string): string {
    if !IsAmount(raw) then ""
    else
      var major := WithDot(MinorDigits(raw));
      if IsNegative(raw) then "-" + major else major
  }

  /** The groups of two in front of the last three digits. */
  function Pairs(head: string): string {
    if |head| <= 2 then head else Pairs(head[..|head| - 2]) + "," + head[|head| - 2..]
  }

  function Grouped(value: string): string {
    if |value| <= 3 then value else Pairs(value[..|value| - 3]) + "," + value[|value| - 3..]
  }

  function Join(groups: seq<string>): string {
    if groups == [] then "" else if |groups| == 1 then groups[0] else groups[0] + "," + Join(groups[1..])
  }

  lemma {:induction false} JoinLast(groups: seq<string>, last: string)
    requires groups != []
    ensures Join(groups + [last]) == Join(groups) + "," + last
  {
    if |groups| == 1 {
      assert (groups + [last])[1..] == [last];
    } else {
      assert (groups + [last])[1..] == groups[1..] + [last];
      JoinLast(groups[1..], last);
    }
  }

  lemma JoinFront(group: string, groups: seq<string>)
    requires groups != []
    ensures Join([group] + groups) == group + "," + Join(groups)
  {
    assert ([group] + groups)[1..] == groups;
  }

  lemma {:induction false} PairsSplit(head: string, cursor: nat)
    requires 2 < cursor <= |head|
    ensures Pairs(head[..cursor]) == Pairs(head[..cursor - 2]) + "," + head[cursor - 2..cursor]
  {
    assert head[..cursor][..cursor - 2] == head[..cursor - 2];
    assert head[..cursor][cursor - 2..] == head[cursor - 2..cursor];
  }

  /** The groups are those of the text behind the cursor. */
  ghost predicate Grouping(head: string, cursor: nat, groups: seq<string>) {
    && cursor <= |head| && (groups == [] ==> cursor == |head|)
    && (groups != [] ==> Pairs(head) == if cursor == 0 then Join(groups)
                                        else Pairs(head[..cursor]) + "," + Join(groups))
  }

  lemma GroupingStep(head: string, cursor: nat, groups: seq<string>, start: nat)
    requires Grouping(head, cursor, groups) && cursor > 0 && start == if cursor > 2 then cursor - 2 else 0
    ensures Grouping(head, start, [head[start..cursor]] + groups)
  {
    assert head[..|head|] == head;
    if cursor > 2 { PairsSplit(head, cursor); }
    if groups != [] { JoinFront(head[start..cursor], groups); }
    assert start == 0 ==> head[..cursor] == head[start..cursor];
  }

  /** groupedInteger: the cursor walks from the back, two digits at a time. */
  method GroupedInteger(value: string) returns (r: string)
    ensures r == Grouped(value)
  {
    if |value| <= 3 { return value; }
    var tail := value[|value| - 3..];
    var head := value[..|value| - 3];
    var groups: seq<string> := [];
    var cursor := |head|;
    while cursor > 0
      invariant 0 <= cursor <= |head|
      invariant Grouping(head, cursor, groups)
    {
      var start := if cursor - 2 > 0 then cursor - 2 else 0;
      GroupingStep(head, cursor, groups, start);
      groups := [head[start..cursor]] + groups;
      cursor := start;
    }
    r := Join(groups) + "," + tail;
  }

  const TAKA := "\U{09F3}"
  const DASH := "\U{2014}"

  function Symbol(currency: string): string {
    if currency == "BDT" then TAKA else currency + " "
  }

  /** The number that formatMinor shows after the symbol and the sign. */
  function Shown(digits: string, always: bool): string
    requires |digits| >= 3
  {
    var fraction := digits[|digits| - 2..];
    Grouped(StripZeros(digits[..|digits| - 2])) + (if always || fraction != "00" then "." + fraction else "")
  }

  /** formatMinor; `always` stands for minimumFractionDigits = 2. */
  function FormatMinor(raw: string, currency: string, always: bool): string {
    if !IsAmount(raw) then Symbol(currency) + DASH
    else
      var number := Shown(MinorDigits(raw), always);
      Symbol(currency) + (if IsNegative(raw) then "-" + number else number)
  }

  // ----- the parsers -----

  /** What trim removes: white space and line terminators. */
  predicate IsSpace(c: char) {
    || c == ' ' || '\t' <= c <= '\r' || c == '\U{A0}' || c == '\U{FEFF}'
    || c == '\U{1680}' || '\U{2000}' <= c <= '\U{200A}' || c == '\U{2028}' || c == '\U{2029}'
    || c == '\U{202F}' || c == '\U{205F}' || c == '\U{3000}'
  }

  function TrimStart(s: string): string {
    if s != "" && IsSpace(s[0]) then TrimStart(s[1..]) else s
  }

  function TrimEnd(s: string): string {
    if s != "" && IsSpace(s[|s| - 1]) then TrimEnd(s[..|s| - 1]) else s
  }

  function Trim(s: string): string { TrimEnd(TrimStart(s)) }

  /** The part before the first dot, and what follows the dot if there is one. */
  function SplitDot(s: string): (string, Option<string>) {
    if s == "" then ("", None)
    else if s[0] == '.' then ("", Some(s[1..]))
    else var (whole, fraction) := SplitDot(s[1..]); ([s[0]] + whole, fraction)
  }

  /** One or more digits, then optionally a dot and at least `least` and at most two digits. */
  predicate DecimalShape(s: string, least: nat) {
    var (whole, fraction) := SplitDot(s);
    whole != "" && AllDigits(whole) && (fraction.None? || (AllDigits(fraction.value) && least <= |fraction.value| <= 2))
  }

  /** Whole units times a hundred plus the fraction padded to two digits. */
  function MinorValue(s: string): nat
    requires DecimalShape(s, 0)
  {
    var (whole, fraction) := SplitDot(s);
    Value(whole) * 100 + Value(PadEnd(if fraction.Some? then fraction.value else "", 2))
  }

  /** parseMajorToMinor: a trailing dot is accepted. */
  function ParseMajorToMinor(value: string): Option<nat> {
    var normalized := Trim(value);
    if !DecimalShape(normalized, 0) then None
    else
      var (whole, fraction) := SplitDot(normalized);
      var padded := PadEnd(if fraction.Some? then fraction.value else "", 2);
      Some(Value(StripZeros(whole)) * 100 + Value(if padded == "" then "0" else padded))
  }

  /** decimalToMinor of the migration, before it is printed back as a string. */
  function DecimalToMinor(value: string): Option<nat> {
    var text := Trim(value);
    if !DecimalShape(text, 1) then None else Some(MinorValue(text))
  }

  /** amountMinor of the payment gateway: no trimming. */
  function GatewayAmount(value: string): Option<nat> {
    if !DecimalShape(value, 1) then None else Some(MinorValue(value))
  }

  // ----- the parsers agree -----

  lemma {:induction false} SplitDigits(whole: string, rest: string)
    requires AllDigits(whole)
    ensures SplitDot(whole + "." + rest) == (whole, Some(rest)) && SplitDot(whole) == (whole, None)
  {
    if whole != "" {
      assert IsDigit(whole[0]);
      assert (whole + "." + rest)[0] == whole[0] && (whole + "." + rest)[1..] == whole[1..] + "." + rest;
      SplitDigits(whole[1..], rest);
      assert [whole[0]] + whole[1..] == whole;
    } else {
      assert (whole + "." + rest)[1..] == rest;
    }
  }

  lemma TrimDigits(s: string)
    requires s != "" && (IsDigit(s[0]) || s[0] == '-') && (IsDigit(s[|s| - 1]) || s[|s| - 1] == '.')
    ensures Trim(s) == s
  {
  }

  /** Trimmed text parses in the form exactly when it has the wide shape, and then to its value. */
  lemma ParseIsMinorValue(s: string)
    requires Trim(s) == s
    ensures ParseMajorToMinor(s) == if DecimalShape(s, 0) then Some(MinorValue(s)) else None
  {
    if DecimalShape(s, 0) { StripZerosValue(SplitDot(s).0); }
  }

  /** An amount as people write it: digits, then perhaps a dot and one or two digits. */
  function Written(whole: string, fraction: string): string {
    if fraction == "" then whole else whole + "." + fraction
  }

  lemma WrittenShape(whole: string, fraction: string)
    requires whole != "" && AllDigits(whole) && AllDigits(fraction) && |fraction| <= 2
    ensures DecimalShape(Written(whole, fraction), 1) && DecimalShape(Written(whole, fraction), 0)
    ensures MinorValue(Written(whole, fraction)) == Value(whole) * 100 + Value(PadEnd(fraction, 2))
  {
    SplitDigits(whole, fraction);
  }

  lemma WrittenTrimmed(whole: string, fraction: string)
    requires whole != "" && AllDigits(whole) && AllDigits(fraction)
    ensures Trim(Written(whole, fraction)) == Written(whole, fraction)
  {
    var s := Written(whole, fraction);
    assert s[0] == whole[0] && IsDigit(whole[0]);
    assert s[|s| - 1] == if fraction == "" then whole[|whole| - 1] else fraction[|fraction| - 1];
    TrimDigits(s);
  }

  /** The form's parser reads the text as the amount. */
  predicate Parses(text: string, v: nat) {
    ParseMajorToMinor(text).Some? && ParseMajorToMinor(text).value == v
  }

  lemma SomeValue(o: Option<nat>, v: nat)
    requires o.Some? && o.value == v
    ensures o == Some(v)
  {
  }

  lemma ParsedValue(whole: string, fraction: string, s: string)
    requires whole != "" && AllDigits(whole) && AllDigits(fraction) && |fraction| <= 2 && s == Written(whole, fraction)
    ensures ParseMajorToMinor(s).Some? && ParseMajorToMinor(s).value == Value(whole) * 100 + Value(PadEnd(fraction, 2))
    ensures DecimalShape(s, 1) && Trim(s) == s && MinorValue(s) == Value(whole) * 100 + Value(PadEnd(fraction, 2))
  {
    WrittenShape(whole, fraction);
    WrittenTrimmed(whole, fraction);
    ParseIsMinorValue(s);
  }

  /** On every string of digits with an optional fraction of one or two digits, the three parsers give one amount. */
  lemma ParsersAgree(whole: string, fraction: string)
    requires whole != "" && AllDigits(whole) && AllDigits(fraction) && |fraction| <= 2
    ensures var s, v := Written(whole, fraction), Value(whole) * 100 + Value(PadEnd(fraction, 2));
            ParseMajorToMinor(s) == Some(v) && DecimalToMinor(s) == Some(v) && GatewayAmount(s) == Some(v)
  {
    var s, v := Written(whole, fraction), Value(whole) * 100 + Value(PadEnd(fraction, 2));
    ParsedValue(whole, fraction, s);
    SomeValue(ParseMajorToMinor(s), v);
    StrictValue(s, v);
  }

  lemma StrictValue(s: string, v: nat)
    requires Trim(s) == s && DecimalShape(s, 1) && MinorValue(s) == v
    ensures DecimalToMinor(s) == Some(v) && GatewayAmount(s) == Some(v)
  {
  }

  lemma {:induction false} TrimStartShape(s: string)
    ensures TrimStart(s) == "" || !IsSpace(TrimStart(s)[0])
  {
    if s != "" && IsSpace(s[0]) { TrimStartShape(s[1..]); }
  }

  lemma {:induction false} TrimEndShape(s: string)
    ensures TrimEnd(s) <= s && (TrimEnd(s) == "" || !IsSpace(TrimEnd(s)[|TrimEnd(s)| - 1]))
  {
    if s != "" && IsSpace(s[|s| - 1]) { TrimEndShape(s[..|s| - 1]); }
  }

  /** Trimming trimmed text changes nothing. */
  lemma TrimTwice(s: string)
    ensures Trim(Trim(s)) == Trim(s)
  {
    TrimStartShape(s);
    TrimEndShape(TrimStart(s));
  }

  lemma {:induction false} SplitDotJoins(s: string)
    ensures var (whole, fraction) := SplitDot(s); s == whole + (if fraction.Some? then "." + fraction.value else "")
  {
    if s != "" && s[0] != '.' { SplitDotJoins(s[1..]); }
  }

  /** An amount has no surrounding space. */
  lemma ShapeIsTrimmed(s: string)
    requires DecimalShape(s, 0)
    ensures Trim(s) == s
  {
    SplitDotJoins(s);
    var (whole, fraction) := SplitDot(s);
    assert IsDigit(whole[0]) && IsDigit(whole[|whole| - 1]) && s[0] == whole[0];
    if fraction.Some? && fraction.value != "" { assert IsDigit(fraction.value[|fraction.value| - 1]); }
    TrimDigits(s);
  }

  /**
   On any text: the form's parser and the migration's differ exactly on a trailing dot, where the form accepts; and the
   gateway's parser, which does not trim, differs from the migration's exactly on an amount with surrounding space.
   */
  lemma ParsersDiffer(s: string)
    ensures var (whole, fraction) := SplitDot(Trim(s));
            ParseMajorToMinor(s) != DecimalToMinor(s) <==> fraction == Some("") && whole != "" && AllDigits(whole)
    ensures DecimalToMinor(s).Some? ==> ParseMajorToMinor(s) == DecimalToMinor(s)
    ensures GatewayAmount(s) != DecimalToMinor(s) <==> DecimalToMinor(s).Some? && Trim(s) != s
    ensures GatewayAmount(s).Some? ==> GatewayAmount(s) == DecimalToMinor(s)
  {
    TrimTwice(s);
    ParseIsMinorValue(Trim(s));
    if DecimalShape(s, 1) { ShapeIsTrimmed(s); }
  }

  // ----- round trips -----

  lemma MinorDigitsValue(raw: string)
    requires raw != "" && AllDigits(raw)
    ensures IsAmount(raw) && !IsNegative(raw) && Value(MinorDigits(raw)) == Value(raw)
  {
    assert IsDigit(raw[0]);
    StripZerosValue(raw);
    PadStartValue(StripZeros(raw), 3);
  }

  lemma SplitCents(digits: string)
    requires AllDigits(digits) && |digits| >= 3
    ensures AllDigits(digits[..|digits| - 2]) && AllDigits(digits[|digits| - 2..])
    ensures Value(digits) == Value(digits[..|digits| - 2]) * 100 + Value(digits[|digits| - 2..])
  {
    var cut := |digits| - 2;
    assert digits == digits[..cut] + digits[cut..];
    assert Power(2) == 100 by { assert Power(1) == 10; }
    ValueAppend(digits[..cut], digits[cut..]);
  }

  lemma PadNothing()
    ensures PadEnd("", 2) == "00" && Value("00") == 0
  {
    assert PadEnd("" + ['0'], 2) == PadEnd("0" + ['0'], 2) == "00";
    assert "00"[..1] == "0" && "0"[..0] == "";
  }

  lemma ParseWithCents(whole: string, fraction: string)
    requires whole != "" && AllDigits(whole) && AllDigits(fraction) && |fraction| == 2
    ensures Parses(whole + "." + fraction, Value(whole) * 100 + Value(fraction))
  {
    ParsedValue(whole, fraction, whole + "." + fraction);
    assert PadEnd(fraction, 2) == fraction;
  }

  lemma ParseWithoutCents(whole: string)
    requires whole != "" && AllDigits(whole)
    ensures Parses(whole, Value(whole) * 100)
  {
    ParsedValue(whole, "", whole);
    PadNothing();
  }

  lemma NegativeRefused(whole: string, fraction: string)
    requires AllDigits(whole) && AllDigits(fraction) && |fraction| == 2
    ensures ParseMajorToMinor("-" + (whole + "." + fraction)) == None
  {
    var s := "-" + (whole + "." + fraction);
    assert s[|s| - 1] == fraction[1] && IsDigit(fraction[1]);
    TrimDigits(s);
    assert s[1..] == whole + "." + fraction;
    SplitDigits(whole, fraction);
    assert SplitDot(s).0 == ['-'] + whole;
    assert SplitDot(s).0[0] == '-' && SplitDot(s).0[0] in SplitDot(s).0;
  }

  lemma ParseDigits(digits: string)
    requires AllDigits(digits) && |digits| >= 3
    ensures Parses(WithDot(digits), Value(digits))
  {
    SplitCents(digits);
    ParseWithCents(digits[..|digits| - 2], digits[|digits| - 2..]);
  }

  /** The editable form of an amount parses back exactly when the amount is not negative. */
  lemma EditableRoundTrip(raw: string)
    requires IsAmount(raw)
    ensures !IsNegative(raw) <==> AllDigits(raw)
    ensures ParseMajorToMinor(MinorToMajorInput(raw)) == if IsNegative(raw) then None else Some(Value(raw))
  {
    AmountDigits(raw);
    var digits := MinorDigits(raw);
    if IsNegative(raw) {
      SplitCents(digits);
      NegativeRefused(digits[..|digits| - 2], digits[|digits| - 2..]);
    } else {
      MinorDigitsValue(raw);
      ParseDigits(digits);
      SomeValue(ParseMajorToMinor(WithDot(digits)), Value(raw));
    }
  }

  function RemoveCommas(s: string): string {
    if s == "" then "" else (if s[0] == ',' then [] else [s[0]]) + RemoveCommas(s[1..])
  }

  lemma {:induction false} RemoveCommasAppend(a: string, b: string)
    ensures RemoveCommas(a + b) == RemoveCommas(a) + RemoveCommas(b)
  {
    if a == "" {
      assert a + b == b;
    } else {
      assert (a + b)[1..] == a[1..] + b;
      RemoveCommasAppend(a[1..], b);
    }
  }

  lemma {:induction false} NoCommas(s: string)
    requires ',' !in s
    ensures RemoveCommas(s) == s
  {
    if s != "" { NoCommas(s[1..]); }
  }

  lemma {:induction false} PairsContent(head: string)
    requires ',' !in head
    ensures RemoveCommas(Pairs(head)) == head
  {
    if |head| > 2 {
      var cut := |head| - 2;
      PairsContent(head[..cut]);
      NoCommas(head[cut..]);
      RemoveCommasAppend(Pairs(head[..cut]) + ",", head[cut..]);
      RemoveCommasAppend(Pairs(head[..cut]), ",");
      assert RemoveCommas(",") == "";
    } else {
      NoCommas(head);
    }
  }

  /** Without its commas the grouped form is the number again. */
  lemma GroupedContent(value: string)
    requires ',' !in value
    ensures RemoveCommas(Grouped(value)) == value
  {
    if |value| > 3 {
      var cut := |value| - 3;
      PairsContent(value[..cut]);
      NoCommas(value[cut..]);
      RemoveCommasAppend(Pairs(value[..cut]) + ",", value[cut..]);
      RemoveCommasAppend(Pairs(value[..cut]), ",");
      assert RemoveCommas(",") == "";
    } else {
      NoCommas(value);
    }
  }

  lemma {:induction false} PairsCommas(head: string, k: nat)
    requires ',' !in head && k < |Pairs(head)|
    ensures Pairs(head)[|Pairs(head)| - 1 - k] == ',' <==> k % 3 == 2
    ensures head != "" ==> Pairs(head) != "" && Pairs(head)[0] != ','
    decreases |head|
  {
    var p := Pairs(head);
    if |head| <= 2 {
      assert p[|p| - 1 - k] in head && p[0] in head;
    } else {
      var cut := |head| - 2;
      var front := Pairs(head[..cut]);
      assert p == front + "," + head[cut..];
      PairsCommas(head[..cut], if k >= 3 then k - 3 else 0);
      if k < 2 {
        assert p[|p| - 1 - k] in head;
      } else if k > 2 {
        assert p[|p| - 1 - k] == front[|front| - 1 - (k - 3)];
      }
      assert p[0] == front[0];
    }
  }

  /**
   Where the commas are: counted from the back, after three digits and then after every two.  The form never begins
   with a comma.
   */
  lemma GroupedCommas(value: string, k: nat)
    requires ',' !in value && value != "" && k < |Grouped(value)|
    ensures Grouped(value)[|Grouped(value)| - 1 - k] == ',' <==> k >= 3 && k % 3 == 0
    ensures Grouped(value)[0] != ','
  {
    var g := Grouped(value);
    if |value| <= 3 {
      assert g[|g| - 1 - k] in value && g[0] in value;
    } else {
      var cut := |value| - 3;
      var front := Pairs(value[..cut]);
      assert g == front + "," + value[cut..];
      if k < 3 {
        assert g[|g| - 1 - k] in value;
      } else if k > 3 {
        assert g[|g| - 1 - k] == front[|front| - 1 - (k - 4)];
        PairsCommas(value[..cut], k - 4);
      }
      PairsNonEmpty(value[..cut]);
      PairsCommas(value[..cut], 0);
      assert g[0] == front[0];
    }
  }

  lemma {:induction false} PairsNonEmpty(head: string)
    requires head != ""
    ensures Pairs(head) != ""
  {
  }

  lemma ShownContent(whole: string, fraction: string, cents: bool)
    requires AllDigits(whole) && AllDigits(fraction)
    ensures RemoveCommas(Grouped(whole) + (if cents then "." + fraction else ""))
         == if cents then whole + "." + fraction else whole
  {
    var tail := if cents then "." + fraction else "";
    TailContent(fraction);
    GroupedContent(whole);
    WithTail(Grouped(whole), tail, whole);
    assert whole + ("." + fraction) == whole + "." + fraction && whole + "" == whole;
  }

  lemma WithTail(a: string, tail: string, whole: string)
    requires RemoveCommas(a) == whole && RemoveCommas(tail) == tail
    ensures RemoveCommas(a + tail) == whole + tail
  {
    RemoveCommasAppend(a, tail);
  }

  lemma TailContent(fraction: string)
    requires AllDigits(fraction)
    ensures RemoveCommas("." + fraction) == "." + fraction && RemoveCommas("") == ""
  {
    NoCommas("." + fraction);
  }

  lemma Drop(a: string, b: string)
    ensures a <= a + b && (a + b)[|a|..] == b
  {
  }

  /** The shown form without commas: the whole units, and the cents where they are shown. */
  lemma ShownText(digits: string, always: bool) returns (whole: string, fraction: string, cents: bool)
    requires AllDigits(digits) && |digits| >= 3
    ensures whole != "" && AllDigits(whole) && AllDigits(fraction) && |fraction| == 2
    ensures RemoveCommas(Shown(digits, always)) == if cents then whole + "." + fraction else whole
    ensures Value(digits) == Value(whole) * 100 + Value(fraction) && (!cents ==> Value(fraction) == 0)
  {
    var front := digits[..|digits| - 2];
    fraction := digits[|digits| - 2..];
    SplitCents(digits);
    StripZerosValue(front);
    whole := StripZeros(front);
    cents := always || fraction != "00";
    ShownContent(whole, fraction, cents);
    if !cents { PadNothing(); }
  }

  lemma ParseEither(whole: string, fraction: string, cents: bool, text: string)
    requires whole != "" && AllDigits(whole) && AllDigits(fraction) && |fraction| == 2
             && (!cents ==> Value(fraction) == 0)
    requires text == if cents then whole + "." + fraction else whole
    ensures Parses(text, Value(whole) * 100 + Value(fraction))
  {
    if cents { ParseWithCents(whole, fraction); } else { ParseWithoutCents(whole); }
  }

  lemma ParseShown(digits: string, always: bool)
    requires AllDigits(digits) && |digits| >= 3
    ensures Parses(RemoveCommas(Shown(digits, always)), Value(digits))
  {
    var whole, fraction, cents := ShownText(digits, always);
    ParseEither(whole, fraction, cents, RemoveCommas(Shown(digits, always)));
  }

  /** The display form without its symbol and commas parses back to the amount, with or without the fraction. */
  lemma DisplayRoundTrip(raw: string, currency: string, always: bool)
    requires raw != "" && AllDigits(raw)
    ensures var shown := FormatMinor(raw, currency, always);
            && Symbol(currency) <= shown
            && ParseMajorToMinor(RemoveCommas(shown[|Symbol(currency)|..])) == Some(Value(raw))
  {
    MinorDigitsValue(raw);
    ParseShown(MinorDigits(raw), always);
    Drop(Symbol(currency), Shown(MinorDigits(raw), always));
    SomeValue(ParseMajorToMinor(RemoveCommas(Shown(MinorDigits(raw), always))), Value(raw));
  }

  /** Both forms of every non-negative integer amount lead back to the amount. */
  lemma AmountRoundTrips(n: nat, currency: string, always: bool)
    ensures ParseMajorToMinor(MinorToMajorInput(ToDigits(n))) == Some(n)
    ensures var shown := FormatMinor(ToDigits(n), currency, always);
            Symbol(currency) <= shown && ParseMajorToMinor(RemoveCommas(shown[|Symbol(currency)|..])) == Some(n)
  {
    ToDigitsValue(n);
    MinorDigitsValue(ToDigits(n));
    EditableRoundTrip(ToDigits(n));
    DisplayRoundTrip(ToDigits(n), currency, always);
  }
}
