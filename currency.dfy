/** Currency text handling of the client (client/src/lib/currencyUtils.ts):
    pt-BR decimal formatting, comma-decimal parsing and the two input
    formatters. Locale formatting is abstracted as a function of integer
    cents; `parseFloat` is modelled on its decimal prefix grammar. */
module Currency {
  import opened Text
  import opened Wrappers

  // ---------------------------------------------------------------------
  // Formatting (formatDecimal, abstracted over cents)
  // ---------------------------------------------------------------------

  /** pt-BR digit grouping: a "." every three digits from the right. */
  function Group(d: string): string
    decreases |d|
  {
    if |d| <= 3 then d else Group(d[..|d| - 3]) + "." + d[|d| - 3..]
  }

  function TwoDigits(n: nat): (r: string)
    requires n < 100
    ensures |r| == 2 && AllDigits(r)
  {
    [DigitChar(n / 10), DigitChar(n % 10)]
  }

  /** `formatDecimal(cents / 100)`: grouped integer reais, a comma and two
      decimal digits ("1.234,56"). */
  function FormatDecimal(cents: nat): string
  {
    Group(NatToString(cents / 100)) + "," + TwoDigits(cents % 100)
  }

  /** `Intl.NumberFormat("pt-BR", {style: "currency", currency: "BRL"})` of
      `cents / 100`: "R$", a no-break space, then the decimal. */
  function FormatBrl(cents: int): string
  {
    if cents < 0 then "-R$\U{00A0}" + FormatDecimal(-cents) else "R$\U{00A0}" + FormatDecimal(cents)
  }

  // ---------------------------------------------------------------------
  // Parsing (parseFloat, parseCommaDecimal, isValidDecimal)
  // ---------------------------------------------------------------------

  /** The longest run of digits at the start of `s`. */
  function LeadingDigits(s: string): (r: string)
    ensures AllDigits(r) && IsPrefix(r, s)
    ensures |r| == |s| || !IsDigit(s[|r|])
  {
    if s != [] && IsDigit(s[0]) then [s[0]] + LeadingDigits(s[1..]) else []
  }

  function Pow10(k: nat): (r: nat)
    ensures r >= 1
  {
    if k == 0 then 1 else 10 * Pow10(k - 1)
  }

  /** Value of the digits after a decimal point, each digit a tenth of the
      one before it: below one. */
  function Fraction(frac: string): (r: real)
    requires AllDigits(frac)
    ensures 0.0 <= r < 1.0
    decreases |frac|
  {
    if frac == [] then 0.0 else (DigitVal(frac[0]) as real + Fraction(frac[1..])) / 10.0
  }

  /** The digits after a leading dot, if any. */
  function FractionDigits(rest: string): (r: string)
    ensures AllDigits(r)
  {
    if rest != [] && rest[0] == '.' then LeadingDigits(rest[1..]) else []
  }

  /** `parseFloat` of a string without a sign: digits, optionally a dot and
      more digits, at least one digit in all; None is NaN. */
  function ParseUnsigned(body: string): (r: Option<real>)
    ensures r.Some? ==> r.value >= 0.0
  {
    var whole := LeadingDigits(body);
    var frac := FractionDigits(body[|whole|..]);
    if |whole| + |frac| == 0 then None
    else Some(DigitsValue(whole) as real + Fraction(frac))
  }

  /** `parseFloat` on a string with no leading whitespace: the longest prefix
      of the form [+|-] digits [. digits] holding at least one digit; None is
      NaN. */
  function ParseFloat(s: string): Option<real>
  {
    if s != [] && s[0] == '-' then
      match ParseUnsigned(s[1..])
      case Some(m) => Some(-m)
      case None => None
    else if s != [] && s[0] == '+' then ParseUnsigned(s[1..])
    else ParseUnsigned(s)
  }

  /** `s.replace(a, b)` with a one-character pattern: only the first
      occurrence is replaced. */
  function ReplaceFirst(s: string, a: char, b: char): (r: string)
    ensures |r| == |s|
    ensures forall i :: 0 <= i < |s| ==> r[i] == (if s[i] == a && a !in s[..i] then b else s[i])
  {
    if s == [] then []
    else if s[0] == a then [b] + s[1..]
    else
      var r := [s[0]] + ReplaceFirst(s[1..], a, b);
      assert forall i :: 1 <= i < |s| ==> s[..i] == [s[0]] + s[1..][..i - 1];
      r
  }

  /** `parseCommaDecimal`: 0 for empty input, otherwise the trimmed text with
      its first comma turned into a dot, read by `parseFloat`, NaN read as 0. */
  function ParseCommaDecimal(value: string): real
  {
    if value == "" then 0.0
    else ParseFloat(ReplaceFirst(Trim(value), ',', '.')).GetOr(0.0)
  }

  /** `isValidDecimal`: the parsed value is not NaN and not negative (the
      parser never yields NaN). */
  predicate IsValidDecimal(value: string)
  {
    ParseCommaDecimal(value) >= 0.0
  }

  lemma TrimKeepsChars(s: string)
    ensures forall c :: c in Trim(s) ==> c in s
  {
    var a := TrimStart(s);
    TrimStartSuffix(s);
    assert forall c :: c in a ==> c in s;
    var b := TrimEnd(a);
    TrimEndPrefix(a);
    assert forall c :: c in b ==> c in a;
  }

  /** Any text without a minus sign is a valid decimal. */
  lemma {:induction false} ValidWithoutMinus(value: string)
    requires '-' !in value
    ensures IsValidDecimal(value)
  {
    if value != "" {
      var t := Trim(value);
      TrimKeepsChars(value);
      var n := ReplaceFirst(t, ',', '.');
      assert n != [] ==> n[0] != '-';
    }
  }

  /** Text without a single digit, empty or not, reads as 0. */
  lemma DigitlessReadsZero(value: string)
    requires forall i :: 0 <= i < |value| ==> !IsDigit(value[i])
    ensures ParseCommaDecimal(value) == 0.0
  {
    if value != "" {
      TrimKeepsChars(value);
      var n := ReplaceFirst(Trim(value), ',', '.');
      assert forall i :: 0 <= i < |n| ==> !IsDigit(n[i]) by {
        forall i | 0 <= i < |n|
          ensures !IsDigit(n[i])
        {
          assert n[i] == '.' || n[i] in Trim(value);
        }
      }
      var body := if n != [] && (n[0] == '-' || n[0] == '+') then n[1..] else n;
      assert LeadingDigits(body) == [];
      assert |body| >= 2 ==> !IsDigit(body[1]);
      assert FractionDigits(body) == [];
      assert ParseUnsigned(body).None?;
    }
  }

  // ---------------------------------------------------------------------
  // Input formatters
  // ---------------------------------------------------------------------

  predicate IsAmountChar(c: char)
  {
    IsDigit(c) || c == ',' || c == '.'
  }

  /** `replace(/[^0-9,.]/g, "")`. */
  function KeepAmountChars(s: string): (r: string)
    ensures forall i :: 0 <= i < |r| ==> IsAmountChar(r[i])
    ensures Digits(r) == Digits(s)
  {
    if s == [] then []
    else
      assert s == [s[0]] + s[1..];
      DigitsConcat([s[0]], s[1..]);
      if IsAmountChar(s[0]) then
        DigitsConcat([s[0]], KeepAmountChars(s[1..]));
        [s[0]] + KeepAmountChars(s[1..])
      else KeepAmountChars(s[1..])
  }

  /** `replace(/\./g, ",")`. */
  function DotsToCommas(s: string): (r: string)
    ensures |r| == |s|
    ensures forall i :: 0 <= i < |s| ==> r[i] == (if s[i] == '.' then ',' else s[i])
  {
    if s == [] then [] else [if s[0] == '.' then ',' else s[0]] + DotsToCommas(s[1..])
  }

  function CountChar(s: string, c: char): (n: nat)
    ensures n > 0 <==> c in s
  {
    if s == [] then 0 else (if s[0] == c then 1 else 0) + CountChar(s[1..], c)
  }

  /** `parts.slice(1).join("")` after `split(",")`: the text with its commas removed. */
  function RemoveChar(s: string, c: char): (r: string)
    ensures c !in r
    ensures forall x :: x in r ==> x in s
  {
    if s == [] then [] else (if s[0] == c then [] else [s[0]]) + RemoveChar(s[1..], c)
  }

  function IndexOf(s: string, c: char): (i: nat)
    requires c in s
    ensures i < |s| && s[i] == c && c !in s[..i]
  {
    if s[0] == c then 0 else 1 + IndexOf(s[1..], c)
  }

  /** `formatCurrencyInput`: "" for empty input; otherwise the trimmed text
      reduced to digits, commas and dots, dots turned into commas, and every
      comma after the first one dropped. */
  function FormatCurrencyInput(value: string): string
  {
    if value == "" then ""
    else
      KeepFirstComma(DotsToCommas(KeepAmountChars(Trim(value))))
  }

  /** `parts[0] + "," + parts.slice(1).join("")` when `split(",")` gives more
      than two parts: every comma after the first one is dropped. */
  function KeepFirstComma(s: string): string
  {
    if CountChar(s, ',') >= 2 then
      var i := IndexOf(s, ',');
      s[..i] + "," + RemoveChar(s[i + 1..], ',')
    else s
  }

  /** `formatCurrencyInputRightToLeft`: the digits typed so far read as
      integer cents and shown with two decimals; `previousValue` is unused. */
  function FormatCurrencyInputRightToLeft(value: string, previousValue: string): string
  {
    if value == "" then "0,00"
    else
      var numbersOnly := Digits(value);
      if numbersOnly == "" then "0,00" else FormatDecimal(DigitsValue(numbersOnly))
  }

  // ---------------------------------------------------------------------
  // Properties of the input formatters
  // ---------------------------------------------------------------------

  lemma {:induction false} DigitsDotsToCommas(s: string)
    ensures Digits(DotsToCommas(s)) == Digits(s)
  {
    if s != [] {
      DigitsDotsToCommas(s[1..]);
    }
  }

  lemma {:induction false} DigitsRemoveChar(s: string, c: char)
    requires !IsDigit(c)
    ensures Digits(RemoveChar(s, c)) == Digits(s)
  {
    if s != [] {
      DigitsRemoveChar(s[1..], c);
      DigitsConcat(if s[0] == c then [] else [s[0]], RemoveChar(s[1..], c));
    }
  }

  lemma {:induction false} CountCharConcat(a: string, b: string, c: char)
    ensures CountChar(a + b, c) == CountChar(a, c) + CountChar(b, c)
  {
    if a == [] {
      assert a + b == b;
    } else {
      assert (a + b)[1..] == a[1..] + b;
      CountCharConcat(a[1..], b, c);
    }
  }

  /** Dropping the extra commas leaves one comma at most. */
  lemma KeepFirstCommaCount(s: string)
    ensures CountChar(KeepFirstComma(s), ',') <= 1
  {
    if CountChar(s, ',') >= 2 {
      var i := IndexOf(s, ',');
      var head, tail := s[..i], RemoveChar(s[i + 1..], ',');
      CountCharConcat(head, ",", ',');
      CountCharConcat(head + ",", tail, ',');
      assert CountChar(",", ',') == 1;
    }
  }

  /** Dropping the extra commas keeps the digits. */
  lemma KeepFirstCommaDigits(s: string)
    ensures Digits(KeepFirstComma(s)) == Digits(s)
  {
    if CountChar(s, ',') >= 2 {
      var i := IndexOf(s, ',');
      var head, tail := s[..i + 1], s[i + 1..];
      assert s == head + tail;
      var kept := RemoveChar(tail, ',');
      assert KeepFirstComma(s) == head + kept;
      DigitsRemoveChar(tail, ',');
      DigitsConcat(head, kept);
      DigitsConcat(head, tail);
    }
  }

  /** Dropping the extra commas adds no character. */
  lemma KeepFirstCommaChars(s: string)
    ensures forall x :: x in KeepFirstComma(s) ==> x in s
  {
    if CountChar(s, ',') >= 2 {
      var i := IndexOf(s, ',');
      var tail := RemoveChar(s[i + 1..], ',');
      assert forall x :: x in tail ==> x in s[i + 1..];
    }
  }

  /** The masked amount holds only digits and at most one comma, and keeps
      every digit that was typed, in order. */
  lemma FormatCurrencyInputShape(value: string)
    ensures forall x :: x in FormatCurrencyInput(value) ==> IsDigit(x) || x == ','
    ensures CountChar(FormatCurrencyInput(value), ',') <= 1
    ensures Digits(FormatCurrencyInput(value)) == Digits(value)
  {
    if value != "" {
      var kept := KeepAmountChars(Trim(value));
      DigitsTrim(value);
      var normalized := DotsToCommas(kept);
      DigitsDotsToCommas(kept);
      assert forall x :: x in normalized ==> IsDigit(x) || x == ',';
      KeepFirstCommaCount(normalized);
      KeepFirstCommaDigits(normalized);
      KeepFirstCommaChars(normalized);
    }
  }

  /** Where the comma lands: with a first separator ('.' or ',') at `i` in
      the kept characters, the mask is the digits before it, one comma, and
      the digits after it ("150.50" becomes "150,50"). */
  lemma FormatCurrencyInputSeparator(value: string, i: nat)
    requires value != ""
    requires var k := KeepAmountChars(Trim(value));
      i < |k| && (k[i] == '.' || k[i] == ',') && AllDigits(k[..i])
    ensures var k := KeepAmountChars(Trim(value));
      FormatCurrencyInput(value) == Digits(k[..i]) + "," + Digits(k[i + 1..])
  {
    var k := KeepAmountChars(Trim(value));
    var head, tail := k[..i], k[i + 1..];
    var n := DotsToCommas(k);
    var t := SeparatorToComma(k, i, head, tail, n);
    KeepFirstCommaAt(n, head, t);
    DigitsDotsToCommas(tail);
    DigitsOfDigits(head);
  }

  /** Dots turned into commas around a first separator at `i`. */
  lemma SeparatorToComma(k: string, i: nat, head: string, tail: string, n: string) returns (t: string)
    requires i < |k| && (k[i] == '.' || k[i] == ',') && AllDigits(k[..i])
    requires forall j :: 0 <= j < |k| ==> IsAmountChar(k[j])
    requires head == k[..i] && tail == k[i + 1..] && n == DotsToCommas(k)
    ensures n == head + "," + t && t == DotsToCommas(tail)
    ensures forall j :: 0 <= j < |t| ==> IsDigit(t[j]) || t[j] == ','
  {
    t := n[i + 1..];
    assert n[..i] == head;
    assert n == n[..i] + [n[i]] + t;
  }

  /** Digits, a comma, then digits and commas: the first comma stays and
      the others go. */
  lemma KeepFirstCommaAt(n: string, head: string, t: string)
    requires AllDigits(head) && n == head + "," + t
    requires forall j :: 0 <= j < |t| ==> IsDigit(t[j]) || t[j] == ','
    ensures KeepFirstComma(n) == head + "," + Digits(t)
  {
    assert n[|head|] == ',' && n[..|head|] == head;
    FirstComma(n, |head|);
    CountCharConcat(head, ",", ',');
    CountCharConcat(head + ",", t, ',');
    assert CountChar(head, ',') == 0;
    if CountChar(n, ',') >= 2 {
      assert n[|head| + 1..] == t;
      RemoveCommasIsDigits(t);
    } else {
      assert ',' !in t;
      DigitsOfDigits(t);
    }
  }

  /** The example of the source's own comment: a dot typed as the decimal
      separator becomes the comma. */
  lemma FormatCurrencyInputDotExample(v: string)
    requires v == "150.50"
    ensures FormatCurrencyInput(v) == "150,50"
  {
    ExampleChars(v);
    TrimNoSpace(v);
    KeptAmountChars(v);
    DecimalPointBecomesComma(v, "150", "50");
  }

  lemma ExampleChars(v: string)
    requires v == "150.50"
    ensures v == "150" + "." + "50" && AllDigits("150") && AllDigits("50") && "150" + "," + "50" == "150,50"
    ensures forall j :: 0 <= j < |v| ==> IsAmountChar(v[j]) && !IsSpace(v[j])
  {
  }

  /** Digits, one dot and digits: the dot becomes the comma. */
  lemma DecimalPointBecomesComma(v: string, head: string, tail: string)
    requires v == head + "." + tail && AllDigits(head) && AllDigits(tail)
    requires Trim(v) == v && KeepAmountChars(v) == v
    ensures FormatCurrencyInput(v) == head + "," + tail
  {
    assert v[..|head|] == head && v[|head| + 1..] == tail;
    FormatCurrencyInputSeparator(v, |head|);
    DigitsOfDigits(head);
    DigitsOfDigits(tail);
  }

  /** Text of digits, commas and dots is kept whole. */
  lemma {:induction false} KeptAmountChars(s: string)
    requires forall j :: 0 <= j < |s| ==> IsAmountChar(s[j])
    ensures KeepAmountChars(s) == s
  {
    if s != [] {
      KeptAmountChars(s[1..]);
    }
  }

  /** Without a separator the mask is the kept characters: digits only. */
  lemma FormatCurrencyInputNoSeparator(value: string)
    requires value != ""
    requires var k := KeepAmountChars(Trim(value)); '.' !in k && ',' !in k
    ensures var k := KeepAmountChars(Trim(value));
      FormatCurrencyInput(value) == k && AllDigits(k)
  {
    var k := KeepAmountChars(Trim(value));
    assert DotsToCommas(k) == k;
    assert CountChar(k, ',') == 0;
  }

  /** The first comma of `s`, when nothing before `i` is one, is at `i`. */
  lemma FirstComma(s: string, i: nat)
    requires i < |s| && s[i] == ',' && ',' !in s[..i]
    ensures IndexOf(s, ',') == i
  {
  }

  /** Removing the commas from digits and commas leaves the digits. */
  lemma {:induction false} RemoveCommasIsDigits(t: string)
    requires forall j :: 0 <= j < |t| ==> IsDigit(t[j]) || t[j] == ','
    ensures RemoveChar(t, ',') == Digits(t)
  {
    if t != [] {
      RemoveCommasIsDigits(t[1..]);
    }
  }

  lemma {:induction false} DigitsValueConcat(a: string, b: string)
    requires AllDigits(a) && AllDigits(b)
    ensures DigitsValue(a + b) == DigitsValue(a) * Pow10(|b|) + DigitsValue(b)
    decreases |b|
  {
    if b == [] {
      assert a + b == a;
    } else {
      var b', last := b[..|b| - 1], b[|b| - 1];
      var ab := a + b;
      assert ab[..|ab| - 1] == a + b' && ab[|ab| - 1] == last;
      DigitsValueConcat(a, b');
      var x, p, y := DigitsValue(a), Pow10(|b'|), DigitsValue(b');
      assert b[..|b| - 1] == b';
      assert DigitsValue(b) == y * 10 + DigitVal(last);
      assert Pow10(|b|) == p * 10;
      assert DigitsValue(ab) == (x * p + y) * 10 + DigitVal(last);
      Distribute(x, p, y, DigitVal(last));
    }
  }

  /** The arithmetic step of `DigitsValueConcat`. */
  lemma Distribute(x: int, p: int, y: int, d: int)
    ensures (x * p + y) * 10 + d == x * (p * 10) + (y * 10 + d)
  {
    assert (x * p) * 10 == x * (p * 10);
  }

  lemma {:induction false} DigitsValueBound(s: string)
    requires AllDigits(s)
    ensures DigitsValue(s) < Pow10(|s|)
    decreases |s|
  {
    if s != [] {
      DigitsValueBound(s[..|s| - 1]);
    }
  }

  lemma TwoDigitsValue(n: nat)
    requires n < 100
    ensures DigitsValue(TwoDigits(n)) == n
  {
    var t := TwoDigits(n);
    assert DigitsValue(t[..1]) == n / 10 by {
      assert t[..1][..0] == [];
    }
    assert DigitsValue(t) == DigitsValue(t[..1]) * 10 + DigitVal(t[1]);
  }

  lemma {:induction false} GroupChars(d: string)
    requires AllDigits(d)
    ensures forall x :: x in Group(d) ==> IsDigit(x) || x == '.'
    decreases |d|
  {
    if |d| > 3 {
      GroupChars(d[..|d| - 3]);
    }
  }

  /** Removing the dots that `Group` inserted gives back the digits. */
  lemma {:induction false} GroupRemoveDots(d: string)
    requires AllDigits(d)
    ensures RemoveChar(Group(d), '.') == d
    decreases |d|
  {
    if |d| <= 3 {
      RemoveCharNone(d, '.');
    } else {
      var h, t := d[..|d| - 3], d[|d| - 3..];
      GroupRemoveDots(h);
      DotDropped(Group(h), t, h);
      assert d == h + t;
    }
  }

  /** One group step: the dot in front of the last group is removed. */
  lemma DotDropped(g: string, t: string, h: string)
    requires RemoveChar(g, '.') == h && AllDigits(t)
    ensures RemoveChar(g + "." + t, '.') == h + t
  {
    assert '.' !in t by {
      assert forall i :: 0 <= i < |t| ==> t[i] != '.';
    }
    var dt := "." + t;
    assert g + "." + t == g + dt;
    RemoveCharConcat(g, dt, '.');
    assert RemoveChar(dt, '.') == RemoveChar(t, '.') by {
      assert dt[0] == '.' && dt[1..] == t;
    }
    RemoveCharNone(t, '.');
  }

  /** The decimal comma and the cents survive the removal of the dots. */
  lemma CommaKept(g: string, t: string, h: string)
    requires RemoveChar(g, '.') == h && '.' !in t
    ensures RemoveChar(g + "," + t, '.') == h + "," + t
  {
    var ct := "," + t;
    assert g + "," + t == g + ct;
    assert h + "," + t == h + ct;
    CommaThenNoDots(ct, t);
    RemoveCharConcat(g, ct, '.');
  }

  lemma CommaThenNoDots(ct: string, t: string)
    requires ct == "," + t && '.' !in t
    ensures RemoveChar(ct, '.') == ct
  {
    assert ct[0] == ',' && ct[1..] == t;
    RemoveCharNone(t, '.');
  }

  lemma GroupDigits(d: string)
    requires AllDigits(d)
    ensures Digits(Group(d)) == d
  {
    GroupRemoveDots(d);
    DigitsRemoveChar(Group(d), '.');
    DigitsOfDigits(d);
  }

  lemma {:induction false} RemoveCharConcat(a: string, b: string, c: char)
    ensures RemoveChar(a + b, c) == RemoveChar(a, c) + RemoveChar(b, c)
  {
    if a == [] {
      assert a + b == b;
    } else {
      var ab := a + b;
      assert ab[0] == a[0] && ab[1..] == a[1..] + b;
      RemoveCharConcat(a[1..], b, c);
      RemoveCharStep(ab, c);
      RemoveCharStep(a, c);
    }
  }

  lemma RemoveCharStep(s: string, c: char)
    requires s != []
    ensures RemoveChar(s, c) == (if s[0] == c then [] else [s[0]]) + RemoveChar(s[1..], c)
  {
  }

  lemma {:induction false} RemoveCharNone(s: string, c: char)
    requires c !in s
    ensures RemoveChar(s, c) == s
  {
    if s != [] {
      RemoveCharNone(s[1..], c);
    }
  }

  /** The digits of a formatted amount read back as the same integer cents. */
  lemma FormatDecimalDigits(cents: nat)
    ensures DigitsValue(Digits(FormatDecimal(cents))) == cents
  {
    var d := NatToString(cents / 100);
    var t := TwoDigits(cents % 100);
    GroupDigits(d);
    DigitsConcat(Group(d), ",");
    DigitsConcat(Group(d) + ",", t);
    assert Digits(",") == [];
    DigitsOfDigits(t);
    assert Digits(FormatDecimal(cents)) == d + t;
    DigitsValueConcat(d, t);
    assert Pow10(2) == 100;
    NatToStringValue(cents / 100);
    TwoDigitsValue(cents % 100);
  }

  /** The right-to-left mask reads the typed digits as integer cents; the
      previous value plays no part. */
  lemma RightToLeftReadsCents(value: string, previousValue: string)
    ensures FormatCurrencyInputRightToLeft(value, previousValue) == FormatDecimal(DigitsValue(Digits(value)))
  {
    assert FormatDecimal(0) == "0,00" by {
      assert NatToString(0) == "0";
    }
  }

  /** Typing a leading zero changes nothing. */
  lemma RightToLeftLeadingZero(value: string, previousValue: string)
    ensures FormatCurrencyInputRightToLeft("0" + value, previousValue) == FormatCurrencyInputRightToLeft(value, previousValue)
  {
    RightToLeftReadsCents("0" + value, previousValue);
    RightToLeftReadsCents(value, previousValue);
    DigitsConcat("0", value);
    DigitsValueLeadingZero(Digits(value));
  }

  /** Re-masking a masked amount leaves it as it is. */
  lemma RightToLeftIdempotent(value: string, previousValue: string)
    ensures var once := FormatCurrencyInputRightToLeft(value, previousValue);
      FormatCurrencyInputRightToLeft(once, previousValue) == once
  {
    var once := FormatCurrencyInputRightToLeft(value, previousValue);
    RightToLeftReadsCents(value, previousValue);
    RightToLeftReadsCents(once, previousValue);
    FormatDecimalDigits(DigitsValue(Digits(value)));
  }

  // ---------------------------------------------------------------------
  // Reading a formatted amount back
  // ---------------------------------------------------------------------

  /** `parseCommaDecimal` with the thousands separators removed first: the
      reading of a pt-BR amount that undoes `FormatDecimal`. */
  function ParseGroupedDecimal(value: string): real
  {
    if value == "" then 0.0
    else ParseFloat(ReplaceFirst(RemoveChar(Trim(value), '.'), ',', '.')).GetOr(0.0)
  }

  lemma {:induction false} LeadingDigitsStop(d: string, rest: string)
    requires AllDigits(d)
    requires rest == [] || !IsDigit(rest[0])
    ensures LeadingDigits(d + rest) == d
  {
    if d != [] {
      assert (d + rest)[1..] == d[1..] + rest;
      LeadingDigitsStop(d[1..], rest);
    } else {
      assert d + rest == rest;
    }
  }

  /** `parseFloat` of digits, a dot and more text reads the digits and the
      digits right after the dot. */
  lemma ParseFloatHead(h: string, y: string)
    requires AllDigits(h) && h != []
    ensures ParseFloat(h + "." + y) == Some(DigitsValue(h) as real + Fraction(LeadingDigits(y)))
  {
    var s := h + "." + y;
    UnsignedWhenDigitFirst(h, y);
    WholeBeforeDot(h, y);
    FractionAfterDot(h, y);
    SomeParsed(s, h, LeadingDigits(y), DigitsValue(h) as real + Fraction(LeadingDigits(y)));
  }

  lemma UnsignedWhenDigitFirst(h: string, y: string)
    requires AllDigits(h) && h != []
    ensures ParseFloat(h + "." + y) == ParseUnsigned(h + "." + y)
  {
    var s := h + "." + y;
    assert s[0] == h[0];
  }

  lemma WholeBeforeDot(h: string, y: string)
    requires AllDigits(h)
    ensures LeadingDigits(h + "." + y) == h
  {
    var dy := "." + y;
    LeadingDigitsStop(h, dy);
    assert h + "." + y == h + dy;
  }

  lemma FractionAfterDot(h: string, y: string)
    ensures FractionDigits((h + "." + y)[|h|..]) == LeadingDigits(y)
  {
    var dy := "." + y;
    var s := h + dy;
    assert h + "." + y == s;
    assert s[|h|..] == dy;
    assert dy[1..] == y;
  }

  lemma SomeParsed(s: string, whole: string, frac: string, v: real)
    requires LeadingDigits(s) == whole && whole != [] && frac == FractionDigits(s[|whole|..])
    requires v == DigitsValue(whole) as real + Fraction(frac)
    ensures ParseUnsigned(s) == Some(v)
  {
  }

  lemma LeadingDigitsAll(y: string)
    requires AllDigits(y)
    ensures LeadingDigits(y) == y
  {
    LeadingDigitsStop(y, []);
    assert y + [] == y;
  }

  lemma {:induction false} ReplaceFirstSkip(p: string, x: string, a: char, b: char)
    requires a !in p
    ensures ReplaceFirst(p + x, a, b) == p + ReplaceFirst(x, a, b)
  {
    if p == [] {
      assert p + x == x;
    } else {
      assert (p + x)[1..] == p[1..] + x;
      ReplaceFirstSkip(p[1..], x, a, b);
    }
  }

  lemma FormatDecimalNoSpace(cents: nat)
    ensures Trim(FormatDecimal(cents)) == FormatDecimal(cents)
  {
    var d := NatToString(cents / 100);
    var t := TwoDigits(cents % 100);
    GroupChars(d);
    var s := FormatDecimal(cents);
    assert s == Group(d) + "," + t;
    forall i | 0 <= i < |s|
      ensures !IsSpace(s[i])
    {
      if i < |Group(d)| {
        assert s[i] in Group(d);
      } else if i > |Group(d)| {
        assert s[i] == t[i - |Group(d)| - 1];
      }
    }
    TrimNoSpace(s);
  }

  lemma NatToStringBelowThousand(n: nat)
    requires n < 1000
    ensures |NatToString(n)| <= 3
  {
    if n >= 10 {
      assert |NatToString(n)| == |NatToString(n / 10)| + 1;
      if n / 10 >= 10 {
        assert |NatToString(n / 10)| == |NatToString(n / 100)| + 1;
      }
    }
  }

  /** The first group of a grouped digit string: one to three digits. */
  function GroupHead(d: string): (r: string)
    requires AllDigits(d) && d != []
    ensures AllDigits(r) && 1 <= |r| <= 3
    decreases |d|
  {
    if |d| <= 3 then d else GroupHead(d[..|d| - 3])
  }

  /** A grouped string of more than three digits starts with its first group
      and a dot. */
  lemma {:induction false} GroupStartsWithHead(d: string)
    requires AllDigits(d) && |d| > 3
    ensures IsPrefix(GroupHead(d) + ".", Group(d))
    decreases |d|
  {
    var h := d[..|d| - 3];
    assert Group(d) == Group(h) + "." + d[|d| - 3..];
    if |h| > 3 {
      GroupStartsWithHead(h);
    }
  }

  /** The right-to-left mask followed by `parseCommaDecimal`, as the Sales
      page reads a typed price or installment amount. */
  function EnteredAmountAsWritten(typed: string): real
  {
    ParseCommaDecimal(FormatCurrencyInputRightToLeft(typed, ""))
  }

  /** The same reading with the thousands separators removed first. */
  function EnteredAmount(typed: string): real
  {
    ParseGroupedDecimal(FormatCurrencyInputRightToLeft(typed, ""))
  }

  lemma CommaToDot(d: string, t: string)
    requires AllDigits(d)
    ensures ReplaceFirst(d + "," + t, ',', '.') == d + "." + t
  {
    var ct, dt := "," + t, "." + t;
    assert d + "," + t == d + ct;
    assert d + "." + t == d + dt;
    assert ',' !in d by {
      assert forall i :: 0 <= i < |d| ==> d[i] != ',';
    }
    ReplaceFirstSkip(d, ct, ',', '.');
    assert ReplaceFirst(ct, ',', '.') == dt by {
      assert ct[0] == ',' && ct[1..] == t;
    }
  }

  lemma TwoDigitsFraction(r: nat)
    requires r < 100
    ensures Fraction(LeadingDigits(TwoDigits(r))) == r as real / 100.0
  {
    var t := TwoDigits(r);
    var a, b := r / 10, r % 10;
    LeadingDigitsAll(t);
    assert DigitVal(t[0]) == a && DigitVal(t[1]) == b;
    assert Fraction(t[1..]) == b as real / 10.0 by {
      assert t[1..][0] == t[1] && t[1..][1..] == [];
    }
    assert Fraction(t) == (a as real + b as real / 10.0) / 10.0;
    assert r == 10 * a + b;
  }

  /** Integer reais and two decimal digits read back as the cents over 100. */
  lemma ReadsBackCents(cents: nat, s: string)
    requires s == NatToString(cents / 100) + "." + TwoDigits(cents % 100)
    ensures ParseFloat(s) == Some(cents as real / 100.0)
  {
    var q, r := cents / 100, cents % 100;
    CentsReadBack(q, r, NatToString(q), TwoDigits(r), s, cents as real / 100.0);
  }

  lemma CentsReadBack(q: nat, r: nat, h: string, t: string, s: string, v: real)
    requires r < 100 && h == NatToString(q) && t == TwoDigits(r) && s == h + "." + t
    requires v == (100 * q + r) as real / 100.0
    ensures ParseFloat(s) == Some(v)
  {
    CentsParts(q, r, h, t, v);
    ReadsBack(h, t, s, v);
  }

  /** The integer digits and the two decimals of an amount, as read. */
  lemma CentsParts(q: nat, r: nat, h: string, t: string, v: real)
    requires r < 100 && h == NatToString(q) && t == TwoDigits(r)
    requires v == (100 * q + r) as real / 100.0
    ensures DigitsValue(h) as real + Fraction(LeadingDigits(t)) == v
  {
    NatToStringValue(q);
    TwoDigitsFraction(r);
  }

  lemma ReadsBack(h: string, t: string, s: string, v: real)
    requires AllDigits(h) && h != [] && s == h + "." + t
    requires DigitsValue(h) as real + Fraction(LeadingDigits(t)) == v
    ensures ParseFloat(s) == Some(v)
  {
    ParseFloatHead(h, t);
  }

  /** As written, reading a formatted amount back gives the amount exactly
      when it is below R$ 1.000,00. */
  lemma CommaDecimalRoundTrip(cents: nat)
    ensures ParseCommaDecimal(FormatDecimal(cents)) == cents as real / 100.0 <==> cents < 100000
  {
    FormatDecimalNoSpace(cents);
    if cents < 100000 {
      CommaDecimalBelowThousand(cents);
    } else {
      FirstGroupBelowThousand(cents);
    }
  }

  lemma CommaDecimalBelowThousand(cents: nat)
    requires cents < 100000
    ensures ParseFloat(ReplaceFirst(FormatDecimal(cents), ',', '.')) == Some(cents as real / 100.0)
  {
    var d, t := NatToString(cents / 100), TwoDigits(cents % 100);
    NatToStringBelowThousand(cents / 100);
    assert FormatDecimal(cents) == d + "," + t;
    CommaToDot(d, t);
    ReadsBackCents(cents, d + "." + t);
  }

  lemma NatToStringFromThousand(n: nat)
    requires n >= 1000
    ensures |NatToString(n)| > 3
  {
    var a, b := n / 10, n / 100;
    assert a >= 100 && a / 10 == b && b >= 10;
    NatToStringLonger(n);
    NatToStringLonger(a);
  }

  lemma NatToStringLonger(n: nat)
    requires n >= 10
    ensures |NatToString(n)| == |NatToString(n / 10)| + 1
  {
  }

  /** From R$ 1.000,00 on, `parseCommaDecimal` stops at the second dot-group
      and reads less than 1000. */
  lemma FirstGroupBelowThousand(cents: nat)
    requires cents >= 100000
    ensures ParseFloat(ReplaceFirst(FormatDecimal(cents), ',', '.')).GetOr(0.0) < 1000.0
  {
    var d := NatToString(cents / 100);
    var s := FormatDecimal(cents);
    NatToStringFromThousand(cents / 100);
    var g := GroupHead(d);
    GroupStartsWithHead(d);
    DigitsValueBound(g);
    assert Pow10(|g|) <= 1000;
    var rest := s[|g| + 1..];
    assert s == g + "." + rest;
    ReplaceFirstSkip(g + ".", rest, ',', '.');
    assert ReplaceFirst(s, ',', '.') == g + "." + ReplaceFirst(rest, ',', '.');
    ParseFloatHead(g, ReplaceFirst(rest, ',', '.'));
  }

  lemma FormatDecimalWithoutDots(cents: nat)
    ensures RemoveChar(FormatDecimal(cents), '.') == NatToString(cents / 100) + "," + TwoDigits(cents % 100)
  {
    var d, t := NatToString(cents / 100), TwoDigits(cents % 100);
    GroupRemoveDots(d);
    assert '.' !in t by {
      assert IsDigit(t[0]) && IsDigit(t[1]);
    }
    CommaKept(Group(d), t, d);
  }

  /** With the separators removed, every formatted amount reads back exactly. */
  lemma GroupedDecimalRoundTrip(cents: nat)
    ensures ParseGroupedDecimal(FormatDecimal(cents)) == cents as real / 100.0
  {
    var s := FormatDecimal(cents);
    var d, t := NatToString(cents / 100), TwoDigits(cents % 100);
    var dotted := d + "." + t;
    assert ReplaceFirst(RemoveChar(Trim(s), '.'), ',', '.') == dotted by {
      FormatDecimalNoSpace(cents);
      FormatDecimalWithoutDots(cents);
      CommaToDot(d, t);
    }
    assert ParseFloat(dotted) == Some(cents as real / 100.0) by {
      ReadsBackCents(cents, dotted);
    }
  }

  /** As written, a typed amount is read as its cents over 100 exactly when it
      is below R$ 1.000,00. */
  lemma EnteredAmountAsWrittenWrong(typed: string)
    ensures EnteredAmountAsWritten(typed) == DigitsValue(Digits(typed)) as real / 100.0
      <==> DigitsValue(Digits(typed)) < 100000
  {
    RightToLeftReadsCents(typed, "");
    CommaDecimalRoundTrip(DigitsValue(Digits(typed)));
  }

  lemma ZerosFraction()
    ensures Fraction("000") == 0.0
  {
    var z := "000";
    assert z[1..] == "00" && z[1..][1..] == "0" && z[1..][1..][1..] == [];
  }

  /** Typing "100000" shows "1.000,00" and stores 1 real. */
  lemma ThousandReaisReadAsOne()
    ensures FormatCurrencyInputRightToLeft("100000", "") == "1.000,00"
    ensures EnteredAmountAsWritten("100000") == 1.0
  {
    ThousandReaisShown();
    ThousandReaisParsed();
  }

  lemma ThousandReaisShown()
    ensures FormatCurrencyInputRightToLeft("100000", "") == "1.000,00"
  {
    HundredThousandTyped();
    ThousandReaisFormatted();
    RightToLeftReadsCents("100000", "");
  }

  lemma HundredThousandTyped()
    ensures DigitsValue(Digits("100000")) == 100000
  {
    DigitsOfDigits("100000");
    assert DigitsValue("1") == 1;
    assert DigitsValue("10") == 10 by { assert "10"[..1] == "1"; }
    assert DigitsValue("100") == 100 by { assert "100"[..2] == "10"; }
    assert DigitsValue("1000") == 1000 by { assert "1000"[..3] == "100"; }
    assert DigitsValue("10000") == 10000 by { assert "10000"[..4] == "1000"; }
    assert "100000"[..5] == "10000";
  }

  lemma ThousandReaisFormatted()
    ensures FormatDecimal(100000) == "1.000,00"
  {
    assert DigitChar(0) == '0' && DigitChar(1) == '1';
    assert NatToString(1) == "1";
    assert NatToString(10) == "10";
    assert NatToString(100) == "100";
    assert NatToString(1000) == "1000";
    assert Group("1000") == "1.000" by {
      assert "1000"[..1] == "1" && "1000"[1..] == "000";
    }
    assert TwoDigits(0) == "00";
  }

  lemma ThousandReaisParsed()
    ensures ParseCommaDecimal("1.000,00") == 1.0
  {
    ThousandReaisDotted();
    ThousandDottedValue();
    CommaDecimalVia("1.000,00", "1" + "." + "000.00", 1.0);
  }

  lemma CommaDecimalVia(value: string, dotted: string, x: real)
    requires value != "" && ReplaceFirst(Trim(value), ',', '.') == dotted
    requires ParseFloat(dotted) == Some(x)
    ensures ParseCommaDecimal(value) == x
  {
  }

  lemma ThousandDottedValue()
    ensures ParseFloat("1" + "." + "000.00") == Some(1.0)
  {
    ZerosBeforeDot();
    ParseFloatHead("1", "000.00");
    ZerosFraction();
    assert DigitsValue("1") == 1;
  }

  lemma ThousandReaisDotted()
    ensures ReplaceFirst(Trim("1.000,00"), ',', '.') == "1" + "." + "000.00"
  {
    ThousandReaisUntrimmed();
    ThousandReaisCommaReplaced();
  }

  lemma ThousandReaisUntrimmed()
    ensures Trim("1.000,00") == "1.000,00"
  {
    TrimNoSpace("1.000,00");
  }

  lemma ThousandReaisCommaReplaced()
    ensures ReplaceFirst("1.000,00", ',', '.') == "1" + "." + "000.00"
  {
    var t := "1.000,00";
    var r := ReplaceFirst(t, ',', '.');
    assert t[..5] == "1.000";
    assert forall i :: 0 <= i < |t| ==> r[i] == (if i == 5 then '.' else t[i]);
  }

  lemma ZerosBeforeDot()
    ensures LeadingDigits("000.00") == "000"
  {
    LeadingDigitsStop("000", ".00");
    assert "000" + ".00" == "000.00";
  }

  /** A typed amount is read as its digits taken as cents. */
  lemma EnteredAmountIsCents(typed: string)
    ensures EnteredAmount(typed) == DigitsValue(Digits(typed)) as real / 100.0
  {
    RightToLeftReadsCents(typed, "");
    GroupedDecimalRoundTrip(DigitsValue(Digits(typed)));
  }
}
