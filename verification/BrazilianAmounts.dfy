/** Brazilian amounts printed and read back (app/consumer/monetary.py:15-18, 48-58;
    app/consumer/notice_markdown.py:213-215; app/consumer/retrieval.py:138-140). */
module BrazilianAmounts {
  import opened Common
  import opened Decimals

  // ----- printing

  function ThreeDigits(n: nat): string
    requires n < 1000
  {
    [Digit(n / 100), Digit(n / 10 % 10), Digit(n % 10)]
  }

  function TwoDigits(n: nat): string
    requires n < 100
  {
    [Digit(n / 10), Digit(n % 10)]
  }

  /** The integer part with its thousands separated by points. */
  function Grouped(n: nat): string {
    if n < 1000 then Decimal(n) else Grouped(n / 1000) + "." + ThreeDigits(n % 1000)
  }

  /** An amount in cents as `1.234,56`. */
  function Printed(cents: nat): string { Grouped(cents / 100) + "," + TwoDigits(cents % 100) }

  /** The same without the points. */
  function Ungrouped(cents: nat): string { Decimal(cents / 100) + "," + TwoDigits(cents % 100) }

  // ----- reading

  function Without(text: string, c: char): string {
    if text == [] then [] else Without(text[..|text| - 1], c) + (if text[|text| - 1] == c then [] else [text[|text| - 1]])
  }

  function CommasToPoints(text: string): (r: string)
    ensures |r| == |text| && forall i :: 0 <= i < |r| ==> r[i] == if text[i] == ',' then '.' else text[i]
  {
    if text == [] then []
    else CommasToPoints(text[..|text| - 1]) + [if text[|text| - 1] == ',' then '.' else text[|text| - 1]]
  }

  /** The index of the first point, the length when there is none. */
  function PointAt(text: string): (r: nat)
    ensures r <= |text|
  {
    if text == [] || text[0] == '.' then 0 else 1 + PointAt(text[1..])
  }

  function Count(text: string, c: char): nat {
    if text == [] then 0 else Count(text[..|text| - 1], c) + (if text[|text| - 1] == c then 1 else 0)
  }

  /** `Decimal(text)` on digits with at most one point; None where it raises. */
  function DecimalOf(text: string): Option<real> {
    var p := PointAt(text);
    if p == |text| then (if text != [] && AllDigits(text) then Some(Value(text) as real) else None)
    else ReadParts(text[..p], text[p + 1..])
  }

  function ReadParts(whole: string, part: string): Option<real> {
    if AllDigits(whole) && AllDigits(part) && (whole != [] || part != []) then
      Some(Value(whole) as real + Value(part) as real / Power10(|part|) as real)
    else None
  }

  function ParseBrl(raw: string): Option<real> {
    if ',' in raw then DecimalOf(CommasToPoints(Without(raw, '.')))
    else if Count(raw, '.') == 1 && |raw| - PointAt(raw) - 1 <= 2 then DecimalOf(raw)
    else DecimalOf(Without(raw, '.'))
  }

  // ----- the text after the currency symbol that the money pattern takes

  /** Up to `most` digits. */
  function Digits(text: string, most: nat): (r: nat)
    ensures r <= |text| && r <= most && forall i :: 0 <= i < r ==> IsDigit(text[i])
    ensures r < most && r < |text| ==> !IsDigit(text[r])
  {
    if most == 0 || text == [] || !IsDigit(text[0]) then 0 else 1 + Digits(text[1..], most - 1)
  }

  /** Past every further group of a point and three digits. */
  function Groups(text: string, at: nat): (r: nat)
    requires at <= |text|
    ensures at <= r <= |text|
    decreases |text| - at
  {
    if at + 4 <= |text| && text[at] == '.' && AllDigits(text[at + 1..at + 4]) then Groups(text, at + 4) else at
  }

  function CentsEnd(text: string, at: nat): (r: nat)
    requires at <= |text|
    ensures at <= r <= |text|
  {
    if at < |text| && text[at] == ',' && Digits(text[at + 1..], 2) > 0 then at + 1 + Digits(text[at + 1..], 2) else at
  }

  /** What the pattern captures from a text that starts with a digit; its first alternative always matches. */
  function Captured(text: string): string { text[..CentsEnd(text, Groups(text, Digits(text, 3)))] }

  // ----- values of the prints

  lemma {:induction false} WithoutConcat(a: string, b: string, c: char)
    ensures Without(a + b, c) == Without(a, c) + Without(b, c)
    decreases |b|
  {
    if b == [] {
      assert a + b == a;
    } else {
      var n := |b| - 1;
      assert (a + b)[..|a + b| - 1] == a + b[..n];
      WithoutConcat(a, b[..n], c);
    }
  }

  lemma {:induction false} WithoutNothing(text: string, c: char)
    requires c !in text
    ensures Without(text, c) == text
  {
    if text != [] {
      WithoutNothing(text[..|text| - 1], c);
    }
  }

  lemma ThreeDigitsValue(n: nat)
    requires n < 1000
    ensures AllDigits(ThreeDigits(n)) && Value(ThreeDigits(n)) == n
  {
    ValueOfThree(Digit(n / 100), Digit(n / 10 % 10), Digit(n % 10));
  }

  lemma TwoDigitsValue(n: nat)
    requires n < 100
    ensures AllDigits(TwoDigits(n)) && Value(TwoDigits(n)) == n
  {
    ValueOfThree('0', Digit(n / 10), Digit(n % 10));
  }

  predicate DigitsAndPoints(text: string) { forall i :: 0 <= i < |text| ==> IsDigit(text[i]) || text[i] == '.' }

  lemma {:induction false} GroupedChars(n: nat)
    ensures DigitsAndPoints(Grouped(n))
    decreases n
  {
    if n >= 1000 {
      GroupedChars(n / 1000);
      ThreeDigitsValue(n % 1000);
    }
  }

  /** A point and digits behind a text add only the digits. */
  lemma WithoutPoint(head: string, tail: string)
    requires '.' !in tail
    ensures Without(head + "." + tail, '.') == Without(head, '.') + tail
  {
    assert "."[..0] == [];
    assert Without(".", '.') == [];
    WithoutConcat(head + ".", tail, '.');
    WithoutConcat(head, ".", '.');
    WithoutNothing(tail, '.');
    assert Without(head, '.') + [] == Without(head, '.');
  }

  /** The digits of a number in `text`. */
  ghost predicate Reads(text: string, n: nat) { text != [] && AllDigits(text) && Value(text) == n }

  lemma ReadsThousands(head: string, n: nat)
    requires n >= 1000 && Reads(head, n / 1000)
    ensures Reads(head + ThreeDigits(n % 1000), n)
  {
    ThreeDigitsValue(n % 1000);
    ValueOfConcat(head, ThreeDigits(n % 1000));
    assert Power10(3) == 1000;
  }

  lemma {:induction false} GroupedValue(n: nat)
    ensures Reads(Without(Grouped(n), '.'), n)
    decreases n
  {
    if n < 1000 {
      WithoutNothing(Decimal(n), '.');
      ValueOfDecimal(n);
    } else {
      GroupedValue(n / 1000);
      ThreeDigitsValue(n % 1000);
      WithoutPoint(Grouped(n / 1000), ThreeDigits(n % 1000));
      ReadsThousands(Without(Grouped(n / 1000), '.'), n);
    }
  }

  lemma {:induction false} PointBehind(whole: string, rest: string)
    requires '.' !in whole
    ensures PointAt(whole + "." + rest) == |whole|
    decreases |whole|
  {
    var text := whole + "." + rest;
    if whole == [] {
      assert text[0] == '.';
    } else {
      assert text[0] == whole[0] && text[1..] == whole[1..] + "." + rest;
      PointBehind(whole[1..], rest);
    }
  }

  lemma DecimalWithPoint(whole: string, part: string)
    requires '.' !in whole
    ensures DecimalOf(whole + "." + part) == ReadParts(whole, part)
  {
    var text := whole + "." + part;
    PointBehind(whole, part);
    assert text[..|whole|] == whole && text[|whole| + 1..] == part;
  }

  lemma {:induction false} NoPointAt(text: string)
    requires '.' !in text
    ensures PointAt(text) == |text|
  {
    if text != [] {
      NoPointAt(text[1..]);
    }
  }

  lemma CommaBecomesPoint(whole: string, part: string)
    requires AllDigits(whole) && AllDigits(part)
    ensures CommasToPoints(whole + "," + part) == whole + "." + part
  {
  }

  /** Digits, a comma and two digits of cents. */
  lemma ReadsCents(whole: string, n: nat, cents: nat)
    requires cents < 100 && Reads(whole, n)
    ensures ReadParts(whole, TwoDigits(cents)) == Some(n as real + cents as real / 100.0)
  {
    TwoDigitsValue(cents);
    assert Power10(2) == 100;
  }

  lemma CentsSplit(cents: nat)
    ensures (cents / 100) as real + (cents % 100) as real / 100.0 == cents as real / 100.0
  {
    assert cents == cents / 100 * 100 + cents % 100;
  }

  lemma PrintedWithoutPoints(cents: nat)
    ensures Without(Printed(cents), '.') == Without(Grouped(cents / 100), '.') + "," + TwoDigits(cents % 100)
  {
    var head, tail := Grouped(cents / 100), TwoDigits(cents % 100);
    TwoDigitsValue(cents % 100);
    WithoutConcat(head + ",", tail, '.');
    WithoutConcat(head, ",", '.');
    WithoutNothing(tail, '.');
    WithoutNothing(",", '.');
  }

  lemma CommaInside(head: string, tail: string)
    ensures ',' in head + "," + tail
  {
    assert (head + "," + tail)[|head|] == ',';
  }

  /** Reading the grouped print of any amount gives the amount. */
  lemma ParsePrinted(cents: nat)
    ensures ParseBrl(Printed(cents)) == Some(cents as real / 100.0)
  {
    var whole, part := Without(Grouped(cents / 100), '.'), TwoDigits(cents % 100);
    GroupedValue(cents / 100);
    TwoDigitsValue(cents % 100);
    PrintedWithoutPoints(cents);
    CommaInside(Grouped(cents / 100), part);
    CommaBecomesPoint(whole, part);
    DecimalWithPoint(whole, part);
    ReadsCents(whole, cents / 100, cents % 100);
    CentsSplit(cents);
  }

  lemma {:induction false} CountPoints(text: string)
    ensures Count(text, '.') == 0 <==> '.' !in text
    decreases |text|
  {
    if text != [] {
      CountPoints(text[..|text| - 1]);
      assert text == text[..|text| - 1] + [text[|text| - 1]];
    }
  }

  lemma {:induction false} CountConcat(a: string, b: string)
    ensures Count(a + b, '.') == Count(a, '.') + Count(b, '.')
    decreases |b|
  {
    if b == [] {
      assert a + b == a;
    } else {
      var n := |b| - 1;
      assert (a + b)[..|a + b| - 1] == a + b[..n];
      CountConcat(a, b[..n]);
    }
  }

  /** A grouped integer without cents reads back exactly too: its one point, if any, has three digits behind it. */
  lemma ParseGrouped(n: nat)
    ensures ParseBrl(Grouped(n)) == Some(n as real)
  {
    var raw := Grouped(n);
    GroupedValue(n);
    GroupedChars(n);
    assert ',' !in raw;
    NoPointLeft(raw);
    if n < 1000 {
      CountPoints(raw);
    } else if Count(raw, '.') == 1 {
      OnePointThreeDigits(n);
    }
  }

  lemma NoPointLeft(raw: string)
    requires AllDigits(Without(raw, '.')) && Without(raw, '.') != []
    ensures DecimalOf(Without(raw, '.')) == Some(Value(Without(raw, '.')) as real)
  {
    NoPointAt(Without(raw, '.'));
  }

  lemma OnePointThreeDigits(n: nat)
    requires n >= 1000 && Count(Grouped(n), '.') == 1
    ensures |Grouped(n)| - PointAt(Grouped(n)) - 1 == 3
  {
    var head, tail := Grouped(n / 1000), ThreeDigits(n % 1000);
    CountConcat(head + ".", tail);
    CountConcat(head, ".");
    assert Count(".", '.') == 1 by {
      assert "."[..0] == [];
    }
    CountPoints(head);
    PointBehind(head, tail);
  }

  // ----- what the money pattern takes from a print

  lemma {:induction false} DecimalLength(n: nat)
    ensures n < 10 ==> |Decimal(n)| == 1
    ensures 10 <= n < 100 ==> |Decimal(n)| == 2
    ensures 100 <= n < 1000 ==> |Decimal(n)| == 3
    ensures n >= 1000 ==> |Decimal(n)| >= 4
  {
    if n >= 10 {
      DecimalLength(n / 10);
    }
  }

  lemma {:induction false} DigitsOf(s: string, t: string, most: nat)
    requires AllDigits(s) && |s| <= most && (|s| < most ==> t == [] || !IsDigit(t[0]))
    ensures Digits(s + t, most) == |s|
    decreases |s|
  {
    if s == [] {
      assert s + t == t;
    } else {
      assert (s + t)[1..] == s[1..] + t;
      DigitsOf(s[1..], t, most - 1);
    }
  }

  /** Past the whole grouped integer, whatever comes behind it but a digit. */
  lemma {:induction false} TakesGrouped(n: nat, t: string)
    requires t != [] && !IsDigit(t[0])
    ensures var text := Grouped(n) + t;
            Groups(text, Digits(text, 3)) == Groups(text, |Grouped(n)|)
    decreases n
  {
    if n < 1000 {
      DecimalLength(n);
      DigitsOf(Decimal(n), t, 3);
    } else {
      var head, tail := Grouped(n / 1000), ThreeDigits(n % 1000);
      var text := Grouped(n) + t;
      assert text == head + ("." + tail + t);
      TakesGrouped(n / 1000, "." + tail + t);
      ThreeDigitsValue(n % 1000);
      assert text[|head|] == '.' && text[|head| + 1..|head| + 4] == tail;
    }
  }

  /** The pattern takes the whole grouped print of any amount, whatever text follows. */
  lemma PatternTakesPrinted(cents: nat, rest: string)
    ensures Captured(Printed(cents) + rest) == Printed(cents)
  {
    var head, tail := Grouped(cents / 100), TwoDigits(cents % 100);
    var text := Printed(cents) + rest;
    assert text == head + ("," + tail + rest);
    TakesGrouped(cents / 100, "," + tail + rest);
    assert text[|head|] == ',';
    assert text[|head| + 1..] == tail + rest;
    TwoDigitsValue(cents % 100);
    DigitsOf(tail, rest, 2);
    assert text[..|Printed(cents)|] == Printed(cents);
  }

  // ----- ungrouped amounts

  lemma DecimalPrefix(n: nat)
    requires n >= 1000
    ensures |Decimal(n)| >= 4 && Value(Decimal(n)[..3]) < 1000
  {
    DecimalLength(n);
    var s := Decimal(n);
    assert s[..3] == [s[0], s[1], s[2]];
    ValueOfThree(s[0], s[1], s[2]);
  }

  /** From an ungrouped amount of a thousand or more the pattern takes three digits only. */
  lemma PatternCutsUngrouped(cents: nat, rest: string)
    requires cents >= 100000
    ensures |Decimal(cents / 100)| >= 4 && Captured(Ungrouped(cents) + rest) == Decimal(cents / 100)[..3]
  {
    var n := cents / 100;
    var text := Ungrouped(cents) + rest;
    DecimalPrefix(n);
    assert text == Decimal(n)[..3] + (Decimal(n)[3..] + ("," + TwoDigits(cents % 100) + rest));
    DigitsOf(Decimal(n)[..3], Decimal(n)[3..] + ("," + TwoDigits(cents % 100) + rest), 3);
    assert text[3] == Decimal(n)[3];
    assert text[..3] == Decimal(n)[..3];
  }

  lemma SmallIsGrouped(cents: nat)
    requires cents < 100000
    ensures Ungrouped(cents) == Printed(cents)
  {
  }

  /** An ungrouped amount is read right exactly below a thousand. */
  lemma UngroupedReadsRightExactly(cents: nat, rest: string)
    ensures ParseBrl(Captured(Ungrouped(cents) + rest)) == Some(cents as real / 100.0) <==> cents < 100000
  {
    if cents < 100000 {
      SmallIsGrouped(cents);
      PatternTakesPrinted(cents, rest);
      ParsePrinted(cents);
    } else {
      PatternCutsUngrouped(cents, rest);
      var three := Decimal(cents / 100)[..3];
      DecimalPrefix(cents / 100);
      WithoutNothing(three, '.');
      CountPoints(three);
      NoPointLeft(three);
      assert Value(three) as real < 1000.0 <= cents as real / 100.0;
    }
  }
}
