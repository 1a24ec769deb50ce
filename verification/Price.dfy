/**
 Printing a price as pt-BR text and reading it back: `format_cents`, the BRL amount grammar of
 the Amazon parser, `_brl_to_reais` and `to_cents`. Binary floating point is modelled by its
 error: each of the two rounded operations (text to float, times one hundred) may return any
 real within one unit roundoff, 2^-53 relative, of the exact result.
 */
module Price {
  import opened Timestamps
  import opened Wrappers

  const MAX_PRICE_CENTS := 100_000_000

  // ----- Printing

  /** The decimal text of a number below one thousand, without leading zeros. */
  function Small(n: int): string
    requires 0 <= n < 1000
  {
    if n < 10 then Padded(n, 1) else if n < 100 then Padded(n, 2) else Padded(n, 3)
  }

  /** The text of `n` with a dot between groups of three digits. */
  function Grouped(n: nat): string {
    if n < 1000 then Small(n) else Grouped(n / 1000) + "." + Padded(n % 1000, 3)
  }

  function Amount(cents: nat): string {
    Grouped(cents / 100) + "," + Padded(cents % 100, 2)
  }

  /** `format_cents`, on a present and an absent price. Stored prices are never negative. */
  function FormatCents(cents: Option<nat>): string {
    match cents
    case None => "-"
    case Some(c) => "R$ " + Amount(c)
  }

  // ----- The price grammar: R\$\s*(\d{1,3}(?:\.\d{3})*,\d{2})

  predicate AllDigits(s: string) {
    forall i :: 0 <= i < |s| ==> '0' <= s[i] <= '9'
  }

  predicate AllSpace(s: string) {
    forall i :: 0 <= i < |s| ==> s[i] in {' ', '\t', '\n', '\r'}
  }

  /** Zero or more groups of a dot and three digits. */
  predicate DotGroups(s: string) {
    s == "" || (|s| >= 4 && s[0] == '.' && AllDigits(s[1..4]) && DotGroups(s[4..]))
  }

  predicate GroupedNumber(s: string) {
    exists i :: 1 <= i <= 3 && i <= |s| && AllDigits(s[..i]) && DotGroups(s[i..])
  }

  predicate IsAmount(s: string) {
    |s| >= 4 && s[|s| - 3] == ',' && AllDigits(s[|s| - 2..]) && GroupedNumber(s[..|s| - 3])
  }

  /** `amount` is a capture of the price pattern matched at the start of `text`. */
  ghost predicate Captures(text: string, amount: string) {
    exists space, rest :: AllSpace(space) && IsAmount(amount) && text == "R$" + space + amount + rest
  }

  // ----- Reading back

  function StripDots(s: string): string {
    if s == "" then "" else if s[0] == '.' then StripDots(s[1..]) else [s[0]] + StripDots(s[1..])
  }

  function CommaToDot(s: string): string {
    if s == "" then "" else [if s[0] == ',' then '.' else s[0]] + CommaToDot(s[1..])
  }

  function DigitValue(c: char): int {
    c as int - '0' as int
  }

  /** The number whose digits are those of `acc` followed by `s`. */
  function ReadOn(acc: int, s: string): int
    decreases |s|
  {
    if s == "" then acc else ReadOn(acc * 10 + DigitValue(s[0]), s[1..])
  }

  /** The number a digit text names. */
  function Number(s: string): int {
    ReadOn(0, s)
  }

  /** The exact value of a decimal literal `digits.digits`, in units of its last digit. */
  function LiteralUnits(s: string): int {
    Number(StripDots(s))
  }

  /** The literal text that `_brl_to_reais` hands to `float`. */
  function BrlLiteral(amount: string): string {
    CommaToDot(StripDots(amount))
  }

  const ROUNDOFF: real := 1.0 / 9007199254740992.0

  function Abs(x: real): real {
    if x < 0.0 then -x else x
  }

  /** `y` is an admissible binary64 result for the exact value `x`. */
  predicate RoundsTo(x: real, y: real) {
    Abs(y - x) <= Abs(x) * ROUNDOFF
  }

  /** Python's `round`: to the nearest integer, ties to even. */
  function RoundHalfEven(x: real): int {
    var f := x.Floor;
    var d := x - f as real;
    if d < 0.5 then f else if d > 0.5 then f + 1 else if f % 2 == 0 then f else f + 1
  }

  /** `to_cents` of a finite number `value`, whose rounded product with one hundred is `product`. */
  function ToCents(value: real, product: real): Option<nat> {
    if value <= 0.0 then None
    else
      var cents := RoundHalfEven(product);
      if cents <= 0 || cents > MAX_PRICE_CENTS then None else Some(cents)
  }

  /** Rounding gives a nearest integer, and the even one of two that are equally near. */
  lemma RoundsToNearestEven(x: real, n: int)
    ensures Abs(x - RoundHalfEven(x) as real) <= Abs(x - n as real)
    ensures n != RoundHalfEven(x) && Abs(x - n as real) == Abs(x - RoundHalfEven(x) as real) ==>
              RoundHalfEven(x) % 2 == 0
  {
    assert n <= x.Floor || n >= x.Floor + 1;
  }

  /** An absent price is a dash, and a present one starts with the currency and one space. */
  lemma FormatShape(cents: nat)
    ensures FormatCents(None) == "-"
    ensures |FormatCents(Some(cents))| >= 3 && FormatCents(Some(cents))[..3] == "R$ "
  {
  }

  // ----- The printed text is in the grammar, and the capture is unique

  lemma {:induction false} DotGroupsAppend(s: string, g: string)
    requires DotGroups(s) && |g| == 4 && g[0] == '.' && AllDigits(g[1..])
    ensures DotGroups(s + g)
  {
    var t := s + g;
    if s == "" {
      assert t == g && t[1..4] == g[1..] && t[4..] == "";
    } else {
      DotGroupsAppend(s[4..], g);
      assert t[1..4] == s[1..4] && t[4..] == s[4..] + g;
    }
  }

  lemma GroupAppended(h: string, digits: string)
    requires GroupedNumber(h) && |digits| == 3 && AllDigits(digits)
    ensures GroupedNumber(h + "." + digits)
  {
    var g := "." + digits;
    assert g[1..] == digits && h + "." + digits == h + g;
    var i :| 1 <= i <= 3 && i <= |h| && AllDigits(h[..i]) && DotGroups(h[i..]);
    DotGroupsAppend(h[i..], g);
    assert (h + g)[..i] == h[..i] && (h + g)[i..] == h[i..] + g;
  }

  lemma ShortInGrammar(s: string)
    requires 1 <= |s| <= 3 && AllDigits(s)
    ensures GroupedNumber(s)
  {
    assert s[..|s|] == s && s[|s|..] == "";
    assert DotGroups(s[|s|..]);
  }

  lemma {:induction false} GroupedInGrammar(n: nat)
    ensures GroupedNumber(Grouped(n))
  {
    if n < 1000 {
      ShortInGrammar(Small(n));
    } else {
      GroupedInGrammar(n / 1000);
      GroupAppended(Grouped(n / 1000), Padded(n % 1000, 3));
    }
  }

  predicate NoComma(s: string) {
    ',' !in s
  }

  lemma AmountInGrammar(cents: nat)
    ensures IsAmount(Amount(cents))
  {
    var (s, g, f) := (Amount(cents), Grouped(cents / 100), Padded(cents % 100, 2));
    GroupedInGrammar(cents / 100);
    assert |g| >= 1;
    assert s[..|s| - 3] == g && s[|s| - 2..] == f && s[|s| - 3] == ',';
  }

  /** The price pattern matches the printed text, and every way to match it captures the whole amount. */
  lemma PrintedPriceCapture(cents: nat, amount: string)
    ensures Captures(FormatCents(Some(cents)), amount) <==> amount == Amount(cents)
  {
    var text, a := FormatCents(Some(cents)), Amount(cents);
    AmountInGrammar(cents);
    if amount == a {
      assert AllSpace(" ") && text == "R$" + " " + a + "";
    }
    if Captures(text, amount) {
      var space, rest :| AllSpace(space) && IsAmount(amount) && text == "R$" + space + amount + rest;
      CaptureIsWhole(a, space, amount, rest);
    }
  }

  lemma CaptureIsWhole(a: string, space: string, b: string, rest: string)
    requires IsAmount(a) && IsAmount(b) && AllSpace(space)
    requires "R$ " + a == "R$" + space + b + rest
    ensures a == b
  {
    AmountStart(a);
    AmountStart(b);
    var text := "R$ " + a;
    assert text[2] == ' ' && text[3] == a[0];
    if |space| == 1 {
      assert text[3..] == b + rest && text[3..] == a;
      CommaFixesLength(a, b, rest);
    }
  }

  lemma AmountStart(s: string)
    requires IsAmount(s)
    ensures '0' <= s[0] <= '9'
  {
    var n := s[..|s| - 3];
    var i :| 1 <= i <= 3 && i <= |n| && AllDigits(n[..i]) && DotGroups(n[i..]);
    assert n[..i][0] == s[0];
  }

  lemma {:induction false} DotGroupsHaveNoComma(s: string)
    requires DotGroups(s)
    ensures NoComma(s)
  {
    if s != "" {
      DotGroupsHaveNoComma(s[4..]);
      assert s == [s[0]] + s[1..4] + s[4..];
      assert NoComma(s[1..4]);
    }
  }

  lemma NoCommaBeforeCents(s: string)
    requires IsAmount(s)
    ensures NoComma(s[..|s| - 3])
  {
    var n := s[..|s| - 3];
    var i :| 1 <= i <= 3 && i <= |n| && AllDigits(n[..i]) && DotGroups(n[i..]);
    DotGroupsHaveNoComma(n[i..]);
    assert n == n[..i] + n[i..];
    assert NoComma(n[..i]);
  }

  lemma CommaFixesLength(a: string, b: string, rest: string)
    requires IsAmount(a) && IsAmount(b) && a == b + rest
    ensures a == b
  {
    NoCommaBeforeCents(a);
    var i := |b| - 3;
    assert a[i] == ',';
    assert forall j :: 0 <= j < |a| - 3 ==> a[..|a| - 3][j] == a[j];
  }

  // ----- The literal names the printed cents

  lemma StripDotsAppend(s: string, t: string)
    ensures StripDots(s + t) == StripDots(s) + StripDots(t)
  {
    if s == "" {
      assert s + t == t;
    } else {
      assert (s + t)[1..] == s[1..] + t;
      StripDotsAppend(s[1..], t);
    }
  }

  lemma StripDotsOfDigits(s: string)
    requires AllDigits(s)
    ensures StripDots(s) == s
  {
    if s != "" {
      StripDotsOfDigits(s[1..]);
    }
  }

  lemma CommaToDotAppend(s: string, t: string)
    ensures CommaToDot(s + t) == CommaToDot(s) + CommaToDot(t)
  {
    if s == "" {
      assert s + t == t;
    } else {
      assert (s + t)[1..] == s[1..] + t;
      CommaToDotAppend(s[1..], t);
    }
  }

  lemma CommaToDotOfDigits(s: string)
    requires AllDigits(s)
    ensures CommaToDot(s) == s
  {
    if s != "" {
      CommaToDotOfDigits(s[1..]);
    }
  }

  lemma {:induction false} ReadOnAppend(acc: int, s: string, t: string)
    ensures ReadOn(acc, s + t) == ReadOn(ReadOn(acc, s), t)
    decreases |s|
  {
    if s == "" {
      assert s + t == t;
    } else {
      assert (s + t)[1..] == s[1..] + t;
      ReadOnAppend(acc * 10 + DigitValue(s[0]), s[1..], t);
    }
  }

  lemma Shift(acc: int, p: int)
    ensures acc * p * 10 == acc * (10 * p)
  {
  }

  lemma {:induction false} ReadOnPadded(acc: int, n: int, w: nat)
    requires 0 <= n < Pow10(w)
    ensures ReadOn(acc, Padded(n, w)) == acc * Pow10(w) + n
  {
    if w > 0 {
      var d := [Digit(n % 10)];
      ReadOnPadded(acc, n / 10, w - 1);
      ReadOnAppend(acc, Padded(n / 10, w - 1), d);
      assert d[1..] == "";
      Shift(acc, Pow10(w - 1));
    }
  }

  lemma NumberOfSmall(n: int)
    requires 0 <= n < 1000
    ensures AllDigits(Small(n)) && Number(Small(n)) == n
  {
    if n < 10 { ReadOnPadded(0, n, 1); } else if n < 100 { ReadOnPadded(0, n, 2); } else { ReadOnPadded(0, n, 3); }
  }

  lemma StripGroup(h: string, g: string)
    requires AllDigits(g)
    ensures StripDots(h + "." + g) == StripDots(h) + g
  {
    StripDotsAppend(h + ".", g);
    StripDotsAppend(h, ".");
    StripDotsOfDigits(g);
    assert StripDots(".") == "";
  }

  lemma {:induction false} NumberOfGrouped(n: nat)
    ensures AllDigits(StripDots(Grouped(n)))
    ensures Number(StripDots(Grouped(n))) == n
  {
    if n < 1000 {
      NumberOfSmall(n);
      StripDotsOfDigits(Small(n));
    } else {
      var (h, g) := (Grouped(n / 1000), Padded(n % 1000, 3));
      NumberOfGrouped(n / 1000);
      StripGroup(h, g);
      ReadOnAppend(0, StripDots(h), g);
      ReadOnPadded(n / 1000, n % 1000, 3);
      assert Pow10(3) == 1000;
    }
  }

  /** The literal is `digits.dd`: its exact value is the printed number of cents over one hundred. */
  lemma LiteralOfAmount(cents: nat)
    ensures BrlLiteral(Amount(cents)) == StripDots(Grouped(cents / 100)) + "." + Padded(cents % 100, 2)
    ensures LiteralUnits(BrlLiteral(Amount(cents))) == cents
  {
    var (g, f) := (Grouped(cents / 100), Padded(cents % 100, 2));
    var d := StripDots(g);
    NumberOfGrouped(cents / 100);
    StripDotsAppend(g + ",", f);
    StripDotsAppend(g, ",");
    StripDotsOfDigits(f);
    assert StripDots(",") == ",";
    assert StripDots(Amount(cents)) == d + "," + f;
    CommaToDotAppend(d + ",", f);
    CommaToDotAppend(d, ",");
    CommaToDotOfDigits(d);
    CommaToDotOfDigits(f);
    assert CommaToDot(",") == ".";
    var literal := d + "." + f;
    assert BrlLiteral(Amount(cents)) == literal;
    StripDotsAppend(d + ".", f);
    StripDotsAppend(d, ".");
    StripDotsOfDigits(d);
    assert StripDots(".") == "";
    assert StripDots(literal) == d + f;
    ReadOnAppend(0, d, f);
    ReadOnPadded(cents / 100, cents % 100, 2);
    assert Pow10(2) == 100;
  }

  // ----- Two rounded operations still give the nearest integer

  lemma RoundingError(cents: nat, value: real, product: real)
    requires RoundsTo(cents as real / 100.0, value) && RoundsTo(value * 100.0, product)
    ensures Abs(product - cents as real) <= cents as real * (3.0 * ROUNDOFF)
  {
    var c := cents as real;
    var u := ROUNDOFF;
    assert 0.0 < u < 0.5;
    assert Abs(value - c / 100.0) <= c / 100.0 * u;
    var e1 := value * 100.0 - c;
    assert Abs(e1) <= c * u;
    assert c * u <= c * 0.5 by { Scale(c, u, 0.5); }
    assert value >= 0.0;
    var e2 := product - value * 100.0;
    assert Abs(e2) <= (c + e1) * u;
    assert e1 * u <= c * u * u && c * u * u <= c * u by {
      Scale(u, e1, c * u);
      Scale(c * u, u, 1.0);
    }
    assert (c + e1) * u == c * u + e1 * u;
  }

  lemma Scale(a: real, x: real, y: real)
    requires a >= 0.0 && x <= y
    ensures a * x <= a * y
  {
  }

  lemma NearestInteger(x: real, n: int)
    requires Abs(x - n as real) < 0.5
    ensures RoundHalfEven(x) == n
  {
    var f := x.Floor;
    assert f == n || f == n - 1;
  }

  /** Reading a printed price back gives the same cents exactly when they lie in the accepted
      range, whatever the two floating-point roundings do. */
  lemma PriceRoundTrip(cents: nat, value: real, product: real)
    requires RoundsTo(LiteralUnits(BrlLiteral(Amount(cents))) as real / 100.0, value)
    requires RoundsTo(value * 100.0, product)
    ensures ToCents(value, product) == if 1 <= cents <= 100_000_000 then Some(cents) else None
  {
    LiteralOfAmount(cents);
    var c := cents as real;
    RoundingError(cents, value, product);
    if cents > 0 {
      PositiveStaysPositive(c / 100.0, value);
      if cents <= MAX_PRICE_CENTS {
        Scale(3.0 * ROUNDOFF, c, MAX_PRICE_CENTS as real);
        NearestInteger(product, cents);
      } else {
        assert product >= c * (1.0 - 3.0 * ROUNDOFF);
        Scale(1.0 - 3.0 * ROUNDOFF, (MAX_PRICE_CENTS + 1) as real, c);
        assert product > MAX_PRICE_CENTS as real + 0.5;
        assert RoundHalfEven(product) > MAX_PRICE_CENTS;
      }
    }
  }

  lemma PositiveStaysPositive(x: real, y: real)
    requires x > 0.0 && RoundsTo(x, y)
    ensures y > 0.0
  {
    Scale(x, ROUNDOFF, 0.5);
  }
}
