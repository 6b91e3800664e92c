/** The decimal numbers inside durations: which tokens the parser reads and as
    what, and with that the accepted texts and their values without reference to
    its number reader. */
module DurationNumbers {
  import opened Wrappers
  import opened Text
  import opened Duration
  import opened DurationGrammar
  import opened DurationFormat

  // ------------------------------------------------------------------ tokens

  /** A digit, or a point and a digit; what follows does not matter. */
  predicate StartsNumber(token: string) {
    || (token != "" && IsDigit(token[0]))
    || (|token| >= 2 && token[0] == '.' && IsDigit(token[1]))
  }

  predicate KnownUnit(unit: char) { unit == 'D' || unit == 'W' || unit == 'H' || unit == 'M' || unit == 'S' }

  /** What each unit is worth, years and months not being among them. */
  lemma UnitsExactly(unit: char)
    ensures UnitNanos(unit) ==
            if unit == 'W' then Some(604_800_000_000_000) else if unit == 'D' then Some(86_400_000_000_000)
            else if unit == 'H' then Some(3_600_000_000_000) else if unit == 'M' then Some(60_000_000_000)
            else if unit == 'S' then Some(1_000_000_000) else None
  {
  }

  /** The token is not too large a number for the float, as it never is for an
      arithmetic without a largest one. */
  predicate Representable(float: Float, token: string) {
    ScanNumber(token).Some? ==> float.round(ScanNumber(token).value.Exact()).Some?
  }

  lemma FirstDigits(s: string)
    ensures LeadingDigits(s) != "" <==> s != "" && IsDigit(s[0])
  {
  }

  /** Exactly these tokens are read, whatever rounding does to their value. */
  lemma ReadsExactly(float: Float, token: string, unit: char)
    ensures Reading(float)(token, unit).Ok? <==>
            StartsNumber(token) && KnownUnit(unit) && Representable(float, token)
  {
    FirstDigits(token);
    var whole := LeadingDigits(token);
    if whole == "" && token != "" && token[0] == '.' { FirstDigits(token[1..]); }
    assert Reading(float)(token, unit) == Amount(float, token, unit);
  }

  // ------------------------------------------------------------------ values

  lemma DigitsScan(token: string)
    requires token != "" && AllDigits(token)
    ensures ScanNumber(token) == Some(Number(Value(token), 0, 0)) && AllNumberChars(token)
  {
    LeadingDigitsOf(token, "");
    assert token + "" == token;
  }

  /** The count and its nanoseconds are exact in this arithmetic. */
  ghost predicate Precise(float: Float, n: nat, nanos: nat) {
    float == EXACT || (KeepsDoubles(float) && FitsDouble(n) && FitsDouble(n * nanos))
  }

  lemma Grows(n: nat, k: nat)
    requires k >= 1
    ensures n <= n * k
  {
    assert n * k == n + n * (k - 1);
  }

  lemma RoundsExactly(float: Float, n: nat, nanos: nat)
    requires nanos >= 1 && Precise(float, n, nanos) && n * nanos < NANOSECOND_LIMIT
    ensures float.round(n as real) == Some(n as real)
    ensures float.round(n as real * nanos as real) == Some((n * nanos) as real)
  {
    Grows(n, nanos);
    RealProduct(n, nanos);
  }

  /** A token of digits is that many units. */
  lemma DigitsRead(float: Float, token: string, unit: char, n: nat, nanos: nat)
    requires token != "" && AllDigits(token) && n == Value(token) && UnitNanos(unit) == Some(nanos)
    requires n * nanos < NANOSECOND_LIMIT && Precise(float, n, nanos)
    ensures Reading(float)(token, unit) == Ok(n * nanos)
  {
    RoundsExactly(float, n, nanos);
    DigitsReadAs(float, token, unit, n, n as real, n as real * nanos as real, n * nanos);
  }

  lemma DigitsReadAs(float: Float, token: string, unit: char, n: nat, amount: real, product: real, total: nat)
    requires token != "" && AllDigits(token) && n == Value(token) && total < NANOSECOND_LIMIT
    requires amount == n as real && float.round(amount) == Some(amount)
    requires UnitNanos(unit).Some? && product == amount * UnitNanos(unit).value as real
    requires float.round(product) == Some(total as real)
    ensures Reading(float)(token, unit) == Ok(total)
  {
    DigitsScan(token);
    ExactValues(n, 0);
    var number := Number(n, 0, 0);
    assert number.Exact() == amount;
    AmountKeeps(float, token, unit, number, amount, total);
  }

  /** The token begins with this decimal number: digits, and digits after a point;
      what follows them is nothing or no digit. */
  ghost predicate Spells(token: string, a: string, b: string) {
    && AllDigits(a) && AllDigits(b) && a + b != ""
    && ((token == a && b == "") ||
        (exists rest :: token == a + ("." + (b + rest)) && (rest == "" || !IsDigit(rest[0]))))
  }

  function WholePart(token: string): string { LeadingDigits(token) }

  function FractionPart(token: string): string {
    var rest := token[|WholePart(token)|..];
    if rest != "" && rest[0] == '.' then LeadingDigits(rest[1..]) else ""
  }

  /** A token of digits and points that starts as a number does spells one number. */
  lemma SpellsOnce(token: string, a: string, b: string)
    requires AllNumberChars(token) && StartsNumber(token)
    ensures Spells(token, a, b) <==> a == WholePart(token) && b == FractionPart(token)
  {
    SpellsParts(token);
    if Spells(token, a, b) { SpelledParts(token, a, b); }
  }

  lemma SpelledParts(token: string, a: string, b: string)
    requires Spells(token, a, b)
    ensures a == WholePart(token) && b == FractionPart(token)
  {
    if token == a && b == "" {
      LeadingDigitsOf(a, "");
      assert a + "" == token;
    } else {
      var rest :| token == a + ("." + (b + rest)) && (rest == "" || !IsDigit(rest[0]));
      LeadingDigitsOf(a, "." + (b + rest));
      assert token[|a|..] == "." + (b + rest);
      assert ("." + (b + rest))[1..] == b + rest;
      LeadingDigitsOf(b, rest);
    }
  }

  lemma SpellsParts(token: string)
    requires AllNumberChars(token) && StartsNumber(token)
    ensures Spells(token, WholePart(token), FractionPart(token))
  {
    var a := WholePart(token);
    var tail := token[|a|..];
    assert token == a + tail;
    if tail == "" {
      assert token == a;
    } else {
      assert token[|a|] in token && tail[0] == '.';
      if a == "" { FirstDigits(tail[1..]); }
      SpellsAfterPoint(token, a, tail[1..]);
    }
  }

  lemma SpellsAfterPoint(token: string, a: string, tail: string)
    requires AllDigits(a) && token == a + ("." + tail) && a + LeadingDigits(tail) != ""
    ensures Spells(token, a, LeadingDigits(tail))
  {
    var b := LeadingDigits(tail);
    var rest := tail[|b|..];
    assert tail == b + rest;
    assert token == a + ("." + (b + rest));
  }

  /** Truncating a quotient of naturals is their integer quotient. */
  lemma QuotientFloor(x: nat, p: nat)
    requires p > 0
    ensures (x as real / p as real).Floor == x / p >= 0
  {
    var q, r := x / p, x % p;
    assert x == q * p + r;
    assert x as real == q as real * p as real + r as real;
    assert x as real / p as real == q as real + r as real / p as real;
    assert 0.0 <= r as real / p as real < 1.0;
  }

  lemma RealFraction(amount: real, w: real, f: real, p: real, n: real)
    requires p > 0.0 && amount == w + f / p
    ensures amount * n == ((w * p + f) * n) / p
  {
    var m := w * p + f;
    FractionTimes(amount, w, f / p, p, m);
    Regroup(amount, p, n, m);
  }

  lemma FractionTimes(amount: real, w: real, q: real, p: real, m: real)
    requires amount == w + q && m == w * p + q * p
    ensures amount * p == m
  {
  }

  lemma Regroup(amount: real, p: real, n: real, m: real)
    requires p > 0.0 && amount * p == m
    ensures amount * n == (m * n) / p
  {
    assert (amount * n) * p == (amount * p) * n;
  }

  /** A decimal number of units, cut to a whole number, in integers. */
  lemma WholeNanos(w: nat, f: nat, p: nat, n: nat, amount: real, product: real)
    requires p > 0 && amount == w as real + f as real / p as real && product == amount * n as real
    ensures product.Floor == (w * p + f) * n / p >= 0
  {
    RealFraction(amount, w as real, f as real, p as real, n as real);
    ScaledCount(w, f, p, n);
    QuotientFloor((w * p + f) * n, p);
  }

  lemma ScaledCount(w: nat, f: nat, p: nat, n: nat)
    ensures (w as real * p as real + f as real) * n as real == ((w * p + f) * n) as real
  {
    RealProduct(w, p);
    RealProduct(w * p + f, n);
  }

  /** That many units, cut to whole nanoseconds. */
  function SpelledNanos(a: string, b: string, nanos: nat): int
    requires AllDigits(a) && AllDigits(b)
  {
    (Value(a) * Pow10(|b|) + Value(b)) * nanos / Pow10(|b|)
  }

  lemma AmountRead(unit: char, nanos: nat, amount: real, product: real, total: nat)
    requires UnitNanos(unit) == Some(nanos) && product == amount * nanos as real
    requires product.Floor == total < NANOSECOND_LIMIT
    ensures IsoUnit(EXACT, unit, amount) == Ok(total)
  {
    assert product.Floor as real <= product < product.Floor as real + 1.0;
  }

  lemma NumberRead(token: string, unit: char, amount: real)
    requires token != "" && ScanNumber(token).Some? && ScanNumber(token).value.Exact() == amount
    ensures Reading(EXACT)(token, unit) == IsoUnit(EXACT, unit, amount)
  {
  }

  lemma NanosSpelled(a: string, b: string, nanos: nat, amount: real, product: real)
    requires AllDigits(a) && AllDigits(b) && amount == Number(Value(a), Value(b), |b|).Exact()
    requires product == amount * nanos as real
    ensures product.Floor == SpelledNanos(a, b, nanos) >= 0
  {
    WholeNanos(Value(a), Value(b), Pow10(|b|), nanos, amount, product);
  }

  lemma SpelledScan(token: string, a: string, b: string)
    requires Spells(token, a, b)
    ensures token != "" && ScanNumber(token) == Some(Number(Value(a), Value(b), |b|))
  {
    SpelledParts(token, a, b);
  }

  /** A token is read as the number it spells, in exact arithmetic; with a second
      point and what follows left unread. */
  lemma DecimalRead(token: string, a: string, b: string, unit: char, nanos: nat)
    requires Spells(token, a, b) && UnitNanos(unit) == Some(nanos)
    requires SpelledNanos(a, b, nanos) < NANOSECOND_LIMIT
    ensures Reading(EXACT)(token, unit) == Ok(SpelledNanos(a, b, nanos))
  {
    SpelledScan(token, a, b);
    var amount := Number(Value(a), Value(b), |b|).Exact();
    ScannedRead(token, a, b, unit, nanos, amount, amount * nanos as real, SpelledNanos(a, b, nanos));
  }

  lemma ScannedRead(token: string, a: string, b: string, unit: char, nanos: nat, amount: real, product: real,
      total: int)
    requires AllDigits(a) && AllDigits(b) && amount == Number(Value(a), Value(b), |b|).Exact()
    requires token != "" && ScanNumber(token).Some? && ScanNumber(token).value.Exact() == amount
    requires UnitNanos(unit) == Some(nanos) && product == amount * nanos as real
    requires total == SpelledNanos(a, b, nanos) < NANOSECOND_LIMIT
    ensures Reading(EXACT)(token, unit) == Ok(total)
  {
    NanosSpelled(a, b, nanos, amount, product);
    AmountRead(unit, nanos, amount, product, total);
    NumberRead(token, unit, amount);
  }

  // ---------------------------------------------------------- accepted texts

  /** A component, without reference to the number reader. */
  ghost predicate TextComponent(token: string, unit: char, inTime: bool) {
    && AllNumberChars(token) && StartsNumber(token)
    && (unit == 'D' || unit == 'W' || (inTime && (unit == 'H' || unit == 'M' || unit == 'S')))
  }

  ghost predicate TextForm(items: seq<Item>, inTime: bool) {
    items == [] ||
    match items[0]
    case Designator => TextForm(items[1..], true)
    case Component(token, unit) => TextComponent(token, unit, inTime) && TextForm(items[1..], inTime)
  }

  /** `P`, then components of digits and points that start as a number does, hours,
      minutes and seconds only after a `T`, one component at least, and one at
      least after a `T`. */
  ghost predicate DurationText(s: string, items: seq<Item>) {
    && s == "P" + Render(items) && TextForm(items, false)
    && Components(items) >= 1 && (Designator in items ==> TimeComponents(items) >= 1)
  }

  ghost predicate AllRepresentable(float: Float, items: seq<Item>) {
    forall item <- items :: item.Component? ==> Representable(float, item.token)
  }

  lemma {:induction false} FormIsText(float: Float, items: seq<Item>, inTime: bool)
    ensures WellFormed(Reading(float), items, inTime) <==> TextForm(items, inTime) && AllRepresentable(float, items)
  {
    if items != [] {
      assert items == [items[0]] + items[1..];
      match items[0]
      case Designator => FormIsText(float, items[1..], true);
      case Component(token, unit) =>
        ReadsExactly(float, token, unit);
        FormIsText(float, items[1..], inTime);
    }
  }

  /** The accepted texts, exactly. */
  lemma AcceptedTexts(float: Float, s: string)
    ensures ParseTrimmed(Reading(float), s).Ok? <==>
            exists items :: DurationText(s, items) && AllRepresentable(float, items)
  {
    YearsRejected(float);
    AcceptsExactly(Reading(float), s);
    forall items
      ensures Derives(Reading(float), s, items) <==> DurationText(s, items) && AllRepresentable(float, items)
    {
      FormIsText(float, items, false);
    }
  }

  function TokenNanos(token: string, nanos: nat): int {
    SpelledNanos(WholePart(token), FractionPart(token), nanos)
  }

  /** Every component is within an int64 by itself; converting a larger float is up
      to the platform. */
  ghost predicate EachFits(items: seq<Item>) {
    forall item <- items :: item.Component? && KnownUnit(item.unit) ==>
      TokenNanos(item.token, UnitNanos(item.unit).value) < NANOSECOND_LIMIT
  }

  function TextNanos(items: seq<Item>): int {
    if items == [] then 0
    else
      (if items[0].Component? && KnownUnit(items[0].unit)
       then TokenNanos(items[0].token, UnitNanos(items[0].unit).value) else 0) + TextNanos(items[1..])
  }

  lemma TokenRead(token: string, unit: char)
    requires AllNumberChars(token) && StartsNumber(token) && KnownUnit(unit)
    requires TokenNanos(token, UnitNanos(unit).value) < NANOSECOND_LIMIT
    ensures Reading(EXACT)(token, unit) == Ok(TokenNanos(token, UnitNanos(unit).value))
  {
    SpellsParts(token);
    DecimalRead(token, WholePart(token), FractionPart(token), unit, UnitNanos(unit).value);
  }

  lemma {:induction false} TextIsRead(items: seq<Item>, inTime: bool)
    requires TextForm(items, inTime) && EachFits(items)
    ensures WellFormed(Reading(EXACT), items, inTime) && Total(Reading(EXACT), items) == TextNanos(items)
  {
    if items != [] {
      assert items[0] in items && items == [items[0]] + items[1..];
      TextIsRead(items[1..], inTime || items[0].Designator?);
      match items[0]
      case Designator =>
      case Component(token, unit) =>
        TokenRead(token, unit);
    }
  }

  /** The value of every accepted text in exact arithmetic: the sum of the numbers
      its components spell times their units, each cut to whole nanoseconds and the
      sum wrapped to an int64. */
  lemma AcceptedValue(s: string, items: seq<Item>)
    requires DurationText(s, items) && EachFits(items)
    ensures ParseTrimmed(Reading(EXACT), s) == Ok(Wrap(TextNanos(items)))
  {
    TextIsRead(items, false);
    DerivationParses(Reading(EXACT), s, items);
  }

  // ---------------------------------------------------------------- RFC 3339

  ghost predicate DigitsOnly(item: Item) { item.Component? && item.token != "" && AllDigits(item.token) }

  /** Clock components of RFC 3339 Appendix A: each unit followed, if at all, by
      the next smaller one. */
  ghost predicate RfcClock(items: seq<Item>, unit: char) {
    && items != [] && DigitsOnly(items[0]) && items[0].unit == unit
    && (|items| == 1 || (unit == 'H' && RfcClock(items[1..], 'M')) || (unit == 'M' && RfcClock(items[1..], 'S')))
  }

  ghost predicate RfcTime(items: seq<Item>) {
    && items != [] && items[0].Designator?
    && (RfcClock(items[1..], 'H') || RfcClock(items[1..], 'M') || RfcClock(items[1..], 'S'))
  }

  /** The durations of RFC 3339 Appendix A without years and months. */
  ghost predicate RfcDuration(items: seq<Item>) {
    || RfcTime(items)
    || (items != [] && DigitsOnly(items[0]) &&
        ((items[0].unit == 'D' && (|items| == 1 || RfcTime(items[1..]))) || (items[0].unit == 'W' && |items| == 1)))
  }

  /** What one item stands for: that many units. */
  ghost function ItemNanos(item: Item): nat {
    if item.Component? && AllDigits(item.token) && KnownUnit(item.unit)
      then Value(item.token) * UnitNanos(item.unit).value
    else 0
  }

  ghost function Nanoseconds(items: seq<Item>): nat {
    if items == [] then 0 else ItemNanos(items[0]) + Nanoseconds(items[1..])
  }

  ghost predicate AllPrecise(float: Float, items: seq<Item>) {
    forall item <- items :: DigitsOnly(item) && KnownUnit(item.unit) ==>
      Precise(float, Value(item.token), UnitNanos(item.unit).value)
  }

  ghost predicate AllReadable(items: seq<Item>) {
    forall item <- items :: item.Component? ==> DigitsOnly(item) && KnownUnit(item.unit)
  }

  lemma {:induction false} RfcClockForm(items: seq<Item>, unit: char)
    requires RfcClock(items, unit) && unit in {'H', 'M', 'S'}
    ensures TextForm(items, true) && Components(items) >= 1 && AllReadable(items)
  {
    FirstIsNumber(items[0].token);
    if |items| > 1 {
      RfcClockForm(items[1..], if unit == 'H' then 'M' else 'S');
      assert items == [items[0]] + items[1..];
    }
  }

  lemma FirstIsNumber(token: string)
    requires token != "" && AllDigits(token)
    ensures StartsNumber(token) && AllNumberChars(token)
  {
  }

  lemma RfcTimeForm(items: seq<Item>)
    requires RfcTime(items)
    ensures TextForm(items, false) && TextForm(items, true) && TimeComponents(items) >= 1 && Components(items) >= 1
      && AllReadable(items)
  {
    RfcClockForm(items[1..], items[1].unit);
    assert items == [items[0]] + items[1..];
  }

  lemma RfcForm(items: seq<Item>)
    requires RfcDuration(items)
    ensures TextForm(items, false) && Components(items) >= 1 && (Designator in items ==> TimeComponents(items) >= 1)
    ensures AllReadable(items)
  {
    if RfcTime(items) {
      RfcTimeForm(items);
    } else {
      FirstIsNumber(items[0].token);
      assert items == [items[0]] + items[1..];
      if |items| > 1 { RfcTimeForm(items[1..]); } else { assert items[1..] == []; }
    }
  }

  /** In range and precise, every item is read as what it stands for. */
  lemma {:induction false} SumIsRead(float: Float, items: seq<Item>)
    requires AllReadable(items) && AllPrecise(float, items) && Nanoseconds(items) < NANOSECOND_LIMIT
    ensures forall item <- items :: item.Component? ==> Reading(float)(item.token, item.unit) == Ok(ItemNanos(item))
    ensures Total(Reading(float), items) == Nanoseconds(items)
  {
    if items != [] {
      assert items[0] in items;
      if items[0].Component? {
        var token, unit := items[0].token, items[0].unit;
        DigitsRead(float, token, unit, Value(token), UnitNanos(unit).value);
      }
      SumIsRead(float, items[1..]);
      assert items == [items[0]] + items[1..];
    }
  }

  lemma {:induction false} ReadableForm(read: Reader, items: seq<Item>, inTime: bool)
    requires TextForm(items, inTime) && forall item <- items :: item.Component? ==> read(item.token, item.unit).Ok?
    ensures WellFormed(read, items, inTime)
  {
    if items != [] {
      assert items[0] in items && items == [items[0]] + items[1..];
      ReadableForm(read, items[1..], inTime || items[0].Designator?);
    }
  }

  /** Every year- and month-free duration of RFC 3339 Appendix A that fits an int64
      is accepted as the sum of its counts times their units; in float64, if the
      counts and products need at most 53 significant bits. */
  lemma RfcAccepted(float: Float, s: string, items: seq<Item>)
    requires RfcDuration(items) && s == "P" + Render(items)
    requires Nanoseconds(items) < NANOSECOND_LIMIT && AllPrecise(float, items)
    ensures ParseTrimmed(Reading(float), s) == Ok(Nanoseconds(items))
  {
    RfcForm(items);
    SumIsRead(float, items);
    ReadableForm(Reading(float), items, false);
    SumInRange(Reading(float), s, items);
  }

  /** The parser takes more: units out of order, for one. */
  lemma LaxerThanRfc(seconds: string, hours: string)
    requires seconds != "" && AllDigits(seconds) && hours != "" && AllDigits(hours)
    requires Value(seconds) * SECOND + Value(hours) * HOUR < NANOSECOND_LIMIT
    ensures var items := [Designator, Component(seconds, 'S'), Component(hours, 'H')];
            && !RfcDuration(items)
            && ParseTrimmed(Reading(EXACT), "P" + Render(items)) == Ok(Value(seconds) * SECOND + Value(hours) * HOUR)
  {
    var s, h := Component(seconds, 'S'), Component(hours, 'H');
    var items := [Designator, s, h];
    assert items[1..] == [s, h] && [s, h][1..] == [h] && [h][1..] == [];
    FirstIsNumber(seconds);
    FirstIsNumber(hours);
    assert TextForm([], true) && Components([]) == 0;
    assert TextForm([h], true) && Components([h]) == 1 by { assert [h][0] == h; }
    assert TextForm([s, h], true) && Components([s, h]) == 2 by { assert [s, h][0] == s; }
    assert TimeComponents(items) == 2 by { assert items[0] == Designator; }
    assert Nanoseconds([h]) == Value(hours) * HOUR;
    assert Nanoseconds([s, h]) == Value(seconds) * SECOND + Value(hours) * HOUR;
    SumIsRead(EXACT, items);
    ReadableForm(Reading(EXACT), items, false);
    SumInRange(Reading(EXACT), "P" + Render(items), items);
  }
}
