/** The duration printer, and the round trips through the parser. */
module DurationFormat {
  import opened Wrappers
  import opened Text
  import opened Duration
  import opened DurationGrammar

  // ------------------------------------------------------ what is printed

  /** The parts a duration is printed in. */
  datatype Clock = Clock(days: nat, hours: nat, minutes: nat, seconds: nat, millis: nat) {
    function Nanos(): nat {
      days * DAY + hours * HOUR + minutes * MINUTE + seconds * SECOND + millis * MILLISECOND
    }

    predicate Bounded() { hours < 24 && minutes < 60 && seconds < 60 && millis < 1000 }
  }

  function Split(d: nat): (c: Clock)
    ensures c.Bounded() && c.Nanos() == d - d % MILLISECOND
  {
    var r1 := d % DAY;
    var r2 := r1 % HOUR;
    var r3 := r2 % MINUTE;
    var r4 := r3 % SECOND;
    var c := Clock(d / DAY, r1 / HOUR, r2 / MINUTE, r3 / SECOND, r4 / MILLISECOND);
    WholeMillis(c, d, r4 % MILLISECOND);
    c
  }

  lemma WholeMillis(c: Clock, d: nat, rest: nat)
    requires d == c.Nanos() + rest && rest < MILLISECOND
    ensures d % MILLISECOND == rest
  {
    var q := c.days * 86_400_000 + c.hours * 3_600_000 + c.minutes * 60_000 + c.seconds * 1000 + c.millis;
    assert d == q * MILLISECOND + rest;
  }

  function Prepend(on: bool, token: string, unit: char, rest: seq<Item>): (items: seq<Item>)
    ensures on ==> items != [] && items[0] == Component(token, unit) && items[1..] == rest
    ensures !on ==> items == rest
  {
    if on then [Component(token, unit)] + rest else rest
  }

  function SecondsToken(c: Clock): string {
    if c.millis > 0 then Decimal(c.seconds) + ("." + Pad3(c.millis)) else Decimal(c.seconds)
  }

  function SecondItems(c: Clock): seq<Item> {
    Prepend(c.seconds > 0 || c.millis > 0, SecondsToken(c), 'S', [])
  }

  function MinuteItems(c: Clock): seq<Item> { Prepend(c.minutes > 0, Decimal(c.minutes), 'M', SecondItems(c)) }

  function HourItems(c: Clock): seq<Item> { Prepend(c.hours > 0, Decimal(c.hours), 'H', MinuteItems(c)) }

  function TimeItems(c: Clock): (items: seq<Item>)
    ensures HourItems(c) != [] ==> items != [] && items[0] == Designator && items[1..] == HourItems(c)
    ensures HourItems(c) == [] ==> items == []
  {
    if HourItems(c) == [] then [] else [Designator] + HourItems(c)
  }

  /** The components printed for a positive duration, all of them non-zero. */
  function DurationItems(c: Clock): seq<Item> { Prepend(c.days > 0, Decimal(c.days), 'D', TimeItems(c)) }

  function Format(d: int): string {
    if d <= 0 then "P0D" else "P" + Render(DurationItems(Split(d)))
  }

  method FormatISO8601Duration(duration: int) returns (s: string)
    ensures s == Format(duration)
  {
    if duration <= 0 { return "P0D"; }
    var d: nat := duration;
    var days := d / DAY;
    d := d % DAY;
    var hours := d / HOUR;
    d := d % HOUR;
    var minutes := d / MINUTE;
    d := d % MINUTE;
    var seconds := d / SECOND;
    d := d % SECOND;
    var ms := d / MILLISECOND;
    ghost var c := Clock(days, hours, minutes, seconds, ms);
    assert c == Split(duration);
    s := WriteParts(days, hours, minutes, seconds, ms);
  }

  /** The builder half of the printer. */
  method WriteParts(days: nat, hours: nat, minutes: nat, seconds: nat, ms: nat) returns (s: string)
    ensures s == "P" + Render(DurationItems(Clock(days, hours, minutes, seconds, ms)))
  {
    ghost var c := Clock(days, hours, minutes, seconds, ms);
    s := "P";
    if days > 0 { s := s + (Decimal(days) + "D"); }
    RenderPrepend("P", days > 0, Decimal(days), 'D', TimeItems(c));
    if hours > 0 || minutes > 0 || seconds > 0 || ms > 0 { s := s + "T"; }
    assert "P" + Render(DurationItems(c)) == s + Render(HourItems(c));
    RenderPrepend(s, hours > 0, Decimal(hours), 'H', MinuteItems(c));
    if hours > 0 { s := s + (Decimal(hours) + "H"); }
    RenderPrepend(s, minutes > 0, Decimal(minutes), 'M', SecondItems(c));
    if minutes > 0 { s := s + (Decimal(minutes) + "M"); }
    RenderPrepend(s, seconds > 0 || ms > 0, SecondsToken(c), 'S', []);
    if seconds > 0 || ms > 0 {
      if ms > 0 {
        s := s + (Decimal(seconds) + ("." + Pad3(ms)) + "S");
      } else {
        s := s + (Decimal(seconds) + "S");
      }
    }
  }

  lemma RenderPrepend(prefix: string, on: bool, token: string, unit: char, rest: seq<Item>)
    ensures prefix + Render(Prepend(on, token, unit, rest)) ==
            (if on then prefix + (token + [unit]) else prefix) + Render(rest)
  {
    if on {
      assert Render(Prepend(on, token, unit, rest)) == token + [unit] + Render(rest);
    }
  }

  /** The text of every clock reading: the components that are not zero, in order,
      and the designator if any of the clock's is not. What is below a millisecond
      is not printed. */
  lemma FormatExactly(c: Clock, below: nat, d: nat, text: string)
    requires c.hours < 24 && c.minutes < 60 && c.seconds < 60 && c.millis < 1000 && below < 1_000_000
    requires d == c.days * 86_400_000_000_000 + c.hours * 3_600_000_000_000 + c.minutes * 60_000_000_000 +
                  c.seconds * 1_000_000_000 + c.millis * 1_000_000 + below
    requires text == Format(d)
    ensures var s1 := if c.days > 0 then "P" + (Decimal(c.days) + "D") else "P";
            var s2 := if c.hours > 0 || c.minutes > 0 || c.seconds > 0 || c.millis > 0 then s1 + "T" else s1;
            var s3 := if c.hours > 0 then s2 + (Decimal(c.hours) + "H") else s2;
            var s4 := if c.minutes > 0 then s3 + (Decimal(c.minutes) + "M") else s3;
            var s5 := if c.millis > 0 then s4 + (Decimal(c.seconds) + ("." + Pad3(c.millis)) + "S")
                      else if c.seconds > 0 then s4 + (Decimal(c.seconds) + "S") else s4;
            text == if d == 0 then "P0D" else s5
  {
    ReadingPrinted(c, below, d);
    PartsPrinted(c);
  }

  lemma ReadingPrinted(c: Clock, below: nat, d: nat)
    requires c.Bounded() && below < MILLISECOND && d == c.Nanos() + below
    ensures Format(d) == if d == 0 then "P0D" else "P" + Render(DurationItems(c))
  {
    SplitReading(c, below, d);
  }

  lemma SplitReading(c: Clock, below: nat, d: nat)
    requires c.Bounded() && below < MILLISECOND && d == c.Nanos() + below
    ensures Split(d) == c
  {
    WholeMillis(c, d, below);
    OneClock(c, Split(d));
  }

  /** A reading is determined by what it adds up to. */
  lemma OneClock(a: Clock, b: Clock)
    requires a.Bounded() && b.Bounded() && a.Nanos() == b.Nanos()
    ensures a == b
  {
    assert a.days == b.days;
    assert a.hours == b.hours;
    assert a.minutes == b.minutes;
    assert a.seconds == b.seconds;
  }

  lemma ClockPrinted(s2: string, c: Clock)
    ensures var s3 := if c.hours > 0 then s2 + (Decimal(c.hours) + "H") else s2;
            var s4 := if c.minutes > 0 then s3 + (Decimal(c.minutes) + "M") else s3;
            var s5 := if c.millis > 0 then s4 + (Decimal(c.seconds) + ("." + Pad3(c.millis)) + "S")
                      else if c.seconds > 0 then s4 + (Decimal(c.seconds) + "S") else s4;
            s2 + Render(HourItems(c)) == s5
  {
    var s3 := if c.hours > 0 then s2 + (Decimal(c.hours) + "H") else s2;
    var s4 := if c.minutes > 0 then s3 + (Decimal(c.minutes) + "M") else s3;
    RenderPrepend(s2, c.hours > 0, Decimal(c.hours), 'H', MinuteItems(c));
    RenderPrepend(s3, c.minutes > 0, Decimal(c.minutes), 'M', SecondItems(c));
    RenderPrepend(s4, c.seconds > 0 || c.millis > 0, SecondsToken(c), 'S', []);
  }

  lemma PartsPrinted(c: Clock)
    ensures var s1 := if c.days > 0 then "P" + (Decimal(c.days) + "D") else "P";
            var s2 := if c.hours > 0 || c.minutes > 0 || c.seconds > 0 || c.millis > 0 then s1 + "T" else s1;
            var s3 := if c.hours > 0 then s2 + (Decimal(c.hours) + "H") else s2;
            var s4 := if c.minutes > 0 then s3 + (Decimal(c.minutes) + "M") else s3;
            var s5 := if c.millis > 0 then s4 + (Decimal(c.seconds) + ("." + Pad3(c.millis)) + "S")
                      else if c.seconds > 0 then s4 + (Decimal(c.seconds) + "S") else s4;
            "P" + Render(DurationItems(c)) == s5
  {
    var s1 := if c.days > 0 then "P" + (Decimal(c.days) + "D") else "P";
    var s2 := if c.hours > 0 || c.minutes > 0 || c.seconds > 0 || c.millis > 0 then s1 + "T" else s1;
    RenderPrepend("P", c.days > 0, Decimal(c.days), 'D', TimeItems(c));
    assert s1 + Render(TimeItems(c)) == s2 + Render(HourItems(c));
    ClockPrinted(s2, c);
  }

  // ------------------------------------------------ reading the pieces back

  lemma {:induction false} LeadingDigitsOf(a: string, b: string)
    requires AllDigits(a) && (b == "" || !IsDigit(b[0]))
    ensures LeadingDigits(a + b) == a
  {
    if a == "" {
      assert a + b == b;
    } else {
      assert (a + b)[1..] == a[1..] + b;
      LeadingDigitsOf(a[1..], b);
    }
  }

  lemma IntegerToken(n: nat)
    ensures ScanNumber(Decimal(n)) == Some(Number(n, 0, 0))
    ensures AllNumberChars(Decimal(n))
  {
    var t := Decimal(n);
    LeadingDigitsOf(t, "");
    assert t + "" == t;
  }

  lemma MillisToken(n: nat, ms: nat)
    requires ms < 1000
    ensures ScanNumber(Decimal(n) + ("." + Pad3(ms))) == Some(Number(n, ms, 3))
    ensures AllNumberChars(Decimal(n) + ("." + Pad3(ms)))
  {
    var whole, fraction := Decimal(n), Pad3(ms);
    var t := whole + ("." + fraction);
    LeadingDigitsOf(whole, "." + fraction);
    assert t[|whole|..] == "." + fraction;
    assert ("." + fraction)[1..] == fraction;
    LeadingDigitsOf(fraction, "");
    assert fraction + "" == fraction;
    Pad3Length(ms);
  }

  lemma ExactValues(n: nat, ms: nat)
    ensures Number(n, 0, 0).Exact() == n as real
    ensures Number(n, ms, 3).Exact() == n as real + ms as real / 1000.0
  {
    assert Pow10(2) == 100 by { assert Pow10(1) == 10; }
  }

  // ------------------------------------------------------------ float64

  function Pow2(e: nat): (p: nat)
    ensures p >= 1
  {
    if e == 0 then 1 else 2 * Pow2(e - 1)
  }

  const SIGNIFICAND_LIMIT: int := 0x20_0000_0000_0000 // 2^53

  ghost predicate Scaled(x: nat, m: nat, e: nat) { m < SIGNIFICAND_LIMIT && x == m * Pow2(e) }

  /** x needs at most 53 significant bits. */
  ghost predicate FitsDouble(x: nat) { exists m: nat, e: nat :: Scaled(x, m, e) }

  /** IEEE 754 rounding, as far as exact results are concerned: an integer in
      the int64 range that needs at most 53 significant bits is kept. */
  ghost predicate KeepsDoubles(float: Float) {
    forall x: nat :: x < NANOSECOND_LIMIT && FitsDouble(x) ==> float.round(x as real) == Some(x as real)
  }

  lemma ExactKeepsDoubles()
    ensures KeepsDoubles(EXACT)
  {
  }

  /** Every unit is a small odd number times a power of two, so the product of
      any in-range count with it needs at most 53 significant bits. */
  lemma ProductFits(n: nat, unit: char)
    requires unit == 'D' || unit == 'H' || unit == 'M' || unit == 'S'
    requires n < (if unit == 'D' then 6_000_000 else 100)
    ensures FitsDouble(n) && FitsDouble(n * UnitNanos(unit).value)
  {
    assert Scaled(n, n, 0);
    Powers();
    match unit
    case 'D' => assert Scaled(n * DAY, n * 1318359375, 16);
    case 'H' => assert Scaled(n * HOUR, n * 439453125, 13);
    case 'M' => assert Scaled(n * MINUTE, n * 29296875, 11);
    case 'S' => assert Scaled(n * SECOND, n * 1953125, 9);
  }

  lemma Powers()
    ensures Pow2(0) == 1 && Pow2(9) == 512 && Pow2(11) == 2048 && Pow2(13) == 8192 && Pow2(16) == 65536
  {
    assert Pow2(4) == 16 by { assert Pow2(2) == 4; }
    assert Pow2(8) == 256 by { assert Pow2(6) == 64; }
    assert Pow2(12) == 4096 by { assert Pow2(10) == 1024; }
    assert Pow2(14) == 16384;
  }

  lemma RealProduct(n: nat, k: nat)
    ensures n as real * k as real == (n * k) as real
  {
  }

  lemma IsoUnitKeeps(float: Float, unit: char, amount: real, nanos: nat)
    requires UnitNanos(unit).Some? && nanos < NANOSECOND_LIMIT
    requires float.round(amount * UnitNanos(unit).value as real) == Some(nanos as real)
    ensures IsoUnit(float, unit, amount) == Ok(nanos)
  {
  }

  lemma AmountKeeps(float: Float, token: string, unit: char, number: Number, amount: real, nanos: nat)
    requires token != "" && ScanNumber(token) == Some(number)
    requires UnitNanos(unit).Some? && nanos < NANOSECOND_LIMIT
    requires float.round(number.Exact()) == Some(amount)
    requires float.round(amount * UnitNanos(unit).value as real) == Some(nanos as real)
    ensures Amount(float, token, unit) == Ok(nanos)
  {
    IsoUnitKeeps(float, unit, amount, nanos);
  }

  lemma AmountOfInteger(float: Float, n: nat, unit: char)
    requires KeepsDoubles(float)
    requires unit == 'D' || unit == 'H' || unit == 'M' || unit == 'S'
    requires n < (if unit == 'D' then 6_000_000 else 100)
    requires n * UnitNanos(unit).value < NANOSECOND_LIMIT
    ensures Amount(float, Decimal(n), unit) == Ok(n * UnitNanos(unit).value)
    ensures AllNumberChars(Decimal(n))
  {
    IntegerToken(n);
    ExactValues(n, 0);
    ProductFits(n, unit);
    var nanos: nat := UnitNanos(unit).value;
    assert float.round(n as real) == Some(n as real);
    RealProduct(n, nanos);
    AmountKeeps(float, Decimal(n), unit, Number(n, 0, 0), n as real, n * nanos);
  }

  lemma MillisProduct(n: nat, ms: nat)
    ensures (n as real + ms as real / 1000.0) * SECOND as real == (n * SECOND + ms * MILLISECOND) as real
  {
  }

  lemma SecondsKeep(token: string, number: Number, amount: real, nanos: nat)
    requires token != "" && ScanNumber(token) == Some(number)
    requires number.Exact() == amount && amount * SECOND as real == nanos as real && nanos < NANOSECOND_LIMIT
    ensures Amount(EXACT, token, 'S') == Ok(nanos)
  {
    AmountKeeps(EXACT, token, 'S', number, amount, nanos);
  }

  lemma AmountOfMillis(n: nat, ms: nat, token: string)
    requires n < 60 && ms < 1000 && token == Decimal(n) + ("." + Pad3(ms))
    ensures Amount(EXACT, token, 'S') == Ok(n * SECOND + ms * MILLISECOND)
    ensures AllNumberChars(token)
  {
    MillisToken(n, ms);
    ExactValues(n, ms);
    MillisProduct(n, ms);
    SecondsKeep(token, Number(n, ms, 3), n as real + ms as real / 1000.0, n * SECOND + ms * MILLISECOND);
  }

  // ------------------------------------------------------------ round trips

  ghost predicate Reads(read: Reader, on: bool, token: string, unit: char, nanos: int) {
    on ==> AllNumberChars(token) && read(token, unit) == Ok(nanos)
  }

  /** `read` reads every printed component back as the nanoseconds it stands for. */
  ghost predicate ReadsBack(read: Reader, c: Clock) {
    && Reads(read, c.days > 0, Decimal(c.days), 'D', c.days * DAY)
    && Reads(read, c.hours > 0, Decimal(c.hours), 'H', c.hours * HOUR)
    && Reads(read, c.minutes > 0, Decimal(c.minutes), 'M', c.minutes * MINUTE)
    && Reads(read, c.seconds > 0 || c.millis > 0, SecondsToken(c), 'S', c.seconds * SECOND + c.millis * MILLISECOND)
  }

  /** Adding one component in front. */
  lemma PrependMeans(read: Reader, on: bool, token: string, unit: char, nanos: int, rest: seq<Item>, inTime: bool)
    requires Reads(read, on, token, unit, nanos) && (!on ==> nanos == 0)
    requires unit == 'D' || (inTime && (unit == 'H' || unit == 'M' || unit == 'S'))
    requires WellFormed(read, rest, inTime)
    ensures var items := Prepend(on, token, unit, rest);
            && WellFormed(read, items, inTime)
            && Total(read, items) == nanos + Total(read, rest)
            && Components(items) == (if on then 1 else 0) + Components(rest)
            && TimeComponents(items) == TimeComponents(rest)
            && (Designator in items <==> Designator in rest)
  {
    if on {
      var items := Prepend(on, token, unit, rest);
      assert items == [items[0]] + rest;
    }
  }

  lemma TimePart(read: Reader, c: Clock)
    requires ReadsBack(read, c)
    ensures WellFormed(read, HourItems(c), true) && Components(HourItems(c)) == |HourItems(c)|
    ensures Designator !in HourItems(c)
    ensures Total(read, HourItems(c)) ==
            c.hours * HOUR + c.minutes * MINUTE + c.seconds * SECOND + c.millis * MILLISECOND
  {
    PrependMeans(read, c.seconds > 0 || c.millis > 0, SecondsToken(c), 'S',
                 c.seconds * SECOND + c.millis * MILLISECOND, [], true);
    PrependMeans(read, c.minutes > 0, Decimal(c.minutes), 'M', c.minutes * MINUTE, SecondItems(c), true);
    PrependMeans(read, c.hours > 0, Decimal(c.hours), 'H', c.hours * HOUR, MinuteItems(c), true);
  }

  lemma DesignatorMeans(read: Reader, items: seq<Item>)
    ensures var time := [Designator] + items;
            && (WellFormed(read, items, true) ==> WellFormed(read, time, false))
            && Total(read, time) == Total(read, items)
            && Components(time) == TimeComponents(time) == Components(items)
  {
    assert ([Designator] + items)[1..] == items;
  }

  /** An optional day component in front of an optional time part. */
  lemma DayAndTime(read: Reader, on: bool, token: string, nanos: int, time: seq<Item>, hours: seq<Item>)
    requires time == if hours == [] then [] else [Designator] + hours
    requires Reads(read, on, token, 'D', nanos) && (!on ==> nanos == 0)
    requires WellFormed(read, hours, true) && Components(hours) == |hours|
    ensures var items := Prepend(on, token, 'D', time);
            && WellFormed(read, items, false) && Total(read, items) == nanos + Total(read, hours)
            && (Sentence(read, items) <==> items != [])
  {
    DesignatorMeans(read, hours);
    PrependMeans(read, on, token, 'D', nanos, time, false);
  }

  lemma PrintedSentence(read: Reader, c: Clock)
    requires ReadsBack(read, c)
    ensures WellFormed(read, DurationItems(c), false) && Total(read, DurationItems(c)) == c.Nanos()
    ensures Sentence(read, DurationItems(c)) <==> c.Nanos() > 0
    ensures c.Nanos() == 0 ==> DurationItems(c) == []
  {
    TimePart(read, c);
    DayAndTime(read, c.days > 0, Decimal(c.days), c.days * DAY, TimeItems(c), HourItems(c));
    NothingPrinted(c);
  }

  lemma NothingPrinted(c: Clock)
    ensures DurationItems(c) == [] <==> c.Nanos() == 0
  {
    NanosZero(c);
    assert SecondItems(c) == [] <==> c.seconds == 0 && c.millis == 0;
    assert MinuteItems(c) == [] <==> c.minutes == 0 && SecondItems(c) == [];
    assert HourItems(c) == [] <==> c.hours == 0 && MinuteItems(c) == [];
    assert DurationItems(c) == [] <==> c.days == 0 && TimeItems(c) == [];
  }

  lemma NanosZero(c: Clock)
    ensures c.Nanos() == 0 <==> c.days == 0 && c.hours == 0 && c.minutes == 0 && c.seconds == 0 && c.millis == 0
  {
  }

  /** What parsing a printed duration gives, for a number reader that reads the
      components back: nothing below a millisecond, else whole milliseconds. */
  lemma PrintedParses(read: Reader, d: nat)
    requires 0 < d < NANOSECOND_LIMIT && ReadsBack(read, Split(d))
    ensures d >= MILLISECOND ==> ParseTrimmed(read, Format(d)) == Ok(d - d % MILLISECOND)
    ensures d < MILLISECOND ==> ParseTrimmed(read, Format(d)) == Err(InvalidDuration)
  {
    var c := Split(d);
    PrintedSentence(read, c);
    if d >= MILLISECOND {
      assert Derives(read, Format(d), DurationItems(c));
      SumInRange(read, Format(d), DurationItems(c));
    }
  }

  lemma ReadsInteger(float: Float, n: nat, unit: char)
    requires KeepsDoubles(float)
    requires unit == 'D' || unit == 'H' || unit == 'M' || unit == 'S'
    requires n < (if unit == 'D' then 6_000_000 else 100)
    requires n * UnitNanos(unit).value < NANOSECOND_LIMIT
    ensures Reads(Reading(float), n > 0, Decimal(n), unit, n * UnitNanos(unit).value)
  {
    AmountOfInteger(float, n, unit);
  }

  lemma ReadsMillis(c: Clock)
    requires c.Bounded() && c.millis > 0
    ensures Reads(Reading(EXACT), true, SecondsToken(c), 'S', c.seconds * SECOND + c.millis * MILLISECOND)
  {
    AmountOfMillis(c.seconds, c.millis, SecondsToken(c));
  }

  lemma ReadsSeconds(float: Float, c: Clock)
    requires KeepsDoubles(float) && c.Bounded()
    requires c.millis == 0 || float == EXACT
    ensures Reads(Reading(float), c.seconds > 0 || c.millis > 0, SecondsToken(c), 'S',
                  c.seconds * SECOND + c.millis * MILLISECOND)
  {
    if c.millis == 0 {
      ReadsInteger(float, c.seconds, 'S');
    } else {
      ReadsMillis(c);
    }
  }

  /** Integer components survive any IEEE rounding; fractions need exact arithmetic. */
  lemma PrintedReadsBack(float: Float, c: Clock)
    requires KeepsDoubles(float) && c.Bounded() && c.Nanos() < NANOSECOND_LIMIT
    requires c.millis == 0 || float == EXACT
    ensures ReadsBack(Reading(float), c)
  {
    ReadsInteger(float, c.days, 'D');
    ReadsInteger(float, c.hours, 'H');
    ReadsInteger(float, c.minutes, 'M');
    ReadsSeconds(float, c);
  }

  // ------------------------------------------------------------ main results

  /** Every whole-second duration survives printing and parsing with float64. */
  lemma RoundTripWholeSeconds(float: Float, d: nat)
    requires KeepsDoubles(float)
    requires d < NANOSECOND_LIMIT && d % SECOND == 0
    ensures ParseTrimmed(Reading(float), Format(d)) == Ok(d)
  {
    if d == 0 {
      ZeroParses(float);
    } else {
      WholeSeconds(d);
      PrintedReadsBack(float, Split(d));
      PrintedParses(Reading(float), d);
    }
  }

  lemma WholeSeconds(d: nat)
    requires d % SECOND == 0
    ensures d % MILLISECOND == 0 && Split(d).millis == 0
  {
    var c, k := Split(d), d / SECOND;
    assert d == k * SECOND;
    SameSecond(k, c.days * 86_400 + c.hours * 3_600 + c.minutes * 60 + c.seconds, c.millis, d % MILLISECOND);
  }

  lemma SameSecond(k: nat, q: nat, millis: nat, rest: nat)
    requires k * SECOND == q * SECOND + millis * MILLISECOND + rest && millis < 1000 && rest < MILLISECOND
    ensures k == q && millis == 0 && rest == 0
  {
    assert (k - q) * SECOND == millis * MILLISECOND + rest < SECOND;
  }

  lemma ZeroParses(float: Float)
    requires KeepsDoubles(float)
    ensures ParseTrimmed(Reading(float), "P0D") == Ok(0)
  {
    AmountOfInteger(float, 0, 'D');
    assert Decimal(0) == "0";
    OneComponent(Reading(float), "0", 0);
    assert "P" + ("0" + "D") == "P0D";
  }

  /** In exact decimal arithmetic every whole-millisecond duration survives, a
      finer one is cut to whole milliseconds, and the printed text is parseable
      exactly when the duration is not strictly between zero and a millisecond
      (those print as a bare "P"). */
  lemma RoundTripExact(d: int)
    requires d < NANOSECOND_LIMIT
    ensures ParseTrimmed(Reading(EXACT), Format(d)).Ok? <==> d <= 0 || d >= MILLISECOND
    ensures d >= MILLISECOND ==> ParseTrimmed(Reading(EXACT), Format(d)) == Ok(d - d % MILLISECOND)
    ensures d <= 0 ==> ParseTrimmed(Reading(EXACT), Format(d)) == Ok(0)
  {
    ExactKeepsDoubles();
    if d <= 0 {
      ZeroParses(EXACT);
    } else {
      PrintedReadsBack(EXACT, Split(d));
      PrintedParses(Reading(EXACT), d);
    }
  }

  /** Printed texts have no surrounding space, so trimming changes nothing. */
  lemma PrintedIsTrimmed(d: int)
    ensures TrimSpace(Format(d)) == Format(d)
  {
    if d > 0 {
      PrintedUnits(Split(d));
      LastChar(DurationItems(Split(d)), "P");
    }
    TrimNothing(Format(d));
  }

  /** So the round trips above are round trips of the whole parser. */
  lemma ParsePrinted(float: Float, d: int)
    ensures Parse(float, Format(d)) == ParseTrimmed(Reading(float), Format(d))
  {
    PrintedIsTrimmed(d);
  }

  lemma TrimNothing(s: string)
    requires s != "" && !IsSpace(s[0]) && !IsSpace(s[|s| - 1])
    ensures TrimSpace(s) == s
  {
  }

  lemma PrintedUnits(c: Clock)
    ensures forall item <- DurationItems(c) :: item.Component? ==> !IsSpace(item.unit)
  {
    PrependUnits(c.seconds > 0 || c.millis > 0, SecondsToken(c), 'S', []);
    PrependUnits(c.minutes > 0, Decimal(c.minutes), 'M', SecondItems(c));
    PrependUnits(c.hours > 0, Decimal(c.hours), 'H', MinuteItems(c));
    PrependUnits(c.days > 0, Decimal(c.days), 'D', TimeItems(c));
  }

  lemma PrependUnits(on: bool, token: string, unit: char, rest: seq<Item>)
    requires !IsSpace(unit) && forall item <- rest :: item.Component? ==> !IsSpace(item.unit)
    ensures forall item <- Prepend(on, token, unit, rest) :: item.Component? ==> !IsSpace(item.unit)
  {
  }

  lemma {:induction false} LastChar(items: seq<Item>, prefix: string)
    requires prefix != "" && !IsSpace(prefix[|prefix| - 1])
    requires forall item <- items :: item.Component? ==> !IsSpace(item.unit)
    ensures var s := prefix + Render(items); !IsSpace(s[|s| - 1])
    decreases |items|
  {
    if items == [] {
      assert prefix + "" == prefix;
    } else {
      assert prefix + Render(items) == prefix + RenderItem(items[0]) + Render(items[1..]);
      LastChar(items[1..], prefix + RenderItem(items[0]));
    }
  }
}
