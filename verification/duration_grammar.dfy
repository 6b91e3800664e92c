/** The language the duration parser accepts, written as a grammar instead of a
    character loop, and the proof that loop and grammar agree on every input. */
module DurationGrammar {
  import opened Wrappers
  import opened Text
  import opened Duration

  /** A duration text after its `P`: time designators and components. */
  datatype Item = Designator | Component(token: string, unit: char)

  function Render(items: seq<Item>): string {
    if items == [] then ""
    else RenderItem(items[0]) + Render(items[1..])
  }

  function RenderItem(item: Item): string {
    match item
    case Designator => "T"
    case Component(token, unit) => token + [unit]
  }

  ghost predicate AllNumberChars(s: string) { forall i :: 0 <= i < |s| ==> IsNumberChar(s[i]) }

  /** A component is a readable number and a unit; hours, minutes and seconds
      need a designator somewhere before them, days and weeks never do. */
  ghost predicate IsComponent(read: Reader, token: string, unit: char, inTime: bool) {
    && AllNumberChars(token)
    && read(token, unit).Ok?
    && (unit == 'D' || unit == 'W' || (inTime && (unit == 'H' || unit == 'M' || unit == 'S')))
  }

  ghost predicate WellFormed(read: Reader, items: seq<Item>, inTime: bool) {
    items == [] ||
    match items[0]
    case Designator => WellFormed(read, items[1..], true)
    case Component(token, unit) => IsComponent(read, token, unit, inTime) && WellFormed(read, items[1..], inTime)
  }

  function Components(items: seq<Item>): nat {
    if items == [] then 0
    else (if items[0].Component? then 1 else 0) + Components(items[1..])
  }

  /** Components standing after the first designator. */
  function TimeComponents(items: seq<Item>): nat {
    if items == [] then 0
    else if items[0].Designator? then Components(items[1..])
    else TimeComponents(items[1..])
  }

  /** The sum of the components. */
  function Total(read: Reader, items: seq<Item>): int {
    if items == [] then 0 else Nanos(read, items[0]) + Total(read, items[1..])
  }

  ghost predicate Sentence(read: Reader, items: seq<Item>) {
    && WellFormed(read, items, false)
    && Components(items) >= 1
    && (Designator in items ==> TimeComponents(items) >= 1)
  }

  /** `s` is `P` followed by a sentence. */
  ghost predicate Derives(read: Reader, s: string, items: seq<Item>) {
    s == "P" + Render(items) && Sentence(read, items)
  }

  // -------------------------------------------------- from items to the loop

  /** The loop's variables after it has consumed one item. */
  function AfterItem(read: Reader, scan: Scan, item: Item): Scan {
    match item
    case Designator => scan.(inTime := true)
    case Component(_, _) => Flush(scan, Nanos(read, item))
  }

  function Nanos(read: Reader, item: Item): int {
    match item
    case Designator => 0
    case Component(token, unit) => if read(token, unit).Ok? then read(token, unit).value else 0
  }

  function After(read: Reader, scan: Scan, items: seq<Item>): Scan
    decreases |items|
  {
    if items == [] then scan else After(read, AfterItem(read, scan, items[0]), items[1..])
  }

  lemma {:induction false} ScanToken(read: Reader, scan: Scan, t: string, rest: string)
    requires AllNumberChars(t)
    ensures ScanAll(read, scan, t + rest) == ScanAll(read, scan.(token := scan.token + t), rest)
    decreases |t|
  {
    if t == "" {
      assert t + rest == rest && scan.token + t == scan.token;
    } else {
      assert t[0] != 'T' by { assert IsNumberChar(t[0]); }
      assert (t + rest)[1..] == t[1..] + rest;
      var next := scan.(token := scan.token + [t[0]]);
      ScanToken(read, next, t[1..], rest);
      assert next.token + t[1..] == scan.token + t;
    }
  }

  lemma ScanUnit(read: Reader, scan: Scan, unit: char, rest: string)
    requires IsComponent(read, scan.token, unit, scan.inTime)
    ensures ScanAll(read, scan, [unit] + rest) ==
            ScanAll(read, AfterItem(read, scan, Component(scan.token, unit)), rest)
  {
    var s := [unit] + rest;
    assert s[0] == unit && s[1..] == rest;
    assert unit != 'T' && !IsNumberChar(unit) && IsUnitChar(unit);
  }

  lemma ScanItem(read: Reader, scan: Scan, item: Item, rest: string)
    requires scan.token == "" && (item.Component? ==> IsComponent(read, item.token, item.unit, scan.inTime))
    ensures ScanAll(read, scan, RenderItem(item) + rest) == ScanAll(read, AfterItem(read, scan, item), rest)
  {
    match item
    case Designator =>
      assert ("T" + rest)[1..] == rest;
    case Component(token, unit) =>
      assert token + [unit] + rest == token + ([unit] + rest);
      ScanToken(read, scan, token, [unit] + rest);
      assert scan.token + token == token;
      ScanUnit(read, scan.(token := token), unit, rest);
  }

  lemma {:induction false} ScanItems(read: Reader, scan: Scan, items: seq<Item>)
    requires scan.token == "" && WellFormed(read, items, scan.inTime)
    ensures ScanAll(read, scan, Render(items)) == Ok(After(read, scan, items))
    decreases |items|
  {
    if items != [] {
      ScanItem(read, scan, items[0], Render(items[1..]));
      ScanItems(read, AfterItem(read, scan, items[0]), items[1..]);
    }
  }

  lemma {:induction false} AfterCounts(read: Reader, scan: Scan, items: seq<Item>)
    ensures var e := After(read, scan, items);
            && e.count == scan.count + Components(items)
            && (e.inTime <==> scan.inTime || Designator in items)
            && e.timeComponents == scan.timeComponents +
              (if scan.inTime then Components(items) else TimeComponents(items))
            && (scan.token == "" ==> e.token == "")
    decreases |items|
  {
    if items != [] {
      assert items == [items[0]] + items[1..];
      AfterCounts(read, AfterItem(read, scan, items[0]), items[1..]);
    }
  }

  lemma {:induction false} AfterTotal(read: Reader, scan: Scan, items: seq<Item>)
    requires scan.total == Wrap(scan.total)
    ensures After(read, scan, items).total == Wrap(scan.total + Total(read, items))
    decreases |items|
  {
    if items != [] {
      var next := AfterItem(read, scan, items[0]);
      WrapTwice(scan.total, Nanos(read, items[0]), Total(read, items[1..]));
      AfterTotal(read, next, items[1..]);
    }
  }

  lemma WrapTwice(a: int, b: int, c: int)
    ensures Wrap(Wrap(a + b) + c) == Wrap(a + b + c)
    ensures Wrap(Wrap(a + b)) == Wrap(a + b)
  {
  }

  // -------------------------------------------------- from the loop to items

  /** Years reach the unit table and are rejected there. */
  ghost predicate NoYears(read: Reader) { forall token :: read(token, 'Y').Err? }

  /** Whatever the loop accepts without a pending token splits into items. */
  lemma {:induction false} Decompose(read: Reader, scan: Scan, s: string) returns (items: seq<Item>)
    requires NoYears(read) && AllNumberChars(scan.token)
    requires ScanAll(read, scan, s).Ok? && ScanAll(read, scan, s).value.token == ""
    ensures Render(items) == scan.token + s
    ensures WellFormed(read, items, scan.inTime)
    decreases |s|
  {
    if s == "" { return []; }
    var c := s[0];
    var next := ScanChar(read, scan, c).value;
    var rest := Decompose(read, next, s[1..]);
    items := Prefix(read, scan, c, rest, s[1..]);
    assert s == [c] + s[1..];
  }

  /** One character more in front. */
  lemma Prefix(read: Reader, scan: Scan, c: char, rest: seq<Item>, tail: string) returns (items: seq<Item>)
    requires NoYears(read) && AllNumberChars(scan.token) && ScanChar(read, scan, c).Ok?
    requires var next := ScanChar(read, scan, c).value;
             Render(rest) == next.token + tail && WellFormed(read, rest, next.inTime)
    ensures Render(items) == scan.token + ([c] + tail) && WellFormed(read, items, scan.inTime)
  {
    if c == 'T' {
      items := [Designator] + rest;
      assert items[1..] == rest;
    } else if IsNumberChar(c) {
      items := rest;
      assert scan.token + [c] + tail == scan.token + ([c] + tail);
    } else {
      items := [Component(scan.token, c)] + rest;
      assert IsComponent(read, scan.token, c, scan.inTime);
      assert items[1..] == rest;
      assert scan.token + [c] + tail == scan.token + ([c] + tail);
    }
  }

  // ------------------------------------------------------------ main results

  /** A derivation fixes the result: the wrapped sum of its components. */
  lemma DerivationParses(read: Reader, s: string, items: seq<Item>)
    requires Derives(read, s, items)
    ensures ParseTrimmed(read, s) == Ok(Wrap(Total(read, items)))
  {
    assert s[1..] == Render(items);
    assert |s| >= 2 by { assert items != []; }
    ScanItems(read, START, items);
    AfterCounts(read, START, items);
    AfterTotal(read, START, items);
  }

  /** The parser accepts exactly the grammar's sentences. */
  lemma AcceptsExactly(read: Reader, s: string)
    requires NoYears(read)
    ensures ParseTrimmed(read, s).Ok? <==> exists items :: Derives(read, s, items)
  {
    if items :| Derives(read, s, items) {
      DerivationParses(read, s, items);
    }
    if ParseTrimmed(read, s).Ok? {
      var items := Derivation(read, s);
    }
  }

  lemma Derivation(read: Reader, s: string) returns (items: seq<Item>)
    requires NoYears(read) && ParseTrimmed(read, s).Ok?
    ensures Derives(read, s, items)
  {
    items := Decompose(read, START, s[1..]);
    assert s == "P" + s[1..];
    assert START.token + s[1..] == s[1..];
    ScanItems(read, START, items);
    AfterCounts(read, START, items);
  }

  lemma YearsRejected(float: Float)
    ensures NoYears(Reading(float))
  {
    forall token ensures Reading(float)(token, 'Y').Err? {
      assert Reading(float)(token, 'Y') == Amount(float, token, 'Y');
    }
  }

  /** When the components' sum fits an int64 the result is that sum itself. */
  lemma SumInRange(read: Reader, s: string, items: seq<Item>)
    requires Derives(read, s, items)
    requires -NANOSECOND_LIMIT <= Total(read, items) < NANOSECOND_LIMIT
    ensures ParseTrimmed(read, s) == Ok(Total(read, items))
  {
    DerivationParses(read, s, items);
  }

  /** `P` and one readable number of days is always accepted. */
  lemma OneComponent(read: Reader, token: string, nanos: int)
    requires AllNumberChars(token) && read(token, 'D') == Ok(nanos)
    ensures ParseTrimmed(read, "P" + (token + "D")) == Ok(Wrap(nanos))
  {
    var items := [Component(token, 'D')];
    assert items[1..] == [];
    assert Render(items) == token + "D" + Render([]);
    assert token + "D" + "" == token + "D";
    DerivationParses(read, "P" + (token + "D"), items);
  }

  /** The scanner leaves the tail of a malformed number unread: "1.2.9" is read
      as 1.2, so by `OneComponent` the text "P1.2.9D" parses, as 1.2 days. */
  lemma MalformedNumberRead()
    ensures Amount(EXACT, "1.2.9", 'D') == Ok(DAY + DAY / 5)
  {
    var token := "1.2.9";
    assert LeadingDigits(token) == "1" by { assert token[1..] == ".2.9"; assert LeadingDigits(".2.9") == ""; }
    assert token[1..][1..] == "2.9";
    assert LeadingDigits("2.9") == "2" by { assert "2.9"[1..] == ".9"; assert LeadingDigits(".9") == ""; }
    assert Value("1") == 1 by { assert "1"[..0] == ""; }
    assert Value("2") == 2 by { assert "2"[..0] == ""; }
    assert Pow10(1) == 10 by { assert Pow10(0) == 1; }
    assert ScanNumber(token) == Some(Number(1, 2, 1)) && Number(1, 2, 1).Exact() == 1.0 + 2.0 / 10.0;
    assert (1.0 + 2.0 / 10.0) * DAY as real == (DAY + DAY / 5) as real;
  }
}
