/** Byte-wise string order (Go's `<` on strings) and the decimal renderings the
    control plane builds its identifiers from. */
module Text {

  /** Go's `a < b` on strings: lexicographic by code unit. */
  predicate Less(a: string, b: string)
    decreases |a|
  {
    |b| > 0 && (|a| == 0 || a[0] < b[0] || (a[0] == b[0] && Less(a[1..], b[1..])))
  }

  lemma {:induction false} LessIrreflexive(a: string)
    ensures !Less(a, a)
  {
    if a != "" { LessIrreflexive(a[1..]); }
  }

  lemma {:induction false} LessTransitive(a: string, b: string, c: string)
    requires Less(a, b) && Less(b, c)
    ensures Less(a, c)
  {
    if a != "" && a[0] == b[0] && b[0] == c[0] {
      LessTransitive(a[1..], b[1..], c[1..]);
    }
  }

  lemma {:induction false} LessTotal(a: string, b: string)
    ensures Less(a, b) || a == b || Less(b, a)
  {
    if a != "" && b != "" && a[0] == b[0] {
      LessTotal(a[1..], b[1..]);
      assert a == [a[0]] + a[1..] && b == [b[0]] + b[1..];
    }
  }

  /** A common prefix does not influence the order. */
  lemma {:induction false} LessPrefix(p: string, a: string, b: string)
    ensures Less(p + a, p + b) <==> Less(a, b)
  {
    if p == "" {
      assert p + a == a && p + b == b;
    } else {
      assert (p + a)[1..] == p[1..] + a && (p + b)[1..] == p[1..] + b;
      LessPrefix(p[1..], a, b);
    }
  }

  // ------------------------------------------------------------------ blanks

  predicate IsSpace(c: char) {
    '\t' <= c <= '\r' || c == ' ' || c == '\U{0085}' || c == '\U{00A0}' || c == '\U{1680}' ||
    '\U{2000}' <= c <= '\U{200A}' || c == '\U{2028}' || c == '\U{2029}' || c == '\U{202F}' ||
    c == '\U{205F}' || c == '\U{3000}'
  }

  function TrimSpace(s: string): string
    decreases |s|
  {
    if s != "" && IsSpace(s[0]) then TrimSpace(s[1..])
    else if s != "" && IsSpace(s[|s| - 1]) then TrimSpace(s[..|s| - 1])
    else s
  }

  /** Go's `strings.TrimSpace(s) == ""`. */
  predicate Blank(s: string) { forall c <- s :: IsSpace(c) }

  /** The white space of Unicode, character by character. */
  lemma SpacesExactly(c: char)
    ensures IsSpace(c) <==>
            c in {'\U{0009}', '\U{000A}', '\U{000B}', '\U{000C}', '\U{000D}', '\U{0020}', '\U{0085}', '\U{00A0}',
                  '\U{1680}', '\U{2000}', '\U{2001}', '\U{2002}', '\U{2003}', '\U{2004}', '\U{2005}', '\U{2006}',
                  '\U{2007}', '\U{2008}', '\U{2009}', '\U{200A}', '\U{2028}', '\U{2029}', '\U{202F}', '\U{205F}',
                  '\U{3000}'}
  {
  }

  lemma InFront(c: string, l: string, t: string, r: string)
    ensures c + ((l + t) + r) == ((c + l) + t) + r
  {
  }

  lemma Behind(t: string, r: string, c: string)
    ensures (t + r) + c == t + (r + c)
  {
  }

  /** Trimming takes white space off both ends and nothing else, and all of it. */
  lemma {:induction false} TrimmedExactly(s: string) returns (left: string, right: string)
    ensures s == (left + TrimSpace(s)) + right && Blank(left) && Blank(right)
    ensures TrimSpace(s) != "" ==> !IsSpace(TrimSpace(s)[0]) && !IsSpace(TrimSpace(s)[|TrimSpace(s)| - 1])
    decreases |s|
  {
    left, right := "", "";
    if s != "" && IsSpace(s[0]) {
      var l, r := TrimmedExactly(s[1..]);
      left, right := [s[0]] + l, r;
      assert s == [s[0]] + s[1..];
      InFront([s[0]], l, TrimSpace(s), r);
    } else if s != "" && IsSpace(s[|s| - 1]) {
      var l, r := TrimmedExactly(s[..|s| - 1]);
      left, right := l, r + [s[|s| - 1]];
      assert s == s[..|s| - 1] + [s[|s| - 1]];
      Behind(l + TrimSpace(s), r, [s[|s| - 1]]);
    } else {
      assert s == ("" + s) + "";
    }
  }

  // ---------------------------------------------------------------- decimals

  predicate IsDigit(c: char) { '0' <= c <= '9' }

  ghost predicate AllDigits(s: string) { forall i :: 0 <= i < |s| ==> IsDigit(s[i]) }

  function DigitValue(c: char): (v: nat)
    requires IsDigit(c)
    ensures v < 10
  {
    c as int - '0' as int
  }

  function Digit(v: nat): (c: char)
    requires v < 10
    ensures IsDigit(c) && DigitValue(c) == v
  {
    ('0' as int + v) as char
  }

  /** `%d` for a non-negative integer. */
  function Decimal(n: nat): (s: string)
    ensures |s| > 0 && AllDigits(s)
    ensures Value(s) == n
  {
    if n < 10 then
      assert [Digit(n)][..0] == "";
      [Digit(n)]
    else
      var s := Decimal(n / 10) + [Digit(n % 10)];
      assert s[..|s| - 1] == Decimal(n / 10);
      s
  }

  /** The number a digit string denotes, leading zeros allowed. */
  function Value(s: string): nat
    requires AllDigits(s)
  {
    if s == "" then 0 else Value(s[..|s| - 1]) * 10 + DigitValue(s[|s| - 1])
  }

  /** `%03d` for a non-negative integer. */
  function Pad3(n: nat): (s: string)
    ensures |s| >= 3 && AllDigits(s)
    ensures Value(s) == n
  {
    var s := Decimal(n);
    if |s| >= 3 then s else
      PadZero(s);
      PadZero("0" + s);
      if |s| == 2 then "0" + s else "0" + ("0" + s)
  }

  lemma PadZero(s: string)
    requires AllDigits(s)
    ensures Value("0" + s) == Value(s)
    decreases |s|
  {
    if s == "" {
      assert "0" + s == "0" && "0"[..0] == "";
    } else {
      assert ("0" + s)[..|s|] == "0" + s[..|s| - 1];
      PadZero(s[..|s| - 1]);
    }
  }

  function Pow10(k: nat): (p: nat)
    ensures p >= 1
  {
    if k == 0 then 1 else 10 * Pow10(k - 1)
  }

  lemma {:induction false} ValueBound(s: string)
    requires AllDigits(s)
    ensures Value(s) < Pow10(|s|)
  {
    if s != "" { ValueBound(s[..|s| - 1]); }
  }

  /** `%d` writes no leading zero, so its length follows from the magnitude. */
  lemma {:induction false} DecimalLength(n: nat, k: nat)
    requires k > 0
    ensures |Decimal(n)| <= k <==> n < Pow10(k)
  {
    if k == 1 {
      assert Pow10(1) == 10 * Pow10(0);
    } else if n < 10 {
      assert Pow10(k) == 10 * Pow10(k - 1) && Pow10(k - 1) == 10 * Pow10(k - 2);
    } else {
      DecimalLength(n / 10, k - 1);
    }
  }

  /** Digit strings of one length sort as the numbers they denote. */
  lemma {:induction false} SameLengthOrder(a: string, b: string)
    requires AllDigits(a) && AllDigits(b) && |a| == |b|
    ensures Less(a, b) <==> Value(a) < Value(b)
    ensures a == b <==> Value(a) == Value(b)
    decreases |a|
  {
    if a == "" { return; }
    var n := |a| - 1;
    var a', b' := a[..n], b[..n];
    SameLengthOrder(a', b');
    assert a == a' + [a[n]] && b == b' + [b[n]];
    if a' == b' {
      LessPrefix(a', [a[n]], [b[n]]);
    } else {
      LessExtend(a', b', [a[n]], [b[n]]);
    }
  }

  /** Appending to two different strings of one length keeps their order. */
  lemma {:induction false} LessExtend(a: string, b: string, x: string, y: string)
    requires |a| == |b| && a != b
    ensures Less(a + x, b + y) <==> Less(a, b)
    decreases |a|
  {
    assert (a + x)[1..] == a[1..] + x && (b + y)[1..] == b[1..] + y;
    if a[0] == b[0] {
      assert a == [a[0]] + a[1..] && b == [b[0]] + b[1..];
      LessExtend(a[1..], b[1..], x, y);
    }
  }

  /** A string sorts before a longer one exactly when it is at most the longer one's prefix. */
  lemma {:induction false} LessShorter(a: string, b: string)
    requires |a| < |b|
    ensures Less(a, b) <==> (a == b[..|a|] || Less(a, b[..|a|]))
    decreases |a|
  {
    if a == "" { return; }
    assert b[..|a|][1..] == b[1..][..|a| - 1];
    assert a == [a[0]] + a[1..] && b[..|a|] == [b[0]] + b[..|a|][1..];
    LessShorter(a[1..], b[1..]);
  }

  // ------------------------------------------------------------- identifiers

  function EventId(n: nat): string { "evt-" + Pad3(n) }

  function RunId(n: nat): string { "run-" + Pad3(n) }

  /** Numbered identifiers never collide, whatever the counters reach. */
  lemma IdsInjective(a: nat, b: nat)
    ensures EventId(a) == EventId(b) ==> a == b
    ensures RunId(a) == RunId(b) ==> a == b
  {
    assert EventId(a)[4..] == Pad3(a) && EventId(b)[4..] == Pad3(b);
    assert RunId(a)[4..] == Pad3(a) && RunId(b)[4..] == Pad3(b);
  }

  /** What an identifier looks like: its prefix and its number in three digits, or in
      more if it needs them. */
  lemma IdsExactly(n: nat)
    ensures EventId(n)[..4] == "evt-" && RunId(n)[..4] == "run-" && EventId(n)[4..] == RunId(n)[4..]
    ensures AllDigits(EventId(n)[4..]) && Value(EventId(n)[4..]) == n
    ensures |EventId(n)| >= 7 && (|EventId(n)| == 7 <==> n <= 999)
  {
    assert EventId(n)[4..] == Pad3(n) && RunId(n)[4..] == Pad3(n);
    Pad3Length(n);
  }

  lemma Pad3Length(n: nat)
    ensures |Pad3(n)| == 3 <==> n <= 999
  {
    DecimalLength(n, 3);
    assert Pow10(3) == 1000 by { assert Pow10(2) == 100 by { assert Pow10(1) == 10; } }
  }

  /** The number formed by the first k digits of `%03d`-padded n. */
  function Lead(n: nat, k: nat): nat
    requires k <= |Pad3(n)|
  {
    Value(Pad3(n)[..k])
  }

  lemma {:induction false} DecimalMonotone(a: nat, b: nat)
    requires a <= b
    ensures |Decimal(a)| <= |Decimal(b)|
    decreases b
  {
    if b >= 10 && a >= 10 { DecimalMonotone(a / 10, b / 10); }
  }

  /** Exactly when string order keeps the order of two numbered identifiers:
      the smaller number must not exceed the leading digits of the larger. */
  lemma IdOrderExact(a: nat, b: nat)
    requires a < b
    ensures |Pad3(a)| <= |Pad3(b)|
    ensures Less(EventId(a), EventId(b)) <==> a <= Lead(b, |Pad3(a)|)
    ensures Less(RunId(a), RunId(b)) <==> a <= Lead(b, |Pad3(a)|)
  {
    LessPrefix("evt-", Pad3(a), Pad3(b));
    LessPrefix("run-", Pad3(a), Pad3(b));
    DecimalMonotone(a, b);
    var pa, pb := Pad3(a), Pad3(b);
    SameLengthOrder(pa, pb[..|pa|]);
    if |pa| < |pb| {
      LessShorter(pa, pb);
    } else {
      assert pb[..|pa|] == pb;
    }
  }

  /** Up to 999 string order is numeric order. */
  lemma IdOrderUpTo999(a: nat, b: nat)
    requires a <= 999 && b <= 999
    ensures Less(EventId(a), EventId(b)) <==> a < b
    ensures Less(RunId(a), RunId(b)) <==> a < b
  {
    Pad3Length(a);
    Pad3Length(b);
    LessPrefix("evt-", Pad3(a), Pad3(b));
    LessPrefix("run-", Pad3(a), Pad3(b));
    SameLengthOrder(Pad3(a), Pad3(b));
  }

  /** ... and 999 is the last bound for which that holds. */
  lemma IdOrderBreaksAt1000()
    ensures Less(EventId(1000), EventId(999)) && Less(RunId(1000), RunId(999))
  {
    LeadOf1000();
    IdOrderExact(999, 1000);
    IdsInjective(999, 1000);
    LessTotal(EventId(999), EventId(1000));
    LessTotal(RunId(999), RunId(1000));
  }

  /** "1000" starts with a hundred, which 999 exceeds. */
  lemma LeadOf1000()
    ensures |Pad3(999)| == 3 && |Pad3(1000)| == 4 && Lead(1000, 3) < 999
  {
    Pad3Length(999);
    Pad3Length(1000);
    DecimalLength(1000, 4);
    assert Pow10(4) == 10000 by { assert Pow10(3) == 1000 by { assert Pow10(2) == 100 by { assert Pow10(1) == 10; } } }
    var s := Pad3(1000);
    assert Value(s) == Value(s[..3]) * 10 + DigitValue(s[3]);
  }
}
