/** The string a metric series is stored under, and when it stands for exactly
    one name and label set. */
module SeriesKeys {
  import opened Text
  import opened Sorting

  type Labels = map<string, string>

  /** Backslash, double quote and newline are escaped, one character at a time. */
  function Escape(v: string): string {
    if v == "" then ""
    else EscapeChar(v[0]) + Escape(v[1..])
  }

  function EscapeChar(c: char): string {
    if c == '\\' then "\\\\" else if c == '\"' then "\\\"" else if c == '\n' then "\\n" else [c]
  }

  function Pair(k: string, v: string): string { k + "=\"" + Escape(v) + "\"" }

  /** The labels of some keys, closing brace included. */
  function Items(ks: seq<string>, labels: Labels): string
    requires ks != [] && forall k <- ks :: k in labels
    decreases |ks|, 0
  {
    Pair(ks[0], labels[ks[0]]) + Tail(ks[1..], labels)
  }

  function Tail(ks: seq<string>, labels: Labels): string
    requires forall k <- ks :: k in labels
    decreases |ks|, 1
  {
    if ks == [] then "}" else "," + Items(ks, labels)
  }

  ghost function OrderedKeys(keys: set<string>): (ks: seq<string>)
    ensures EnumeratesInOrder(ks, keys)
  {
    if keys == {} then []
    else
      var k :| k in keys;
      var rest := OrderedKeys(keys - {k});
      assert Enumerates([k] + rest, keys) by { StrictNoDuplicates(rest); }
      SortedEnumeration([k] + rest, keys);
      Sort(Self, [k] + rest)
  }

  ghost function FormatOf(labels: Labels): string {
    var ks := OrderedKeys(labels.Keys);
    if ks == [] then "" else "{" + Items(ks, labels)
  }

  /** The label set is only empty if there are no labels. */
  lemma NoKeys(labels: Labels)
    ensures labels == map[] <==> OrderedKeys(labels.Keys) == []
  {
    var ks := OrderedKeys(labels.Keys);
    if ks == [] { assert forall k :: k in labels.Keys <==> k in ks; } else { assert ks[0] in ks; }
  }

  ghost function SeriesKey(name: string, labels: Labels): string { name + FormatOf(labels) }

  /** Whatever order the map is walked in, the text is the same. */
  method FormatLabels(labels: Labels) returns (text: string)
    ensures text == FormatOf(labels)
  {
    NoKeys(labels);
    if labels == map[] { return ""; }
    var keys := SortedKeys(labels);
    text := WriteLabels(keys, labels);
  }

  method SortedKeys(labels: Labels) returns (keys: seq<string>)
    ensures keys == OrderedKeys(labels.Keys)
  {
    keys := CollectKeys(labels);
    SortedEnumeration(keys, labels.Keys);
    keys := Sort(Self, keys);
    OrderedEnumerationUnique(keys, OrderedKeys(labels.Keys), labels.Keys);
  }

  method WriteLabels(keys: seq<string>, labels: Labels) returns (text: string)
    requires keys != [] && forall k <- keys :: k in labels
    ensures text == "{" + Items(keys, labels)
  {
    ghost var total := "{" + Items(keys, labels);
    text := "{";
    for i := 0 to |keys|
      invariant text + From(keys, i, labels) == total
    {
      WrittenOne(text, keys, i, labels, total);
      text := text + ((if i > 0 then "," else "") + Pair(keys[i], labels[keys[i]]));
    }
    AllWritten(keys, labels);
    text := text + "}";
  }

  method CollectKeys(labels: Labels) returns (keys: seq<string>)
    ensures Enumerates(keys, labels.Keys)
  {
    keys := [];
    var todo := labels.Keys;
    while todo != {}
      invariant todo <= labels.Keys
      invariant Enumerates(keys, labels.Keys - todo)
      decreases todo
    {
      var k :| k in todo;
      keys := keys + [k];
      todo := todo - {k};
    }
  }

  /** What the loop still has to write before label i. */
  function From(keys: seq<string>, i: nat, labels: Labels): string
    requires keys != [] && i <= |keys| && forall k <- keys :: k in labels
  {
    if i == 0 then Items(keys, labels) else Tail(keys[i..], labels)
  }

  /** What the loop writes for label i. */
  function Written(keys: seq<string>, i: nat, labels: Labels): string
    requires i < |keys| && forall k <- keys :: k in labels
  {
    (if i > 0 then "," else "") + Pair(keys[i], labels[keys[i]])
  }

  lemma WrittenOne(text: string, keys: seq<string>, i: nat, labels: Labels, total: string)
    requires keys != [] && i < |keys| && forall k <- keys :: k in labels
    requires text + From(keys, i, labels) == total
    ensures (text + Written(keys, i, labels)) + From(keys, i + 1, labels) == total
  {
    FromStep(keys, i, labels);
    Associates(text, Written(keys, i, labels), From(keys, i + 1, labels));
  }

  lemma AllWritten(keys: seq<string>, labels: Labels)
    requires keys != [] && forall k <- keys :: k in labels
    ensures From(keys, |keys|, labels) == "}"
  {
  }

  lemma Associates(a: string, b: string, c: string)
    ensures (a + b) + c == a + (b + c)
  {
  }

  lemma FromStep(keys: seq<string>, i: nat, labels: Labels)
    requires keys != [] && i < |keys| && forall k <- keys :: k in labels
    ensures From(keys, i, labels) == Written(keys, i, labels) + From(keys, i + 1, labels)
  {
    var pair, rest := Pair(keys[i], labels[keys[i]]), Tail(keys[i + 1..], labels);
    assert keys[i..][1..] == keys[i + 1..];
    if i == 0 {
      assert keys[1..] == keys[i + 1..];
      assert "" + pair == pair;
    } else {
      assert keys[i..][0] == keys[i] && Items(keys[i..], labels) == pair + rest;
      assert "," + (pair + rest) == "," + pair + rest;
    }
  }

  method MakeSeriesKey(name: string, labels: Labels) returns (key: string)
    ensures key == SeriesKey(name, labels)
  {
    var text := FormatLabels(labels);
    return name + text;
  }

  /** Only quote, backslash and newline change ... */
  lemma {:induction false} EscapedPlain(v: string)
    requires forall i :: 0 <= i < |v| ==> v[i] != '\n' && v[i] != '\"' && v[i] != '\\'
    ensures Escape(v) == v
  {
    if v != "" {
      EscapedPlain(v[1..]);
      assert v == [v[0]] + v[1..];
    }
  }

  /** ... and escaping keeps a value on one line, */
  lemma {:induction false} EscapedLine(v: string)
    ensures '\n' !in Escape(v)
  {
    if v != "" {
      EscapedLine(v[1..]);
      assert v == [v[0]] + v[1..];
      assert '\n' !in EscapeChar(v[0]);
    }
  }

  /** so the key of a name and label names without a newline has none. */
  lemma KeyLine(name: string, labels: Labels)
    requires '\n' !in name && forall k :: k in labels ==> '\n' !in k
    ensures '\n' !in SeriesKey(name, labels)
  {
    NoKeys(labels);
    var ks := OrderedKeys(labels.Keys);
    if ks != [] {
      ItemsLine(ks, labels);
      assert SeriesKey(name, labels) == name + ("{" + Items(ks, labels));
    }
  }

  lemma {:induction false} ItemsLine(ks: seq<string>, labels: Labels)
    requires ks != [] && forall k <- ks :: k in labels && '\n' !in k
    ensures '\n' !in Items(ks, labels)
  {
    var k, v, rest := ks[0], labels[ks[0]], Tail(ks[1..], labels);
    EscapedLine(v);
    assert ks == [k] + ks[1..];
    if |ks| > 1 { ItemsLine(ks[1..], labels); }
    assert '\n' !in rest;
    assert Items(ks, labels) == k + "=\"" + Escape(v) + "\"" + rest;
  }

  // ----------------------------------------------------------------- reading

  /** Split at the first occurrence of a character. */
  function Split(s: string, c: char): (r: (string, string))
    ensures |r.1| <= |s|
  {
    if s == "" then ("", "")
    else if s[0] == c then ("", s[1..])
    else
      var (a, b) := Split(s[1..], c);
      ([s[0]] + a, b)
  }

  lemma {:induction false} SplitFound(a: string, c: char, x: string)
    requires c !in a
    ensures Split(a + ([c] + x), c) == (a, x)
  {
    var s := a + ([c] + x);
    if a == "" {
      assert s == [c] + x && s[1..] == x;
    } else {
      assert s[1..] == a[1..] + ([c] + x);
      SplitFound(a[1..], c, x);
      assert a == [a[0]] + a[1..];
    }
  }

  lemma {:induction false} SplitMissing(a: string, c: char)
    requires c !in a
    ensures Split(a, c) == (a, "")
  {
    if a != "" {
      SplitMissing(a[1..], c);
      assert a == [a[0]] + a[1..];
    }
  }

  /** Read an escaped value up to its closing quote. */
  function ReadValue(s: string): (r: (string, string))
    ensures |r.1| <= |s|
  {
    if s == "" || s[0] == '\"' then ("", if s == "" then "" else s[1..])
    else if s[0] == '\\' && |s| > 1 then
      var (v, rest) := ReadValue(s[2..]);
      ([if s[1] == 'n' then '\n' else s[1]] + v, rest)
    else
      var (v, rest) := ReadValue(s[1..]);
      ([s[0]] + v, rest)
  }

  /** One escaped character is read back as itself. */
  lemma ReadChar(c: char, tail: string, v: string, x: string)
    requires ReadValue(tail) == (v, x)
    ensures ReadValue(EscapeChar(c) + tail) == ([c] + v, x)
  {
    var e := EscapeChar(c);
    assert (e + tail)[|e|..] == tail;
  }

  lemma {:induction false} ReadEscaped(v: string, x: string)
    ensures ReadValue(Escape(v) + ("\"" + x)) == (v, x)
  {
    if v == "" {
      ReadClosing(x);
    } else {
      ReadEscaped(v[1..], x);
      ReadChar(v[0], Escape(v[1..]) + ("\"" + x), v[1..], x);
      Associates(EscapeChar(v[0]), Escape(v[1..]), "\"" + x);
      assert v == [v[0]] + v[1..];
    }
  }

  lemma ReadClosing(x: string)
    ensures ReadValue("" + ("\"" + x)) == ("", x)
  {
    assert "" + ("\"" + x) == "\"" + x && ("\"" + x)[1..] == x;
  }

  /** A label name that contains what opens a value cannot be told from its end. */
  predicate Opens(k: string) { exists i :: 0 <= i < |k| - 1 && OpensAt(k, i) }

  predicate OpensAt(s: string, i: nat)
    requires i + 1 < |s|
  {
    s[i] == '=' && s[i + 1] == '\"'
  }

  /** Split at the first equals sign that a quote follows. */
  function SplitOpening(s: string): (r: (string, string))
    ensures |r.1| <= |s|
  {
    if |s| < 2 then ("", "")
    else if OpensAt(s, 0) then ("", s[2..])
    else
      var (a, b) := SplitOpening(s[1..]);
      ([s[0]] + a, b)
  }

  lemma {:induction false} OpeningFound(a: string, x: string)
    requires !Opens(a)
    ensures SplitOpening(a + ("=\"" + x)) == (a, x)
  {
    var s := a + ("=\"" + x);
    if a == "" {
      assert s == "=\"" + x && s[2..] == x;
    } else {
      assert s[1..] == a[1..] + ("=\"" + x);
      assert !OpensAt(s, 0) by { if |a| > 1 { assert !OpensAt(a, 0); } }
      assert !Opens(a[1..]) by {
        forall i | 0 <= i < |a[1..]| - 1 ensures !OpensAt(a[1..], i) { assert !OpensAt(a, i + 1); }
      }
      OpeningFound(a[1..], x);
      assert a == [a[0]] + a[1..];
    }
  }

  function ReadLabels(s: string): Labels
    decreases |s|
  {
    var (k, r) := SplitOpening(s);
    if r == "" then map[]
    else
      var (v, rest) := ReadValue(r);
      if rest == "" || rest[0] != ',' then map[k := v] else ReadLabels(rest[1..])[k := v]
  }

  /** Some of the labels. */
  function Those(ks: seq<string>, labels: Labels): Labels
    requires forall k <- ks :: k in labels
  {
    map k | k in ks :: labels[k]
  }

  lemma {:induction false} ReadItems(ks: seq<string>, labels: Labels)
    requires ks != [] && forall k <- ks :: k in labels && !Opens(k)
    ensures ReadLabels(Items(ks, labels)) == Those(ks, labels)
  {
    var k, v, rest := ks[0], labels[ks[0]], Tail(ks[1..], labels);
    var r := Escape(v) + ("\"" + rest);
    assert Items(ks, labels) == k + ("=\"" + r);
    OpeningFound(k, r);
    ReadEscaped(v, rest);
    assert ks == [k] + ks[1..];
    if |ks| == 1 {
      assert rest == "}";
    } else {
      assert rest[1..] == Items(ks[1..], labels);
      ReadItems(ks[1..], labels);
    }
  }

  function ReadKey(key: string): (string, Labels) {
    var (name, rest) := Split(key, '{');
    (name, ReadLabels(rest))
  }

  // ------------------------------------------------------------ main results

  /** What a name and label set need for their key to be theirs alone. */
  ghost predicate WellFormed(name: string, labels: Labels) {
    '{' !in name && forall k :: k in labels ==> !Opens(k)
  }

  /** The key can be read back. */
  lemma KeyRoundTrip(name: string, labels: Labels)
    requires WellFormed(name, labels)
    ensures ReadKey(SeriesKey(name, labels)) == (name, labels)
  {
    var ks := OrderedKeys(labels.Keys);
    NoKeys(labels);
    if ks == [] {
      assert SeriesKey(name, labels) == name;
      SplitMissing(name, '{');
    } else {
      assert SeriesKey(name, labels) == name + (['{'] + Items(ks, labels));
      SplitFound(name, '{', Items(ks, labels));
      ReadItems(ks, labels);
      assert Those(ks, labels) == labels;
    }
  }

  /** So well-formed names and label sets share a key only if they are equal. */
  lemma KeysInjective(name: string, labels: Labels, other: string, others: Labels)
    requires WellFormed(name, labels) && WellFormed(other, others)
    requires SeriesKey(name, labels) == SeriesKey(other, others)
    ensures name == other && labels == others
  {
    KeyRoundTrip(name, labels);
    KeyRoundTrip(other, others);
  }

  lemma FormatOfOrdered(labels: Labels, ks: seq<string>)
    requires ks != [] && EnumeratesInOrder(ks, labels.Keys)
    ensures FormatOf(labels) == "{" + Items(ks, labels)
  {
    OrderedEnumerationUnique(OrderedKeys(labels.Keys), ks, labels.Keys);
  }

  lemma PlainPair(k: string, c: char)
    requires c != '\\' && c != '\"' && c != '\n'
    ensures Pair(k, [c]) == k + "=\"" + [c] + "\""
  {
    assert Escape([c]) == [c] by { assert Escape([c][1..]) == ""; }
  }

  /** A brace in a name makes two series one ... */
  lemma BraceInNameCollides()
    ensures SeriesKey("up{a=\"1\"}", map[]) == SeriesKey("up", map["a" := "1"])
  {
    NoKeys(map[]);
    FormatOfOrdered(map["a" := "1"], ["a"]);
    PlainPair("a", '1');
  }

  lemma OneLabel(labels: Labels, k: string, c: char)
    requires labels == map[k := [c]] && c != '\\' && c != '\"' && c != '\n'
    ensures FormatOf(labels) == "{" + (k + "=\"" + [c] + "\"" + "}")
  {
    FormatOfOrdered(labels, [k]);
    PlainPair(k, c);
  }

  lemma OneOddLabel(labels: Labels, k: string)
    requires k == "a=\"1\",b" && labels == map[k := "2"]
    ensures FormatOf(labels) == "{a=\"1\",b=\"2\"}"
  {
    OneLabel(labels, k, '2');
  }

  lemma TwoItems(labels: Labels)
    requires labels == map["a" := "1", "b" := "2"]
    ensures Items(["a", "b"], labels) == "a=\"1\",b=\"2\"}"
  {
    PlainPair("a", '1');
    PlainPair("b", '2');
    assert ["a", "b"][1..] == ["b"] && ["b"][1..] == [];
    assert Items(["b"], labels) == "b=\"2\"}";
  }

  lemma TwoInOrder(labels: Labels, a: string, b: string)
    requires Less(a, b) && labels.Keys == {a, b}
    ensures FormatOf(labels) == "{" + Items([a, b], labels)
  {
    FormatOfOrdered(labels, [a, b]);
  }

  lemma TwoPlainLabels(labels: Labels, a: string, b: string)
    requires a == "a" && b == "b" && labels == map[a := "1", b := "2"]
    ensures FormatOf(labels) == "{a=\"1\",b=\"2\"}"
  {
    TwoInOrder(labels, a, b);
    TwoItems(labels);
    Braced(Items([a, b], labels));
  }

  lemma Braced(items: string)
    requires items == "a=\"1\",b=\"2\"}"
    ensures "{" + items == "{a=\"1\",b=\"2\"}"
  {
  }

  /** ... and so does what opens a value in a label name. */
  lemma OpeningInLabelCollides(odd: Labels, two: Labels)
    requires odd == map["a=\"1\",b" := "2"] && two == map["a" := "1", "b" := "2"]
    ensures odd != two && SeriesKey("up", odd) == SeriesKey("up", two)
  {
    OneOddLabel(odd, "a=\"1\",b");
    TwoPlainLabels(two, "a", "b");
    assert "a" in two && "a" !in odd;
  }
}
