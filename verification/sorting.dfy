/** Sorting by a string key, as the control plane uses `sort.Slice` and
    `sort.Strings`: the result is any permutation ordered by the key, which is
    unique as soon as the keys are. */
module Sorting {
  import opened Text

  ghost predicate SortedBy<T(!new)>(key: T -> string, s: seq<T>) {
    forall i, j :: 0 <= i < j < |s| ==> !Less(key(s[j]), key(s[i]))
  }

  ghost predicate StrictlySortedBy<T(!new)>(key: T -> string, s: seq<T>) {
    forall i, j :: 0 <= i < j < |s| ==> Less(key(s[i]), key(s[j]))
  }

  ghost predicate DistinctBy<T(!new)>(key: T -> string, s: seq<T>) {
    forall i, j :: 0 <= i < j < |s| ==> key(s[i]) != key(s[j])
  }

  function Insert<T(!new)>(key: T -> string, x: T, s: seq<T>): (r: seq<T>)
    requires SortedBy(key, s)
    ensures multiset(r) == multiset([x]) + multiset(s)
    ensures SortedBy(key, r)
  {
    if s == [] then [x]
    else if Less(key(s[0]), key(x)) then
      var t := Insert(key, x, s[1..]);
      assert s == [s[0]] + s[1..];
      InsertedAfter(key, s, x, t);
      [s[0]] + t
    else
      InsertedBefore(key, s, x);
      [x] + s
  }

  lemma InsertedAfter<T(!new)>(key: T -> string, s: seq<T>, x: T, t: seq<T>)
    requires s != [] && SortedBy(key, s) && SortedBy(key, t)
    requires multiset(t) == multiset([x]) + multiset(s[1..])
    requires Less(key(s[0]), key(x))
    ensures SortedBy(key, [s[0]] + t)
  {
    var r := [s[0]] + t;
    forall j | 0 < j < |r| ensures !Less(key(r[j]), key(s[0])) {
      assert r[j] in multiset(t);
      if r[j] == x {
        LessNotBoth(key(s[0]), key(x));
      } else {
        assert r[j] in s[1..];
      }
    }
  }

  lemma InsertedBefore<T(!new)>(key: T -> string, s: seq<T>, x: T)
    requires s != [] && SortedBy(key, s) && !Less(key(s[0]), key(x))
    ensures SortedBy(key, [x] + s)
  {
    var r := [x] + s;
    forall j | 0 < j < |r| ensures !Less(key(r[j]), key(x)) {
      if j > 1 && Less(key(r[j]), key(x)) {
        NotLessTransitive(key(s[0]), key(r[j]), key(x));
      }
    }
  }

  lemma LessNotBoth(a: string, b: string)
    requires Less(a, b)
    ensures !Less(b, a)
  {
    if Less(b, a) { LessTransitive(a, b, a); LessIrreflexive(a); }
  }

  /** !(b < a) and b < c give a < c, read contrapositively by `InsertedBefore`. */
  lemma NotLessTransitive(a: string, b: string, c: string)
    requires !Less(b, a) && Less(b, c)
    ensures Less(a, c)
  {
    LessTotal(a, b);
    if Less(a, b) { LessTransitive(a, b, c); }
  }

  /** A library sort: some permutation of `s` ordered by `key`. */
  function Sort<T(!new)>(key: T -> string, s: seq<T>): (r: seq<T>)
    ensures multiset(r) == multiset(s)
    ensures SortedBy(key, r)
  {
    if s == [] then []
    else
      assert s == [s[0]] + s[1..];
      Insert(key, s[0], Sort(key, s[1..]))
  }

  /** Ordered and without duplicate keys means strictly ordered. */
  lemma SortedDistinct<T(!new)>(key: T -> string, s: seq<T>)
    requires SortedBy(key, s) && DistinctBy(key, s)
    ensures StrictlySortedBy(key, s)
  {
    forall i, j | 0 <= i < j < |s| ensures Less(key(s[i]), key(s[j])) {
      LessTotal(key(s[i]), key(s[j]));
    }
  }

  /** A permutation of a sequence with distinct keys has distinct keys. */
  lemma {:induction false} DistinctPermutation<T(!new)>(key: T -> string, a: seq<T>, b: seq<T>)
    requires DistinctBy(key, a) && multiset(a) == multiset(b)
    ensures DistinctBy(key, b)
  {
    forall i, j | 0 <= i < j < |b| ensures key(b[i]) != key(b[j]) {
      if key(b[i]) == key(b[j]) {
        assert b[i] in multiset(a) && b[j] in multiset(a);
        var k :| 0 <= k < |a| && a[k] == b[i];
        var l :| 0 <= l < |a| && a[l] == b[j];
        assert k == l;
        assert b[i] == b[j];
        TwoCopies(b, i, j);
        OneCopy(key, a, k);
      }
    }
  }

  lemma TwoCopies<T>(s: seq<T>, i: nat, j: nat)
    requires i < j < |s| && s[i] == s[j]
    ensures multiset(s)[s[i]] >= 2
  {
    assert s == s[..j] + [s[j]] + s[j + 1..];
    assert s[..j][i] == s[i];
    assert s[i] in multiset(s[..j]);
  }

  lemma {:induction false} OneCopy<T(!new)>(key: T -> string, s: seq<T>, k: nat)
    requires DistinctBy(key, s) && k < |s|
    ensures multiset(s)[s[k]] == 1
  {
    assert s == s[..k] + [s[k]] + s[k + 1..];
    assert s[k] !in s[..k] by {
      forall i | 0 <= i < k ensures s[i] != s[k] { assert key(s[i]) != key(s[k]); }
    }
    assert s[k] !in s[k + 1..] by {
      forall i | k < i < |s| ensures s[i] != s[k] { assert key(s[k]) != key(s[i]); }
    }
    assert multiset(s[..k])[s[k]] == 0 && multiset(s[k + 1..])[s[k]] == 0;
  }

  /** Two strictly ordered permutations of the same elements are equal: which
      order the elements were collected in cannot be seen after sorting. */
  lemma {:induction false} SortUnique<T(!new)>(key: T -> string, a: seq<T>, b: seq<T>)
    requires StrictlySortedBy(key, a) && StrictlySortedBy(key, b)
    requires multiset(a) == multiset(b)
    ensures a == b
  {
    if a == [] {
      assert |multiset(b)| == |b|;
      return;
    }
    SameHead(key, a, b);
    assert a == [a[0]] + a[1..] && b == [b[0]] + b[1..];
    assert multiset(a[1..]) == multiset(a) - multiset([a[0]]);
    assert multiset(b[1..]) == multiset(b) - multiset([b[0]]);
    SortUnique(key, a[1..], b[1..]);
  }

  lemma SameHead<T(!new)>(key: T -> string, a: seq<T>, b: seq<T>)
    requires StrictlySortedBy(key, a) && StrictlySortedBy(key, b)
    requires multiset(a) == multiset(b) && a != []
    ensures b != [] && a[0] == b[0]
  {
    var x := a[0];
    assert x in multiset(b);
    var j :| 0 <= j < |b| && b[j] == x;
    var y := b[0];
    assert y in multiset(a);
    var i :| 0 <= i < |a| && a[i] == y;
    if j > 0 && i > 0 { LessNotBoth(key(x), key(y)); }
  }

  // --------------------------------------------------------------- key sets

  function Self(k: string): string { k }

  ghost predicate NoDuplicates<T(!new)>(s: seq<T>) {
    forall i, j :: 0 <= i < j < |s| ==> s[i] != s[j]
  }

  /** `ks` lists exactly the elements of `keys`, each once. */
  ghost predicate Enumerates<T(!new)>(ks: seq<T>, keys: set<T>) {
    NoDuplicates(ks) && (forall k :: k in ks <==> k in keys)
  }

  ghost predicate EnumeratesInOrder(ks: seq<string>, keys: set<string>) {
    StrictlySortedBy(Self, ks) && (forall k :: k in ks <==> k in keys)
  }

  lemma {:induction false} EnumerationMultiset<T(!new)>(a: seq<T>, b: seq<T>)
    requires NoDuplicates(a) && NoDuplicates(b)
    requires forall k :: k in a <==> k in b
    ensures multiset(a) == multiset(b)
  {
    forall k ensures multiset(a)[k] == multiset(b)[k] {
      OccursOnce(a, k);
      OccursOnce(b, k);
    }
  }

  lemma {:induction false} OccursOnce<T(!new)>(s: seq<T>, k: T)
    requires NoDuplicates(s)
    ensures multiset(s)[k] == if k in s then 1 else 0
  {
    if s != [] {
      assert s == s[..|s| - 1] + [s[|s| - 1]];
      OccursOnce(s[..|s| - 1], k);
    }
  }

  /** There is one sorted enumeration of a key set. */
  lemma OrderedEnumerationUnique(a: seq<string>, b: seq<string>, keys: set<string>)
    requires EnumeratesInOrder(a, keys) && EnumeratesInOrder(b, keys)
    ensures a == b
  {
    StrictNoDuplicates(a);
    StrictNoDuplicates(b);
    EnumerationMultiset(a, b);
    SortUnique(Self, a, b);
  }

  lemma StrictNoDuplicates(s: seq<string>)
    requires StrictlySortedBy(Self, s)
    ensures NoDuplicates(s)
  {
    forall i, j | 0 <= i < j < |s| ensures s[i] != s[j] {
      LessIrreflexive(s[i]);
      assert Less(Self(s[i]), Self(s[j]));
    }
  }

  /** Sorting an enumeration of a key set gives its ordered enumeration. */
  lemma SortedEnumeration(ks: seq<string>, keys: set<string>)
    requires Enumerates(ks, keys)
    ensures EnumeratesInOrder(Sort(Self, ks), keys)
  {
    var r := Sort(Self, ks);
    assert DistinctBy(Self, ks);
    DistinctPermutation(Self, ks, r);
    SortedDistinct(Self, r);
    forall k ensures k in r <==> k in keys {
      assert k in multiset(r) <==> k in multiset(ks);
    }
  }

  // ------------------------------------------------------------ sets of keys

  function KeySet<T>(key: T -> string, s: seq<T>): set<string> {
    if s == [] then {} else KeySet(key, s[..|s| - 1]) + {key(s[|s| - 1])}
  }

  lemma {:induction false} KeyAt<T>(key: T -> string, s: seq<T>, k: string) returns (i: nat)
    requires k in KeySet(key, s)
    ensures i < |s| && key(s[i]) == k
  {
    i := |s| - 1;
    if key(s[i]) != k { i := KeyAt(key, s[..i], k); }
  }

  lemma {:induction false} KeySetHas<T>(key: T -> string, s: seq<T>, i: nat)
    requires i < |s|
    ensures key(s[i]) in KeySet(key, s)
  {
    if i < |s| - 1 { KeySetHas(key, s[..|s| - 1], i); }
  }

  /** Distinct keys are as many as the elements. */
  lemma {:induction false} KeysCount<T(!new)>(key: T -> string, s: seq<T>)
    requires DistinctBy(key, s)
    ensures |KeySet(key, s)| == |s|
  {
    if s != [] {
      var n := |s| - 1;
      KeysCount(key, s[..n]);
      if key(s[n]) in KeySet(key, s[..n]) {
        var i := KeyAt(key, s[..n], key(s[n]));
        assert false;
      }
    }
  }
}
