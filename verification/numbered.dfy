/** Lists of records filed under an owner and numbered from one counter, as the
    store keeps its audit events and its rotation runs. */
module Numbered {

  function Lookup<T>(m: map<string, seq<T>>, id: string): seq<T> {
    if id in m then m[id] else []
  }

  ghost predicate Increasing<T(!new)>(num: T -> nat, s: seq<T>) {
    forall i, j :: 0 <= i < j < |s| ==> num(s[i]) < num(s[j])
  }

  ghost predicate Distinct<T(!new)>(num: T -> nat, s: seq<T>) {
    forall i, j :: 0 <= i < j < |s| ==> num(s[i]) != num(s[j])
  }

  ghost predicate ListOk<T(!new)>(num: T -> nat, owner: T -> string, counter: nat, id: string, s: seq<T>) {
    && s != [] && Distinct(num, s)
    && (forall x <- s :: owner(x) == id && 1 <= num(x) <= counter)
  }

  ghost predicate Apart<T(!new)>(num: T -> nat, xs: seq<T>, ys: seq<T>) {
    forall x, y :: x in xs && y in ys ==> num(x) != num(y)
  }

  /** Lists are non-empty and filed under their owner, and no number is used
      twice anywhere or lies above the counter. */
  ghost predicate Filed<T(!new)>(num: T -> nat, owner: T -> string, counter: nat, m: map<string, seq<T>>) {
    && (forall id :: id in m ==> ListOk(num, owner, counter, id, m[id]))
    && (forall a, b :: a in m && b in m && a != b ==> Apart(num, m[a], m[b]))
  }

  /** `more` carries the next numbers of the counter and belongs to `id`. */
  ghost predicate NextFor<T(!new)>(num: T -> nat, owner: T -> string, counter: nat, id: string, more: seq<T>) {
    forall i :: 0 <= i < |more| ==> num(more[i]) == counter + 1 + i && owner(more[i]) == id
  }

  lemma ListAppend<T(!new)>(num: T -> nat, owner: T -> string, counter: nat, id: string, s: seq<T>, more: seq<T>)
    requires s == [] || ListOk(num, owner, counter, id, s)
    requires more != [] && NextFor(num, owner, counter, id, more)
    ensures ListOk(num, owner, counter + |more|, id, s + more)
  {
    var t := s + more;
    forall x | x in t ensures owner(x) == id && 1 <= num(x) <= counter + |more| {
      var i :| 0 <= i < |t| && t[i] == x;
      if i >= |s| { assert x == more[i - |s|]; }
    }
    forall i, j | 0 <= i < j < |t| ensures num(t[i]) != num(t[j]) {
      if j >= |s| {
        assert t[j] == more[j - |s|];
        if i >= |s| { assert t[i] == more[i - |s|]; } else { assert t[i] == s[i] && s[i] in s; }
      }
    }
  }

  /** A list that is in order stays in order. */
  lemma ListAppendInOrder<T(!new)>(num: T -> nat, owner: T -> string, counter: nat, id: string, s: seq<T>, more: seq<T>)
    requires s == [] || ListOk(num, owner, counter, id, s)
    requires Increasing(num, s) && NextFor(num, owner, counter, id, more)
    ensures Increasing(num, s + more)
  {
    var t := s + more;
    forall i, j | 0 <= i < j < |t| ensures num(t[i]) < num(t[j]) {
      if j >= |s| {
        assert t[j] == more[j - |s|];
        if i >= |s| { assert t[i] == more[i - |s|]; } else { assert t[i] == s[i] && s[i] in s; }
      }
    }
  }

  lemma ListGrow<T(!new)>(num: T -> nat, owner: T -> string, counter: nat, counter': nat, id: string, s: seq<T>)
    requires ListOk(num, owner, counter, id, s) && counter <= counter'
    ensures ListOk(num, owner, counter', id, s)
  {
  }

  lemma ApartNew<T(!new)>(num: T -> nat, owner: T -> string, counter: nat, id: string, a: string, xs: seq<T>,
      s: seq<T>, more: seq<T>)
    requires ListOk(num, owner, counter, a, xs) && Apart(num, xs, s)
    requires NextFor(num, owner, counter, id, more)
    ensures Apart(num, xs, s + more) && Apart(num, s + more, xs)
  {
    forall x, y | x in xs && y in s + more ensures num(x) != num(y) {
      if y !in s {
        var i :| 0 <= i < |more| && more[i] == y;
      }
    }
  }

  /** Appending freshly numbered records keeps the filing in order. */
  lemma FiledAppend<T(!new)>(num: T -> nat, owner: T -> string, counter: nat, m: map<string, seq<T>>, id: string,
      more: seq<T>)
    requires Filed(num, owner, counter, m)
    requires more != [] && NextFor(num, owner, counter, id, more)
    ensures Filed(num, owner, counter + |more|, m[id := Lookup(m, id) + more])
  {
    var s, m' := Lookup(m, id), m[id := Lookup(m, id) + more];
    ListAppend(num, owner, counter, id, s, more);
    forall a | a in m' ensures ListOk(num, owner, counter + |more|, a, m'[a]) {
      if a != id { ListGrow(num, owner, counter, counter + |more|, a, m[a]); }
    }
    forall a | a in m && a != id ensures Apart(num, m[a], m'[id]) && Apart(num, m'[id], m[a]) {
      assert Apart(num, m[a], s) by { if id in m { assert Apart(num, m[a], m[id]); } }
      ApartNew(num, owner, counter, id, a, m[a], s, more);
    }
  }

  /** One record belongs to one list, at one place. */
  lemma FiledOnce<T(!new)>(num: T -> nat, owner: T -> string, counter: nat, m: map<string, seq<T>>,
                           a: string, i: nat, b: string, j: nat)
    requires Filed(num, owner, counter, m)
    requires a in m && b in m && i < |m[a]| && j < |m[b]| && num(m[a][i]) == num(m[b][j])
    ensures a == b && i == j
  {
    assert m[a][i] in m[a] && m[b][j] in m[b];
    assert a != b ==> Apart(num, m[a], m[b]);
  }

  // ------------------------------------------------------- one owner's records

  /** The records of one owner, in log order. */
  function Project<T>(owner: T -> string, log: seq<T>, id: string): seq<T> {
    if log == [] then []
    else
      var last := log[|log| - 1];
      Project(owner, log[..|log| - 1], id) + (if owner(last) == id then [last] else [])
  }

  lemma {:induction false} ProjectConcat<T>(owner: T -> string, a: seq<T>, b: seq<T>, id: string)
    ensures Project(owner, a + b, id) == Project(owner, a, id) + Project(owner, b, id)
  {
    if b == [] {
      assert a + b == a;
    } else {
      var n := |b| - 1;
      assert (a + b)[..|a| + n] == a + b[..n];
      ProjectConcat(owner, a, b[..n], id);
    }
  }

  lemma {:induction false} ProjectOwned<T>(owner: T -> string, log: seq<T>, from: string, id: string)
    requires forall i :: 0 <= i < |log| ==> owner(log[i]) == from
    ensures Project(owner, log, id) == if id == from then log else []
  {
    if log != [] {
      var n := |log| - 1;
      var rest := log[..n];
      assert forall i :: 0 <= i < n ==> rest[i] == log[i];
      ProjectOwned(owner, rest, from, id);
      assert log == rest + [log[n]];
      assert owner(log[n]) == from;
    }
  }

  lemma {:induction false} ProjectElements<T(!new)>(owner: T -> string, log: seq<T>, id: string)
    ensures forall x :: x in Project(owner, log, id) <==> x in log && owner(x) == id
  {
    if log != [] {
      ProjectElements(owner, log[..|log| - 1], id);
      assert log == log[..|log| - 1] + [log[|log| - 1]];
    }
  }

  /** File a log under its owners, in log order. */
  function Group<T>(owner: T -> string, log: seq<T>): map<string, seq<T>> {
    if log == [] then map[]
    else
      var m, last := Group(owner, log[..|log| - 1]), log[|log| - 1];
      m[owner(last) := Lookup(m, owner(last)) + [last]]
  }

  lemma {:induction false} GroupIsProjection<T>(owner: T -> string, log: seq<T>, id: string)
    ensures Lookup(Group(owner, log), id) == Project(owner, log, id)
    ensures id in Group(owner, log) <==> Project(owner, log, id) != []
  {
    if log != [] { GroupIsProjection(owner, log[..|log| - 1], id); }
  }
}
