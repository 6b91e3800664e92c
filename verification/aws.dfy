/** Key rotation for an IAM user under IAM's limit of two access keys. */
module AwsRotation {
  import opened Wrappers
  import opened Text
  import opened Sorting

  datatype Key = Key(id: string, created: int)

  /** How a call ends. A failed call may or may not have taken effect. */
  datatype Outcome = Done | FailedBefore | FailedAfter

  datatype RotateError = NoProviderId | OutOfScope | CallFailed | NoKeys

  const CEILING: nat := 2

  /** The user's keys in IAM, by id with their creation date, and every state they
      have been through. */
  class Iam {
    var keys: map<string, int>
    ghost var states: seq<map<string, int>>

    constructor (keys: map<string, int>)
      ensures this.keys == keys && states == [keys]
    {
      this.keys, states := keys, [keys];
    }

    /** IAM rejects a creation at the ceiling, so callers must not get there. */
    method CreateAccessKey(id: string, created: int, outcome: Outcome) returns (ok: bool)
      requires |keys| < CEILING && id !in keys
      modifies this
      ensures ok <==> outcome == Done
      ensures keys == if outcome == FailedBefore then old(keys) else old(keys)[id := created]
      ensures states == old(states) + [keys]
    {
      if outcome != FailedBefore { keys := keys[id := created]; }
      states := states + [keys];
      ok := outcome == Done;
    }

    /** Deleting a key that is already gone succeeds. */
    method DeleteAccessKey(id: string, outcome: Outcome) returns (ok: bool)
      modifies this
      ensures ok <==> id == "" || outcome == Done
      ensures keys == if id == "" || outcome == FailedBefore then old(keys) else old(keys) - {id}
      ensures states == old(states) + [keys]
    {
      if id != "" && outcome != FailedBefore { keys := keys - {id}; }
      states := states + [keys];
      ok := id == "" || outcome == Done;
    }
  }

  // ----------------------------------------------------------- choosing a key

  function KeyId(k: Key): string { k.id }

  /** A complete listing of the user's keys, in any order. */
  ghost predicate ListsAll(keys: seq<Key>, live: map<string, int>) {
    && |keys| == |live| && DistinctBy(KeyId, keys)
    && (forall i :: 0 <= i < |keys| ==> keys[i].id in live)
  }

  lemma {:induction false} IdsWithin(keys: seq<Key>, live: map<string, int>)
    requires forall i :: 0 <= i < |keys| ==> keys[i].id in live
    ensures KeySet(KeyId, keys) <= live.Keys
  {
    if keys != [] { IdsWithin(keys[..|keys| - 1], live); }
  }

  /** A complete listing has every live key. */
  lemma Covers(keys: seq<Key>, live: map<string, int>, id: string) returns (i: nat)
    requires ListsAll(keys, live) && id in live
    ensures i < |keys| && keys[i].id == id
  {
    KeysCount(KeyId, keys);
    IdsWithin(keys, live);
    SubsetOfSameSize(KeySet(KeyId, keys), live.Keys);
    i := KeyAt(KeyId, keys, id);
  }

  lemma SubsetOfSameSize(a: set<string>, b: set<string>)
    requires a <= b && |a| == |b|
    ensures a == b
  {
    assert |b - a| == |b| - |a|;
  }

  method FindKey(keys: seq<Key>, keyId: string) returns (found: Option<Key>)
    ensures found.Some? ==> keyId != "" && found.value in keys && found.value.id == keyId
    ensures found.None? ==> keyId == "" || forall i :: 0 <= i < |keys| ==> keys[i].id != keyId
  {
    for i := 0 to |keys|
      invariant keyId == "" || forall j :: 0 <= j < i ==> keys[j].id != keyId
    {
      if keyId != "" && keys[i].id == keyId { return Some(keys[i]); }
    }
    return None;
  }

  ghost predicate NewestFirst(keys: seq<Key>) {
    forall i, j :: 0 <= i < j < |keys| ==> keys[i].created >= keys[j].created
  }

  method InsertByDate(key: Key, keys: seq<Key>) returns (more: seq<Key>)
    requires NewestFirst(keys)
    ensures multiset(more) == multiset(keys) + multiset{key}
    ensures NewestFirst(more)
  {
    var n := |keys|;
    while n > 0 && keys[n - 1].created < key.created
      invariant 0 <= n <= |keys|
      invariant forall j :: n <= j < |keys| ==> keys[j].created < key.created
    {
      n := n - 1;
    }
    var front, back := keys[..n], keys[n..];
    more := front + [key] + back;
    assert multiset(keys) == multiset(front) + multiset(back) by { assert keys == front + back; }
    forall i, j | 0 <= i < j < |more| ensures more[i].created >= more[j].created {
      InsertedInOrder(keys, n, key, i, j);
    }
  }

  lemma InsertedInOrder(keys: seq<Key>, n: nat, key: Key, i: nat, j: nat)
    requires NewestFirst(keys) && n <= |keys| && i < j <= |keys|
    requires n > 0 ==> keys[n - 1].created >= key.created
    requires forall j :: n <= j < |keys| ==> keys[j].created < key.created
    ensures var more := keys[..n] + [key] + keys[n..]; more[i].created >= more[j].created
  {
    if i < n && j == n { assert keys[i].created >= keys[n - 1].created; }
  }

  /** Newest first; equal dates in any order. */
  method SortNewestFirst(keys: seq<Key>) returns (sorted: seq<Key>)
    ensures multiset(sorted) == multiset(keys) && NewestFirst(sorted)
  {
    sorted := [];
    for i := 0 to |keys|
      invariant multiset(sorted) == multiset(keys[..i]) && NewestFirst(sorted)
    {
      sorted := InsertByDate(keys[i], sorted);
      assert keys[..i + 1] == keys[..i] + [keys[i]];
    }
    assert keys[..|keys|] == keys;
  }

  ghost predicate OldestAmong(keys: seq<Key>, k: nat, pool: Key -> bool) {
    && k < |keys| && pool(keys[k])
    && (forall i :: 0 <= i < |keys| && pool(keys[i]) ==> keys[k].created <= keys[i].created)
    && (forall i :: 0 <= i < k && pool(keys[i]) ==> keys[k].created < keys[i].created)
  }

  /** The first of the oldest keys other than the current one; with no other
      key, the first of the oldest at all. */
  method OldestNonCurrent(keys: seq<Key>, currentId: string) returns (k: nat)
    requires keys != []
    ensures (exists i :: 0 <= i < |keys| && keys[i].id != currentId)
      ==> OldestAmong(keys, k, (x: Key) => x.id != currentId)
    ensures (forall i :: 0 <= i < |keys| ==> keys[i].id == currentId) ==> OldestAmong(keys, k, (_: Key) => true)
  {
    var oldest: Option<nat> := None;
    for i := 0 to |keys|
      invariant oldest.None? ==> forall j :: 0 <= j < i ==> keys[j].id == currentId
      invariant oldest.Some? ==> oldest.value < i && OldestAmong(keys[..i], oldest.value, (x: Key) => x.id != currentId)
    {
      if keys[i].id == currentId { continue; }
      if oldest.None? || keys[i].created < keys[oldest.value].created { oldest := Some(i); }
    }
    assert keys[..|keys|] == keys;
    if oldest.Some? { return oldest.value; }
    k := 0;
    for i := 0 to |keys|
      invariant k <= i && k < |keys| && (i == 0 ==> k == 0) && (i > 0 ==> k < i)
      invariant forall j :: 0 <= j < i ==> keys[k].created <= keys[j].created
      invariant forall j :: 0 <= j < k ==> keys[k].created < keys[j].created
    {
      if keys[i].created < keys[k].created { k := i; }
    }
  }

  // ---------------------------------------------------------------- rotation

  /** What IAM answers during one rotation. */
  datatype Answers = Answers(listing: Option<seq<Key>>, remove: Outcome, create: Outcome, newKey: Key, secret: string,
    delete: Outcome)

  /** Every state since `from` has one or two keys, and among them the current or the new one. */
  ghost predicate NeverLockedOut(states: seq<map<string, int>>, from: nat, current: string, created: string) {
    forall i :: from <= i < |states| ==> 1 <= |states[i]| <= CEILING && (current in states[i] || created in states[i])
  }

  /** Exactly these states: at two keys the other one goes first, then the new key
      comes, then the current one goes; the first call that does not succeed is the
      last, and it has taken effect or not. */
  ghost predicate Traced(before: seq<map<string, int>>, after: seq<map<string, int>>, keys: map<string, int>,
      current: string, answers: Answers)
  {
    current in keys &&
    var alone := map[current := keys[current]];
    var both := alone[answers.newKey.id := answers.newKey.created];
    var renewed := map[answers.newKey.id := answers.newKey.created];
    var removal := if |keys| < 2 then [] else [if answers.remove == FailedBefore then keys else alone];
    var creation := [if answers.create == FailedBefore then alone else both];
    var deletion := [if answers.delete == FailedBefore then both else renewed];
    after == before +
      if |keys| == 2 && answers.remove != Done then removal
      else if answers.create != Done then removal + creation
      else removal + (creation + deletion)
  }

  lemma Smaller(live: map<string, int>, id: string)
    requires id in live
    ensures |live - {id}| == |live| - 1
  {
    assert (live - {id}).Keys == live.Keys - {id};
  }

  /** Deleting one of two keys leaves the other. */
  lemma LessOne(live: map<string, int>, id: string, current: string)
    requires |live| <= CEILING && id in live && current in live && id != current
    ensures |live - {id}| == 1 && current in live - {id} && |live| == CEILING && (live - {id}).Keys <= live.Keys
  {
    Smaller(live, id);
    OneOrMore(live - {id}, current);
  }

  lemma OneOrMore(live: map<string, int>, id: string)
    requires id in live
    ensures |live| >= 1
  {
    Smaller(live, id);
  }

  lemma Larger(live: map<string, int>, id: string, at: int)
    requires id !in live
    ensures |live[id := at]| == |live| + 1
  {
    assert live[id := at].Keys == live.Keys + {id};
  }

  lemma SortedListsAll(keys: seq<Key>, sorted: seq<Key>, live: map<string, int>)
    requires ListsAll(keys, live) && multiset(sorted) == multiset(keys)
    ensures ListsAll(sorted, live)
  {
    DistinctPermutation(KeyId, keys, sorted);
    assert |multiset(sorted)| == |multiset(keys)|;
    forall i | 0 <= i < |sorted| ensures sorted[i].id in live { assert sorted[i] in multiset(keys); }
  }

  lemma Listed(keys: seq<Key>, live: map<string, int>, current: Key)
    requires ListsAll(keys, live) && current in keys
    ensures current.id in live && |live| >= 1
    ensures |keys| >= 2 ==> exists i :: 0 <= i < |keys| && keys[i].id != current.id
  {
    var j :| 0 <= j < |keys| && keys[j] == current;
    if |keys| >= 2 {
      var i := if j == 0 then 1 else 0;
      assert KeyId(keys[i]) != KeyId(keys[j]);
    }
  }

  class AWSAdapter {
    const iam: Iam
    var oneTimeSecret: string
    var oneTimeKeyID: string

    constructor (iam: Iam)
      ensures this.iam == iam && oneTimeSecret == "" && oneTimeKeyID == ""
    {
      this.iam, oneTimeSecret, oneTimeKeyID := iam, "", "";
    }

    /** The key being replaced: the recorded one if IAM still lists it, else a newest one. */
    method Current(listed: seq<Key>, recorded: string) returns (keys: seq<Key>, current: Key)
      requires ListsAll(listed, iam.keys) && listed != []
      ensures ListsAll(keys, iam.keys) && current in keys
      ensures recorded != "" && recorded in iam.keys ==> current.id == recorded
      ensures !(recorded != "" && recorded in iam.keys) ==>
        forall i :: 0 <= i < |keys| ==> keys[i].created <= current.created
    {
      keys := listed;
      var found := FindKey(keys, recorded);
      if found.Some? {
        var i :| 0 <= i < |keys| && keys[i] == found.value;
        return keys, found.value;
      }
      if recorded != "" && recorded in iam.keys { var i := Covers(keys, iam.keys, recorded); }
      keys := SortNewestFirst(keys);
      SortedListsAll(listed, keys, iam.keys);
      current := keys[0];
    }

    /** From one or two keys, with no other writer: whatever call fails, and
        whether or not it took effect, the user always has one or two keys and
        always the old current or the new one. On success the new key is the only
        one, it is the one reported, and its secret is held for the caller. */
    method Rotate(providerId: string, inScope: bool, recorded: string, answers: Answers)
      returns (r: Result<Key, RotateError>, ghost current: string)
      requires IamOk() && answers.newKey.id !in iam.keys && answers.newKey.id != ""
      requires answers.listing.Some? ==> ListsAll(answers.listing.value, iam.keys)
      modifies this, iam
      ensures old(iam.states) <= iam.states && iam.states[|iam.states| - 1] == iam.keys
      ensures r.Err? ==> oneTimeSecret == old(oneTimeSecret) && oneTimeKeyID == old(oneTimeKeyID)
      ensures r.Ok? ==> Replaced(r.value, answers)
      ensures r.Ok? <==> !Blank(providerId) && inScope && answers.listing.Some? && |old(iam.keys)| > 0
                         && answers.create == Done && answers.delete == Done
                         && (|old(iam.keys)| == CEILING ==> answers.remove == Done)
      ensures r == Err(NoProviderId) <==> Blank(providerId)
      ensures r == Err(OutOfScope) <==> !Blank(providerId) && !inScope
      ensures r == Err(NoKeys) <==> !Blank(providerId) && inScope && answers.listing.Some? && |old(iam.keys)| == 0
      ensures r.Ok? ==> r.value == answers.newKey && iam.keys == map[answers.newKey.id := answers.newKey.created]
                        && oneTimeSecret == answers.secret && oneTimeKeyID == answers.newKey.id
      ensures |old(iam.keys)| == 0 || r == Err(NoProviderId) || r == Err(OutOfScope) || answers.listing.None? ==>
                iam.states == old(iam.states)
      ensures iam.states == old(iam.states) || Traced(old(iam.states), iam.states, old(iam.keys), current, answers)
      ensures iam.states == old(iam.states) ||
              (&& current in old(iam.keys)
               && (TrimSpace(recorded) != "" && TrimSpace(recorded) in old(iam.keys) ==> current == TrimSpace(recorded))
               && (forall i :: |old(iam.states)| - 1 <= i < |iam.states| ==>
                    1 <= |iam.states[i]| <= 2 && (current in iam.states[i] || answers.newKey.id in iam.states[i])))
    {
      current := "";
      if Blank(providerId) { return Err(NoProviderId), current; }
      if !inScope { return Err(OutOfScope), current; }
      if answers.listing.None? { return Err(CallFailed), current; }
      var keys := answers.listing.value;
      if |keys| == 0 { return Err(NoKeys), current; }
      var key: Key;
      keys, key := Current(keys, TrimSpace(recorded));
      r := Replace(keys, key, answers);
      current := key.id;
    }

    ghost predicate IamOk()
      reads iam
    {
      iam.states != [] && iam.states[|iam.states| - 1] == iam.keys && |iam.keys| <= CEILING && "" !in iam.keys
    }

    /** The new key is the only one, and its secret is held under its id. */
    ghost predicate Replaced(key: Key, answers: Answers)
      reads this, iam
    {
      && key == answers.newKey && iam.keys == map[key.id := key.created]
      && oneTimeSecret == answers.secret && oneTimeKeyID == key.id
    }

    /** At the ceiling, delete the oldest key that is not current. */
    method MakeRoom(keys: seq<Key>, current: Key, remove: Outcome) returns (ok: bool)
      requires IamOk() && ListsAll(keys, iam.keys) && current in keys
      modifies iam
      ensures IamOk() && old(iam.states) <= iam.states && iam.keys.Keys <= old(iam.keys.Keys)
      ensures ok <==> (|keys| == CEILING ==> remove == Done)
      ensures ok ==> |iam.keys| == 1 && current.id in iam.keys
      ensures ok ==> iam.keys == map[current.id := old(iam.keys)[current.id]]
      ensures iam.states == old(iam.states) +
                if |old(iam.keys)| < 2 then []
                else [if remove == FailedBefore then old(iam.keys) else map[current.id := old(iam.keys)[current.id]]]
      ensures forall i :: |old(iam.states)| - 1 <= i < |iam.states| ==>
        1 <= |iam.states[i]| <= CEILING && current.id in iam.states[i]
    {
      Listed(keys, iam.keys, current);
      if |keys| < 2 {
        OnlyOne(iam.keys, current.id);
        return true;
      }
      var other := OtherKey(keys, current);
      LessOne(iam.keys, other, current.id);
      OnlyOne(iam.keys - {other}, current.id);
      ok := iam.DeleteAccessKey(other, remove);
    }

    /** The key that is deleted to make room. */
    method OtherKey(keys: seq<Key>, current: Key) returns (id: string)
      requires ListsAll(keys, iam.keys) && |keys| >= 2 && current in keys
      ensures id in iam.keys && id != current.id
    {
      Listed(keys, iam.keys, current);
      var k := OldestNonCurrent(keys, current.id);
      return keys[k].id;
    }

    /** Create the new key before deleting the current one. */
    method Swap(current: Key, answers: Answers) returns (ok: bool)
      requires IamOk() && |iam.keys| == 1 && current.id in iam.keys
      requires answers.newKey.id !in iam.keys
      modifies iam
      ensures old(iam.states) <= iam.states && iam.states[|iam.states| - 1] == iam.keys
      ensures ok <==> answers.create == Done && answers.delete == Done
      ensures ok ==> iam.keys == map[answers.newKey.id := answers.newKey.created]
      ensures var both := old(iam.keys)[answers.newKey.id := answers.newKey.created];
              var creation := [if answers.create == FailedBefore then old(iam.keys) else both];
              var deletion := [if answers.delete == FailedBefore then both
                               else map[answers.newKey.id := answers.newKey.created]];
              iam.states == old(iam.states) + if answers.create != Done then creation else creation + deletion
      ensures NeverLockedOut(iam.states, |old(iam.states)| - 1, current.id, answers.newKey.id)
    {
      OnlyOne(iam.keys, current.id);
      assert iam.keys[answers.newKey.id := answers.newKey.created] - {current.id} ==
             map[answers.newKey.id := answers.newKey.created];
      Larger(iam.keys, answers.newKey.id, answers.newKey.created);
      ok := iam.CreateAccessKey(answers.newKey.id, answers.newKey.created, answers.create);
      if !ok { return; }
      Smaller(iam.keys, current.id);
      ok := iam.DeleteAccessKey(current.id, answers.delete);
    }

    method Replace(keys: seq<Key>, current: Key, answers: Answers) returns (r: Result<Key, RotateError>)
      requires IamOk() && ListsAll(keys, iam.keys) && current in keys
      requires answers.newKey.id !in iam.keys && answers.newKey.id != ""
      modifies this, iam
      ensures old(iam.states) <= iam.states && iam.states[|iam.states| - 1] == iam.keys
      ensures r.Err? ==> oneTimeSecret == old(oneTimeSecret) && oneTimeKeyID == old(oneTimeKeyID)
      ensures r.Ok? ==> Replaced(r.value, answers)
      ensures r.Err? ==> r.error == CallFailed
      ensures r.Ok? <==>
        && answers.create == Done && answers.delete == Done
        && (|keys| == CEILING ==> answers.remove == Done)
      ensures Traced(old(iam.states), iam.states, old(iam.keys), current.id, answers)
      ensures NeverLockedOut(iam.states, |old(iam.states)| - 1, current.id, answers.newKey.id)
    {
      var ok := MakeRoom(keys, current, answers.remove);
      if !ok { return Err(CallFailed); }
      ok := Swap(current, answers);
      if !ok { return Err(CallFailed); }
      oneTimeSecret, oneTimeKeyID := answers.secret, answers.newKey.id;
      return Ok(answers.newKey);
    }

    /** The secret is handed out once. */
    method ConsumeOneTimeSecret() returns (value: string)
      modifies `oneTimeSecret, `oneTimeKeyID
      ensures value == old(oneTimeSecret) && oneTimeSecret == "" && oneTimeKeyID == ""
    {
      value := oneTimeSecret;
      oneTimeSecret, oneTimeKeyID := "", "";
    }
  }

  lemma OnlyOne(live: map<string, int>, id: string)
    requires |live| == 1 && id in live
    ensures live == map[id := live[id]]
  {
    Smaller(live, id);
    assert (live - {id}).Keys == {};
    forall other | other in live ensures other == id { assert other == id || other in (live - {id}).Keys; }
  }
}
