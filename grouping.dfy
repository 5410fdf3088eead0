/**
 * lodash's `groupBy` over a list of records and the walk over its result
 * with `Object.entries`. The object it builds is modelled as the sequence
 * of its entries, in the order the keys were inserted.
 */
module Grouping {

  /** One entry of the grouped object: a key and the records filed under it. */
  datatype Group<T, K> = Group(key: K, members: seq<T>)

  /** The keys of `xs`, each once, in the order they are first seen. */
  function Keys<T, K(==)>(xs: seq<T>, key: T -> K): (ks: seq<K>)
    ensures forall i, j :: 0 <= i < j < |ks| ==> ks[i] != ks[j]
    ensures forall i :: 0 <= i < |xs| ==> key(xs[i]) in ks
  {
    if xs == [] then []
    else
      var ks := Keys(xs[..|xs| - 1], key);
      var k := key(xs[|xs| - 1]);
      if k in ks then ks else ks + [k]
  }

  /** The records of `xs` whose key is `k`, in input order. */
  function Members<T, K(==)>(xs: seq<T>, key: T -> K, k: K): (ms: seq<T>)
  {
    if xs == [] then []
    else
      var last := xs[|xs| - 1];
      Members(xs[..|xs| - 1], key, k) + (if key(last) == k then [last] else [])
  }

  /** A record is a member for `k` exactly when it is in the input and has key `k`. */
  lemma {:induction false} MembersOfKey<T, K>(xs: seq<T>, key: T -> K, k: K)
    ensures forall i :: 0 <= i < |Members(xs, key, k)| ==>
      Members(xs, key, k)[i] in xs && key(Members(xs, key, k)[i]) == k
    ensures forall i :: 0 <= i < |xs| && key(xs[i]) == k ==> xs[i] in Members(xs, key, k)
  {
    if xs != [] {
      var p, last := xs[..|xs| - 1], xs[|xs| - 1];
      assert xs == p + [last];
      MembersOfKey(p, key, k);
    }
  }

  /**
   * What the grouped object holds, stated directly: one group per key, in
   * first-seen order, holding exactly the records with that key.
   */
  function GroupsByKey<T(==), K(==)>(xs: seq<T>, key: T -> K): (gs: seq<Group<T, K>>)
    ensures |gs| == |Keys(xs, key)|
  {
    var ks := Keys(xs, key);
    seq(|ks|, i requires 0 <= i < |ks| => Group(ks[i], Members(xs, key, ks[i])))
  }

  /**
   * One step of lodash's `groupBy`: the record goes to the end of the group
   * of its key when the object already has that key, otherwise a new group
   * holding only the record is added after the existing ones.
   */
  function AddToGroup<T, K(==)>(gs: seq<Group<T, K>>, k: K, x: T): (gs': seq<Group<T, K>>)
    ensures |gs| <= |gs'| <= |gs| + 1
    ensures forall i :: 0 <= i < |gs| ==> gs'[i].key == gs[i].key
    ensures |gs'| == |gs| + 1 ==> gs'[|gs|] == Group(k, [x])
  {
    if gs == [] then [Group(k, [x])]
    else if gs[0].key == k then [gs[0].(members := gs[0].members + [x])] + gs[1..]
    else [gs[0]] + AddToGroup(gs[1..], k, x)
  }

  /** lodash's `groupBy`: the records taken left to right, each filed by `AddToGroup`. */
  function GroupBy<T, K(==)>(xs: seq<T>, key: T -> K): (gs: seq<Group<T, K>>)
    ensures |gs| <= |xs|
    ensures xs != [] ==> gs != []
  {
    if xs == [] then []
    else
      var last := xs[|xs| - 1];
      AddToGroup(GroupBy(xs[..|xs| - 1], key), key(last), last)
  }

  /** All members of all groups, group after group. */
  function Flatten<T, K>(gs: seq<Group<T, K>>): (xs: seq<T>)
  {
    if gs == [] then [] else gs[0].members + Flatten(gs[1..])
  }

  /** The index of the first record of `xs` with key `k`, or `|xs|` when there is none. */
  function FirstIndex<T, K(==)>(xs: seq<T>, key: T -> K, k: K): (n: nat)
    ensures n <= |xs|
    ensures n < |xs| ==> key(xs[n]) == k
    ensures forall i :: 0 <= i < n ==> key(xs[i]) != k
  {
    if xs == [] then 0
    else if key(xs[0]) == k then 0
    else 1 + FirstIndex(xs[1..], key, k)
  }

  lemma {:induction false} AddToExistingGroup<T, K>(gs: seq<Group<T, K>>, k: K, x: T, j: nat)
    requires j < |gs| && gs[j].key == k
    requires forall i :: 0 <= i < j ==> gs[i].key != k
    ensures AddToGroup(gs, k, x) == gs[j := gs[j].(members := gs[j].members + [x])]
  {
    if j > 0 {
      AddToExistingGroup(gs[1..], k, x, j - 1);
    }
  }

  lemma {:induction false} AddToNewGroup<T, K>(gs: seq<Group<T, K>>, k: K, x: T)
    requires forall i :: 0 <= i < |gs| ==> gs[i].key != k
    ensures AddToGroup(gs, k, x) == gs + [Group(k, [x])]
  {
    if gs != [] {
      AddToNewGroup(gs[1..], k, x);
    }
  }

  lemma MembersOfNewRecord<T, K>(p: seq<T>, key: T -> K, x: T, k: K)
    ensures Members(p + [x], key, k) == Members(p, key, k) + (if key(x) == k then [x] else [])
  {
    assert (p + [x])[..|p|] == p;
  }

  lemma NoMembersForUnseenKey<T, K>(p: seq<T>, key: T -> K, k: K)
    requires k !in Keys(p, key)
    ensures Members(p, key, k) == []
  {
    MembersOfKey(p, key, k);
  }

  lemma GroupsByKeyOfExistingKey<T, K>(p: seq<T>, key: T -> K, x: T)
    requires key(x) in Keys(p, key)
    ensures AddToGroup(GroupsByKey(p, key), key(x), x) == GroupsByKey(p + [x], key)
  {
    var k, ks := key(x), Keys(p, key);
    var gs, gs' := GroupsByKey(p, key), GroupsByKey(p + [x], key);
    assert (p + [x])[..|p|] == p;
    assert Keys(p + [x], key) == ks;
    var j :| 0 <= j < |ks| && ks[j] == k;
    var added := gs[j := gs[j].(members := gs[j].members + [x])];
    forall i | 0 <= i < |ks| ensures gs'[i] == added[i] {
      MembersOfNewRecord(p, key, x, ks[i]);
    }
    assert gs' == added;
    AddToExistingGroup(gs, k, x, j);
  }

  lemma GroupsByKeyOfNewKey<T, K>(p: seq<T>, key: T -> K, x: T)
    requires key(x) !in Keys(p, key)
    ensures AddToGroup(GroupsByKey(p, key), key(x), x) == GroupsByKey(p + [x], key)
  {
    var k, ks := key(x), Keys(p, key);
    var gs, gs' := GroupsByKey(p, key), GroupsByKey(p + [x], key);
    assert (p + [x])[..|p|] == p;
    assert Keys(p + [x], key) == ks + [k];
    AddToNewGroup(gs, k, x);
    forall i | 0 <= i < |ks| ensures gs'[i] == gs[i] {
      MembersOfNewRecord(p, key, x, ks[i]);
    }
    MembersOfNewRecord(p, key, x, k);
    NoMembersForUnseenKey(p, key, k);
    assert gs'[|ks|] == Group(k, [x]);
  }

  /** The left-to-right fold of lodash builds exactly the groups `GroupsByKey` describes. */
  lemma {:induction false} GroupByIsGroupsByKey<T, K>(xs: seq<T>, key: T -> K)
    ensures GroupBy(xs, key) == GroupsByKey(xs, key)
  {
    if xs != [] {
      var p, x := xs[..|xs| - 1], xs[|xs| - 1];
      assert xs == p + [x];
      GroupByIsGroupsByKey(p, key);
      if key(x) in Keys(p, key) {
        GroupsByKeyOfExistingKey(p, key, x);
      } else {
        GroupsByKeyOfNewKey(p, key, x);
      }
    }
  }

  /** No two groups have the same key, and every group's key is the key of a record. */
  lemma GroupKeysDistinct<T, K>(xs: seq<T>, key: T -> K)
    ensures forall i, j :: 0 <= i < j < |GroupBy(xs, key)| ==>
      GroupBy(xs, key)[i].key != GroupBy(xs, key)[j].key
  {
    GroupByIsGroupsByKey(xs, key);
  }

  /**
   * Every record is in exactly one group: the group of its key is there,
   * and the record is in a group exactly when that group has its key.
   */
  lemma EachRecordInItsGroup<T, K>(xs: seq<T>, key: T -> K, x: T)
    requires x in xs
    ensures exists j :: 0 <= j < |GroupBy(xs, key)| && GroupBy(xs, key)[j].key == key(x)
    ensures forall j :: 0 <= j < |GroupBy(xs, key)| ==>
      (x in GroupBy(xs, key)[j].members <==> GroupBy(xs, key)[j].key == key(x))
  {
    GroupByIsGroupsByKey(xs, key);
    var gs, ks := GroupBy(xs, key), Keys(xs, key);
    var i :| 0 <= i < |xs| && xs[i] == x;
    assert key(xs[i]) in ks;
    var j :| 0 <= j < |ks| && ks[j] == key(x);
    assert gs[j].key == key(x);
    forall j | 0 <= j < |gs| ensures x in gs[j].members <==> gs[j].key == key(x) {
      MembersOfKey(xs, key, ks[j]);
    }
  }

  /** Groups are never empty and hold only records of their own key. */
  lemma GroupsNonEmpty<T, K>(xs: seq<T>, key: T -> K)
    ensures forall j :: 0 <= j < |GroupBy(xs, key)| ==> |GroupBy(xs, key)[j].members| > 0
    ensures forall j, i :: 0 <= j < |GroupBy(xs, key)| && 0 <= i < |GroupBy(xs, key)[j].members| ==>
      var g := GroupBy(xs, key)[j];
      g.members[i] in xs && key(g.members[i]) == g.key
  {
    GroupByIsGroupsByKey(xs, key);
    var gs, ks := GroupBy(xs, key), Keys(xs, key);
    KeysInFirstSeenOrder(xs, key);
    forall j | 0 <= j < |gs|
      ensures |gs[j].members| > 0
      ensures forall i :: 0 <= i < |gs[j].members| ==>
        gs[j].members[i] in xs && key(gs[j].members[i]) == gs[j].key
    {
      MembersOfKey(xs, key, ks[j]);
      assert gs[j] == Group(ks[j], Members(xs, key, ks[j]));
      var i := FirstIndex(xs, key, ks[j]);
      assert xs[i] in gs[j].members;
    }
  }

  /** Within a group, records keep their input order. */
  lemma {:induction false} MembersKeepOrder<T, K>(a: seq<T>, b: seq<T>, key: T -> K, k: K)
    ensures Members(a + b, key, k) == Members(a, key, k) + Members(b, key, k)
  {
    if b != [] {
      var b', y := b[..|b| - 1], b[|b| - 1];
      assert a + b == (a + b') + [y];
      assert b == b' + [y];
      MembersOfNewRecord(a + b', key, y, k);
      MembersOfNewRecord(b', key, y, k);
      MembersKeepOrder(a, b', key, k);
    } else {
      assert a + b == a;
    }
  }

  lemma FirstIndexOfPrefix<T, K>(p: seq<T>, x: T, key: T -> K, k: K)
    requires FirstIndex(p, key, k) < |p|
    ensures FirstIndex(p + [x], key, k) == FirstIndex(p, key, k)
  {
    var m, n := FirstIndex(p, key, k), FirstIndex(p + [x], key, k);
    assert (p + [x])[m] == p[m];
    assert n <= m;
    assert (p + [x])[n] == p[n];
  }

  /** Groups come in the order their keys are first seen in the input. */
  lemma {:induction false} GroupsInFirstSeenOrder<T, K>(xs: seq<T>, key: T -> K)
    ensures forall i :: 0 <= i < |GroupBy(xs, key)| ==> FirstIndex(xs, key, GroupBy(xs, key)[i].key) < |xs|
    ensures forall i, j :: 0 <= i < j < |GroupBy(xs, key)| ==>
      FirstIndex(xs, key, GroupBy(xs, key)[i].key) < FirstIndex(xs, key, GroupBy(xs, key)[j].key)
  {
    GroupByIsGroupsByKey(xs, key);
    KeysInFirstSeenOrder(xs, key);
    var gs, ks := GroupBy(xs, key), Keys(xs, key);
    forall i | 0 <= i < |gs| ensures FirstIndex(xs, key, gs[i].key) < |xs| {
      assert gs[i].key == ks[i];
    }
    forall i, j | 0 <= i < j < |gs|
      ensures FirstIndex(xs, key, gs[i].key) < FirstIndex(xs, key, gs[j].key)
    {
      assert gs[i].key == ks[i] && gs[j].key == ks[j];
    }
  }

  lemma FirstIndexOfNewKey<T, K>(p: seq<T>, x: T, key: T -> K)
    requires key(x) !in Keys(p, key)
    ensures FirstIndex(p + [x], key, key(x)) == |p|
  {
    var xs := p + [x];
    forall i | 0 <= i < |p| ensures key(xs[i]) != key(x) {
      assert xs[i] == p[i];
      assert key(p[i]) in Keys(p, key);
    }
    assert xs[|p|] == x;
  }

  /** The keys of `ks` appear in `xs`, in the order of their first occurrences. */
  ghost predicate InFirstSeenOrder<T, K>(xs: seq<T>, key: T -> K, ks: seq<K>)
  {
    && (forall i :: 0 <= i < |ks| ==> FirstIndex(xs, key, ks[i]) < |xs|)
    && (forall i, j :: 0 <= i < j < |ks| ==> FirstIndex(xs, key, ks[i]) < FirstIndex(xs, key, ks[j]))
  }

  lemma FirstSeenOrderAfterNewKey<T, K>(p: seq<T>, x: T, key: T -> K)
    requires InFirstSeenOrder(p, key, Keys(p, key))
    requires key(x) !in Keys(p, key)
    requires forall i :: 0 <= i < |Keys(p, key)| ==>
      FirstIndex(p + [x], key, Keys(p, key)[i]) == FirstIndex(p, key, Keys(p, key)[i])
    ensures InFirstSeenOrder(p + [x], key, Keys(p, key) + [key(x)])
  {
    var xs, ks := p + [x], Keys(p, key);
    var ks' := ks + [key(x)];
    FirstIndexOfNewKey(p, x, key);
    forall i | 0 <= i < |ks'| ensures FirstIndex(xs, key, ks'[i]) < |xs| {
      if i < |ks| { assert ks'[i] == ks[i]; }
    }
    forall i, j | 0 <= i < j < |ks'|
      ensures FirstIndex(xs, key, ks'[i]) < FirstIndex(xs, key, ks'[j])
    {
      assert ks'[i] == ks[i];
      if j < |ks| { assert ks'[j] == ks[j]; }
    }
  }

  lemma FirstSeenOrderAfterRecord<T, K>(p: seq<T>, x: T, key: T -> K)
    requires InFirstSeenOrder(p, key, Keys(p, key))
    ensures InFirstSeenOrder(p + [x], key, Keys(p + [x], key))
  {
    var xs := p + [x];
    assert xs[..|xs| - 1] == p;
    var ks := Keys(p, key);
    forall i | 0 <= i < |ks| ensures FirstIndex(xs, key, ks[i]) == FirstIndex(p, key, ks[i]) {
      FirstIndexOfPrefix(p, x, key, ks[i]);
    }
    if key(x) !in ks {
      FirstSeenOrderAfterNewKey(p, x, key);
    }
  }

  lemma {:induction false} KeysInFirstSeenOrder<T, K>(xs: seq<T>, key: T -> K)
    ensures InFirstSeenOrder(xs, key, Keys(xs, key))
  {
    if xs != [] {
      var p, x := xs[..|xs| - 1], xs[|xs| - 1];
      assert xs == p + [x];
      KeysInFirstSeenOrder(p, key);
      FirstSeenOrderAfterRecord(p, x, key);
    }
  }

  lemma {:induction false} FlattenAddToGroup<T, K>(gs: seq<Group<T, K>>, k: K, x: T)
    ensures multiset(Flatten(AddToGroup(gs, k, x))) == multiset(Flatten(gs)) + multiset{x}
  {
    if gs != [] && gs[0].key != k {
      FlattenAddToGroup(gs[1..], k, x);
      assert AddToGroup(gs, k, x)[1..] == AddToGroup(gs[1..], k, x);
    } else if gs != [] {
      assert AddToGroup(gs, k, x)[1..] == gs[1..];
    }
  }

  /** The groups put back together hold exactly the input records: no record is lost or repeated. */
  lemma {:induction false} GroupByIsPermutation<T, K>(xs: seq<T>, key: T -> K)
    ensures multiset(Flatten(GroupBy(xs, key))) == multiset(xs)
  {
    if xs != [] {
      var p, x := xs[..|xs| - 1], xs[|xs| - 1];
      assert xs == p + [x];
      GroupByIsPermutation(p, key);
      FlattenAddToGroup(GroupBy(p, key), key(x), x);
    }
  }
}
