/** Python dicts as association lists: insertion order is iteration order, assignment to an
    existing key keeps its position, assignment to a new key appends it. Keys compare with
    Python's `==`, which `K`'s equality stands for. */
module Assoc {
  import opened Wrappers

  function Keys<K(==), V>(m: seq<(K, V)>): (ks: seq<K>)
    ensures |ks| == |m|
    ensures forall i :: 0 <= i < |m| ==> ks[i] == m[i].0
  {
    if |m| == 0 then [] else [m[0].0] + Keys(m[1..])
  }

  function Values<K(==), V>(m: seq<(K, V)>): (vs: seq<V>)
    ensures |vs| == |m|
    ensures forall i :: 0 <= i < |m| ==> vs[i] == m[i].1
  {
    if |m| == 0 then [] else [m[0].1] + Values(m[1..])
  }

  /** A Python dict never holds the same key twice. */
  predicate UniqueKeys<K(==), V>(m: seq<(K, V)>) {
    forall i, j :: 0 <= i < j < |m| ==> m[i].0 != m[j].0
  }

  /** `d.get(k)`: the value bound to `k`, if any. */
  function Lookup<K(==), V>(m: seq<(K, V)>, k: K): Option<V> {
    if |m| == 0 then None
    else if m[0].0 == k then Some(m[0].1)
    else Lookup(m[1..], k)
  }

  /** A key is bound exactly when it is one of the keys. */
  lemma {:induction false} LookupNone<K, V>(m: seq<(K, V)>, k: K)
    ensures Lookup(m, k).None? <==> k !in Keys(m)
  {
    if |m| > 0 {
      assert Keys(m) == [m[0].0] + Keys(m[1..]);
      LookupNone(m[1..], k);
    }
  }

  /** Position of the binding of `k`, if any. */
  function Find<K(==), V>(m: seq<(K, V)>, k: K): (r: Option<nat>)
    ensures r.None? <==> Lookup(m, k).None?
    ensures r.Some? ==> r.value < |m| && m[r.value].0 == k && Lookup(m, k) == Some(m[r.value].1)
  {
    if |m| == 0 then None
    else if m[0].0 == k then Some(0)
    else
      match Find(m[1..], k)
      case None => None
      case Some(i) => Some(i + 1)
  }

  lemma LookupUnique<K, V>(m: seq<(K, V)>, i: nat)
    requires UniqueKeys(m) && i < |m|
    ensures Lookup(m, m[i].0) == Some(m[i].1)
  {
    if i > 0 {
      assert m[0].0 != m[i].0;
      LookupUnique(m[1..], i - 1);
    }
  }

  /** `d[k] = v`. */
  function Put<K(==), V>(m: seq<(K, V)>, k: K, v: V): (r: seq<(K, V)>)
    ensures Keys(r) == if k in Keys(m) then Keys(m) else Keys(m) + [k]
  {
    if |m| == 0 then [(k, v)]
    else if m[0].0 == k then
      assert Keys(m)[1..] == Keys(m[1..]);
      [(k, v)] + m[1..]
    else
      var tail := Put(m[1..], k, v);
      var r := [m[0]] + tail;
      assert r[1..] == tail;
      assert Keys(m) == [m[0].0] + Keys(m[1..]);
      assert Keys(r) == [m[0].0] + Keys(tail);
      r
  }

  /** `d[k] = v` never binds a key twice. */
  lemma UniqueKeysPut<K, V>(m: seq<(K, V)>, k: K, v: V)
    requires UniqueKeys(m)
    ensures UniqueKeys(Put(m, k, v))
  {
    var r, ks := Put(m, k, v), Keys(m);
    forall i, j | 0 <= i < j < |r|
      ensures r[i].0 != r[j].0
    {
      assert Keys(r)[i] == r[i].0 && Keys(r)[j] == r[j].0;
      if j < |m| {
        assert ks[i] == m[i].0 && ks[j] == m[j].0;
      } else {
        assert ks[i] == m[i].0;
      }
    }
  }

  /** Every entry after `d[k] = v` is the new binding or an old entry. */
  lemma {:induction false} PutEntries<K, V>(m: seq<(K, V)>, k: K, v: V, i: nat)
    requires i < |Put(m, k, v)|
    ensures Put(m, k, v)[i] == (k, v) || Put(m, k, v)[i] in m
    decreases |m|
  {
    if |m| > 0 && m[0].0 != k && i > 0 {
      assert Put(m, k, v)[1..] == Put(m[1..], k, v);
      PutEntries(m[1..], k, v, i - 1);
    } else if |m| > 0 && i > 0 {
      assert Put(m, k, v)[i] == m[i];
    }
  }

  /** After `d[k] = v`, `k` holds `v` and every other key keeps its value. */
  lemma {:induction false} LookupPut<K, V>(m: seq<(K, V)>, k: K, v: V, k': K)
    ensures Lookup(Put(m, k, v), k') == if k' == k then Some(v) else Lookup(m, k')
  {
    if |m| > 0 && m[0].0 != k {
      LookupPut(m[1..], k, v, k');
      assert Put(m, k, v)[1..] == Put(m[1..], k, v);
    }
  }

  /** The value the last binding of `k` in `adds` gives it, if any. */
  function LastFor<K(==), V>(adds: seq<(K, V)>, k: K): Option<V>
  {
    if |adds| == 0 then None
    else
      match LastFor(adds[1..], k)
      case Some(v) => Some(v)
      case None => if adds[0].0 == k then Some(adds[0].1) else None
  }

  /** A key no assignment mentions gets no value from them. */
  lemma {:induction false} LastForNone<K, V>(adds: seq<(K, V)>, k: K)
    requires forall i :: 0 <= i < |adds| ==> adds[i].0 != k
    ensures LastFor(adds, k).None?
    decreases |adds|
  {
    if |adds| > 0 {
      LastForNone(adds[1..], k);
    }
  }

  /** A key only one assignment mentions gets that assignment's value. */
  lemma {:induction false} LastForOnly<K, V>(adds: seq<(K, V)>, i: nat)
    requires i < |adds|
    requires forall j :: 0 <= j < |adds| && j != i ==> adds[j].0 != adds[i].0
    ensures LastFor(adds, adds[i].0) == Some(adds[i].1)
    decreases i
  {
    if i > 0 {
      LastForOnly(adds[1..], i - 1);
    } else {
      LastForNone(adds[1..], adds[0].0);
    }
  }

  /** `for k, v in adds: d[k] = v`. */
  function PutAll<K(==), V>(m: seq<(K, V)>, adds: seq<(K, V)>): seq<(K, V)>
    decreases |adds|
  {
    if |adds| == 0 then m else PutAll(Put(m, adds[0].0, adds[0].1), adds[1..])
  }

  /** After the assignments, a key holds its last assigned value, or its old one. */
  lemma {:induction false} LookupPutAll<K, V>(m: seq<(K, V)>, adds: seq<(K, V)>, k: K)
    ensures Lookup(PutAll(m, adds), k) == match LastFor(adds, k)
                                        case Some(v) => Some(v)
                                        case None => Lookup(m, k)
    decreases |adds|
  {
    if |adds| > 0 {
      LookupPutAll(Put(m, adds[0].0, adds[0].1), adds[1..], k);
      LookupPut(m, adds[0].0, adds[0].1, k);
    }
  }

  /** Assignments keep the old keys in place, in front of any new ones, and keep keys unique. */
  lemma {:induction false} KeysPutAll<K, V>(m: seq<(K, V)>, adds: seq<(K, V)>)
    ensures |m| <= |PutAll(m, adds)|
    ensures Keys(PutAll(m, adds))[..|m|] == Keys(m)
    ensures UniqueKeys(m) ==> UniqueKeys(PutAll(m, adds))
  {
    KeysPutAllPrefix(m, adds);
    if UniqueKeys(m) {
      UniqueKeysPutAll(m, adds);
    }
  }

  lemma {:induction false} KeysPutAllPrefix<K, V>(m: seq<(K, V)>, adds: seq<(K, V)>)
    ensures |m| <= |PutAll(m, adds)|
    ensures Keys(PutAll(m, adds))[..|m|] == Keys(m)
    decreases |adds|
  {
    if |adds| > 0 {
      var m' := Put(m, adds[0].0, adds[0].1);
      var r := PutAll(m', adds[1..]);
      KeysPutAllPrefix(m', adds[1..]);
      assert Keys(m')[..|m|] == Keys(m);
      assert Keys(r)[..|m|] == Keys(r)[..|m'|][..|m|];
    }
  }

  lemma {:induction false} UniqueKeysPutAll<K, V>(m: seq<(K, V)>, adds: seq<(K, V)>)
    requires UniqueKeys(m)
    ensures UniqueKeys(PutAll(m, adds))
    decreases |adds|
  {
    if |adds| > 0 {
      UniqueKeysPut(m, adds[0].0, adds[0].1);
      UniqueKeysPutAll(Put(m, adds[0].0, adds[0].1), adds[1..]);
    }
  }

  /** Assignments to keys that are all present already leave the key order alone. */
  lemma {:induction false} KeysPutAllPresent<K, V>(m: seq<(K, V)>, adds: seq<(K, V)>)
    requires forall i :: 0 <= i < |adds| ==> adds[i].0 in Keys(m)
    ensures Keys(PutAll(m, adds)) == Keys(m)
    decreases |adds|
  {
    if |adds| > 0 {
      var m' := Put(m, adds[0].0, adds[0].1);
      assert Keys(m') == Keys(m);
      assert forall i :: 0 <= i < |adds[1..]| ==> adds[1..][i].0 in Keys(m');
      KeysPutAllPresent(m', adds[1..]);
    }
  }

  lemma KeysMember<K, V>(m: seq<(K, V)>, k: K)
    requires k in Keys(m)
    ensures exists i :: 0 <= i < |m| && m[i].0 == k
  {
    var i :| 0 <= i < |Keys(m)| && Keys(m)[i] == k;
  }

  /** Two dicts with the same keys in the same order and the same lookups are equal. */
  lemma Extensional<K, V>(a: seq<(K, V)>, b: seq<(K, V)>)
    requires UniqueKeys(a) && UniqueKeys(b) && Keys(a) == Keys(b)
    requires forall k :: Lookup(a, k) == Lookup(b, k)
    ensures a == b
  {
    forall i | 0 <= i < |a|
      ensures a[i] == b[i]
    {
      LookupUnique(a, i);
      LookupUnique(b, i);
      assert Lookup(a, a[i].0) == Lookup(b, b[i].0);
    }
  }

  /** Performing the same assignments twice is performing them once. */
  lemma PutAllIdempotent<K, V>(m: seq<(K, V)>, adds: seq<(K, V)>)
    requires UniqueKeys(m)
    ensures PutAll(PutAll(m, adds), adds) == PutAll(m, adds)
  {
    var m1 := PutAll(m, adds);
    var m2 := PutAll(m1, adds);
    KeysPutAll(m, adds);
    forall i | 0 <= i < |adds|
      ensures adds[i].0 in Keys(m1)
    {
      LastForSome(adds, i);
      LookupPutAll(m, adds, adds[i].0);
      LookupNone(m1, adds[i].0);
    }
    KeysPutAll(m1, adds);
    KeysPutAllPresent(m1, adds);
    forall k
      ensures Lookup(m2, k) == Lookup(m1, k)
    {
      LookupPutAll(m, adds, k);
      LookupPutAll(m1, adds, k);
    }
    Extensional(m2, m1);
  }

  lemma {:induction false} LastForSome<K, V>(adds: seq<(K, V)>, i: nat)
    requires i < |adds|
    ensures LastFor(adds, adds[i].0).Some?
    decreases i
  {
    if i > 0 {
      LastForSome(adds[1..], i - 1);
    }
  }

  /** Position of the first entry whose key satisfies `p`, if any. */
  function FirstWhere<K(==), V>(m: seq<(K, V)>, p: K -> bool): (r: Option<nat>)
    ensures r.None? <==> forall i :: 0 <= i < |m| ==> !p(m[i].0)
    ensures r.Some? ==> r.value < |m| && p(m[r.value].0)
    ensures r.Some? ==> forall j :: 0 <= j < r.value ==> !p(m[j].0)
    decreases |m|
  {
    if |m| == 0 then None
    else if p(m[0].0) then Some(0)
    else
      match FirstWhere(m[1..], p)
      case None => None
      case Some(i) => Some(i + 1)
  }

  /** A dict whose keys begin with another's keys finds the same first match there. */
  lemma FirstWherePrefix<K, V>(a: seq<(K, V)>, b: seq<(K, V)>, p: K -> bool)
    requires |a| <= |b| && Keys(b)[..|a|] == Keys(a)
    requires FirstWhere(a, p).Some?
    ensures FirstWhere(b, p) == FirstWhere(a, p)
  {
    var i := FirstWhere(a, p).value;
    forall j | 0 <= j <= i
      ensures b[j].0 == a[j].0
    {
      assert Keys(b)[..|a|][j] == Keys(b)[j];
    }
    FirstWhereIs(b, p, i);
  }

  /** The first match is the position that matches with no match before it. */
  lemma FirstWhereIs<K, V>(m: seq<(K, V)>, p: K -> bool, i: nat)
    requires i < |m| && p(m[i].0)
    requires forall j :: 0 <= j < i ==> !p(m[j].0)
    ensures FirstWhere(m, p) == Some(i)
  {
  }

  /** Position of the last entry whose key satisfies `p`, if any. */
  function LastWhere<K(==), V>(m: seq<(K, V)>, p: K -> bool): (r: Option<nat>)
    ensures r.None? <==> forall i :: 0 <= i < |m| ==> !p(m[i].0)
    ensures r.Some? ==> r.value < |m| && p(m[r.value].0)
    ensures r.Some? ==> forall j :: r.value < j < |m| ==> !p(m[j].0)
    decreases |m|
  {
    if |m| == 0 then None
    else if p(m[|m| - 1].0) then Some(|m| - 1)
    else LastWhere(m[..|m| - 1], p)
  }

  /** The distinct elements of `xs` in the order of their first occurrence: the key order of
      a dict that is assigned the keys of `xs` in turn. */
  function FirstSeen<K(==)>(xs: seq<K>): (r: seq<K>)
    ensures forall k :: 0 <= k < |xs| ==> xs[k] in r
    ensures forall k :: 0 <= k < |r| ==> r[k] in xs
    ensures forall i, j :: 0 <= i < j < |r| ==> r[i] != r[j]
    decreases |xs|
  {
    if |xs| == 0 then []
    else
      var front, x := xs[..|xs| - 1], xs[|xs| - 1];
      assert xs == front + [x];
      var seen := FirstSeen(front);
      if x in seen then seen else seen + [x]
  }
}
