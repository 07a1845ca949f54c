/**
 A JavaScript `Map`: a finite map that remembers insertion order. Setting a
 present key keeps its position, a new key goes last, and deleting while
 iterating visits every remaining entry once. The stores, the idempotency
 cache, the resume queue and the bridge callbacks are all such maps.
 */
module JsMap {

  /** Entries are listed in `keys` order; `vals` holds the value of each key. */
  datatype RawMap<K(==), V> = RawMap(keys: seq<K>, vals: map<K, V>) {
    ghost predicate Valid() {
      && NoDup(keys)
      && (forall k :: k in keys ==> k in vals)
      && (forall k :: k in vals ==> k in keys)
    }
  }

  type OrderedMap<K(==), V> = m: RawMap<K, V> | m.Valid() witness RawMap([], map[])

  ghost predicate NoDup<T>(s: seq<T>) {
    forall i, j :: 0 <= i < j < |s| ==> s[i] != s[j]
  }

  function Empty<K(==), V>(): OrderedMap<K, V> {
    RawMap([], map[])
  }

  function Put<K(==), V>(m: OrderedMap<K, V>, k: K, v: V): OrderedMap<K, V> {
    RawMap(if k in m.vals then m.keys else m.keys + [k], m.vals[k := v])
  }

  /** `arr.splice(arr.indexOf(x), 1)` when present, the array itself otherwise. */
  function RemoveFirst<T(==)>(s: seq<T>, x: T): seq<T> {
    if s == [] then []
    else if s[0] == x then s[1..]
    else [s[0]] + RemoveFirst(s[1..], x)
  }

  lemma {:induction false} RemoveFirstElements<T(!new)>(s: seq<T>, x: T)
    requires NoDup(s)
    ensures NoDup(RemoveFirst(s, x))
    ensures forall y :: y in RemoveFirst(s, x) <==> y in s && y != x
  {
    if s != [] {
      assert forall y :: y in s <==> y == s[0] || y in s[1..];
      assert s[0] !in s[1..];
      if s[0] != x {
        RemoveFirstElements(s[1..], x);
        var rest := RemoveFirst(s[1..], x);
        assert s[0] !in rest;
      }
    }
  }

  lemma {:induction false} RemoveFirstLength<T(!new)>(s: seq<T>, x: T)
    ensures |RemoveFirst(s, x)| == if x in s then |s| - 1 else |s|
    ensures x !in s ==> RemoveFirst(s, x) == s
  {
    if s != [] && s[0] != x {
      RemoveFirstLength(s[1..], x);
    }
  }

  function Delete<K(==,!new), V>(m: OrderedMap<K, V>, k: K): OrderedMap<K, V> {
    RemoveFirstElements(m.keys, k);
    var keys, vals := RemoveFirst(m.keys, k), m.vals - {k};
    assert forall x :: x in keys ==> x in vals;
    assert forall x :: x in vals ==> x in keys;
    RawMap(keys, vals)
  }

  /** The elements of `s` satisfying `p`, in order. */
  function Filter<T>(s: seq<T>, p: T -> bool): seq<T> {
    if s == [] then []
    else if p(s[0]) then [s[0]] + Filter(s[1..], p)
    else Filter(s[1..], p)
  }

  lemma {:induction false} FilterElements<T(!new)>(s: seq<T>, p: T -> bool)
    ensures forall y :: y in Filter(s, p) <==> y in s && p(y)
    ensures NoDup(s) ==> NoDup(Filter(s, p))
  {
    if s != [] {
      FilterElements(s[1..], p);
      assert forall y :: y in s <==> y == s[0] || y in s[1..];
      assert NoDup(s) ==> s[0] !in s[1..];
      var rest := Filter(s[1..], p);
      assert NoDup(s) ==> s[0] !in rest;
    }
  }

  lemma {:induction false} FilterLength<T(!new)>(s: seq<T>, p: T -> bool)
    ensures |Filter(s, p)| <= |s|
  {
    if s != [] {
      FilterLength(s[1..], p);
    }
  }

  /** The entries whose key satisfies `keep`, in their old order. */
  function Restrict<K(==,!new), V>(m: OrderedMap<K, V>, keep: K -> bool): OrderedMap<K, V> {
    FilterElements(m.keys, keep);
    var keys, vals := Filter(m.keys, keep), map k | k in m.vals && keep(k) :: m.vals[k];
    assert forall x :: x in keys ==> x in vals;
    assert forall x :: x in vals ==> x in keys;
    RawMap(keys, vals)
  }

  lemma {:induction false} RemoveFirstSplit<T>(a: seq<T>, x: T, b: seq<T>)
    requires x !in a
    ensures RemoveFirst(a + [x] + b, x) == a + b
  {
    if a == [] {
      assert (a + [x] + b)[1..] == b;
      assert a + b == b;
    } else {
      RemoveFirstSplit(a[1..], x, b);
      assert (a + [x] + b)[1..] == a[1..] + [x] + b;
      assert a + b == [a[0]] + (a[1..] + b);
    }
  }

  lemma {:induction false} FilterAll<T>(s: seq<T>, p: T -> bool)
    requires forall y :: y in s ==> p(y)
    ensures Filter(s, p) == s
  {
    if s != [] {
      FilterAll(s[1..], p);
    }
  }

  /** Filtering twice, where the second filter is told by both predicates together. */
  lemma {:induction false} FilterFilter<T>(s: seq<T>, p: T -> bool, q: T -> bool, both: T -> bool)
    requires forall y :: y in s ==> (both(y) <==> p(y) && q(y))
    ensures Filter(Filter(s, p), q) == Filter(s, both)
  {
    if s != [] {
      FilterFilter(s[1..], p, q, both);
    }
  }

  lemma {:induction false} RemoveFirstIsFilter<T(!new)>(s: seq<T>, x: T, other: T -> bool)
    requires NoDup(s) && forall y :: y in s ==> (other(y) <==> y != x)
    ensures RemoveFirst(s, x) == Filter(s, other)
  {
    if s != [] {
      assert s[0] !in s[1..];
      if s[0] == x {
        FilterAll(s[1..], other);
      } else {
        RemoveFirstIsFilter(s[1..], x, other);
      }
    }
  }

  lemma {:induction false} FilterConcat<T>(a: seq<T>, b: seq<T>, p: T -> bool)
    ensures Filter(a + b, p) == Filter(a, p) + Filter(b, p)
  {
    if a == [] {
      assert a + b == b;
    } else {
      FilterConcat(a[1..], b, p);
      assert (a + b)[1..] == a[1..] + b;
    }
  }

  /** The state of a sweep loop that has examined the first `i` keys of `was`. */
  ghost predicate SweptUpTo<K(!new), V>(was: OrderedMap<K, V>, i: nat, keep: K -> bool, now: OrderedMap<K, V>)
    requires i <= |was.keys|
  {
    && now.keys == Filter(was.keys[..i], keep) + was.keys[i..]
    && now.vals == map k | k in was.vals && (keep(k) || k in was.keys[i..]) :: was.vals[k]
  }

  lemma SweepKeys<K(!new)>(was: seq<K>, i: nat, keep: K -> bool)
    requires i < |was| && NoDup(was)
    ensures Filter(was[..i + 1], keep) + was[i + 1..]
         == if keep(was[i]) then Filter(was[..i], keep) + was[i..]
            else RemoveFirst(Filter(was[..i], keep) + was[i..], was[i])
  {
    var k, kept, rest := was[i], Filter(was[..i], keep), was[i + 1..];
    assert was[..i + 1] == was[..i] + [k];
    assert was[i..] == [k] + rest;
    FilterConcat(was[..i], [k], keep);
    FilterElements(was[..i], keep);
    assert Filter([k], keep) == if keep(k) then [k] else [];
    assert kept + was[i..] == kept + [k] + rest;
    RemoveFirstSplit(kept, k, rest);
  }

  /** One iteration: key `i` is deleted exactly when it is not to be kept. */
  lemma SweepStep<K(!new), V>(was: OrderedMap<K, V>, i: nat, keep: K -> bool, now: OrderedMap<K, V>)
    requires i < |was.keys|
    requires SweptUpTo(was, i, keep, now)
    ensures was.keys[i] in was.vals && was.keys[i] in now.vals && now.vals[was.keys[i]] == was.vals[was.keys[i]]
    ensures SweptUpTo(was, i + 1, keep, if keep(was.keys[i]) then now else Delete(now, was.keys[i]))
  {
    var k := was.keys[i];
    SweepKeys(was.keys, i, keep);
    assert was.keys[i..] == [k] + was.keys[i + 1..];
    assert k !in was.keys[i + 1..];
    assert forall x :: x in was.keys[i..] <==> x == k || x in was.keys[i + 1..];
  }

  lemma SweepDone<K(!new), V>(was: OrderedMap<K, V>, keep: K -> bool, now: OrderedMap<K, V>)
    requires SweptUpTo(was, |was.keys|, keep, now)
    ensures now == Restrict(was, keep)
  {
    assert was.keys[..|was.keys|] == was.keys;
    assert was.keys[|was.keys|..] == [];
  }

  lemma SweepStart<K(!new), V>(was: OrderedMap<K, V>, keep: K -> bool)
    ensures SweptUpTo(was, 0, keep, was)
  {
    assert was.keys[..0] == [];
    assert was.keys[0..] == was.keys;
  }
}
