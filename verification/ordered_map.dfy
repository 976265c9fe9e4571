/** Insertion-ordered JavaScript collections. A plain object used as a
    dictionary is an association list: assigning to an existing key keeps its
    position and replaces its value, assigning to a new key appends it, and
    `Object.keys` lists keys in insertion order. `Array.from(new Set(xs))`
    keeps the first occurrence of each element. */
module OrderedMap {
  import opened Results

  predicate Distinct<T(==)>(s: seq<T>) {
    forall i, j :: 0 <= i < j < |s| ==> s[i] != s[j]
  }

  /** `Array.from(new Set(s))`. */
  function Dedupe<T(==,!new)>(s: seq<T>): (r: seq<T>)
    ensures Distinct(r)
    ensures forall x :: x in r <==> x in s
    ensures Distinct(s) ==> r == s
  {
    if |s| == 0 then []
    else
      var prefix := Dedupe(s[..|s| - 1]);
      assert forall x :: x in s[..|s| - 1] ==> x in s;
      assert s == s[..|s| - 1] + [s[|s| - 1]];
      if s[|s| - 1] in prefix then prefix else prefix + [s[|s| - 1]]
  }

  /** The index of the first occurrence of `x` in `s`. */
  function FirstIndex<T(==)>(s: seq<T>, x: T): (i: nat)
    requires x in s
    ensures i < |s| && s[i] == x && forall j :: 0 <= j < i ==> s[j] != x
  {
    if s[0] == x then 0 else FirstIndex(s[1..], x) + 1
  }

  /** An index holding `x` with no `x` before it is the first occurrence. */
  lemma FirstIndexUnique<T>(s: seq<T>, x: T, i: nat)
    requires i < |s| && s[i] == x && forall j :: 0 <= j < i ==> s[j] != x
    ensures FirstIndex(s, x) == i
  {
  }

  /** Appending an element does not move the first occurrence of an element
      already present. */
  lemma FirstIndexAppend<T>(s: seq<T>, x: T, y: T)
    requires y in s
    ensures FirstIndex(s + [x], y) == FirstIndex(s, y)
  {
    FirstIndexUnique(s + [x], y, FirstIndex(s, y));
  }

  /** `Array.from(new Set(s))` keeps each element at its first occurrence:
      the result lists the elements in the order they first appear. */
  lemma {:induction false} DedupeFirstOrder<T(!new)>(s: seq<T>, i: nat, j: nat)
    requires i < j < |Dedupe(s)|
    ensures FirstIndex(s, Dedupe(s)[i]) < FirstIndex(s, Dedupe(s)[j])
    decreases |s|
  {
    var p := s[..|s| - 1];
    var x := s[|s| - 1];
    assert s == p + [x];
    var prefix := Dedupe(p);
    FirstIndexAppend(p, x, prefix[i]);
    if j < |prefix| {
      DedupeFirstOrder(p, i, j);
      FirstIndexAppend(p, x, prefix[j]);
    } else {
      assert x !in p && Dedupe(s)[j] == x;
      FirstIndexUnique(s, x, |p|);
    }
  }

  function Keys<K, V>(m: seq<(K, V)>): (ks: seq<K>)
    ensures |ks| == |m|
    ensures forall i :: 0 <= i < |m| ==> ks[i] == m[i].0
  {
    seq(|m|, i requires 0 <= i < |m| => m[i].0)
  }

  /** `m[k]`: the value stored under `k`, or None for `undefined`. */
  function Lookup<K(==), V>(m: seq<(K, V)>, k: K): (r: Option<V>)
    ensures r.Some? <==> k in Keys(m)
    decreases |m|
  {
    if |m| == 0 then None
    else if m[0].0 == k then Some(m[0].1)
    else
      assert Keys(m) == [m[0].0] + Keys(m[1..]);
      Lookup(m[1..], k)
  }

  /** `r` is `m` after `m[k] = v`: `k` reads `v`, every other key reads as
      before, and the key order is kept with `k` appended when it is new. */
  ghost predicate Assigned<K(!new), V>(m: seq<(K, V)>, k: K, v: V, r: seq<(K, V)>) {
    && Lookup(r, k) == Some(v)
    && (forall k' {:trigger Lookup(r, k')} :: k' != k ==> Lookup(r, k') == Lookup(m, k'))
    && Keys(r) == if k in Keys(m) then Keys(m) else Keys(m) + [k]
  }

  /** `m[k] = v`. */
  function Put<K(==,!new), V>(m: seq<(K, V)>, k: K, v: V): (r: seq<(K, V)>)
    ensures Assigned(m, k, v, r)
    decreases |m|
  {
    if |m| == 0 then [(k, v)]
    else if m[0].0 == k then
      PutHead(m, k, v);
      [(k, v)] + m[1..]
    else
      var rest := Put(m[1..], k, v);
      PutBehind(m, k, v, rest);
      [m[0]] + rest
  }

  lemma PutHead<K(!new), V>(m: seq<(K, V)>, k: K, v: V)
    requires |m| > 0 && m[0].0 == k
    ensures Assigned(m, k, v, [(k, v)] + m[1..])
  {
    KeysCons(m[0], m[1..]);
    KeysCons((k, v), m[1..]);
    LookupCons((k, v), m[1..]);
    LookupCons(m[0], m[1..]);
    assert m == [m[0]] + m[1..];
  }

  lemma PutBehind<K(!new), V>(m: seq<(K, V)>, k: K, v: V, rest: seq<(K, V)>)
    requires |m| > 0 && m[0].0 != k && Assigned(m[1..], k, v, rest)
    ensures Assigned(m, k, v, [m[0]] + rest)
  {
    KeysCons(m[0], m[1..]);
    KeysCons(m[0], rest);
    LookupCons(m[0], rest);
    LookupCons(m[0], m[1..]);
    assert m == [m[0]] + m[1..];
  }

  lemma KeysCons<K, V>(x: (K, V), m: seq<(K, V)>)
    ensures Keys([x] + m) == [x.0] + Keys(m)
  {
  }

  lemma LookupCons<K, V>(x: (K, V), m: seq<(K, V)>)
    ensures forall k :: Lookup([x] + m, k) == if x.0 == k then Some(x.1) else Lookup(m, k)
  {
    assert ([x] + m)[1..] == m;
  }

  /** Assign every pair of `b`, in order, into `m` (object spread `{...m, ...b}`). */
  function PutAll<K(==,!new), V>(m: seq<(K, V)>, b: seq<(K, V)>): seq<(K, V)>
    decreases |b|
  {
    if |b| == 0 then m else PutAll(Put(m, b[0].0, b[0].1), b[1..])
  }

  lemma KeysTail<K, V>(b: seq<(K, V)>)
    requires |b| > 0
    ensures Keys(b) == [b[0].0] + Keys(b[1..])
  {
  }

  lemma DistinctTail<K, V>(b: seq<(K, V)>)
    requires |b| > 0 && Distinct(Keys(b))
    ensures Distinct(Keys(b[1..]))
    ensures b[0].0 !in Keys(b[1..])
  {
    KeysTail(b);
    DistinctRest(Keys(b));
    assert Keys(b)[1..] == Keys(b[1..]);
  }

  lemma DistinctRest<T>(s: seq<T>)
    requires |s| > 0 && Distinct(s)
    ensures Distinct(s[1..]) && s[0] !in s[1..]
  {
    assert forall j :: 0 <= j < |s| - 1 ==> s[1..][j] == s[j + 1];
  }

  lemma {:induction false} PutAllLookup<K(!new), V>(m: seq<(K, V)>, b: seq<(K, V)>, k: K)
    requires Distinct(Keys(b))
    ensures Lookup(PutAll(m, b), k) == if k in Keys(b) then Lookup(b, k) else Lookup(m, k)
    decreases |b|
  {
    if |b| > 0 {
      KeysTail(b);
      DistinctTail(b);
      PutAllLookup(Put(m, b[0].0, b[0].1), b[1..], k);
    }
  }

  /** Assigning a key the object does not have appends it. */
  lemma {:induction false} PutFresh<K(!new), V>(m: seq<(K, V)>, k: K, v: V)
    requires k !in Keys(m)
    ensures Put(m, k, v) == m + [(k, v)]
    decreases |m|
  {
    if |m| > 0 {
      assert m[0].0 != k && k !in Keys(m[1..]) by { KeysTail(m); }
      calc {
        Put(m, k, v);
        == { PutCons(m, k, v); }
        [m[0]] + Put(m[1..], k, v);
        == { PutFresh(m[1..], k, v); }
        [m[0]] + (m[1..] + [(k, v)]);
        == { assert m == [m[0]] + m[1..]; }
        m + [(k, v)];
      }
    }
  }

  lemma PutCons<K(!new), V>(m: seq<(K, V)>, k: K, v: V)
    requires |m| > 0 && m[0].0 != k
    ensures Put(m, k, v) == [m[0]] + Put(m[1..], k, v)
  {
  }

  lemma KeysAppend<K, V>(m: seq<(K, V)>, x: (K, V))
    ensures Keys(m + [x]) == Keys(m) + [x.0]
  {
  }

  /** The first pair of a fresh, distinct `b` is fresh, and so is the rest
      once the first is appended. */
  lemma FreshStep<K(!new), V>(m: seq<(K, V)>, b: seq<(K, V)>)
    requires |b| > 0 && Distinct(Keys(b))
    requires forall k :: k in Keys(b) ==> k !in Keys(m)
    ensures b[0].0 !in Keys(m)
    ensures Distinct(Keys(b[1..]))
    ensures forall k :: k in Keys(b[1..]) ==> k !in Keys(m + [b[0]])
  {
    KeysTail(b);
    DistinctTail(b);
    KeysAppend(m, b[0]);
    assert b[0].0 in Keys(b);
  }

  /** Spreading pairs with new, distinct keys into an object appends them. */
  lemma {:induction false} PutAllFresh<K(!new), V>(m: seq<(K, V)>, b: seq<(K, V)>)
    requires Distinct(Keys(b))
    requires forall k :: k in Keys(b) ==> k !in Keys(m)
    ensures PutAll(m, b) == m + b
    decreases |b|
  {
    if |b| > 0 {
      FreshStep(m, b);
      PutFresh(m, b[0].0, b[0].1);
      PutAllFresh(m + [b[0]], b[1..]);
      AppendStep(m, b);
    }
  }

  lemma AppendStep<T>(m: seq<T>, b: seq<T>)
    requires |b| > 0
    ensures m + [b[0]] + b[1..] == m + b
  {
  }

  /** In an object with distinct keys, each key reads back its own pair. */
  lemma {:induction false} LookupDistinct<K, V>(m: seq<(K, V)>, i: nat)
    requires i < |m| && Distinct(Keys(m))
    ensures Lookup(m, m[i].0) == Some(m[i].1)
    decreases i
  {
    if i > 0 {
      KeysTail(m);
      DistinctTail(m);
      assert Keys(m)[0] != Keys(m)[i];
      assert m[1..][i - 1] == m[i];
      LookupDistinct(m[1..], i - 1);
    }
  }

  /** Reading a distinct-keyed object at its i-th key gives v exactly when
      the i-th value is v. */
  lemma LookupIs<K, V>(m: seq<(K, V)>, i: nat, v: V)
    requires i < |m| && Distinct(Keys(m))
    ensures (Lookup(m, m[i].0) == Some(v)) == (m[i].1 == v)
  {
    LookupDistinct(m, i);
  }
}
