// Small shared vocabulary: optional values and counting the entries of a map.

module Options {
  datatype Option<+T> = None | Some(value: T)
}

module Bytes {
  type byte = b: int | 0 <= b < 256

  const LF: byte := 10
  const CR: byte := 13

  function Flatten<T>(chunks: seq<seq<T>>): seq<T> {
    if chunks == [] then [] else chunks[0] + Flatten(chunks[1..])
  }

  lemma Regroup<T>(a: seq<T>, b: seq<T>, c: seq<T>)
    ensures (a + b) + c == a + (b + c)
  {}
}

module Counting {
  /** How many entries of m hold a value satisfying p. */
  ghost function Count<K, V>(m: map<K, V>, p: V -> bool): nat {
    |Hits(m, p)|
  }

  ghost function Hits<K, V>(m: map<K, V>, p: V -> bool): set<K> {
    set k | k in m && p(m[k])
  }

  function Indicator(b: bool): nat {
    if b then 1 else 0
  }

  /** Writing one entry moves the count by what that entry alone contributes. */
  lemma CountSet<K, V>(m: map<K, V>, k: K, v: V, p: V -> bool)
    ensures Count(m[k := v], p) + Indicator(k in m && p(m[k])) == Count(m, p) + Indicator(p(v))
  {
    HitsSet(m, k, v, p);
  }

  lemma HitsSet<K, V>(m: map<K, V>, k: K, v: V, p: V -> bool)
    ensures Hits(m[k := v], p) == if p(v) then Hits(m, p) + {k} else Hits(m, p) - {k}
  {
    var m' := m[k := v];
    forall x
      ensures x in Hits(m', p) <==> if x == k then p(v) else x in Hits(m, p)
    {
      assert x != k ==> (x in m' <==> x in m);
    }
  }

  lemma CountRemove<K, V>(m: map<K, V>, k: K, p: V -> bool)
    ensures Count(m - {k}, p) + Indicator(k in m && p(m[k])) == Count(m, p)
  {
    assert Hits(m - {k}, p) == Hits(m, p) - {k};
  }

  /** A narrower predicate never counts more entries. */
  lemma CountMonotone<K, V>(m: map<K, V>, p: V -> bool, q: V -> bool)
    requires forall k :: k in m && p(m[k]) ==> q(m[k])
    ensures Count(m, p) <= Count(m, q)
  {
    SubsetSize(Hits(m, p), Hits(m, q));
  }

  lemma {:induction false} SubsetSize<K>(a: set<K>, b: set<K>)
    requires a <= b
    ensures |a| <= |b|
  {
    if a != {} {
      var x :| x in a;
      SubsetSize(a - {x}, b - {x});
    }
  }
}
