/** Small shared vocabulary: an optional value (a Go `(T, error)` pair or a map read with `, ok`). */
module Common {
  datatype Option<T> = None | Some(value: T)

  /**
   * Dropping the head of a concatenation whose front is non-empty. Stated over any
   * element type, so that sequences of strings are compared without looking inside
   * the strings.
   */
  lemma DropFront<T>(a: seq<T>, b: seq<T>)
    requires a != []
    ensures (a + b)[0] == a[0]
    ensures (a + b)[1..] == a[1..] + b
  {
  }

  /** The front of a concatenation, over any element type. */
  lemma TakeFront<T>(a: seq<T>, b: seq<T>)
    ensures (a + b)[..|a|] == a
    ensures |a + b| == |a| + |b|
  {
  }

  /** The last element of a concatenation, and what comes before it. */
  lemma DropBack<T>(a: seq<T>, b: seq<T>)
    requires b != []
    ensures (a + b)[..|a + b| - 1] == a + b[..|b| - 1]
    ensures (a + b)[|a + b| - 1] == b[|b| - 1]
  {
  }

  /** A longer prefix is the shorter one and one more element. */
  lemma PrefixSnoc<T>(s: seq<T>, i: nat)
    requires i < |s|
    ensures s[..i + 1] == s[..i] + [s[i]]
  {
  }

  /** The empty map adds nothing to a union. */
  lemma UnionEmpty<K, V>(m: map<K, V>)
    ensures map[] + m == m
    ensures m + map[] == m
  {
  }

  /** A Go map read: the stored value, or the zero value `zero` for a missing key. */
  function ReadOr<K, V>(m: map<K, V>, k: K, zero: V): (v: V)
    ensures k in m ==> v == m[k]
    ensures k !in m ==> v == zero
  {
    if k in m then m[k] else zero
  }

  /** In a sequence where no two elements share a key, an element is determined by its key. */
  lemma OnePerKey<T>(d: seq<T>, key: T -> int, x: T, y: T)
    requires forall i, j :: 0 <= i < j < |d| ==> key(d[i]) != key(d[j])
    requires x in d && y in d && key(x) == key(y)
    ensures x == y
  {
    var i :| 0 <= i < |d| && d[i] == x;
    var j :| 0 <= j < |d| && d[j] == y;
    assert !(i < j) && !(j < i);
  }

  /** Sequences with the same multiset hold the same elements. */
  lemma SameElements<T>(a: seq<T>, b: seq<T>)
    requires multiset(a) == multiset(b)
    ensures forall x :: x in a <==> x in b
  {
    forall x ensures x in a <==> x in b {
      assert x in a <==> x in multiset(a);
      assert x in b <==> x in multiset(b);
    }
  }
}
