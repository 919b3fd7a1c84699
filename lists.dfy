// List operations the Java collections provide: ArrayList.remove(Object),
// which removes the first occurrence, and the absence of duplicates the
// callers keep.

module Lists {
  /** Concatenation is associative (stated once so that callers need not prove it element by element). */
  lemma AppendAssoc<T>(a: seq<T>, b: seq<T>, c: seq<T>)
    ensures a + b + c == a + (b + c)
  {
  }

  /** A second update of the same key overrides the first. */
  lemma UpdateTwice<K, V>(m: map<K, V>, k: K, a: V, b: V)
    ensures m[k := a][k := b] == m[k := b]
  {
  }

  /** Updating one key leaves every other key as it was. */
  lemma UpdateOther<K, V>(m: map<K, V>, k: K, v: V, n: K)
    requires n != k
    ensures (n in m[k := v] <==> n in m) && (n in m ==> m[k := v][n] == m[n])
  {
  }

  /** The elements of a list with one more at the end. */
  lemma InSnoc<T>(s: seq<T>, x: T, n: T)
    ensures n in s + [x] <==> n in s || n == x
  {
  }

  /** No element occurs twice. */
  predicate NoDup<T(==)>(s: seq<T>)
  {
    forall i, j :: 0 <= i < j < |s| ==> s[i] != s[j]
  }

  /** The position of the first occurrence. */
  function FirstIndex<T(==)>(s: seq<T>, x: T): (i: nat)
    requires x in s
    ensures i < |s| && s[i] == x
    ensures forall k :: 0 <= k < i ==> s[k] != x
  {
    if s[0] == x then 0 else 1 + FirstIndex(s[1..], x)
  }

  /** ArrayList.remove(Object) on a list that holds the element. */
  function RemoveFirst<T(==)>(s: seq<T>, x: T): (r: seq<T>)
    requires x in s
  {
    s[..FirstIndex(s, x)] + s[FirstIndex(s, x) + 1..]
  }

  /** The elements left after removing the first occurrence, by position. */
  lemma RemoveFirstAt<T>(s: seq<T>, x: T, k: nat)
    requires x in s && k < |s| - 1
    ensures var i := FirstIndex(s, x);
      |RemoveFirst(s, x)| == |s| - 1 && RemoveFirst(s, x)[k] == if k < i then s[k] else s[k + 1]
  {
  }

  /** Removing the first occurrence takes away one copy of the element and keeps the others. */
  lemma RemoveFirstCount<T>(s: seq<T>, x: T)
    requires x in s
    ensures |RemoveFirst(s, x)| == |s| - 1
    ensures multiset(RemoveFirst(s, x)) == multiset(s) - multiset{x}
  {
    var i := FirstIndex(s, x);
    assert s == s[..i] + [x] + s[i + 1..];
  }

  /** In a list without duplicates the removed element is gone and there are still no duplicates. */
  lemma RemoveFirstNoDup<T>(s: seq<T>, x: T)
    requires x in s && NoDup(s)
    ensures x !in RemoveFirst(s, x) && NoDup(RemoveFirst(s, x))
  {
    var i := FirstIndex(s, x);
    var r := RemoveFirst(s, x);
    assert |r| == |s| - 1;
    forall k | 0 <= k < |r| ensures r[k] != x {
      RemoveFirstAt(s, x, k);
    }
    forall a, b | 0 <= a < b < |r| ensures r[a] != r[b] {
      RemoveFirstAt(s, x, a);
      RemoveFirstAt(s, x, b);
      var a' := if a < i then a else a + 1;
      var b' := if b < i then b else b + 1;
      assert r[a] == s[a'] && r[b] == s[b'] && a' < b';
    }
  }

  /**
   * Removing the first occurrence takes away one copy of the element and
   * keeps the others; in a list without duplicates the element is then gone
   * and there are still no duplicates.
   */
  lemma RemoveFirstMeaning<T>(s: seq<T>, x: T)
    requires x in s
    ensures |RemoveFirst(s, x)| == |s| - 1
    ensures multiset(RemoveFirst(s, x)) == multiset(s) - multiset{x}
    ensures NoDup(s) ==> x !in RemoveFirst(s, x) && NoDup(RemoveFirst(s, x))
  {
    RemoveFirstCount(s, x);
    if NoDup(s) {
      RemoveFirstNoDup(s, x);
    }
  }

  /** Appending an element not yet present keeps the list free of duplicates. */
  lemma AppendNew<T>(s: seq<T>, x: T)
    requires NoDup(s) && x !in s
    ensures NoDup(s + [x])
  {
  }
}
