/**
 * The stable sort that the client (`sort_by_key`) and the server (`Array.sort`) take from
 * their standard libraries, with the two facts the callers rely on.
 */
module StableSort {

  function Insert<T>(x: T, s: seq<T>, key: T -> int): seq<T> {
    if s == [] || key(x) <= key(s[0]) then [x] + s
    else [s[0]] + Insert(x, s[1..], key)
  }

  /** Insertion from the right: an element goes before later elements of the same key. */
  function Sort<T>(s: seq<T>, key: T -> int): seq<T> {
    if s == [] then [] else Insert(s[0], Sort(s[1..], key), key)
  }

  /** `x` may stand before `y`. */
  ghost predicate Precedes<T>(x: T, y: T, key: T -> int, before: (T, T) -> bool) {
    key(x) < key(y) || (key(x) == key(y) && before(x, y))
  }

  /** Ascending by key; elements of equal key keep the order `before`. */
  ghost predicate Ordered<T>(s: seq<T>, key: T -> int, before: (T, T) -> bool) {
    forall i, j | 0 <= i < j < |s| :: Precedes(s[i], s[j], key, before)
  }

  ghost predicate InOrder<T>(s: seq<T>, before: (T, T) -> bool) {
    forall i, j | 0 <= i < j < |s| :: before(s[i], s[j])
  }

  lemma {:induction false} InsertIsPermutation<T>(x: T, s: seq<T>, key: T -> int)
    ensures multiset(Insert(x, s, key)) == multiset([x] + s)
  {
    if s == [] || key(x) <= key(s[0]) {
    } else {
      InsertIsPermutation(x, s[1..], key);
      assert s == [s[0]] + s[1..];
    }
  }

  lemma {:induction false} SortIsPermutation<T>(s: seq<T>, key: T -> int)
    ensures multiset(Sort(s, key)) == multiset(s)
    ensures |Sort(s, key)| == |s|
  {
    if s == [] {
    } else {
      SortIsPermutation(s[1..], key);
      InsertIsPermutation(s[0], Sort(s[1..], key), key);
      assert s == [s[0]] + s[1..];
    }
    assert |multiset(Sort(s, key))| == |multiset(s)|;
  }

  lemma PrependOrdered<T>(x: T, s: seq<T>, key: T -> int, before: (T, T) -> bool)
    requires Ordered(s, key, before) && forall y | y in s :: Precedes(x, y, key, before)
    ensures Ordered([x] + s, key, before)
  {
    assert forall j | 0 <= j < |s| :: s[j] in s;
  }

  lemma {:induction false} InsertIsStable<T>(x: T, s: seq<T>, key: T -> int, before: (T, T) -> bool)
    requires Ordered(s, key, before)
    requires forall y | y in s :: before(x, y)
    ensures Ordered(Insert(x, s, key), key, before)
  {
    if s == [] || key(x) <= key(s[0]) {
      forall y | y in s ensures Precedes(x, y, key, before) {
        var i :| 0 <= i < |s| && s[i] == y;
        assert i > 0 ==> Precedes(s[0], s[i], key, before);
      }
      PrependOrdered(x, s, key, before);
    } else {
      InsertIsStable(x, s[1..], key, before);
      InsertMembers(x, s[1..], key);
      forall y | y in Insert(x, s[1..], key) ensures Precedes(s[0], y, key, before) {
        if y != x {
          assert y in s[1..];
          var i :| 1 <= i < |s| && s[i] == y;
          assert Precedes(s[0], s[i], key, before);
        }
      }
      PrependOrdered(s[0], Insert(x, s[1..], key), key, before);
    }
  }

  lemma InsertMembers<T>(x: T, s: seq<T>, key: T -> int)
    ensures forall y | y in Insert(x, s, key) :: y == x || y in s
  {
    InsertIsPermutation(x, s, key);
    forall y | y in Insert(x, s, key) ensures y == x || y in s {
      assert y in multiset(Insert(x, s, key));
      assert y in [x] + s;
    }
  }

  /** Whatever relation holds between earlier and later elements survives among equal keys. */
  lemma {:induction false} SortIsStable<T>(s: seq<T>, key: T -> int, before: (T, T) -> bool)
    requires InOrder(s, before)
    ensures Ordered(Sort(s, key), key, before)
  {
    if s == [] {
    } else {
      SortIsStable(s[1..], key, before);
      SortIsPermutation(s[1..], key);
      forall y | y in Sort(s[1..], key) ensures before(s[0], y) {
        assert y in multiset(Sort(s[1..], key));
        assert y in s[1..];
      }
      InsertIsStable(s[0], Sort(s[1..], key), key, before);
    }
  }
}
