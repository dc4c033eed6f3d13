/**
 * `Array.prototype.sort` with a comparator of the form `(a, b) => key(b) - key(a)`: the language
 * requires the sort to be stable, so the result is ordered by `key` from largest to smallest and
 * elements with equal keys keep their input order. Modelled as an insertion sort.
 */
module StableSort {

  ghost predicate Descending<T>(s: seq<T>, key: T -> int) {
    forall i, j :: 0 <= i < j < |s| ==> key(s[i]) >= key(s[j])
  }

  /** The elements of `s` whose key is `k`, in the order of `s`. */
  function WithKey<T>(s: seq<T>, key: T -> int, k: int): seq<T> {
    if s == [] then []
    else if key(s[0]) == k then [s[0]] + WithKey(s[1..], key, k)
    else WithKey(s[1..], key, k)
  }

  /** Puts `x` in front of the first element whose key is not larger than its own. */
  function Insert<T>(x: T, s: seq<T>, key: T -> int): (r: seq<T>)
    ensures |r| == |s| + 1
    ensures multiset(r) == multiset(s) + multiset{x}
  {
    if s == [] then [x]
    else if key(x) >= key(s[0]) then [x] + s
    else
      assert s == [s[0]] + s[1..];
      [s[0]] + Insert(x, s[1..], key)
  }

  function SortDescending<T>(s: seq<T>, key: T -> int): (r: seq<T>)
    ensures |r| == |s|
    ensures multiset(r) == multiset(s)
  {
    if s == [] then []
    else
      assert s == [s[0]] + s[1..];
      Insert(s[0], SortDescending(s[1..], key), key)
  }

  /** Dropping the first element keeps a sequence ordered. */
  lemma DescendingTail<T>(s: seq<T>, key: T -> int)
    requires s != [] && Descending(s, key)
    ensures Descending(s[1..], key)
  {
    var rest := s[1..];
    forall i, j | 0 <= i < j < |rest| ensures key(rest[i]) >= key(rest[j]) {
      assert rest[i] == s[i + 1] && rest[j] == s[j + 1];
    }
  }

  /** Inserting never brings in a key above a bound that `x` and all of `s` respect. */
  lemma InsertBounded<T>(x: T, s: seq<T>, key: T -> int, bound: int)
    requires key(x) <= bound
    requires forall i :: 0 <= i < |s| ==> key(s[i]) <= bound
    ensures forall i :: 0 <= i < |Insert(x, s, key)| ==> key(Insert(x, s, key)[i]) <= bound
  {
    var r := Insert(x, s, key);
    forall i | 0 <= i < |r| ensures key(r[i]) <= bound {
      assert r[i] in multiset(s) + multiset{x};
      if r[i] != x {
        assert r[i] in s;
      }
    }
  }

  /** Putting an element that is not below any of an ordered sequence in front keeps it ordered. */
  lemma ConsDescending<T>(y: T, t: seq<T>, key: T -> int)
    requires Descending(t, key)
    requires forall i :: 0 <= i < |t| ==> key(t[i]) <= key(y)
    ensures Descending([y] + t, key)
  {
    var r := [y] + t;
    forall i, j | 0 <= i < j < |r| ensures key(r[i]) >= key(r[j]) {
      assert r[j] == t[j - 1];
      if i > 0 {
        assert r[i] == t[i - 1];
      }
    }
  }

  lemma {:induction false} InsertDescending<T>(x: T, s: seq<T>, key: T -> int)
    requires Descending(s, key)
    ensures Descending(Insert(x, s, key), key)
  {
    if s == [] {
    } else if key(x) >= key(s[0]) {
      ConsDescending(x, s, key);
    } else {
      var rest := s[1..];
      DescendingTail(s, key);
      InsertDescending(x, rest, key);
      assert forall i :: 0 <= i < |rest| ==> key(rest[i]) <= key(s[0]) by {
        forall i | 0 <= i < |rest| ensures key(rest[i]) <= key(s[0]) {
          assert rest[i] == s[i + 1];
        }
      }
      InsertBounded(x, rest, key, key(s[0]));
      ConsDescending(s[0], Insert(x, rest, key), key);
    }
  }

  /** The result of the sort is ordered by key, largest first. */
  lemma {:induction false} SortIsDescending<T>(s: seq<T>, key: T -> int)
    ensures Descending(SortDescending(s, key), key)
  {
    if s != [] {
      SortIsDescending(s[1..], key);
      InsertDescending(s[0], SortDescending(s[1..], key), key);
    }
  }

  lemma {:induction false} InsertStable<T>(x: T, s: seq<T>, key: T -> int, k: int)
    requires Descending(s, key)
    ensures WithKey(Insert(x, s, key), key, k) == (if key(x) == k then [x] else []) + WithKey(s, key, k)
  {
    if s == [] {
    } else if key(x) >= key(s[0]) {
      assert ([x] + s)[0] == x && ([x] + s)[1..] == s;
    } else {
      var rest := s[1..];
      DescendingTail(s, key);
      var tail := Insert(x, rest, key);
      InsertStable(x, rest, key, k);
      var r := [s[0]] + tail;
      assert Insert(x, s, key) == r;
      assert r[0] == s[0] && r[1..] == tail;
      var head := if key(s[0]) == k then [s[0]] else [];
      assert WithKey(r, key, k) == head + WithKey(tail, key, k);
      assert WithKey(s, key, k) == head + WithKey(rest, key, k);
      if key(x) == k {
        assert head == [];
      }
    }
  }

  /**
   * Stability: for every key, the elements carrying that key appear in the sorted result in the
   * same order as in the input.
   */
  lemma {:induction false} SortIsStable<T>(s: seq<T>, key: T -> int, k: int)
    ensures WithKey(SortDescending(s, key), key, k) == WithKey(s, key, k)
  {
    if s != [] {
      SortIsStable(s[1..], key, k);
      SortIsDescending(s[1..], key);
      InsertStable(s[0], SortDescending(s[1..], key), key, k);
    }
  }
}
