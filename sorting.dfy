/** Array.prototype.sort as the engine uses it: both of its sorts order records by a pair of
    integers, lexicographically (position first, then a rank that breaks ties). */
module Sorting {

  type Key = (int, int)

  /** Lexicographic order on keys. */
  predicate KeyLe(a: Key, b: Key) {
    a.0 < b.0 || (a.0 == b.0 && a.1 <= b.1)
  }

  /** Strict lexicographic order on keys: the comparator says "before". */
  predicate KeyLt(a: Key, b: Key) {
    a.0 < b.0 || (a.0 == b.0 && a.1 < b.1)
  }

  /** `s` is in key order. */
  predicate Sorted<T>(s: seq<T>, key: T -> Key) {
    forall i, j :: 0 <= i < j < |s| ==> KeyLe(key(s[i]), key(s[j]))
  }

  /** No two elements of `s` share a key. */
  predicate DistinctKeys<T>(s: seq<T>, key: T -> Key) {
    forall i, j :: 0 <= i < j < |s| ==> key(s[i]) != key(s[j])
  }

  /** `x` inserted into sorted `s` before the first element whose key is not smaller. */
  function Insert<T>(x: T, s: seq<T>, key: T -> Key): (r: seq<T>)
    ensures multiset(r) == multiset(s) + multiset{x}
    ensures |r| == |s| + 1
    decreases |s|
  {
    if |s| == 0 then [x]
    else
      assert s == [s[0]] + s[1..];
      if KeyLt(key(s[0]), key(x)) then [s[0]] + Insert(x, s[1..], key)
      else [x] + s
  }

  /** The order a stable sort puts `s` in (insertion sort from the back: each element goes
      before the later elements with an equal key). */
  function SortBy<T>(s: seq<T>, key: T -> Key): seq<T>
    decreases |s|
  {
    if |s| == 0 then [] else Insert(s[0], SortBy(s[1..], key), key)
  }

  /** Insertion keeps a sorted sequence sorted. */
  lemma {:induction false} InsertSorted<T>(x: T, s: seq<T>, key: T -> Key)
    requires Sorted(s, key)
    ensures Sorted(Insert(x, s, key), key)
    decreases |s|
  {
    var r := Insert(x, s, key);
    if |s| > 0 && KeyLt(key(s[0]), key(x)) {
      InsertSorted(x, s[1..], key);
      var t := Insert(x, s[1..], key);
      assert r == [s[0]] + t;
      forall j | 0 <= j < |t|
        ensures KeyLe(key(s[0]), key(t[j]))
      {
        assert t[j] in multiset(t);
        assert t[j] in multiset(s[1..]) + multiset{x};
        if t[j] != x {
          assert t[j] in s[1..];
          var m :| 0 <= m < |s[1..]| && s[1..][m] == t[j];
          assert s[1..][m] == s[m + 1];
        }
      }
      forall i, j | 0 <= i < j < |r|
        ensures KeyLe(key(r[i]), key(r[j]))
      {
        if i == 0 {
          assert r[j] == t[j - 1];
        } else {
          assert r[i] == t[i - 1] && r[j] == t[j - 1];
        }
      }
    } else if |s| > 0 {
      forall i, j | 0 <= i < j < |r|
        ensures KeyLe(key(r[i]), key(r[j]))
      {
        if i == 0 {
          assert r[j] == s[j - 1];
          assert KeyLe(key(s[0]), key(s[j - 1])) || j - 1 == 0;
        } else {
          assert r[i] == s[i - 1] && r[j] == s[j - 1];
        }
      }
    }
  }

  /** The sort's result is in key order and holds the same elements, each as often. */
  lemma {:induction false} SortBySpec<T>(s: seq<T>, key: T -> Key)
    ensures Sorted(SortBy(s, key), key)
    ensures multiset(SortBy(s, key)) == multiset(s)
    ensures |SortBy(s, key)| == |s|
    decreases |s|
  {
    if |s| > 0 {
      SortBySpec(s[1..], key);
      InsertSorted(s[0], SortBy(s[1..], key), key);
      assert s == [s[0]] + s[1..];
    }
  }

  /** Two key-ordered sequences with the same elements and distinct keys start alike. */
  lemma SameFirst<T>(a: seq<T>, b: seq<T>, key: T -> Key)
    requires |a| > 0 && |b| > 0 && multiset(a) == multiset(b)
    requires Sorted(a, key) && Sorted(b, key) && DistinctKeys(a, key)
    ensures a[0] == b[0]
  {
    assert b[0] in multiset(a);
    var i :| 0 <= i < |a| && a[i] == b[0];
    assert a[0] in multiset(b);
    var j :| 0 <= j < |b| && b[j] == a[0];
    assert KeyLe(key(a[0]), key(a[i])) || i == 0;
    assert KeyLe(key(b[0]), key(b[j])) || j == 0;
  }

  /** Removing the same first element leaves the same elements. */
  lemma SameRest<T>(a: seq<T>, b: seq<T>)
    requires |a| > 0 && |b| > 0 && a[0] == b[0] && multiset(a) == multiset(b)
    ensures multiset(a[1..]) == multiset(b[1..])
  {
    assert a == [a[0]] + a[1..] && b == [b[0]] + b[1..];
    assert multiset(a[1..]) == multiset(a) - multiset{a[0]};
    assert multiset(b[1..]) == multiset(b) - multiset{b[0]};
  }

  /** Among sequences with the same elements, at most one is in key order when the keys are
      distinct: so any correct sort, stable or not, gives the order SortBy gives. */
  lemma {:induction false} SortedUnique<T>(a: seq<T>, b: seq<T>, key: T -> Key)
    requires multiset(a) == multiset(b)
    requires Sorted(a, key) && Sorted(b, key) && DistinctKeys(a, key)
    ensures a == b
    decreases |a|
  {
    assert |a| == |multiset(a)| == |multiset(b)| == |b|;
    if |a| > 0 {
      SameFirst(a, b, key);
      SameRest(a, b);
      SortedUnique(a[1..], b[1..], key);
      assert a == [a[0]] + a[1..] && b == [b[0]] + b[1..];
    }
  }

  /** Inserting `x` gives the same sequence under two keys that agree on which elements of
      `s` come before `x`. */
  lemma {:induction false} InsertSameOrder<T>(x: T, s: seq<T>, key1: T -> Key, key2: T -> Key)
    requires forall n :: 0 <= n < |s| ==> (KeyLt(key1(s[n]), key1(x)) <==> KeyLt(key2(s[n]), key2(x)))
    ensures Insert(x, s, key1) == Insert(x, s, key2)
    decreases |s|
  {
    if |s| > 0 && KeyLt(key1(s[0]), key1(x)) {
      InsertSameOrder(x, s[1..], key1, key2);
    }
  }

  /** Two keys that agree on whether a later element must move before an earlier one give
      the same stable sort. */
  lemma {:induction false} SortBySameOrder<T>(s: seq<T>, key1: T -> Key, key2: T -> Key)
    requires forall i, j :: 0 <= i < j < |s| ==> (KeyLt(key1(s[j]), key1(s[i])) <==> KeyLt(key2(s[j]), key2(s[i])))
    ensures SortBy(s, key1) == SortBy(s, key2)
    decreases |s|
  {
    if |s| > 0 {
      SortBySameOrder(s[1..], key1, key2);
      var t := SortBy(s[1..], key1);
      SortBySpec(s[1..], key1);
      forall n | 0 <= n < |t|
        ensures KeyLt(key1(t[n]), key1(s[0])) <==> KeyLt(key2(t[n]), key2(s[0]))
      {
        assert t[n] in multiset(s[1..]);
        var j :| 0 <= j < |s[1..]| && s[1..][j] == t[n];
        assert s[j + 1] == t[n];
      }
      InsertSameOrder(s[0], t, key1, key2);
    }
  }

  /** With distinct keys no element occurs twice. */
  lemma {:induction false} DistinctOnce<T>(a: seq<T>, key: T -> Key, x: T)
    requires DistinctKeys(a, key)
    ensures multiset(a)[x] <= 1
    decreases |a|
  {
    if |a| > 0 {
      assert a == [a[0]] + a[1..];
      DistinctOnce(a[1..], key, x);
      if a[0] == x {
        forall j | 0 <= j < |a[1..]| ensures a[1..][j] != x {
          assert key(a[0]) != key(a[j + 1]);
        }
      }
    }
  }

  /** Reordering keeps keys distinct. */
  lemma DistinctKeysPermutation<T>(a: seq<T>, b: seq<T>, key: T -> Key)
    requires multiset(a) == multiset(b) && DistinctKeys(a, key)
    ensures DistinctKeys(b, key)
  {
    forall i, j | 0 <= i < j < |b| ensures key(b[i]) != key(b[j]) {
      assert b[i] in multiset(a) && b[j] in multiset(a);
      var p :| 0 <= p < |a| && a[p] == b[i];
      var q :| 0 <= q < |a| && a[q] == b[j];
      if p == q {
        assert b == b[..j] + [b[j]] + b[j + 1..];
        assert b[..j][i] == b[i];
        assert b[i] in multiset(b[..j]);
        assert multiset(b)[b[i]] >= 2;
        DistinctOnce(a, key, b[i]);
      }
    }
  }
}
