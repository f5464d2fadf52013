/** The stable sort that every view uses (Array.prototype.sort on a copy, with
    a comparator of the form `key(a) - key(b)`), as an insertion sort ascending
    on an integer key; a descending order is an ascending order on the negated key. */
module Sorting {

  predicate SortedBy<T>(s: seq<T>, key: T -> int) {
    forall i, j :: 0 <= i < j < |s| ==> key(s[i]) <= key(s[j])
  }

  /** Places `x` into `t` after every element whose key is at most `key(x)`. */
  function Insert<T(==)>(t: seq<T>, x: T, key: T -> int): (r: seq<T>)
    ensures |r| == |t| + 1
    ensures multiset(r) == multiset(t) + multiset{x}
    ensures forall y :: y in r ==> y in t || y == x
  {
    if t == [] || key(t[|t| - 1]) <= key(x) then t + [x]
    else
      var init := t[..|t| - 1];
      assert t == init + [t[|t| - 1]];
      Insert(init, x, key) + [t[|t| - 1]]
  }

  lemma {:induction false} InsertSorted<T>(t: seq<T>, x: T, key: T -> int)
    requires SortedBy(t, key)
    ensures SortedBy(Insert(t, x, key), key)
  {
    if t != [] && key(t[|t| - 1]) > key(x) {
      var last := t[|t| - 1];
      var init := t[..|t| - 1];
      assert SortedBy(init, key);
      InsertSorted(init, x, key);
      var r' := Insert(init, x, key);
      forall y | y in r' ensures key(y) <= key(last) {
        if y != x {
          var k :| 0 <= k < |init| && init[k] == y;
          assert t[k] == y;
        }
      }
      assert forall i :: 0 <= i < |r'| ==> key(r'[i]) <= key(last) by {
        forall i | 0 <= i < |r'| ensures key(r'[i]) <= key(last) {
          assert r'[i] in r';
        }
      }
    }
  }

  /** The elements of `s` ordered by ascending key; equal keys keep their order
      (see SortByStable). */
  function SortBy<T(==)>(s: seq<T>, key: T -> int): (r: seq<T>)
    ensures |r| == |s|
    ensures multiset(r) == multiset(s)
    ensures SortedBy(r, key)
  {
    if s == [] then []
    else
      assert s == s[..|s| - 1] + [s[|s| - 1]];
      InsertSorted(SortBy(s[..|s| - 1], key), s[|s| - 1], key);
      Insert(SortBy(s[..|s| - 1], key), s[|s| - 1], key)
  }

  /** The elements of `s` whose key is `k`, in their order in `s`. */
  function Having<T>(s: seq<T>, key: T -> int, k: int): seq<T> {
    if s == [] then []
    else Having(s[..|s| - 1], key, k) + (if key(s[|s| - 1]) == k then [s[|s| - 1]] else [])
  }

  /** Inserting `x` places it after every element with the same key. */
  lemma {:induction false} InsertStable<T>(t: seq<T>, x: T, key: T -> int, k: int)
    ensures Having(Insert(t, x, key), key, k) == Having(t, key, k) + (if key(x) == k then [x] else [])
  {
    if t == [] || key(t[|t| - 1]) <= key(x) {
      assert (t + [x])[..|t|] == t;
    } else {
      var init, last := t[..|t| - 1], t[|t| - 1];
      InsertStable(init, x, key, k);
      var r' := Insert(init, x, key);
      assert (r' + [last])[..|r'|] == r';
    }
  }

  /** The sort is stable: the elements sharing any one key come out in the
      order they went in. */
  lemma {:induction false} SortByStable<T>(s: seq<T>, key: T -> int, k: int)
    ensures Having(SortBy(s, key), key, k) == Having(s, key, k)
  {
    if s != [] {
      var init := s[..|s| - 1];
      SortByStable(init, key, k);
      InsertStable(SortBy(init, key), s[|s| - 1], key, k);
    }
  }

  /** The elements with key `k` in a prefix are a prefix of those in the whole. */
  lemma {:induction false} HavingPrefix<T>(s: seq<T>, n: nat, key: T -> int, k: int)
    requires n <= |s|
    ensures Having(s[..n], key, k) <= Having(s, key, k)
  {
    if n == |s| {
      assert s[..n] == s;
    } else {
      var init := s[..|s| - 1];
      HavingPrefix(init, n, key, k);
      assert init[..n] == s[..n];
    }
  }

  /** Position of the first element with the least key. */
  function FirstMinIndex<T>(s: seq<T>, key: T -> int): (i: nat)
    requires |s| > 0
    ensures i < |s|
    ensures forall j :: 0 <= j < |s| ==> key(s[i]) <= key(s[j])
    ensures forall j :: 0 <= j < i ==> key(s[i]) < key(s[j])
  {
    if |s| == 1 then 0
    else
      var i := FirstMinIndex(s[..|s| - 1], key);
      if key(s[|s| - 1]) < key(s[i]) then |s| - 1 else i
  }

  /** Sorting what is already sorted changes nothing (in particular, a constant
      key keeps the original order). */
  lemma {:induction false} SortBySortedIsIdentity<T>(s: seq<T>, key: T -> int)
    requires SortedBy(s, key)
    ensures SortBy(s, key) == s
  {
    if s != [] {
      var init, last := s[..|s| - 1], s[|s| - 1];
      SortedInit(s, key);
      SortBySortedIsIdentity(init, key);
      assert s == init + [last];
    }
  }

  /** Dropping the last element keeps a sequence sorted, and that element has
      the greatest key. */
  lemma SortedInit<T>(s: seq<T>, key: T -> int)
    requires SortedBy(s, key) && |s| > 0
    ensures SortedBy(s[..|s| - 1], key)
    ensures |s| > 1 ==> key(s[..|s| - 1][|s| - 2]) <= key(s[|s| - 1])
  {
    var init := s[..|s| - 1];
    forall i, j | 0 <= i < j < |init| ensures key(init[i]) <= key(init[j]) {
      assert init[i] == s[i] && init[j] == s[j];
    }
  }

  lemma {:induction false} InsertHead<T>(t: seq<T>, x: T, key: T -> int)
    requires SortedBy(t, key)
    ensures Insert(t, x, key)[0] == if t != [] && key(t[0]) <= key(x) then t[0] else x
  {
    if t != [] && key(t[|t| - 1]) > key(x) {
      var init := t[..|t| - 1];
      if init != [] {
        assert SortedBy(init, key);
        InsertHead(init, x, key);
      }
    }
  }

  /** The head of a sorted sequence is the first element with the least key:
      ties are broken by original position. */
  lemma {:induction false} SortByHead<T>(s: seq<T>, key: T -> int)
    requires |s| > 0
    ensures SortBy(s, key)[0] == s[FirstMinIndex(s, key)]
  {
    var init := s[..|s| - 1];
    if init != [] {
      SortByHead(init, key);
      InsertHead(SortBy(init, key), s[|s| - 1], key);
    }
  }
}
