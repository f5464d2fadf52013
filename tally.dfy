/** Sums over the ledger and the dictionary-building loop shared by the
    aggregates: per-category totals, per-month totals and per-category counts
    are all built by one pass that keeps a running sum per key, with the keys in
    order of first occurrence (the order of `Object.keys` on the dictionary). */
module Tally {
  import opened Expenses

  /** One entry of a dictionary built over the ledger: a key and its sum. */
  datatype Bucket<K> = Bucket(key: K, amount: int)

  function Keys<K>(bs: seq<Bucket<K>>): (ks: seq<K>)
    ensures |ks| == |bs| && forall i :: 0 <= i < |bs| ==> ks[i] == bs[i].key
  {
    seq(|bs|, i requires 0 <= i < |bs| => bs[i].key)
  }

  function Amounts<K>(bs: seq<Bucket<K>>): int {
    if bs == [] then 0 else bs[0].amount + Amounts(bs[1..])
  }

  predicate NoDup<T(==)>(s: seq<T>) {
    forall i, j :: 0 <= i < j < |s| ==> s[i] != s[j]
  }

  /** `reduce((sum, e) => sum + w(e), 0)` over the records. */
  function Sum(s: seq<Expense>, w: Expense -> int): int {
    if s == [] then 0 else Sum(s[..|s| - 1], w) + w(s[|s| - 1])
  }

  /** The sum of `w` over the records whose key is `k`. */
  function SumWhere<K(==)>(s: seq<Expense>, w: Expense -> int, key: Expense -> K, k: K): int {
    if s == [] then 0
    else SumWhere(s[..|s| - 1], w, key, k) + (if key(s[|s| - 1]) == k then w(s[|s| - 1]) else 0)
  }

  /** The sum of `w` over the records whose key is one of `ks`. */
  function SumWhereIn<K(==)>(s: seq<Expense>, w: Expense -> int, key: Expense -> K, ks: seq<K>): int {
    if s == [] then 0
    else SumWhereIn(s[..|s| - 1], w, key, ks) + (if key(s[|s| - 1]) in ks then w(s[|s| - 1]) else 0)
  }

  /** The per-key sums of the keys `ks`, added up. */
  function SumOverKeys<K(==)>(s: seq<Expense>, w: Expense -> int, key: Expense -> K, ks: seq<K>): int {
    if ks == [] then 0 else SumWhere(s, w, key, ks[0]) + SumOverKeys(s, w, key, ks[1..])
  }

  /** `filter(e => key(e) === k)`: the records with key `k`, in their order. */
  function Where<K(==)>(s: seq<Expense>, key: Expense -> K, k: K): (r: seq<Expense>)
    ensures forall e :: e in r <==> e in s && key(e) == k
  {
    if s == [] then []
    else
      assert s == s[..|s| - 1] + [s[|s| - 1]];
      Where(s[..|s| - 1], key, k) + (if key(s[|s| - 1]) == k then [s[|s| - 1]] else [])
  }

  /** The distinct keys of the records in order of first occurrence. */
  function FirstOccurrences<K(==)>(s: seq<Expense>, key: Expense -> K): seq<K> {
    if s == [] then []
    else
      var ks := FirstOccurrences(s[..|s| - 1], key);
      if key(s[|s| - 1]) in ks then ks else ks + [key(s[|s| - 1])]
  }

  /** Every bucket holds the sum of its key's records. */
  predicate Tallies<K(==)>(bs: seq<Bucket<K>>, s: seq<Expense>, w: Expense -> int, key: Expense -> K) {
    forall i :: 0 <= i < |bs| ==> bs[i].amount == SumWhere(s, w, key, bs[i].key)
  }

  /** The keys in first-occurrence order are distinct and are exactly the keys
      that some record has. */
  lemma {:induction false} FirstOccurrencesSpec<K>(s: seq<Expense>, key: Expense -> K)
    ensures NoDup(FirstOccurrences(s, key))
    ensures forall i :: 0 <= i < |s| ==> key(s[i]) in FirstOccurrences(s, key)
    ensures forall k :: k in FirstOccurrences(s, key) ==> exists i :: 0 <= i < |s| && key(s[i]) == k
  {
    if s != [] {
      var init := s[..|s| - 1];
      FirstOccurrencesSpec(init, key);
      forall k | k in FirstOccurrences(s, key) ensures exists i :: 0 <= i < |s| && key(s[i]) == k {
        if k in FirstOccurrences(init, key) {
          var i :| 0 <= i < |init| && key(init[i]) == k;
          assert key(s[i]) == k;
        }
      }
      forall i | 0 <= i < |s| ensures key(s[i]) in FirstOccurrences(s, key) {
        if i < |init| {
          assert s[i] == init[i];
        }
      }
    }
  }

  /** A key no record has sums to zero. */
  lemma {:induction false} SumWhereAbsent<K>(s: seq<Expense>, w: Expense -> int, key: Expense -> K, k: K)
    requires forall i :: 0 <= i < |s| ==> key(s[i]) != k
    ensures SumWhere(s, w, key, k) == 0
  {
    if s != [] {
      SumWhereAbsent(s[..|s| - 1], w, key, k);
    }
  }

  /** Adding a record in front adds its weight. */
  lemma {:induction false} SumPrepend(e: Expense, s: seq<Expense>, w: Expense -> int)
    ensures Sum([e] + s, w) == w(e) + Sum(s, w)
  {
    if s != [] {
      SumPrepend(e, s[..|s| - 1], w);
      assert ([e] + s)[..|s|] == [e] + s[..|s| - 1];
    }
  }

  /** Filtering and then summing is the keyed sum. */
  lemma {:induction false} SumOfWhere<K>(s: seq<Expense>, w: Expense -> int, key: Expense -> K, k: K)
    ensures Sum(Where(s, key, k), w) == SumWhere(s, w, key, k)
  {
    if s != [] {
      var init, last := s[..|s| - 1], s[|s| - 1];
      SumOfWhere(init, w, key, k);
      if key(last) == k {
        assert Where(s, key, k) == Where(init, key, k) + [last];
        assert (Where(init, key, k) + [last])[..|Where(init, key, k)|] == Where(init, key, k);
      } else {
        assert Where(s, key, k) == Where(init, key, k);
      }
    }
  }

  lemma {:induction false} SumWhereInCons<K>(s: seq<Expense>, w: Expense -> int, key: Expense -> K, k: K, ks: seq<K>)
    requires k !in ks
    ensures SumWhereIn(s, w, key, [k] + ks) == SumWhere(s, w, key, k) + SumWhereIn(s, w, key, ks)
  {
    if s != [] {
      SumWhereInCons(s[..|s| - 1], w, key, k, ks);
    }
  }

  /** Summing the per-key sums over distinct keys is summing over the records
      that have one of those keys: each record is counted once. */
  lemma {:induction false} Partition<K>(s: seq<Expense>, w: Expense -> int, key: Expense -> K, ks: seq<K>)
    requires NoDup(ks)
    ensures SumOverKeys(s, w, key, ks) == SumWhereIn(s, w, key, ks)
  {
    if ks == [] {
      SumWhereInEmpty(s, w, key);
    } else {
      assert ks == [ks[0]] + ks[1..];
      assert NoDup(ks[1..]);
      Partition(s, w, key, ks[1..]);
      SumWhereInCons(s, w, key, ks[0], ks[1..]);
    }
  }

  lemma {:induction false} SumWhereInEmpty<K>(s: seq<Expense>, w: Expense -> int, key: Expense -> K)
    ensures SumWhereIn(s, w, key, []) == 0
  {
    if s != [] {
      SumWhereInEmpty(s[..|s| - 1], w, key);
    }
  }

  /** When every record's key is among `ks`, the sum over `ks` is the whole sum. */
  lemma {:induction false} SumWhereInAll<K>(s: seq<Expense>, w: Expense -> int, key: Expense -> K, ks: seq<K>)
    requires forall i :: 0 <= i < |s| ==> key(s[i]) in ks
    ensures SumWhereIn(s, w, key, ks) == Sum(s, w)
  {
    if s != [] {
      SumWhereInAll(s[..|s| - 1], w, key, ks);
    }
  }

  /** Buckets that hold their keys' sums, with distinct keys, add up to the
      sum over the records having one of those keys. */
  lemma {:induction false} TalliedAmounts<K>(bs: seq<Bucket<K>>, s: seq<Expense>, w: Expense -> int, key: Expense -> K)
    requires Tallies(bs, s, w, key) && NoDup(Keys(bs))
    ensures Amounts(bs) == SumWhereIn(s, w, key, Keys(bs))
  {
    TalliedOverKeys(bs, s, w, key);
    Partition(s, w, key, Keys(bs));
  }

  lemma {:induction false} TalliedOverKeys<K>(bs: seq<Bucket<K>>, s: seq<Expense>, w: Expense -> int, key: Expense -> K)
    requires Tallies(bs, s, w, key)
    ensures Amounts(bs) == SumOverKeys(s, w, key, Keys(bs))
  {
    if bs != [] {
      assert Keys(bs)[1..] == Keys(bs[1..]);
      assert Tallies(bs[1..], s, w, key) by {
        forall i | 0 <= i < |bs| - 1 ensures bs[1..][i].amount == SumWhere(s, w, key, bs[1..][i].key) {
          assert bs[1..][i] == bs[i + 1];
        }
      }
      TalliedOverKeys(bs[1..], s, w, key);
    }
  }

  /** Reordering buckets keeps their keys distinct and their contents. */
  lemma PermutedBuckets<K>(a: seq<Bucket<K>>, b: seq<Bucket<K>>)
    requires multiset(a) == multiset(b) && NoDup(Keys(a))
    ensures NoDup(Keys(b))
    ensures forall x :: x in b <==> x in a
    ensures forall k :: k in Keys(b) <==> k in Keys(a)
  {
    forall x | x in b ensures x in a {
      assert x in multiset(b);
    }
    forall x | x in a ensures x in b {
      assert x in multiset(a);
    }
    forall k | k in Keys(a) ensures k in Keys(b) {
      var p :| 0 <= p < |a| && Keys(a)[p] == k;
      assert a[p] in b;
      var q :| 0 <= q < |b| && b[q] == a[p];
      assert Keys(b)[q] == k;
    }
    forall k | k in Keys(b) ensures k in Keys(a) {
      var p :| 0 <= p < |b| && Keys(b)[p] == k;
      assert b[p] in a;
      var q :| 0 <= q < |a| && a[q] == b[p];
      assert Keys(a)[q] == k;
    }
    forall i, j | 0 <= i < j < |b| ensures b[i].key != b[j].key {
      KeyDeterminesBucket(a, b[i], b[j]);
      AtMostOnce(a, b[i]);
      AtLeastTwice(b, i, j);
    }
  }

  /** Reordering a correct dictionary keeps it correct. */
  lemma PermutedTallies<K>(a: seq<Bucket<K>>, b: seq<Bucket<K>>, s: seq<Expense>, w: Expense -> int, key: Expense -> K)
    requires multiset(a) == multiset(b) && Tallies(a, s, w, key)
    ensures Tallies(b, s, w, key)
  {
    forall i | 0 <= i < |b| ensures b[i].amount == SumWhere(s, w, key, b[i].key) {
      assert b[i] in multiset(a);
      var q :| 0 <= q < |a| && a[q] == b[i];
    }
  }

  /** With distinct keys, a key determines its bucket. */
  lemma KeyDeterminesBucket<K>(a: seq<Bucket<K>>, x: Bucket<K>, y: Bucket<K>)
    requires NoDup(Keys(a)) && x in a && y in a
    ensures x.key == y.key ==> x == y
  {
    var p :| 0 <= p < |a| && a[p] == x;
    var q :| 0 <= q < |a| && a[q] == y;
    assert Keys(a)[p] == x.key && Keys(a)[q] == y.key;
  }

  /** With distinct keys, no bucket occurs twice. */
  lemma {:induction false} AtMostOnce<K>(a: seq<Bucket<K>>, x: Bucket<K>)
    requires NoDup(Keys(a))
    ensures multiset(a)[x] <= 1
  {
    if a != [] {
      var init := a[..|a| - 1];
      assert Keys(init) == Keys(a)[..|a| - 1];
      AtMostOnce(init, x);
      assert a == init + [a[|a| - 1]];
      forall i | 0 <= i < |init| ensures init[i] != a[|a| - 1] {
        assert Keys(a)[i] != Keys(a)[|a| - 1];
      }
      assert a[|a| - 1] !in init;
      assert multiset(a) == multiset(init) + multiset{a[|a| - 1]};
    }
  }

  lemma AtLeastTwice<T>(b: seq<T>, i: nat, j: nat)
    requires i < j < |b|
    ensures b[i] == b[j] ==> multiset(b)[b[i]] >= 2
  {
    assert b == b[..j] + [b[j]] + b[j + 1..];
    assert b[i] == b[..j][i];
    assert multiset(b) == multiset(b[..j]) + multiset{b[j]} + multiset(b[j + 1..]);
  }

  /** The forEach that fills a dictionary: for each record, in order, create
      the record's key with 0 if it is new and add the record's weight to it;
      then list the entries in key-insertion order. */
  method GroupBy<K(==)>(s: seq<Expense>, w: Expense -> int, key: Expense -> K) returns (bs: seq<Bucket<K>>)
    ensures Keys(bs) == FirstOccurrences(s, key)
    ensures Tallies(bs, s, w, key)
    ensures bs == Tallied(s, w, key)
  {
    var keys: seq<K> := [];
    var sums: map<K, int> := map[];
    var i := 0;
    while i < |s|
      invariant 0 <= i <= |s|
      invariant keys == FirstOccurrences(s[..i], key)
      invariant forall k :: k in sums <==> k in keys
      invariant forall k :: k in sums ==> sums[k] == SumWhere(s[..i], w, key, k)
    {
      assert s[..i + 1][..i] == s[..i];
      var k := key(s[i]);
      if k !in sums {
        FirstOccurrencesSpec(s[..i], key);
        SumWhereAbsent(s[..i], w, key, k);
        keys := keys + [k];
        sums := sums[k := 0];
      }
      sums := sums[k := sums[k] + w(s[i])];
      forall k' | k' in sums ensures sums[k'] == SumWhere(s[..i + 1], w, key, k') {
        assert SumWhere(s[..i + 1], w, key, k')
          == SumWhere(s[..i], w, key, k') + (if key(s[i]) == k' then w(s[i]) else 0);
      }
      i := i + 1;
    }
    assert s[..|s|] == s;
    bs := seq(|keys|, j requires 0 <= j < |keys| => Bucket(keys[j], sums[keys[j]]));
    TalliedUnique(bs, s, w, key);
  }

  /** The dictionary a correct grouping yields: one bucket per key in
      first-occurrence order, holding that key's sum. */
  function Tallied<K(==)>(s: seq<Expense>, w: Expense -> int, key: Expense -> K): (bs: seq<Bucket<K>>)
    ensures Keys(bs) == FirstOccurrences(s, key) && Tallies(bs, s, w, key)
  {
    var ks := FirstOccurrences(s, key);
    seq(|ks|, i requires 0 <= i < |ks| => Bucket(ks[i], SumWhere(s, w, key, ks[i])))
  }

  /** The keys in first-occurrence order and the sums determine the dictionary. */
  lemma TalliedUnique<K>(bs: seq<Bucket<K>>, s: seq<Expense>, w: Expense -> int, key: Expense -> K)
    requires Keys(bs) == FirstOccurrences(s, key) && Tallies(bs, s, w, key)
    ensures bs == Tallied(s, w, key)
  {
    var t := Tallied(s, w, key);
    assert |bs| == |t|;
    forall i | 0 <= i < |bs| ensures bs[i] == t[i] {
      assert Keys(bs)[i] == Keys(t)[i];
    }
  }
}
