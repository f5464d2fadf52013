/** The data behind the three dashboard charts: spend per category, spend per
    month for the latest six months with data, and spend per day over the last
    seven days. */
module Charts {
  import opened Expenses
  import opened Tally
  import opened Sorting
  import opened Stats

  /** The category chart's dictionary: one entry per category present, in order
      of first appearance, holding that category's spend; together they add up
      to the total spend. */
  method CategoryTotals(s: seq<Expense>) returns (bs: seq<Bucket<Category>>)
    ensures Keys(bs) == FirstOccurrences(s, CategoryOf) && NoDup(Keys(bs))
    ensures Tallies(bs, s, AmountOf, CategoryOf)
    ensures Amounts(bs) == Total(s)
  {
    bs := GroupBy(s, AmountOf, CategoryOf);
    FirstOccurrencesSpec(s, CategoryOf);
    TalliedAmounts(bs, s, AmountOf, CategoryOf);
    SumWhereInAll(s, AmountOf, CategoryOf, Keys(bs));
  }

  function MonthKey(b: Bucket<int>): int { b.key }


  /** The monthly chart: the per-month spend sorted by (year, month) and cut to
      its last six entries. */
  method MonthlySeries(s: seq<Expense>) returns (r: seq<Bucket<int>>)
    ensures |r| == Min(6, |FirstOccurrences(s, MonthOfExpense)|)
    ensures forall i, j :: 0 <= i < j < |r| ==> r[i].key < r[j].key
    ensures Tallies(r, s, AmountOf, MonthOfExpense)
    ensures forall m :: m in Keys(r) ==> m in FirstOccurrences(s, MonthOfExpense)
    ensures forall m, i :: m in FirstOccurrences(s, MonthOfExpense) && m !in Keys(r) && 0 <= i < |r|
              ==> m < r[i].key
  {
    var buckets := GroupBy(s, AmountOf, MonthOfExpense);
    FirstOccurrencesSpec(s, MonthOfExpense);
    var sorted := SortBy(buckets, MonthKey);
    PermutedBuckets(buckets, sorted);
    PermutedTallies(buckets, sorted, s, AmountOf, MonthOfExpense);
    var start := |sorted| - Min(6, |sorted|);
    r := sorted[start..];
    LatestOfSorted(sorted, start);
  }

  /** A suffix of a list sorted by distinct keys is strictly ascending, and
      every key left out of it is below every key in it. */
  lemma LatestOfSorted(sorted: seq<Bucket<int>>, start: nat)
    requires start <= |sorted| && SortedBy(sorted, MonthKey) && NoDup(Keys(sorted))
    ensures var r := sorted[start..];
      forall i, j :: 0 <= i < j < |r| ==> r[i].key < r[j].key
    ensures var r := sorted[start..];
      forall m, i :: m in Keys(sorted) && m !in Keys(r) && 0 <= i < |r| ==> m < r[i].key
    ensures forall m :: m in Keys(sorted[start..]) ==> m in Keys(sorted)
    ensures forall s, w, key :: Tallies(sorted, s, w, key) ==> Tallies(sorted[start..], s, w, key)
  {
    var r := sorted[start..];
    forall m | m in Keys(r) ensures m in Keys(sorted) {
      var p :| 0 <= p < |r| && Keys(r)[p] == m;
      assert Keys(sorted)[start + p] == m;
    }
    forall s, w, key, i | Tallies(sorted, s, w, key) && 0 <= i < |r|
      ensures r[i].amount == SumWhere(s, w, key, r[i].key)
    {
      assert r[i] == sorted[start + i];
    }
    forall i, j | 0 <= i < j < |r| ensures r[i].key < r[j].key {
      assert r[i] == sorted[start + i] && r[j] == sorted[start + j];
      assert Keys(sorted)[start + i] != Keys(sorted)[start + j];
    }
    forall q | start <= q < |sorted| ensures Keys(sorted)[q] in Keys(r) {
      assert Keys(r)[q - start] == Keys(sorted)[q];
    }
    forall m, i | m in Keys(sorted) && m !in Keys(r) && 0 <= i < |r| ensures m < r[i].key {
      var p :| 0 <= p < |sorted| && Keys(sorted)[p] == m;
      assert p < start;
      assert MonthKey(sorted[p]) <= MonthKey(sorted[start + i]);
      assert Keys(sorted)[p] != Keys(sorted)[start + i];
    }
  }

  /** The seven days ending today, oldest first. */
  function Window(today: Day): (days: seq<Day>)
    ensures |days| == 7 && NoDup(days)
    ensures forall d :: d in days <==> today - 6 <= d <= today
    ensures forall i, j :: 0 <= i < j < |days| ==> days[i] < days[j]
  {
    var days := seq(7, k requires 0 <= k < 7 => today - 6 + k);
    forall d | today - 6 <= d <= today ensures d in days {
      assert days[d - today + 6] == d;
    }
    days
  }

  /** The trend chart: a dictionary with today and the six days before it, in
      that order from the oldest, all at zero; then each record dated on one of
      those days adds its amount there. */
  method Trend(s: seq<Expense>, today: Day) returns (r: seq<Bucket<Day>>)
    ensures Keys(r) == Window(today)
    ensures Tallies(r, s, AmountOf, DateOf)
    ensures Amounts(r) == SumWhereIn(s, AmountOf, DateOf, Window(today))
  {
    var keys: seq<Day> := [];
    var totals: map<Day, int> := map[];
    var i := 6;
    while i >= 0
      invariant -1 <= i <= 6
      invariant keys == Window(today)[..6 - i]
      invariant forall d :: d in totals <==> d in keys
      invariant forall d :: d in totals ==> totals[d] == 0
    {
      var day := today - i;
      keys := keys + [day];
      totals := totals[day := 0];
      i := i - 1;
    }
    assert keys == Window(today);
    var j := 0;
    while j < |s|
      invariant 0 <= j <= |s|
      invariant forall d :: d in totals <==> d in keys
      invariant forall d :: d in totals ==> totals[d] == SumWhere(s[..j], AmountOf, DateOf, d)
    {
      assert s[..j + 1][..j] == s[..j];
      var e := s[j];
      if e.date in totals {
        totals := totals[e.date := totals[e.date] + e.amount];
      }
      forall d | d in totals ensures totals[d] == SumWhere(s[..j + 1], AmountOf, DateOf, d) {
        assert SumWhere(s[..j + 1], AmountOf, DateOf, d)
          == SumWhere(s[..j], AmountOf, DateOf, d) + (if e.date == d then e.amount else 0);
      }
      j := j + 1;
    }
    assert s[..|s|] == s;
    r := seq(7, k requires 0 <= k < 7 => Bucket(keys[k], totals[keys[k]]));
    assert Keys(r) == keys;
    TalliedAmounts(r, s, AmountOf, DateOf);
  }
}
