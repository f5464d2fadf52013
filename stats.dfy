/** The summary figures: total spend, month-to-date spend and total absolute
    votes (the statistics cards), and maximum, minimum, rounded average and most
    frequent category (the quick-statistics panel). */
module Stats {
  import opened Expenses
  import opened Tally
  import opened Sorting

  /** Total spend: the sum of all amounts. */
  function Total(s: seq<Expense>): int {
    Sum(s, AmountOf)
  }

  /** Spend in the calendar month (and year) of `now`: the records of that
      month, filtered out and then summed. */
  function MonthToDate(s: seq<Expense>, now: Day): int {
    Total(Where(s, MonthOfExpense, MonthOf(now)))
  }

  /** The sum of the magnitudes of all vote scores. */
  function TotalAbsVotes(s: seq<Expense>): int {
    Sum(s, AbsVotes)
  }

  /** Month-to-date spend is the bucket of the current month in the per-month
      grouping that the monthly chart uses. */
  lemma MonthToDateIsMonthBucket(s: seq<Expense>, now: Day)
    ensures MonthToDate(s, now) == SumWhere(s, AmountOf, MonthOfExpense, MonthOf(now))
  {
    SumOfWhere(s, AmountOf, MonthOfExpense, MonthOf(now));
  }

  /** The vote total is never negative, and is zero exactly when no record has
      a vote score other than zero. */
  lemma {:induction false} TotalAbsVotesSpec(s: seq<Expense>)
    ensures TotalAbsVotes(s) >= 0
    ensures TotalAbsVotes(s) == 0 <==> forall i :: 0 <= i < |s| ==> s[i].votes == 0
  {
    if s != [] {
      var init := s[..|s| - 1];
      TotalAbsVotesSpec(init);
      forall i | 0 <= i < |init| ensures init[i] == s[i] { }
    }
  }

  /** Every amount lies between `lo` and `hi`, so the total lies between
      `|s| * lo` and `|s| * hi`. */
  lemma {:induction false} TotalBounds(s: seq<Expense>, lo: int, hi: int)
    requires forall i :: 0 <= i < |s| ==> lo <= s[i].amount <= hi
    ensures |s| * lo <= Total(s) <= |s| * hi
  {
    if s != [] {
      var init := s[..|s| - 1];
      TotalBounds(init, lo, hi);
      assert |s| * lo == |init| * lo + lo;
      assert |s| * hi == |init| * hi + hi;
    }
  }

  /** `Math.max(...xs)` on a non-empty list. */
  function MaxOf(xs: seq<int>): (m: int)
    requires |xs| > 0
    ensures m in xs && forall i :: 0 <= i < |xs| ==> xs[i] <= m
  {
    if |xs| == 1 then xs[0]
    else
      var m := MaxOf(xs[..|xs| - 1]);
      if xs[|xs| - 1] > m then xs[|xs| - 1] else m
  }

  /** `Math.min(...xs)` on a non-empty list. */
  function MinOf(xs: seq<int>): (m: int)
    requires |xs| > 0
    ensures m in xs && forall i :: 0 <= i < |xs| ==> m <= xs[i]
  {
    if |xs| == 1 then xs[0]
    else
      var m := MinOf(xs[..|xs| - 1]);
      if xs[|xs| - 1] < m then xs[|xs| - 1] else m
  }

  /** `Math.round(sum / n)`: the integer nearest to the mean, halves rounded up. */
  function RoundHalfUp(sum: int, n: int): (r: int)
    requires n > 0
    ensures 2 * n * r - n <= 2 * sum < 2 * n * r + n
  {
    var q := (2 * sum + n) / (2 * n);
    assert (2 * n) * q + (2 * sum + n) % (2 * n) == 2 * sum + n;
    q
  }

  /** A rounded mean of values in [lo, hi] is in [lo, hi]. */
  lemma RoundedBetween(sum: int, n: int, lo: int, hi: int)
    requires n > 0 && n * lo <= sum <= n * hi
    ensures lo <= RoundHalfUp(sum, n) <= hi
  {
    var r := RoundHalfUp(sum, n);
    assert 2 * n * r < 2 * n * (hi + 1) by {
      assert 2 * n * r - n <= 2 * n * hi;
    }
    assert 2 * n * (lo - 1) < 2 * n * r by {
      assert 2 * n * lo <= 2 * sum;
    }
    ScaleMonotone(r, hi + 1, 2 * n);
    ScaleMonotone(lo - 1, r, 2 * n);
  }

  /** Multiplying by a positive factor keeps `>=`. */
  lemma ScaleMonotone(a: int, b: int, d: int)
    requires d > 0
    ensures a >= b ==> d * a >= d * b
  {
    if a >= b {
      assert d * a - d * b == d * (a - b);
    }
  }

  /** The number of records in category `c`. */
  function CountOf(s: seq<Expense>, c: Category): int {
    SumWhere(s, One, CategoryOf, c)
  }

  lemma {:induction false} CountOfNonNegative(s: seq<Expense>, c: Category)
    ensures CountOf(s, c) >= 0
  {
    if s != [] {
      CountOfNonNegative(s[..|s| - 1], c);
    }
  }

  function NegAmount<K>(b: Bucket<K>): int { -b.amount }

  /** `Object.entries(categoryCount).sort((a, b) => b[1] - a[1])[0]`: the
      category with the most records, ties going to the one that appeared first. */
  method TopCategory(s: seq<Expense>) returns (top: Category)
    requires |s| > 0
    ensures forall c :: CountOf(s, c) <= CountOf(s, top)
    ensures var cats := FirstOccurrences(s, CategoryOf);
      exists i :: 0 <= i < |cats| && cats[i] == top
                  && forall j :: 0 <= j < i ==> CountOf(s, cats[j]) < CountOf(s, top)
  {
    var counts := GroupBy(s, One, CategoryOf);
    FirstOccurrencesSpec(s, CategoryOf);
    assert s[0].category in Keys(counts);
    var ranked := SortBy(counts, NegAmount);
    SortByHead(counts, NegAmount);
    var m := FirstMinIndex(counts, NegAmount);
    top := ranked[0].key;
    assert top == Keys(counts)[m];
    forall c ensures CountOf(s, c) <= CountOf(s, top) {
      if c in Keys(counts) {
        var j :| 0 <= j < |counts| && Keys(counts)[j] == c;
        assert NegAmount(counts[m]) <= NegAmount(counts[j]);
      } else {
        SumWhereAbsent(s, One, CategoryOf, c);
        CountOfNonNegative(s, top);
      }
    }
    forall j | 0 <= j < m ensures CountOf(s, Keys(counts)[j]) < CountOf(s, top) {
      assert NegAmount(counts[m]) < NegAmount(counts[j]);
    }
  }

  datatype QuickStats = QuickStats(max: int, min: int, average: int, topCategory: Category)

  /** The quick-statistics panel: nothing for an empty ledger; otherwise the
      largest and smallest amount, the rounded average amount and the category
      with the most records, ties going to the category that appeared first. */
  method QuickStatsOf(s: seq<Expense>) returns (r: Option<QuickStats>)
    ensures r.None? <==> |s| == 0
    ensures r.Some? ==>
      var q := r.value;
      && (forall i :: 0 <= i < |s| ==> q.min <= s[i].amount <= q.max)
      && (exists i :: 0 <= i < |s| && s[i].amount == q.max)
      && (exists i :: 0 <= i < |s| && s[i].amount == q.min)
      && 2 * |s| * q.average - |s| <= 2 * Total(s) < 2 * |s| * q.average + |s|
      && q.min <= q.average <= q.max
    ensures r.Some? ==>
      var top, cats := r.value.topCategory, FirstOccurrences(s, CategoryOf);
      && (forall c :: CountOf(s, c) <= CountOf(s, top))
      && (exists i :: 0 <= i < |cats| && cats[i] == top
                      && forall j :: 0 <= j < i ==> CountOf(s, cats[j]) < CountOf(s, top))
  {
    if |s| == 0 {
      return None;
    }
    var amounts := seq(|s|, i requires 0 <= i < |s| => s[i].amount);
    var max := MaxOf(amounts);
    var min := MinOf(amounts);
    forall i | 0 <= i < |s| ensures min <= s[i].amount <= max {
      assert amounts[i] == s[i].amount;
    }
    var hi :| 0 <= hi < |amounts| && amounts[hi] == max;
    var lo :| 0 <= lo < |amounts| && amounts[lo] == min;
    assert s[hi].amount == max && s[lo].amount == min;
    var avg := RoundHalfUp(Total(s), |s|);
    assert min <= avg <= max by {
      TotalBounds(s, min, max);
      RoundedBetween(Total(s), |s|, min, max);
    }
    var top := TopCategory(s);
    r := Some(QuickStats(max, min, avg, top));
  }
}
