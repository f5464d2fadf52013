/** The three list views: the filtered and sorted expense table, the five
    most-voted records and the per-category breakdown. */
module Lists {
  import opened Expenses
  import opened Tally
  import opened Sorting
  import opened Stats

  /** The table's sort selector; `Unsorted` stands for any other value, whose
      comparator returns 0. */
  datatype SortOrder = DateDesc | DateAsc | AmountDesc | AmountAsc | Unsorted

  /** The comparator `key(a) - key(b)` of each order, as the key it subtracts. */
  function Rank(order: SortOrder): Expense -> int {
    match order
    case DateDesc => (e: Expense) => -e.date
    case DateAsc => (e: Expense) => e.date
    case AmountDesc => (e: Expense) => -e.amount
    case AmountAsc => (e: Expense) => e.amount
    case Unsorted => (e: Expense) => 0
  }

  /** The category filter: the empty selection shows every record. */
  function Shown(s: seq<Expense>, filter: Category): seq<Expense> {
    if filter == "" then s else Where(s, CategoryOf, filter)
  }

  /** The table rows: the shown records, stably sorted by the chosen order. */
  function TableRows(s: seq<Expense>, filter: Category, order: SortOrder): (r: seq<Expense>)
    ensures multiset(r) == multiset(Shown(s, filter))
    ensures forall e :: e in r <==> e in s && (filter == "" || e.category == filter)
    ensures SortedBy(r, Rank(order))
  {
    var r := SortBy(Shown(s, filter), Rank(order));
    assert forall e :: e in r <==> e in multiset(Shown(s, filter));
    r
  }

  /** Each order is what its name says. */
  lemma TableOrders(s: seq<Expense>, filter: Category)
    ensures var r := TableRows(s, filter, DateDesc);
      forall i, j :: 0 <= i < j < |r| ==> r[i].date >= r[j].date
    ensures var r := TableRows(s, filter, DateAsc);
      forall i, j :: 0 <= i < j < |r| ==> r[i].date <= r[j].date
    ensures var r := TableRows(s, filter, AmountDesc);
      forall i, j :: 0 <= i < j < |r| ==> r[i].amount >= r[j].amount
    ensures var r := TableRows(s, filter, AmountAsc);
      forall i, j :: 0 <= i < j < |r| ==> r[i].amount <= r[j].amount
  {
  }

  /** Under the default order the comparator always answers 0, and the stable
      sort leaves the shown records in ledger order. */
  lemma UnsortedKeepsLedgerOrder(s: seq<Expense>, filter: Category)
    ensures TableRows(s, filter, Unsorted) == Shown(s, filter)
  {
    SortBySortedIsIdentity(Shown(s, filter), Rank(Unsorted));
  }

  /** Rows with equal keys under the chosen order keep their ledger order. */
  lemma TableRowsStable(s: seq<Expense>, filter: Category, order: SortOrder)
    ensures forall k :: Having(TableRows(s, filter, order), Rank(order), k) == Having(Shown(s, filter), Rank(order), k)
  {
    forall k ensures Having(TableRows(s, filter, order), Rank(order), k) == Having(Shown(s, filter), Rank(order), k) {
      SortByStable(Shown(s, filter), Rank(order), k);
    }
  }

  function NegVotes(e: Expense): int { -e.votes }

  /** At most five records, the most voted first; equal scores keep ledger
      order (see TopVotedTies). */
  function TopVoted(s: seq<Expense>): (r: seq<Expense>)
    ensures |r| == Min(5, |s|)
    ensures forall i, j :: 0 <= i < j < |r| ==> r[i].votes >= r[j].votes
    ensures multiset(r) <= multiset(s)
  {
    var ranked := SortBy(s, NegVotes);
    var n := Min(5, |s|);
    assert ranked == ranked[..n] + ranked[n..];
    assert forall i, j :: 0 <= i < j < n ==> NegVotes(ranked[i]) <= NegVotes(ranked[j]);
    ranked[..n]
  }


  /** A record left out of the top list has no more votes than any record in it. */
  lemma TopVotedAreTop(s: seq<Expense>)
    ensures var r := TopVoted(s);
      forall e, i :: e in multiset(s) - multiset(r) && 0 <= i < |r| ==> e.votes <= r[i].votes
  {
    var ranked := SortBy(s, NegVotes);
    var n := Min(5, |s|);
    var r := TopVoted(s);
    assert r == ranked[..n];
    assert ranked == r + ranked[n..];
    assert multiset(s) - multiset(r) == multiset(ranked[n..]);
    forall e, i | e in multiset(s) - multiset(r) && 0 <= i < |r| ensures e.votes <= r[i].votes {
      assert e in ranked[n..];
      var k :| 0 <= k < |ranked[n..]| && ranked[n..][k] == e;
      assert NegVotes(ranked[i]) <= NegVotes(ranked[n + k]);
    }
  }

  /** Ties are settled by ledger order: for every score (key `k` is minus the
      score), the listed records with that score are the first records of the
      ledger with that score, in ledger order. */
  lemma TopVotedTies(s: seq<Expense>)
    ensures forall k :: Having(TopVoted(s), NegVotes, k) <= Having(s, NegVotes, k)
  {
    var ranked := SortBy(s, NegVotes);
    var n := Min(5, |s|);
    forall k ensures Having(TopVoted(s), NegVotes, k) <= Having(s, NegVotes, k) {
      HavingPrefix(ranked, n, NegVotes, k);
      SortByStable(s, NegVotes, k);
    }
  }

  /** The empty-state test of the top list: nothing listed, or every listed
      record has zero votes. */
  predicate NoVotesYet(top: seq<Expense>) {
    |top| == 0 || forall i :: 0 <= i < |top| ==> top[i].votes == 0
  }

  /** The empty state never hides a positive score, and it shows whenever every
      score is zero. (It does not show when the listed scores are all negative.) */
  lemma NoVotesYetMeans(s: seq<Expense>)
    ensures NoVotesYet(TopVoted(s)) ==> forall i :: 0 <= i < |s| ==> s[i].votes <= 0
    ensures (forall i :: 0 <= i < |s| ==> s[i].votes == 0) ==> NoVotesYet(TopVoted(s))
  {
    var ranked := SortBy(s, NegVotes);
    var r := TopVoted(s);
    if |s| > 0 {
      assert r[0] == ranked[0];
      forall i | 0 <= i < |s| ensures s[i].votes <= r[0].votes {
        assert s[i] in multiset(ranked);
        var k :| 0 <= k < |ranked| && ranked[k] == s[i];
        assert NegVotes(ranked[0]) <= NegVotes(ranked[k]);
      }
    }
    forall i | 0 <= i < |r| ensures r[i] in s {
      assert r[i] in multiset(s);
    }
  }

  /** The breakdown panel: nothing when the total spend is zero; otherwise the
      spend of every category present, largest first, adding up to the total;
      categories with equal spend keep the order in which they first appear. */
  method CategoryBreakdown(s: seq<Expense>) returns (r: Option<seq<Bucket<Category>>>)
    ensures r.None? <==> Total(s) == 0
    ensures r.Some? ==>
      var rows := r.value;
      && (forall i, j :: 0 <= i < j < |rows| ==> rows[i].amount >= rows[j].amount)
      && NoDup(Keys(rows))
      && Tallies(rows, s, AmountOf, CategoryOf)
      && (forall c :: c in Keys(rows) <==> exists i :: 0 <= i < |s| && s[i].category == c)
      && Amounts(rows) == Total(s)
    ensures r.Some? ==> forall k :: Having(r.value, NegAmount, k) == Having(Tallied(s, AmountOf, CategoryOf), NegAmount, k)
  {
    if Total(s) == 0 {
      return None;
    }
    var totals := GroupBy(s, AmountOf, CategoryOf);
    FirstOccurrencesSpec(s, CategoryOf);
    var rows := SortBy(totals, NegAmount);
    PermutedBuckets(totals, rows);
    PermutedTallies(totals, rows, s, AmountOf, CategoryOf);
    forall k ensures Having(rows, NegAmount, k) == Having(totals, NegAmount, k) {
      SortByStable(totals, NegAmount, k);
    }
    forall i, j | 0 <= i < j < |rows| ensures rows[i].amount >= rows[j].amount {
      assert NegAmount(rows[i]) <= NegAmount(rows[j]);
    }
    TalliedAmounts(rows, s, AmountOf, CategoryOf);
    SumWhereInAll(s, AmountOf, CategoryOf, Keys(rows));
    r := Some(rows);
  }
}
