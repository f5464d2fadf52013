/** The in-memory expense ledger and its mutations: add at the front, edit by
    id, delete by id, up- and down-vote, clear all. */
module Ledger {
  import opened Expenses
  import opened Tally

  /** The record built by the add form: trimmed name and note, no votes. */
  function NewExpense(id: int, d: Draft, createdAt: Timestamp): Expense {
    Expense(id, Trim(d.name), d.amount, d.category, d.date, Trim(d.note), 0, createdAt)
  }

  /** The ledger after editing the first record with this id: the spread of the
      old record overwritten with the trimmed form fields. */
  function Edited(s: seq<Expense>, id: int, d: Draft): seq<Expense> {
    match IndexOf(s, id)
    case None => s
    case Some(i) =>
      s[i := s[i].(name := Trim(d.name), amount := d.amount, category := d.category,
                   date := d.date, note := Trim(d.note))]
  }

  /** `filter(e => e.id !== id)`. */
  function Withdrawn(s: seq<Expense>, id: int): seq<Expense> {
    if s == [] then []
    else (if s[0].id != id then [s[0]] else []) + Withdrawn(s[1..], id)
  }

  /** Deletion keeps exactly the records whose id differs. */
  lemma {:induction false} WithdrawnMembers(s: seq<Expense>, id: int)
    ensures forall e :: e in Withdrawn(s, id) <==> e in s && e.id != id
  {
    if s != [] {
      WithdrawnMembers(s[1..], id);
      assert s == [s[0]] + s[1..];
    }
  }

  /** The ledger after adding `delta` to the votes of the first record with
      this id. */
  function Voted(s: seq<Expense>, id: int, delta: int): seq<Expense> {
    match IndexOf(s, id)
    case None => s
    case Some(i) => s[i := s[i].(votes := s[i].votes + delta)]
  }

  /** Lookup by id sees only the ids. */
  lemma {:induction false} IndexOfSameIds(s: seq<Expense>, t: seq<Expense>, id: int)
    requires |s| == |t| && forall j :: 0 <= j < |s| ==> s[j].id == t[j].id
    ensures IndexOf(s, id) == IndexOf(t, id)
  {
    if s != [] {
      IndexOfSameIds(s[1..], t[1..], id);
    }
  }

  /** Editing an absent id changes nothing; otherwise only the record found
      changes, keeping its id, votes and creation time and taking every other
      field from the form. */
  lemma EditedFrame(s: seq<Expense>, id: int, d: Draft)
    ensures IndexOf(s, id).None? ==> Edited(s, id, d) == s
    ensures IndexOf(s, id).Some? ==>
      var i, r := IndexOf(s, id).value, Edited(s, id, d);
      && |r| == |s|
      && (forall j :: 0 <= j < |s| && j != i ==> r[j] == s[j])
      && r[i].id == id && r[i].votes == s[i].votes && r[i].createdAt == s[i].createdAt
      && r[i].name == Trim(d.name) && r[i].amount == d.amount && r[i].category == d.category
      && r[i].date == d.date && r[i].note == Trim(d.note)
  {
  }

  /** Submitting the same edit twice is submitting it once. */
  lemma EditedIdempotent(s: seq<Expense>, id: int, d: Draft)
    ensures Edited(Edited(s, id, d), id, d) == Edited(s, id, d)
  {
    var r := Edited(s, id, d);
    IndexOfSameIds(s, r, id);
  }

  /** Deleting an id that no record has changes nothing. */
  lemma {:induction false} WithdrawnAbsent(s: seq<Expense>, id: int)
    requires forall j :: 0 <= j < |s| ==> s[j].id != id
    ensures Withdrawn(s, id) == s
  {
    if s != [] {
      WithdrawnAbsent(s[1..], id);
      assert s == [s[0]] + s[1..];
    }
  }

  /** Deletion keeps the relative order: it distributes over concatenation. */
  lemma {:induction false} WithdrawnAppend(a: seq<Expense>, b: seq<Expense>, id: int)
    ensures Withdrawn(a + b, id) == Withdrawn(a, id) + Withdrawn(b, id)
  {
    if a == [] {
      assert a + b == b;
    } else {
      var head := if a[0].id != id then [a[0]] else [];
      assert (a + b)[0] == a[0] && (a + b)[1..] == a[1..] + b;
      assert Withdrawn(a + b, id) == head + Withdrawn(a[1..] + b, id);
      WithdrawnAppend(a[1..], b, id);
      assert Withdrawn(a, id) == head + Withdrawn(a[1..], id);
      assert head + (Withdrawn(a[1..], id) + Withdrawn(b, id))
          == (head + Withdrawn(a[1..], id)) + Withdrawn(b, id);
    }
  }

  /** With unique ids, deleting a present id removes exactly that one record
      and the length drops by one. */
  lemma {:induction false} WithdrawnUnique(s: seq<Expense>, id: int)
    requires UniqueIds(s) && IndexOf(s, id).Some?
    ensures var i := IndexOf(s, id).value;
      Withdrawn(s, id) == s[..i] + s[i + 1..] && |Withdrawn(s, id)| == |s| - 1
  {
    var i := IndexOf(s, id).value;
    UniqueIdsTail(s);
    if s[0].id == id {
      WithdrawnAbsent(s[1..], id);
    } else {
      WithdrawnUnique(s[1..], id);
      SpliceCons(s, i);
    }
  }

  /** Removing index `i > 0` of `s` is keeping the head and removing index
      `i - 1` of the tail. */
  lemma SpliceCons(s: seq<Expense>, i: int)
    requires 0 < i < |s|
    ensures [s[0]] + (s[1..][..i - 1] + s[1..][i..]) == s[..i] + s[i + 1..]
  {
    assert [s[0]] + s[1..][..i - 1] == s[..i];
    assert s[1..][i..] == s[i + 1..];
  }

  /** The records after the first have unique ids, all different from the first's. */
  lemma UniqueIdsTail(s: seq<Expense>)
    requires UniqueIds(s) && |s| > 0
    ensures UniqueIds(s[1..])
    ensures forall j :: 0 <= j < |s| - 1 ==> s[1..][j].id != s[0].id
  {
    forall p, q | 0 <= p < q < |s| - 1 ensures s[1..][p].id != s[1..][q].id {
      assert s[1..][p] == s[p + 1] && s[1..][q] == s[q + 1];
    }
  }

  /** Voting changes nothing for an absent id; otherwise it changes only the
      votes of the first record with that id, by exactly `delta`. */
  lemma VotedFrame(s: seq<Expense>, id: int, delta: int)
    ensures IndexOf(s, id).None? ==> Voted(s, id, delta) == s
    ensures IndexOf(s, id).Some? ==>
      var i, r := IndexOf(s, id).value, Voted(s, id, delta);
      && |r| == |s|
      && (forall j :: 0 <= j < |s| && j != i ==> r[j] == s[j])
      && r[i].votes == s[i].votes + delta && r[i] == s[i].(votes := r[i].votes)
  {
  }

  /** A vote and the opposite vote on the same id cancel out: an upvote
      followed by a downvote restores the ledger, and the other way round. */
  lemma VotedInverse(s: seq<Expense>, id: int, delta: int)
    ensures Voted(Voted(s, id, delta), id, -delta) == s
  {
    var r := Voted(s, id, delta);
    IndexOfSameIds(s, r, id);
  }

  /** Voting does not change any sum of amounts. */
  lemma {:induction false} VotedKeepsSpending<K>(s: seq<Expense>, id: int, delta: int, key: Expense -> K, k: K)
    requires forall e: Expense, v: int :: key(e.(votes := v)) == key(e)
    ensures SumWhere(Voted(s, id, delta), AmountOf, key, k) == SumWhere(s, AmountOf, key, k)
    ensures Sum(Voted(s, id, delta), AmountOf) == Sum(s, AmountOf)
  {
    var r := Voted(s, id, delta);
    if IndexOf(s, id).Some? {
      SameAmountsSameSums(s, r, key, k);
    }
  }

  lemma {:induction false} SameAmountsSameSums<K>(s: seq<Expense>, t: seq<Expense>, key: Expense -> K, k: K)
    requires |s| == |t| && forall j :: 0 <= j < |s| ==> s[j].amount == t[j].amount && key(s[j]) == key(t[j])
    ensures SumWhere(s, AmountOf, key, k) == SumWhere(t, AmountOf, key, k)
    ensures Sum(s, AmountOf) == Sum(t, AmountOf)
  {
    if s != [] {
      SameAmountsSameSums(s[..|s| - 1], t[..|t| - 1], key, k);
    }
  }

  /** The expense list the application holds, updated in place by the handlers. */
  class ExpenseLedger {
    var expenses: seq<Expense>

    /** Starts from the saved snapshot, or empty when nothing was saved. */
    constructor (saved: Option<seq<Expense>>)
      ensures expenses == if saved.Some? then saved.value else []
    {
      expenses := if saved.Some? then saved.value else [];
    }

    /** `expenses.unshift(expense)` with a fresh id and zero votes. */
    method Add(id: int, draft: Draft, createdAt: Timestamp)
      requires forall j :: 0 <= j < |expenses| ==> expenses[j].id != id
      modifies this
      ensures expenses == [NewExpense(id, draft, createdAt)] + old(expenses)
      ensures |expenses| == |old(expenses)| + 1 && expenses[0].votes == 0 && expenses[0].id == id
      ensures forall j :: 0 <= j < |old(expenses)| ==> expenses[j + 1] == old(expenses)[j]
      ensures UniqueIds(old(expenses)) ==> UniqueIds(expenses)
      ensures Sum(expenses, AmountOf) == draft.amount + Sum(old(expenses), AmountOf)
    {
      var expense := NewExpense(id, draft, createdAt);
      SumPrepend(expense, expenses, AmountOf);
      expenses := [expense] + expenses;
    }

    /** Replaces the editable fields of the first record with this id; does
        nothing when no record has it. */
    method Edit(id: int, draft: Draft)
      modifies this
      ensures expenses == Edited(old(expenses), id, draft)
      ensures UniqueIds(old(expenses)) ==> UniqueIds(expenses)
    {
      var index := IndexOf(expenses, id);
      if index.None? {
        return;
      }
      var i := index.value;
      expenses := expenses[i := expenses[i].(name := Trim(draft.name), amount := draft.amount,
                                             category := draft.category, date := draft.date,
                                             note := Trim(draft.note))];
    }

    /** Keeps the records whose id differs (the confirmation dialog is taken
        as accepted). */
    method Delete(id: int)
      modifies this
      ensures expenses == Withdrawn(old(expenses), id)
      ensures UniqueIds(old(expenses)) ==> UniqueIds(expenses)
      ensures IndexOf(old(expenses), id).None? ==> expenses == old(expenses)
      ensures UniqueIds(old(expenses)) && IndexOf(old(expenses), id).Some? ==>
                |expenses| == |old(expenses)| - 1
    {
      ghost var before := expenses;
      expenses := Withdrawn(expenses, id);
      if IndexOf(before, id).None? {
        WithdrawnAbsent(before, id);
      } else if UniqueIds(before) {
        WithdrawnUnique(before, id);
      }
    }

    /** `expense.votes++` on the first record with this id, if any. */
    method Upvote(id: int)
      modifies this
      ensures expenses == Voted(old(expenses), id, 1)
      ensures UniqueIds(old(expenses)) ==> UniqueIds(expenses)
    {
      var found := IndexOf(expenses, id);
      if found.Some? {
        var i := found.value;
        expenses := expenses[i := expenses[i].(votes := expenses[i].votes + 1)];
      }
    }

    /** `expense.votes--` on the first record with this id, if any. */
    method Downvote(id: int)
      modifies this
      ensures expenses == Voted(old(expenses), id, -1)
      ensures UniqueIds(old(expenses)) ==> UniqueIds(expenses)
    {
      var found := IndexOf(expenses, id);
      if found.Some? {
        var i := found.value;
        expenses := expenses[i := expenses[i].(votes := expenses[i].votes - 1)];
      }
    }

    /** Empties the ledger (the confirmation dialog is taken as accepted). */
    method Clear()
      modifies this
      ensures expenses == []
    {
      expenses := [];
    }
  }
}
