/** The expense record, its field accessors, calendar months of day numbers,
    whitespace trimming and the id lookup shared by edit, delete and voting. */
module Expenses {

  datatype Option<+T> = None | Some(value: T)

  /** A calendar date as a day number: days since 1970-01-01 (day 0). */
  type Day = int

  /** A category tag, one of the names the category selector offers (`food`,
      `study`, ...). */
  type Category = string

  /** Creation instant in milliseconds since the epoch. */
  type Timestamp = int

  datatype Expense = Expense(
    id: int,
    name: string,
    amount: int,
    category: Category,
    date: Day,
    note: string,
    votes: int,
    createdAt: Timestamp)

  /** The fields a user types into the add and edit forms, before trimming. */
  datatype Draft = Draft(name: string, amount: int, category: Category, date: Day, note: string)

  // Field accessors, used as key and weight functions by the aggregates.
  function AmountOf(e: Expense): int { e.amount }
  function CategoryOf(e: Expense): Category { e.category }
  function DateOf(e: Expense): Day { e.date }
  function MonthOfExpense(e: Expense): int { MonthOf(e.date) }
  function One(e: Expense): int { 1 }

  function Min(a: int, b: int): int { if a < b then a else b }
  function AbsVotes(e: Expense): int { if e.votes < 0 then -e.votes else e.votes }

  /** The month containing day `d`, as `12 * year + (month - 1)` of the proleptic
      Gregorian calendar: ordering these indices orders months by (year, month). */
  function MonthOf(d: Day): int {
    var z := d + 719468;
    var era := z / 146097;
    var doe := z - era * 146097;
    var yoe := (doe - doe / 1460 + doe / 36524 - doe / 146096) / 365;
    var doy := doe - (365 * yoe + yoe / 4 - yoe / 100);
    var mp := (5 * doy + 2) / 153;
    var month := if mp < 10 then mp + 3 else mp - 9;
    var year := yoe + era * 400 + (if month <= 2 then 1 else 0);
    12 * year + (month - 1)
  }

  /** Proof step for the boundary lemmas below: MonthOf evaluated from the
      intermediate values of the algorithm. */
  lemma MonthOfSteps(d: int, era: int, doe: int, yoe: int, doy: int, mp: int)
    requires (d + 719468) / 146097 == era && doe == d + 719468 - era * 146097
    requires (doe - doe / 1460 + doe / 36524 - doe / 146096) / 365 == yoe
    requires doy == doe - (365 * yoe + yoe / 4 - yoe / 100) && (5 * doy + 2) / 153 == mp
    ensures var month := if mp < 10 then mp + 3 else mp - 9;
      MonthOf(d) == 12 * (yoe + era * 400 + (if month <= 2 then 1 else 0)) + (month - 1)
  {
  }

  /** The first months around day 0: the last day of 1969, the first of
      1970, and the end of February and start of March 1970. */
  lemma MonthOfAroundEpoch()
    ensures MonthOf(-1) == 12 * 1969 + 11  // 1969-12-31
    ensures MonthOf(0) == 12 * 1970 + 0  // 1970-01-01
    ensures MonthOf(58) == 12 * 1970 + 1  // 1970-02-28
    ensures MonthOf(59) == 12 * 1970 + 2  // 1970-03-01
  {
    MonthOfSteps(-1, 4, 135079, 369, 305, 9);
    MonthOfSteps(0, 4, 135080, 369, 306, 10);
    MonthOfSteps(58, 4, 135138, 369, 364, 11);
    MonthOfSteps(59, 4, 135139, 370, 0, 0);
  }

  /** February in a year divisible by 400 (2000) has 29 days; in a century
      year not divisible by 400 (1900) it has 28. */
  lemma MonthOfLeapDays()
    ensures MonthOf(-25509) == 12 * 1900 + 1  // 1900-02-28
    ensures MonthOf(-25508) == 12 * 1900 + 2  // 1900-03-01
    ensures MonthOf(11016) == 12 * 2000 + 1  // 2000-02-29
    ensures MonthOf(11017) == 12 * 2000 + 2  // 2000-03-01
  {
    MonthOfSteps(-25509, 4, 109571, 299, 364, 11);
    MonthOfSteps(-25508, 4, 109572, 300, 0, 0);
    MonthOfSteps(11016, 4, 146096, 399, 365, 11);
    MonthOfSteps(11017, 5, 0, 0, 0, 0);
  }

  /** The last day of 2024 is in December 2024, the next day in January 2025. */
  lemma MonthOfYearEnd()
    ensures MonthOf(20088) == 12 * 2024 + 11  // 2024-12-31
    ensures MonthOf(20089) == 12 * 2025 + 0  // 2025-01-01
  {
    MonthOfSteps(20088, 5, 9071, 24, 305, 9);
    MonthOfSteps(20089, 5, 9072, 24, 306, 10);
  }

  /** The monthly chart's comparator `(a.year - b.year) || (a.month - b.month)`
      on (year, zero-based month) pairs. */
  function CompareMonths(y1: int, m1: int, y2: int, m2: int): int {
    if y1 - y2 != 0 then y1 - y2 else m1 - m2
  }

  /** With months in 0..11 the comparator orders pairs exactly as their month
      indices `12 * year + month` are ordered. */
  lemma CompareMonthsIsIndexOrder(y1: int, m1: int, y2: int, m2: int)
    requires 0 <= m1 < 12 && 0 <= m2 < 12
    ensures CompareMonths(y1, m1, y2, m2) < 0 <==> 12 * y1 + m1 < 12 * y2 + m2
    ensures CompareMonths(y1, m1, y2, m2) == 0 <==> 12 * y1 + m1 == 12 * y2 + m2
  {
    if y1 < y2 {
      assert 12 * y1 + 12 <= 12 * y2;
    } else if y1 > y2 {
      assert 12 * y2 + 12 <= 12 * y1;
    }
  }

  // ---- Record lookup: Array.prototype.find / findIndex by id ----

  /** The index of the first record with the given id, if any. */
  function IndexOf(s: seq<Expense>, id: int): (r: Option<nat>)
    ensures r.None? <==> forall j :: 0 <= j < |s| ==> s[j].id != id
    ensures r.Some? ==> r.value < |s| && s[r.value].id == id
    ensures r.Some? ==> forall j :: 0 <= j < r.value ==> s[j].id != id
  {
    if s == [] then None
    else if s[0].id == id then Some(0)
    else match IndexOf(s[1..], id)
      case None => None
      case Some(i) => Some(i + 1)
  }

  /** No two records share an id. */
  predicate UniqueIds(s: seq<Expense>) {
    forall i, j :: 0 <= i < j < |s| ==> s[i].id != s[j].id
  }

  // ---- String.prototype.trim ----

  /** ECMAScript WhiteSpace and LineTerminator code points. */
  predicate IsJsWhitespace(c: char) {
    c == ' ' || c == '\t' || c == '\n' || c == '\r' || c == '\U{000B}' || c == '\U{000C}'
    || c == '\U{00A0}' || c == '\U{1680}' || ('\U{2000}' <= c <= '\U{200A}')
    || c == '\U{2028}' || c == '\U{2029}' || c == '\U{202F}' || c == '\U{205F}'
    || c == '\U{3000}' || c == '\U{FEFF}'
  }

  /** Index of the first non-whitespace character, or |s|. */
  function TrimStart(s: string): (lo: nat)
    ensures lo <= |s|
    ensures forall k :: 0 <= k < lo ==> IsJsWhitespace(s[k])
    ensures lo < |s| ==> !IsJsWhitespace(s[lo])
  {
    if s == [] || !IsJsWhitespace(s[0]) then 0 else 1 + TrimStart(s[1..])
  }

  /** One past the last non-whitespace character at or after `lo`, or `lo`. */
  function TrimEnd(s: string, lo: nat): (hi: nat)
    requires lo <= |s|
    ensures lo <= hi <= |s|
    ensures forall k :: hi <= k < |s| ==> IsJsWhitespace(s[k])
    ensures hi > lo ==> !IsJsWhitespace(s[hi - 1])
    decreases |s|
  {
    if |s| == lo || !IsJsWhitespace(s[|s| - 1]) then |s| else TrimEnd(s[..|s| - 1], lo)
  }

  /** `s` without leading and trailing whitespace. */
  function Trim(s: string): string {
    var lo := TrimStart(s);
    s[lo..TrimEnd(s, lo)]
  }

  /** Trim removes exactly a whitespace prefix and a whitespace suffix, and what
      remains neither starts nor ends with whitespace. */
  lemma TrimCharacterized(s: string)
    ensures exists lo, hi ::
              && 0 <= lo <= hi <= |s| && Trim(s) == s[lo..hi]
              && (forall k :: 0 <= k < lo ==> IsJsWhitespace(s[k]))
              && (forall k :: hi <= k < |s| ==> IsJsWhitespace(s[k]))
    ensures Trim(s) != [] ==> !IsJsWhitespace(Trim(s)[0]) && !IsJsWhitespace(Trim(s)[|Trim(s)| - 1])
  {
    var lo := TrimStart(s);
    var hi := TrimEnd(s, lo);
    assert Trim(s) == s[lo..hi];
  }

  /** Trimming twice is trimming once. */
  lemma TrimIdempotent(s: string)
    ensures Trim(Trim(s)) == Trim(s)
  {
    var t := Trim(s);
    TrimCharacterized(s);
    if t != [] {
      assert TrimStart(t) == 0;
      assert TrimEnd(t, 0) == |t|;
    } else {
      assert TrimStart(t) == 0;
    }
  }
}
