/**
 * The ledger list view (components/ExpenseList.tsx): expenses grouped by
 * date, the dates newest first, each day with its total.
 */
module ExpenseList {
  import opened Types
  import opened Aggregates

  /**
   * The `reduce` that builds `groupedExpenses`: one array per date, filled by
   * `push` in list order. `dates` is the key order `Object.keys` reports,
   * which is the order the dates were first met.
   */
  method GroupByDate(expenses: seq<Expense>) returns (groups: map<string, seq<Expense>>, dates: seq<string>)
    ensures dates == Keys(expenses, DateOf)
    ensures forall k :: k in groups <==> k in dates
    ensures forall k :: k in groups ==> groups[k] == Select(expenses, DateOf, k)
  {
    groups := map[];
    dates := [];
    var i := 0;
    while i < |expenses|
      invariant 0 <= i <= |expenses|
      invariant dates == Keys(expenses[..i], DateOf)
      invariant forall k :: k in groups <==> k in dates
      invariant forall k :: k in groups ==> groups[k] == Select(expenses[..i], DateOf, k)
    {
      var expense := expenses[i];
      var date := expense.date;
      assert expenses[..i + 1][..i] == expenses[..i];
      if date !in groups {
        KeysSpec(expenses[..i], DateOf);
        SelectEmptyIff(expenses[..i], DateOf, date);
        groups := groups[date := []];
        dates := dates + [date];
      }
      groups := groups[date := groups[date] + [expense]];
      i := i + 1;
    }
    assert expenses[..i] == expenses;
  }

  /** Lexicographic order on strings; on ISO `YYYY-MM-DD` dates it is chronological order. */
  predicate StrLess(a: string, b: string) {
    if a == [] then b != []
    else if b == [] then false
    else a[0] < b[0] || (a[0] == b[0] && StrLess(a[1..], b[1..]))
  }

  lemma {:induction false} StrLessIrreflexive(a: string)
    ensures !StrLess(a, a)
  {
    if a != [] {
      StrLessIrreflexive(a[1..]);
    }
  }

  lemma {:induction false} StrLessTransitive(a: string, b: string, c: string)
    requires StrLess(a, b) && StrLess(b, c)
    ensures StrLess(a, c)
  {
    if a != [] && b != [] && c != [] && a[0] == b[0] == c[0] {
      StrLessTransitive(a[1..], b[1..], c[1..]);
    }
  }

  /** Any two different strings are ordered one way or the other. */
  lemma {:induction false} StrLessTotal(a: string, b: string)
    requires a != b
    ensures StrLess(a, b) || StrLess(b, a)
  {
    if a != [] && b != [] && a[0] == b[0] {
      assert a == [a[0]] + a[1..] && b == [b[0]] + b[1..];
      StrLessTotal(a[1..], b[1..]);
    }
  }

  /** No later element comes after an earlier one. */
  predicate Descending(s: seq<string>) {
    forall i, j :: 0 <= i < j < |s| ==> !StrLess(s[i], s[j])
  }

  /** Inserts `x` into a descending list before the first element below it. */
  function InsertDesc(x: string, s: seq<string>): (r: seq<string>)
    ensures multiset(r) == multiset(s) + multiset{x}
  {
    if s == [] then [x]
    else if StrLess(s[0], x) then [x] + s
    else
      assert s == [s[0]] + s[1..];
      [s[0]] + InsertDesc(x, s[1..])
  }

  /** `sort` with the descending comparator. */
  function SortDesc(s: seq<string>): (r: seq<string>)
    ensures multiset(r) == multiset(s)
  {
    if s == [] then []
    else
      assert s == [s[0]] + s[1..];
      InsertDesc(s[0], SortDesc(s[1..]))
  }

  lemma {:induction false} InsertDescSorted(x: string, s: seq<string>)
    requires Descending(s)
    ensures Descending(InsertDesc(x, s))
  {
    if s == [] {
    } else if StrLess(s[0], x) {
      var r := [x] + s;
      forall i, j | 0 <= i < j < |r| ensures !StrLess(r[i], r[j]) {
        if i == 0 && StrLess(x, r[j]) {
          if j == 1 {
            StrLessTransitive(x, s[0], x);
            StrLessIrreflexive(x);
          } else {
            StrLessTransitive(s[0], x, s[j - 1]);
          }
        }
      }
    } else {
      var t := s[1..];
      InsertDescSorted(x, t);
      var r := [s[0]] + InsertDesc(x, t);
      forall i, j | 0 <= i < j < |r| ensures !StrLess(r[i], r[j]) {
        if i == 0 {
          var y := r[j];
          assert y in multiset(InsertDesc(x, t));
          assert y == x || y in t;
        }
      }
    }
  }

  /** The result of the sort is descending and a permutation of its input. */
  lemma {:induction false} SortDescSorted(s: seq<string>)
    ensures Descending(SortDesc(s))
    ensures multiset(SortDesc(s)) == multiset(s)
  {
    if s != [] {
      SortDescSorted(s[1..]);
      InsertDescSorted(s[0], SortDesc(s[1..]));
    }
  }

  /** A descending list without repeats is strictly descending. */
  lemma StrictWhenDistinct(s: seq<string>)
    requires Descending(s) && Distinct(s)
    ensures forall i, j :: 0 <= i < j < |s| ==> StrLess(s[j], s[i])
  {
    forall i, j | 0 <= i < j < |s| ensures StrLess(s[j], s[i]) {
      StrLessTotal(s[i], s[j]);
    }
  }

  /** A list without repeats holds each element at most once. */
  lemma {:induction false} DistinctCounts(a: seq<string>)
    requires Distinct(a)
    ensures forall x :: multiset(a)[x] <= 1
  {
    if a != [] {
      var init := a[..|a| - 1];
      assert Distinct(init);
      DistinctCounts(init);
      assert a == init + [a[|a| - 1]];
      assert a[|a| - 1] !in init;
    }
  }

  /** An element at two positions is counted at least twice. */
  lemma RepeatCounts(b: seq<string>, i: nat, j: nat)
    requires i < j < |b|
    ensures b[i] == b[j] ==> multiset(b)[b[i]] >= 2
  {
    assert b == b[..i] + [b[i]] + b[i + 1..j] + [b[j]] + b[j + 1..];
  }

  /** A permutation of a list without repeats has none. */
  lemma DistinctPermutation(a: seq<string>, b: seq<string>)
    requires Distinct(a) && multiset(a) == multiset(b)
    ensures Distinct(b)
  {
    DistinctCounts(a);
    forall i, j | 0 <= i < j < |b| ensures b[i] != b[j] {
      RepeatCounts(b, i, j);
    }
  }

  /** `sortedDates`: the distinct dates of the list, newest first. */
  function SortedDates(expenses: seq<Expense>): seq<string> {
    SortDesc(Keys(expenses, DateOf))
  }

  /**
   * Each date of the list appears once in `sortedDates`, nothing else
   * appears, and the dates are strictly descending.
   */
  lemma SortedDatesSpec(expenses: seq<Expense>)
    ensures forall d :: d in SortedDates(expenses) <==> HasKey(expenses, DateOf, d)
    ensures Distinct(SortedDates(expenses))
    ensures forall i, j :: 0 <= i < j < |SortedDates(expenses)| ==>
              StrLess(SortedDates(expenses)[j], SortedDates(expenses)[i])
  {
    var ks := Keys(expenses, DateOf);
    KeysSpec(expenses, DateOf);
    SortDescSorted(ks);
    forall d ensures d in SortedDates(expenses) <==> d in ks {
      assert d in multiset(SortDesc(ks)) <==> d in multiset(ks);
    }
    DistinctPermutation(ks, SortedDates(expenses));
    StrictWhenDistinct(SortedDates(expenses));
  }

  /** One day of the list: its date, its expenses in list order, and `dayTotal`. */
  datatype DaySection = DaySection(date: string, expenses: seq<Expense>, dayTotal: real)

  /** What the view shows: the empty state, or the day sections newest first. */
  datatype ListView = EmptyState | Days(sections: seq<DaySection>)

  /** `sortedDates.map(...)`: one section per date, holding that date's group and its total. */
  method BuildSections(groups: map<string, seq<Expense>>, dates: seq<string>) returns (sections: seq<DaySection>)
    requires forall k :: k in dates ==> k in groups
    ensures |sections| == |dates|
    ensures forall j :: 0 <= j < |dates| ==>
              sections[j].date == dates[j]
              && sections[j].expenses == groups[dates[j]]
              && sections[j].dayTotal == SumAmounts(sections[j].expenses)
  {
    sections := [];
    var i := 0;
    while i < |dates|
      invariant 0 <= i <= |dates|
      invariant |sections| == i
      invariant forall j :: 0 <= j < i ==>
                  sections[j].date == dates[j]
                  && sections[j].expenses == groups[dates[j]]
                  && sections[j].dayTotal == SumAmounts(sections[j].expenses)
    {
      var date := dates[i];
      var dayExpenses := groups[date];
      sections := sections + [DaySection(date, dayExpenses, SumAmounts(dayExpenses))];
      i := i + 1;
    }
  }

  /**
   * The sections are the distinct dates newest first, each holding the
   * expenses of its date in list order and their total.
   */
  ghost predicate ShowsDays(expenses: seq<Expense>, sections: seq<DaySection>) {
    && |sections| == |SortedDates(expenses)|
    && forall i :: 0 <= i < |sections| ==>
         sections[i].date == SortedDates(expenses)[i]
         && sections[i].expenses == Select(expenses, DateOf, sections[i].date)
         && sections[i].dayTotal == SumAmounts(sections[i].expenses)
  }

  /** The list view computed from the expenses. */
  method Render(expenses: seq<Expense>) returns (view: ListView)
    ensures view.EmptyState? <==> |expenses| == 0
    ensures view.Days? ==> ShowsDays(expenses, view.sections)
  {
    var groups, dates := GroupByDate(expenses);
    if |expenses| == 0 {
      return EmptyState;
    }
    var sorted := SortDesc(dates);
    SortDescSorted(dates);
    forall k | k in sorted ensures k in groups {
      assert k in multiset(sorted);
    }
    var sections := BuildSections(groups, sorted);
    assert sorted == SortedDates(expenses);
    forall i | 0 <= i < |sections|
      ensures sections[i].expenses == Select(expenses, DateOf, sections[i].date)
    {
      assert sorted[i] in groups;
    }
    view := Days(sections);
  }

  /** Totals over all day sections, in order. */
  function SectionsTotal(sections: seq<DaySection>): real {
    if sections == [] then 0.0
    else SectionsTotal(sections[..|sections| - 1]) + sections[|sections| - 1].dayTotal
  }

  /** Number of expenses shown over all day sections. */
  function SectionsCount(sections: seq<DaySection>): nat {
    if sections == [] then 0
    else SectionsCount(sections[..|sections| - 1]) + |sections[|sections| - 1].expenses|
  }

  /** Sections built from a list of dates add up to the groups of those dates. */
  lemma {:induction false} SectionsMatchGroups(sections: seq<DaySection>, ks: seq<string>, expenses: seq<Expense>)
    requires |sections| == |ks|
    requires forall i :: 0 <= i < |ks| ==>
               sections[i].expenses == Select(expenses, DateOf, ks[i])
               && sections[i].dayTotal == SumAmounts(sections[i].expenses)
    ensures SectionsTotal(sections) == SumOver(ks, expenses, DateOf)
    ensures SectionsCount(sections) == CountOver(ks, expenses, DateOf)
  {
    if ks != [] {
      SectionsMatchGroups(sections[..|sections| - 1], ks[..|ks| - 1], expenses);
    }
  }

  /**
   * Every expense is shown in exactly the section of its own date, and no
   * section is empty.
   */
  lemma RenderPlacesEach(expenses: seq<Expense>, sections: seq<DaySection>)
    requires ShowsDays(expenses, sections)
    ensures forall i, e :: 0 <= i < |sections| ==>
              (e in sections[i].expenses <==> e in expenses && e.date == sections[i].date)
    ensures forall i :: 0 <= i < |sections| ==> |sections[i].expenses| > 0
  {
    var ks := SortedDates(expenses);
    SortedDatesSpec(expenses);
    KeysSpec(expenses, DateOf);
    forall i, e | 0 <= i < |sections|
      ensures e in sections[i].expenses <==> e in expenses && e.date == sections[i].date
    {
      SelectMembers(expenses, DateOf, sections[i].date, e);
    }
    forall i | 0 <= i < |sections| ensures |sections[i].expenses| > 0 {
      assert ks[i] in ks;
      KeyGroupsNonEmpty(expenses, DateOf, ks[i]);
    }
  }

  /**
   * Nothing is lost or duplicated: the sections hold as many expenses as the
   * list, and the day totals add up to the list total.
   */
  lemma RenderConserves(expenses: seq<Expense>, sections: seq<DaySection>)
    requires ShowsDays(expenses, sections)
    ensures SectionsCount(sections) == |expenses|
    ensures SectionsTotal(sections) == SumAmounts(expenses)
  {
    var ks := SortedDates(expenses);
    SortedDatesSpec(expenses);
    forall i | 0 <= i < |expenses| ensures DateOf(expenses[i]) in ks {
      assert HasKey(expenses, DateOf, DateOf(expenses[i]));
    }
    PartitionConserves(ks, expenses, DateOf);
    SectionsMatchGroups(sections, ks, expenses);
  }
}
