/**
 * The dashboard's figures (components/Dashboard.js): the overall total and
 * the per-category totals fed to the pie chart.
 */
module Dashboard {
  import opened Types
  import opened Aggregates

  /** One slice of the chart: `{ name, value }`. */
  datatype CategoryEntry = CategoryEntry(name: string, value: real)

  /** The slices: one per category present, in first-occurrence order, valued at that category's total. */
  function CategoryEntries(expenses: seq<Expense>): (r: seq<CategoryEntry>)
    ensures |r| == |Keys(expenses, CategoryOf)|
    ensures forall i :: 0 <= i < |r| ==>
              r[i].name == Keys(expenses, CategoryOf)[i]
              && r[i].value == SumAmounts(Select(expenses, CategoryOf, r[i].name))
  {
    EntriesFor(Keys(expenses, CategoryOf), expenses)
  }

  function EntriesFor(ks: seq<string>, expenses: seq<Expense>): (r: seq<CategoryEntry>)
    ensures |r| == |ks|
    ensures forall i :: 0 <= i < |r| ==>
              r[i].name == ks[i] && r[i].value == SumAmounts(Select(expenses, CategoryOf, ks[i]))
  {
    if ks == [] then []
    else EntriesFor(ks[..|ks| - 1], expenses)
         + [CategoryEntry(ks[|ks| - 1], SumAmounts(Select(expenses, CategoryOf, ks[|ks| - 1])))]
  }

  /**
   * `totals` holds the running total of each category seen in `prefix`, and
   * `order` lists those categories in first-occurrence order.
   */
  ghost predicate TotalsOf(prefix: seq<Expense>, totals: map<string, real>, order: seq<string>) {
    && order == Keys(prefix, CategoryOf)
    && (forall k :: k in totals <==> k in order)
    && (forall k :: k in totals ==> totals[k] == SumAmounts(Select(prefix, CategoryOf, k)))
  }

  /** One step of the `forEach`: add the amount to its category, appending a new category. */
  lemma TotalsStep(expenses: seq<Expense>, i: nat, totals: map<string, real>, order: seq<string>,
                   totals': map<string, real>, order': seq<string>)
    requires i < |expenses|
    requires TotalsOf(expenses[..i], totals, order)
    requires var c := expenses[i].category;
             && totals' == totals[c := (if c in totals then totals[c] else 0.0) + expenses[i].amount]
             && order' == if c in totals then order else order + [c]
    ensures TotalsOf(expenses[..i + 1], totals', order')
  {
    var prefix, e := expenses[..i], expenses[i];
    var c := CategoryOf(e);
    assert expenses[..i + 1] == prefix + [e];
    assert c in totals <==> c in order;
    KeysSnoc(prefix, e, CategoryOf);
    assert order' == Keys(prefix + [e], CategoryOf);
    assert forall k :: k in totals' <==> k in order';
    if c !in totals {
      AbsentKeySumsToZero(prefix, CategoryOf, c);
    }
    forall k | k in totals'
      ensures totals'[k] == SumAmounts(Select(prefix + [e], CategoryOf, k))
    {
      SumSelectSnoc(prefix, e, CategoryOf, k);
    }
  }

  /**
   * The `forEach` filling the `Map`: each category's running total, with the
   * categories in insertion order (`set` on a present key keeps its place).
   */
  method AccumulateTotals(expenses: seq<Expense>) returns (totals: map<string, real>, order: seq<string>)
    ensures order == Keys(expenses, CategoryOf)
    ensures forall k :: k in totals <==> k in order
    ensures forall k :: k in totals ==> totals[k] == SumAmounts(Select(expenses, CategoryOf, k))
  {
    totals := map[];
    order := [];
    var i := 0;
    while i < |expenses|
      invariant 0 <= i <= |expenses|
      invariant TotalsOf(expenses[..i], totals, order)
    {
      var c := expenses[i].category;
      var totals', order' := totals[c := (if c in totals then totals[c] else 0.0) + expenses[i].amount],
                             if c in totals then order else order + [c];
      TotalsStep(expenses, i, totals, order, totals', order');
      totals, order, i := totals', order', i + 1;
    }
    assert expenses[..i] == expenses;
  }

  /** `categoryData`: the map's entries in insertion order, as `{ name, value }` slices. */
  method CategoryData(expenses: seq<Expense>) returns (entries: seq<CategoryEntry>)
    ensures entries == CategoryEntries(expenses)
  {
    var totals, order := AccumulateTotals(expenses);
    entries := [];
    var j := 0;
    while j < |order|
      invariant 0 <= j <= |order|
      invariant entries == EntriesFor(order[..j], expenses)
    {
      assert order[..j + 1][..j] == order[..j];
      assert order[j] in order;
      entries := entries + [CategoryEntry(order[j], totals[order[j]])];
      j := j + 1;
    }
    assert order[..j] == order;
  }

  /** Sum of the slice values. */
  function SumValues(entries: seq<CategoryEntry>): real {
    if entries == [] then 0.0 else SumValues(entries[..|entries| - 1]) + entries[|entries| - 1].value
  }

  lemma {:induction false} SumValuesOfEntries(ks: seq<string>, expenses: seq<Expense>)
    ensures SumValues(EntriesFor(ks, expenses)) == SumOver(ks, expenses, CategoryOf)
  {
    if ks != [] {
      SumValuesOfEntries(ks[..|ks| - 1], expenses);
    }
  }

  /**
   * The slices are exactly the categories present, each once; a category
   * with no expense has no slice; and the slices add up to `totalAmount`.
   */
  lemma CategoryEntriesSpec(expenses: seq<Expense>)
    ensures forall c :: (exists i :: 0 <= i < |CategoryEntries(expenses)| && CategoryEntries(expenses)[i].name == c)
                        <==> HasKey(expenses, CategoryOf, c)
    ensures forall i, j :: 0 <= i < j < |CategoryEntries(expenses)| ==>
              CategoryEntries(expenses)[i].name != CategoryEntries(expenses)[j].name
    ensures SumValues(CategoryEntries(expenses)) == SumAmounts(expenses)
  {
    var ks := Keys(expenses, CategoryOf);
    var r := CategoryEntries(expenses);
    KeysSpec(expenses, CategoryOf);
    forall c ensures (exists i :: 0 <= i < |r| && r[i].name == c) <==> c in ks {
      if c in ks {
        var i :| 0 <= i < |ks| && ks[i] == c;
        assert r[i].name == c;
      }
    }
    SumValuesOfEntries(ks, expenses);
    KeysPartition(expenses, CategoryOf);
  }
}
