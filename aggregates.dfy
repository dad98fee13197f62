/**
 * Grouping and summing over an expense list, shared by the ledger views:
 * the distinct keys of a list in first-occurrence order, the expenses under
 * one key, and amount totals. Amounts are exact reals here.
 */
module Aggregates {
  import opened Types
  import opened Seqs

  /** The grouping keys the views use. */
  function DateOf(e: Expense): string { e.date }
  function CategoryOf(e: Expense): string { e.category }

  /** `es.reduce((sum, e) => sum + e.amount, 0)`. */
  function SumAmounts(es: seq<Expense>): real {
    if es == [] then 0.0 else SumAmounts(es[..|es| - 1]) + es[|es| - 1].amount
  }

  /** The test "this expense's key is `k`". */
  function KeyIs(key: Expense -> string, k: string): Expense -> bool {
    e => key(e) == k
  }

  /** The expenses whose key is `k`, in their original order. */
  function Select(es: seq<Expense>, key: Expense -> string, k: string): seq<Expense> {
    Filter(es, KeyIs(key, k))
  }

  /** The distinct keys of `es`, each at the position of its first occurrence. */
  function Keys(es: seq<Expense>, key: Expense -> string): seq<string> {
    if es == [] then []
    else
      var ks := Keys(es[..|es| - 1], key);
      if key(es[|es| - 1]) in ks then ks else ks + [key(es[|es| - 1])]
  }

  predicate Distinct(ks: seq<string>) {
    forall i, j :: 0 <= i < j < |ks| ==> ks[i] != ks[j]
  }

  /** Some expense of `es` has key `k`. */
  predicate HasKey(es: seq<Expense>, key: Expense -> string, k: string) {
    exists i :: 0 <= i < |es| && key(es[i]) == k
  }

  /** Total of the groups named in `ks`. */
  function SumOver(ks: seq<string>, es: seq<Expense>, key: Expense -> string): real {
    if ks == [] then 0.0
    else SumOver(ks[..|ks| - 1], es, key) + SumAmounts(Select(es, key, ks[|ks| - 1]))
  }

  /** Number of expenses in the groups named in `ks`. */
  function CountOver(ks: seq<string>, es: seq<Expense>, key: Expense -> string): nat {
    if ks == [] then 0
    else CountOver(ks[..|ks| - 1], es, key) + |Select(es, key, ks[|ks| - 1])|
  }

  /** The total of no expenses is 0, and splitting the list splits its total. */
  lemma {:induction false} SumAmountsAppend(a: seq<Expense>, b: seq<Expense>)
    ensures SumAmounts([]) == 0.0
    ensures SumAmounts(a + b) == SumAmounts(a) + SumAmounts(b)
    decreases |b|
  {
    if b == [] {
      assert a + b == a;
    } else {
      assert (a + b)[..|a + b| - 1] == a + b[..|b| - 1];
      SumAmountsAppend(a, b[..|b| - 1]);
    }
  }

  /** Appending one expense adds it to the group of its own key only. */
  lemma SelectSnoc(es: seq<Expense>, x: Expense, key: Expense -> string, k: string)
    ensures Select(es + [x], key, k) == Select(es, key, k) + (if key(x) == k then [x] else [])
  {
    FilterAppend(es, [x], KeyIs(key, k));
    FilterSingleton(x, KeyIs(key, k));
  }

  /** Appending one expense adds its amount to the total of its own group only. */
  lemma SumSelectSnoc(es: seq<Expense>, x: Expense, key: Expense -> string, k: string)
    ensures SumAmounts(Select(es + [x], key, k))
            == SumAmounts(Select(es, key, k)) + (if key(x) == k then x.amount else 0.0)
  {
    SelectSnoc(es, x, key, k);
    var tail := if key(x) == k then [x] else [];
    SumAmountsAppend(Select(es, key, k), tail);
    if tail != [] {
      assert tail[..0] == [];
    }
  }

  /** An expense is in group `k` exactly when it is in the list and its key is `k`. */
  lemma SelectMembers(es: seq<Expense>, key: Expense -> string, k: string, e: Expense)
    ensures e in Select(es, key, k) <==> e in es && key(e) == k
  {
    FilterMembers(es, KeyIs(key, k), e);
  }

  /** A group is empty exactly when no expense carries its key. */
  lemma SelectEmptyIff(es: seq<Expense>, key: Expense -> string, k: string)
    ensures Select(es, key, k) == [] <==> !HasKey(es, key, k)
  {
    if HasKey(es, key, k) {
      var i :| 0 <= i < |es| && key(es[i]) == k;
      SelectMembers(es, key, k, es[i]);
    } else if Select(es, key, k) != [] {
      SelectMembers(es, key, k, Select(es, key, k)[0]);
    }
  }

  /** The keys are pairwise distinct and are exactly the keys occurring in `es`. */
  lemma {:induction false} KeysSpec(es: seq<Expense>, key: Expense -> string)
    ensures Distinct(Keys(es, key))
    ensures forall k :: k in Keys(es, key) <==> HasKey(es, key, k)
    ensures Keys(es, key) == [] <==> es == []
  {
    if es != [] {
      var init := es[..|es| - 1];
      KeysSpec(init, key);
      forall k ensures k in Keys(es, key) <==> HasKey(es, key, k) {
        if HasKey(init, key, k) {
          var i :| 0 <= i < |init| && key(init[i]) == k;
          assert es[i] == init[i];
        }
        if HasKey(es, key, k) {
          var i :| 0 <= i < |es| && key(es[i]) == k;
          if i < |init| {
            assert init[i] == es[i];
          }
        }
      }
      assert key(es[|es| - 1]) in Keys(es, key);
    }
  }

  /** Appending one expense appends its key unless the key is already listed. */
  lemma KeysSnoc(es: seq<Expense>, x: Expense, key: Expense -> string)
    ensures Keys(es + [x], key) == if key(x) in Keys(es, key) then Keys(es, key) else Keys(es, key) + [key(x)]
  {
    assert (es + [x])[..|es + [x]| - 1] == es;
  }

  /** A key not among the keys of the list names an empty group, of total 0. */
  lemma AbsentKeySumsToZero(es: seq<Expense>, key: Expense -> string, k: string)
    requires k !in Keys(es, key)
    ensures SumAmounts(Select(es, key, k)) == 0.0
  {
    KeysSpec(es, key);
    SelectEmptyIff(es, key, k);
  }

  /** Every key of the list names a non-empty group. */
  lemma KeyGroupsNonEmpty(es: seq<Expense>, key: Expense -> string, k: string)
    requires k in Keys(es, key)
    ensures |Select(es, key, k)| > 0
  {
    KeysSpec(es, key);
    SelectEmptyIff(es, key, k);
  }

  /** Appending one expense adds its amount to the group of its key and nothing elsewhere. */
  lemma {:induction false} SumOverSnoc(ks: seq<string>, es: seq<Expense>, key: Expense -> string, x: Expense)
    requires Distinct(ks)
    ensures SumOver(ks, es + [x], key) == SumOver(ks, es, key) + (if key(x) in ks then x.amount else 0.0)
    ensures CountOver(ks, es + [x], key) == CountOver(ks, es, key) + (if key(x) in ks then 1 else 0)
  {
    if ks != [] {
      var init := ks[..|ks| - 1];
      var k := ks[|ks| - 1];
      assert Distinct(init);
      SumOverSnoc(init, es, key, x);
      SelectSnoc(es, x, key, k);
      SumSelectSnoc(es, x, key, k);
      assert key(x) in ks <==> key(x) in init || key(x) == k;
      assert k !in init;
    }
  }

  /** No group has anything in an empty list. */
  lemma {:induction false} SumOverEmpty(ks: seq<string>, key: Expense -> string)
    ensures SumOver(ks, [], key) == 0.0 && CountOver(ks, [], key) == 0
  {
    if ks != [] {
      SumOverEmpty(ks[..|ks| - 1], key);
    }
  }

  /**
   * Grouping loses and duplicates nothing: over any distinct list of keys
   * covering every expense, the group totals add up to the total of the list
   * and the group sizes to its length.
   */
  lemma {:induction false} PartitionConserves(ks: seq<string>, es: seq<Expense>, key: Expense -> string)
    requires Distinct(ks)
    requires forall i :: 0 <= i < |es| ==> key(es[i]) in ks
    ensures SumOver(ks, es, key) == SumAmounts(es)
    ensures CountOver(ks, es, key) == |es|
  {
    if es == [] {
      SumOverEmpty(ks, key);
    } else {
      var init := es[..|es| - 1];
      var x := es[|es| - 1];
      PartitionConserves(ks, init, key);
      assert init + [x] == es;
      SumOverSnoc(ks, init, key, x);
    }
  }

  /** The keys of a list cover it, so its groups partition it. */
  lemma KeysPartition(es: seq<Expense>, key: Expense -> string)
    ensures SumOver(Keys(es, key), es, key) == SumAmounts(es)
    ensures CountOver(Keys(es, key), es, key) == |es|
  {
    KeysSpec(es, key);
    forall i | 0 <= i < |es| ensures key(es[i]) in Keys(es, key) {
      assert HasKey(es, key, key(es[i]));
    }
    PartitionConserves(Keys(es, key), es, key);
  }
}
