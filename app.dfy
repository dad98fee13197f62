/**
 * The app shell (App.js): the committed expense collection, the save handler
 * that turns drafts into expenses and optionally syncs them, and delete.
 */
module App {
  import opened Wrappers
  import opened Types
  import opened StringOps
  import opened NumberParsing
  import opened AddExpense
  import opened Seqs

  /** `parseFloat` reads a number from the draft's amount. */
  predicate AmountParses(d: Draft) {
    ParseFloat(d.amount).Some?
  }

  /** The record `handleSaveExpense` builds from one draft, with the fresh id `id`. */
  function ToExpense(d: Draft, id: string): (e: Expense)
    requires AmountParses(d)
    ensures e.id == id && ParseFloat(d.amount) == Some(e.amount)
    ensures e.date == d.date && e.category == d.category
    ensures e.description == d.description && e.merchant == d.merchant
  {
    Expense(id, d.date, ParseFloat(d.amount).value, d.category, d.description, d.merchant)
  }

  /** `drafts.map(...)`, the i-th draft taking the i-th fresh id. */
  function ToExpenses(drafts: seq<Draft>, ids: seq<string>): (r: seq<Expense>)
    requires |ids| == |drafts|
    requires forall i :: 0 <= i < |drafts| ==> AmountParses(drafts[i])
    ensures |r| == |drafts|
    ensures forall i :: 0 <= i < |r| ==> r[i] == ToExpense(drafts[i], ids[i])
  {
    MapWith(drafts, ids, ToExpense)
  }

  /** A whole-number amount string becomes that number. */
  lemma ToExpenseOfWholeAmount(d: Draft, id: string, n: nat)
    requires d.amount == DecimalString(n)
    ensures AmountParses(d) && ToExpense(d, id).amount == n as real
  {
    ParseFloatOfDecimal(n);
  }

  /** No two expenses share an id. */
  predicate IdsUnique(es: seq<Expense>) {
    forall i, j :: 0 <= i < j < |es| ==> es[i].id != es[j].id
  }

  /** No two of the fresh ids coincide. */
  predicate IdsDistinct(ids: seq<string>) {
    forall i, j :: 0 <= i < j < |ids| ==> ids[i] != ids[j]
  }

  /** Some expense has id `id`. */
  predicate HasId(es: seq<Expense>, id: string) {
    exists i :: 0 <= i < |es| && es[i].id == id
  }

  /** The test "this record's id is not `id`". */
  function IdIsNot(id: string): Expense -> bool {
    (e: Expense) => e.id != id
  }

  /** `prev.filter(e => e.id !== id)`. */
  function RemoveId(es: seq<Expense>, id: string): seq<Expense> {
    Filter(es, IdIsNot(id))
  }

  /** Removal splits over concatenation, so the records kept stay in their order. */
  lemma RemoveIdOrder(a: seq<Expense>, b: seq<Expense>, id: string)
    ensures RemoveId(a + b, id) == RemoveId(a, id) + RemoveId(b, id)
  {
    FilterAppend(a, b, IdIsNot(id));
  }

  /** Exactly the records with another id survive. */
  lemma RemoveIdMembers(es: seq<Expense>, id: string, e: Expense)
    ensures e in RemoveId(es, id) <==> e in es && e.id != id
  {
    FilterMembers(es, IdIsNot(id), e);
  }

  /** Deleting an id no record has changes nothing. */
  lemma RemoveIdUnknown(es: seq<Expense>, id: string)
    requires !HasId(es, id)
    ensures RemoveId(es, id) == es
  {
    FilterKeepsAll(es, IdIsNot(id));
  }

  /** Deleting the id of the one record between two runs of other ids leaves the two runs. */
  lemma RemoveIdBetween(pre: seq<Expense>, x: Expense, post: seq<Expense>)
    requires forall i :: 0 <= i < |pre| ==> pre[i].id != x.id
    requires forall i :: 0 <= i < |post| ==> post[i].id != x.id
    ensures RemoveId(pre + [x] + post, x.id) == pre + post
  {
    RemoveIdUnknown(pre, x.id);
    RemoveIdUnknown(post, x.id);
    FilterAppend(pre + [x], post, IdIsNot(x.id));
    FilterAppend(pre, [x], IdIsNot(x.id));
    FilterSingleton(x, IdIsNot(x.id));
  }

  /** With unique ids, deleting an id in use removes exactly that one record. */
  lemma RemoveIdOfUnique(es: seq<Expense>, p: nat)
    requires IdsUnique(es) && p < |es|
    ensures RemoveId(es, es[p].id) == es[..p] + es[p + 1..]
    ensures |RemoveId(es, es[p].id)| == |es| - 1
  {
    var pre, post := es[..p], es[p + 1..];
    assert es == pre + [es[p]] + post;
    forall i | 0 <= i < |pre| ensures pre[i].id != es[p].id {
      assert pre[i] == es[i];
    }
    forall i | 0 <= i < |post| ensures post[i].id != es[p].id {
      assert post[i] == es[p + 1 + i];
    }
    RemoveIdBetween(pre, es[p], post);
  }

  /** Removing records keeps the remaining ids unique. */
  lemma RemoveIdKeepsUnique(es: seq<Expense>, id: string)
    requires IdsUnique(es)
    ensures IdsUnique(RemoveId(es, id))
  {
    if HasId(es, id) {
      var p :| 0 <= p < |es| && es[p].id == id;
      RemoveIdOfUnique(es, p);
      var r := RemoveId(es, id);
      forall i, j | 0 <= i < j < |r| ensures r[i].id != r[j].id {
        var i' := if i < p then i else i + 1;
        var j' := if j < p then j else j + 1;
        assert r[i] == es[i'] && r[j] == es[j'];
      }
    } else {
      RemoveIdUnknown(es, id);
    }
  }

  /** Appending records with fresh, pairwise distinct ids keeps the ids unique. */
  lemma AppendFreshKeepsUnique(es: seq<Expense>, added: seq<Expense>)
    requires IdsUnique(es) && IdsUnique(added)
    requires forall i, j :: 0 <= i < |es| && 0 <= j < |added| ==> es[i].id != added[j].id
    ensures IdsUnique(es + added)
  {
    var r := es + added;
    forall i, j | 0 <= i < j < |r| ensures r[i].id != r[j].id {
      if j >= |es| && i < |es| {
        assert r[i] == es[i] && r[j] == added[j - |es|];
      } else if i >= |es| {
        assert r[i] == added[i - |es|] && r[j] == added[j - |es|];
      }
    }
  }

  /** Distinct fresh ids make distinct expense ids. */
  lemma ToExpensesIds(drafts: seq<Draft>, ids: seq<string>)
    requires |ids| == |drafts|
    requires forall i :: 0 <= i < |drafts| ==> AmountParses(drafts[i])
    ensures forall i :: 0 <= i < |drafts| ==> ToExpenses(drafts, ids)[i].id == ids[i]
    ensures IdsDistinct(ids) ==> IdsUnique(ToExpenses(drafts, ids))
  {
  }

  /** The Apps Script settings, when saved. */
  datatype ScriptConfig = ScriptConfig(scriptUrl: string)

  /** `scriptConfig && scriptConfig.scriptUrl`: a config whose URL is a non-empty string. */
  predicate HasScriptUrl(config: Option<ScriptConfig>) {
    config.Some? && config.value.scriptUrl != ""
  }

  /** What became of the sheet sync after a save. */
  datatype SyncOutcome = NotConfigured | Synced | SyncFailed

  class Ledger {
    /** The `expenses` state. */
    var expenses: seq<Expense>

    /** The ledger's invariant: every record has its own id. */
    predicate Valid()
      reads this
    {
      IdsUnique(expenses)
    }

    constructor ()
      ensures expenses == [] && Valid()
    {
      expenses := [];
    }

    /**
     * `handleSaveExpense`: the new records are appended first; then, when a
     * script URL is configured, they are sent to the sheet (`syncSucceeds`
     * is whether `appendToSheet` resolves). Sync never touches the records.
     */
    method HandleSaveExpense(drafts: seq<Draft>, ids: seq<string>, config: Option<ScriptConfig>, syncSucceeds: bool)
      returns (added: seq<Expense>, sync: SyncOutcome)
      requires |ids| == |drafts|
      requires forall i :: 0 <= i < |drafts| ==> AmountParses(drafts[i])
      modifies this
      ensures added == ToExpenses(drafts, ids)
      ensures expenses == old(expenses) + added
      ensures !HasScriptUrl(config) ==> sync == NotConfigured
      ensures HasScriptUrl(config) ==> sync == (if syncSucceeds then Synced else SyncFailed)
      ensures old(Valid()) && IdsDistinct(ids) && (forall i :: 0 <= i < |ids| ==> !HasId(old(expenses), ids[i]))
              ==> Valid()
    {
      added := ToExpenses(drafts, ids);
      if IdsUnique(expenses) && IdsDistinct(ids) && (forall i :: 0 <= i < |ids| ==> !HasId(expenses, ids[i])) {
        ToExpensesIds(drafts, ids);
        AppendFreshKeepsUnique(expenses, added);
      }
      expenses := expenses + added;
      if HasScriptUrl(config) {
        sync := if syncSucceeds then Synced else SyncFailed;
      } else {
        sync := NotConfigured;
      }
    }

    /** `handleDeleteExpense`: once confirmed, every record with the id goes. */
    method HandleDeleteExpense(id: string, confirmed: bool)
      modifies this
      ensures confirmed ==> expenses == RemoveId(old(expenses), id)
      ensures !confirmed ==> expenses == old(expenses)
      ensures old(Valid()) ==> Valid()
    {
      if confirmed {
        if IdsUnique(expenses) {
          RemoveIdKeepsUnique(expenses, id);
        }
        expenses := RemoveId(expenses, id);
      }
    }
  }

  /**
   * The add screen's save wired to the app's handler: the batch the editor
   * accepts is what the ledger appends, and a rejected batch leaves the
   * ledger untouched.
   */
  method SaveFromEditor(editor: DraftEditor, ledger: Ledger, ids: seq<string>,
                        config: Option<ScriptConfig>, syncSucceeds: bool)
      returns (batch: Option<seq<Draft>>)
    requires |ids| == |ValidDrafts(editor.drafts)|
    modifies ledger
    ensures batch.None? ==> ledger.expenses == old(ledger.expenses)
    ensures batch.Some? ==> batch.value == ValidDrafts(editor.drafts)
    ensures batch.Some? ==> forall i :: 0 <= i < |batch.value| ==> AmountParses(batch.value[i])
    ensures batch.Some? ==> ledger.expenses == old(ledger.expenses) + ToExpenses(batch.value, ids)
  {
    batch := editor.SaveAll();
    if batch.Some? {
      var added, sync := ledger.HandleSaveExpense(batch.value, ids, config, syncSucceeds);
    }
  }
}
