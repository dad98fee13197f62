/**
 * The add-expense screen (components/AddExpense.js): a list of drafts edited
 * by index, replaced wholesale by import results, and filtered to the
 * complete drafts when the user saves.
 */
module AddExpense {
  import opened Wrappers
  import opened Types
  import opened StringOps
  import opened NumberParsing
  import opened MofService
  import opened Seqs

  /**
   * A draft that may be committed: its amount is non-empty and `parseFloat`
   * reads a number from it, and its description is non-empty.
   */
  predicate IsValidDraft(d: Draft) {
    d.amount != "" && ParseFloat(d.amount).Some? && d.description != ""
  }

  /** `drafts.filter(IsValidDraft)`: the batch handed to the save handler. */
  function ValidDrafts(ds: seq<Draft>): seq<Draft> {
    Filter(ds, IsValidDraft)
  }

  /**
   * The batch holds exactly the valid drafts, in their original order: it
   * is empty exactly when no draft is valid, and it is the whole list when
   * every draft is.
   */
  lemma ValidDraftsSpec(ds: seq<Draft>)
    ensures forall d :: d in ValidDrafts(ds) <==> d in ds && IsValidDraft(d)
    ensures forall i :: 0 <= i < |ValidDrafts(ds)| ==> IsValidDraft(ValidDrafts(ds)[i])
    ensures ValidDrafts(ds) == [] <==> forall i :: 0 <= i < |ds| ==> !IsValidDraft(ds[i])
    ensures (forall i :: 0 <= i < |ds| ==> IsValidDraft(ds[i])) ==> ValidDrafts(ds) == ds
  {
    forall d ensures d in ValidDrafts(ds) <==> d in ds && IsValidDraft(d) {
      FilterMembers(ds, IsValidDraft, d);
    }
    forall i | 0 <= i < |ValidDrafts(ds)| ensures IsValidDraft(ValidDrafts(ds)[i]) {
      FilterMembers(ds, IsValidDraft, ValidDrafts(ds)[i]);
    }
    FilterEmptyIff(ds, IsValidDraft);
    if forall i :: 0 <= i < |ds| ==> IsValidDraft(ds[i]) {
      FilterKeepsAll(ds, IsValidDraft);
    }
  }

  /** Filtering splits over concatenation and keeps a single draft exactly when it is valid. */
  lemma ValidDraftsOrder(a: seq<Draft>, b: seq<Draft>, d: Draft)
    ensures ValidDrafts(a + b) == ValidDrafts(a) + ValidDrafts(b)
    ensures ValidDrafts([d]) == if IsValidDraft(d) then [d] else []
  {
    FilterAppend(a, b, IsValidDraft);
    FilterSingleton(d, IsValidDraft);
  }

  /** The draft fields `updateDraft` can set. */
  datatype Field = DateField | AmountField | CategoryField | DescriptionField | MerchantField

  function FieldOf(d: Draft, f: Field): string {
    match f
    case DateField => d.date
    case AmountField => d.amount
    case CategoryField => d.category
    case DescriptionField => d.description
    case MerchantField => d.merchant
  }

  /** `{ ...d, [field]: value }`. */
  function WithField(d: Draft, f: Field, v: string): (r: Draft)
    ensures FieldOf(r, f) == v
    ensures forall g :: g != f ==> FieldOf(r, g) == FieldOf(d, g)
  {
    match f
    case DateField => d.(date := v)
    case AmountField => d.(amount := v)
    case CategoryField => d.(category := v)
    case DescriptionField => d.(description := v)
    case MerchantField => d.(merchant := v)
  }

  /** A draft is determined by its fields. */
  lemma DraftsAgreeOnFields(d: Draft, e: Draft)
    requires forall f :: FieldOf(d, f) == FieldOf(e, f)
    ensures d == e
  {
    assert FieldOf(d, DateField) == FieldOf(e, DateField);
    assert FieldOf(d, AmountField) == FieldOf(e, AmountField);
    assert FieldOf(d, CategoryField) == FieldOf(e, CategoryField);
    assert FieldOf(d, DescriptionField) == FieldOf(e, DescriptionField);
    assert FieldOf(d, MerchantField) == FieldOf(e, MerchantField);
  }

  /** A fresh blank draft dated `today` with category `c`. */
  function BlankDraft(today: string, c: Category): Draft {
    Draft(today, "", Label(c), "", "")
  }

  /** A blank draft can never be saved. */
  lemma BlankDraftNeverValid(today: string, c: Category)
    ensures !IsValidDraft(BlankDraft(today, c))
    ensures ValidDrafts([BlankDraft(today, c)]) == []
  {
    ValidDraftsOrder([], [], BlankDraft(today, c));
  }

  /** `!isTestMode && (!carrierId || !carrierCode)` aborts the carrier import before any query. */
  predicate CarrierImportAllowed(isTestMode: bool, carrierId: string, carrierCode: string) {
    isTestMode || (carrierId != "" && carrierCode != "")
  }

  /** `!text.trim()`: nothing but white space. */
  predicate IsBlank(text: string) {
    forall i :: 0 <= i < |text| ==> IsJsWhitespace(text[i])
  }

  /** The app id the screen passes to the carrier service. */
  const CarrierAppId: string := "EINV001"

  class DraftEditor {
    /** The `drafts` state of the screen. */
    var drafts: seq<Draft>

    /** The screen opens with one blank food draft dated today. */
    constructor (today: string)
      ensures drafts == [BlankDraft(today, Food)]
    {
      drafts := [BlankDraft(today, Food)];
    }

    /** `updateDraft`: sets one field of one draft. */
    method UpdateDraft(index: nat, field: Field, value: string)
      requires index < |drafts|
      modifies this
      ensures |drafts| == |old(drafts)|
      ensures FieldOf(drafts[index], field) == value
      ensures forall g :: g != field ==> FieldOf(drafts[index], g) == FieldOf(old(drafts)[index], g)
      ensures forall i :: 0 <= i < |drafts| && i != index ==> drafts[i] == old(drafts)[i]
    {
      var newDrafts := drafts;
      newDrafts := newDrafts[index := WithField(newDrafts[index], field, value)];
      drafts := newDrafts;
    }

    /** `removeDraft`: drops the draft at `index`, if there is one. */
    method RemoveDraft(index: int)
      modifies this
      ensures 0 <= index < |old(drafts)| ==> drafts == old(drafts)[..index] + old(drafts)[index + 1..]
      ensures !(0 <= index < |old(drafts)|) ==> drafts == old(drafts)
    {
      DropIndexSpec(drafts, index);
      drafts := DropIndex(drafts, index);
    }

    /** `addEmptyDraft`: appends a blank draft of category Other. */
    method AddEmptyDraft(today: string)
      modifies this
      ensures drafts == old(drafts) + [BlankDraft(today, Other)]
      ensures ValidDrafts(drafts) == ValidDrafts(old(drafts))
    {
      BlankDraftNeverValid(today, Other);
      ValidDraftsOrder(drafts, [BlankDraft(today, Other)], BlankDraft(today, Other));
      drafts := drafts + [BlankDraft(today, Other)];
    }

    /**
     * `handleSaveAll`: the batch handed to `onSave`, or None (an alert, and no
     * call) when no draft is valid. The drafts themselves are left as they are.
     */
    method SaveAll() returns (batch: Option<seq<Draft>>)
      ensures batch.None? <==> forall i :: 0 <= i < |drafts| ==> !IsValidDraft(drafts[i])
      ensures batch.Some? ==> batch.value == ValidDrafts(drafts) && |batch.value| > 0
      ensures batch.Some? ==> forall i :: 0 <= i < |batch.value| ==> IsValidDraft(batch.value[i])
    {
      var valid := ValidDrafts(drafts);
      ValidDraftsSpec(drafts);
      if |valid| == 0 {
        batch := None;
      } else {
        batch := Some(valid);
      }
    }

    /** The shared tail of the three import handlers: a non-empty result replaces the drafts. */
    method ApplyImport(outcome: CallOutcome)
      modifies this
      ensures outcome.Returned? && |outcome.drafts| > 0 ==> drafts == outcome.drafts
      ensures !(outcome.Returned? && |outcome.drafts| > 0) ==> drafts == old(drafts)
    {
      if outcome.Returned? && |outcome.drafts| > 0 {
        drafts := outcome.drafts;
      }
    }

    /** `handleFileUpload`: without a file nothing happens; otherwise the extraction's outcome is applied. */
    method HandleFileUpload(hasFile: bool, extraction: CallOutcome) returns (called: bool)
      modifies this
      ensures called == hasFile
      ensures called && extraction.Returned? && |extraction.drafts| > 0 ==> drafts == extraction.drafts
      ensures !(called && extraction.Returned? && |extraction.drafts| > 0) ==> drafts == old(drafts)
    {
      if !hasFile {
        return false;
      }
      called := true;
      ApplyImport(extraction);
    }

    /** `handleTextParse`: blank text is ignored; otherwise the extraction's outcome is applied. */
    method HandleTextParse(text: string, extraction: CallOutcome) returns (called: bool)
      modifies this
      ensures called == !IsBlank(text)
      ensures called && extraction.Returned? && |extraction.drafts| > 0 ==> drafts == extraction.drafts
      ensures !(called && extraction.Returned? && |extraction.drafts| > 0) ==> drafts == old(drafts)
    {
      if IsBlank(text) {
        return false;
      }
      called := true;
      ApplyImport(extraction);
    }

    /**
     * `handleCarrierImport`: outside test mode, a missing card id or code
     * aborts before any query; in test mode the drafts become the three fixed
     * records; otherwise the live reply's non-empty list of converted invoices
     * replaces them, and a failed query or an empty list leaves them.
     */
    method HandleCarrierImport(isTestMode: bool, carrierId: string, carrierCode: string,
                               today: string, reply: LiveReply) returns (queried: bool)
      modifies this
      ensures queried == CarrierImportAllowed(isTestMode, carrierId, carrierCode)
      ensures !queried ==> drafts == old(drafts)
      ensures isTestMode ==> drafts == MockInvoices(today)
      ensures queried && !isTestMode ==>
                var o := LiveOutcome(reply);
                if o.Returned? && |o.drafts| > 0 then drafts == o.drafts else drafts == old(drafts)
    {
      if !CarrierImportAllowed(isTestMode, carrierId, carrierCode) {
        return false;
      }
      queried := true;
      var outcome := FetchCarrierInvoices(carrierId, carrierCode, CarrierAppId, isTestMode, today, reply);
      ApplyImport(outcome);
    }
  }

  /** The commit scenarios: "12.5"/"coffee" is saved, "abc"/"coffee" alone is rejected. */
  lemma SaveScenarios(today: string)
    ensures ValidDrafts([Draft(today, "12.5", Label(Food), "coffee", "")])
            == [Draft(today, "12.5", Label(Food), "coffee", "")]
    ensures ValidDrafts([Draft(today, "abc", Label(Food), "coffee", "")]) == []
  {
    ParseFloatReadsFraction("12.5");
    ParseFloatRejectsText();
    ValidDraftsOrder([], [], Draft(today, "12.5", Label(Food), "coffee", ""));
    ValidDraftsOrder([], [], Draft(today, "abc", Label(Food), "coffee", ""));
  }

  /** The three fixed amounts are read back as the numbers they spell. */
  lemma MockAmountsParse()
    ensures ParseFloat("155") == Some(155.0)
    ensures ParseFloat("860") == Some(860.0)
    ensures ParseFloat("1200") == Some(1200.0)
  {
    assert DecimalString(155) == "155" by {
      assert DecimalString(15) == "15";
    }
    assert DecimalString(860) == "860" by {
      assert DecimalString(86) == "86";
    }
    assert DecimalString(1200) == "1200" by {
      assert DecimalString(12) == "12";
      assert DecimalString(120) == "120";
    }
    ParseFloatOfDecimal(155);
    ParseFloatOfDecimal(860);
    ParseFloatOfDecimal(1200);
  }

  /** A draft whose amount parses and whose description is non-empty is valid. */
  lemma ValidWhenParsed(d: Draft, v: real)
    requires ParseFloat(d.amount) == Some(v) && d.amount != "" && d.description != ""
    ensures IsValidDraft(d)
  {
  }

  /** Every record test mode imports can be saved as it stands. */
  lemma MockInvoicesAllValid(today: string)
    ensures forall i :: 0 <= i < |MockInvoices(today)| ==> IsValidDraft(MockInvoices(today)[i])
    ensures ValidDrafts(MockInvoices(today)) == MockInvoices(today)
  {
    MockAmountsParse();
    MockInvoicesShape(today);
    var r := MockInvoices(today);
    assert r[0].description != "" && r[1].description != "" && r[2].description != "";
    ValidWhenParsed(r[0], 155.0);
    ValidWhenParsed(r[1], 860.0);
    ValidWhenParsed(r[2], 1200.0);
    forall i | 0 <= i < |r| ensures IsValidDraft(r[i]) {
      assert i == 0 || i == 1 || i == 2;
    }
    ValidDraftsSpec(r);
  }
}
