/**
 * The e-invoice carrier service (services/mofService.js and its TypeScript
 * twin services/mofService.ts, which are the same code): the merchant to
 * category classifier, the fixed records of test mode, and the conversion of
 * carrier invoice records into drafts.
 */
module MofService {
  import opened Wrappers
  import opened StringOps
  import opened Types

  /** Merchant words of the food rule. */
  const FoodMerchantWords: seq<string> :=
    ["7-eleven", "全家", "萊爾富", "ok mart", "星巴克", "路易莎", "餐飲", "食品"]
  /** Description words of the food rule (the only rule that reads the description). */
  const FoodDescriptionWords: seq<string> := ["茶", "咖啡", "便當"]
  const TransportWords: seq<string> :=
    ["中油", "台亞", "全國加油站", "台鐵", "高鐵", "捷運", "客運", "uber", "車隊"]
  const HousingWords: seq<string> := ["全聯", "家樂福", "大潤發", "好市多", "屈臣氏", "康是美", "寶雅"]
  const ShoppingWords: seq<string> := ["新光三越", "sogo", "百貨", "uniqlo", "zara", "服飾"]
  const EntertainmentWords: seq<string> := ["電影", "好樂迪", "錢櫃", "netflix", "spotify", "steam"]
  const MedicalWords: seq<string> := ["診所", "醫院", "藥局"]

  /** `words.some(w => s.includes(w))`. */
  predicate ContainsAny(s: string, words: seq<string>) {
    |words| > 0 && (Contains(s, words[0]) || ContainsAny(s, words[1..]))
  }

  lemma {:induction false} ContainsAnyIff(s: string, words: seq<string>)
    ensures ContainsAny(s, words) <==> exists i :: 0 <= i < |words| && Contains(s, words[i])
  {
    if |words| > 0 {
      ContainsAnyIff(s, words[1..]);
      assert forall i :: 1 <= i < |words| ==> words[i] == words[1..][i - 1];
    }
  }

  /** Picks `merchant`'s category (services/mofService.js:5-29). */
  function GuessCategory(merchant: string, description: string): (r: Category)
    ensures r != Education
  {
    ClassifyLowered(Lower(merchant), Lower(description))
  }

  /** The rule chain, on the lower-cased merchant `m` and description `d`. */
  function ClassifyLowered(m: string, d: string): (r: Category)
    ensures r != Education
  {
    if ContainsAny(m, FoodMerchantWords) || ContainsAny(d, FoodDescriptionWords) then Food
    else if ContainsAny(m, TransportWords) then Transport
    else if ContainsAny(m, HousingWords) then Housing
    else if ContainsAny(m, ShoppingWords) then Shopping
    else if ContainsAny(m, EntertainmentWords) then Entertainment
    else if ContainsAny(m, MedicalWords) then Medical
    else Other
  }

  /** The rules in the order they are tried. */
  const RulePriority: seq<Category> := [Food, Transport, Housing, Shopping, Entertainment, Medical]

  /** Whether the rule for `c` fires on a lower-cased merchant and description. */
  predicate RuleFires(c: Category, m: string, d: string) {
    match c
    case Food => ContainsAny(m, FoodMerchantWords) || ContainsAny(d, FoodDescriptionWords)
    case Transport => ContainsAny(m, TransportWords)
    case Housing => ContainsAny(m, HousingWords)
    case Shopping => ContainsAny(m, ShoppingWords)
    case Entertainment => ContainsAny(m, EntertainmentWords)
    case Medical => ContainsAny(m, MedicalWords)
    case Education => false
    case Other => false
  }

  /** First-match-wins over a list of rules, defaulting to Other. */
  function FirstFiring(rules: seq<Category>, m: string, d: string): Category {
    if rules == [] then Other
    else if RuleFires(rules[0], m, d) then rules[0]
    else FirstFiring(rules[1..], m, d)
  }

  /** The first-match search returns one of the rules, or Other. */
  lemma {:induction false} FirstFiringIn(rules: seq<Category>, m: string, d: string)
    ensures FirstFiring(rules, m, d) in rules + [Other]
  {
    if rules != [] && !RuleFires(rules[0], m, d) {
      FirstFiringIn(rules[1..], m, d);
    }
  }

  /** The first-match search picks rule `i` exactly when it fires and no earlier rule does. */
  lemma {:induction false} FirstFiringPicks(rules: seq<Category>, m: string, d: string, i: nat)
    requires i < |rules|
    requires forall a, b :: 0 <= a < b < |rules| ==> rules[a] != rules[b]
    requires Other !in rules
    ensures FirstFiring(rules, m, d) == rules[i]
            <==> RuleFires(rules[i], m, d) && forall j :: 0 <= j < i ==> !RuleFires(rules[j], m, d)
  {
    if RuleFires(rules[0], m, d) {
      assert i > 0 ==> rules[0] != rules[i];
    } else if i > 0 {
      FirstFiringPicks(rules[1..], m, d, i - 1);
      assert forall j :: 1 <= j < i ==> rules[j] == rules[1..][j - 1];
    } else {
      FirstFiringIn(rules[1..], m, d);
      assert forall k :: 0 <= k < |rules[1..]| ==> rules[1..][k] == rules[k + 1];
    }
  }

  /** The first-match search falls through to Other exactly when no rule fires. */
  lemma {:induction false} FirstFiringDefault(rules: seq<Category>, m: string, d: string)
    requires Other !in rules
    ensures FirstFiring(rules, m, d) == Other <==> forall j :: 0 <= j < |rules| ==> !RuleFires(rules[j], m, d)
  {
    if rules != [] && !RuleFires(rules[0], m, d) {
      FirstFiringDefault(rules[1..], m, d);
      assert forall j :: 1 <= j < |rules| ==> rules[j] == rules[1..][j - 1];
    }
  }

  /** The rule chain is first-match-wins over the rules in priority order. */
  lemma ClassifyLoweredIsFirstFiring(m: string, d: string)
    ensures ClassifyLowered(m, d) == FirstFiring(RulePriority, m, d)
  {
    var rs := RulePriority;
    assert FirstFiring(rs, m, d) == if RuleFires(Food, m, d) then Food else FirstFiring(rs[1..], m, d);
    var rs1 := [Transport, Housing, Shopping, Entertainment, Medical];
    assert rs[1..] == rs1;
    assert FirstFiring(rs1, m, d) == if RuleFires(Transport, m, d) then Transport else FirstFiring(rs1[1..], m, d);
    var rs2 := [Housing, Shopping, Entertainment, Medical];
    assert rs1[1..] == rs2;
    assert FirstFiring(rs2, m, d) == if RuleFires(Housing, m, d) then Housing else FirstFiring(rs2[1..], m, d);
    var rs3 := [Shopping, Entertainment, Medical];
    assert rs2[1..] == rs3;
    assert FirstFiring(rs3, m, d) == if RuleFires(Shopping, m, d) then Shopping else FirstFiring(rs3[1..], m, d);
    var rs4 := [Entertainment, Medical];
    assert rs3[1..] == rs4;
    assert FirstFiring(rs4, m, d) == if RuleFires(Entertainment, m, d) then Entertainment else FirstFiring(rs4[1..], m, d);
    var rs5 := [Medical];
    assert rs4[1..] == rs5;
    assert FirstFiring(rs5, m, d) == if RuleFires(Medical, m, d) then Medical else FirstFiring(rs5[1..], m, d);
    assert rs5[1..] == [];
  }

  /** The classifier is first-match-wins over the rules in priority order, on lower-cased text. */
  lemma GuessCategoryIsFirstFiring(merchant: string, description: string)
    ensures GuessCategory(merchant, description) == FirstFiring(RulePriority, Lower(merchant), Lower(description))
  {
    ClassifyLoweredIsFirstFiring(Lower(merchant), Lower(description));
  }

  /**
   * Rule `i` decides the category exactly when it fires and no rule before it
   * in the priority order does.
   */
  lemma GuessCategoryPriority(merchant: string, description: string, i: nat)
    requires i < |RulePriority|
    ensures GuessCategory(merchant, description) == RulePriority[i]
            <==> RuleFires(RulePriority[i], Lower(merchant), Lower(description))
                 && forall j :: 0 <= j < i ==> !RuleFires(RulePriority[j], Lower(merchant), Lower(description))
  {
    GuessCategoryIsFirstFiring(merchant, description);
    FirstFiringPicks(RulePriority, Lower(merchant), Lower(description), i);
  }

  /** The result is Other exactly when no rule fires; otherwise it is one of the rules' categories. */
  lemma GuessCategoryDefault(merchant: string, description: string)
    ensures GuessCategory(merchant, description) == Other
            <==> forall j :: 0 <= j < |RulePriority| ==> !RuleFires(RulePriority[j], Lower(merchant), Lower(description))
    ensures GuessCategory(merchant, description) in RulePriority + [Other]
  {
    GuessCategoryIsFirstFiring(merchant, description);
    FirstFiringDefault(RulePriority, Lower(merchant), Lower(description));
  }

  /** Changing the case of ASCII letters in either argument does not change the category. */
  lemma GuessCategoryIgnoresCase(merchant: string, description: string)
    ensures GuessCategory(Upper(merchant), Upper(description)) == GuessCategory(merchant, description)
    ensures GuessCategory(Lower(merchant), Lower(description)) == GuessCategory(merchant, description)
  {
    LowerAbsorbsCase(merchant);
    LowerAbsorbsCase(description);
  }

  /** Without a food word in the description, the category depends on the merchant alone. */
  lemma GuessCategoryDescriptionOnlyFeedsFood(merchant: string, description: string, other: string)
    requires !ContainsAny(Lower(description), FoodDescriptionWords)
    requires !ContainsAny(Lower(other), FoodDescriptionWords)
    ensures GuessCategory(merchant, description) == GuessCategory(merchant, other)
  {
  }

  /** No word of a list occurs in `s` when each word has a character `s` lacks. */
  lemma NoWordOccurs(s: string, words: seq<string>, missing: seq<nat>)
    requires |missing| == |words|
    requires forall i :: 0 <= i < |words| ==> missing[i] < |words[i]| && words[i][missing[i]] !in s
    ensures !ContainsAny(s, words)
  {
    ContainsAnyIff(s, words);
    forall i | 0 <= i < |words| ensures !Contains(s, words[i]) {
      ContainsNeedsEveryChar(s, words[i], missing[i]);
    }
  }

  /** Empty merchant and description fall through every rule. */
  lemma GuessCategoryOfNothing(merchant: string, description: string)
    requires merchant == "" && description == ""
    ensures GuessCategory(merchant, description) == Other
  {
    assert Lower(merchant) == merchant && Lower(description) == description;
    NoWordInEmpty(merchant, FoodMerchantWords);
    NoWordInEmpty(description, FoodDescriptionWords);
    NoWordInEmpty(merchant, TransportWords);
    NoWordInEmpty(merchant, HousingWords);
    NoWordInEmpty(merchant, ShoppingWords);
    NoWordInEmpty(merchant, EntertainmentWords);
    NoWordInEmpty(merchant, MedicalWords);
  }

  /** Empty text contains no non-empty word. */
  lemma NoWordInEmpty(s: string, words: seq<string>)
    requires s == ""
    requires forall i :: 0 <= i < |words| ==> |words[i]| > 0
    ensures !ContainsAny(s, words)
  {
    ContainsAnyIff(s, words);
  }

  /** A merchant naming both a convenience store and the metro is food: the food rule comes first. */
  lemma GuessCategoryFoodBeforeTransport()
    ensures GuessCategory("全家捷運店", "") == Food
  {
    var m := "全家捷運店";
    LowerFixesUncased(m);
    assert MatchesAt(m, "全家", 0);
    ContainsAt(m, "全家", 0);
  }

  // ---------------------------------------------------------------------
  // Carrier invoice records and their conversion to drafts

  /** An invoice date in the Minguo calendar (year = Gregorian year - 1911). */
  datatype InvDate = InvDate(year: nat, month: nat, date: nat)

  /**
   * The fields of a carrier invoice record the conversion reads; `invDetail`
   * holds the line items' descriptions and is None when the record has none.
   */
  datatype Invoice = Invoice(invDate: InvDate, sellerName: string, amount: string, invDetail: Option<seq<string>>)

  /** The description used when an invoice has no line-item text. */
  const PlaceholderDescription: string := "電子發票消費"

  /** The separator between line-item descriptions. */
  const ItemSeparator: char := '、'

  /** `n.toString().padStart(2, '0')`. */
  function TwoDigits(n: nat): string {
    PadStart(DecimalString(n), 2, '0')
  }

  /** `${year + 1911}-${MM}-${DD}`: the Gregorian ISO date of a Minguo date. */
  function IsoDateOf(d: InvDate): string {
    DecimalString(d.year + 1911) + "-" + TwoDigits(d.month) + "-" + TwoDigits(d.date)
  }

  /** A leading zero does not change a digit string's value. */
  lemma {:induction false} DecimalValueLeadingZero(s: string)
    requires AllDigits(s)
    ensures AllDigits("0" + s) && DecimalValue("0" + s) == DecimalValue(s)
  {
    if s != [] {
      assert ("0" + s)[..|"0" + s| - 1] == "0" + s[..|s| - 1];
      DecimalValueLeadingZero(s[..|s| - 1]);
    }
  }

  /** Below 100, the two-digit form has exactly two digits and reads back as the number. */
  lemma TwoDigitsRoundTrip(n: nat)
    requires n < 100
    ensures |TwoDigits(n)| == 2 && AllDigits(TwoDigits(n))
    ensures DecimalValue(TwoDigits(n)) == n
  {
    DecimalStringShape(n);
    DecimalRoundTrip(n);
    if n < 10 {
      assert TwoDigits(n) == "0" + DecimalString(n);
      DecimalValueLeadingZero(DecimalString(n));
    }
  }

  /**
   * The ISO date of a Minguo date reads back field by field: the Gregorian
   * year (Minguo year + 1911) before the first dash, then two-digit month and
   * day (for months and days below 100, as the carrier service sends them).
   */
  lemma IsoDateOfDecodes(d: InvDate)
    requires d.month < 100 && d.date < 100
    ensures var s := IsoDateOf(d);
            && |s| >= 7 && s[|s| - 6] == '-' && s[|s| - 3] == '-'
            && AllDigits(s[..|s| - 6]) && DecimalValue(s[..|s| - 6]) == d.year + 1911
            && AllDigits(s[|s| - 5..|s| - 3]) && DecimalValue(s[|s| - 5..|s| - 3]) == d.month
            && AllDigits(s[|s| - 2..]) && DecimalValue(s[|s| - 2..]) == d.date
  {
    var y := DecimalString(d.year + 1911);
    var mm := TwoDigits(d.month);
    var dd := TwoDigits(d.date);
    TwoDigitsRoundTrip(d.month);
    TwoDigitsRoundTrip(d.date);
    DecimalRoundTrip(d.year + 1911);
    var s := IsoDateOf(d);
    assert s == y + "-" + mm + "-" + dd;
    assert s[..|s| - 6] == y;
    assert s[|s| - 5..|s| - 3] == mm;
    assert s[|s| - 2..] == dd;
  }

  /** Minguo year 113 is 2024: 1 January 113 is "2024-01-01". */
  lemma IsoDateOfExample()
    ensures IsoDateOf(InvDate(113, 1, 1)) == "2024-01-01"
  {
    assert DecimalString(2024) == "2024" by {
      assert DecimalString(2) == "2";
      assert DecimalString(20) == "20";
      assert DecimalString(202) == "202";
    }
    assert TwoDigits(1) == "01";
  }

  /** `inv.invDetail?.map(d => d.description).join('、') || "電子發票消費"`. */
  function DescriptionOf(inv: Invoice): string {
    match inv.invDetail
    case None => PlaceholderDescription
    case Some(items) =>
      var joined := Join(items, [ItemSeparator]);
      if joined == "" then PlaceholderDescription else joined
  }

  /**
   * The description is the placeholder when there are no line items or only
   * one with empty text; otherwise splitting it on the separator gives
   * back the line items (when no item contains the separator itself).
   */
  lemma DescriptionOfSpec(inv: Invoice)
    ensures DescriptionOf(inv) != ""
    ensures inv.invDetail.None? ==> DescriptionOf(inv) == PlaceholderDescription
    ensures inv.invDetail.Some? && (inv.invDetail.value == [] || inv.invDetail.value == [""])
            ==> DescriptionOf(inv) == PlaceholderDescription
    ensures inv.invDetail.Some? && inv.invDetail.value != [] && inv.invDetail.value != [""]
            && (forall i :: 0 <= i < |inv.invDetail.value| ==> ItemSeparator !in inv.invDetail.value[i])
            ==> Split(DescriptionOf(inv), ItemSeparator) == inv.invDetail.value
  {
    if inv.invDetail.Some? {
      var items := inv.invDetail.value;
      JoinEmptyIff(items, [ItemSeparator]);
      if items != [] && (forall i :: 0 <= i < |items| ==> ItemSeparator !in items[i]) {
        SplitJoin(items, ItemSeparator);
      }
    }
  }

  /** One carrier invoice as a draft (services/mofService.js:114-125). */
  function ConvertInvoice(inv: Invoice): (r: Draft)
    ensures r.amount == inv.amount && r.merchant == inv.sellerName
    ensures r.date == IsoDateOf(inv.invDate) && r.description == DescriptionOf(inv)
    ensures r.category == Label(GuessCategory(inv.sellerName, r.description))
    ensures IsLabel(r.category) && r.category != Label(Education)
  {
    var desc := DescriptionOf(inv);
    LabelRoundTrip(GuessCategory(inv.sellerName, desc));
    Draft(IsoDateOf(inv.invDate), inv.amount, Label(GuessCategory(inv.sellerName, desc)), desc, inv.sellerName)
  }

  /** `(data.details || []).map(...)`: one draft per invoice, in order. */
  function ConvertDetails(details: Option<seq<Invoice>>): (r: seq<Draft>)
    ensures details.None? ==> r == []
    ensures details.Some? ==> |r| == |details.value|
    ensures details.Some? ==> forall i :: 0 <= i < |r| ==> r[i] == ConvertInvoice(details.value[i])
  {
    match details
    case None => []
    case Some(invs) => seq(|invs|, i requires 0 <= i < |invs| => ConvertInvoice(invs[i]))
  }

  // ---------------------------------------------------------------------
  // Test mode

  /** The three fixed records of test mode, dated `today` (services/mofService.js:32-59). */
  function MockInvoices(today: string): seq<Draft> {
    [ Draft(today, "155", Label(Food), "拿鐵咖啡、御飯糰", "統一超商股份有限公司"),
      Draft(today, "860", Label(Housing), "衛生紙、洗髮精、雞蛋", "全聯實業股份有限公司"),
      Draft(today, "1200", Label(Transport), "95無鉛汽油", "台灣中油股份有限公司") ]
  }

  /**
   * What the live query gets back: no reply at all (`fetch` rejects or the
   * body is not JSON), or an HTTP response with its `ok` flag, the `code` of
   * its body and its optional `details`.
   */
  datatype LiveReply = NoReply | Response(ok: bool, code: int, details: Option<seq<Invoice>>)

  /** The one message every failure of the live query is rethrown with. */
  const ConnectionFailed: string := "連線失敗，請檢查網路或改用測試模式 (CORS 限制)"

  /**
   * The live branch of `fetchCarrierInvoices` once the request is sent: a
   * failed status or a `code` other than 200 throws inside the `try`, and the
   * `catch` turns every failure into `ConnectionFailed`.
   */
  function LiveOutcome(reply: LiveReply): (r: CallOutcome)
    ensures r.Returned? <==> reply.Response? && reply.ok && reply.code == 200
    ensures r.Threw? ==> r.message == ConnectionFailed
    ensures r.Returned? ==> r.drafts == ConvertDetails(reply.details)
  {
    match reply
    case NoReply => Threw(ConnectionFailed)
    case Response(ok, code, details) =>
      if !ok || code != 200 then Threw(ConnectionFailed) else Returned(ConvertDetails(details))
  }

  /**
   * `fetchCarrierInvoices`: in test mode the fixed records, whatever the
   * credentials; otherwise the outcome of the live query's `reply`.
   */
  function FetchCarrierInvoices(cardId: string, cardEncrypt: string, appId: string,
                                isTestMode: bool, today: string, reply: LiveReply): (r: CallOutcome)
    ensures isTestMode ==> r == Returned(MockInvoices(today))
    ensures isTestMode ==> |r.drafts| == 3 && forall i :: 0 <= i < 3 ==> r.drafts[i].date == today
    ensures !isTestMode ==> r == LiveOutcome(reply)
  {
    if isTestMode then Returned(MockInvoices(today)) else LiveOutcome(reply)
  }

  /**
   * Test mode returns three records dated today with amounts 155, 860 and
   * 1200, stored as food, housing and transport.
   */
  lemma MockInvoicesShape(today: string)
    ensures var r := MockInvoices(today);
            && |r| == 3 && r[0].date == today && r[1].date == today && r[2].date == today
            && r[0].amount == "155" && r[1].amount == "860" && r[2].amount == "1200"
            && r[0].category == Label(Food) && r[1].category == Label(Housing) && r[2].category == Label(Transport)
  {
  }

  /**
   * Each fixed record's stored category is the one the classifier gives its
   * own merchant and description: the convenience store by its coffee, the
   * supermarket by its name, the petrol company by its name.
   */
  lemma MockFoodAgrees(today: string)
    ensures ClassifiedAs(MockInvoices(today)[0])
  {
    var r := MockInvoices(today)[0];
    MockFoodRecord(r.merchant, r.description);
  }

  lemma MockHousingAgrees(today: string)
    ensures ClassifiedAs(MockInvoices(today)[1])
  {
    var r := MockInvoices(today)[1];
    MockHousingRecord(r.merchant, r.description);
  }

  lemma MockTransportAgrees(today: string)
    ensures ClassifiedAs(MockInvoices(today)[2])
  {
    var r := MockInvoices(today)[2];
    MockTransportRecord(r.merchant, r.description);
  }

  /** The draft is filed under the classifier's verdict on its own merchant and description. */
  ghost predicate ClassifiedAs(d: Draft) {
    d.category == Label(GuessCategory(d.merchant, d.description))
  }

  /** Every draft in `ds` is filed as the classifier would file it. */
  ghost predicate Classified(ds: seq<Draft>) {
    forall i :: 0 <= i < |ds| ==> ClassifiedAs(ds[i])
  }

  /** The fixed records are filed as the classifier would file them. */
  lemma MockInvoicesClassified(today: string)
    ensures Classified(MockInvoices(today))
  {
    MockFoodAgrees(today);
    MockHousingAgrees(today);
    MockTransportAgrees(today);
    MockInvoicesShape(today);
    ClassifiedTriple(MockInvoices(today));
  }

  lemma ClassifiedTriple(ds: seq<Draft>)
    requires |ds| == 3 && ClassifiedAs(ds[0]) && ClassifiedAs(ds[1]) && ClassifiedAs(ds[2])
    ensures Classified(ds)
  {
    forall i | 0 <= i < |ds| ensures ClassifiedAs(ds[i]) {
      if i == 0 {
      } else if i == 1 {
      } else {
        assert i == 2;
      }
    }
  }

  /**
   * Whatever the mode, every fetched draft is filed under the classifier's
   * verdict on its own merchant and description: the live records by
   * construction, the fixed ones by the lemmas above.
   */
  lemma FetchedDraftsClassified(cardId: string, cardEncrypt: string, appId: string,
                                isTestMode: bool, today: string, reply: LiveReply)
    ensures var r := FetchCarrierInvoices(cardId, cardEncrypt, appId, isTestMode, today, reply);
            r.Returned? ==> Classified(r.drafts)
  {
    if isTestMode {
      MockInvoicesClassified(today);
    }
  }

  /** The classifier's verdicts on the three fixed merchants and descriptions. */
  lemma MockFoodRecord(m: string, d: string)
    requires m == "統一超商股份有限公司" && d == "拿鐵咖啡、御飯糰"
    ensures GuessCategory(m, d) == Food
  {
    MockFoodRuleFires(m, d);
    GuessCategoryPriority(m, d, 0);
  }

  lemma MockFoodRuleFires(m: string, d: string)
    requires m == "統一超商股份有限公司" && d == "拿鐵咖啡、御飯糰"
    ensures RuleFires(Food, Lower(m), Lower(d))
  {
    LowerFixesUncased(d);
    assert MatchesAt(d, "咖啡", 2);
    ContainsAt(d, "咖啡", 2);
    assert Contains(d, FoodDescriptionWords[1]);
    ContainsAnyIff(d, FoodDescriptionWords);
  }

  lemma MockHousingRecord(m: string, d: string)
    requires m == "全聯實業股份有限公司" && d == "衛生紙、洗髮精、雞蛋"
    ensures GuessCategory(m, d) == Housing
  {
    MockHousingUncased(m, d);
    MockHousingNotFood(m, d);
    MockHousingNotTransport(m);
    MockHousingFires(m);
    GuessCategoryPriority(m, d, 2);
  }

  lemma MockHousingUncased(m: string, d: string)
    requires m == "全聯實業股份有限公司" && d == "衛生紙、洗髮精、雞蛋"
    ensures Lower(m) == m && Lower(d) == d
  {
    LowerFixesUncased(m);
    LowerFixesUncased(d);
  }

  lemma MockHousingNotFood(m: string, d: string)
    requires m == "全聯實業股份有限公司" && d == "衛生紙、洗髮精、雞蛋"
    ensures !RuleFires(Food, m, d)
  {
    NoWordOccurs(m, FoodMerchantWords, [0, 1, 0, 0, 0, 0, 0, 0]);
    NoWordOccurs(d, FoodDescriptionWords, [0, 0, 0]);
  }

  lemma MockHousingNotTransport(m: string)
    requires m == "全聯實業股份有限公司"
    ensures !RuleFires(Transport, m, "")
  {
    NoWordOccurs(m, TransportWords, [0, 0, 1, 0, 0, 0, 0, 0, 0]);
  }

  lemma MockHousingFires(m: string)
    requires m == "全聯實業股份有限公司"
    ensures ContainsAny(m, HousingWords)
  {
    assert MatchesAt(m, "全聯", 0);
    ContainsAt(m, "全聯", 0);
  }

  lemma MockTransportRecord(m: string, d: string)
    requires m == "台灣中油股份有限公司" && d == "95無鉛汽油"
    ensures GuessCategory(m, d) == Transport
  {
    MockTransportUncased(m, d);
    MockTransportNotFood(m, d);
    MockTransportFires(m);
    GuessCategoryPriority(m, d, 1);
  }

  lemma MockTransportUncased(m: string, d: string)
    requires m == "台灣中油股份有限公司" && d == "95無鉛汽油"
    ensures Lower(m) == m && Lower(d) == d
  {
    LowerFixesUncased(m);
    LowerFixesUncased(d);
  }

  lemma MockTransportNotFood(m: string, d: string)
    requires m == "台灣中油股份有限公司" && d == "95無鉛汽油"
    ensures !RuleFires(Food, m, d)
  {
    NoWordOccurs(m, FoodMerchantWords, [0, 0, 0, 0, 0, 0, 0, 0]);
    NoWordOccurs(d, FoodDescriptionWords, [0, 0, 0]);
  }

  lemma MockTransportFires(m: string)
    requires m == "台灣中油股份有限公司"
    ensures ContainsAny(m, TransportWords)
  {
    assert MatchesAt(m, "中油", 2);
    ContainsAt(m, "中油", 2);
  }
}
