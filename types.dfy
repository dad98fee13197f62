/**
 * The closed category enumeration, its display labels and the colour table
 * (types.js), and the two record shapes the ledger passes around: drafts
 * (not yet committed) and expenses (committed, with an id).
 */
module Types {
  import opened Wrappers

  /** The eight categories, in declaration order. */
  datatype Category = Food | Transport | Shopping | Entertainment | Housing | Medical | Education | Other

  /** The label string the source stores in every record for a category. */
  function Label(c: Category): string {
    match c
    case Food => "飲食"
    case Transport => "交通"
    case Shopping => "購物"
    case Entertainment => "娛樂"
    case Housing => "居家"
    case Medical => "醫療"
    case Education => "教育"
    case Other => "其他"
  }

  /** `Object.values(Category)`: the labels' categories in declaration order. */
  const AllCategories: seq<Category> :=
    [Food, Transport, Shopping, Entertainment, Housing, Medical, Education, Other]

  /** Reads a stored label back as a category; None for any other string. */
  function CategoryOfLabel(s: string): (r: Option<Category>)
    ensures r.Some? ==> Label(r.value) == s
  {
    if s == Label(Food) then Some(Food)
    else if s == Label(Transport) then Some(Transport)
    else if s == Label(Shopping) then Some(Shopping)
    else if s == Label(Entertainment) then Some(Entertainment)
    else if s == Label(Housing) then Some(Housing)
    else if s == Label(Medical) then Some(Medical)
    else if s == Label(Education) then Some(Education)
    else if s == Label(Other) then Some(Other)
    else None
  }

  /** A string is a category label when some category has it. */
  predicate IsLabel(s: string) {
    CategoryOfLabel(s).Some?
  }

  /** `CATEGORY_COLORS`, keyed (as in the source) by label. */
  const CategoryColors: map<string, string> := map[
    Label(Food) := "#ef4444",
    Label(Transport) := "#3b82f6",
    Label(Shopping) := "#f59e0b",
    Label(Entertainment) := "#8b5cf6",
    Label(Housing) := "#10b981",
    Label(Medical) := "#ec4899",
    Label(Education) := "#06b6d4",
    Label(Other) := "#6b7280"
  ]

  /** There are eight categories, each enumerated exactly once. */
  lemma AllCategoriesEnumeratesEach(c: Category)
    ensures |AllCategories| == 8
    ensures c in AllCategories
    ensures forall i, j :: 0 <= i < j < |AllCategories| ==> AllCategories[i] != AllCategories[j]
  {
  }

  /** Labels are pairwise distinct, and a label reads back as its own category. */
  lemma LabelRoundTrip(c: Category)
    ensures CategoryOfLabel(Label(c)) == Some(c)
    ensures forall d :: Label(d) == Label(c) ==> d == c
  {
  }

  /** Every category has a colour, and no two categories share one. */
  lemma ColorsTotalAndDistinct(c: Category, d: Category)
    ensures Label(c) in CategoryColors
    ensures c != d ==> CategoryColors[Label(c)] != CategoryColors[Label(d)]
  {
  }

  /**
   * A draft as held by the add-expense screen. Every field is a string, as in
   * the source: `amount` is the text typed or extracted, `category` a label
   * (not checked against the eight: extraction results are taken as they come),
   * an absent merchant is "".
   */
  datatype Draft = Draft(date: string, amount: string, category: string, description: string, merchant: string)

  /** A committed record: the draft's fields, a fresh id and the parsed amount. */
  datatype Expense = Expense(id: string, date: string, amount: real, category: string, description: string, merchant: string)

  /**
   * How an awaited producer of drafts (image or text extraction, carrier
   * query) settles: it returns a list, or throws with a message.
   */
  datatype CallOutcome = Returned(drafts: seq<Draft>) | Threw(message: string)
}
