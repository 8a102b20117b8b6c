/** The record schema of the expense tracker: the closed category
    enumeration, the ordered category table used by every view, the expense
    record, and the two derived results (monthly spending and the spending
    prediction). */
module ExpenseTypes {
  import SeqUtil

  /** The five spending categories; no other value exists. */
  datatype Category = Food | Travel | Books | Fun | Other

  const AllCategories: set<Category> := {Food, Travel, Books, Fun, Other}

  /** The enumeration is closed: every category is one of the five. */
  lemma CategoryClosed(c: Category)
    ensures c in AllCategories
  {
    match c
    case Food =>
    case Travel =>
    case Books =>
    case Fun =>
    case Other =>
  }

  /** One row of the category table: the category and how it is shown. */
  datatype CategoryInfo = CategoryInfo(value: Category, labelText: string, icon: string, color: string)

  /** The category table, in display order. */
  const ExpenseCategories: seq<CategoryInfo> := [
    CategoryInfo(Food, "Food & Drinks", "\U{1F355}", "bg-gradient-primary"),
    CategoryInfo(Travel, "Travel", "\U{1F697}", "bg-gradient-secondary"),
    CategoryInfo(Books, "Books & Study", "\U{1F4DA}", "bg-gradient-accent"),
    CategoryInfo(Fun, "Entertainment", "\U{1F3AE}", "bg-warning"),
    CategoryInfo(Other, "Other", "\U{1F4B0}", "bg-muted")
  ]

  /** One spending event. `date` is the calendar day as the date input
      produces it ("YYYY-MM-DD"); `createdAt` is the insertion timestamp. */
  datatype Expense = Expense(
    id: string,
    amount: real,
    category: Category,
    description: string,
    date: string,
    createdAt: string)

  /** Per-category totals, a record keyed by every category. */
  type CategoryTotals = map<Category, real>

  datatype MonthlySpending = MonthlySpending(month: string, total: real, categoryTotals: CategoryTotals)

  /** Every category has a total. */
  predicate HasAllCategories(totals: CategoryTotals) {
    totals.Keys == AllCategories
  }

  datatype Confidence = Low | Medium | High

  datatype SpendingPrediction = SpendingPrediction(predictedAmount: real, confidence: Confidence, suggestion: string)

  /** The categories of the table, in table order. */
  function TableValues(table: seq<CategoryInfo>): (r: seq<Category>)
    ensures |r| == |table|
    ensures forall i :: 0 <= i < |table| ==> r[i] == table[i].value
  {
    if table == [] then [] else [table[0].value] + TableValues(table[1..])
  }

  /** The category table lists the five categories in the order food,
      travel, books, fun, other, each exactly once, and covers the whole
      enumeration. */
  lemma CategoryTableOrder()
    ensures TableValues(ExpenseCategories) == [Food, Travel, Books, Fun, Other]
    ensures SeqUtil.Distinct(TableValues(ExpenseCategories))
    ensures forall c: Category :: c in TableValues(ExpenseCategories)
    ensures |AllCategories| == 5
  {
    var v := TableValues(ExpenseCategories);
    assert v == [Food, Travel, Books, Fun, Other];
    forall c: Category ensures c in v {
      match c
      case Food => assert v[0] == c;
      case Travel => assert v[1] == c;
      case Books => assert v[2] == c;
      case Fun => assert v[3] == c;
      case Other => assert v[4] == c;
    }
  }

  /** The index of a category's row in the category table. */
  function TableIndex(c: Category): (i: nat)
    ensures i < |ExpenseCategories| && ExpenseCategories[i].value == c
  {
    match c
    case Food => 0
    case Travel => 1
    case Books => 2
    case Fun => 3
    case Other => 4
  }

  /** Rows of the category table with the same category are the same row. */
  lemma TableRowsDetermined(a: CategoryInfo, b: CategoryInfo)
    requires a in ExpenseCategories && b in ExpenseCategories
    requires a.value == b.value
    ensures a == b
  {
  }
}
