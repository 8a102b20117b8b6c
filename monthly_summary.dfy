/** The monthly summary card: the category breakdown ranked by amount, the
    percentage of each category, the empty state and the quick statistics. */
module MonthlySummary {
  import opened Wrappers
  import opened SeqUtil
  import opened ExpenseTypes
  import ExpenseUtils

  /** A row of the breakdown: the table row of the category, its total and
      its share of the month's total. */
  datatype RankedCategory = RankedCategory(info: CategoryInfo, amount: real, percentage: real)

  /** A category's share of the total, in per cent; 0 unless the total is
      positive. */
  function Percentage(amount: real, total: real): (p: real)
    ensures total <= 0.0 ==> p == 0.0
    ensures total > 0.0 ==> p * total == amount * 100.0
    ensures total > 0.0 && 0.0 <= amount <= total ==> 0.0 <= p <= 100.0
  {
    if total > 0.0 then
      assert 0.0 <= amount <= total ==> 0.0 <= amount / total <= 1.0 by {
        if 0.0 <= amount <= total {
          ExpenseUtils.DivNonNegative(amount, total);
          ExpenseUtils.DivNonNegative(total - amount, total);
          assert (total - amount) / total == total / total - amount / total;
        }
      }
      amount / total * 100.0
    else 0.0
  }

  /** A larger amount never has a smaller share of the same total. */
  lemma PercentageMonotone(a: real, b: real, total: real)
    requires a >= b
    ensures Percentage(a, total) >= Percentage(b, total)
  {
    if total > 0.0 {
      ExpenseUtils.DivNonNegative(a - b, total);
      assert a / total - b / total == (a - b) / total;
    }
  }

  /** A table row with its category's total and share of the month. */
  function Ranked(info: CategoryInfo, m: MonthlySpending): (r: RankedCategory)
    requires HasAllCategories(m.categoryTotals)
    ensures r.info == info
    ensures info.value in m.categoryTotals && r.amount == m.categoryTotals[info.value]
    ensures m.total > 0.0 ==> r.percentage * m.total == r.amount * 100.0
    ensures m.total <= 0.0 ==> r.percentage == 0.0
  {
    CategoryClosed(info.value);
    var amount := m.categoryTotals[info.value];
    RankedCategory(info, amount, Percentage(amount, m.total))
  }

  /** Every table row with its amount and percentage, in table order. */
  function RankAll(table: seq<CategoryInfo>, m: MonthlySpending): (r: seq<RankedCategory>)
    requires HasAllCategories(m.categoryTotals)
    ensures |r| == |table|
    ensures forall i :: 0 <= i < |table| ==> r[i] == Ranked(table[i], m)
  {
    if table == [] then [] else [Ranked(table[0], m)] + RankAll(table[1..], m)
  }

  function IsPositive(): RankedCategory -> bool {
    (x: RankedCategory) => x.amount > 0.0
  }

  function AmountKey(): RankedCategory -> real {
    (x: RankedCategory) => x.amount
  }

  /** The category table mapped to amounts, zero and negative amounts
      dropped, sorted by amount, largest first. */
  function SortedCategories(m: MonthlySpending): (r: seq<RankedCategory>)
    requires HasAllCategories(m.categoryTotals)
    ensures |r| <= |ExpenseCategories|
    ensures SortedDesc(r, AmountKey())
  {
    var positive := Filter(RankAll(ExpenseCategories, m), IsPositive());
    var sorted := SortDesc(positive, AmountKey());
    assert |multiset(sorted)| == |multiset(positive)|;
    sorted
  }

  /** A row is in the breakdown exactly when it is a ranked table row with a
      positive amount. */
  lemma SortedCategoriesMembers(m: MonthlySpending)
    requires HasAllCategories(m.categoryTotals)
    ensures forall x :: x in SortedCategories(m) <==> x in RankAll(ExpenseCategories, m) && x.amount > 0.0
  {
    var ranked := RankAll(ExpenseCategories, m);
    var kept := Filter(ranked, IsPositive());
    var r := SortedCategories(m);
    FilterMembers(ranked, IsPositive());
    SameMembers(r, kept);
  }

  /** Only categories with a strictly positive total appear, and amounts
      never increase along the breakdown. */
  lemma SortedCategoriesOrder(m: MonthlySpending)
    requires HasAllCategories(m.categoryTotals)
    ensures forall x :: x in SortedCategories(m) ==> x.amount > 0.0
    ensures forall i, j :: 0 <= i < j < |SortedCategories(m)| ==>
              SortedCategories(m)[i].amount >= SortedCategories(m)[j].amount
  {
    SortedCategoriesMembers(m);
    var r := SortedCategories(m);
    forall i, j | 0 <= i < j < |r| ensures r[i].amount >= r[j].amount {
      assert AmountKey()(r[i]) >= AmountKey()(r[j]);
    }
  }

  /** The categories with a strictly positive total. */
  function PositiveCategories(m: MonthlySpending): set<Category>
    requires HasAllCategories(m.categoryTotals)
  {
    set c | c in AllCategories && m.categoryTotals[c] > 0.0
  }

  /** The categories of the rows, in row order. */
  function CategoriesOf(r: seq<RankedCategory>): (vs: seq<Category>)
    ensures |vs| == |r|
    ensures forall i :: 0 <= i < |r| ==> vs[i] == r[i].info.value
  {
    if r == [] then [] else [r[0].info.value] + CategoriesOf(r[1..])
  }

  /** The rows of the table, ranked, have no repetition. */
  lemma RankAllDistinct(m: MonthlySpending)
    requires HasAllCategories(m.categoryTotals)
    ensures Distinct(RankAll(ExpenseCategories, m))
  {
    CategoryTableOrder();
    var ranked := RankAll(ExpenseCategories, m);
    var vs := TableValues(ExpenseCategories);
    forall i, j | 0 <= i < j < |ranked| ensures ranked[i] != ranked[j] {
      assert ranked[i].info.value == vs[i] && ranked[j].info.value == vs[j];
    }
  }

  /** Each row of the breakdown is the table row of its category, with that
      category's total and percentage. */
  lemma SortedCategoriesRows(m: MonthlySpending)
    requires HasAllCategories(m.categoryTotals)
    ensures forall x :: x in SortedCategories(m) ==>
              x.info in ExpenseCategories && x == Ranked(ExpenseCategories[TableIndex(x.info.value)], m)
    ensures forall x :: x in SortedCategories(m) ==> x.percentage == Percentage(x.amount, m.total)
  {
    SortedCategoriesMembers(m);
    var ranked := RankAll(ExpenseCategories, m);
    forall x | x in SortedCategories(m)
      ensures x.info in ExpenseCategories && x == Ranked(ExpenseCategories[TableIndex(x.info.value)], m)
    {
      var i :| 0 <= i < |ranked| && ranked[i] == x;
      TableRowsDetermined(ExpenseCategories[i], ExpenseCategories[TableIndex(x.info.value)]);
    }
  }

  /** The breakdown lists exactly the categories with a positive total. */
  lemma SortedCategoriesCover(m: MonthlySpending)
    requires HasAllCategories(m.categoryTotals)
    ensures forall c :: c in CategoriesOf(SortedCategories(m)) <==> c in PositiveCategories(m)
  {
    forall c | c in PositiveCategories(m) ensures c in CategoriesOf(SortedCategories(m)) {
      PositiveIsListed(m, c);
    }
    forall c | c in CategoriesOf(SortedCategories(m)) ensures c in PositiveCategories(m) {
      var k :| 0 <= k < |CategoriesOf(SortedCategories(m))| && CategoriesOf(SortedCategories(m))[k] == c;
      ListedIsPositive(m, k);
    }
  }

  lemma PositiveIsListed(m: MonthlySpending, c: Category)
    requires HasAllCategories(m.categoryTotals)
    requires c in PositiveCategories(m)
    ensures c in CategoriesOf(SortedCategories(m))
  {
    SortedCategoriesMembers(m);
    var r := SortedCategories(m);
    var x := RankAll(ExpenseCategories, m)[TableIndex(c)];
    assert x in r;
    var k :| 0 <= k < |r| && r[k] == x;
    assert CategoriesOf(r)[k] == c;
  }

  lemma ListedIsPositive(m: MonthlySpending, k: nat)
    requires HasAllCategories(m.categoryTotals)
    requires k < |SortedCategories(m)|
    ensures CategoriesOf(SortedCategories(m))[k] in PositiveCategories(m)
  {
    var r := SortedCategories(m);
    var c := CategoriesOf(r)[k];
    assert r[k] in r;
    SortedCategoriesOrder(m);
    SortedCategoriesRows(m);
    CategoryClosed(c);
    assert r[k].amount == m.categoryTotals[c];
  }

  /** No category appears twice in the breakdown. */
  lemma SortedCategoriesDistinct(m: MonthlySpending)
    requires HasAllCategories(m.categoryTotals)
    ensures Distinct(CategoriesOf(SortedCategories(m)))
  {
    var ranked := RankAll(ExpenseCategories, m);
    var kept := Filter(ranked, IsPositive());
    var r := SortedCategories(m);
    var vs := CategoriesOf(r);
    SortedCategoriesRows(m);
    RankAllDistinct(m);
    FilterDistinct(ranked, IsPositive());
    SortDescDistinct(kept, AmountKey());
    forall i, j | 0 <= i < j < |vs| ensures vs[i] != vs[j] {
      assert r[i] in r && r[j] in r;
    }
  }

  /** "Categories Used" counts the categories with a positive total. */
  lemma CategoriesUsedCount(m: MonthlySpending)
    requires HasAllCategories(m.categoryTotals)
    ensures |SortedCategories(m)| == |PositiveCategories(m)|
  {
    SortedCategoriesCover(m);
    SortedCategoriesDistinct(m);
    var vs := CategoriesOf(SortedCategories(m));
    DistinctCard(vs);
    assert (set c | c in vs) == PositiveCategories(m);
  }

  /** The quick statistics: the number of categories used and the largest
      share, absent when there is no row (JavaScript's `?.`). */
  datatype QuickStats = QuickStats(categoriesUsed: nat, topPercentage: Option<real>)

  /** What the card shows besides the total: the breakdown (when it has
      rows), the empty state (when it has none) and the quick statistics
      (when the total is positive). */
  datatype SummaryView = SummaryView(breakdown: Option<seq<RankedCategory>>, emptyState: bool,
                                     quickStats: Option<QuickStats>)

  function MonthlySummaryView(m: MonthlySpending): (v: SummaryView)
    requires HasAllCategories(m.categoryTotals)
    ensures v.emptyState <==> PositiveCategories(m) == {}
    ensures v.breakdown.Some? <==> !v.emptyState
    ensures v.breakdown.Some? ==> v.breakdown.value == SortedCategories(m)
    ensures v.quickStats.Some? <==> m.total > 0.0
    ensures v.quickStats.Some? ==> v.quickStats.value.categoriesUsed == |PositiveCategories(m)|
  {
    var sorted := SortedCategories(m);
    CategoriesUsedCount(m);
    var top := if |sorted| > 0 then Some(sorted[0].percentage) else None;
    SummaryView(if |sorted| > 0 then Some(sorted) else None,
                |sorted| == 0,
                if m.total > 0.0 then Some(QuickStats(|sorted|, top)) else None)
  }

  /** When the total is the sum of the buckets, as the monthly aggregation
      guarantees, a positive total always has a top category: the figure is
      the share of the breakdown's first row, and no row has a larger one. */
  lemma TopCategoryDefined(m: MonthlySpending)
    requires HasAllCategories(m.categoryTotals)
    requires m.total == ExpenseUtils.BucketSum(m.categoryTotals)
    requires m.total > 0.0
    ensures var v := MonthlySummaryView(m);
            v.quickStats.Some? && v.quickStats.value.topPercentage.Some? && v.breakdown.Some? &&
            |v.breakdown.value| > 0 &&
            v.quickStats.value.topPercentage.value == v.breakdown.value[0].percentage &&
            forall x :: x in v.breakdown.value ==> x.percentage <= v.quickStats.value.topPercentage.value
  {
    NonEmptyBreakdown(m);
    FirstRowIsLargest(m);
  }

  /** A positive total that is the sum of the buckets has a positive bucket,
      so the breakdown has a row. */
  lemma NonEmptyBreakdown(m: MonthlySpending)
    requires HasAllCategories(m.categoryTotals)
    requires m.total == ExpenseUtils.BucketSum(m.categoryTotals)
    requires m.total > 0.0
    ensures |SortedCategories(m)| > 0
  {
    var t := m.categoryTotals;
    var c := if t[Food] > 0.0 then Food else if t[Travel] > 0.0 then Travel
             else if t[Books] > 0.0 then Books else if t[Fun] > 0.0 then Fun else Other;
    assert c in PositiveCategories(m);
    PositiveIsListed(m, c);
  }

  /** The first row of the breakdown has the largest share. */
  lemma FirstRowIsLargest(m: MonthlySpending)
    requires HasAllCategories(m.categoryTotals)
    requires |SortedCategories(m)| > 0
    ensures forall x :: x in SortedCategories(m) ==> x.percentage <= SortedCategories(m)[0].percentage
  {
    var r := SortedCategories(m);
    SortedCategoriesOrder(m);
    SortedCategoriesRows(m);
    forall x | x in r ensures x.percentage <= r[0].percentage {
      var k :| 0 <= k < |r| && r[k] == x;
      assert r[0].amount >= x.amount;
      PercentageMonotone(r[0].amount, x.amount, m.total);
    }
  }
}
