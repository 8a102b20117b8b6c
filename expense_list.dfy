/** The expense list view: the category filter and the descending sort of
    the displayed records, the category lookup for each row, and the counts
    shown in the header and the footer. */
module ExpenseList {
  import opened Wrappers
  import opened SeqUtil
  import opened ExpenseTypes

  /** The category selector: every category, or just one. */
  datatype CategoryFilter = All | Only(category: Category)

  datatype SortBy = ByDate | ByAmount

  function Matches(filter: CategoryFilter): Expense -> bool {
    (e: Expense) => match filter
                    case All => true
                    case Only(c) => e.category == c
  }

  /** The sort key: the date's day number or the amount; the comparator
      `key(b) - key(a)` puts larger keys first. */
  function SortKey(sortBy: SortBy, dayOf: string -> int): Expense -> real {
    (e: Expense) => match sortBy
                    case ByDate => dayOf(e.date) as real
                    case ByAmount => e.amount
  }

  /** The displayed records: the input filtered by category, then sorted
      descending by the chosen key. The input itself is a value and stays as
      it was. */
  function FilteredExpenses(expenses: seq<Expense>, filter: CategoryFilter, sortBy: SortBy,
                            dayOf: string -> int): (r: seq<Expense>)
    ensures multiset(r) == multiset(Filter(expenses, Matches(filter)))
    ensures SortedDesc(r, SortKey(sortBy, dayOf))
  {
    SortDesc(Filter(expenses, Matches(filter)), SortKey(sortBy, dayOf))
  }

  /** With the filter on every category, every record is displayed, each as
      often as it occurs. */
  lemma AllKeepsEverything(expenses: seq<Expense>, sortBy: SortBy, dayOf: string -> int)
    ensures multiset(FilteredExpenses(expenses, All, sortBy, dayOf)) == multiset(expenses)
    ensures |FilteredExpenses(expenses, All, sortBy, dayOf)| == |expenses|
  {
    FilterAllPass(expenses, Matches(All));
    assert |multiset(FilteredExpenses(expenses, All, sortBy, dayOf))| == |multiset(expenses)|;
  }

  /** With the filter on one category, exactly the records of that category
      are displayed, each as often as it occurs in the input. */
  lemma OnlyKeepsCategory(expenses: seq<Expense>, c: Category, sortBy: SortBy, dayOf: string -> int)
    ensures forall e :: multiset(FilteredExpenses(expenses, Only(c), sortBy, dayOf))[e] ==
                        if e.category == c then multiset(expenses)[e] else 0
    ensures forall e :: e in FilteredExpenses(expenses, Only(c), sortBy, dayOf) <==> e in expenses && e.category == c
  {
    FilterCounts(expenses, Matches(Only(c)));
    FilterMembers(expenses, Matches(Only(c)));
    SameMembers(FilteredExpenses(expenses, Only(c), sortBy, dayOf), Filter(expenses, Matches(Only(c))));
  }

  /** Sorted by date, dates never increase along the list. */
  lemma ByDateDescending(expenses: seq<Expense>, filter: CategoryFilter, dayOf: string -> int)
    ensures var r := FilteredExpenses(expenses, filter, ByDate, dayOf);
            forall i, j :: 0 <= i < j < |r| ==> dayOf(r[i].date) >= dayOf(r[j].date)
  {
  }

  /** Sorted by amount, amounts never increase along the list. */
  lemma ByAmountDescending(expenses: seq<Expense>, filter: CategoryFilter, dayOf: string -> int)
    ensures var r := FilteredExpenses(expenses, filter, ByAmount, dayOf);
            forall i, j :: 0 <= i < j < |r| ==> r[i].amount >= r[j].amount
  {
  }

  /** `Array.prototype.find` over a category table: the first row for the
      category, if any. */
  function FindCategory(table: seq<CategoryInfo>, c: Category): (r: Option<CategoryInfo>)
    ensures r.Some? ==> exists i :: 0 <= i < |table| && table[i] == r.value && r.value.value == c &&
                                    forall j :: 0 <= j < i ==> table[j].value != c
    ensures r.None? ==> forall i :: 0 <= i < |table| ==> table[i].value != c
  {
    if table == [] then None
    else if table[0].value == c then Some(table[0])
    else
      var r := FindCategory(table[1..], c);
      assert r.Some? ==> exists i :: 0 <= i < |table[1..]| && table[1..][i] == r.value &&
                                     forall j :: 0 <= j < i ==> table[1..][j].value != c;
      assert r.Some? ==> exists i :: 1 <= i < |table| && table[i] == r.value &&
                                     forall j :: 0 <= j < i ==> table[j].value != c by {
        if r.Some? {
          var i :| 0 <= i < |table[1..]| && table[1..][i] == r.value &&
                   forall j :: 0 <= j < i ==> table[1..][j].value != c;
          assert table[i + 1] == r.value;
          forall j | 0 <= j < i + 1 ensures table[j].value != c {
            if j > 0 { assert table[j] == table[1..][j - 1]; }
          }
        }
      }
      r
  }

  /** The display data of a category. */
  function GetCategoryData(c: Category): (r: Option<CategoryInfo>)
    ensures r.Some? && r.value in ExpenseCategories && r.value.value == c
  {
    assert ExpenseCategories[TableIndex(c)].value == c;
    FindCategory(ExpenseCategories, c)
  }

  /** Every category has its row in the table, so a row's badge, icon and
      colour are always found. */
  lemma CategoryDataFound(c: Category)
    ensures GetCategoryData(c) == Some(ExpenseCategories[TableIndex(c)])
  {
    var r := GetCategoryData(c);
    assert ExpenseCategories[TableIndex(c)].value == c;
    var i :| 0 <= i < |ExpenseCategories| && ExpenseCategories[i] == r.value && r.value.value == c;
    TableRowsDetermined(r.value, ExpenseCategories[TableIndex(c)]);
  }

  /** The footer under a long list: "Showing `shown` of `outOf` expenses". */
  datatype Footer = Footer(shown: nat, outOf: nat)

  /** What the list shows: the empty state, or a header count, the rows and
      an optional footer. */
  datatype ListView = NoExpenses | Listing(count: nat, rows: seq<Expense>, footer: Option<Footer>)

  function ExpenseListView(expenses: seq<Expense>, filter: CategoryFilter, sortBy: SortBy,
                           dayOf: string -> int): (v: ListView)
    ensures v.NoExpenses? <==> expenses == []
    ensures v.Listing? ==> v.rows == FilteredExpenses(expenses, filter, sortBy, dayOf)
    ensures v.Listing? ==> v.count == |v.rows| <= |expenses|
    ensures v.Listing? ==> (v.footer.Some? <==> v.count > 5)
    ensures v.Listing? && v.footer.Some? ==>
              5 < v.footer.value.shown <= 10 && v.footer.value.shown <= v.count &&
              v.footer.value.outOf == |expenses|
  {
    if |expenses| == 0 then NoExpenses
    else
      var rows := FilteredExpenses(expenses, filter, sortBy, dayOf);
      assert |rows| == |Filter(expenses, Matches(filter))| by {
        assert |multiset(rows)| == |multiset(Filter(expenses, Matches(filter)))|;
      }
      var n := |rows|;
      Listing(n, rows, if n > 5 then Some(Footer(if n < 10 then n else 10, |expenses|)) else None)
  }

  /** The footer's "showing" figure is min(count, 10): it equals the header
      count up to ten rows and stays at ten beyond, although every row is
      rendered. */
  lemma FooterShowsAtMostTen(expenses: seq<Expense>, filter: CategoryFilter, sortBy: SortBy, dayOf: string -> int)
    requires ExpenseListView(expenses, filter, sortBy, dayOf).Listing?
    requires ExpenseListView(expenses, filter, sortBy, dayOf).count > 5
    ensures var v := ExpenseListView(expenses, filter, sortBy, dayOf);
            v.footer.Some? &&
            (v.count <= 10 ==> v.footer.value.shown == v.count) &&
            (v.count > 10 ==> v.footer.value.shown == 10 < |v.rows|)
  {
  }
}
