/** The expense engine: the in-memory expense store, the monthly
    aggregation and the next-day spending prediction.

    Amounts are exact reals. The clock, the random source and date parsing
    are parameters: `currentMonth` is the "YYYY-MM" of today's UTC date,
    `now` is the current instant in days since the UTC epoch (its fraction
    is the UTC time of day), `dayOf` turns a "YYYY-MM-DD" string into the
    day number of its UTC midnight, which is how such a string parses (None
    for a string that is not a date), and `random` is the value drawn from
    the uniform random source. */
module ExpenseUtils {
  import opened Wrappers
  import opened SeqUtil
  import opened ExpenseTypes

  // ---------------------------------------------------------------------
  // Store
  // ---------------------------------------------------------------------

  /** The predicate "the record's id differs from `id`". */
  function KeepOthers(id: string): Expense -> bool {
    (e: Expense) => e.id != id
  }

  /** The records of `s` whose id is not `id`, in their order. */
  function Without(s: seq<Expense>, id: string): (r: seq<Expense>)
    ensures |r| <= |s|
    ensures forall e :: e in r ==> e in s && e.id != id
  {
    FilterMembers(s, KeepOthers(id));
    Filter(s, KeepOthers(id))
  }

  /** Every record has a positive amount, as the form enforces. */
  predicate AllPositive(s: seq<Expense>) {
    forall e :: e in s ==> e.amount > 0.0
  }

  /** The stored expense records, in insertion order. */
  class ExpenseStore {
    var expenses: seq<Expense>

    constructor ()
      ensures expenses == []
    {
      expenses := [];
    }

    /** The stored records, unchanged. */
    method GetAll() returns (r: seq<Expense>)
      ensures r == expenses
    {
      r := expenses;
    }

    /** Appends a record carrying the given fields, id and creation time,
        and returns it. The form only submits a positive amount and a
        non-empty description. */
    method Add(amount: real, category: Category, description: string, date: string,
               id: string, createdAt: string) returns (e: Expense)
      requires amount > 0.0 && description != ""
      modifies this
      ensures e == Expense(id, amount, category, description, date, createdAt)
      ensures expenses == old(expenses) + [e]
      ensures AllPositive(old(expenses)) ==> AllPositive(expenses)
    {
      e := Expense(id, amount, category, description, date, createdAt);
      if AllPositive(expenses) {
        AddKeepsPositive(expenses, e);
      }
      expenses := expenses + [e];
    }

    /** Keeps every record whose id differs from `id`. */
    method Delete(id: string)
      modifies this
      ensures expenses == Without(old(expenses), id)
      ensures AllPositive(old(expenses)) ==> AllPositive(expenses)
    {
      if AllPositive(expenses) {
        DeleteKeepsPositive(expenses, id);
      }
      expenses := Filter(expenses, KeepOthers(id));
    }
  }

  /** Appending a record with a positive amount keeps every amount
      positive. */
  lemma AddKeepsPositive(s: seq<Expense>, e: Expense)
    requires AllPositive(s) && e.amount > 0.0
    ensures AllPositive(s + [e])
  {
  }

  /** Deleting keeps every amount positive. */
  lemma DeleteKeepsPositive(s: seq<Expense>, id: string)
    requires AllPositive(s)
    ensures AllPositive(Without(s, id))
  {
    FilterMembers(s, KeepOthers(id));
  }

  /** Deleting removes every record with the id and keeps every other. */
  lemma DeleteRemovesExactly(s: seq<Expense>, id: string)
    ensures forall e :: e in Without(s, id) <==> e in s && e.id != id
  {
    FilterMembers(s, KeepOthers(id));
  }

  /** Deleting keeps the remaining records in their relative order: it
      distributes over any split of the store. */
  lemma DeleteKeepsOrder(s: seq<Expense>, t: seq<Expense>, id: string)
    ensures Without(s + t, id) == Without(s, id) + Without(t, id)
  {
    FilterConcat(s, t, KeepOthers(id));
  }

  /** Deleting an id that no record carries leaves the store unchanged. */
  lemma DeleteAbsent(s: seq<Expense>, id: string)
    requires forall e :: e in s ==> e.id != id
    ensures Without(s, id) == s
  {
    FilterAllPass(s, KeepOthers(id));
  }

  /** Deleting twice equals deleting once. */
  lemma DeleteIdempotent(s: seq<Expense>, id: string)
    ensures Without(Without(s, id), id) == Without(s, id)
  {
    FilterIdempotent(s, KeepOthers(id));
  }

  /** Deleting the record just added, when no earlier record has its id,
      restores the store. */
  lemma DeleteUndoesAdd(s: seq<Expense>, e: Expense)
    requires forall x :: x in s ==> x.id != e.id
    ensures Without(s + [e], e.id) == s
  {
    FilterSnoc(s, e, KeepOthers(e.id));
    DeleteAbsent(s, e.id);
  }

  // ---------------------------------------------------------------------
  // Sums
  // ---------------------------------------------------------------------

  /** The sum of the amounts, accumulated from the left. */
  function Sum(s: seq<Expense>): real {
    if s == [] then 0.0 else Sum(s[..|s| - 1]) + s[|s| - 1].amount
  }

  /** The sum of the amounts of the records in category `c`. */
  function CategorySum(s: seq<Expense>, c: Category): real {
    if s == [] then 0.0
    else CategorySum(s[..|s| - 1], c) + if s[|s| - 1].category == c then s[|s| - 1].amount else 0.0
  }

  /** Appending a record adds its amount to the sum and to its own
      category's sum, and nothing to the other categories. */
  lemma SumSnoc(s: seq<Expense>, e: Expense)
    ensures Sum(s + [e]) == Sum(s) + e.amount
    ensures forall c :: CategorySum(s + [e], c) == CategorySum(s, c) + if e.category == c then e.amount else 0.0
  {
    assert (s + [e])[..|s|] == s;
  }

  /** `totals` has a bucket for every category holding the sum of the
      records of `s` in that category, and `total` is the sum of `s`. */
  ghost predicate Accumulated(totals: CategoryTotals, total: real, s: seq<Expense>) {
    HasAllCategories(totals) &&
    (forall c :: c in AllCategories ==> totals[c] == CategorySum(s, c)) &&
    total == Sum(s)
  }

  /** An accumulation's total is the sum of its buckets. */
  lemma AccumulatedBuckets(totals: CategoryTotals, total: real, s: seq<Expense>)
    requires Accumulated(totals, total, s)
    ensures total == BucketSum(totals)
  {
    CategoryTableOrder();
    SumIsBucketSum(s);
  }

  /** Every category at zero. */
  function ZeroTotals(): CategoryTotals {
    map[Food := 0.0, Travel := 0.0, Books := 0.0, Fun := 0.0, Other := 0.0]
  }

  /** Zero buckets and a zero total are the accumulation of no record. */
  lemma ZeroAccumulated()
    ensures Accumulated(ZeroTotals(), 0.0, [])
  {
    assert ZeroTotals().Keys == AllCategories;
  }

  /** Adding a record's amount to the total and to its own bucket turns the
      accumulation of `s` into the accumulation of `s + [e]`. */
  lemma AccumulateStep(totals: CategoryTotals, total: real, s: seq<Expense>, e: Expense)
    requires Accumulated(totals, total, s)
    requires e.category in totals
    ensures Accumulated(totals[e.category := totals[e.category] + e.amount], total + e.amount, s + [e])
  {
    SumSnoc(s, e);
  }

  /** The sum over the five category buckets. */
  function BucketSum(totals: CategoryTotals): real
    requires HasAllCategories(totals)
  {
    totals[Food] + totals[Travel] + totals[Books] + totals[Fun] + totals[Other]
  }

  /** Every record falls in exactly one bucket, so the buckets add up to the
      total. */
  lemma {:induction false} SumIsBucketSum(s: seq<Expense>)
    ensures Sum(s) == CategorySum(s, Food) + CategorySum(s, Travel) + CategorySum(s, Books)
                      + CategorySum(s, Fun) + CategorySum(s, Other)
  {
    if s != [] {
      SumIsBucketSum(s[..|s| - 1]);
    }
  }

  /** Records that all have non-negative amounts sum to a non-negative
      amount. */
  lemma {:induction false} SumNonNegative(s: seq<Expense>)
    requires forall e :: e in s ==> e.amount >= 0.0
    ensures Sum(s) >= 0.0
  {
    if s != [] {
      SumNonNegative(s[..|s| - 1]);
    }
  }

  /** With non-negative amounts every category total is non-negative. */
  lemma {:induction false} CategorySumNonNegative(s: seq<Expense>, c: Category)
    requires forall e :: e in s ==> e.amount >= 0.0
    ensures CategorySum(s, c) >= 0.0
  {
    if s != [] {
      CategorySumNonNegative(s[..|s| - 1], c);
    }
  }

  // ---------------------------------------------------------------------
  // Monthly aggregation
  // ---------------------------------------------------------------------

  /** A record belongs to month `m` when its date string starts with `m`. */
  function InMonth(m: string): Expense -> bool {
    (e: Expense) => m <= e.date
  }

  /** The records of month `m`, in their order. */
  function MonthlyExpenses(s: seq<Expense>, m: string): (r: seq<Expense>)
    ensures |r| <= |s|
    ensures forall e :: e in r ==> e in s && m <= e.date
  {
    FilterMembers(s, InMonth(m));
    Filter(s, InMonth(m))
  }

  /** Totals the records of the target month, overall and per category. An
      absent or empty `month` selects `currentMonth`. */
  method CalculateMonthlySpending(expenses: seq<Expense>, month: Option<string>, currentMonth: string)
    returns (r: MonthlySpending)
    ensures month.Some? && month.value != "" ==> r.month == month.value
    ensures month == None || month == Some("") ==> r.month == currentMonth
    ensures Accumulated(r.categoryTotals, r.total, MonthlyExpenses(expenses, r.month))
    ensures HasAllCategories(r.categoryTotals)
    ensures forall c :: c in AllCategories ==>
              r.categoryTotals[c] == CategorySum(MonthlyExpenses(expenses, r.month), c)
    ensures r.total == Sum(MonthlyExpenses(expenses, r.month))
    ensures r.total == BucketSum(r.categoryTotals)
  {
    var targetMonth := if month.Some? && month.value != "" then month.value else currentMonth;
    var categoryTotals, total := Accumulate(MonthlyExpenses(expenses, targetMonth));
    r := MonthlySpending(targetMonth, total, categoryTotals);
  }

  /** The `forEach` over the month's records: starting from zero buckets and
      a zero total, adds each amount to the total and to its category's
      bucket. */
  method Accumulate(monthly: seq<Expense>) returns (categoryTotals: CategoryTotals, total: real)
    ensures Accumulated(categoryTotals, total, monthly)
    ensures HasAllCategories(categoryTotals) && total == BucketSum(categoryTotals)
  {
    categoryTotals := ZeroTotals();
    total := 0.0;
    var i := 0;
    ZeroAccumulated();
    assert monthly[..0] == [];
    while i < |monthly|
      invariant 0 <= i <= |monthly|
      invariant Accumulated(categoryTotals, total, monthly[..i])
    {
      var expense := monthly[i];
      assert monthly[..i + 1] == monthly[..i] + [expense];
      CategoryClosed(expense.category);
      AccumulateStep(categoryTotals, total, monthly[..i], expense);
      total := total + expense.amount;
      categoryTotals := categoryTotals[expense.category := categoryTotals[expense.category] + expense.amount];
      i := i + 1;
    }
    assert monthly[..i] == monthly;
    AccumulatedBuckets(categoryTotals, total, monthly);
  }

  /** A record contributes to the month exactly when its date starts with
      the month string: appending it adds its amount to the total and to its
      own bucket if so, and changes nothing otherwise. */
  lemma MonthlyContribution(s: seq<Expense>, e: Expense, m: string)
    ensures Sum(MonthlyExpenses(s + [e], m)) ==
            Sum(MonthlyExpenses(s, m)) + if m <= e.date then e.amount else 0.0
    ensures forall c :: CategorySum(MonthlyExpenses(s + [e], m), c) ==
              CategorySum(MonthlyExpenses(s, m), c) + (if m <= e.date && e.category == c then e.amount else 0.0)
  {
    FilterSnoc(s, e, InMonth(m));
    var t := MonthlyExpenses(s, m);
    if m <= e.date {
      assert (t + [e])[..|t|] == t;
    } else {
      assert t + [] == t;
    }
  }

  /** A month that no record's date starts with has total 0 and every
      bucket 0. */
  lemma EmptyMonth(s: seq<Expense>, m: string)
    requires forall e :: e in s ==> !(m <= e.date)
    ensures Sum(MonthlyExpenses(s, m)) == 0.0
    ensures forall c :: CategorySum(MonthlyExpenses(s, m), c) == 0.0
  {
    FilterNonePass(s, InMonth(m));
  }

  /** A record whose date does not start with the month never contributes,
      wherever it sits in the input. */
  lemma OutsideMonthIgnored(s: seq<Expense>, t: seq<Expense>, e: Expense, m: string)
    requires !(m <= e.date)
    ensures MonthlyExpenses(s + [e] + t, m) == MonthlyExpenses(s + t, m)
  {
    FilterConcat(s + [e], t, InMonth(m));
    FilterSnoc(s, e, InMonth(m));
    FilterConcat(s, t, InMonth(m));
  }

  /** Two records of the month (10 for food, 20 for travel) and one food
      record of 5 from another month: the other month's record is left out,
      food and travel carry 10 and 20, and the other buckets are 0. */
  lemma MonthExample(s: seq<Expense>, m: string)
    requires |s| == 3
    requires s[0].amount == 10.0 && s[0].category == Food && m <= s[0].date
    requires s[1].amount == 20.0 && s[1].category == Travel && m <= s[1].date
    requires s[2].amount == 5.0 && s[2].category == Food && !(m <= s[2].date)
    ensures var monthly := MonthlyExpenses(s, m);
            Sum(monthly) == 30.0 && CategorySum(monthly, Food) == 10.0 && CategorySum(monthly, Travel) == 20.0 &&
            CategorySum(monthly, Books) == 0.0 && CategorySum(monthly, Fun) == 0.0 && CategorySum(monthly, Other) == 0.0
  {
    MonthExampleSelection(s, m);
    PairSums(s[0], s[1]);
  }

  lemma PairSums(a: Expense, b: Expense)
    ensures Sum([a, b]) == a.amount + b.amount
    ensures forall c :: CategorySum([a, b], c) ==
              (if a.category == c then a.amount else 0.0) + (if b.category == c then b.amount else 0.0)
  {
    assert [a, b][..1] == [a];
    assert [a][..0] == [];
    assert Sum([a]) == a.amount;
    assert forall c :: CategorySum([a], c) == if a.category == c then a.amount else 0.0;
  }

  lemma MonthExampleSelection(s: seq<Expense>, m: string)
    requires |s| == 3 && m <= s[0].date && m <= s[1].date && !(m <= s[2].date)
    ensures MonthlyExpenses(s, m) == [s[0], s[1]]
  {
    var a, b, c, p := s[0], s[1], s[2], InMonth(m);
    assert s == [a, b] + [c];
    assert p(a) && p(b) && !p(c);
    FilterKeepsPair(a, b, p);
    FilterSnoc([a, b], c, p);
  }

  // ---------------------------------------------------------------------
  // Prediction
  // ---------------------------------------------------------------------

  const StartTracking := "Start tracking expenses to get predictions!"
  const TrackMore := "Track more expenses for better predictions"
  const PatternEmerging := "Good spending pattern emerging"
  const ConsistentPattern := "Based on your consistent spending pattern"

  /** A record is recent when the UTC midnight of its date is at or after the
      cutoff instant; there is no upper bound, and a date that does not
      parse never compares as recent. */
  function OnOrAfter(dayOf: string -> Option<int>, cutoff: real): Expense -> bool {
    (e: Expense) => dayOf(e.date).Some? && dayOf(e.date).value as real >= cutoff
  }

  /** The records dated at or after the instant seven days before now. */
  function RecentExpenses(expenses: seq<Expense>, dayOf: string -> Option<int>, now: real): (r: seq<Expense>)
    ensures |r| <= |expenses|
    ensures forall e :: e in r ==> e in expenses && dayOf(e.date).Some? && dayOf(e.date).value as real >= now - 7.0
  {
    FilterMembers(expenses, OnOrAfter(dayOf, now - 7.0));
    Filter(expenses, OnOrAfter(dayOf, now - 7.0))
  }

  /** The distinct date strings among the records. */
  function DateSet(s: seq<Expense>): (r: set<string>)
    ensures |r| <= |s|
    ensures s != [] ==> s[|s| - 1].date in r
  {
    if s == [] then {} else DateSet(s[..|s| - 1]) + {s[|s| - 1].date}
  }

  /** A date is among the distinct dates exactly when some record carries
      it. */
  lemma {:induction false} DateSetMembers(s: seq<Expense>)
    ensures forall d :: d in DateSet(s) <==> exists e :: e in s && e.date == d
  {
    if s != [] {
      var init := s[..|s| - 1];
      assert s == init + [s[|s| - 1]];
      DateSetMembers(init);
    }
  }

  /** A non-empty window has at least one and at most one date per record. */
  lemma {:induction false} DistinctDatesBounds(s: seq<Expense>)
    requires s != []
    ensures 1 <= |DateSet(s)| <= |s|
  {
    var init := s[..|s| - 1];
    if init == [] {
      assert DateSet(s) == {s[0].date};
    } else {
      DistinctDatesBounds(init);
      assert DateSet(s) == DateSet(init) + {s[|s| - 1].date};
    }
  }

  /** The confidence tier from the number of recent records. */
  function ConfidenceFor(count: nat): (c: Confidence)
    ensures c == Low <==> count < 3
    ensures c == Medium <==> 3 <= count < 7
    ensures c == High <==> 7 <= count
  {
    if count < 3 then Low else if count < 7 then Medium else High
  }

  /** The advice that goes with each tier; it never reads like the advice
      for an empty window. */
  function SuggestionFor(c: Confidence): (s: string)
    ensures s != StartTracking
  {
    match c
    case Low => TrackMore
    case Medium => PatternEmerging
    case High => ConsistentPattern
  }

  /** The window total divided by the number of distinct dates (at least 1). */
  function AveragePerDay(recent: seq<Expense>): (a: real)
    ensures recent == [] ==> a == 0.0
    ensures recent != [] ==> a * |DateSet(recent)| as real == Sum(recent)
  {
    var days := |DateSet(recent)|;
    assert recent != [] ==> days >= 1 by { if recent != [] { DistinctDatesBounds(recent); } }
    Sum(recent) / (if days > 1 then days else 1) as real
  }

  /** The average moved by (random - 0.5) times a fifth of itself, clamped
      at zero. */
  function Jittered(average: real, random: real): (p: real)
    ensures p >= 0.0
  {
    var variation := average * 0.2;
    var moved := average + (random - 0.5) * variation;
    if moved > 0.0 then moved else 0.0
  }

  /** Math.round(x * 100) / 100 over exact reals: to the nearest cent,
      halves rounded up. */
  function RoundCents(x: real): (r: real)
    ensures x - 0.005 < r <= x + 0.005
    ensures (r * 100.0).Floor as real == r * 100.0
    ensures x >= 0.0 ==> r >= 0.0
  {
    ((x * 100.0 + 0.5).Floor as real) / 100.0
  }

  /** The next-day prediction from the trailing seven-day window. */
  function PredictTomorrowSpending(expenses: seq<Expense>, dayOf: string -> Option<int>,
                                   now: real, random: real): (p: SpendingPrediction)
    ensures RecentExpenses(expenses, dayOf, now) == [] ==>
              p == SpendingPrediction(0.0, Low, StartTracking)
    ensures RecentExpenses(expenses, dayOf, now) != [] ==>
              p.confidence == ConfidenceFor(|RecentExpenses(expenses, dayOf, now)|) &&
              p.suggestion == SuggestionFor(p.confidence) &&
              p.predictedAmount == RoundCents(Jittered(AveragePerDay(RecentExpenses(expenses, dayOf, now)), random))
    ensures p.predictedAmount >= 0.0
  {
    var recent := RecentExpenses(expenses, dayOf, now);
    if |recent| == 0 then
      SpendingPrediction(0.0, Low, StartTracking)
    else
      var confidence := ConfidenceFor(|recent|);
      var predicted := Jittered(AveragePerDay(recent), random);
      SpendingPrediction(RoundCents(predicted), confidence, SuggestionFor(confidence))
  }

  /** The average is the window total over the number of distinct dates, the
      max(..., 1) guard never applies to a non-empty window, and with
      non-negative amounts the average is non-negative. */
  lemma AverageIsTotalOverDays(recent: seq<Expense>)
    requires recent != []
    ensures AveragePerDay(recent) == Sum(recent) / |DateSet(recent)| as real
    ensures (forall e :: e in recent ==> e.amount >= 0.0) ==> AveragePerDay(recent) >= 0.0
  {
    DistinctDatesBounds(recent);
    var days := |DateSet(recent)| as real;
    assert days >= 1.0;
    if forall e :: e in recent ==> e.amount >= 0.0 {
      SumNonNegative(recent);
      DivNonNegative(Sum(recent), days);
    }
  }

  lemma DivNonNegative(x: real, d: real)
    requires x >= 0.0 && d > 0.0
    ensures x / d >= 0.0
  {
  }

  lemma MulNonNegative(a: real, b: real)
    requires a >= 0.0 && b >= 0.0
    ensures a * b >= 0.0
  {
  }

  /** For a random value in [0, 1) and a non-negative average, the jittered
      amount lies within ten per cent of the average. */
  lemma JitterWithinTenPercent(average: real, random: real)
    requires average >= 0.0
    requires 0.0 <= random < 1.0
    ensures 0.9 * average <= Jittered(average, random) <= 1.1 * average
  {
    var x, v := random - 0.5, average * 0.2;
    MulNonNegative(0.5 - x, v);
    MulNonNegative(x + 0.5, v);
    assert 0.1 * average - x * v == (0.5 - x) * v;
    assert x * v + 0.1 * average == (x + 0.5) * v;
  }

  /** For a non-empty window of non-negative amounts and a random value in
      [0, 1), the prediction is within ten per cent (plus half a cent of
      rounding) of the window's average per day. */
  lemma PredictionBounds(expenses: seq<Expense>, dayOf: string -> Option<int>, now: real, random: real)
    requires RecentExpenses(expenses, dayOf, now) != []
    requires AllPositive(expenses)
    requires 0.0 <= random < 1.0
    ensures var average := AveragePerDay(RecentExpenses(expenses, dayOf, now));
            var p := PredictTomorrowSpending(expenses, dayOf, now, random).predictedAmount;
            0.9 * average - 0.005 < p <= 1.1 * average + 0.005
  {
    var recent := RecentExpenses(expenses, dayOf, now);
    FilterMembers(expenses, OnOrAfter(dayOf, now - 7.0));
    AverageIsTotalOverDays(recent);
    JitterWithinTenPercent(AveragePerDay(recent), random);
  }

  /** A record dated in the future still counts as recent: the window has
      no upper bound. */
  lemma FutureDatedIsRecent(expenses: seq<Expense>, dayOf: string -> Option<int>, now: real, e: Expense)
    requires e in expenses
    requires dayOf(e.date).Some? && dayOf(e.date).value as real > now
    ensures e in RecentExpenses(expenses, dayOf, now)
  {
    FilterMembers(expenses, OnOrAfter(dayOf, now - 7.0));
  }

  /** The window in whole days, with `today` the current UTC date: at UTC
      midnight it reaches back seven days before today; at any other time
      of day the date seven days back is already out and the window starts
      six days before today. */
  lemma WindowInDays(expenses: seq<Expense>, dayOf: string -> Option<int>, now: real, e: Expense)
    requires e in expenses && dayOf(e.date).Some?
    ensures var d, today := dayOf(e.date).value, now.Floor;
            e in RecentExpenses(expenses, dayOf, now) <==>
              if now == today as real then d >= today - 7 else d >= today - 6
  {
    FilterMembers(expenses, OnOrAfter(dayOf, now - 7.0));
  }

  /** Three records of 10 on three distinct days of the window, with the
      random value at its midpoint, give a medium-confidence prediction of
      exactly 10. */
  lemma ThreeDaysOfTen(s: seq<Expense>, dayOf: string -> Option<int>, now: real)
    requires |s| == 3
    requires forall i :: 0 <= i < 3 ==> s[i].amount == 10.0 && dayOf(s[i].date) == Some(now.Floor - i)
    ensures PredictTomorrowSpending(s, dayOf, now, 0.5) == SpendingPrediction(10.0, Medium, PatternEmerging)
  {
    ThreeDaysInWindow(s, dayOf, now);
    ThreeDaysAverage(s);
    assert Jittered(10.0, 0.5) == 10.0;
    assert RoundCents(10.0) == 10.0;
  }

  lemma ThreeDaysInWindow(s: seq<Expense>, dayOf: string -> Option<int>, now: real)
    requires |s| == 3
    requires forall i :: 0 <= i < 3 ==> s[i].amount == 10.0 && dayOf(s[i].date) == Some(now.Floor - i)
    ensures RecentExpenses(s, dayOf, now) == s
    ensures s[0].date != s[1].date && s[0].date != s[2].date && s[1].date != s[2].date
  {
    var p := OnOrAfter(dayOf, now - 7.0);
    forall x | x in s ensures p(x) {
      var k :| 0 <= k < 3 && s[k] == x;
    }
    FilterAllPass(s, p);
    assert dayOf(s[0].date) != dayOf(s[1].date);
    assert dayOf(s[0].date) != dayOf(s[2].date);
    assert dayOf(s[1].date) != dayOf(s[2].date);
  }

  lemma ThreeDaysAverage(s: seq<Expense>)
    requires |s| == 3 && s[0].amount == 10.0 && s[1].amount == 10.0 && s[2].amount == 10.0
    requires s[0].date != s[1].date && s[0].date != s[2].date && s[1].date != s[2].date
    ensures AveragePerDay(s) == 10.0
  {
    ThreeRecords(s);
  }

  lemma ThreeRecords(s: seq<Expense>)
    requires |s| == 3
    ensures Sum(s) == s[0].amount + s[1].amount + s[2].amount
    ensures DateSet(s) == {s[0].date, s[1].date, s[2].date}
    ensures s[0].date != s[1].date && s[0].date != s[2].date && s[1].date != s[2].date ==> |DateSet(s)| == 3
  {
    assert s == [s[0], s[1]] + [s[2]];
    PairSums(s[0], s[1]);
    PairDates(s[0], s[1]);
    assert s[..2] == [s[0], s[1]];
  }

  lemma PairDates(a: Expense, b: Expense)
    ensures DateSet([a, b]) == {a.date, b.date}
  {
    assert [a, b][..1] == [a];
    assert [a][..0] == [];
  }
}
