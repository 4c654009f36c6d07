/** The aggregator and the local insight rules (src/lib/utils.ts):
    `calculateStats` folds a transaction list into totals, a per-category
    breakdown of expenses and a chronological per-month trend, and
    `generateLocalInsights` applies four threshold rules to those figures. */
module Utils {
  import opened Wrappers
  import opened Types
  import opened Ledger
  import opened Ratio

  // ---------------------------------------------------------------------
  // categoryBreakdown
  // ---------------------------------------------------------------------

  /** `acc[key]`: the value stored under `key`, if any. */
  function Get(acc: Breakdown, key: string): Option<real>
  {
    if acc == [] then None
    else if acc[0].0 == key then Some(acc[0].1)
    else Get(acc[1..], key)
  }

  /** The sum of the values of a breakdown. */
  function ValuesSum(acc: Breakdown): real
  {
    if acc == [] then 0.0 else acc[0].1 + ValuesSum(acc[1..])
  }

  /** Adds `amount` to the entry for `key` (a missing entry counts as 0):
      a present key keeps its place
      and a new key goes last, as in a JavaScript object. */
  function AddTo(acc: Breakdown, key: string, amount: real): (r: Breakdown)
    ensures ValuesSum(r) == ValuesSum(acc) + amount
  {
    if acc == [] then [(key, amount)]
    else if acc[0].0 == key then [(key, acc[0].1 + amount)] + acc[1..]
    else [acc[0]] + AddTo(acc[1..], key, amount)
  }

  lemma {:induction false} AddToKeys(acc: Breakdown, key: string, amount: real)
    ensures Keys(AddTo(acc, key, amount)) ==
            if key in Keys(acc) then Keys(acc) else Keys(acc) + [key]
    decreases |acc|
  {
    if acc != [] && acc[0].0 != key {
      AddToKeys(acc[1..], key, amount);
      assert Keys(acc) == [acc[0].0] + Keys(acc[1..]);
    }
  }

  lemma {:induction false} AddToGet(acc: Breakdown, key: string, amount: real, c: string)
    ensures Get(AddTo(acc, key, amount), c) ==
            if c == key then Some(Get(acc, c).GetOr(0.0) + amount) else Get(acc, c)
    decreases |acc|
  {
    if acc == [] {
    } else if acc[0].0 == key {
      var r := [(key, acc[0].1 + amount)] + acc[1..];
      assert AddTo(acc, key, amount) == r;
      assert r[1..] == acc[1..];
    } else {
      var r := [acc[0]] + AddTo(acc[1..], key, amount);
      assert AddTo(acc, key, amount) == r;
      assert r[1..] == AddTo(acc[1..], key, amount);
      AddToGet(acc[1..], key, amount, c);
    }
  }

  /** The `reduce` that builds `categoryBreakdown` from the expenses. */
  function CategoryBreakdown(es: seq<Transaction>): Breakdown
  {
    if es == [] then []
    else AddTo(CategoryBreakdown(es[..|es| - 1]), es[|es| - 1].category, es[|es| - 1].amount)
  }

  /** Folding one more expense adds it to its category. */
  lemma {:induction false} BreakdownSnoc(pre: seq<Transaction>, x: Transaction)
    ensures CategoryBreakdown(pre + [x]) == AddTo(CategoryBreakdown(pre), x.category, x.amount)
  {
    var es := pre + [x];
    assert es[..|es| - 1] == pre;
    assert es[|es| - 1] == x;
  }

  /** The breakdown has one key per distinct category, in order of first
      occurrence. */
  lemma {:induction false} BreakdownKeys(es: seq<Transaction>)
    ensures Keys(CategoryBreakdown(es)) == Dedup(Categories(es))
    decreases |es|
  {
    if es != [] {
      var pre, x := es[..|es| - 1], es[|es| - 1];
      BreakdownKeys(pre);
      AddToKeys(CategoryBreakdown(pre), x.category, x.amount);
      assert Categories(es) == Categories(pre) + [x.category];
      PrefixOfSnoc(Categories(pre), x.category);
      assert Categories(es)[..|Categories(es)| - 1] == Categories(pre);
      DedupMembership(Categories(pre), x.category);
    }
  }

  lemma {:induction false} DedupMembership<T>(s: seq<T>, x: T)
    ensures x in Dedup(s) <==> x in s
  {
    if x in s {
      var i :| 0 <= i < |s| && s[i] == x;
    }
  }

  /** Each category maps to the sum of its amounts; an absent category has no
      entry (no zero-filling). */
  lemma {:induction false} BreakdownValue(es: seq<Transaction>, c: string)
    ensures Get(CategoryBreakdown(es), c) ==
            if c in Categories(es) then Some(Sum(OfCategory(es, c))) else None
    decreases |es|
  {
    if es != [] {
      var pre, x := es[..|es| - 1], es[|es| - 1];
      assert es == pre + [x];
      BreakdownValue(pre, c);
      if c == x.category {
        BreakdownValueSame(pre, x);
      } else {
        BreakdownValueOther(pre, x, c);
      }
    }
  }

  /** The step of `BreakdownValue` for the category just added to. */
  lemma {:induction false} BreakdownValueSame(pre: seq<Transaction>, x: Transaction)
    requires Get(CategoryBreakdown(pre), x.category) ==
             if x.category in Categories(pre) then Some(Sum(OfCategory(pre, x.category))) else None
    ensures var es := pre + [x];
      Get(CategoryBreakdown(es), x.category) == Some(Sum(OfCategory(es, x.category)))
  {
    var c, before := x.category, CategoryBreakdown(pre);
    PriorValue(pre, c);
    BreakdownSnoc(pre, x);
    AddToGet(before, c, x.amount, c);
    SumOfCategorySnoc(pre, x);
    AddedValue(CategoryBreakdown(pre + [x]), before, c, x.amount,
               Sum(OfCategory(pre, c)), Sum(OfCategory(pre + [x], c)));
  }

  /** Adding `amount` to a key whose value so far is `sofar` leaves
      `sofar + amount`. */
  lemma {:induction false} AddedValue(after: Breakdown, before: Breakdown, c: string, amount: real,
                                      sofar: real, total: real)
    requires Get(after, c) == Some(Get(before, c).GetOr(0.0) + amount)
    requires Get(before, c).GetOr(0.0) == sofar
    requires total == sofar + amount
    ensures Get(after, c) == Some(total)
  {
  }

  /** The step of `BreakdownValue` for any other category. */
  lemma {:induction false} BreakdownValueOther(pre: seq<Transaction>, x: Transaction, c: string)
    requires c != x.category
    requires Get(CategoryBreakdown(pre), c) ==
             if c in Categories(pre) then Some(Sum(OfCategory(pre, c))) else None
    ensures var es := pre + [x];
      Get(CategoryBreakdown(es), c) ==
        if c in Categories(es) then Some(Sum(OfCategory(es, c))) else None
  {
    var es := pre + [x];
    var before := CategoryBreakdown(pre);
    BreakdownSnoc(pre, x);
    AddToGet(before, x.category, x.amount, c);
    assert Categories(es) == Categories(pre) + [x.category];
    assert OfCategory(es, c) == OfCategory(pre, c);
  }

  lemma {:induction false} SumOfCategorySnoc(pre: seq<Transaction>, x: Transaction)
    ensures Sum(OfCategory(pre + [x], x.category)) == Sum(OfCategory(pre, x.category)) + x.amount
  {
    var c := x.category;
    PrefixOfSnoc(pre, x);
    assert OfCategory(pre + [x], c) == OfCategory(pre, c) + [x];
    PrefixOfSnoc(OfCategory(pre, c), x);
  }

  /** Under the induction hypothesis of `BreakdownValue`, the value the
      `reduce` starts a category from is the category's sum so far. */
  lemma {:induction false} PriorValue(pre: seq<Transaction>, c: string)
    requires Get(CategoryBreakdown(pre), c) ==
             if c in Categories(pre) then Some(Sum(OfCategory(pre, c))) else None
    ensures Get(CategoryBreakdown(pre), c).GetOr(0.0) == Sum(OfCategory(pre, c))
  {
    if c !in Categories(pre) {
      NoneOfCategory(pre, c);
    }
  }

  /** The values add up to the sum over all the transactions folded. */
  lemma {:induction false} BreakdownTotal(es: seq<Transaction>)
    ensures ValuesSum(CategoryBreakdown(es)) == Sum(es)
    decreases |es|
  {
    if es != [] {
      BreakdownTotal(es[..|es| - 1]);
    }
  }

  /** A category that does not occur contributes nothing. */
  lemma {:induction false} NoneOfCategory(xs: seq<Transaction>, c: string)
    requires c !in Categories(xs)
    ensures OfCategory(xs, c) == []
  {
    OfCategoryPresent(xs, c);
  }

  // ---------------------------------------------------------------------
  // monthlyTrend
  // ---------------------------------------------------------------------

  /** The months of a list of trend rows, in order. */
  function Months(s: seq<TrendEntry>): (ms: seq<Month>)
    ensures |ms| == |s|
    ensures forall i :: 0 <= i < |s| ==> ms[i] == s[i].month
  {
    if s == [] then [] else [s[0].month] + Months(s[1..])
  }

  /** `acc[month]`: the row of month `m`, if any. */
  function Find(acc: seq<TrendEntry>, m: Month): Option<TrendEntry>
  {
    if acc == [] then None
    else if acc[0].month == m then Some(acc[0])
    else Find(acc[1..], m)
  }

  function IncomeSum(s: seq<TrendEntry>): real
  {
    if s == [] then 0.0 else s[0].income + IncomeSum(s[1..])
  }

  function ExpenseSum(s: seq<TrendEntry>): real
  {
    if s == [] then 0.0 else s[0].expenses + ExpenseSum(s[1..])
  }

  /** The row a month starts with: `{ month, income: 0, expenses: 0 }`. */
  function EmptyRow(m: Month): TrendEntry
  {
    TrendEntry(m, 0.0, 0.0)
  }

  /** Adds a transaction to its month's row: income goes to the income
      column, and every other transaction to the expenses column. */
  function Credit(e: TrendEntry, t: Transaction): TrendEntry
  {
    if t.kind == Income then e.(income := e.income + t.amount)
    else e.(expenses := e.expenses + t.amount)
  }

  /** One step of the `reduce` that builds `monthlyData`. */
  function AddMonth(acc: seq<TrendEntry>, t: Transaction): (r: seq<TrendEntry>)
    ensures IncomeSum(r) == IncomeSum(acc) + (if t.kind == Income then t.amount else 0.0)
    ensures ExpenseSum(r) == ExpenseSum(acc) + (if t.kind == Expense then t.amount else 0.0)
  {
    if acc == [] then [Credit(EmptyRow(t.date), t)]
    else if acc[0].month == t.date then [Credit(acc[0], t)] + acc[1..]
    else [acc[0]] + AddMonth(acc[1..], t)
  }

  /** `monthlyData`: one row per month, in order of first occurrence. */
  function MonthlyData(xs: seq<Transaction>): seq<TrendEntry>
  {
    if xs == [] then []
    else AddMonth(MonthlyData(xs[..|xs| - 1]), xs[|xs| - 1])
  }

  /** The reference row of month `m`: the income and expense sums over the
      transactions dated in `m`. */
  function MonthRow(xs: seq<Transaction>, m: Month): TrendEntry
  {
    var inMonth := InMonth(xs, m);
    TrendEntry(m, Sum(OfKind(inMonth, Income)), Sum(OfKind(inMonth, Expense)))
  }

  lemma {:induction false} AddMonthMonths(acc: seq<TrendEntry>, t: Transaction)
    ensures Months(AddMonth(acc, t)) ==
            if t.date in Months(acc) then Months(acc) else Months(acc) + [t.date]
    decreases |acc|
  {
    if acc != [] && acc[0].month != t.date {
      AddMonthMonths(acc[1..], t);
      assert Months(acc) == [acc[0].month] + Months(acc[1..]);
    }
  }

  lemma {:induction false} AddMonthFind(acc: seq<TrendEntry>, t: Transaction, m: Month)
    ensures Find(AddMonth(acc, t), m) ==
            if m == t.date then Some(Credit(Find(acc, m).GetOr(EmptyRow(m)), t)) else Find(acc, m)
    decreases |acc|
  {
    if acc == [] {
    } else if acc[0].month == t.date {
      var r := [Credit(acc[0], t)] + acc[1..];
      assert AddMonth(acc, t) == r;
      assert r[1..] == acc[1..];
    } else {
      var r := [acc[0]] + AddMonth(acc[1..], t);
      assert AddMonth(acc, t) == r;
      assert r[1..] == AddMonth(acc[1..], t);
      AddMonthFind(acc[1..], t, m);
    }
  }

  /** The months of `monthlyData` are the distinct months of the input, in
      order of first occurrence. */
  lemma {:induction false} MonthlyDataMonths(xs: seq<Transaction>)
    ensures Months(MonthlyData(xs)) == Dedup(Dates(xs))
    decreases |xs|
  {
    if xs != [] {
      var pre, x := xs[..|xs| - 1], xs[|xs| - 1];
      MonthlyDataMonths(pre);
      AddMonthMonths(MonthlyData(pre), x);
      assert Dates(xs) == Dates(pre) + [x.date];
      PrefixOfSnoc(Dates(pre), x.date);
      assert Dates(xs)[..|Dates(xs)| - 1] == Dates(pre);
      DedupMembership(Dates(pre), x.date);
    }
  }

  /** Every month's row of `monthlyData` is that month's reference row. */
  lemma {:induction false} MonthlyDataFind(xs: seq<Transaction>, m: Month)
    ensures Find(MonthlyData(xs), m) == if m in Dates(xs) then Some(MonthRow(xs, m)) else None
    decreases |xs|
  {
    if xs != [] {
      var pre, x := xs[..|xs| - 1], xs[|xs| - 1];
      assert xs == pre + [x];
      var before, after := MonthlyData(pre), MonthlyData(xs);
      assert after == AddMonth(before, x);
      MonthlyDataFind(pre, m);
      AddMonthFind(before, x, m);
      assert Dates(xs) == Dates(pre) + [x.date];
      if m == x.date {
        assert Dates(xs)[|xs| - 1] == m;
        assert Find(after, m) == Some(Credit(Find(before, m).GetOr(EmptyRow(m)), x));
        CreditMonthRow(pre, x);
      } else {
        assert m in Dates(xs) <==> m in Dates(pre);
        assert InMonth(xs, m) == InMonth(pre, m);
      }
    }
  }

  /** Crediting a transaction to the reference row of its month gives the
      reference row of the extended list. */
  lemma {:induction false} CreditSnoc(pre: seq<Transaction>, x: Transaction)
    ensures Credit(MonthRow(pre, x.date), x) == MonthRow(pre + [x], x.date)
  {
    var im := InMonth(pre, x.date);
    PrefixOfSnoc(pre, x);
    assert InMonth(pre + [x], x.date) == im + [x];
    SumOfKindSnoc(im, x, Income);
    SumOfKindSnoc(im, x, Expense);
  }

  /** Crediting a transaction to its month's row so far gives the reference
      row of the extended list. */
  lemma {:induction false} CreditMonthRow(pre: seq<Transaction>, x: Transaction)
    requires Find(MonthlyData(pre), x.date) ==
             if x.date in Dates(pre) then Some(MonthRow(pre, x.date)) else None
    ensures Credit(Find(MonthlyData(pre), x.date).GetOr(EmptyRow(x.date)), x) ==
            MonthRow(pre + [x], x.date)
  {
    var m := x.date;
    if m !in Dates(pre) {
      NoneInMonth(pre, m);
      assert MonthRow(pre, m) == EmptyRow(m);
    }
    CreditSnoc(pre, x);
  }

  /** The income and expense columns of `monthlyData` add up to the income
      and expense totals. */
  lemma {:induction false} MonthlyDataSums(xs: seq<Transaction>)
    ensures IncomeSum(MonthlyData(xs)) == Sum(OfKind(xs, Income))
    ensures ExpenseSum(MonthlyData(xs)) == Sum(OfKind(xs, Expense))
    decreases |xs|
  {
    if xs != [] {
      var pre, x := xs[..|xs| - 1], xs[|xs| - 1];
      assert xs == pre + [x];
      MonthlyDataSums(pre);
      SumOfKindSnoc(pre, x, Income);
      SumOfKindSnoc(pre, x, Expense);
    }
  }

  /** Rows in strictly increasing calendar order. */
  predicate Chronological(s: seq<TrendEntry>)
  {
    forall i, j :: 0 <= i < j < |s| ==> Before(s[i].month, s[j].month)
  }

  /** Inserts a row in front of the first row of a later month. */
  function InsertByMonth(e: TrendEntry, s: seq<TrendEntry>): (r: seq<TrendEntry>)
    ensures multiset(r) == multiset(s) + multiset{e}
    ensures IncomeSum(r) == e.income + IncomeSum(s)
    ensures ExpenseSum(r) == e.expenses + ExpenseSum(s)
  {
    if s == [] || Before(e.month, s[0].month) then [e] + s
    else
      var rest := InsertByMonth(e, s[1..]);
      assert ([s[0]] + rest)[1..] == rest;
      assert s == [s[0]] + s[1..];
      [s[0]] + rest
  }

  /** The monthly rows sorted by calendar month. The rows of
      `monthlyData` have distinct months, so any correct sort gives the same
      result as this insertion sort. */
  function SortByMonth(s: seq<TrendEntry>): (r: seq<TrendEntry>)
    ensures multiset(r) == multiset(s)
    ensures IncomeSum(r) == IncomeSum(s)
    ensures ExpenseSum(r) == ExpenseSum(s)
  {
    if s == [] then []
    else
      assert s == [s[0]] + s[1..];
      InsertByMonth(s[0], SortByMonth(s[1..]))
  }

  lemma {:induction false} InsertByMonthChronological(e: TrendEntry, s: seq<TrendEntry>)
    requires Chronological(s)
    requires e.month !in Months(s)
    ensures Chronological(InsertByMonth(e, s))
    decreases |s|
  {
    if s != [] && !Before(e.month, s[0].month) {
      var h, t := s[0], s[1..];
      ChronologicalTail(s, e.month);
      InsertByMonthChronological(e, t);
      InsertAfter(h, e, t);
      ChronologicalCons(h, InsertByMonth(e, t));
    }
  }

  /** The tail of a chronological list is chronological and later than its
      head; a month missing from the list is missing from its tail. */
  lemma {:induction false} ChronologicalTail(s: seq<TrendEntry>, m: Month)
    requires s != [] && Chronological(s) && m !in Months(s)
    ensures Chronological(s[1..])
    ensures forall y :: y in s[1..] ==> Before(s[0].month, y.month)
    ensures m != s[0].month && m !in Months(s[1..])
  {
    assert Months(s) == [s[0].month] + Months(s[1..]);
    var t := s[1..];
    forall i, j | 0 <= i < j < |t|
      ensures Before(t[i].month, t[j].month)
    {
      assert t[i] == s[i + 1] && t[j] == s[j + 1];
    }
    forall y | y in t
      ensures Before(s[0].month, y.month)
    {
      var j :| 0 <= j < |t| && t[j] == y;
      assert s[j + 1] == y;
    }
  }

  /** Inserting a later row into rows that all follow `h` keeps them all
      after `h`. */
  lemma {:induction false} InsertAfter(h: TrendEntry, e: TrendEntry, t: seq<TrendEntry>)
    requires !Before(e.month, h.month) && e.month != h.month
    requires forall y :: y in t ==> Before(h.month, y.month)
    ensures forall y :: y in InsertByMonth(e, t) ==> Before(h.month, y.month)
  {
    var r := InsertByMonth(e, t);
    forall y | y in r
      ensures Before(h.month, y.month)
    {
      assert y in multiset(r);
      assert y == e || y in multiset(t);
    }
  }

  lemma {:induction false} ChronologicalCons(e: TrendEntry, s: seq<TrendEntry>)
    requires Chronological(s)
    requires forall y :: y in s ==> Before(e.month, y.month)
    ensures Chronological([e] + s)
  {
    var r := [e] + s;
    forall i, j | 0 <= i < j < |r|
      ensures Before(r[i].month, r[j].month)
    {
      assert r[j] == s[j - 1];
      if i > 0 {
        assert r[i] == s[i - 1];
      }
    }
  }

  /** Sorting rows of distinct months puts them in strictly increasing
      calendar order. */
  lemma {:induction false} SortByMonthChronological(s: seq<TrendEntry>)
    requires Distinct(Months(s))
    ensures Chronological(SortByMonth(s))
    decreases |s|
  {
    if s != [] {
      assert Distinct(Months(s[1..])) by {
        forall i, j | 0 <= i < j < |s[1..]|
          ensures Months(s[1..])[i] != Months(s[1..])[j]
        {
          assert Months(s)[i + 1] != Months(s)[j + 1];
        }
      }
      SortByMonthChronological(s[1..]);
      var sorted := SortByMonth(s[1..]);
      forall k | 0 <= k < |sorted|
        ensures Months(sorted)[k] != s[0].month
      {
        assert sorted[k] in multiset(s[1..]);
        var i :| 0 <= i < |s[1..]| && s[1..][i] == sorted[k];
        assert Months(s)[i + 1] != Months(s)[0];
      }
      InsertByMonthChronological(s[0], sorted);
    }
  }

  /** A row of a list with distinct months is the row `Find` returns for its
      month. */
  lemma {:induction false} FindMember(s: seq<TrendEntry>, e: TrendEntry)
    requires Distinct(Months(s))
    requires e in s
    ensures Find(s, e.month) == Some(e)
    decreases |s|
  {
    if s[0] != e {
      assert Distinct(Months(s[1..])) by {
        forall i, j | 0 <= i < j < |s[1..]|
          ensures Months(s[1..])[i] != Months(s[1..])[j]
        {
          assert Months(s)[i + 1] != Months(s)[j + 1];
        }
      }
      FindMember(s[1..], e);
    }
  }

  // ---------------------------------------------------------------------
  // calculateStats
  // ---------------------------------------------------------------------

  /** `calculateStats`. */
  function CalculateStats(xs: seq<Transaction>): Stats
  {
    var income := Sum(OfKind(xs, Income));
    var expenses := Sum(OfKind(xs, Expense));
    Stats(income, expenses, income - expenses,
          CategoryBreakdown(OfKind(xs, Expense)),
          SortByMonth(MonthlyData(xs)))
  }

  /** The expense sum of one category. */
  function CategorySpend(xs: seq<Transaction>, c: string): real
  {
    Sum(OfCategory(OfKind(xs, Expense), c))
  }

  /** The totals: income and expenses partition the input, the balance is
      their difference, and the empty list has all-zero statistics. */
  lemma {:induction false} StatsTotals(xs: seq<Transaction>)
    ensures var s := CalculateStats(xs);
      && s.totalIncome + s.totalExpenses == Sum(xs)
      && s.balance == s.totalIncome - s.totalExpenses
      && (xs == [] ==> s == Stats(0.0, 0.0, 0.0, [], []))
      && ((forall t :: t in xs ==> t.amount >= 0.0) ==>
            s.totalIncome >= 0.0 && s.totalExpenses >= 0.0)
  {
    SumSplitsByKind(xs);
    if forall t :: t in xs ==> t.amount >= 0.0 {
      SumNonNegative(OfKind(xs, Income));
      SumNonNegative(OfKind(xs, Expense));
    }
  }

  /** Appending one transaction adds its amount to the total of its own
      kind and leaves the other total unchanged. */
  lemma {:induction false} StatsSnoc(xs: seq<Transaction>, t: Transaction)
    ensures CalculateStats(xs + [t]).totalIncome ==
            CalculateStats(xs).totalIncome + (if t.kind == Income then t.amount else 0.0)
    ensures CalculateStats(xs + [t]).totalExpenses ==
            CalculateStats(xs).totalExpenses + (if t.kind == Expense then t.amount else 0.0)
  {
    SumOfKindSnoc(xs, t, Income);
    SumOfKindSnoc(xs, t, Expense);
  }

  /** The category breakdown of the statistics: one key per distinct
      expense category in order of first occurrence, each holding that
      category's expense sum, the values adding up to `totalExpenses`. */
  lemma {:induction false} StatsBreakdown(xs: seq<Transaction>)
    ensures var s := CalculateStats(xs);
      var es := OfKind(xs, Expense);
      && Keys(s.categoryBreakdown) == Dedup(Categories(es))
      && (forall c :: Get(s.categoryBreakdown, c) ==
            if c in Categories(es) then Some(CategorySpend(xs, c)) else None)
      && ValuesSum(s.categoryBreakdown) == s.totalExpenses
  {
    var es := OfKind(xs, Expense);
    var bd := CategoryBreakdown(es);
    assert CalculateStats(xs).categoryBreakdown == bd;
    BreakdownKeys(es);
    BreakdownTotal(es);
    forall c ensures Get(bd, c) == if c in Categories(es) then Some(CategorySpend(xs, c)) else None
    {
      BreakdownValue(es, c);
    }
  }

  /** An income transaction, wherever it sits, changes neither the
      breakdown nor the expense total. */
  lemma {:induction false} BreakdownIgnoresIncome(a: seq<Transaction>, t: Transaction, b: seq<Transaction>)
    requires t.kind == Income
    ensures CalculateStats(a + [t] + b).categoryBreakdown == CalculateStats(a + b).categoryBreakdown
    ensures CalculateStats(a + [t] + b).totalExpenses == CalculateStats(a + b).totalExpenses
  {
    OfKindAppend(a + [t], b, Expense);
    OfKindAppend(a, [t], Expense);
    OfKindAppend(a, b, Expense);
    assert OfKind([t], Expense) == [];
    assert OfKind(a + [t], Expense) == OfKind(a, Expense);
    assert OfKind(a + [t] + b, Expense) == OfKind(a + b, Expense);
  }

  /** The monthly trend: strictly increasing calendar order, exactly the
      months the input's dates fall in, each row holding that month's
      income and expense sums, the columns adding up to the totals. */
  lemma {:induction false} StatsTrend(xs: seq<Transaction>)
    ensures var s := CalculateStats(xs);
      var tr := s.monthlyTrend;
      && Chronological(tr)
      && (forall m :: m in Months(tr) <==> m in Dates(xs))
      && (forall i :: 0 <= i < |tr| ==> tr[i] == MonthRow(xs, tr[i].month))
      && IncomeSum(tr) == s.totalIncome
      && ExpenseSum(tr) == s.totalExpenses
  {
    var md := MonthlyData(xs);
    assert CalculateStats(xs).monthlyTrend == SortByMonth(md);
    MonthlyDataMonths(xs);
    MonthlyDataSums(xs);
    SortByMonthChronological(md);
    TrendRows(xs, md, SortByMonth(md));
    TrendMonths(xs, md, SortByMonth(md));
  }

  lemma {:induction false} TrendRows(xs: seq<Transaction>, md: seq<TrendEntry>, tr: seq<TrendEntry>)
    requires md == MonthlyData(xs) && Distinct(Months(md))
    requires multiset(tr) == multiset(md)
    ensures forall i :: 0 <= i < |tr| ==> tr[i] == MonthRow(xs, tr[i].month)
  {
    forall i | 0 <= i < |tr|
      ensures tr[i] == MonthRow(xs, tr[i].month)
    {
      assert tr[i] in multiset(md);
      FindMember(md, tr[i]);
      MonthlyDataFind(xs, tr[i].month);
    }
  }

  lemma {:induction false} TrendMonths(xs: seq<Transaction>, md: seq<TrendEntry>, tr: seq<TrendEntry>)
    requires Months(md) == Dedup(Dates(xs))
    requires multiset(tr) == multiset(md)
    ensures forall m :: m in Months(tr) <==> m in Dates(xs)
  {
    forall m
      ensures m in Months(tr) <==> m in Dates(xs)
    {
      DedupMembership(Dates(xs), m);
      if m in Months(tr) {
        var k :| 0 <= k < |tr| && Months(tr)[k] == m;
        assert tr[k] in multiset(md);
        var j :| 0 <= j < |md| && md[j] == tr[k];
        assert Months(md)[j] == m;
      }
      if m in Dates(xs) {
        assert m in Months(md);
        var j :| 0 <= j < |md| && Months(md)[j] == m;
        assert md[j] in multiset(tr);
        var k :| 0 <= k < |tr| && tr[k] == md[j];
        assert Months(tr)[k] == m;
      }
    }
  }

  // ---------------------------------------------------------------------
  // generateLocalInsights
  // ---------------------------------------------------------------------

  /** Entry `i` is the first entry of largest amount: no entry is larger and
      every earlier one is strictly smaller. */
  predicate FirstLargest(s: Breakdown, i: int)
  {
    && 0 <= i < |s|
    && (forall j :: 0 <= j < |s| ==> s[j].1 <= s[i].1)
    && (forall j :: 0 <= j < i ==> s[j].1 < s[i].1)
  }

  /** The `reduce` that keeps the running maximum, replacing it only by a
      strictly larger entry. */
  function Largest(s: Breakdown): (r: (string, real))
    requires s != []
    ensures r in s
    ensures forall j :: 0 <= j < |s| ==> s[j].1 <= r.1
  {
    if |s| == 1 then s[0]
    else
      var m := Largest(s[..|s| - 1]);
      if s[|s| - 1].1 > m.1 then s[|s| - 1] else m
  }

  /** The reduce returns the FIRST entry of largest amount: the strict `>`
      keeps the earlier entry on a tie. */
  lemma {:induction false} LargestIsFirstLargest(s: Breakdown) returns (i: nat)
    requires s != []
    ensures FirstLargest(s, i) && s[i] == Largest(s)
    decreases |s|
  {
    if |s| == 1 {
      i := 0;
    } else {
      var pre := s[..|s| - 1];
      var k := LargestIsFirstLargest(pre);
      if s[|s| - 1].1 > Largest(pre).1 {
        i := |s| - 1;
      } else {
        i := k;
      }
    }
  }

  /** Rule 1: expenses exceed income. */
  function OverspendRule(s: Stats): seq<AIInsight>
  {
    if s.totalExpenses > s.totalIncome then
      [AIInsight(Warning, ExpensesExceedIncome(s.totalExpenses, s.totalIncome,
                                               s.totalExpenses - s.totalIncome))]
    else []
  }

  /** Rule 2: the largest category takes more than 30% of the expenses,
      the percentage computed with JavaScript division. */
  function LargestCategoryRule(s: Stats): seq<AIInsight>
  {
    if s.categoryBreakdown == [] then []
    else
      var top := Largest(s.categoryBreakdown);
      if QuotientExceeds(100.0 * top.1, s.totalExpenses, 30.0) then
        [AIInsight(Info, LargestCategory(top.0, top.1, s.totalExpenses))]
      else []
  }

  /** Rule 3: the balance is positive. */
  function PositiveBalanceRule(s: Stats): seq<AIInsight>
  {
    if s.balance > 0.0 then [AIInsight(Info, PositiveBalance(s.balance))] else []
  }

  /** Rule 4: the latest month's expenses rose by more than 20% over the
      month before: a positive change whose percentage of the previous
      month, computed with JavaScript division, is above 20. */
  function ExpenseTrendRule(tr: seq<TrendEntry>): seq<AIInsight>
  {
    if |tr| >= 2 then
      var latest, previous := tr[|tr| - 1], tr[|tr| - 2];
      var change := latest.expenses - previous.expenses;
      if change > 0.0 && QuotientExceeds(100.0 * change, previous.expenses, 20.0) then
        [AIInsight(Warning, ExpensesIncreased(previous.expenses, latest.expenses))]
      else []
    else []
  }

  /** The four rules applied to a statistics value, in order. */
  function InsightsFor(s: Stats): seq<AIInsight>
  {
    OverspendRule(s) + LargestCategoryRule(s) + PositiveBalanceRule(s)
      + ExpenseTrendRule(s.monthlyTrend)
  }

  /** `generateLocalInsights`. */
  function GenerateLocalInsights(xs: seq<Transaction>): seq<AIInsight>
  {
    InsightsFor(CalculateStats(xs))
  }

  /** Some insight of `r` comes from rule number `rule`. */
  predicate Emits(r: seq<AIInsight>, rule: nat)
  {
    exists x :: x in r && RuleOf(x.message) == rule
  }

  /** Every insight of `r` comes from rule `rule` and has kind `kind`. */
  predicate AllFrom(r: seq<AIInsight>, rule: nat, kind: InsightKind)
  {
    |r| <= 1 && forall i :: 0 <= i < |r| ==> RuleOf(r[i].message) == rule && r[i].kind == kind
  }

  /** The shape of a list of insights: at most three, at most one per rule
      and in rule order, warnings for rules 1 and 4, information for rules
      2 and 3, never a suggestion. */
  predicate InsightShape(r: seq<AIInsight>)
  {
    && |r| <= 3
    && (forall i, j :: 0 <= i < j < |r| ==> RuleOf(r[i].message) < RuleOf(r[j].message))
    && (forall i :: 0 <= i < |r| ==>
          r[i].kind == (if RuleOf(r[i].message) == 0 || RuleOf(r[i].message) == 3 then Warning else Info))
    && (forall i :: 0 <= i < |r| ==> r[i].kind != Suggestion)
  }

  lemma {:induction false} InsightsForShape(s: Stats)
    requires s.balance == s.totalIncome - s.totalExpenses
    ensures InsightShape(InsightsFor(s))
  {
    var a, b, c, d := OverspendRule(s), LargestCategoryRule(s), PositiveBalanceRule(s),
                      ExpenseTrendRule(s.monthlyTrend);
    assert AllFrom(a, 0, Warning) && AllFrom(b, 1, Info) && AllFrom(c, 2, Info) && AllFrom(d, 3, Warning);
    assert |a| + |c| <= 1;
    var r := a + b + c + d;
    forall i | 0 <= i < |r|
      ensures RuleOf(r[i].message) ==
              if i < |a| then 0 else if i < |a| + |b| then 1 else if i < |a| + |b| + |c| then 2 else 3
      ensures r[i].kind == if i < |a| || i >= |a| + |b| + |c| then Warning else Info
    {
      if i < |a| {
        assert r[i] == a[i];
      } else if i < |a| + |b| {
        assert r[i] == b[i - |a|];
      } else if i < |a| + |b| + |c| {
        assert r[i] == c[i - |a| - |b|];
      } else {
        assert r[i] == d[i - |a| - |b| - |c|];
      }
    }
  }

  /** The shape of the result of `generateLocalInsights`. */
  lemma {:induction false} LocalInsightsShape(xs: seq<Transaction>)
    ensures InsightShape(GenerateLocalInsights(xs))
  {
    var s := CalculateStats(xs);
    assert s.balance == s.totalIncome - s.totalExpenses;
    InsightsForShape(s);
    assert GenerateLocalInsights(xs) == InsightsFor(s);
  }

  /** Which rule can produce which insight. */
  lemma {:induction false} InsightsForParts(s: Stats, x: AIInsight)
    requires x in InsightsFor(s)
    ensures RuleOf(x.message) == 0 ==> x in OverspendRule(s)
    ensures RuleOf(x.message) == 1 ==> x in LargestCategoryRule(s)
    ensures RuleOf(x.message) == 2 ==> x in PositiveBalanceRule(s)
    ensures RuleOf(x.message) == 3 ==> x in ExpenseTrendRule(s.monthlyTrend)
  {
  }

  /** The balance rules' contribution to `r` for the given totals: the
      overspending warning exactly when the expenses exceed the income, the
      positive-balance message exactly when the income exceeds the expenses,
      so never both, each carrying the totals it is about. */
  predicate BalanceMessages(r: seq<AIInsight>, income: real, expenses: real)
  {
    && (Emits(r, 0) <==> expenses > income)
    && (Emits(r, 2) <==> income > expenses)
    && !(Emits(r, 0) && Emits(r, 2))
    && (forall x :: x in r && RuleOf(x.message) == 0 ==>
          x.message == ExpensesExceedIncome(expenses, income, expenses - income))
    && (forall x :: x in r && RuleOf(x.message) == 2 ==>
          x.message == PositiveBalance(income - expenses))
  }

  lemma {:induction false} BalanceInsightsFor(s: Stats)
    requires s.balance == s.totalIncome - s.totalExpenses
    ensures BalanceMessages(InsightsFor(s), s.totalIncome, s.totalExpenses)
  {
    var r := InsightsFor(s);
    forall x | x in r
      ensures RuleOf(x.message) == 0 ==> x in OverspendRule(s)
      ensures RuleOf(x.message) == 2 ==> x in PositiveBalanceRule(s)
    {
      InsightsForParts(s, x);
    }
    if s.totalExpenses > s.totalIncome {
      assert OverspendRule(s)[0] in r;
    }
    if s.balance > 0.0 {
      assert PositiveBalanceRule(s)[0] in r;
    }
  }

  /** Rules 1 and 3 on the transactions, over their income and expense
      sums. */
  lemma {:induction false} BalanceInsights(xs: seq<Transaction>)
    ensures BalanceMessages(GenerateLocalInsights(xs), Sum(OfKind(xs, Income)), Sum(OfKind(xs, Expense)))
  {
    var s := CalculateStats(xs);
    assert s.balance == s.totalIncome - s.totalExpenses;
    BalanceInsightsFor(s);
    assert GenerateLocalInsights(xs) == InsightsFor(s);
  }

  lemma {:induction false} GetAt(acc: Breakdown, k: nat)
    requires Distinct(Keys(acc))
    requires k < |acc|
    ensures Get(acc, acc[k].0) == Some(acc[k].1)
    decreases |acc|
  {
    if k > 0 {
      assert Keys(acc)[0] != Keys(acc)[k];
      assert Distinct(Keys(acc[1..])) by {
        forall i, j | 0 <= i < j < |acc[1..]|
          ensures Keys(acc[1..])[i] != Keys(acc[1..])[j]
        {
          assert Keys(acc)[i + 1] != Keys(acc)[j + 1];
        }
      }
      GetAt(acc[1..], k - 1);
    }
  }

  lemma {:induction false} GetIndex(acc: Breakdown, c: string) returns (k: nat)
    requires Get(acc, c).Some?
    ensures k < |acc| && acc[k] == (c, Get(acc, c).value)
    decreases |acc|
  {
    if acc[0].0 == c {
      k := 0;
    } else {
      var k' := GetIndex(acc[1..], c);
      k := k' + 1;
    }
  }

  lemma {:induction false} LargestCategoryInsightFor(s: Stats)
    ensures var r := InsightsFor(s);
      var bd, total := s.categoryBreakdown, s.totalExpenses;
      && (Emits(r, 1) <==> bd != [] && QuotientExceeds(100.0 * Largest(bd).1, total, 30.0))
      && (forall x :: x in r && RuleOf(x.message) == 1 ==>
            && bd != []
            && x.message == LargestCategory(Largest(bd).0, Largest(bd).1, total))
  {
    var r := InsightsFor(s);
    forall x | x in r
      ensures RuleOf(x.message) == 1 ==> x in LargestCategoryRule(s)
    {
      InsightsForParts(s, x);
    }
    if LargestCategoryRule(s) != [] {
      assert LargestCategoryRule(s)[0] in r;
    }
  }

  /** Rule 2 fires in `r` exactly when the breakdown `bd` is non-empty and
      the reduce's pick passes the 30% test against `total`. */
  predicate RuleTwoMessages(r: seq<AIInsight>, bd: Breakdown, total: real)
  {
    Emits(r, 1) <==> bd != [] && QuotientExceeds(100.0 * Largest(bd).1, total, 30.0)
  }

  lemma {:induction false} RuleTwoFor(s: Stats)
    ensures RuleTwoMessages(InsightsFor(s), s.categoryBreakdown, s.totalExpenses)
  {
    LargestCategoryInsightFor(s);
  }

  /** On transactions, whatever the sign of the expense total: the
      dominant-category message appears exactly when there is an expense
      category and the reduce's pick passes the 30% test against the
      expense total. */
  lemma {:induction false} LargestCategoryRuleOf(xs: seq<Transaction>)
    ensures RuleTwoMessages(GenerateLocalInsights(xs), CalculateStats(xs).categoryBreakdown,
                            CalculateStats(xs).totalExpenses)
  {
    RuleTwoFor(CalculateStats(xs));
  }

  /** Rule 2 restated for a given largest entry `top` of the breakdown. */
  lemma {:induction false} LargestEntryInsight(s: Stats, top: (string, real))
    requires s.categoryBreakdown != [] && Largest(s.categoryBreakdown) == top
    ensures Emits(InsightsFor(s), 1) <==> QuotientExceeds(100.0 * top.1, s.totalExpenses, 30.0)
    ensures forall x :: x in InsightsFor(s) && RuleOf(x.message) == 1 ==>
              x.message == LargestCategory(top.0, top.1, s.totalExpenses)
  {
    LargestCategoryInsightFor(s);
  }

  /** The first largest entry of the statistics' breakdown names an expense
      category, holds its expense sum, and no category's sum is larger. */
  lemma {:induction false} LargestOfStats(xs: seq<Transaction>) returns (k: nat)
    requires CalculateStats(xs).categoryBreakdown != []
    ensures var bd := CalculateStats(xs).categoryBreakdown;
      var cats := Categories(OfKind(xs, Expense));
      && FirstLargest(bd, k) && bd[k] == Largest(bd)
      && bd[k].0 in cats
      && bd[k].1 == CategorySpend(xs, bd[k].0)
      && (forall c :: c in cats ==> CategorySpend(xs, c) <= bd[k].1)
  {
    var bd := CalculateStats(xs).categoryBreakdown;
    var cats := Categories(OfKind(xs, Expense));
    StatsBreakdown(xs);
    assert Distinct(Keys(bd));
    k := LargestIsFirstLargest(bd);
    var top := bd[k];
    assert top.0 in cats by {
      DedupMembership(cats, top.0);
      assert Keys(bd)[k] == top.0;
    }
    GetAt(bd, k);
    forall c | c in cats
      ensures CategorySpend(xs, c) <= top.1
    {
      var j := GetIndex(bd, c);
    }
  }

  /** Every expense category has an entry in the breakdown. */
  lemma {:induction false} BreakdownNonEmpty(xs: seq<Transaction>)
    requires Categories(OfKind(xs, Expense)) != []
    ensures CalculateStats(xs).categoryBreakdown != []
  {
    var cats := Categories(OfKind(xs, Expense));
    StatsBreakdown(xs);
    DedupMembership(cats, cats[0]);
    assert cats[0] in Keys(CalculateStats(xs).categoryBreakdown);
  }

  /** Rule 2: when the largest-category message appears it names the first
      category of largest expense sum (ties go to the category met first)
      together with that sum and the expense total, and the share exceeds
      30%. */
  lemma {:induction false} LargestCategoryInsight(xs: seq<Transaction>)
    ensures var r := GenerateLocalInsights(xs);
      var s := CalculateStats(xs);
      var bd, total := s.categoryBreakdown, s.totalExpenses;
      var cats := Categories(OfKind(xs, Expense));
      forall x :: x in r && RuleOf(x.message) == 1 ==>
        && x.message.total == total
        && (exists k :: FirstLargest(bd, k) && bd[k] == (x.message.category, x.message.amount))
        && x.message.category in cats
        && x.message.amount == CategorySpend(xs, x.message.category)
        && (forall c :: c in cats ==> CategorySpend(xs, c) <= x.message.amount)
        && QuotientExceeds(100.0 * x.message.amount, total, 30.0)
  {
    var s := CalculateStats(xs);
    var bd, total := s.categoryBreakdown, s.totalExpenses;
    var cats := Categories(OfKind(xs, Expense));
    var r := GenerateLocalInsights(xs);
    assert r == InsightsFor(s);
    LargestCategoryInsightFor(s);
    if bd != [] {
      var k := LargestOfStats(xs);
      var top := bd[k];
      LargestEntryInsight(s, top);
      forall x | x in r && RuleOf(x.message) == 1
        ensures x.message.total == total
        ensures exists k :: FirstLargest(bd, k) && bd[k] == (x.message.category, x.message.amount)
        ensures x.message.category in cats
        ensures x.message.amount == CategorySpend(xs, x.message.category)
        ensures forall c :: c in cats ==> CategorySpend(xs, c) <= x.message.amount
        ensures QuotientExceeds(100.0 * x.message.amount, total, 30.0)
      {
        assert x.message == LargestCategory(top.0, top.1, total);
        assert Emits(r, 1);
      }
    }
  }

  /** Rule 2, when it fires: with a positive expense total the message
      appears exactly when SOME expense category's share exceeds 30%; with a
      zero total exactly when some category has a positive sum (`x / 0` is
      `Infinity` in JavaScript). */
  lemma {:induction false} LargestCategoryFires(xs: seq<Transaction>)
    ensures var r := GenerateLocalInsights(xs);
      var total := CalculateStats(xs).totalExpenses;
      var cats := Categories(OfKind(xs, Expense));
      && (total > 0.0 ==>
            (Emits(r, 1) <==> exists c :: c in cats && 100.0 * CategorySpend(xs, c) > 30.0 * total))
      && (total == 0.0 ==>
            (Emits(r, 1) <==> exists c :: c in cats && CategorySpend(xs, c) > 0.0))
  {
    var s := CalculateStats(xs);
    var bd, total := s.categoryBreakdown, s.totalExpenses;
    var cats := Categories(OfKind(xs, Expense));
    var r := GenerateLocalInsights(xs);
    assert r == InsightsFor(s);
    LargestCategoryInsightFor(s);
    if bd == [] {
      if cats != [] {
        BreakdownNonEmpty(xs);
      }
    } else {
      var k := LargestOfStats(xs);
      var top := bd[k];
      LargestEntryInsight(s, top);
      if total > 0.0 {
        assert (exists c :: c in cats && 100.0 * CategorySpend(xs, c) > 30.0 * total)
               <==> 100.0 * top.1 > 30.0 * total;
      }
      if total == 0.0 {
        assert (exists c :: c in cats && CategorySpend(xs, c) > 0.0) <==> top.1 > 0.0;
      }
    }
  }

  /** Rule 4, on the trend rows alone: with the expenses of the previous
      month `p` and of the latest month `l`, the warning fires exactly when
      `p >= 0` and `l - p` exceeds `p / 5`; a drop or no change never fires,
      and a rise over a zero month always does. */
  lemma {:induction false} ExpenseTrendRuleFires(tr: seq<TrendEntry>)
    ensures ExpenseTrendRule(tr) != [] <==>
      |tr| >= 2 && tr[|tr| - 2].expenses >= 0.0
      && 5.0 * (tr[|tr| - 1].expenses - tr[|tr| - 2].expenses) > tr[|tr| - 2].expenses
  {
  }

  /** Rule 4's contribution to `r` for the trend `tr`: the warning appears
      exactly when the rule fires on the last two rows, and it compares
      their expense sums and reports a strict rise. */
  predicate TrendMessages(r: seq<AIInsight>, tr: seq<TrendEntry>)
  {
    && (Emits(r, 3) <==>
          |tr| >= 2 && tr[|tr| - 2].expenses >= 0.0
          && 5.0 * (tr[|tr| - 1].expenses - tr[|tr| - 2].expenses) > tr[|tr| - 2].expenses)
    && (forall x :: x in r && RuleOf(x.message) == 3 ==>
          && |tr| >= 2
          && x.message == ExpensesIncreased(tr[|tr| - 2].expenses, tr[|tr| - 1].expenses)
          && x.message.latest > x.message.previous)
  }

  lemma {:induction false} ExpenseTrendInsightFor(s: Stats)
    ensures TrendMessages(InsightsFor(s), s.monthlyTrend)
  {
    var tr := s.monthlyTrend;
    var r := InsightsFor(s);
    ExpenseTrendRuleFires(tr);
    forall x | x in r
      ensures RuleOf(x.message) == 3 ==> x in ExpenseTrendRule(tr)
    {
      InsightsForParts(s, x);
    }
    if ExpenseTrendRule(tr) != [] {
      assert ExpenseTrendRule(tr)[0] in r;
    }
  }

  /** In a chronological trend every month other than the last two comes
      before the second-to-last one. */
  lemma {:induction false} EarlierThanLastTwo(tr: seq<TrendEntry>, m: Month)
    requires Chronological(tr) && |tr| >= 2
    requires m in Months(tr) && m != tr[|tr| - 1].month && m != tr[|tr| - 2].month
    ensures Before(m, tr[|tr| - 2].month)
  {
    var k :| 0 <= k < |tr| && Months(tr)[k] == m;
    assert k < |tr| - 2;
  }

  /** The last two trend rows are the two latest months of the input, in
      order, each holding that month's sums. */
  lemma {:induction false} LatestMonths(xs: seq<Transaction>)
    ensures var tr := CalculateStats(xs).monthlyTrend;
      |tr| >= 2 ==>
        && tr[|tr| - 1] == MonthRow(xs, tr[|tr| - 1].month)
        && tr[|tr| - 2] == MonthRow(xs, tr[|tr| - 2].month)
        && Before(tr[|tr| - 2].month, tr[|tr| - 1].month)
        && (forall m :: m in Dates(xs) && m != tr[|tr| - 1].month && m != tr[|tr| - 2].month ==>
              Before(m, tr[|tr| - 2].month))
  {
    var tr := CalculateStats(xs).monthlyTrend;
    StatsTrend(xs);
    if |tr| >= 2 {
      forall m | m in Dates(xs) && m != tr[|tr| - 1].month && m != tr[|tr| - 2].month
        ensures Before(m, tr[|tr| - 2].month)
      {
        EarlierThanLastTwo(tr, m);
      }
    }
  }

  /** Rule 4 on the transactions: the warning compares the last two rows of
      the trend (the two latest months of the input, by `LatestMonths`) and
      carries their expense sums. */
  lemma {:induction false} ExpenseTrendInsight(xs: seq<Transaction>)
    ensures TrendMessages(GenerateLocalInsights(xs), CalculateStats(xs).monthlyTrend)
  {
    var s := CalculateStats(xs);
    ExpenseTrendInsightFor(s);
    assert GenerateLocalInsights(xs) == InsightsFor(s);
  }
}
