/** The records shared by the aggregator, the insight generators and the
    importer (src/types/index.ts). */
module Types {
  import opened Wrappers

  /** Whether a transaction is an income or an expense. */
  datatype Kind = Income | Expense

  /** The calendar month a transaction's date falls in. The program only ever
      looks at a date through its month-and-year label, so the
      model keeps the (year, month-of-year) key instead of the ISO string. */
  datatype Month = Month(year: int, month: int)

  /** Chronological order of months: by year, then by month of the year. */
  predicate Before(a: Month, b: Month)
  {
    a.year < b.year || (a.year == b.year && a.month < b.month)
  }

  datatype Transaction = Transaction(
    id: string,
    description: string,
    amount: real,
    date: Month,
    kind: Kind,
    category: string,
    aiGenerated: Option<bool>)

  /** One row of `monthlyTrend`. */
  datatype TrendEntry = TrendEntry(month: Month, income: real, expenses: real)

  /** `categoryBreakdown` as an ordered list of (category, amount) pairs, in
      the order a JavaScript object enumerates its keys: first insertion. */
  type Breakdown = seq<(string, real)>

  datatype Stats = Stats(
    totalIncome: real,
    totalExpenses: real,
    balance: real,
    categoryBreakdown: Breakdown,
    monthlyTrend: seq<TrendEntry>)

  /** `AIInsight.type`. */
  datatype InsightKind = Warning | Info | Suggestion

  /** The messages of the local insight rules, one variant per rule, carrying
      the figures the message text is formatted from. */
  datatype Message =
    | ExpensesExceedIncome(expenses: real, income: real, deficit: real)
    | LargestCategory(category: string, amount: real, total: real)
    | PositiveBalance(balance: real)
    | ExpensesIncreased(previous: real, latest: real)

  datatype AIInsight = AIInsight(kind: InsightKind, message: Message)

  /** Position of a message's rule in the local rule list (0-based). */
  function RuleOf(m: Message): nat
  {
    match m
    case ExpensesExceedIncome(_, _, _) => 0
    case LargestCategory(_, _, _) => 1
    case PositiveBalance(_) => 2
    case ExpensesIncreased(_, _) => 3
  }

  /** The keys of an ordered (key, value) list. */
  function Keys<K, V>(s: seq<(K, V)>): (ks: seq<K>)
    ensures |ks| == |s|
    ensures forall i :: 0 <= i < |s| ==> ks[i] == s[i].0
  {
    if s == [] then [] else [s[0].0] + Keys(s[1..])
  }

  /** No element occurs twice. */
  predicate Distinct<T(==)>(s: seq<T>)
  {
    forall i, j :: 0 <= i < j < |s| ==> s[i] != s[j]
  }
}
