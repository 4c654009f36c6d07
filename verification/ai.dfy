/** The rule-based "AI" service (src/lib/ai.ts): a keyword categoriser for
    transaction descriptions and a generator of up to three spending tips. */
module Ai {
  import opened Wrappers
  import opened Types
  import opened Text
  import opened Ledger
  import opened Utils
  import opened Ratio

  // ---------------------------------------------------------------------
  // categorizeTransactionWithAI
  // ---------------------------------------------------------------------

  /** One line of the categoriser: if the lower-cased description contains
      any of `keywords`, the transaction belongs to `category`. */
  datatype Rule = Rule(keywords: seq<string>, category: string)

  const IncomeRules: seq<Rule> := [
    Rule(["salary", "paycheck"], "Salary"),
    Rule(["freelance", "contract"], "Freelance"),
    Rule(["investment", "dividend"], "Investment")
  ]

  const IncomeFallback: string := "Other Income"

  const ExpenseRules: seq<Rule> := [
    Rule(["grocery", "food", "supermarket"], "Groceries"),
    Rule(["restaurant", "cafe", "coffee"], "Dining Out"),
    Rule(["gas", "fuel", "uber", "taxi"], "Transportation"),
    Rule(["rent", "mortgage"], "Housing"),
    Rule(["electric", "water", "internet", "phone"], "Utilities"),
    Rule(["netflix", "spotify", "subscription"], "Entertainment"),
    Rule(["doctor", "pharmacy", "hospital"], "Healthcare"),
    Rule(["gym", "fitness"], "Fitness"),
    Rule(["clothes", "shopping"], "Shopping")
  ]

  const ExpenseFallback: string := "Other"

  /** The rules consulted for a transaction of kind `k`, and the category
      when none matches. */
  function RulesFor(k: Kind): seq<Rule>
  {
    if k == Income then IncomeRules else ExpenseRules
  }

  function FallbackFor(k: Kind): string
  {
    if k == Income then IncomeFallback else ExpenseFallback
  }

  /** Every category the categoriser can answer for kind `k`. */
  function LabelsFor(k: Kind): (r: seq<string>)
  {
    if k == Income then ["Salary", "Freelance", "Investment", "Other Income"]
    else ["Groceries", "Dining Out", "Transportation", "Housing", "Utilities",
          "Entertainment", "Healthcare", "Fitness", "Shopping", "Other"]
  }

  /** Some keyword of `rule` occurs in `text`. */
  predicate Matches(text: string, rule: Rule)
  {
    exists i :: 0 <= i < |rule.keywords| && Contains(text, rule.keywords[i])
  }

  /** The category of the first rule that matches, else `fallback`. */
  function FirstMatch(rules: seq<Rule>, text: string, fallback: string): (r: string)
    ensures r == fallback || exists i :: 0 <= i < |rules| && r == rules[i].category
  {
    if rules == [] then fallback
    else if Matches(text, rules[0]) then rules[0].category
    else
      FirstMatch(rules[1..], text, fallback)
  }

  /** Rules are tried in order: when rule `i` is the first one to match,
      its category is the answer. */
  lemma {:induction false} FirstMatchAt(rules: seq<Rule>, text: string, fallback: string, i: nat)
    requires i < |rules| && Matches(text, rules[i])
    requires forall j :: 0 <= j < i ==> !Matches(text, rules[j])
    ensures FirstMatch(rules, text, fallback) == rules[i].category
    decreases i
  {
    if i > 0 {
      assert !Matches(text, rules[0]);
      assert rules[1..][i - 1] == rules[i];
      forall j | 0 <= j < i - 1
        ensures !Matches(text, rules[1..][j])
      {
        assert rules[1..][j] == rules[j + 1];
      }
      FirstMatchAt(rules[1..], text, fallback, i - 1);
    }
  }

  /** When no rule matches, the answer is the fallback. */
  lemma {:induction false} FirstMatchNone(rules: seq<Rule>, text: string, fallback: string)
    requires forall j :: 0 <= j < |rules| ==> !Matches(text, rules[j])
    ensures FirstMatch(rules, text, fallback) == fallback
    decreases |rules|
  {
    if rules != [] {
      assert !Matches(text, rules[0]);
      forall j | 0 <= j < |rules[1..]|
        ensures !Matches(text, rules[1..][j])
      {
        assert rules[1..][j] == rules[j + 1];
      }
      FirstMatchNone(rules[1..], text, fallback);
    }
  }

  /** `categorizeTransactionWithAI`: the category of the first rule of the
      transaction's kind whose keyword occurs in the lower-cased
      description. The amount is not consulted. */
  function Categorize(description: string, amount: real, k: Kind): (r: string)
    ensures r in LabelsFor(k)
  {
    FirstMatch(RulesFor(k), Lower(description), FallbackFor(k))
  }

  /** The categoriser's answer for kind `k` is the category of the first
      matching rule, or the fallback when no rule matches; either way the
      amount plays no part. */
  lemma {:induction false} CategorizeSpec(description: string, amount: real, k: Kind)
    ensures var text, rules := Lower(description), RulesFor(k);
      var r := Categorize(description, amount, k);
      && ((forall j :: 0 <= j < |rules| ==> !Matches(text, rules[j])) ==> r == FallbackFor(k))
      && (forall i ::
            (0 <= i < |rules| && Matches(text, rules[i]) &&
             forall j :: 0 <= j < i ==> !Matches(text, rules[j])) ==> r == rules[i].category)
      && (forall other: real :: Categorize(description, other, k) == r)
  {
    var text, rules := Lower(description), RulesFor(k);
    if forall j :: 0 <= j < |rules| ==> !Matches(text, rules[j]) {
      FirstMatchNone(rules, text, FallbackFor(k));
    }
    forall i | 0 <= i < |rules| && Matches(text, rules[i]) &&
               (forall j :: 0 <= j < i ==> !Matches(text, rules[j]))
      ensures Categorize(description, amount, k) == rules[i].category
    {
      FirstMatchAt(rules, text, FallbackFor(k), i);
    }
  }

  /** Upper and lower case are not told apart. */
  lemma {:induction false} CategorizeIgnoresCase(description: string, amount: real, k: Kind)
    ensures Categorize(Lower(description), amount, k) == Categorize(description, amount, k)
  {
    LowerIdempotent(description);
  }

  /** An income is never put in an expense category and vice versa. */
  lemma {:induction false} KindsDoNotShareLabels(description: string, amount: real)
    ensures Categorize(description, amount, Income) !in LabelsFor(Expense)
    ensures Categorize(description, amount, Expense) !in LabelsFor(Income)
  {
    assert forall l :: l in LabelsFor(Income) ==> l !in LabelsFor(Expense);
  }

  /** A description with no text falls through every rule. */
  lemma {:induction false} EmptyDescription(amount: real, k: Kind)
    ensures Categorize("", amount, k) == FallbackFor(k)
  {
    var rules := RulesFor(k);
    forall j | 0 <= j < |rules|
      ensures !Matches("", rules[j])
    {
      forall w | w in rules[j].keywords
        ensures !Contains("", w)
      {
        EmptyContainsNothing(w);
      }
    }
    FirstMatchNone(rules, Lower(""), FallbackFor(k));
  }

  /** Earlier rules win: a description mentioning food is a grocery
      expense even when it also mentions coffee, a dining-out keyword. */
  lemma {:induction false} FoodBeatsCoffee(description: string, amount: real)
    requires Contains(Lower(description), "food")
    ensures Categorize(description, amount, Expense) == "Groceries"
  {
    assert Matches(Lower(description), ExpenseRules[0]) by {
      assert ExpenseRules[0].keywords[1] == "food";
    }
    FirstMatchAt(ExpenseRules, Lower(description), ExpenseFallback, 0);
  }

  /** A salary keyword makes an income a salary, but says nothing about an
      expense: the two kinds have separate rule lists. */
  lemma {:induction false} SalaryOnlyForIncome(description: string, amount: real)
    requires Contains(Lower(description), "salary")
    ensures Categorize(description, amount, Income) == "Salary"
    ensures Categorize(description, amount, Expense) != "Salary"
  {
    assert Matches(Lower(description), IncomeRules[0]) by {
      assert IncomeRules[0].keywords[0] == "salary";
    }
    FirstMatchAt(IncomeRules, Lower(description), IncomeFallback, 0);
  }

  // ---------------------------------------------------------------------
  // generateAIInsights
  // ---------------------------------------------------------------------

  /** The tips `generateAIInsights` can produce, with the figures their
      text is formatted from. */
  datatype Tip =
    | StartTracking
    | TopSpending(category: string, amount: real, total: real)
    | CookMoreAtHome
    | RecentAverage(average: real)
    | KeepTracking

  /** Inserts `e` in front of the first entry whose amount is at most
      `e`'s. Inserting the entries of a list from the last to the first this
      way keeps equal amounts in input order. */
  function InsertDesc(e: (string, real), s: Breakdown): (r: Breakdown)
    ensures multiset(r) == multiset(s) + multiset{e}
    ensures |r| == |s| + 1
  {
    if s == [] || e.1 >= s[0].1 then [e] + s
    else
      assert s == [s[0]] + s[1..];
      [s[0]] + InsertDesc(e, s[1..])
  }

  /** The comparator sort of the category entries, which is stable: by descending
      amount, equal amounts kept in input order. */
  function SortDesc(s: Breakdown): (r: Breakdown)
    ensures multiset(r) == multiset(s)
    ensures |r| == |s|
  {
    if s == [] then []
    else
      assert s == [s[0]] + s[1..];
      InsertDesc(s[0], SortDesc(s[1..]))
  }

  predicate Descending(s: Breakdown)
  {
    forall i, j :: 0 <= i < j < |s| ==> s[i].1 >= s[j].1
  }

  lemma {:induction false} InsertDescDescending(e: (string, real), s: Breakdown)
    requires Descending(s)
    ensures Descending(InsertDesc(e, s))
    decreases |s|
  {
    if s != [] && e.1 < s[0].1 {
      var rest := InsertDesc(e, s[1..]);
      assert Descending(s[1..]);
      InsertDescDescending(e, s[1..]);
      var r := [s[0]] + rest;
      forall i, j | 0 <= i < j < |r|
        ensures r[i].1 >= r[j].1
      {
        if i == 0 {
          assert r[j] in multiset(rest);
          if r[j] != e {
            assert r[j] in multiset(s[1..]);
            var k :| 0 <= k < |s[1..]| && s[1..][k] == r[j];
            assert s[k + 1] == r[j];
          }
        } else {
          assert r[i] == rest[i - 1] && r[j] == rest[j - 1];
        }
      }
    }
  }

  /** The sorted list is a permutation in descending order. */
  lemma {:induction false} SortDescSorted(s: Breakdown)
    ensures Descending(SortDesc(s))
    decreases |s|
  {
    if s != [] {
      SortDescSorted(s[1..]);
      InsertDescDescending(s[0], SortDesc(s[1..]));
    }
  }

  /** The head of an insertion is the new entry if it is at least as large
      as the old head, else the old head. */
  lemma {:induction false} InsertDescHead(e: (string, real), s: Breakdown)
    ensures InsertDesc(e, s)[0] == if s == [] || e.1 >= s[0].1 then e else s[0]
  {
  }

  /** At most one entry is the first of largest amount. */
  lemma {:induction false} FirstLargestUnique(s: Breakdown, i: int, j: int)
    requires FirstLargest(s, i) && FirstLargest(s, j)
    ensures i == j
  {
    var a, b := s[i].1, s[j].1;
    assert a <= b && b <= a;
  }

  /** The head of the stable descending sort is the first entry of largest
      amount, the same entry the local rules' `reduce` picks. */
  lemma {:induction false} SortDescHead(s: Breakdown)
    requires s != []
    ensures SortDesc(s)[0] == Largest(s)
    ensures exists i :: FirstLargest(s, i) && SortDesc(s)[0] == s[i]
    decreases |s|
  {
    var i := SortDescHeadIndex(s);
    var k := LargestIsFirstLargest(s);
    FirstLargestUnique(s, i, k);
  }

  lemma {:induction false} SortDescHeadIndex(s: Breakdown) returns (i: nat)
    requires s != []
    ensures FirstLargest(s, i) && SortDesc(s)[0] == s[i]
    decreases |s|
  {
    InsertDescHead(s[0], SortDesc(s[1..]));
    if |s| == 1 {
      i := 0;
    } else {
      var t := s[1..];
      var j := SortDescHeadIndex(t);
      if s[0].1 >= t[j].1 {
        i := 0;
        HeadLargest(s, j);
      } else {
        i := j + 1;
        TailLargest(s, j);
      }
    }
  }

  /** A head at least as large as the tail's first largest entry is the
      first largest entry. */
  lemma {:induction false} HeadLargest(s: Breakdown, j: nat)
    requires |s| > 1 && FirstLargest(s[1..], j) && s[0].1 >= s[1..][j].1
    ensures FirstLargest(s, 0)
  {
    var t := s[1..];
    forall m | 0 <= m < |s|
      ensures s[m].1 <= s[0].1
    {
      if m > 0 {
        assert s[m] == t[m - 1];
      }
    }
  }

  /** A head smaller than the tail's first largest entry leaves that entry
      the first largest one. */
  lemma {:induction false} TailLargest(s: Breakdown, j: nat)
    requires |s| > 1 && FirstLargest(s[1..], j) && s[0].1 < s[1..][j].1
    ensures FirstLargest(s, j + 1)
  {
    var t := s[1..];
    var i := j + 1;
    assert s[i] == t[j];
    forall m | 0 <= m < |s|
      ensures s[m].1 <= s[i].1
      ensures m < i ==> s[m].1 < s[i].1
    {
      if m > 0 {
        assert s[m] == t[m - 1];
      }
    }
  }

  /** The last ten expenses, or all of them when
      there are fewer. */
  function Recent(es: seq<Transaction>): (r: seq<Transaction>)
    ensures |r| == if |es| < 10 then |es| else 10
    ensures r == es[|es| - |r|..]
  {
    if |es| <= 10 then es else es[|es| - 10..]
  }

  /** The top-category tip: the head of the sorted breakdown and its share
      of `total`. */
  function TopTip(cats: Breakdown, total: real): seq<Tip>
  {
    if cats == [] then []
    else
      var top := SortDesc(cats)[0];
      [TopSpending(top.0, top.1, total)]
  }

  /** The cooking tip: both the dining and the grocery figures are present
      and non-zero (JavaScript truthiness), and dining is more than half of
      their sum. */
  function CookingTip(cats: Breakdown): seq<Tip>
  {
    match (Get(cats, "Dining Out"), Get(cats, "Groceries"))
    case (Some(d), Some(g)) =>
      if d != 0.0 && g != 0.0 && QuotientExceeds(d, d + g, 0.5) then [CookMoreAtHome] else []
    case _ => []
  }

  /** The recent-average tip: the mean of the recent expenses exceeds 50.
      Without expenses the mean is `0 / 0`, which compares false. */
  function RecentTip(es: seq<Transaction>): seq<Tip>
  {
    var recent := Recent(es);
    if recent == [] then []
    else
      var average := Sum(recent) / (|recent| as real);
      if average > 50.0 then [RecentAverage(average)] else []
  }

  /** The tips for a list of expenses. */
  function TipsFor(es: seq<Transaction>): (r: seq<Tip>)
    ensures 1 <= |r| <= 3
  {
    var total := Sum(es);
    if total == 0.0 then [StartTracking]
    else
      var cats := CategoryBreakdown(es);
      var tips := TopTip(cats, total) + CookingTip(cats) + RecentTip(es);
      if tips != [] then tips else [KeepTracking]
  }

  /** `generateAIInsights`: the tips for the transactions' expenses. */
  function GenerateAIInsights(xs: seq<Transaction>): (r: seq<Tip>)
    ensures 1 <= |r| <= 3
  {
    TipsFor(OfKind(xs, Expense))
  }

  /** Expenses with a non-zero total have at least one category. */
  lemma {:induction false} ExpensesHaveCategory(es: seq<Transaction>)
    requires Sum(es) != 0.0
    ensures CategoryBreakdown(es) != []
  {
    NonZeroSumNonEmpty(es);
    BreakdownKeys(es);
    DedupMembership(Categories(es), es[0].category);
    assert es[0].category in Categories(es);
  }

  /** The cooking and recent-average rules each add at most their own tip. */
  lemma {:induction false} OptionalTips(cats: Breakdown, es: seq<Transaction>)
    ensures CookingTip(cats) == [] || CookingTip(cats) == [CookMoreAtHome]
    ensures RecentTip(es) == [] || (|RecentTip(es)| == 1 && RecentTip(es)[0].RecentAverage?)
  {
  }

  /** With a zero expense total the only tip is to start tracking; otherwise
      there is an expense, hence a category, hence a top-category tip
      first, so the final fallback is never used. */
  lemma {:induction false} TipsShape(es: seq<Transaction>)
    ensures var r := TipsFor(es);
      var cats := CategoryBreakdown(es);
      && (r == [StartTracking] <==> Sum(es) == 0.0)
      && KeepTracking !in r
      && (Sum(es) != 0.0 ==>
            && r[0].TopSpending?
            && r == TopTip(cats, Sum(es)) + CookingTip(cats) + RecentTip(es))
  {
    if Sum(es) != 0.0 {
      TipsNonZero(es);
    }
  }

  /** The tips for expenses with a non-zero total: the top-category tip,
      then the optional ones. */
  lemma {:induction false} TipsNonZero(es: seq<Transaction>)
    requires Sum(es) != 0.0
    ensures var r, cats := TipsFor(es), CategoryBreakdown(es);
      && r == TopTip(cats, Sum(es)) + CookingTip(cats) + RecentTip(es)
      && r != [StartTracking] && KeepTracking !in r && r[0].TopSpending?
  {
    ExpensesHaveCategory(es);
    var cats := CategoryBreakdown(es);
    var top, cook, recent := TopTip(cats, Sum(es)), CookingTip(cats), RecentTip(es);
    assert |top| == 1 && top[0].TopSpending?;
    OptionalTips(cats, es);
    TipsOfParts(top, cook, recent);
  }

  /** A top-category tip followed by optional cooking and recent-average
      tips is neither the start-tracking answer nor holds the fallback. */
  lemma {:induction false} TipsOfParts(top: seq<Tip>, cook: seq<Tip>, recent: seq<Tip>)
    requires |top| == 1 && top[0].TopSpending?
    requires cook == [] || cook == [CookMoreAtHome]
    requires recent == [] || (|recent| == 1 && recent[0].RecentAverage?)
    ensures var r := top + cook + recent;
      r != [] && r != [StartTracking] && KeepTracking !in r && r[0].TopSpending?
  {
    var r := top + cook + recent;
    assert r[0] == top[0];
    assert forall i :: 0 <= i < |r| ==> r[i] != KeepTracking by {
      forall i | 0 <= i < |r| ensures r[i] != KeepTracking {
        if i >= |top| + |cook| {
          assert r[i] == recent[i - |top| - |cook|];
        } else if i >= |top| {
          assert r[i] == cook[i - |top|];
        }
      }
    }
  }

  /** The whole generator: one to three tips, never the fallback, the
      start-tracking tip exactly when the expenses sum to zero, and
      otherwise a top-category tip followed by the cooking and
      recent-average tips when they apply. */
  lemma {:induction false} AIInsightsShape(xs: seq<Transaction>)
    ensures var r := GenerateAIInsights(xs);
      var es := OfKind(xs, Expense);
      var cats := CategoryBreakdown(es);
      && 1 <= |r| <= 3
      && (r == [StartTracking] <==> Sum(es) == 0.0)
      && KeepTracking !in r
      && (Sum(es) != 0.0 ==>
            && r[0].TopSpending?
            && r == TopTip(cats, Sum(es)) + CookingTip(cats) + RecentTip(es))
  {
    TipsShape(OfKind(xs, Expense));
  }

  /** The top-category tip names the first category of largest expense sum
      (the same one the local insight rules report), with that sum and the
      expense total; no category has a larger sum. */
  lemma {:induction false} TopTipIsLargest(xs: seq<Transaction>)
    requires Sum(OfKind(xs, Expense)) != 0.0
    ensures var es := OfKind(xs, Expense);
      var bd := CalculateStats(xs).categoryBreakdown;
      var r := GenerateAIInsights(xs);
      && bd != []
      && r[0] == TopSpending(Largest(bd).0, Largest(bd).1, Sum(es))
      && Largest(bd).0 in Categories(es)
      && Largest(bd).1 == CategorySpend(xs, Largest(bd).0)
      && (forall c :: c in Categories(es) ==> CategorySpend(xs, c) <= Largest(bd).1)
  {
    var es := OfKind(xs, Expense);
    var bd := CategoryBreakdown(es);
    assert bd == CalculateStats(xs).categoryBreakdown;
    TipsShape(es);
    ExpensesHaveCategory(es);
    SortDescHead(bd);
    assert TopTip(bd, Sum(es)) == [TopSpending(Largest(bd).0, Largest(bd).1, Sum(es))];
    var k := LargestOfStats(xs);
  }

  /** The dining-out condition on a list of expenses: both categories
      occur with non-zero sums and dining out is more than half of the two
      together. */
  predicate DiningHeavy(es: seq<Transaction>)
  {
    var d, g := Sum(OfCategory(es, "Dining Out")), Sum(OfCategory(es, "Groceries"));
    && "Dining Out" in Categories(es) && "Groceries" in Categories(es)
    && d != 0.0 && g != 0.0 && QuotientExceeds(d, d + g, 0.5)
  }

  /** The cooking tip appears exactly when both the dining-out and the
      grocery categories occur among the expenses with non-zero sums and
      dining out is more than half of the two together. */
  lemma {:induction false} CookingTipFires(es: seq<Transaction>)
    ensures CookingTip(CategoryBreakdown(es)) == [CookMoreAtHome] <==> DiningHeavy(es)
  {
    BreakdownValue(es, "Dining Out");
    BreakdownValue(es, "Groceries");
  }

  /** With non-negative amounts the cooking tip appears exactly when some
      grocery spending exists and dining out costs strictly more. */
  lemma {:induction false} CookingTipNonNegative(es: seq<Transaction>)
    requires forall t :: t in es ==> t.amount >= 0.0
    ensures var d, g := Sum(OfCategory(es, "Dining Out")), Sum(OfCategory(es, "Groceries"));
      CookingTip(CategoryBreakdown(es)) == [CookMoreAtHome] <==> 0.0 < g < d
  {
    var d, g := Sum(OfCategory(es, "Dining Out")), Sum(OfCategory(es, "Groceries"));
    CookingTipFires(es);
    SumNonNegative(OfCategory(es, "Dining Out"));
    SumNonNegative(OfCategory(es, "Groceries"));
    if "Dining Out" !in Categories(es) {
      NoneOfCategory(es, "Dining Out");
    }
    if "Groceries" !in Categories(es) {
      NoneOfCategory(es, "Groceries");
    }
    if d != 0.0 && g != 0.0 {
      assert d + g > 0.0;
      assert QuotientExceeds(d, d + g, 0.5) <==> d > g;
    }
  }

  /** A mean over `n` items exceeds 50 exactly when the sum exceeds 50
      per item. */
  lemma {:induction false} MeanAbove(sum: real, n: real)
    requires n > 0.0
    ensures sum / n > 50.0 <==> sum > 50.0 * n
  {
    var mean := sum / n;
    assert sum == mean * n;
    if mean > 50.0 {
      assert (mean - 50.0) * n > 0.0;
    } else {
      assert (50.0 - mean) * n >= 0.0;
    }
  }

  /** The recent-average tip appears exactly when the last (up to) ten
      expenses have a mean above 50, and it carries that mean. */
  lemma {:induction false} RecentTipFires(es: seq<Transaction>)
    ensures var rc := Recent(es);
      && (RecentTip(es) != [] <==> rc != [] && Sum(rc) > 50.0 * (|rc| as real))
      && (RecentTip(es) != [] ==> RecentTip(es) == [RecentAverage(Sum(rc) / (|rc| as real))])
  {
    var rc := Recent(es);
    if rc != [] {
      MeanAbove(Sum(rc), |rc| as real);
    }
  }

  /** The generator's cooking tip appears exactly when there are expenses
      to talk about and they meet the dining-out condition. */
  lemma {:induction false} CookingInTips(es: seq<Transaction>)
    ensures CookMoreAtHome in TipsFor(es) <==> Sum(es) != 0.0 && DiningHeavy(es)
  {
    var cats := CategoryBreakdown(es);
    TipsShape(es);
    OptionalTips(cats, es);
    CookingTipFires(es);
    if Sum(es) != 0.0 {
      var top, cook, recent := TopTip(cats, Sum(es)), CookingTip(cats), RecentTip(es);
      assert TipsFor(es) == top + cook + recent;
      assert CookMoreAtHome in TipsFor(es) <==> CookMoreAtHome in cook;
    }
  }

  lemma {:induction false} GeneratedCookingTip(xs: seq<Transaction>)
    ensures CookMoreAtHome in GenerateAIInsights(xs) <==>
            Sum(OfKind(xs, Expense)) != 0.0 && DiningHeavy(OfKind(xs, Expense))
  {
    CookingInTips(OfKind(xs, Expense));
  }

  /** In a list of tips made of parts of which only the last can hold a
      recent-average tip, the recent-average tips are those of the last
      part. */
  lemma {:induction false} RecentOfParts(top: seq<Tip>, cook: seq<Tip>, recent: seq<Tip>)
    requires forall t :: t in top ==> !t.RecentAverage?
    requires forall t :: t in cook ==> !t.RecentAverage?
    ensures forall t :: t in top + cook + recent ==> (t.RecentAverage? <==> t in recent && t.RecentAverage?)
    ensures recent != [] ==> recent[0] in top + cook + recent
  {
    var r := top + cook + recent;
    if recent != [] {
      assert r[|top| + |cook|] == recent[0];
    }
  }

  /** The generator's recent-average tip appears exactly when there are
      expenses to talk about and the mean of the last (up to) ten of them
      exceeds 50; it carries that mean. */
  lemma {:induction false} RecentInTips(es: seq<Transaction>)
    ensures var r, rc := TipsFor(es), Recent(es);
      && ((exists t :: t in r && t.RecentAverage?) <==>
            Sum(es) != 0.0 && Sum(rc) > 50.0 * (|rc| as real))
      && (forall t :: t in r && t.RecentAverage? ==> t == RecentAverage(Sum(rc) / (|rc| as real)))
  {
    TipsShape(es);
    RecentTipFires(es);
    if Sum(es) != 0.0 {
      var cats := CategoryBreakdown(es);
      var top, cook, recent := TopTip(cats, Sum(es)), CookingTip(cats), RecentTip(es);
      OptionalTips(cats, es);
      ExpensesHaveCategory(es);
      RecentOfParts(top, cook, recent);
    } else {
      assert TipsFor(es) == [StartTracking];
    }
  }

  lemma {:induction false} GeneratedRecentTip(xs: seq<Transaction>)
    ensures var r, rc := GenerateAIInsights(xs), Recent(OfKind(xs, Expense));
      && ((exists t :: t in r && t.RecentAverage?) <==>
            Sum(OfKind(xs, Expense)) != 0.0 && Sum(rc) > 50.0 * (|rc| as real))
      && (forall t :: t in r && t.RecentAverage? ==> t == RecentAverage(Sum(rc) / (|rc| as real)))
  {
    RecentInTips(OfKind(xs, Expense));
  }
}
