/** Sums and filters over transaction lists: the `filter` and
    summing `reduce` steps the aggregator and the
    insight generators are built from. Each is a left fold, so each is
    defined by peeling off the LAST element. */
module Ledger {
  import opened Types

  /** The amounts added up from the left, starting at 0. */
  function Sum(xs: seq<Transaction>): real
  {
    if xs == [] then 0.0 else Sum(xs[..|xs| - 1]) + xs[|xs| - 1].amount
  }

  /** The transactions of kind `k`, in order. */
  function OfKind(xs: seq<Transaction>, k: Kind): (r: seq<Transaction>)
    ensures |r| <= |xs|
    ensures forall i :: 0 <= i < |r| ==> r[i] in xs && r[i].kind == k
  {
    if xs == [] then []
    else OfKind(xs[..|xs| - 1], k) + (if xs[|xs| - 1].kind == k then [xs[|xs| - 1]] else [])
  }

  /** The filter is complete: every occurrence of a transaction of kind
      `k` is kept, and nothing else is. */
  lemma {:induction false} OfKindMultiset(xs: seq<Transaction>, k: Kind)
    ensures forall t :: multiset(OfKind(xs, k))[t] == if t.kind == k then multiset(xs)[t] else 0
    decreases |xs|
  {
    if xs != [] {
      var pre, x := xs[..|xs| - 1], xs[|xs| - 1];
      assert xs == pre + [x];
      OfKindMultiset(pre, k);
      assert OfKind(xs, k) == OfKind(pre, k) + (if x.kind == k then [x] else []);
    }
  }

  /** In particular, every input transaction of kind `k` is kept. */
  lemma {:induction false} OfKindKeepsAll(xs: seq<Transaction>, k: Kind, t: Transaction)
    requires t in xs && t.kind == k
    ensures t in OfKind(xs, k)
  {
    OfKindMultiset(xs, k);
    assert multiset(xs)[t] > 0;
  }

  /** The transactions of one category. */
  function OfCategory(xs: seq<Transaction>, c: string): (r: seq<Transaction>)
    ensures forall i :: 0 <= i < |r| ==> r[i] in xs && r[i].category == c
  {
    if xs == [] then []
    else OfCategory(xs[..|xs| - 1], c) + (if xs[|xs| - 1].category == c then [xs[|xs| - 1]] else [])
  }

  /** The transactions dated in month `m`. */
  function InMonth(xs: seq<Transaction>, m: Month): (r: seq<Transaction>)
    ensures forall i :: 0 <= i < |r| ==> r[i] in xs && r[i].date == m
  {
    if xs == [] then []
    else InMonth(xs[..|xs| - 1], m) + (if xs[|xs| - 1].date == m then [xs[|xs| - 1]] else [])
  }

  /** The categories of `xs`, in order. */
  function Categories(xs: seq<Transaction>): (r: seq<string>)
    ensures |r| == |xs|
    ensures forall i :: 0 <= i < |xs| ==> r[i] == xs[i].category
  {
    if xs == [] then [] else Categories(xs[..|xs| - 1]) + [xs[|xs| - 1].category]
  }

  /** The months of `xs`, in order. */
  function Dates(xs: seq<Transaction>): (r: seq<Month>)
    ensures |r| == |xs|
    ensures forall i :: 0 <= i < |xs| ==> r[i] == xs[i].date
  {
    if xs == [] then [] else Dates(xs[..|xs| - 1]) + [xs[|xs| - 1].date]
  }

  /** `s` with every element after its first occurrence removed. */
  function Dedup<T(==)>(s: seq<T>): (r: seq<T>)
    ensures Distinct(r)
    ensures forall i :: 0 <= i < |r| ==> r[i] in s
    ensures forall i :: 0 <= i < |s| ==> s[i] in r
  {
    if s == [] then []
    else
      var d := Dedup(s[..|s| - 1]);
      if s[|s| - 1] in d then d else d + [s[|s| - 1]]
  }

  lemma {:induction false} PrefixOfSnoc<T>(xs: seq<T>, x: T)
    ensures (xs + [x])[..|xs|] == xs
  {
  }

  /** The sum over a concatenation is the sum of the sums. */
  lemma {:induction false} SumAppend(a: seq<Transaction>, b: seq<Transaction>)
    ensures Sum(a + b) == Sum(a) + Sum(b)
    decreases |b|
  {
    if b == [] {
      assert a + b == a;
    } else {
      var b' := b[..|b| - 1];
      assert (a + b)[..|a + b| - 1] == a + b';
      SumAppend(a, b');
    }
  }

  /** Every transaction is income or expense, so the two subset sums add up
      to the sum over everything. */
  lemma {:induction false} SumSplitsByKind(xs: seq<Transaction>)
    ensures Sum(OfKind(xs, Income)) + Sum(OfKind(xs, Expense)) == Sum(xs)
    decreases |xs|
  {
    if xs != [] {
      var pre, x := xs[..|xs| - 1], xs[|xs| - 1];
      SumSplitsByKind(pre);
      SumAppend(OfKind(pre, Income), if x.kind == Income then [x] else []);
      SumAppend(OfKind(pre, Expense), if x.kind == Expense then [x] else []);
      assert Sum([x]) == Sum([]) + x.amount;
    }
  }

  /** With non-negative amounts every sum is non-negative. */
  lemma {:induction false} SumNonNegative(xs: seq<Transaction>)
    requires forall t :: t in xs ==> t.amount >= 0.0
    ensures Sum(xs) >= 0.0
    decreases |xs|
  {
    if xs != [] {
      SumNonNegative(xs[..|xs| - 1]);
    }
  }

  /** A list with a non-zero sum has an element. */
  lemma {:induction false} NonZeroSumNonEmpty(xs: seq<Transaction>)
    requires Sum(xs) != 0.0
    ensures xs != []
  {
  }

  /** Appending one transaction to a list adds its amount to the sum of its
      kind and nothing to the other. */
  lemma {:induction false} SumOfKindSnoc(xs: seq<Transaction>, x: Transaction, k: Kind)
    ensures Sum(OfKind(xs + [x], k)) == Sum(OfKind(xs, k)) + (if x.kind == k then x.amount else 0.0)
  {
    PrefixOfSnoc(xs, x);
    if x.kind == k {
      PrefixOfSnoc(OfKind(xs, k), x);
    } else {
      assert OfKind(xs + [x], k) == OfKind(xs, k);
    }
  }

  /** A month that selects something is the month of some transaction. */
  lemma {:induction false} InMonthDated(xs: seq<Transaction>, m: Month)
    ensures InMonth(xs, m) != [] ==> m in Dates(xs)
  {
    if InMonth(xs, m) != [] {
      var t := InMonth(xs, m)[0];
      assert t in xs;
      var j :| 0 <= j < |xs| && xs[j] == t;
      assert Dates(xs)[j] == m;
    }
  }

  /** A month that no transaction is dated in selects nothing. */
  lemma {:induction false} NoneInMonth(xs: seq<Transaction>, m: Month)
    requires m !in Dates(xs)
    ensures InMonth(xs, m) == []
  {
    InMonthDated(xs, m);
  }

  /** A category that selects something is the category of some
      transaction. */
  lemma {:induction false} OfCategoryPresent(xs: seq<Transaction>, c: string)
    ensures OfCategory(xs, c) != [] ==> c in Categories(xs)
  {
    if OfCategory(xs, c) != [] {
      var t := OfCategory(xs, c)[0];
      assert t in xs;
      var j :| 0 <= j < |xs| && xs[j] == t;
      assert Categories(xs)[j] == c;
    }
  }

  /** Filtering distributes over concatenation. */
  lemma {:induction false} OfKindAppend(a: seq<Transaction>, b: seq<Transaction>, k: Kind)
    ensures OfKind(a + b, k) == OfKind(a, k) + OfKind(b, k)
    decreases |b|
  {
    if b == [] {
      assert a + b == a;
    } else {
      var b', y := b[..|b| - 1], b[|b| - 1];
      assert a + b == (a + b') + [y];
      PrefixOfSnoc(a + b', y);
      PrefixOfSnoc(b', y);
      OfKindAppend(a, b', k);
    }
  }
}
