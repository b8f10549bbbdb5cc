/** `calculateFinancialSummary` and `calculateExpenseBreakdown`: folds of
    normalized records into totals, per-category expense totals in
    first-encountered order, and a stable descending sort of those totals. */
module Summary {
  import opened Optional
  import opened Seqs
  import opened CategoryTables
  import opened NumberText
  import opened Normalizer

  /** `Math.abs(t.amount)`, what an expense adds to a total. */
  function Spend(t: NormalizedTransaction): real {
    Abs(t.amount)
  }

  predicate IsIncome(t: NormalizedTransaction) {
    t.amount > 0.0
  }

  predicate IsExpense(t: NormalizedTransaction) {
    t.amount < 0.0
  }

  /** An expense category's running total (one `[name, value]` entry of the
      accumulator object). */
  datatype CategoryTotal = CategoryTotal(category: TaxCategory, total: real)

  function TotalOf(e: CategoryTotal): real {
    e.total
  }

  /** The keys of an accumulator, in insertion order. */
  function Categories(acc: seq<CategoryTotal>): (r: seq<TaxCategory>)
    ensures |r| == |acc|
    ensures forall i :: 0 <= i < |acc| ==> r[i] == acc[i].category
  {
    Map(acc, (e: CategoryTotal) => e.category)
  }

  /** The categories of a list of records, in order. */
  function TxCategories(s: seq<NormalizedTransaction>): (r: seq<TaxCategory>)
    ensures |r| == |s|
    ensures forall i :: 0 <= i < |s| ==> r[i] == s[i].category
  {
    Map(s, (t: NormalizedTransaction) => t.category)
  }

  /** An object's keys are distinct. */
  predicate DistinctCategories(acc: seq<CategoryTotal>) {
    forall i, j :: 0 <= i < j < |acc| ==> acc[i].category != acc[j].category
  }

  /** `acc[c] = (acc[c] || 0) + a`: the entry for `c` grows by `a`, or a new
      entry for `c` is appended after the existing ones. */
  function AddExpense(acc: seq<CategoryTotal>, c: TaxCategory, a: real): (r: seq<CategoryTotal>)
    requires DistinctCategories(acc)
    ensures DistinctCategories(r)
    ensures c in Categories(r)
    ensures |r| == if c in Categories(acc) then |acc| else |acc| + 1
    ensures forall i :: 0 <= i < |acc| ==>
      r[i].category == acc[i].category && r[i].total == acc[i].total + (if acc[i].category == c then a else 0.0)
    ensures c !in Categories(acc) ==> r[|acc|] == CategoryTotal(c, a)
  {
    var cs := Categories(acc);
    if c in cs then
      var k := IndexOf(cs, c);
      var r := acc[k := CategoryTotal(c, acc[k].total + a)];
      assert Categories(r)[k] == c;
      r
    else
      var r := acc + [CategoryTotal(c, a)];
      assert Categories(r)[|acc|] == c;
      r
  }

  lemma SumAfterGrow(acc: seq<CategoryTotal>, c: TaxCategory, a: real)
    requires DistinctCategories(acc) && c in Categories(acc)
    ensures Sum(AddExpense(acc, c, a), TotalOf) == Sum(acc, TotalOf) + a
  {
    var k := IndexOf(Categories(acc), c);
    var e := CategoryTotal(c, acc[k].total + a);
    var r := AddExpense(acc, c, a);
    assert acc[k].category == c;
    assert forall i :: 0 <= i < |r| ==> r[i] == acc[k := e][i];
    SumUpdate(acc, k, e, TotalOf);
  }

  lemma SumAfterAppend(acc: seq<CategoryTotal>, c: TaxCategory, a: real)
    requires DistinctCategories(acc) && c !in Categories(acc)
    ensures Sum(AddExpense(acc, c, a), TotalOf) == Sum(acc, TotalOf) + a
  {
    var e := CategoryTotal(c, a);
    var r := AddExpense(acc, c, a);
    assert r == acc + [e];
    SumConcat(acc, [e], TotalOf);
    assert Sum([e], TotalOf) == a;
  }

  /** Adding `a` to the accumulator adds `a` to the sum of its totals. */
  lemma AddExpenseSum(acc: seq<CategoryTotal>, c: TaxCategory, a: real)
    requires DistinctCategories(acc)
    ensures Sum(AddExpense(acc, c, a), TotalOf) == Sum(acc, TotalOf) + a
  {
    if c in Categories(acc) {
      SumAfterGrow(acc, c, a);
    } else {
      SumAfterAppend(acc, c, a);
    }
  }

  /** The expense of category `c` among `s`, summed in order. */
  function CategorySpend(s: seq<NormalizedTransaction>, c: TaxCategory): real {
    if |s| == 0 then 0.0
    else CategorySpend(s[..|s| - 1], c) + (if s[|s| - 1].category == c then Spend(s[|s| - 1]) else 0.0)
  }

  lemma {:induction false} CategorySpendAbsent(s: seq<NormalizedTransaction>, c: TaxCategory)
    requires forall i :: 0 <= i < |s| ==> s[i].category != c
    ensures CategorySpend(s, c) == 0.0
  {
    if |s| > 0 {
      CategorySpendAbsent(s[..|s| - 1], c);
    }
  }

  /** `s.reduce((acc, t) => { acc[t.category] = (acc[t.category] || 0) + |t.amount|; … }, {})`. */
  function ExpenseTotals(s: seq<NormalizedTransaction>): (r: seq<CategoryTotal>)
    ensures DistinctCategories(r)
    ensures forall i :: 0 <= i < |s| ==> s[i].category in Categories(r)
    ensures forall j :: 0 <= j < |r| ==> r[j].category in TxCategories(s)
    ensures forall j :: 0 <= j < |r| ==> r[j].total == CategorySpend(s, r[j].category)
    ensures Sum(r, TotalOf) == Sum(s, Spend)
  {
    if |s| == 0 then []
    else
      var n := |s| - 1;
      var front := ExpenseTotals(s[..n]);
      var t := s[n];
      ExpenseStep(s, s[..n], front);
      AddExpense(front, t.category, Spend(t))
  }

  /** The step from the records `p` before the last to all of `s` keeps the
      accumulator's properties. */
  lemma ExpenseStep(s: seq<NormalizedTransaction>, p: seq<NormalizedTransaction>, front: seq<CategoryTotal>)
    requires |s| > 0 && p == s[..|s| - 1] && DistinctCategories(front)
    requires forall i :: 0 <= i < |p| ==> p[i].category in Categories(front)
    requires forall j :: 0 <= j < |front| ==> front[j].category in TxCategories(p)
    requires forall j :: 0 <= j < |front| ==> front[j].total == CategorySpend(p, front[j].category)
    requires Sum(front, TotalOf) == Sum(p, Spend)
    ensures var r := AddExpense(front, s[|s| - 1].category, Spend(s[|s| - 1]));
      && DistinctCategories(r)
      && (forall i :: 0 <= i < |s| ==> s[i].category in Categories(r))
      && (forall j :: 0 <= j < |r| ==> r[j].category in TxCategories(s))
      && (forall j :: 0 <= j < |r| ==> r[j].total == CategorySpend(s, r[j].category))
      && Sum(r, TotalOf) == Sum(s, Spend)
  {
    assert forall i :: 0 <= i < |s| - 1 ==> p[i] == s[i];
    StepCovers(s, front);
    StepEntries(s, front);
    StepSum(s, front);
  }

  /** Every record's category has an entry after the step. */
  lemma StepCovers(s: seq<NormalizedTransaction>, front: seq<CategoryTotal>)
    requires |s| > 0 && DistinctCategories(front)
    requires forall i :: 0 <= i < |s| - 1 ==> s[i].category in Categories(front)
    ensures var r := AddExpense(front, s[|s| - 1].category, Spend(s[|s| - 1]));
      forall i :: 0 <= i < |s| ==> s[i].category in Categories(r)
  {
    var r := AddExpense(front, s[|s| - 1].category, Spend(s[|s| - 1]));
    forall i | 0 <= i < |s| - 1
      ensures s[i].category in Categories(r)
    {
      var k :| 0 <= k < |front| && Categories(front)[k] == s[i].category;
      assert Categories(r)[k] == s[i].category;
    }
  }

  /** After the step every entry is a category of the records, totalling that
      category's expense. */
  lemma StepEntries(s: seq<NormalizedTransaction>, front: seq<CategoryTotal>)
    requires |s| > 0 && DistinctCategories(front)
    requires forall i :: 0 <= i < |s| - 1 ==> s[i].category in Categories(front)
    requires forall j :: 0 <= j < |front| ==> front[j].category in TxCategories(s[..|s| - 1])
    requires forall j :: 0 <= j < |front| ==> front[j].total == CategorySpend(s[..|s| - 1], front[j].category)
    ensures var r := AddExpense(front, s[|s| - 1].category, Spend(s[|s| - 1]));
      forall j :: 0 <= j < |r| ==> r[j].category in TxCategories(s) && r[j].total == CategorySpend(s, r[j].category)
  {
    StepOldEntries(s, front);
    if s[|s| - 1].category !in Categories(front) {
      StepNewEntry(s, front);
    }
  }

  /** An entry that was right for the records before the last stays right
      once the last record's spend is added to its category. */
  lemma SpendEntryStep(s: seq<NormalizedTransaction>, e: CategoryTotal)
    requires |s| > 0
    requires e.category in TxCategories(s[..|s| - 1])
    requires e.total == CategorySpend(s[..|s| - 1], e.category)
    ensures e.category in TxCategories(s)
    ensures e.total + (if e.category == s[|s| - 1].category then Spend(s[|s| - 1]) else 0.0) == CategorySpend(s, e.category)
  {
    var n := |s| - 1;
    var p := s[..n];
    var k :| 0 <= k < n && TxCategories(p)[k] == e.category;
    assert p[k] == s[k];
    assert TxCategories(s)[k] == e.category;
  }

  lemma StepOldEntries(s: seq<NormalizedTransaction>, front: seq<CategoryTotal>)
    requires |s| > 0 && DistinctCategories(front)
    requires forall j :: 0 <= j < |front| ==> front[j].category in TxCategories(s[..|s| - 1])
    requires forall j :: 0 <= j < |front| ==> front[j].total == CategorySpend(s[..|s| - 1], front[j].category)
    ensures var r := AddExpense(front, s[|s| - 1].category, Spend(s[|s| - 1]));
      forall j :: 0 <= j < |front| ==> r[j].category in TxCategories(s) && r[j].total == CategorySpend(s, r[j].category)
  {
    var r := AddExpense(front, s[|s| - 1].category, Spend(s[|s| - 1]));
    forall j | 0 <= j < |front|
      ensures r[j].category in TxCategories(s) && r[j].total == CategorySpend(s, r[j].category)
    {
      SpendEntryStep(s, front[j]);
    }
  }

  /** A category not yet among the keys has spent nothing so far. */
  lemma SpendBeforeFirst(s: seq<NormalizedTransaction>, front: seq<CategoryTotal>)
    requires |s| > 0
    requires forall i :: 0 <= i < |s| - 1 ==> s[i].category in Categories(front)
    requires s[|s| - 1].category !in Categories(front)
    ensures CategorySpend(s[..|s| - 1], s[|s| - 1].category) == 0.0
  {
    var n := |s| - 1;
    var p := s[..n];
    assert forall i :: 0 <= i < n ==> p[i] == s[i];
    CategorySpendAbsent(p, s[n].category);
  }

  lemma StepNewEntry(s: seq<NormalizedTransaction>, front: seq<CategoryTotal>)
    requires |s| > 0 && DistinctCategories(front)
    requires forall i :: 0 <= i < |s| - 1 ==> s[i].category in Categories(front)
    requires s[|s| - 1].category !in Categories(front)
    ensures var r := AddExpense(front, s[|s| - 1].category, Spend(s[|s| - 1]));
      r[|front|].category in TxCategories(s) && r[|front|].total == CategorySpend(s, r[|front|].category)
  {
    var n := |s| - 1;
    var c := s[n].category;
    SpendBeforeFirst(s, front);
    assert TxCategories(s)[n] == c;
    assert CategorySpend(s, c) == CategorySpend(s[..n], c) + Spend(s[n]);
  }

  /** The step adds the record's spend to the sum of the totals. */
  lemma StepSum(s: seq<NormalizedTransaction>, front: seq<CategoryTotal>)
    requires |s| > 0 && DistinctCategories(front)
    requires Sum(front, TotalOf) == Sum(s[..|s| - 1], Spend)
    ensures Sum(AddExpense(front, s[|s| - 1].category, Spend(s[|s| - 1])), TotalOf) == Sum(s, Spend)
  {
    AddExpenseSum(front, s[|s| - 1].category, Spend(s[|s| - 1]));
    SumLast(s, Spend);
  }

  /** Totals in non-increasing order. */
  predicate Descending(s: seq<CategoryTotal>) {
    forall i, j :: 0 <= i < j < |s| ==> s[i].total >= s[j].total
  }

  /** Inserts `x` before the first entry whose total it is at least, so that
      `x` goes ahead of the entries with an equal total. */
  function Insert(x: CategoryTotal, sorted: seq<CategoryTotal>): (r: seq<CategoryTotal>)
    ensures |r| == |sorted| + 1
    ensures multiset(r) == multiset(sorted) + multiset{x}
    ensures forall i :: 0 <= i < |r| ==> r[i] == x || r[i] in sorted
  {
    if |sorted| == 0 then [x]
    else if x.total >= sorted[0].total then [x] + sorted
    else
      var rest := Insert(x, sorted[1..]);
      assert sorted == [sorted[0]] + sorted[1..];
      assert forall i :: 0 <= i < |rest| ==> rest[i] == x || rest[i] in sorted[1..];
      [sorted[0]] + rest
  }

  /** The stable descending sort `entries.sort((a, b) => b[1] - a[1])`: an
      insertion sort that places each entry ahead of the later ones with an
      equal total. */
  function SortByTotal(s: seq<CategoryTotal>): (r: seq<CategoryTotal>)
    ensures |r| == |s|
    ensures multiset(r) == multiset(s)
    ensures forall i :: 0 <= i < |r| ==> r[i] in s
  {
    if |s| == 0 then []
    else
      var rest := SortByTotal(s[1..]);
      SortStep(s, rest);
      Insert(s[0], rest)
  }

  /** Inserting the first entry into the sorted rest keeps the entries. */
  lemma SortStep(s: seq<CategoryTotal>, rest: seq<CategoryTotal>)
    requires |s| > 0 && |rest| == |s| - 1 && multiset(rest) == multiset(s[1..])
    requires forall i :: 0 <= i < |rest| ==> rest[i] in s[1..]
    ensures var r := Insert(s[0], rest);
      && |r| == |s| && multiset(r) == multiset(s) && forall i :: 0 <= i < |r| ==> r[i] in s
  {
    assert s == [s[0]] + s[1..];
    var r := Insert(s[0], rest);
    assert forall i :: 0 <= i < |r| ==> r[i] == s[0] || r[i] in s[1..];
  }

  lemma {:induction false} InsertDescending(x: CategoryTotal, sorted: seq<CategoryTotal>)
    requires Descending(sorted)
    ensures Descending(Insert(x, sorted))
  {
    if |sorted| > 0 && x.total < sorted[0].total {
      var rest := Insert(x, sorted[1..]);
      InsertDescending(x, sorted[1..]);
      assert forall i :: 0 <= i < |rest| ==> rest[i].total <= sorted[0].total;
    }
  }

  /** The sort's result is in non-increasing order of totals. */
  lemma {:induction false} SortDescending(s: seq<CategoryTotal>)
    ensures Descending(SortByTotal(s))
  {
    if |s| > 0 {
      SortDescending(s[1..]);
      InsertDescending(s[0], SortByTotal(s[1..]));
    }
  }

  /** The first position holding the largest total: the entry a stable sort
      puts first. */
  function FirstMaxIndex(s: seq<CategoryTotal>): (k: nat)
    requires |s| > 0
    ensures k < |s|
    ensures forall j :: 0 <= j < |s| ==> s[j].total <= s[k].total
    ensures forall j :: 0 <= j < k ==> s[j].total < s[k].total
  {
    if |s| == 1 then 0
    else
      var k := FirstMaxIndex(s[1..]);
      if s[0].total >= s[1..][k].total then 0 else k + 1
  }

  /** The sort's first entry is the first entry with the largest total: ties
      go to the entry that came first. */
  lemma {:induction false} SortHeadIsFirstMax(s: seq<CategoryTotal>)
    requires |s| > 0
    ensures SortByTotal(s)[0] == s[FirstMaxIndex(s)]
  {
    if |s| > 1 {
      SortHeadIsFirstMax(s[1..]);
    }
  }

  lemma {:induction false} InsertSum(x: CategoryTotal, sorted: seq<CategoryTotal>)
    ensures Sum(Insert(x, sorted), TotalOf) == x.total + Sum(sorted, TotalOf)
  {
    if |sorted| > 0 && x.total < sorted[0].total {
      InsertSum(x, sorted[1..]);
    }
  }

  /** Sorting keeps the sum of the totals. */
  lemma {:induction false} SortSum(s: seq<CategoryTotal>)
    ensures Sum(SortByTotal(s), TotalOf) == Sum(s, TotalOf)
  {
    if |s| > 0 {
      SortSum(s[1..]);
      InsertSum(s[0], SortByTotal(s[1..]));
    }
  }

  lemma {:induction false} InsertDistinct(x: CategoryTotal, sorted: seq<CategoryTotal>)
    requires DistinctCategories(sorted)
    requires forall i :: 0 <= i < |sorted| ==> sorted[i].category != x.category
    ensures DistinctCategories(Insert(x, sorted))
  {
    if |sorted| > 0 && x.total < sorted[0].total {
      InsertDistinct(x, sorted[1..]);
      var rest := Insert(x, sorted[1..]);
      assert forall i :: 0 <= i < |rest| ==> rest[i].category != sorted[0].category;
    }
  }

  /** Sorting keeps the keys distinct. */
  lemma {:induction false} SortDistinct(s: seq<CategoryTotal>)
    requires DistinctCategories(s)
    ensures DistinctCategories(SortByTotal(s))
  {
    if |s| > 0 {
      SortDistinct(s[1..]);
      var rest := SortByTotal(s[1..]);
      assert forall i :: 0 <= i < |rest| ==> rest[i] in s[1..];
      InsertDistinct(s[0], rest);
    }
  }

  /** Each category once, at its first occurrence: the key order of an object
      built by assigning keys in the order of `cs`. */
  function FirstOccurrences(cs: seq<TaxCategory>): seq<TaxCategory> {
    if |cs| == 0 then []
    else
      var front := FirstOccurrences(cs[..|cs| - 1]);
      if cs[|cs| - 1] in front then front else front + [cs[|cs| - 1]]
  }

  lemma CategoriesUpdate(acc: seq<CategoryTotal>, k: nat, e: CategoryTotal)
    requires k < |acc| && e.category == acc[k].category
    ensures Categories(acc[k := e]) == Categories(acc)
  {
    var r := acc[k := e];
    assert forall i :: 0 <= i < |r| ==> Categories(r)[i] == Categories(acc)[i];
  }

  lemma CategoriesAppend(acc: seq<CategoryTotal>, e: CategoryTotal)
    ensures Categories(acc + [e]) == Categories(acc) + [e.category]
  {
    var r := acc + [e];
    assert forall i :: 0 <= i < |r| ==> Categories(r)[i] == (Categories(acc) + [e.category])[i];
  }

  lemma CategoriesAfterAdd(acc: seq<CategoryTotal>, c: TaxCategory, a: real)
    requires DistinctCategories(acc)
    ensures Categories(AddExpense(acc, c, a)) ==
      if c in Categories(acc) then Categories(acc) else Categories(acc) + [c]
  {
    var cs := Categories(acc);
    if c in cs {
      var k := IndexOf(cs, c);
      CategoriesUpdate(acc, k, CategoryTotal(c, acc[k].total + a));
    } else {
      CategoriesAppend(acc, CategoryTotal(c, a));
    }
  }

  /** The accumulator's keys are the records' categories in order of first
      occurrence. */
  lemma {:induction false} ExpenseTotalsOrder(s: seq<NormalizedTransaction>)
    ensures Categories(ExpenseTotals(s)) == FirstOccurrences(TxCategories(s))
  {
    if |s| > 0 {
      var n := |s| - 1;
      ExpenseTotalsOrder(s[..n]);
      assert TxCategories(s[..n]) == TxCategories(s)[..n];
      CategoriesAfterAdd(ExpenseTotals(s[..n]), s[n].category, Spend(s[n]));
    }
  }

  /** A category that occurs among expenses has a positive total. */
  lemma {:induction false} CategorySpendPositive(s: seq<NormalizedTransaction>, c: TaxCategory)
    requires forall i :: 0 <= i < |s| ==> IsExpense(s[i])
    requires c in TxCategories(s)
    ensures CategorySpend(s, c) > 0.0
  {
    var n := |s| - 1;
    var p := s[..n];
    var last := if s[n].category == c then Spend(s[n]) else 0.0;
    assert CategorySpend(s, c) == CategorySpend(p, c) + last;
    if s[n].category != c {
      CategoryInFront(s, c);
      assert forall i :: 0 <= i < n ==> IsExpense(p[i]);
      CategorySpendPositive(p, c);
    } else {
      CategorySpendNonNegative(p, c);
    }
  }

  /** A category that occurs, but not last, occurs before the last record. */
  lemma {:induction false} CategoryInFront(s: seq<NormalizedTransaction>, c: TaxCategory)
    requires c in TxCategories(s) && s[|s| - 1].category != c
    ensures c in TxCategories(s[..|s| - 1])
  {
    TxCategoriesSnoc(s);
  }

  lemma TxCategoriesSnoc(s: seq<NormalizedTransaction>)
    requires |s| > 0
    ensures TxCategories(s) == TxCategories(s[..|s| - 1]) + [s[|s| - 1].category]
  {
    var p := s[..|s| - 1];
    assert forall i :: 0 <= i < |p| ==> p[i] == s[i];
  }

  lemma {:induction false} CategorySpendNonNegative(s: seq<NormalizedTransaction>, c: TaxCategory)
    ensures CategorySpend(s, c) >= 0.0
  {
    if |s| > 0 {
      CategorySpendNonNegative(s[..|s| - 1], c);
    }
  }

  /** The entries whose total is `v`. */
  function TiedAt(v: real): CategoryTotal -> bool {
    (e: CategoryTotal) => e.total == v
  }

  /** Inserting `x` keeps it ahead of the entries tied with it. */
  lemma {:induction false} InsertTies(x: CategoryTotal, sorted: seq<CategoryTotal>, v: real)
    ensures Filter(Insert(x, sorted), TiedAt(v)) == Filter([x] + sorted, TiedAt(v))
  {
    var p := TiedAt(v);
    if |sorted| > 0 && x.total < sorted[0].total {
      var rest := Insert(x, sorted[1..]);
      InsertTies(x, sorted[1..], v);
      assert Insert(x, sorted) == [sorted[0]] + rest;
      assert ([x] + sorted)[1..] == sorted;
      assert ([x] + sorted[1..])[1..] == sorted[1..];
      assert ([sorted[0]] + rest)[1..] == rest;
    }
  }

  /** The sort is stable: the entries sharing any one total come out in the
      order they went in. */
  lemma {:induction false} SortStable(s: seq<CategoryTotal>, v: real)
    ensures Filter(SortByTotal(s), TiedAt(v)) == Filter(s, TiedAt(v))
  {
    if |s| > 0 {
      var rest := SortByTotal(s[1..]);
      SortStable(s[1..], v);
      InsertTies(s[0], rest, v);
      assert ([s[0]] + rest)[1..] == rest;
    }
  }

  /** `calculateExpenseBreakdown`: every record with a negative amount adds
      `|amount|` to its category's total, and the totals are listed largest
      first, ties in order of first occurrence. */
  function CalculateExpenseBreakdown(txs: seq<NormalizedTransaction>): (r: seq<CategoryTotal>)
    ensures Descending(r)
    ensures DistinctCategories(r)
    ensures multiset(r) == multiset(ExpenseTotals(Filter(txs, IsExpense)))
  {
    var totals := ExpenseTotals(Filter(txs, IsExpense));
    SortDescending(totals);
    SortDistinct(totals);
    SortByTotal(totals)
  }

  /** Independent reading of the breakdown's sum: a record adds `|amount|`
      when its amount is negative, and nothing otherwise. */
  function NegativeSpend(t: NormalizedTransaction): real {
    if t.amount < 0.0 then -t.amount else 0.0
  }

  /** The breakdown's totals add up to the magnitudes of the negative amounts. */
  lemma BreakdownSum(txs: seq<NormalizedTransaction>)
    ensures Sum(CalculateExpenseBreakdown(txs), TotalOf) == Sum(txs, NegativeSpend)
  {
    SortSum(ExpenseTotals(Filter(txs, IsExpense)));
    SumFilter(txs, IsExpense, Spend, NegativeSpend);
  }

  /** An entry of the expense accumulator names a category of the records
      and holds its positive total. */
  lemma TotalsEntry(e: seq<NormalizedTransaction>, x: CategoryTotal)
    requires forall i :: 0 <= i < |e| ==> IsExpense(e[i])
    requires x in ExpenseTotals(e)
    ensures x.category in TxCategories(e)
    ensures x.total == CategorySpend(e, x.category) > 0.0
  {
    var totals := ExpenseTotals(e);
    var k :| 0 <= k < |totals| && totals[k] == x;
    CategorySpendPositive(e, x.category);
  }

  /** Reordering entries keeps their categories. */
  lemma CategoryOfPermutation(a: seq<CategoryTotal>, b: seq<CategoryTotal>, c: TaxCategory)
    requires multiset(a) == multiset(b)
    requires c in Categories(a)
    ensures c in Categories(b)
  {
    var k :| 0 <= k < |a| && Categories(a)[k] == c;
    assert a[k] in multiset(b);
    var j :| 0 <= j < |b| && b[j] == a[k];
    assert Categories(b)[j] == c;
  }

  /** Each entry is a category of some expense, totalling that category's
      expenses, and is positive. */
  lemma BreakdownEntries(txs: seq<NormalizedTransaction>)
    ensures var r := CalculateExpenseBreakdown(txs);
      var e := Filter(txs, IsExpense);
      forall j :: 0 <= j < |r| ==>
        && r[j].category in TxCategories(e)
        && r[j].total == CategorySpend(e, r[j].category)
        && r[j].total > 0.0
  {
    var e := Filter(txs, IsExpense);
    var r := CalculateExpenseBreakdown(txs);
    forall j | 0 <= j < |r|
      ensures r[j].category in TxCategories(e) && r[j].total == CategorySpend(e, r[j].category) > 0.0
    {
      assert r[j] in multiset(ExpenseTotals(e));
      TotalsEntry(e, r[j]);
    }
  }

  /** Every category with a negative amount has an entry. */
  lemma BreakdownCovers(txs: seq<NormalizedTransaction>)
    ensures var r := CalculateExpenseBreakdown(txs);
      forall i :: 0 <= i < |txs| && IsExpense(txs[i]) ==> txs[i].category in Categories(r)
  {
    var e := Filter(txs, IsExpense);
    var totals := ExpenseTotals(e);
    var r := CalculateExpenseBreakdown(txs);
    FilterMembers(txs, IsExpense);
    forall i | 0 <= i < |txs| && IsExpense(txs[i])
      ensures txs[i].category in Categories(r)
    {
      var m :| 0 <= m < |e| && e[m] == txs[i];
      assert e[m].category in Categories(totals);
      CategoryOfPermutation(totals, r, txs[i].category);
    }
  }

  /** Entries with equal totals appear in the order their categories first
      had an expense. */
  lemma BreakdownTiesInFirstOccurrenceOrder(txs: seq<NormalizedTransaction>, v: real)
    ensures var totals := ExpenseTotals(Filter(txs, IsExpense));
      && Filter(CalculateExpenseBreakdown(txs), TiedAt(v)) == Filter(totals, TiedAt(v))
      && Categories(totals) == FirstOccurrences(TxCategories(Filter(txs, IsExpense)))
  {
    SortStable(ExpenseTotals(Filter(txs, IsExpense)), v);
    ExpenseTotalsOrder(Filter(txs, IsExpense));
  }

  /** The result of `calculateFinancialSummary`. */
  datatype FinancialSummary = FinancialSummary(
    totalIncome: real,
    totalExpenses: real,
    netIncome: real,
    transactionCount: nat,
    txfReadyCount: nat,
    topExpenseCategory: Option<TaxCategory>,
    topExpenseAmount: real)

  /** The summary's business filter: not a transfer, payment or equity
      movement, and not in the `Liability` account group. */
  predicate IsBusiness(t: NormalizedTransaction) {
    !IsNonTaxable(t.category) && t.accountGroup != Some("Liability")
  }

  /** The raw category has a TXF code. */
  predicate IsTxfReady(t: NormalizedTransaction) {
    TxfCode(t.rawCategory).Some?
  }

  function Amount(t: NormalizedTransaction): real {
    t.amount
  }

  /** The records `calculateFinancialSummary` totals, in order. */
  function Business(txs: seq<NormalizedTransaction>): seq<NormalizedTransaction> {
    Filter(txs, IsBusiness)
  }

  /** The business records with a negative amount, in order. */
  function BusinessExpenses(txs: seq<NormalizedTransaction>): seq<NormalizedTransaction> {
    Filter(Business(txs), IsExpense)
  }

  function IncomeTotal(business: seq<NormalizedTransaction>): real {
    Sum(Filter(business, IsIncome), Amount)
  }

  function ExpenseTotal(business: seq<NormalizedTransaction>): real {
    Sum(Filter(business, IsExpense), Spend)
  }

  /** The business expense totals per category, largest first. */
  function ExpenseRanking(txs: seq<NormalizedTransaction>): seq<CategoryTotal> {
    CalculateExpenseBreakdown(Business(txs))
  }

  /** `sorted[0] || [null, 0]`. */
  function TopCategory(ranking: seq<CategoryTotal>): Option<TaxCategory> {
    if |ranking| == 0 then None else Some(ranking[0].category)
  }

  function TopAmount(ranking: seq<CategoryTotal>): real {
    if |ranking| == 0 then 0.0 else ranking[0].total
  }

  function CalculateFinancialSummary(txs: seq<NormalizedTransaction>): (r: FinancialSummary)
    ensures r.transactionCount == |txs|
    ensures r.txfReadyCount <= r.transactionCount
    ensures r.netIncome == r.totalIncome - r.totalExpenses
  {
    var business := Business(txs);
    var ranking := CalculateExpenseBreakdown(business);
    FinancialSummary(
      IncomeTotal(business),
      ExpenseTotal(business),
      IncomeTotal(business) - ExpenseTotal(business),
      |txs|,
      |Filter(txs, IsTxfReady)|,
      TopCategory(ranking),
      TopAmount(ranking))
  }

  /** Independent reading of `totalIncome`: a record adds its amount when it
      is a business record with a positive amount, and nothing otherwise. */
  function BusinessIncome(t: NormalizedTransaction): real {
    if IsBusiness(t) && t.amount > 0.0 then t.amount else 0.0
  }

  /** Independent reading of `totalExpenses`: a record adds `|amount|` when it
      is a business record with a negative amount. */
  function BusinessSpend(t: NormalizedTransaction): real {
    if IsBusiness(t) && t.amount < 0.0 then -t.amount else 0.0
  }

  predicate IsBusinessIncome(t: NormalizedTransaction) {
    IsBusiness(t) && IsIncome(t)
  }

  predicate IsBusinessExpense(t: NormalizedTransaction) {
    IsBusiness(t) && IsExpense(t)
  }

  /** Income is the sum of the positive business amounts, expenses the sum of
      the magnitudes of the negative ones; both are non-negative. */
  lemma SummaryTotals(txs: seq<NormalizedTransaction>)
    ensures var r := CalculateFinancialSummary(txs);
      && r.totalIncome == Sum(txs, BusinessIncome)
      && r.totalExpenses == Sum(txs, BusinessSpend)
      && r.totalIncome >= 0.0 && r.totalExpenses >= 0.0
  {
    FilterFilter(txs, IsBusiness, IsIncome, IsBusinessIncome);
    SumFilter(txs, IsBusinessIncome, Amount, BusinessIncome);
    FilterFilter(txs, IsBusiness, IsExpense, IsBusinessExpense);
    SumFilter(txs, IsBusinessExpense, Spend, BusinessSpend);
    SumNonNegative(txs, BusinessIncome);
    SumNonNegative(txs, BusinessSpend);
  }

  /** Leaving out a record that is not business activity changes neither the
      totals nor the top expense. */
  lemma ExcludedRecordIgnored(a: seq<NormalizedTransaction>, t: NormalizedTransaction, b: seq<NormalizedTransaction>)
    requires !IsBusiness(t)
    ensures var with, without := CalculateFinancialSummary(a + [t] + b), CalculateFinancialSummary(a + b);
      && with.totalIncome == without.totalIncome
      && with.totalExpenses == without.totalExpenses
      && with.netIncome == without.netIncome
      && with.topExpenseCategory == without.topExpenseCategory
      && with.topExpenseAmount == without.topExpenseAmount
  {
    FilterSkip(a, t, b, IsBusiness);
    assert Business(a + [t] + b) == Business(a + b);
  }

  /** The accumulator is empty exactly when there are no records. */
  lemma ExpenseTotalsEmpty(s: seq<NormalizedTransaction>)
    ensures |ExpenseTotals(s)| == 0 <==> |s| == 0
  {
    if |s| > 0 {
      assert s[0].category in Categories(ExpenseTotals(s));
    }
  }

  /** The business expenses are the records that are business activity and
      have a negative amount. */
  lemma BusinessExpensesMembers(txs: seq<NormalizedTransaction>)
    ensures BusinessExpenses(txs) == Filter(txs, IsBusinessExpense)
    ensures |BusinessExpenses(txs)| > 0 <==> exists i :: 0 <= i < |txs| && IsBusinessExpense(txs[i])
  {
    FilterFilter(txs, IsBusiness, IsExpense, IsBusinessExpense);
    var e := Filter(txs, IsBusinessExpense);
    FilterMembers(txs, IsBusinessExpense);
    if |e| > 0 {
      var k :| 0 <= k < |txs| && txs[k] == e[0];
    }
  }

  /** There is a top expense category exactly when some business record has a
      negative amount; without one the amount is 0. */
  lemma TopExpenseExists(txs: seq<NormalizedTransaction>)
    ensures var r := CalculateFinancialSummary(txs);
      && (r.topExpenseCategory.Some? <==> exists i :: 0 <= i < |txs| && IsBusinessExpense(txs[i]))
      && (r.topExpenseCategory.None? ==> r.topExpenseAmount == 0.0)
  {
    BusinessExpensesMembers(txs);
    ExpenseTotalsEmpty(BusinessExpenses(txs));
  }

  /** The top expense is the first category, in order of first occurrence,
      whose total is largest. */
  lemma TopExpenseIsFirstLargest(txs: seq<NormalizedTransaction>)
    requires CalculateFinancialSummary(txs).topExpenseCategory.Some?
    ensures var r := CalculateFinancialSummary(txs);
      var totals := ExpenseTotals(BusinessExpenses(txs));
      && |totals| > 0
      && r.topExpenseCategory == Some(totals[FirstMaxIndex(totals)].category)
      && r.topExpenseAmount == totals[FirstMaxIndex(totals)].total
      && Categories(totals) == FirstOccurrences(TxCategories(BusinessExpenses(txs)))
  {
    var totals := ExpenseTotals(BusinessExpenses(txs));
    SortHeadIsFirstMax(totals);
    ExpenseTotalsOrder(BusinessExpenses(txs));
  }

  /** A category with an entry totals at most the largest entry. */
  lemma PresentBounded(s: seq<NormalizedTransaction>, c: TaxCategory)
    requires c in Categories(ExpenseTotals(s))
    ensures var totals := ExpenseTotals(s);
      CategorySpend(s, c) <= totals[FirstMaxIndex(totals)].total
  {
    var totals := ExpenseTotals(s);
    var j := IndexOf(Categories(totals), c);
    assert totals[j].category == c;
    assert totals[j].total == CategorySpend(s, c);
    var k := FirstMaxIndex(totals);
    assert totals[j].total <= totals[k].total;
  }

  /** Among expenses, a category without an entry spent nothing, less than
      the largest entry. */
  lemma AbsentBounded(s: seq<NormalizedTransaction>, c: TaxCategory)
    requires forall i :: 0 <= i < |s| ==> IsExpense(s[i])
    requires |ExpenseTotals(s)| > 0
    requires c !in Categories(ExpenseTotals(s))
    ensures var totals := ExpenseTotals(s);
      CategorySpend(s, c) == 0.0 < totals[FirstMaxIndex(totals)].total
  {
    var totals := ExpenseTotals(s);
    var top := totals[FirstMaxIndex(totals)];
    assert forall i :: 0 <= i < |s| ==> s[i].category != c;
    CategorySpendAbsent(s, c);
    assert top.category in TxCategories(s);
    CategorySpendPositive(s, top.category);
  }

  /** Among expenses, the largest entry of the accumulator bounds every
      category's total, and is a category's total itself. */
  lemma LargestBoundsAll(s: seq<NormalizedTransaction>, c: TaxCategory)
    requires forall i :: 0 <= i < |s| ==> IsExpense(s[i])
    requires |ExpenseTotals(s)| > 0
    ensures var totals := ExpenseTotals(s);
      var top := totals[FirstMaxIndex(totals)];
      && top.total == CategorySpend(s, top.category)
      && CategorySpend(s, c) <= top.total
  {
    if c in Categories(ExpenseTotals(s)) {
      PresentBounded(s, c);
    } else {
      AbsentBounded(s, c);
    }
  }

  /** The top amount is a category's total expense and no category's total
      exceeds it. */
  lemma TopExpenseIsMaximum(txs: seq<NormalizedTransaction>, c: TaxCategory)
    requires CalculateFinancialSummary(txs).topExpenseCategory.Some?
    ensures var r := CalculateFinancialSummary(txs);
      && r.topExpenseAmount == CategorySpend(BusinessExpenses(txs), r.topExpenseCategory.value)
      && CategorySpend(BusinessExpenses(txs), c) <= r.topExpenseAmount
  {
    TopExpenseIsFirstLargest(txs);
    LargestBoundsAll(BusinessExpenses(txs), c);
  }

  /** The per-category totals add up to `totalExpenses`. */
  lemma CategoryTotalsSum(txs: seq<NormalizedTransaction>)
    ensures Sum(ExpenseRanking(txs), TotalOf) == CalculateFinancialSummary(txs).totalExpenses
  {
    SortSum(ExpenseTotals(BusinessExpenses(txs)));
  }
}
