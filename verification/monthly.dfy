/** `calculateMonthlyBreakdown`: income and expenses per calendar month, keyed
    by the ISO `YYYY-MM` prefix of each record's date and listed in ascending
    order of that key. */
module Monthly {
  import opened Optional
  import opened Seqs
  import opened JsDates
  import opened NumberText
  import opened Normalizer
  import opened Summary

  /** One `{ month, income, expenses }` entry of the result. */
  datatype MonthTotals = MonthTotals(month: string, income: real, expenses: real)

  function IncomeOf(e: MonthTotals): real {
    e.income
  }

  function ExpensesOf(e: MonthTotals): real {
    e.expenses
  }

  /** `tx.date.toISOString().slice(0, 7)` for a valid date. An invalid date
      makes `toISOString` throw; the breakdown checks for that before any key
      is used, so the value given for it here is never observed. */
  function MonthKey(t: NormalizedTransaction, cal: Calendar): string {
    match t.date
    case TimeValue(ms) => cal.isoMonth(ms)
    case InvalidDate => ""
  }

  /** What a record adds to its month's income: its amount when positive. */
  function Income(t: NormalizedTransaction): real {
    if t.amount > 0.0 then t.amount else 0.0
  }

  /** What a record adds to its month's expenses: `|amount|` when the amount
      is not positive, so a zero amount adds nothing but still opens a month. */
  function Outgo(t: NormalizedTransaction): real {
    if t.amount > 0.0 then 0.0 else Abs(t.amount)
  }

  /** `monthly[monthKey].income += tx.amount` or
      `monthly[monthKey].expenses += Math.abs(tx.amount)`. */
  function Credit(e: MonthTotals, t: NormalizedTransaction): (r: MonthTotals)
    ensures r.month == e.month
    ensures r.income == e.income + Income(t) && r.expenses == e.expenses + Outgo(t)
  {
    if t.amount > 0.0 then e.(income := e.income + t.amount)
    else e.(expenses := e.expenses + Abs(t.amount))
  }

  /** The keys of a month accumulator, in insertion order. */
  function Months(acc: seq<MonthTotals>): (r: seq<string>)
    ensures |r| == |acc|
    ensures forall i :: 0 <= i < |acc| ==> r[i] == acc[i].month
  {
    Map(acc, (e: MonthTotals) => e.month)
  }

  /** The month keys of a list of records, in order. */
  function MonthKeys(s: seq<NormalizedTransaction>, cal: Calendar): (r: seq<string>)
    ensures |r| == |s|
    ensures forall i :: 0 <= i < |s| ==> r[i] == MonthKey(s[i], cal)
  {
    Map(s, (t: NormalizedTransaction) => MonthKey(t, cal))
  }

  predicate DistinctMonths(acc: seq<MonthTotals>) {
    forall i, j :: 0 <= i < j < |acc| ==> acc[i].month != acc[j].month
  }

  /** One `forEach` step: the entry for `m` is created with zero totals when
      missing, then credited with the record. */
  function AddToMonth(acc: seq<MonthTotals>, m: string, t: NormalizedTransaction): (r: seq<MonthTotals>)
    requires DistinctMonths(acc)
    ensures DistinctMonths(r)
    ensures m in Months(r)
    ensures |r| == if m in Months(acc) then |acc| else |acc| + 1
    ensures forall i :: 0 <= i < |acc| ==> r[i] == if acc[i].month == m then Credit(acc[i], t) else acc[i]
    ensures m !in Months(acc) ==> r[|acc|] == Credit(MonthTotals(m, 0.0, 0.0), t)
  {
    var ms := Months(acc);
    if m in ms then
      var k := IndexOf(ms, m);
      var r := acc[k := Credit(acc[k], t)];
      assert Months(r)[k] == m;
      r
    else
      var r := acc + [Credit(MonthTotals(m, 0.0, 0.0), t)];
      assert Months(r)[|acc|] == m;
      r
  }

  /** The sum of `f` over the records whose month key is `m`. */
  function MonthSum(s: seq<NormalizedTransaction>, cal: Calendar, m: string, f: NormalizedTransaction -> real): real {
    if |s| == 0 then 0.0
    else
      var n := |s| - 1;
      MonthSum(s[..n], cal, m, f) + (if MonthKey(s[n], cal) == m then f(s[n]) else 0.0)
  }

  lemma {:induction false} MonthSumAbsent(s: seq<NormalizedTransaction>, cal: Calendar, m: string, f: NormalizedTransaction -> real)
    requires forall i :: 0 <= i < |s| ==> MonthKey(s[i], cal) != m
    ensures MonthSum(s, cal, m, f) == 0.0
  {
    if |s| > 0 {
      MonthSumAbsent(s[..|s| - 1], cal, m, f);
    }
  }

  /** An entry is right for `s` when it totals the income and expenses of
      its month among `s`. */
  predicate EntryRight(e: MonthTotals, s: seq<NormalizedTransaction>, cal: Calendar) {
    && e.month in MonthKeys(s, cal)
    && e.income == MonthSum(s, cal, e.month, Income)
    && e.expenses == MonthSum(s, cal, e.month, Outgo)
  }

  /** The `monthly` object after the `forEach`, keys in insertion order. */
  function MonthlyTotals(s: seq<NormalizedTransaction>, cal: Calendar): (r: seq<MonthTotals>)
    ensures DistinctMonths(r)
    ensures forall i :: 0 <= i < |s| ==> MonthKey(s[i], cal) in Months(r)
    ensures forall j :: 0 <= j < |r| ==> EntryRight(r[j], s, cal)
  {
    if |s| == 0 then []
    else
      var n := |s| - 1;
      var front := MonthlyTotals(s[..n], cal);
      MonthStep(s, s[..n], cal, front);
      AddToMonth(front, MonthKey(s[n], cal), s[n])
  }

  /** The step from the records `p` before the last to all of `s` keeps the
      accumulator's three properties. */
  lemma MonthStep(s: seq<NormalizedTransaction>, p: seq<NormalizedTransaction>, cal: Calendar, front: seq<MonthTotals>)
    requires |s| > 0 && p == s[..|s| - 1] && DistinctMonths(front)
    requires forall i :: 0 <= i < |p| ==> MonthKey(p[i], cal) in Months(front)
    requires forall j :: 0 <= j < |front| ==> EntryRight(front[j], p, cal)
    ensures var r := AddToMonth(front, MonthKey(s[|s| - 1], cal), s[|s| - 1]);
      && DistinctMonths(r)
      && (forall i :: 0 <= i < |s| ==> MonthKey(s[i], cal) in Months(r))
      && (forall j :: 0 <= j < |r| ==> EntryRight(r[j], s, cal))
  {
    assert forall i :: 0 <= i < |s| - 1 ==> p[i] == s[i];
    MonthStepCovers(s, cal, front);
    MonthStepEntries(s, cal, front);
  }

  lemma MonthStepCovers(s: seq<NormalizedTransaction>, cal: Calendar, front: seq<MonthTotals>)
    requires |s| > 0 && DistinctMonths(front)
    requires forall i :: 0 <= i < |s| - 1 ==> MonthKey(s[i], cal) in Months(front)
    ensures var r := AddToMonth(front, MonthKey(s[|s| - 1], cal), s[|s| - 1]);
      forall i :: 0 <= i < |s| ==> MonthKey(s[i], cal) in Months(r)
  {
    var r := AddToMonth(front, MonthKey(s[|s| - 1], cal), s[|s| - 1]);
    forall i | 0 <= i < |s| - 1
      ensures MonthKey(s[i], cal) in Months(r)
    {
      var k :| 0 <= k < |front| && Months(front)[k] == MonthKey(s[i], cal);
      assert Months(r)[k] == MonthKey(s[i], cal);
    }
  }

  /** An entry that was right for the records before the last stays right
      after the step. */
  lemma MonthEntryStep(s: seq<NormalizedTransaction>, cal: Calendar, e: MonthTotals)
    requires |s| > 0 && EntryRight(e, s[..|s| - 1], cal)
    ensures EntryRight(if e.month == MonthKey(s[|s| - 1], cal) then Credit(e, s[|s| - 1]) else e, s, cal)
  {
    MonthKeysSnoc(s, cal);
  }

  lemma MonthKeysSnoc(s: seq<NormalizedTransaction>, cal: Calendar)
    requires |s| > 0
    ensures MonthKeys(s, cal) == MonthKeys(s[..|s| - 1], cal) + [MonthKey(s[|s| - 1], cal)]
  {
    var p := s[..|s| - 1];
    assert forall i :: 0 <= i < |p| ==> p[i] == s[i];
  }

  lemma MonthStepOld(s: seq<NormalizedTransaction>, cal: Calendar, front: seq<MonthTotals>)
    requires |s| > 0 && DistinctMonths(front)
    requires forall j :: 0 <= j < |front| ==> EntryRight(front[j], s[..|s| - 1], cal)
    ensures var r := AddToMonth(front, MonthKey(s[|s| - 1], cal), s[|s| - 1]);
      forall j :: 0 <= j < |front| ==> EntryRight(r[j], s, cal)
  {
    var r := AddToMonth(front, MonthKey(s[|s| - 1], cal), s[|s| - 1]);
    forall j | 0 <= j < |front|
      ensures EntryRight(r[j], s, cal)
    {
      MonthEntryStep(s, cal, front[j]);
    }
  }

  /** A month not yet among the keys has no records so far. */
  lemma MonthSumsBeforeFirst(s: seq<NormalizedTransaction>, cal: Calendar, front: seq<MonthTotals>)
    requires |s| > 0
    requires forall i :: 0 <= i < |s| - 1 ==> MonthKey(s[i], cal) in Months(front)
    requires MonthKey(s[|s| - 1], cal) !in Months(front)
    ensures MonthSum(s[..|s| - 1], cal, MonthKey(s[|s| - 1], cal), Income) == 0.0
    ensures MonthSum(s[..|s| - 1], cal, MonthKey(s[|s| - 1], cal), Outgo) == 0.0
  {
    var n := |s| - 1;
    var p := s[..n];
    assert forall i :: 0 <= i < n ==> p[i] == s[i];
    MonthSumAbsent(p, cal, MonthKey(s[n], cal), Income);
    MonthSumAbsent(p, cal, MonthKey(s[n], cal), Outgo);
  }

  lemma MonthStepNew(s: seq<NormalizedTransaction>, cal: Calendar, front: seq<MonthTotals>)
    requires |s| > 0 && DistinctMonths(front)
    requires forall i :: 0 <= i < |s| - 1 ==> MonthKey(s[i], cal) in Months(front)
    requires MonthKey(s[|s| - 1], cal) !in Months(front)
    ensures var r := AddToMonth(front, MonthKey(s[|s| - 1], cal), s[|s| - 1]);
      EntryRight(r[|front|], s, cal)
  {
    var n := |s| - 1;
    var m := MonthKey(s[n], cal);
    MonthSumsBeforeFirst(s, cal, front);
    assert MonthKeys(s, cal)[n] == m;
  }

  lemma MonthStepEntries(s: seq<NormalizedTransaction>, cal: Calendar, front: seq<MonthTotals>)
    requires |s| > 0 && DistinctMonths(front)
    requires forall i :: 0 <= i < |s| - 1 ==> MonthKey(s[i], cal) in Months(front)
    requires forall j :: 0 <= j < |front| ==> EntryRight(front[j], s[..|s| - 1], cal)
    ensures var r := AddToMonth(front, MonthKey(s[|s| - 1], cal), s[|s| - 1]);
      forall j :: 0 <= j < |r| ==> EntryRight(r[j], s, cal)
  {
    MonthStepOld(s, cal, front);
    if MonthKey(s[|s| - 1], cal) !in Months(front) {
      MonthStepNew(s, cal, front);
    }
  }

  /** Code-unit lexicographic order, the order `localeCompare` gives the
      `YYYY-MM` keys. */
  predicate LexLess(a: string, b: string) {
    if |a| == 0 then |b| > 0
    else if |b| == 0 then false
    else if a[0] != b[0] then a[0] < b[0]
    else LexLess(a[1..], b[1..])
  }

  lemma {:induction false} LexLessIrreflexive(a: string)
    ensures !LexLess(a, a)
  {
    if |a| > 0 {
      LexLessIrreflexive(a[1..]);
    }
  }

  /** Any two different keys are ordered one way or the other. */
  lemma {:induction false} LexLessTotal(a: string, b: string)
    requires a != b
    ensures LexLess(a, b) || LexLess(b, a)
  {
    if |a| > 0 && |b| > 0 && a[0] == b[0] {
      assert a == [a[0]] + a[1..] && b == [b[0]] + b[1..];
      LexLessTotal(a[1..], b[1..]);
    }
  }

  lemma {:induction false} LexLessAsymmetric(a: string, b: string)
    requires LexLess(a, b)
    ensures !LexLess(b, a)
  {
    if |a| > 0 && |b| > 0 && a[0] == b[0] {
      LexLessAsymmetric(a[1..], b[1..]);
    }
  }

  lemma {:induction false} LexLessTransitive(a: string, b: string, c: string)
    requires LexLess(a, b) && LexLess(b, c)
    ensures LexLess(a, c)
  {
    if |a| > 0 && a[0] == b[0] && b[0] == c[0] {
      LexLessTransitive(a[1..], b[1..], c[1..]);
    }
  }

  /** Months in strictly ascending order of key. */
  predicate Ascending(s: seq<MonthTotals>) {
    forall i, j :: 0 <= i < j < |s| ==> LexLess(s[i].month, s[j].month)
  }

  /** Inserts `x` before the first entry whose key is not below its own. */
  function InsertByMonth(x: MonthTotals, sorted: seq<MonthTotals>): (r: seq<MonthTotals>)
    ensures |r| == |sorted| + 1
    ensures multiset(r) == multiset(sorted) + multiset{x}
    ensures forall i :: 0 <= i < |r| ==> r[i] == x || r[i] in sorted
  {
    if |sorted| == 0 || !LexLess(sorted[0].month, x.month) then [x] + sorted
    else
      var rest := InsertByMonth(x, sorted[1..]);
      assert sorted == [sorted[0]] + sorted[1..];
      assert forall i :: 0 <= i < |rest| ==> rest[i] == x || rest[i] in sorted[1..];
      [sorted[0]] + rest
  }

  /** `.sort((a, b) => a.month.localeCompare(b.month))`, as an insertion sort. */
  function SortByMonth(s: seq<MonthTotals>): (r: seq<MonthTotals>)
    ensures |r| == |s|
    ensures multiset(r) == multiset(s)
  {
    if |s| == 0 then []
    else
      var rest := SortByMonth(s[1..]);
      assert s == [s[0]] + s[1..];
      InsertByMonth(s[0], rest)
  }

  /** When `x`'s key is below the head's, it is below every key. */
  lemma InsertFront(x: MonthTotals, sorted: seq<MonthTotals>)
    requires Ascending(sorted) && |sorted| > 0
    requires LexLess(x.month, sorted[0].month)
    ensures Ascending([x] + sorted)
  {
    forall i | 0 < i < |sorted|
      ensures LexLess(x.month, sorted[i].month)
    {
      LexLessTransitive(x.month, sorted[0].month, sorted[i].month);
    }
  }

  lemma {:induction false} InsertAscending(x: MonthTotals, sorted: seq<MonthTotals>)
    requires Ascending(sorted)
    requires forall i :: 0 <= i < |sorted| ==> sorted[i].month != x.month
    ensures Ascending(InsertByMonth(x, sorted))
  {
    if |sorted| > 0 {
      var h := sorted[0];
      LexLessTotal(x.month, h.month);
      if !LexLess(h.month, x.month) {
        InsertFront(x, sorted);
      } else {
        var rest := InsertByMonth(x, sorted[1..]);
        InsertAscending(x, sorted[1..]);
        assert forall i :: 0 <= i < |rest| ==> LexLess(h.month, rest[i].month);
        assert InsertByMonth(x, sorted) == [h] + rest;
      }
    }
  }

  /** Sorting distinct keys puts them in strictly ascending order. */
  lemma {:induction false} SortByMonthAscending(s: seq<MonthTotals>)
    requires DistinctMonths(s)
    ensures Ascending(SortByMonth(s))
  {
    if |s| > 0 {
      var rest := SortByMonth(s[1..]);
      SortByMonthAscending(s[1..]);
      forall i | 0 <= i < |rest|
        ensures rest[i].month != s[0].month
      {
        assert rest[i] in multiset(s[1..]);
      }
      InsertAscending(s[0], rest);
    }
  }

  /** All records have a valid date, so `toISOString` never throws. */
  predicate AllDated(txs: seq<NormalizedTransaction>) {
    forall i :: 0 <= i < |txs| ==> txs[i].date.TimeValue?
  }

  /** `calculateMonthlyBreakdown`; `None` is the `RangeError` that
      `toISOString` throws on a record whose date is invalid. */
  function CalculateMonthlyBreakdown(txs: seq<NormalizedTransaction>, cal: Calendar): (r: Option<seq<MonthTotals>>)
    ensures r.None? <==> exists i :: 0 <= i < |txs| && txs[i].date == InvalidDate
    ensures r.Some? ==> Ascending(r.value)
    ensures r.Some? ==> multiset(r.value) == multiset(MonthlyTotals(txs, cal))
  {
    if AllDated(txs) then
      var totals := MonthlyTotals(txs, cal);
      SortByMonthAscending(totals);
      Some(SortByMonth(totals))
    else
      None
  }

  /** Every entry totals its month: income the positive amounts, expenses
      the magnitudes of the others. */
  lemma MonthlyEntries(txs: seq<NormalizedTransaction>, cal: Calendar)
    requires AllDated(txs)
    ensures var r := CalculateMonthlyBreakdown(txs, cal).value;
      forall j :: 0 <= j < |r| ==> EntryRight(r[j], txs, cal)
  {
    var r := CalculateMonthlyBreakdown(txs, cal).value;
    forall j | 0 <= j < |r|
      ensures EntryRight(r[j], txs, cal)
    {
      assert r[j] in multiset(MonthlyTotals(txs, cal));
    }
  }

  /** Every record's month has exactly one entry. */
  lemma MonthlyCovers(txs: seq<NormalizedTransaction>, cal: Calendar, i: nat)
    requires AllDated(txs) && i < |txs|
    ensures var r := CalculateMonthlyBreakdown(txs, cal).value;
      exists j :: 0 <= j < |r| && r[j].month == MonthKey(txs[i], cal)
    ensures var r := CalculateMonthlyBreakdown(txs, cal).value;
      forall j, k :: 0 <= j < k < |r| ==> r[j].month != r[k].month
  {
    var totals := MonthlyTotals(txs, cal);
    var r := CalculateMonthlyBreakdown(txs, cal).value;
    var k :| 0 <= k < |totals| && Months(totals)[k] == MonthKey(txs[i], cal);
    assert totals[k] in multiset(r);
    var j :| 0 <= j < |r| && r[j] == totals[k];
    forall j, k | 0 <= j < k < |r|
      ensures r[j].month != r[k].month
    {
      LexLessIrreflexive(r[j].month);
    }
  }

  lemma {:induction false} InsertByMonthSum(x: MonthTotals, sorted: seq<MonthTotals>, f: MonthTotals -> real)
    ensures Sum(InsertByMonth(x, sorted), f) == f(x) + Sum(sorted, f)
  {
    if |sorted| > 0 && LexLess(sorted[0].month, x.month) {
      InsertByMonthSum(x, sorted[1..], f);
    }
  }

  /** Sorting keeps the sums. */
  lemma {:induction false} SortByMonthSum(s: seq<MonthTotals>, f: MonthTotals -> real)
    ensures Sum(SortByMonth(s), f) == Sum(s, f)
  {
    if |s| > 0 {
      SortByMonthSum(s[1..], f);
      InsertByMonthSum(s[0], SortByMonth(s[1..]), f);
    }
  }

  /** A step adds the record to the income sum or to the expenses sum. */
  lemma AddToMonthSum(acc: seq<MonthTotals>, m: string, t: NormalizedTransaction)
    requires DistinctMonths(acc)
    ensures Sum(AddToMonth(acc, m, t), IncomeOf) == Sum(acc, IncomeOf) + Income(t)
    ensures Sum(AddToMonth(acc, m, t), ExpensesOf) == Sum(acc, ExpensesOf) + Outgo(t)
  {
    var r := AddToMonth(acc, m, t);
    var ms := Months(acc);
    if m in ms {
      var k := IndexOf(ms, m);
      var e := Credit(acc[k], t);
      assert r == acc[k := e];
      SumUpdate(acc, k, e, IncomeOf);
      SumUpdate(acc, k, e, ExpensesOf);
    } else {
      var e := Credit(MonthTotals(m, 0.0, 0.0), t);
      assert r == acc + [e];
      SumConcat(acc, [e], IncomeOf);
      SumConcat(acc, [e], ExpensesOf);
    }
  }

  lemma {:induction false} MonthlyTotalsSum(s: seq<NormalizedTransaction>, cal: Calendar)
    ensures Sum(MonthlyTotals(s, cal), IncomeOf) == Sum(s, Income)
    ensures Sum(MonthlyTotals(s, cal), ExpensesOf) == Sum(s, Outgo)
  {
    if |s| > 0 {
      var n := |s| - 1;
      var front := MonthlyTotals(s[..n], cal);
      assert MonthlyTotals(s, cal) == AddToMonth(front, MonthKey(s[n], cal), s[n]);
      MonthlyTotalsSum(s[..n], cal);
      AddToMonthSum(front, MonthKey(s[n], cal), s[n]);
      SumLast(s, Income);
      SumLast(s, Outgo);
    }
  }

  /** No record is lost: the months' incomes add up to the positive amounts
      and their expenses to the magnitudes of the others. */
  lemma MonthlySums(txs: seq<NormalizedTransaction>, cal: Calendar)
    requires AllDated(txs)
    ensures var r := CalculateMonthlyBreakdown(txs, cal).value;
      && Sum(r, IncomeOf) == Sum(txs, Income)
      && Sum(r, ExpensesOf) == Sum(txs, Outgo)
  {
    var totals := MonthlyTotals(txs, cal);
    SortByMonthSum(totals, IncomeOf);
    SortByMonthSum(totals, ExpensesOf);
    MonthlyTotalsSum(txs, cal);
  }
}
