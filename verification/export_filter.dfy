/** The export screen's `getFilteredTransactions` and its call of the
    converter: rows of the two excluded accounts are dropped, then, when a year
    is selected, the rows whose transaction date does not start with it. */
module ExportFilter {
  import opened Optional
  import opened Rows
  import opened JsDates
  import opened Seqs
  import opened TxfExport
  import Normalizer
  import Summary

  const OwnerDrawingsAccount := "Owner Investment / Drawings"
  const CashOnHandAccount := "Cash on Hand"

  /** The account name the export screen writes into the document header. */
  const CompanyName := "NeuralSec Advisory"

  /** The row's account is neither of the two excluded ones; a row without an
      account name is kept. */
  predicate NotExcludedAccount(row: Row) {
    Field(row, AccountNameKey) != Some(OwnerDrawingsAccount)
      && Field(row, AccountNameKey) != Some(CashOnHandAccount)
  }

  /** `t['Transaction Date'] || ''`. */
  function TransactionDate(row: Row): string {
    Field(row, TransactionDateKey).GetOr("")
  }

  /** `dateStr.startsWith(selectedYear)`. */
  predicate InYear(year: string, row: Row) {
    year <= TransactionDate(row)
  }

  function YearFilter(year: string): Row -> bool {
    (row: Row) => InYear(year, row)
  }

  /** The rows `getFilteredTransactions` keeps for the selected year, `""`
      meaning no year is selected. */
  function GetFilteredTransactions(rows: seq<Row>, selectedYear: string): (r: seq<Row>)
    ensures forall i :: 0 <= i < |r| ==> NotExcludedAccount(r[i])
    ensures selectedYear != "" ==> forall i :: 0 <= i < |r| ==> InYear(selectedYear, r[i])
  {
    var accounts := Filter(rows, NotExcludedAccount);
    FilterMembers(accounts, YearFilter(selectedYear));
    if selectedYear != "" then Filter(accounts, YearFilter(selectedYear)) else accounts
  }

  /** The same selection stated as one test per row. */
  predicate Kept(selectedYear: string, row: Row) {
    NotExcludedAccount(row) && (selectedYear == "" || InYear(selectedYear, row))
  }

  function KeptFor(selectedYear: string): Row -> bool {
    (row: Row) => Kept(selectedYear, row)
  }

  /** The two filters in sequence are one filter by `Kept`. */
  lemma FilteredIsOneFilter(rows: seq<Row>, selectedYear: string)
    ensures GetFilteredTransactions(rows, selectedYear) == Filter(rows, KeptFor(selectedYear))
  {
    if selectedYear != "" {
      FilterFilter(rows, NotExcludedAccount, YearFilter(selectedYear), KeptFor(selectedYear));
    } else {
      FilterFilter(rows, NotExcludedAccount, (row: Row) => true, KeptFor(selectedYear));
      FilterKeepsAll(Filter(rows, NotExcludedAccount), (row: Row) => true);
    }
  }

  /** Every row of the result passes `Kept`. */
  lemma FilteredAreKept(rows: seq<Row>, selectedYear: string, row: Row)
    requires row in GetFilteredTransactions(rows, selectedYear)
    ensures Kept(selectedYear, row)
  {
    var r := GetFilteredTransactions(rows, selectedYear);
    var j :| 0 <= j < |r| && r[j] == row;
  }

  /** The result keeps the input order, and a row of the input is in it
      exactly when `Kept` holds for it. */
  lemma FilteredMembers(rows: seq<Row>, selectedYear: string)
    ensures SubsequenceOf(GetFilteredTransactions(rows, selectedYear), rows)
    ensures forall i :: 0 <= i < |rows| ==>
      (rows[i] in GetFilteredTransactions(rows, selectedYear) <==> Kept(selectedYear, rows[i]))
  {
    var r := GetFilteredTransactions(rows, selectedYear);
    FilteredIsOneFilter(rows, selectedYear);
    FilterMembers(rows, KeptFor(selectedYear));
    forall i | 0 <= i < |rows| && rows[i] in r
      ensures Kept(selectedYear, rows[i])
    {
      FilteredAreKept(rows, selectedYear, rows[i]);
    }
  }

  /** With no year selected only the account filter applies; when no row
      belongs to an excluded account, every row is kept. */
  lemma NoYearKeepsAccounts(rows: seq<Row>)
    ensures GetFilteredTransactions(rows, "") == Filter(rows, NotExcludedAccount)
    ensures (forall i :: 0 <= i < |rows| ==> NotExcludedAccount(rows[i])) ==>
      GetFilteredTransactions(rows, "") == rows
  {
    if forall i :: 0 <= i < |rows| ==> NotExcludedAccount(rows[i]) {
      FilterKeepsAll(rows, NotExcludedAccount);
    }
  }

  /** A row dated in another year is never exported for the selected year. */
  lemma OtherYearDropped(rows: seq<Row>, selectedYear: string, row: Row)
    requires selectedYear != "" && !(selectedYear <= TransactionDate(row))
    ensures row !in GetFilteredTransactions(rows, selectedYear)
  {
  }

  /** `convertToTXF(filteredTransactions, 'NeuralSec Advisory')`. */
  function ExportDocument(rows: seq<Row>, selectedYear: string, today: string, cal: Calendar): (lines: seq<string>)
    ensures |lines| == 4 + 6 * |Filter(rows, (row: Row) => Kept(selectedYear, row) && Mapped(row))|
    ensures lines[..4] == Header(CompanyName, today)
  {
    var filtered := GetFilteredTransactions(rows, selectedYear);
    FilteredIsOneFilter(rows, selectedYear);
    FilterFilter(rows, KeptFor(selectedYear), Mapped, (row: Row) => Kept(selectedYear, row) && Mapped(row));
    ConvertToTxf(filtered, CompanyName, today, cal)
  }

  /** A record kept by the normalizer is TXF-ready exactly when its row is
      exported. */
  lemma ReadyIffMapped(row: Row, index: nat, now: int, cal: Calendar)
    requires Normalizer.NormalizeTransaction(row, index, now, cal).Some?
    ensures Summary.IsTxfReady(Normalizer.NormalizeTransaction(row, index, now, cal).value) == Mapped(row)
  {
  }

  /** When every amount parses, the dashboard's TXF-ready count is the number
      of records the converter writes for the same rows. */
  lemma TxfReadyCountIsExportCount(rows: seq<Row>, now: int, cal: Calendar)
    requires forall i :: 0 <= i < |rows| ==> Normalizer.AmountParses(rows[i])
    ensures Summary.CalculateFinancialSummary(Normalizer.NormalizeTransactions(rows, now, cal)).txfReadyCount
      == |Filter(rows, Mapped)|
  {
    var txs := Normalizer.NormalizeTransactions(rows, now, cal);
    Normalizer.AllAccepted(rows, now, cal);
    forall i | 0 <= i < |rows|
      ensures Summary.IsTxfReady(txs[i]) == Mapped(rows[i])
    {
      assert Some(txs[i]) == Normalizer.NormalizeTransaction(rows[i], i, now, cal);
      ReadyIffMapped(rows[i], i, now, cal);
    }
    FilterLengthPointwise(txs, rows, Summary.IsTxfReady, Mapped);
  }
}
