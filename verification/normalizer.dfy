/** `normalizeTransaction` and `normalizeTransactions`: raw rows become typed
    records, and a row is dropped exactly when its amount does not parse. */
module Normalizer {
  import opened Optional
  import opened NumberText
  import opened Rows
  import opened JsDates
  import opened CategoryTables
  import opened Seqs

  /** A row read into typed fields. */
  datatype NormalizedTransaction = NormalizedTransaction(
    id: string,
    date: JsDate,
    description: string,
    amount: real,
    category: TaxCategory,
    rawCategory: string,
    accountType: Option<string>,
    accountGroup: Option<string>)

  /** The record id of the row at `index`, `tx_<index>`. */
  function TransactionId(index: nat): string {
    "tx_" + NatToString(index)
  }

  /** `new Date(dateValue || Date.now())`: an absent or empty date text means
      the clock's `now`; any other text is handed to the date parser. */
  function RowDate(row: Row, now: int, cal: Calendar): JsDate {
    var dateValue := DateText(row);
    if dateValue.None? || dateValue.value == "" then TimeValue(now) else cal.parse(dateValue.value)
  }

  /** One row as `normalizeTransaction(tx, index)` reads it; `None` is `null`. */
  function NormalizeTransaction(row: Row, index: nat, now: int, cal: Calendar): (r: Option<NormalizedTransaction>)
    ensures r.None? <==> RowAmount(row).None?
    ensures r.Some? ==>
      && r.value.id == TransactionId(index)
      && r.value.amount == RowAmount(row).value
      && r.value.rawCategory == CategoryText(row)
      && r.value.category == GetStandardCategory(CategoryText(row))
      && r.value.description == DescriptionText(row)
      && r.value.date == RowDate(row, now, cal)
      && r.value.accountType == Field(row, AccountTypeKey)
      && r.value.accountGroup == Field(row, AccountGroupKey)
  {
    var amount := RowAmount(row);
    if amount.None? then None
    else
      var category := CategoryText(row);
      Some(NormalizedTransaction(
        TransactionId(index),
        RowDate(row, now, cal),
        DescriptionText(row),
        amount.value,
        GetStandardCategory(category),
        category,
        Field(row, AccountTypeKey),
        Field(row, AccountGroupKey)))
  }

  /** Whether `normalizeTransaction` keeps the row: its amount parses. */
  predicate AmountParses(row: Row) {
    RowAmount(row).Some?
  }

  /** The positions of the rows whose amount parses, in increasing order. */
  function AcceptedIndices(rows: seq<Row>): (ix: seq<nat>)
    ensures |ix| <= |rows|
    ensures forall j :: 0 <= j < |ix| ==> ix[j] < |rows| && AmountParses(rows[ix[j]])
    ensures forall i :: 0 <= i < |rows| && AmountParses(rows[i]) ==> i in ix
    ensures forall j, k :: 0 <= j < k < |ix| ==> ix[j] < ix[k]
  {
    Positions(rows, AmountParses)
  }

  /** `transactions.map((tx, idx) => normalizeTransaction(tx, idx)).filter(t => t !== null)`:
      the non-null results, in input order, each normalized with its original
      position as index. */
  function NormalizeTransactions(rows: seq<Row>, now: int, cal: Calendar): (r: seq<NormalizedTransaction>)
    ensures |r| == |AcceptedIndices(rows)|
    ensures forall j :: 0 <= j < |r| ==>
      Some(r[j]) == NormalizeTransaction(rows[AcceptedIndices(rows)[j]], AcceptedIndices(rows)[j], now, cal)
  {
    var f := (row: Row, i: nat) => NormalizeTransaction(row, i, now, cal);
    MapSomePositions(rows, f, AmountParses);
    MapSome(rows, f)
  }

  /** Distinct indices give distinct ids. */
  lemma TransactionIdInjective(a: nat, b: nat)
    requires TransactionId(a) == TransactionId(b)
    ensures a == b
  {
    var sa, sb := NatToString(a), NatToString(b);
    assert sa == TransactionId(a)[3..];
    assert sb == TransactionId(b)[3..];
    assert DigitsValue(sa) == a && DigitsValue(sb) == b;
  }

  /** The records' ids are pairwise distinct: each carries its row's
      position, and positions strictly increase along the result. */
  lemma IdsDistinct(rows: seq<Row>, now: int, cal: Calendar)
    ensures var r := NormalizeTransactions(rows, now, cal);
      forall j, k :: 0 <= j < k < |r| ==> r[j].id != r[k].id
  {
    var r := NormalizeTransactions(rows, now, cal);
    var ix := AcceptedIndices(rows);
    forall j, k | 0 <= j < k < |r|
      ensures r[j].id != r[k].id
    {
      assert r[j].id == TransactionId(ix[j]) && r[k].id == TransactionId(ix[k]);
      if r[j].id == r[k].id {
        TransactionIdInjective(ix[j], ix[k]);
      }
    }
  }

  /** A row whose date text does not parse is still normalized; only the
      amount can make a row drop out. */
  lemma InvalidDateKept(row: Row, index: nat, now: int, cal: Calendar)
    requires RowAmount(row).Some?
    requires DateText(row).Some? && DateText(row).value != ""
    requires cal.parse(DateText(row).value) == InvalidDate
    ensures NormalizeTransaction(row, index, now, cal).Some?
    ensures NormalizeTransaction(row, index, now, cal).value.date == InvalidDate
  {
  }

  /** When every amount parses nothing is dropped, and the i-th record is the
      i-th row's. */
  lemma AllAccepted(rows: seq<Row>, now: int, cal: Calendar)
    requires forall i :: 0 <= i < |rows| ==> AmountParses(rows[i])
    ensures |NormalizeTransactions(rows, now, cal)| == |rows|
    ensures forall i :: 0 <= i < |rows| ==>
      Some(NormalizeTransactions(rows, now, cal)[i]) == NormalizeTransaction(rows[i], i, now, cal)
  {
    PositionsAll(rows, AmountParses);
  }

  /** A row written `$1,234.56` yields a record with amount 1234.56. */
  lemma DollarRowNormalized(row: Row, index: nat, now: int, cal: Calendar)
    requires AmountKey in row && row[AmountKey] == "$1,234.56"
    ensures NormalizeTransaction(row, index, now, cal).Some?
    ensures NormalizeTransaction(row, index, now, cal).value.amount == 1234.56
  {
    DollarAmountExample();
  }
}
