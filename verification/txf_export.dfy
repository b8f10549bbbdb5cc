/** `convertToTXF`: raw rows become a TXF V041 document, one six-line record
    per row whose raw category has a TXF code, after a four-line header. */
module TxfExport {
  import opened Optional
  import opened NumberText
  import opened Rows
  import opened JsDates
  import opened CategoryTables
  import opened Seqs

  /** `Math.abs(amount).toFixed(2)`; `NaN` prints as `"NaN"`. */
  function AmountField(amount: Option<real>): string {
    match amount
    case None => "NaN"
    case Some(x) => Fixed2(Abs(x))
  }

  /** `dateStr`: the row's date in en-US form when its date text is present,
      non-empty and parses to a valid date; `today` otherwise. */
  function ExportDate(row: Row, today: string, cal: Calendar): string {
    var dateValue := DateText(row);
    if dateValue.None? || dateValue.value == "" then today
    else
      match cal.parse(dateValue.value)
      case TimeValue(ms) => cal.enUsDate(ms)
      case InvalidDate => today
  }

  /** The row's raw category has a TXF code, so it is exported. */
  predicate Mapped(row: Row) {
    TxfCode(CategoryText(row)).Some?
  }

  /** The header: format version, account name, export date, separator. */
  function Header(company: string, today: string): seq<string> {
    ["V041", "A" + company, "D" + today, "^"]
  }

  /** One exported record: code, payee/description, date and amount between
      two `^` lines. */
  function Block(code: nat, description: string, date: string, amount: string): seq<string> {
    ["^", "C" + NatToString(code), "P" + description, "D" + date, "$" + amount, "^"]
  }

  /** The lines one loop iteration pushes: a block when the raw category has a
      code, nothing when it is skipped. */
  function RowLines(row: Row, today: string, cal: Calendar): seq<string> {
    match TxfCode(CategoryText(row))
    case Some(code) =>
      Block(code, DescriptionText(row), ExportDate(row, today, cal), AmountField(RowAmount(row)))
    case None => []
  }

  function LinesOf(today: string, cal: Calendar): Row -> seq<string> {
    (row: Row) => RowLines(row, today, cal)
  }

  /** The lines of all rows, in order. */
  function Blocks(rows: seq<Row>, today: string, cal: Calendar): seq<string> {
    FlatMap(rows, LinesOf(today, cal))
  }

  /** Six lines per exported row. */
  lemma BlocksLength(rows: seq<Row>, today: string, cal: Calendar)
    ensures |Blocks(rows, today, cal)| == 6 * |Filter(rows, Mapped)|
  {
    forall i | 0 <= i < |rows|
      ensures |LinesOf(today, cal)(rows[i])| == if Mapped(rows[i]) then 6 else 0
    {
    }
    FlatMapLength(rows, LinesOf(today, cal), Mapped, 6);
  }

  /** The lines of `convertToTXF(transactions, companyName)`, before they are
      joined with newlines; `today` is the export date in en-US form. */
  function ConvertToTxf(rows: seq<Row>, company: string, today: string, cal: Calendar): (lines: seq<string>)
    ensures |lines| == 4 + 6 * |Filter(rows, Mapped)|
    ensures lines[..4] == Header(company, today)
  {
    BlocksLength(rows, today, cal);
    Header(company, today) + Blocks(rows, today, cal)
  }

  /** The loop of `convertToTXF`, with its `convertedCount` and `skippedCount`:
      every row is either converted or skipped. */
  method ConvertWithCounts(rows: seq<Row>, company: string, today: string, cal: Calendar)
    returns (lines: seq<string>, converted: nat, skipped: nat)
    ensures lines == ConvertToTxf(rows, company, today, cal)
    ensures converted == |Filter(rows, Mapped)|
    ensures converted + skipped == |rows|
  {
    var blocks;
    blocks, converted, skipped := FlatMapCounting(rows, LinesOf(today, cal), Mapped);
    lines := Header(company, today) + blocks;
  }

  /** `output.join('\n')`. */
  function JoinLines(lines: seq<string>): string {
    if |lines| == 0 then ""
    else if |lines| == 1 then lines[0]
    else lines[0] + "\n" + JoinLines(lines[1..])
  }

  /** The exported file's text. */
  function ConvertToTxfText(rows: seq<Row>, company: string, today: string, cal: Calendar): string {
    JoinLines(ConvertToTxf(rows, company, today, cal))
  }

  /** Splits text at each newline, as a reader of the file does. */
  function SplitLines(s: string): (r: seq<string>)
    ensures |r| >= 1
    decreases |s|
  {
    if '\n' in s then
      var i := IndexOf(s, '\n');
      [s[..i]] + SplitLines(s[i + 1..])
    else [s]
  }

  predicate NoNewline(s: string) {
    '\n' !in s
  }

  /** The first newline of `a + "\n" + b` is the one after `a`. */
  lemma FirstNewline(a: string, b: string)
    requires NoNewline(a)
    ensures var s := a + "\n" + b;
      '\n' in s && IndexOf(s, '\n') == |a| && s[..|a|] == a && s[|a| + 1..] == b
  {
    var s := a + "\n" + b;
    assert s[|a|] == '\n';
  }

  /** Splitting the joined text gives back the lines, as long as no line
      holds a newline of its own. */
  lemma {:induction false} SplitJoin(lines: seq<string>)
    requires |lines| >= 1
    requires forall i :: 0 <= i < |lines| ==> NoNewline(lines[i])
    ensures SplitLines(JoinLines(lines)) == lines
  {
    if |lines| > 1 {
      FirstNewline(lines[0], JoinLines(lines[1..]));
      SplitJoin(lines[1..]);
      assert lines == [lines[0]] + lines[1..];
    }
  }

  /** The exported text splits back into the document's lines when no
      description, date or name holds a newline. */
  lemma TextSplitsBack(rows: seq<Row>, company: string, today: string, cal: Calendar)
    requires forall i :: 0 <= i < |ConvertToTxf(rows, company, today, cal)| ==> NoNewline(ConvertToTxf(rows, company, today, cal)[i])
    ensures SplitLines(ConvertToTxfText(rows, company, today, cal)) == ConvertToTxf(rows, company, today, cal)
  {
    SplitJoin(ConvertToTxf(rows, company, today, cal));
  }

  /** One record as a reader of the file sees it. */
  datatype TxfRecord = TxfRecord(code: nat, description: string, date: string, amount: string)

  /** A whole file as a reader sees it. */
  datatype TxfDocument = TxfDocument(company: string, date: string, records: seq<TxfRecord>)

  /** A line that starts with `tag`. */
  predicate Tagged(line: string, tag: char) {
    |line| >= 1 && line[0] == tag
  }

  /** Reads one six-line record; `None` when the lines are not one. */
  function ReadRecord(b: seq<string>): Option<TxfRecord>
    requires |b| == 6
  {
    if && b[0] == "^" && b[5] == "^"
       && Tagged(b[1], 'C') && |b[1]| >= 2 && AllDigits(b[1][1..])
       && Tagged(b[2], 'P') && Tagged(b[3], 'D') && Tagged(b[4], '$')
    then Some(TxfRecord(DigitsValue(b[1][1..]), b[2][1..], b[3][1..], b[4][1..]))
    else None
  }

  /** Reads consecutive six-line records up to the end. */
  function ReadRecords(lines: seq<string>): Option<seq<TxfRecord>>
    decreases |lines|
  {
    if |lines| == 0 then Some([])
    else if |lines| < 6 then None
    else
      match ReadRecord(lines[..6])
      case None => None
      case Some(rec) =>
        match ReadRecords(lines[6..])
        case None => None
        case Some(rest) => Some([rec] + rest)
  }

  /** Reads a TXF file given as lines: the header, then the records. */
  function ReadTxf(lines: seq<string>): Option<TxfDocument> {
    if && |lines| >= 4 && lines[0] == "V041" && Tagged(lines[1], 'A')
       && Tagged(lines[2], 'D') && lines[3] == "^"
    then
      match ReadRecords(lines[4..])
      case None => None
      case Some(records) => Some(TxfDocument(lines[1][1..], lines[2][1..], records))
    else None
  }

  /** What a mapped row should export: its code, description, date and
      amount, each as the converter promises. */
  function ExportedRecord(row: Row, today: string, cal: Calendar): TxfRecord
    requires Mapped(row)
  {
    TxfRecord(TxfCode(CategoryText(row)).value, DescriptionText(row), ExportDate(row, today, cal), AmountField(RowAmount(row)))
  }

  /** The records the mapped rows should export, in row order. */
  function ExportedRecords(rows: seq<Row>, today: string, cal: Calendar): seq<TxfRecord> {
    if |rows| == 0 then []
    else if Mapped(rows[0]) then [ExportedRecord(rows[0], today, cal)] + ExportedRecords(rows[1..], today, cal)
    else ExportedRecords(rows[1..], today, cal)
  }

  lemma ReadBlock(code: nat, description: string, date: string, amount: string)
    ensures ReadRecord(Block(code, description, date, amount)) == Some(TxfRecord(code, description, date, amount))
  {
    var b := Block(code, description, date, amount);
    assert b[1][1..] == NatToString(code);
    assert b[2][1..] == description && b[3][1..] == date && b[4][1..] == amount;
  }

  lemma {:induction false} ReadBlocks(rows: seq<Row>, today: string, cal: Calendar)
    ensures ReadRecords(Blocks(rows, today, cal)) == Some(ExportedRecords(rows, today, cal))
  {
    if |rows| > 0 {
      var row := rows[0];
      var rest := Blocks(rows[1..], today, cal);
      ReadBlocks(rows[1..], today, cal);
      if Mapped(row) {
        var rec := ExportedRecord(row, today, cal);
        var b := RowLines(row, today, cal);
        assert b == Block(rec.code, rec.description, rec.date, rec.amount);
        ReadBlock(rec.code, rec.description, rec.date, rec.amount);
        assert (b + rest)[..6] == b && (b + rest)[6..] == rest;
      } else {
        assert RowLines(row, today, cal) + rest == rest;
      }
    }
  }

  /** Reading the exported lines gives back the company, the export date and
      one record per mapped row, in order. */
  lemma ReadConverted(rows: seq<Row>, company: string, today: string, cal: Calendar)
    ensures ReadTxf(ConvertToTxf(rows, company, today, cal)) == Some(TxfDocument(company, today, ExportedRecords(rows, today, cal)))
  {
    var lines := ConvertToTxf(rows, company, today, cal);
    ReadBlocks(rows, today, cal);
    assert lines[4..] == Blocks(rows, today, cal);
    assert lines[1][1..] == company && lines[2][1..] == today;
  }

  /** A mapped row's lines are the block of its code, description, date and amount. */
  lemma MappedRowLines(row: Row, today: string, cal: Calendar)
    requires Mapped(row)
    ensures RowLines(row, today, cal) ==
      Block(TxfCode(CategoryText(row)).value, DescriptionText(row), ExportDate(row, today, cal), AmountField(RowAmount(row)))
  {
  }

  /** The code and amount lines of a block. */
  lemma BlockLines(code: nat, description: string, date: string, amount: string)
    ensures var b := Block(code, description, date, amount);
      |b| == 6 && b[1] == "C" + NatToString(code) && b[4] == "$" + amount
  {
  }

  /** A mapped row's code line and amount line. */
  lemma MappedLinesAre(row: Row, today: string, cal: Calendar, code: nat, amount: string)
    requires TxfCode(CategoryText(row)) == Some(code)
    requires AmountField(RowAmount(row)) == amount
    ensures |RowLines(row, today, cal)| == 6
    ensures RowLines(row, today, cal)[1] == "C" + NatToString(code)
    ensures RowLines(row, today, cal)[4] == "$" + amount
  {
    MappedRowLines(row, today, cal);
    BlockLines(code, DescriptionText(row), ExportDate(row, today, cal), amount);
  }

  /** A mapped row's amount line carries its amount field. */
  lemma MappedAmountLine(row: Row, today: string, cal: Calendar, amount: string)
    requires Mapped(row) && AmountField(RowAmount(row)) == amount
    ensures |RowLines(row, today, cal)| == 6
    ensures RowLines(row, today, cal)[4] == "$" + amount
  {
    MappedLinesAre(row, today, cal, TxfCode(CategoryText(row)).value, amount);
  }

  lemma NaNLine()
    ensures "$" + "NaN" == "$NaN"
  {
  }

  /** Unlike the normalizer, the converter does not drop a row whose amount
      is not a number: a mapped row is exported with the amount `$NaN`. */
  lemma UnparsableAmountExported(row: Row, today: string, cal: Calendar)
    requires Mapped(row) && RowAmount(row).None?
    ensures |RowLines(row, today, cal)| == 6
    ensures RowLines(row, today, cal)[4] == "$NaN"
  {
    MappedAmountLine(row, today, cal, "NaN");
    NaNLine();
  }

  /** A row without a code adds no lines: removing it changes nothing. */
  lemma SkippedRowChangesNothing(a: seq<Row>, row: Row, b: seq<Row>, company: string, today: string, cal: Calendar)
    requires !Mapped(row)
    ensures ConvertToTxf(a + [row] + b, company, today, cal) == ConvertToTxf(a + b, company, today, cal)
  {
    var f := LinesOf(today, cal);
    assert f(row) == [];
    FlatMapSkip(a, row, b, f);
    assert Blocks(a + [row] + b, today, cal) == Blocks(a + b, today, cal);
  }

  /** Transfers, payments and equity movements are never exported. */
  lemma NonTaxableNotExported(row: Row, today: string, cal: Calendar)
    requires IsNonTaxable(GetStandardCategory(CategoryText(row)))
    ensures !Mapped(row) && RowLines(row, today, cal) == []
  {
    NonTaxableHaveNoCode(CategoryText(row));
  }

  /** A date that is missing, empty or not parseable is exported as the
      export date; a parseable one in its en-US form. */
  lemma ExportDateCases(row: Row, today: string, cal: Calendar)
    ensures ExportDate(row, today, cal) == today
      <== DateText(row).None? || DateText(row).value == "" || cal.parse(DateText(row).value) == InvalidDate
    ensures DateText(row).Some? && DateText(row).value != "" && cal.parse(DateText(row).value).TimeValue? ==>
      ExportDate(row, today, cal) == cal.enUsDate(cal.parse(DateText(row).value).ms)
  {
  }

  /** `${281}` is `"281"`. */
  lemma RentCodeText()
    ensures NatToString(281) == "281"
  {
    NatToStringLast(281);
    NatToStringLast(28);
    assert NatToString(2) == ['2'];
    assert DigitChar(8) == '8' && DigitChar(1) == '1';
    assert ['2'] + ['8'] + ['1'] == "281";
  }

  lemma RentCodeLine()
    ensures "C" + NatToString(281) == "C281"
  {
    RentCodeText();
  }

  /** `Math.abs(amount).toFixed(2)` of a canonical two-decimal amount is its
      digits without the sign. */
  lemma AmountFieldOfDecimal(negative: bool, w: string, f: string)
    requires AllDigits(w) && |w| >= 1 && (|w| == 1 || w[0] != '0')
    requires AllDigits(f) && |f| == 2
    ensures AmountField(Some(DecimalValue(negative, w, f))) == w + "." + f
  {
    var v := DecimalValue(negative, w, f);
    var m := Abs(v);
    Fixed2OfDecimal(negative, w, f);
    assert Fixed2(m) == w + "." + f;
    assert AmountField(Some(v)) == Fixed2(m);
  }

  /** A decimal numeral has no `,` or `$` for the cleaning to remove. */
  lemma DecimalTextClean(negative: bool, w: string, f: string)
    requires AllDigits(w) && AllDigits(f)
    ensures CleanAmount(DecimalText(negative, w, f)) == DecimalText(negative, w, f)
  {
    var t := DecimalText(negative, w, f);
    assert ',' !in w && '$' !in w && ',' !in f && '$' !in f;
    assert ',' !in t && '$' !in t;
  }

  /** A row whose amount is written `[-]w.ff`, with no superfluous leading
      zero, is exported with the amount `w.ff`: the sign is dropped and the
      digits are kept as written. */
  lemma DecimalAmountExported(row: Row, negative: bool, w: string, f: string)
    requires AllDigits(w) && |w| >= 1 && (|w| == 1 || w[0] != '0')
    requires AllDigits(f) && |f| == 2
    requires AmountKey in row && row[AmountKey] == DecimalText(negative, w, f)
    ensures AmountField(RowAmount(row)) == w + "." + f
  {
    var t := AmountText(row);
    DecimalTextClean(negative, w, f);
    ParseDecimalText(t, negative, w, f);
    assert RowAmount(row) == Some(DecimalValue(negative, w, f));
    AmountFieldOfDecimal(negative, w, f);
  }

  lemma RentAmountText()
    ensures AllDigits("500") && "500"[0] != '0' && AllDigits("00")
    ensures "-500.00" == DecimalText(true, "500", "00")
  {
  }

  lemma RentAmountLine()
    ensures "$" + ("500" + "." + "00") == "$500.00"
  {
  }

  /** A `Rent` row is exported under code 281 with its amount field. */
  lemma RentLines(row: Row, today: string, cal: Calendar)
    requires CategoryKey in row && row[CategoryKey] == "Rent"
    ensures |RowLines(row, today, cal)| == 6
    ensures RowLines(row, today, cal)[1] == "C281"
    ensures RowLines(row, today, cal)[4] == "$" + AmountField(RowAmount(row))
  {
    RentCode();
    MappedLinesAre(row, today, cal, 281, AmountField(RowAmount(row)));
    RentCodeLine();
  }

  /** A `Rent` row of `-500.00` is exported under code 281 with the amount
      `$500.00`. */
  lemma RentRowExported(row: Row, today: string, cal: Calendar)
    requires CategoryKey in row && row[CategoryKey] == "Rent"
    requires AmountKey in row && row[AmountKey] == "-500.00"
    ensures |RowLines(row, today, cal)| == 6
    ensures RowLines(row, today, cal)[1] == "C281"
    ensures RowLines(row, today, cal)[4] == "$500.00"
  {
    RentAmountText();
    DecimalAmountExported(row, true, "500", "00");
    RentLines(row, today, cal);
    RentAmountLine();
  }
}
