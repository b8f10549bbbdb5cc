# Wave-to-TurboTax import: a Dafny model of the core

The application reads a Wave accounting CSV export and turns its rows into two
things. The first is a dashboard: normalized transactions, a financial summary,
a monthly income/expense breakdown and an expense breakdown per tax category.
The second is a TXF (Tax Exchange Format, version 041) file for TurboTax.

This project models that core as pure Dafny functions and proves what the code
promises about it:

- **Category tables.** These are the raw-category → tax-category table and the
  raw-category → TXF line-code table, with `getStandardCategory`
  (`category_tables.dfy`).
- **Row fields.** These are the field-priority rules both pipelines apply to a
  loosely typed CSV row (`??` chains, `,`/`$` stripping). They include
  JavaScript's `parseFloat` and `toFixed(2)` on exact reals (`rows.dfy`,
  `number_text.dfy`).
- **Normalization.** This covers `normalizeTransaction` and
  `normalizeTransactions` (`normalizer.dfy`).
- **Summary and expense breakdown.** This covers `calculateFinancialSummary`
  and `calculateExpenseBreakdown`: per-category accumulation in key-insertion
  order, a stable descending sort, and the top expense (`summary.dfy`).
- **Monthly breakdown.** This is `calculateMonthlyBreakdown`, with
  `localeCompare` on `YYYY-MM` keys (`monthly.dfy`).
- **TXF conversion.** This is `convertToTXF`: the header, one six-line record per
  mapped row, and the newline join. A reader of the produced lines is used to
  state the round trip (`txf_export.dfy`).
- **Export screen.** This is the export screen's `getFilteredTransactions`
  followed by the `convertToTXF` call (`export_filter.dfy`).

Generic sequence facts (filter, sum, flat-map, positions) live in `seqs.dfy`;
`Option` is in `optional.dfy`.

Modelling choices:

- A CSV row is a `map<string, string>`. A missing key is JavaScript's
  `undefined`, and an empty string is a present value. So `??` keeps `""`, while
  the three `||` tests in the source (the normalizer's date, the converter's
  `if (dateValue)` and the export filter's `'Transaction Date' || ''`) treat
  `""` as missing.
- Numbers are exact reals. `parseFloat` returns `None` for `NaN`. `toFixed(2)`
  rounds to the nearest hundredth, taking the larger on a tie.
- `Date` is an abstract `Calendar` with three parameters:
  - `parse` for `new Date(text)`;
  - `enUsDate` for `toLocaleDateString('en-US')`;
  - `isoMonth` for `toISOString().slice(0, 7)`.

  The clock (`Date.now()`, today's date) is an explicit parameter.
- JavaScript's `Array.prototype.sort` is stable. It is modelled as an insertion
  sort that keeps equal elements in input order. Object key order is insertion
  order: no category name or month key is an array index.

## Model

| member | source | states |
|---|---|---|
| CategoryTables.GetStandardCategory | src/lib/financialUtils.ts:64-66 | a raw category with a table entry gets that entry's tax category; any other raw category gets `Uncategorized` |
| CategoryTables.UncategorizedIffUnknown | src/lib/financialUtils.ts:19-66 | the standard category is `Uncategorized` exactly when the raw category is not a key of the table |
| CategoryTables.TaxableEntries | src/lib/financialUtils.ts:19-52 | the business part of the category table never yields `Uncategorized`, `Transfer`, `Payment` or `Equity` |
| CategoryTables.NonTaxableEntries | src/lib/financialUtils.ts:53-61 | the transfer, payment and owner entries all yield `Transfer`, `Payment` or `Equity` |
| CategoryTables.TxfCodesPositive | src/utils/txfConverter.ts:3-62 | every TXF code is positive, so the converter's truthiness test on a looked-up code is key membership |
| CategoryTables.RentCode | src/utils/txfConverter.ts:36 | `Rent` has TXF code 281 |
| CategoryTables.NonTaxableHaveNoCode | src/utils/txfConverter.ts:3-62 | a raw category the dashboard classes as transfer, payment or equity has no TXF code |
| CategoryTables.KnownCategoryExported | src/utils/txfConverter.ts:3-62 | for a raw category the dashboard table knows, having a TXF code is the same as not being non-taxable |
| Rows.AmountText | src/lib/financialUtils.ts:70 | the amount text is `Amount` if present, else `Amount (One column)` if present, else `"0"`; an empty string counts as present |
| Rows.CategoryText | src/lib/financialUtils.ts:78 | the raw category is `Category`, else `Account Name`, else `Uncategorized` |
| Rows.DescriptionText | src/lib/financialUtils.ts:79 | the description is the first present of the three description columns, else `No Description` |
| Rows.RemoveChar | src/lib/financialUtils.ts:71 | the result is the input with every occurrence of the removed character deleted: the other characters stay, in order and with their multiplicity (it equals `Filter` by `x != c`) |
| Rows.CleanAmount | src/lib/financialUtils.ts:71 | the cleaned amount is the input with every `,` and `$` deleted and the other characters kept in order: one filter by "neither `,` nor `$`" equals the two chained replacements |
| Rows.RemoveSeparator | src/lib/financialUtils.ts:71 | removing the only occurrence of a separator joins the text on either side |
| Rows.MissingAmountIsZero | src/lib/financialUtils.ts:70-71 | a row with neither amount column reads as 0, never as `NaN` |
| Rows.DollarAmountExample | src/lib/financialUtils.ts:71 | `$1,234.56` is read as 1234.56 |
| NumberText.TrimStart | src/lib/financialUtils.ts:71 | `parseFloat` skips exactly the leading JavaScript white space |
| NumberText.ParseFloat | src/lib/financialUtils.ts:71 | the result is a number exactly when the text, after space and one sign, starts with a digit or with a point and a digit; it is negative only under a leading `-` |
| NumberText.ParseDecimalText | src/lib/financialUtils.ts:71 | a plain numeral `[-]digits[.digits]` is read as its exact value |
| NumberText.NatToString | src/utils/txfConverter.ts:103 | the code is written as canonical decimal digits whose value is the code |
| NumberText.Cents | src/utils/txfConverter.ts:106 | `toFixed(2)` picks the hundredth within half a hundredth of the value |
| NumberText.Fixed2 | src/utils/txfConverter.ts:106 | the amount field is digits, a point, and exactly two digits |
| NumberText.Fixed2Text | src/utils/txfConverter.ts:106 | the digits of the field, read without the point, are the rounded value in hundredths |
| NumberText.Fixed2ReadsBack | src/utils/txfConverter.ts:106 | parsing the amount field gives back the value to within 0.005 |
| NumberText.Fixed2OfDecimal | src/utils/txfConverter.ts:106 | the magnitude of a canonical two-decimal numeral is written back digit for digit, without the sign |
| Normalizer.NormalizeTransaction | src/lib/financialUtils.ts:68-103 | a row is dropped exactly when its cleaned amount is `NaN`; a kept row's id, amount, raw and standard category, description, date and account fields follow the `??` rules |
| Normalizer.NormalizeTransactions | src/lib/financialUtils.ts:105-118 | the result is the non-null normalizations, in row order, each with its row's original position as index |
| Normalizer.TransactionIdInjective | src/lib/financialUtils.ts:88 | different indices give different `tx_` ids |
| Normalizer.IdsDistinct | src/lib/financialUtils.ts:105-118 | the normalized records' ids are pairwise distinct |
| Normalizer.InvalidDateKept | src/lib/financialUtils.ts:80-85 | a row whose date does not parse is kept, with an invalid date; only the amount drops a row |
| Normalizer.AllAccepted | src/lib/financialUtils.ts:105-110 | when every amount parses, nothing is dropped and the i-th record is the i-th row's |
| Normalizer.DollarRowNormalized | src/lib/financialUtils.ts:70-76 | a row with amount `$1,234.56` is kept with amount 1234.56 |
| Summary.AddExpense | src/lib/financialUtils.ts:138-141 | one accumulation step: the category's entry grows by the amount, or a new entry is appended after the others; keys stay distinct |
| Summary.AddExpenseSum | src/lib/financialUtils.ts:139 | one step adds the amount to the sum of all totals |
| Summary.ExpenseTotals | src/lib/financialUtils.ts:193-199 | the accumulator has one entry per category that occurs, and each entry totals that category's magnitudes; the totals sum to all magnitudes |
| Summary.ExpenseTotalsOrder | src/lib/financialUtils.ts:193-199 | the accumulator's keys are the categories in order of first occurrence |
| Summary.SortByTotal | src/lib/financialUtils.ts:201-203 | the sort returns a permutation of its input |
| Summary.SortDescending | src/lib/financialUtils.ts:203 | the sorted totals are in non-increasing order |
| Summary.SortStable | src/lib/financialUtils.ts:203 | entries with equal totals keep their input order |
| Summary.SortHeadIsFirstMax | src/lib/financialUtils.ts:143-144 | the first sorted entry is the earliest entry with the largest total |
| Summary.CalculateExpenseBreakdown | src/lib/financialUtils.ts:188-208 | the breakdown is descending, has distinct categories, and is a permutation of the per-category totals of the negative amounts |
| Summary.BreakdownSum | src/lib/financialUtils.ts:188-208 | the breakdown's totals add up to the magnitudes of the negative amounts |
| Summary.BreakdownEntries | src/lib/financialUtils.ts:193-199 | each entry is a category of some expense, holds that category's total, and is positive |
| Summary.BreakdownCovers | src/lib/financialUtils.ts:193-199 | every category with a negative amount has an entry |
| Summary.BreakdownTiesInFirstOccurrenceOrder | src/lib/financialUtils.ts:201-203 | tied entries appear in the order their categories first had an expense |
| Summary.CalculateFinancialSummary | src/lib/financialUtils.ts:120-161 | the count is the number of records, the TXF-ready count is at most that, and net income is income minus expenses |
| Summary.SummaryTotals | src/lib/financialUtils.ts:124-136 | income sums the positive business amounts and expenses the magnitudes of the negative ones; both are non-negative |
| Summary.ExcludedRecordIgnored | src/lib/financialUtils.ts:124-129 | removing a transfer, payment, equity or liability record changes no total and not the top expense |
| Summary.TopExpenseExists | src/lib/financialUtils.ts:143-144 | there is a top expense category exactly when some business record has a negative amount; without one the amount is 0 |
| Summary.TopExpenseIsFirstLargest | src/lib/financialUtils.ts:138-144 | the top expense is the first category, in order of first occurrence, with the largest total |
| Summary.TopExpenseIsMaximum | src/lib/financialUtils.ts:138-144 | the top amount is a category's total expense and no category's total exceeds it |
| Summary.CategoryTotalsSum | src/lib/financialUtils.ts:135-141 | the per-category totals add up to `totalExpenses` |
| Monthly.Credit | src/lib/financialUtils.ts:172-176 | a positive amount adds to income; any other amount adds its magnitude to expenses |
| Monthly.AddToMonth | src/lib/financialUtils.ts:169-176 | one step: the month's entry is credited, or a zero entry is appended and credited; keys stay distinct |
| Monthly.MonthlyTotals | src/lib/financialUtils.ts:168-177 | every record's month has an entry, and each entry totals its month's income and expenses |
| Monthly.LexLessTotal | src/lib/financialUtils.ts:181 | any two different month keys are ordered one way or the other |
| Monthly.LexLessTransitive | src/lib/financialUtils.ts:181 | the key order is transitive |
| Monthly.SortByMonth | src/lib/financialUtils.ts:179-181 | the sort returns a permutation of the entries |
| Monthly.SortByMonthAscending | src/lib/financialUtils.ts:181 | distinct keys come out in strictly ascending order |
| Monthly.CalculateMonthlyBreakdown | src/lib/financialUtils.ts:163-186 | it fails exactly when some date is invalid; otherwise it returns the month entries, ascending |
| Monthly.MonthlyEntries | src/lib/financialUtils.ts:168-177 | every entry of the result totals its month |
| Monthly.MonthlyCovers | src/lib/financialUtils.ts:168-181 | every record's month has exactly one entry |
| Monthly.MonthlySums | src/lib/financialUtils.ts:163-186 | the months' incomes add up to the positive amounts and their expenses to the magnitudes of the others |
| TxfExport.BlocksLength | src/utils/txfConverter.ts:99-111 | the records take six lines per row whose raw category has a code |
| TxfExport.ConvertToTxf | src/utils/txfConverter.ts:64-122 | the document is the four header lines followed by six lines per mapped row |
| TxfExport.ConvertWithCounts | src/utils/txfConverter.ts:75-111 | `convertedCount` is the number of mapped rows, and converted plus skipped is the number of rows |
| TxfExport.ReadConverted | src/utils/txfConverter.ts:70-108 | reading the lines gives back the company, the export date and one record per mapped row, in row order, with its code, description, date and amount |
| TxfExport.ReadBlocks | src/utils/txfConverter.ts:101-108 | the record lines read back as the mapped rows' records |
| TxfExport.SplitJoin | src/utils/txfConverter.ts:121 | splitting the newline-joined text gives back the lines when none holds a newline |
| TxfExport.TextSplitsBack | src/utils/txfConverter.ts:121 | the exported text splits back into the document's lines when no field holds a newline |
| TxfExport.ExportDateCases | src/utils/txfConverter.ts:86-97 | a missing, empty or unparseable date exports as today; a parseable one in its en-US form |
| TxfExport.UnparsableAmountExported | src/utils/txfConverter.ts:80-106 | a mapped row whose amount is `NaN` is still exported, with amount line `$NaN` |
| TxfExport.SkippedRowChangesNothing | src/utils/txfConverter.ts:109-111 | a row without a code adds no lines; removing it leaves the document unchanged |
| TxfExport.NonTaxableNotExported | src/utils/txfConverter.ts:99-111 | transfer, payment and equity rows are never exported |
| TxfExport.DecimalAmountExported | src/utils/txfConverter.ts:80-106 | a row whose amount is written `[-]w.ff` is exported with amount `w.ff` |
| TxfExport.RentRowExported | src/utils/txfConverter.ts:99-106 | a `Rent` row of `-500.00` exports code line `C281` and amount line `$500.00` |
| ExportFilter.GetFilteredTransactions | src/components/DataPreview.tsx:11-24 | no kept row belongs to the two excluded accounts; with a year selected, every kept row's transaction date starts with it |
| ExportFilter.FilteredIsOneFilter | src/components/DataPreview.tsx:11-24 | the two filters in sequence are one filter by "not excluded, and in the year if one is selected" |
| ExportFilter.FilteredMembers | src/components/DataPreview.tsx:11-24 | the result keeps input order, and an input row is in it exactly when it passes both tests |
| ExportFilter.NoYearKeepsAccounts | src/components/DataPreview.tsx:12-17 | with no year selected only the account filter applies |
| ExportFilter.OtherYearDropped | src/components/DataPreview.tsx:17-21 | with a year selected, a row dated otherwise is never exported |
| ExportFilter.ExportDocument | src/components/DataPreview.tsx:29 | the export has the `NeuralSec Advisory` header and six lines per kept, mapped row |
| ExportFilter.ReadyIffMapped | src/lib/financialUtils.ts:146 | a normalized record counts as TXF-ready exactly when the converter exports its row |
| ExportFilter.TxfReadyCountIsExportCount | src/lib/financialUtils.ts:146 | when every amount parses, the dashboard's TXF-ready count equals the number of records the converter writes for the same rows |

## Left out

- Console logging and the `try`/`catch` blocks are not modelled. No modelled statement inside those blocks can throw, so the `catch` branches are dead.
- NumberText.ParseFloat: does not model `Infinity`, because values are exact reals rather than IEEE-754 doubles. JavaScript reads the text `Infinity` (optionally signed) as ±Infinity; the model reads it as `NaN` (`None`). JavaScript also overflows a numeral too large for a double, such as `1e400`, to Infinity, while the model keeps its exact value. IEEE-754 rounding is not modelled either.
- Normalizer.NormalizeTransaction: as a consequence, drops a row whose amount text is `Infinity`, which JavaScript keeps with an infinite amount. A row with an overflowing numeral is kept in both, but with a finite amount in the model.
- TxfExport.AmountField: as a consequence, writes `$NaN` for an amount text `Infinity`, where JavaScript writes `$Infinity`. For an overflowing numeral it writes the exact digits, where JavaScript writes `$Infinity`.
- `toFixed(2)` on values of 10^21 and above, which JavaScript writes in exponential form, is not modelled.
- `new Date(text)`, `toLocaleDateString('en-US')` and `toISOString()` are the abstract `Calendar` parameters. The clock (`Date.now()`, today's date) is a parameter.
- `localeCompare` is modelled as code-unit order. The two agree on the `YYYY-MM` keys that `toISOString` produces.
- Lookups of inherited object keys (`constructor`, `toString` and the like) in `CATEGORY_MAPPING` and `TXF_MAPPING` are not modelled. Only the tables' own keys are.
- Each table is one object literal in the source. In the model, each is two Dafny maps with disjoint keys. This is a representation choice.
- The Blob download, the file name and the React components and state around the export are not modelled.
- `availableYears` is not modelled.
- `selectedYearAtom` is imported by the export screen but is not part of this model. `store/index.ts` does not define it. The selected year is a string parameter, with `""` meaning none.
- TxfExport.SplitJoin: the round trip requires that no line holds a newline. The converter does not escape descriptions, so a description containing a newline breaks the record structure.
- ExportFilter.TxfReadyCountIsExportCount: this holds only when every amount parses. The normalizer drops a row with an unparsable amount, but the converter still exports that row with `$NaN`.
- Monthly.MonthKey: for an invalid date it returns a placeholder key. That key is never observed, because the breakdown fails first.
