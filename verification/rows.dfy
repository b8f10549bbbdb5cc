/** The loosely-typed CSV row (`Transaction`) and the field-priority rules
    both pipelines apply to it. A key missing from the map is JavaScript's
    `undefined`; an empty string is a present value. */
module Rows {
  import opened Optional
  import opened NumberText
  import opened Seqs

  type Row = map<string, string>

  const DateKey := "Date"
  const AmountKey := "Amount"
  const CategoryKey := "Category"
  const DescriptionKey := "Description"
  const TransactionDateKey := "Transaction Date"
  const OneColumnAmountKey := "Amount (One column)"
  const AccountNameKey := "Account Name"
  const TransactionDescriptionKey := "Transaction Description"
  const LineDescriptionKey := "Transaction Line Description"
  const AccountTypeKey := "Account Type"
  const AccountGroupKey := "Account Group"

  /** `row[key]`, with `None` for `undefined`. */
  function Field(row: Row, key: string): Option<string> {
    if key in row then Some(row[key]) else None
  }

  /** `row[keys[0]] ?? row[keys[1]] ?? … ?? fallback`: the value of the first
      key present, even when that value is empty. */
  function FirstPresent(row: Row, keys: seq<string>, fallback: string): (r: string)
    ensures forall i :: 0 <= i < |keys| && keys[i] in row && (forall j :: 0 <= j < i ==> keys[j] !in row) ==> r == row[keys[i]]
    ensures (forall i :: 0 <= i < |keys| ==> keys[i] !in row) ==> r == fallback
  {
    if |keys| == 0 then fallback
    else if keys[0] in row then row[keys[0]]
    else
      var r := FirstPresent(row, keys[1..], fallback);
      assert forall i :: 1 <= i < |keys| ==> keys[i] == keys[1..][i - 1];
      r
  }

  /** `tx.Amount ?? tx['Amount (One column)'] ?? '0'`. */
  function AmountText(row: Row): (r: string)
    ensures AmountKey in row ==> r == row[AmountKey]
    ensures AmountKey !in row && OneColumnAmountKey in row ==> r == row[OneColumnAmountKey]
    ensures AmountKey !in row && OneColumnAmountKey !in row ==> r == "0"
  {
    var keys := [AmountKey, OneColumnAmountKey];
    assert keys[0] == AmountKey && keys[1] == OneColumnAmountKey;
    FirstPresent(row, keys, "0")
  }

  /** `tx.Category ?? tx['Account Name'] ?? 'Uncategorized'`. */
  function CategoryText(row: Row): (r: string)
    ensures CategoryKey in row ==> r == row[CategoryKey]
    ensures CategoryKey !in row && AccountNameKey in row ==> r == row[AccountNameKey]
    ensures CategoryKey !in row && AccountNameKey !in row ==> r == "Uncategorized"
  {
    var keys := [CategoryKey, AccountNameKey];
    assert keys[0] == CategoryKey && keys[1] == AccountNameKey;
    FirstPresent(row, keys, "Uncategorized")
  }

  /** `tx.Description ?? tx['Transaction Description'] ??
      tx['Transaction Line Description'] ?? 'No Description'`. */
  function DescriptionText(row: Row): (r: string)
    ensures DescriptionKey in row ==> r == row[DescriptionKey]
    ensures DescriptionKey !in row && TransactionDescriptionKey in row ==> r == row[TransactionDescriptionKey]
    ensures DescriptionKey !in row && TransactionDescriptionKey !in row && LineDescriptionKey in row
            ==> r == row[LineDescriptionKey]
    ensures DescriptionKey !in row && TransactionDescriptionKey !in row && LineDescriptionKey !in row
            ==> r == "No Description"
  {
    var keys := [DescriptionKey, TransactionDescriptionKey, LineDescriptionKey];
    assert keys[0] == DescriptionKey && keys[1] == TransactionDescriptionKey && keys[2] == LineDescriptionKey;
    FirstPresent(row, keys, "No Description")
  }

  /** `tx.Date ?? tx['Transaction Date']`, which may be `undefined`. */
  function DateText(row: Row): (r: Option<string>)
    ensures DateKey in row ==> r == Some(row[DateKey])
    ensures DateKey !in row ==> r == Field(row, TransactionDateKey)
  {
    if DateKey in row then Some(row[DateKey]) else Field(row, TransactionDateKey)
  }

  /** `s.replace(/c/g, '')`: every occurrence of `c` removed, the rest kept in order. */
  function RemoveChar(s: string, c: char): (r: string)
    ensures r == Filter(s, x => x != c)
    ensures forall x :: x in r <==> x in s && x != c
    ensures c !in s ==> r == s
  {
    if |s| == 0 then ""
    else
      var rest := RemoveChar(s[1..], c);
      assert s == [s[0]] + s[1..];
      assert c !in s ==> c !in s[1..];
      if s[0] == c then rest else [s[0]] + rest
  }

  /** The amount text with thousands separators and dollar signs removed,
      `.replace(/,/g, '').replace(/\$/g, '')`. */
  function CleanAmount(s: string): (r: string)
    ensures r == Filter(s, x => x != ',' && x != '$')
    ensures forall x :: x in r <==> x in s && x != ',' && x != '$'
  {
    var r := RemoveChar(RemoveChar(s, ','), '$');
    FilterFilter(s, x => x != ',', x => x != '$', x => x != ',' && x != '$');
    r
  }

  /** The row's amount as both pipelines compute it:
      `parseFloat(cleaned(tx.Amount ?? tx['Amount (One column)'] ?? '0'))`,
      `None` standing for `NaN`. */
  function RowAmount(row: Row): Option<real> {
    ParseFloat(CleanAmount(AmountText(row)))
  }

  /** A row with neither amount field reads as the literal `"0"`, so it is never `NaN`. */
  lemma MissingAmountIsZero(row: Row)
    requires AmountKey !in row && OneColumnAmountKey !in row
    ensures RowAmount(row) == Some(0.0)
  {
    assert AmountText(row) == "0";
    assert CleanAmount("0") == "0";
    assert "0" == DecimalText(false, "0", "");
    ParseDecimalText("0", false, "0", "");
    assert "0"[..0] == "";
  }

  lemma {:induction false} RemoveCharConcat(a: string, b: string, c: char)
    ensures RemoveChar(a + b, c) == RemoveChar(a, c) + RemoveChar(b, c)
  {
    if |a| > 0 {
      assert (a + b)[1..] == a[1..] + b;
      RemoveCharConcat(a[1..], b, c);
    } else {
      assert a + b == b;
    }
  }

  /** Removing the one occurrence of `c` between two `c`-free texts joins them. */
  lemma RemoveSeparator(a: string, b: string, c: char)
    requires c !in a && c !in b
    ensures RemoveChar(a + [c] + b, c) == a + b
  {
    RemoveCharConcat(a + [c], b, c);
    RemoveCharConcat(a, [c], c);
    assert [c][1..] == [];
    var e := RemoveChar([c], c);
    assert e == RemoveChar([], c);
    assert e == [];
    assert RemoveChar(a, c) == a;
    assert RemoveChar(b, c) == b;
    assert RemoveChar(a + [c], c) == a + e;
    assert a + e == a;
  }

  /** `"$1,234.56".replace(/,/g, '')` is `"$1234.56"`. */
  lemma CommaRemoved()
    ensures RemoveChar("$1,234.56", ',') == "$1234.56"
  {
    var a, b := "$1", "234.56";
    assert "$1,234.56" == a + [','] + b;
    assert a + b == "$1234.56";
    RemoveSeparator(a, b, ',');
  }

  /** `"$1234.56".replace(/\$/g, '')` is `"1234.56"`. */
  lemma DollarRemoved()
    ensures RemoveChar("$1234.56", '$') == "1234.56"
  {
    var a: string, u := "", "1234.56";
    assert "$1234.56" == a + ['$'] + u;
    assert a + u == u;
    RemoveSeparator(a, u, '$');
  }

  lemma CleanDollarExample()
    ensures CleanAmount("$1,234.56") == "1234.56"
  {
    CommaRemoved();
    DollarRemoved();
  }

  lemma DigitsExample()
    ensures DigitsValue("1234") == 1234 && DigitsValue("56") == 56
  {
    assert "1234"[..3] == "123" && "123"[..2] == "12" && "12"[..1] == "1" && "1"[..0] == "";
    assert "56"[..1] == "5" && "5"[..0] == "";
  }

  lemma DecimalValueExample()
    ensures DecimalValue(false, "1234", "56") == 1234.56
  {
    DigitsExample();
    assert Pow10(2) == 100;
  }

  lemma DecimalExample()
    ensures ParseFloat("1234.56") == Some(1234.56)
  {
    assert "1234.56" == DecimalText(false, "1234", "56");
    DecimalValueExample();
    ParseDecimalText("1234.56", false, "1234", "56");
  }

  /** `"$1,234.56"` is read as 1234.56 once `,` and `$` are stripped. */
  lemma DollarAmountExample()
    ensures ParseFloat(CleanAmount("$1,234.56")) == Some(1234.56)
  {
    CleanDollarExample();
    DecimalExample();
  }
}

/** The JavaScript `Date` operations the core calls, as parameters: nothing in
    the core inspects a date beyond asking whether it is valid. */
module JsDates {

  /** A `Date` object: a time value in milliseconds, or the invalid date. */
  datatype JsDate = TimeValue(ms: int) | InvalidDate

  /** `new Date(text)`, `toLocaleDateString('en-US')` and
      `toISOString().slice(0, 7)` of a valid date. */
  datatype Calendar = Calendar(
    parse: string -> JsDate,
    enUsDate: int -> string,
    isoMonth: int -> string)
}
