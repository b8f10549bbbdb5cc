/** The two fixed lookup tables of the core: the dashboard's table from raw
    category to standard tax category, and the export's table from raw
    category to TXF line code. Both are looked up by exact key. */
module CategoryTables {
  import opened Optional

  /** The standard categories a raw category can be mapped to. */
  datatype TaxCategory =
    | Income
    | Advertising
    | Contractors
    | Insurance
    | LegalProfessional
    | OfficeExpenses
    | RentUtilities
    | TravelMeals
    | OtherExpenses
    | Uncategorized
    | Transfer
    | Payment
    | Equity

  /** The categories the summary does not count as business activity. */
  predicate IsNonTaxable(c: TaxCategory) {
    c == Transfer || c == Payment || c == Equity
  }

  // The raw-category table is one object literal in the source; it is kept
  // here as its business part and its non-taxable part, with disjoint keys.

  const TaxableCategories: map<string, TaxCategory> := map[
    "Sales" := Income,
    "Service Income" := Income,
    "Consulting Income" := Income,
    "Revenue" := Income,
    "Advertising & Promotion" := Advertising,
    "Marketing" := Advertising,
    "Web Hosting" := Advertising,
    "Computer \U{2013} Hosting" := OfficeExpenses,
    "Contractors" := Contractors,
    "Subcontractors" := Contractors,
    "Insurance" := Insurance,
    "Business Insurance" := Insurance,
    "Legal & Professional Services" := LegalProfessional,
    "Legal Fees" := LegalProfessional,
    "Accounting Fees" := LegalProfessional,
    "Office Expenses" := OfficeExpenses,
    "Office Supplies" := OfficeExpenses,
    "Software" := OfficeExpenses,
    "Computer \U{2013} Hardware" := OfficeExpenses,
    "Computer \U{2013} Software" := OfficeExpenses,
    "Rent" := RentUtilities,
    "Utilities" := RentUtilities,
    "Telephone" := RentUtilities,
    "Internet" := RentUtilities,
    "Computer \U{2013} Internet" := RentUtilities,
    "Telephone \U{2013} Wireless" := RentUtilities,
    "Travel" := TravelMeals,
    "Airfare" := TravelMeals,
    "Meals" := TravelMeals,
    "Client Meals" := TravelMeals,
    "Dues & Subscriptions" := OtherExpenses,
    "Education & Training" := OtherExpenses,
    "Bank Service Charges" := OtherExpenses
  ]

  const NonTaxableCategories: map<string, TaxCategory> := map[
    "Transfer" := Transfer,
    "Payment" := Payment,
    "Credit Card Payment" := Payment,
    "Owner Investment" := Equity,
    "Owner Investment / Drawings" := Equity,
    "Owner's Draw" := Equity,
    "Owner Draw" := Equity,
    "Personal Expense" := Equity
  ]

  /** The raw-category table's entry for `raw`, if it has one. */
  function CategoryEntry(raw: string): Option<TaxCategory> {
    if raw in NonTaxableCategories then Some(NonTaxableCategories[raw])
    else if raw in TaxableCategories then Some(TaxableCategories[raw])
    else None
  }

  // The TXF table is likewise one object literal in the source, kept here as
  // two halves with disjoint keys (the entries up to the office expenses, and
  // those from rent on).

  const TxfCodesToOffice: map<string, nat> := map[
    "Sales" := 266,
    "Service Income" := 266,
    "Consulting Income" := 266,
    "Revenue" := 266,
    "Gross Receipts" := 266,
    "Uncategorized Income" := 266,
    "Advertising & Promotion" := 271,
    "Marketing" := 271,
    "Web Hosting" := 271,
    "Computer \U{2013} Hosting" := 271,
    "Vehicle Expenses" := 270,
    "Gas & Fuel" := 270,
    "Commissions" := 272,
    "Contractors" := 367,
    "Subcontractors" := 367,
    "Insurance" := 275,
    "Business Insurance" := 275,
    "Liability Insurance" := 275,
    "Interest Expense" := 276,
    "Credit Card Interest" := 276,
    "Legal & Professional Services" := 277,
    "Legal Fees" := 277,
    "Accounting Fees" := 277,
    "Consulting Fees" := 277,
    "Office Expenses" := 278,
    "Office Supplies" := 278,
    "Postage" := 278,
    "Shipping" := 278,
    "Software" := 278,
    "Computer \U{2013} Hardware" := 278,
    "Computer \U{2013} Software" := 278,
    "Small Tools & Equipment" := 278
  ]

  const TxfCodesFromRent: map<string, nat> := map[
    "Rent" := 281,
    "Equipment Rental" := 280,
    "Repairs & Maintenance" := 282,
    "Taxes & Licenses" := 286,
    "State Taxes" := 286,
    "Permits" := 286,
    "Travel" := 283,
    "Airfare" := 283,
    "Hotel" := 283,
    "Taxi & Rideshare" := 283,
    "Meals" := 284,
    "Meals & Entertainment" := 284,
    "Client Meals" := 284,
    "Utilities" := 287,
    "Telephone" := 287,
    "Mobile Phone" := 287,
    "Internet" := 287,
    "Computer \U{2013} Internet" := 287,
    "Telephone \U{2013} Wireless" := 287,
    "Dues & Subscriptions" := 298,
    "Education & Training" := 298,
    "Conferences" := 298,
    "Bank Service Charges" := 298,
    "Merchant Fees" := 298,
    "Uniforms" := 298,
    "Gifts" := 298
  ]

  /** The TXF table's code for `raw`, if it has one. */
  function TxfCode(raw: string): Option<nat> {
    if raw in TxfCodesToOffice then Some(TxfCodesToOffice[raw])
    else if raw in TxfCodesFromRent then Some(TxfCodesFromRent[raw])
    else None
  }

  /** The standard category of a raw category: its table entry, or
      `Uncategorized` for a raw category the table does not know. */
  function GetStandardCategory(raw: string): (c: TaxCategory)
    ensures CategoryEntry(raw).Some? ==> c == CategoryEntry(raw).value
    ensures CategoryEntry(raw).None? ==> c == Uncategorized
  {
    CategoryEntry(raw).GetOr(Uncategorized)
  }

  lemma TaxableEntries()
    ensures forall k :: k in TaxableCategories ==>
      TaxableCategories[k] != Uncategorized && !IsNonTaxable(TaxableCategories[k])
  {
  }

  lemma NonTaxableEntries()
    ensures forall k :: k in NonTaxableCategories ==> IsNonTaxable(NonTaxableCategories[k])
  {
  }

  /** No table entry is `Uncategorized`, so the fallback is recognisable: the
      standard category is `Uncategorized` exactly for unknown raw categories. */
  lemma UncategorizedIffUnknown(raw: string)
    ensures GetStandardCategory(raw) == Uncategorized <==> CategoryEntry(raw).None?
  {
    TaxableEntries();
    NonTaxableEntries();
  }

  lemma CodesToOfficePositive()
    ensures forall k :: k in TxfCodesToOffice ==> TxfCodesToOffice[k] > 0
  {
  }

  lemma CodesFromRentPositive()
    ensures forall k :: k in TxfCodesFromRent ==> TxfCodesFromRent[k] > 0
  {
  }

  /** Every TXF code is positive, so the export's truthiness test on a looked-up
      code holds exactly when the raw category is a key of the table. */
  lemma TxfCodesPositive(raw: string)
    ensures TxfCode(raw).Some? ==> TxfCode(raw).value > 0
  {
    CodesToOfficePositive();
    CodesFromRentPositive();
  }

  /** `TXF_MAPPING["Rent"]` is 281. */
  lemma RentCode()
    ensures TxfCode("Rent") == Some(281)
  {
    assert "Rent" in TxfCodesFromRent;
  }

  // One lemma per non-taxable key: each compares one key against every TXF key.

  lemma NoCodeTransfer()
    ensures "Transfer" !in TxfCodesToOffice && "Transfer" !in TxfCodesFromRent
  {
  }

  lemma NoCodePayment()
    ensures "Payment" !in TxfCodesToOffice && "Payment" !in TxfCodesFromRent
  {
  }

  lemma NoCodeCreditCardPayment()
    ensures "Credit Card Payment" !in TxfCodesToOffice && "Credit Card Payment" !in TxfCodesFromRent
  {
  }

  lemma NoCodeOwnerInvestment()
    ensures "Owner Investment" !in TxfCodesToOffice && "Owner Investment" !in TxfCodesFromRent
  {
  }

  lemma NoCodeOwnerDrawings()
    ensures "Owner Investment / Drawings" !in TxfCodesToOffice && "Owner Investment / Drawings" !in TxfCodesFromRent
  {
  }

  lemma NoCodeOwnersDraw()
    ensures "Owner's Draw" !in TxfCodesToOffice && "Owner's Draw" !in TxfCodesFromRent
  {
  }

  lemma NoCodeOwnerDraw()
    ensures "Owner Draw" !in TxfCodesToOffice && "Owner Draw" !in TxfCodesFromRent
  {
  }

  lemma NoCodePersonalExpense()
    ensures "Personal Expense" !in TxfCodesToOffice && "Personal Expense" !in TxfCodesFromRent
  {
  }

  lemma NonTaxableKeysHaveNoCode(raw: string)
    requires raw in NonTaxableCategories
    ensures raw !in TxfCodesToOffice && raw !in TxfCodesFromRent
  {
    if raw == "Transfer" {
      NoCodeTransfer();
    } else if raw == "Payment" {
      NoCodePayment();
    } else if raw == "Credit Card Payment" {
      NoCodeCreditCardPayment();
    } else if raw == "Owner Investment" {
      NoCodeOwnerInvestment();
    } else if raw == "Owner Investment / Drawings" {
      NoCodeOwnerDrawings();
    } else if raw == "Owner's Draw" {
      NoCodeOwnersDraw();
    } else if raw == "Owner Draw" {
      NoCodeOwnerDraw();
    } else if raw == "Personal Expense" {
      NoCodePersonalExpense();
    }
  }

  /** Only the non-taxable part of the table yields a non-taxable category. */
  lemma NonTaxableFromNonTaxablePart(raw: string)
    requires IsNonTaxable(GetStandardCategory(raw))
    ensures raw in NonTaxableCategories
  {
    TaxableEntries();
  }

  /** A raw category the dashboard treats as non-taxable has no TXF code. */
  lemma NonTaxableHaveNoCode(raw: string)
    requires IsNonTaxable(GetStandardCategory(raw))
    ensures TxfCode(raw).None?
  {
    NonTaxableFromNonTaxablePart(raw);
    NonTaxableKeysHaveNoCode(raw);
  }

  lemma TaxableKeysHaveCodes()
    ensures forall k :: k in TaxableCategories ==> k in TxfCodesToOffice || k in TxfCodesFromRent
  {
  }

  /** Every other raw category the dashboard knows has a TXF code. */
  lemma TaxableHaveCode(raw: string)
    requires CategoryEntry(raw).Some? && !IsNonTaxable(GetStandardCategory(raw))
    ensures TxfCode(raw).Some?
  {
    NonTaxableEntries();
    TaxableKeysHaveCodes();
  }

  /** Hence, for a raw category the dashboard knows, having a TXF code is the
      same as not being non-taxable. */
  lemma KnownCategoryExported(raw: string)
    requires CategoryEntry(raw).Some?
    ensures TxfCode(raw).Some? <==> !IsNonTaxable(GetStandardCategory(raw))
  {
    if IsNonTaxable(GetStandardCategory(raw)) {
      NonTaxableHaveNoCode(raw);
    } else {
      TaxableHaveCode(raw);
    }
  }
}
