/**
 * The import of provider transactions (src/routes/plaid.js): each provider record is
 * mapped to a ledger row whose category comes from the provider's primary
 * personal-finance label, and the rows are upserted into the ledger by their id.
 */
module Classifier {
  import opened Outcomes
  import opened Amounts
  import opened Records
  import opened Incremental

  /** `personal_finance_category` of a provider record; `primary` may be absent. */
  datatype PersonalFinanceCategory = PersonalFinanceCategory(primary: Option<string>)

  /** A provider record, with the fields the import reads. */
  datatype ProviderTxn = ProviderTxn(
    transactionId: string,
    amount: Decimal,
    name: string,
    date: string,
    personalFinanceCategory: Option<PersonalFinanceCategory>)

  /** The provider's primary labels the import knows, and the category each one files under. */
  const CategoryMapping: map<string, Category> := map[
    "FOOD_AND_DRINK" := FoodAndEntertainment,
    "ENTERTAINMENT" := FoodAndEntertainment,
    "GENERAL_MERCHANDISE" := Shopping,
    "HOME_IMPROVEMENT" := Shopping,
    "HEALTHCARE" := HealthAndWellness,
    "PERSONAL_CARE" := HealthAndWellness,
    "RENT_AND_UTILITIES" := Essentials,
    "TRANSPORTATION" := Essentials,
    "GENERAL_SERVICES" := Essentials,
    "TRAVEL" := Essentials,
    "BANK_FEES" := Other,
    "LOAN_PAYMENTS" := Other,
    "TRANSFER_IN" := Other,
    "TRANSFER_OUT" := Other,
    "INCOME" := Other,
    "OTHER" := Other
  ]

  /** The primary label when it is present and not empty (a falsy label counts as missing). */
  function PrimaryLabel(tx: ProviderTxn): Option<string>
  {
    match tx.personalFinanceCategory
    case None => None
    case Some(pfc) =>
      match pfc.primary
      case None => None
      case Some(p) => if p == "" then None else Some(p)
  }

  /** The category of a provider record: its primary label looked up in the table, and
      `Other` when the label is missing, empty or not one the table knows. */
  function Categorize(tx: ProviderTxn): (c: Category)
    ensures PrimaryLabel(tx).None? ==> c == Other
    ensures PrimaryLabel(tx).Some? && PrimaryLabel(tx).value !in CategoryMapping ==> c == Other
    ensures PrimaryLabel(tx).Some? && PrimaryLabel(tx).value in CategoryMapping ==> c == CategoryMapping[PrimaryLabel(tx).value]
  {
    match PrimaryLabel(tx)
    case None => Other
    case Some(p) => if p in CategoryMapping then CategoryMapping[p] else Other
  }

  /** A record with the given primary label and nothing else of interest. */
  function WithPrimary(primary: string): ProviderTxn
  {
    ProviderTxn("", Decimal(0, 0), "", "", Some(PersonalFinanceCategory(Some(primary))))
  }

  /** Every category is the filing of some known label, so the table reaches all five;
      and a record carrying a known label is filed exactly as the table says. */
  lemma MappingReachesEveryCategory()
    ensures forall c: Category :: c in CategoryMapping.Values
    ensures forall p :: p in CategoryMapping ==> Categorize(WithPrimary(p)) == CategoryMapping[p]
  {
    forall c: Category
      ensures c in CategoryMapping.Values
    {
      var p := match c
        case Essentials => "TRAVEL"
        case FoodAndEntertainment => "FOOD_AND_DRINK"
        case Shopping => "HOME_IMPROVEMENT"
        case HealthAndWellness => "HEALTHCARE"
        case Other => "OTHER";
      assert p in CategoryMapping && CategoryMapping[p] == c;
    }
  }

  // ------------------------------------------------------------ the lookup as written

  /** What `categoryMapping[primaryCategory] || "Other"` evaluates to. */
  datatype Lookup = CategoryLabel(category: Category) | InheritedMember(name: string)

  /** The lookup as written: an object literal is read with the label as property name, so an
      inherited member's name finds that member, which is truthy and is returned. */
  function CategorizeAsWritten(tx: ProviderTxn): Lookup
  {
    match PrimaryLabel(tx)
    case None => CategoryLabel(Other)
    case Some(p) =>
      if p in CategoryMapping then CategoryLabel(CategoryMapping[p])
      else if p in InheritedNames then InheritedMember(p)
      else CategoryLabel(Other)
  }

  /** The two lookups agree on every record whose label is not an inherited member's name. */
  lemma AsWrittenAgrees(tx: ProviderTxn)
    ensures PrimaryLabel(tx).None? || PrimaryLabel(tx).value !in InheritedNames
      <==> CategorizeAsWritten(tx) == CategoryLabel(Categorize(tx))
  {
    if PrimaryLabel(tx).Some? && PrimaryLabel(tx).value in InheritedNames {
      assert PrimaryLabel(tx).value !in CategoryMapping;
    }
  }

  /** A record labelled "toString" is filed under no category at all by the lookup as written. */
  lemma InheritedLabelEscapes()
    ensures CategorizeAsWritten(WithPrimary("toString")) == InheritedMember("toString")
    ensures Categorize(WithPrimary("toString")) == Other
  {
    assert "toString" !in CategoryMapping;
  }

  // ------------------------------------------------------------ the import

  /** The ledger write of one provider record: the amount rounded to cents by `toFixed(2)`,
      the category filed by label. */
  function ImportWrite(userId: string, tx: ProviderTxn): Write
  {
    Write(tx.transactionId, Txn(userId, RoundToCents(tx.amount), tx.name, tx.date, Label(Categorize(tx))))
  }

  /** The writes of a whole provider response, in its order. */
  function ImportWrites(userId: string, txs: seq<ProviderTxn>): (w: seq<Write>)
    ensures |w| == |txs|
    ensures forall i :: 0 <= i < |txs| ==>
      && w[i].id == txs[i].transactionId
      && w[i].row.userId == userId
      && IsCentsOf(txs[i].amount, w[i].row.amount)
      && w[i].row.description == txs[i].name
      && w[i].row.date == txs[i].date
      && w[i].row.category == Label(Categorize(txs[i]))
      && w[i].row.category in CategoryList
  {
    CategoryListExact();
    seq(|txs|, i requires 0 <= i < |txs| => ImportWrite(userId, txs[i]))
  }

  /** Every row of the ledger carries a category of the list. */
  predicate ListedCategories(ledger: Ledger)
  {
    forall id :: id in ledger ==> ledger[id].category in CategoryList
  }

  /** Importing keeps every ledger row's category on the list, so no later recompute of a
      budget holding only imported and listed rows meets a NaN total. */
  lemma {:induction false} ImportKeepsCategoriesListed(ledger: Ledger, writes: seq<Write>)
    requires ListedCategories(ledger)
    requires forall i :: 0 <= i < |writes| ==> writes[i].row.category in CategoryList
    ensures ListedCategories(Upsert(ledger, writes))
  {
    if |writes| > 0 {
      ImportKeepsCategoriesListed(ledger, writes[..|writes| - 1]);
    }
  }
}
