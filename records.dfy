/**
 * The documents of the four collections the handlers work on, and the closed
 * category list (`CATEGORY_LIST`, src/constants/constant.js).
 */
module Records {
  import opened Outcomes

  /** The five spending categories, in the order of `CATEGORY_LIST`. */
  datatype Category = Essentials | FoodAndEntertainment | Shopping | HealthAndWellness | Other

  /** The label a category is stored under. */
  function Label(c: Category): string
  {
    match c
    case Essentials => "Essentials"
    case FoodAndEntertainment => "Food & Entertainment"
    case Shopping => "Shopping"
    case HealthAndWellness => "Health & Wellness"
    case Other => "Other"
  }

  const CategoryList: seq<string> :=
    [Label(Essentials), Label(FoodAndEntertainment), Label(Shopping), Label(HealthAndWellness), Label(Other)]

  /** Every category's label is in the list, no two categories share a label, and the list holds nothing else. */
  lemma CategoryListExact()
    ensures forall c: Category :: Label(c) in CategoryList
    ensures forall c: Category, d: Category :: Label(c) == Label(d) ==> c == d
    ensures forall s :: s in CategoryList <==> exists c: Category :: Label(c) == s
    ensures |CategoryList| == 5
  {
    assert forall s :: s in CategoryList ==> s == Label(CategoryOfLabel(s));
  }

  /** The category stored under a label of the list (`Other` for any other text). */
  function CategoryOfLabel(s: string): Category
  {
    if s == "Essentials" then Essentials
    else if s == "Food & Entertainment" then FoodAndEntertainment
    else if s == "Shopping" then Shopping
    else if s == "Health & Wellness" then HealthAndWellness
    else Other
  }

  /** The names every plain JavaScript object inherits from `Object.prototype`. Reading one of
      them from a map of totals that has no entry of that name yields the inherited member. */
  const InheritedNames: set<string> := {
    "constructor", "hasOwnProperty", "isPrototypeOf", "propertyIsEnumerable",
    "toLocaleString", "toString", "valueOf", "__proto__",
    "__defineGetter__", "__defineSetter__", "__lookupGetter__", "__lookupSetter__"
  }

  /** The text an inherited member turns into when a number is added to it: the source text of a
      built-in function (for `constructor`, the function `Object`), or for `__proto__` the text
      of the prototype object. */
  function InheritedText(name: string): (s: string)
    ensures |s| > 0 && (s[0] == 'f' || s[0] == '[')
    ensures name == "constructor" ==> s == "function Object() { [native code] }"
  {
    if name == "__proto__" then "[object Object]"
    else if name == "constructor" then "function Object() { [native code] }"
    else "function " + name + "() { [native code] }"
  }

  /** A row of the `transactions` collection; `amount` is in cents. */
  datatype Txn = Txn(userId: string, amount: int, description: string, date: string, category: string)

  /** The `transactions` collection, keyed by `transactionId`. */
  type Ledger = map<string, Txn>

  /** A document of the `budgets` collection; `amount` is the target in cents. */
  datatype Budget = Budget(id: string, userId: string, title: string, amount: int, fromDate: string, toDate: string)

  /** One entry of `categoryTotals`: a number of cents, or NaN. */
  datatype Total = Sum(cents: int) | NotANumber

  type Totals = map<string, Total>

  /** `(categoryTotals[c] || 0)`: a missing entry, NaN and 0 all read as 0. */
  function Numeric(t: Totals, c: string): int
  {
    if c in t && t[c].Sum? then t[c].cents else 0
  }

  /** The `amount` of an aggregate: a number when the budget is created, the text of
      `toFixed(2)` after an update. */
  datatype AggregateAmount = AmountNumber(cents: int) | AmountText(text: string)

  /** A document of the `budget-transactions` collection. Every field but `categoryTotals` may
      be absent: a document first written by a transaction batch holds only the totals. */
  datatype Aggregate = Aggregate(
    userId: Option<string>,
    budgetId: Option<string>,
    title: Option<string>,
    amount: Option<AggregateAmount>,
    fromDate: Option<string>,
    toDate: Option<string>,
    categoryTotals: Totals)
}
