/** The two kinds of stored record, and the category-name table shared by the pages. */
module Records {

  datatype Option<T> = None | Some(value: T)

  /** A stored date as `new Date(text)` reads it back: `month` is 0-based, as
      `getMonth` returns it, and `day` is 1-based, as `getDate` returns it.
      A record whose date text does not parse has `None` (an Invalid Date). */
  datatype CalDate = CalDate(year: int, month: int, day: int)

  /** The date a record is filed under: its own, or `today` when it has none. */
  function DateOr(date: Option<CalDate>, today: CalDate): CalDate
  {
    match date
    case Some(d) => d
    case None => today
  }

  const INCOME := "income"
  const EXPENSE := "expense"
  const OWED := "owed"
  const DEBT := "debt"
  const PENDING := "pending"
  const PAID := "paid"

  /** A transaction. `kind` is the record's `type` field ("income" or "expense" as the form
      offers them); an empty `note` or `category` stands for a missing one. */
  datatype Transaction = Transaction(kind: string, amount: int, note: string, category: string, date: Option<CalDate>)

  /** A debt. `kind` is "owed" (owed to the user) or "debt" (owed by the user);
      `status` is "pending" or "paid". */
  datatype Debt = Debt(name: string, amount: int, kind: string, note: string, date: Option<CalDate>, status: string)

  /** The fixed display names of the category keys. */
  const CATEGORY_NAMES: map<string, string> := map[
    "salary" := "راتب",
    "investment" := "استثمار",
    "gift" := "هدية",
    "food" := "طعام",
    "transport" := "مواصلات",
    "bills" := "فواتير",
    "shopping" := "تسوق",
    "other-income" := "أخرى (مدخول)",
    "other-expense" := "أخرى (مصروف)"
  ]

  /** The label of a category key the table does not know. */
  const GENERAL_CATEGORY := "عام"

  /** `getCategoryName(category)`: the table's name for a known key, the general label for any other. */
  function CategoryName(key: string): (name: string)
    ensures key in CATEGORY_NAMES ==> name == CATEGORY_NAMES[key]
    ensures name == GENERAL_CATEGORY <==> key !in CATEGORY_NAMES
    ensures name != ""
  {
    if key in CATEGORY_NAMES then CATEGORY_NAMES[key] else GENERAL_CATEGORY
  }
}
