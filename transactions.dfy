/** The transactions page: the add form, the type tabs, the search and month filters over the
    list, and the delete buttons. */
module Transactions {
  import opened Records
  import opened Text
  import opened Seqs

  /** The tab that shows every type. */
  const ALL := "all"

  /** What the add form holds on submit. `amount` is `parseFloat` of the amount field, `None` when
      that is NaN; `date` is `None` when the date field is empty. */
  datatype Form = Form(kind: string, amount: Option<int>, note: string, category: string, date: Option<CalDate>)

  /** The submit guard: a type, a non-zero number, a category and a date are required; the note is optional. */
  predicate Acceptable(f: Form)
  {
    f.kind != "" && f.amount.Some? && f.amount.value != 0 && f.category != "" && f.date.Some?
  }

  /** The record a valid form adds: the entered type, amount, note and category. The page
      stores the date as its `ar-EG` display text; `stored` is what `new Date` reads back from
      that text (`None` for an Invalid Date), which need not be the entered date. */
  function Entered(f: Form, stored: Option<CalDate>): (t: Transaction)
    requires Acceptable(f)
    ensures t.kind == f.kind && t.amount == f.amount.value && t.amount != 0 && t.note == f.note
    ensures t.category == f.category && t.category != ""
    ensures t.date == stored
  {
    Transaction(f.kind, f.amount.value, f.note, f.category, stored)
  }

  // ---------------------------------------------------------------- the list filter

  /** The type tab: "all" passes every record, any other tab only records of that type. */
  predicate KindPasses(filter: string, t: Transaction)
  {
    filter == ALL || t.kind == filter
  }

  /** The search filter with the lower-cased term: an empty term passes everything; otherwise
      the lower-cased note, the amount's digits or the lower-cased category key must contain it. */
  predicate SearchPasses(term: string, t: Transaction)
  {
    term == "" ||
    Contains(ToLower(t.note), term) ||
    Contains(IntToString(t.amount), term) ||
    Contains(ToLower(t.category), term)
  }

  /** `(new Date(trx.date).getMonth() + 1).toString()`: the 1-based month number, or "NaN"
      for a date that does not parse. */
  function MonthNumberText(date: Option<CalDate>): (r: string)
    ensures date.None? <==> r == "NaN"
  {
    match date
    case None => "NaN"
    case Some(d) =>
      var r := IntToString(d.month + 1);
      assert r[0] == '-' || '0' <= r[0] <= '9';
      r
  }

  /** The month filter: no selection passes everything; otherwise the month number must match. */
  predicate MonthPasses(month: string, t: Transaction)
  {
    month == "" || MonthNumberText(t.date) == month
  }

  /** The `renderTransactions` filter: the three conditions joined by AND. */
  predicate Matches(filter: string, search: string, month: string, t: Transaction)
  {
    KindPasses(filter, t) && SearchPasses(ToLower(search), t) && MonthPasses(month, t)
  }

  /** The list the page shows: the records that pass the filter. */
  function View(txs: seq<Transaction>, filter: string, search: string, month: string): (r: seq<Transaction>)
    ensures |r| <= |txs|
    ensures forall t :: t in r <==> t in txs && Matches(filter, search, month, t)
    ensures forall t :: multiset(r)[t] == if Matches(filter, search, month, t) then multiset(txs)[t] else 0
  {
    Filter(txs, (t: Transaction) => Matches(filter, search, month, t))
  }

  /** The shown list keeps the records' original order. */
  lemma ViewIsSubsequence(txs: seq<Transaction>, filter: string, search: string, month: string)
    ensures IsSubsequence(View(txs, filter, search, month), txs)
  {
    FilterIsSubsequence(txs, (t: Transaction) => Matches(filter, search, month, t));
  }

  /** With the "all" tab, no search and no month selected, the page shows the whole list. */
  lemma NoFilterShowsAll(txs: seq<Transaction>)
    ensures View(txs, ALL, "", "") == txs
  {
    FilterKeepsAll(txs, (t: Transaction) => Matches(ALL, "", "", t));
  }

  /** With a month number 1 .. 12 selected, a record with a valid date passes exactly when its
      0-based month is one less, and a record whose date does not parse never passes. */
  lemma MonthFilterExact(m: int, t: Transaction)
    requires 1 <= m <= 12
    ensures t.date.Some? ==> (MonthPasses(IntToString(m), t) <==> t.date.value.month + 1 == m)
    ensures t.date.None? ==> !MonthPasses(IntToString(m), t)
  {
    if t.date.Some? {
      IntToStringInjective(t.date.value.month + 1, m);
    } else {
      assert IntToString(m)[0] != 'N';
    }
  }

  /** The search ignores the case of the typed term. */
  lemma SearchIgnoresCase(search: string, filter: string, month: string, t: Transaction)
    ensures Matches(filter, search, month, t) == Matches(filter, ToLower(search), month, t)
  {
    ToLowerIdempotent(search);
  }

  /** Without a filter the position of a shown record is its position in the stored list, so
      the delete button at `index` removes the record it is shown next to. */
  lemma UnfilteredDeleteHitsShown(txs: seq<Transaction>, index: int)
    requires 0 <= index < |View(txs, ALL, "", "")|
    ensures View(txs, ALL, "", "")[index] == txs[index]
    ensures multiset(RemoveAt(txs, index)) + multiset{View(txs, ALL, "", "")[index]} == multiset(txs)
  {
    NoFilterShowsAll(txs);
  }

  /** With a type tab active, the button's position in the shown list is used on the stored list:
      the expense stored first is removed although the income shown first was clicked. */
  lemma FilteredDeleteHitsOther(income: Transaction, expense: Transaction)
    requires income.kind == INCOME && expense.kind == EXPENSE
    ensures View([expense, income], INCOME, "", "") == [income]
    ensures RemoveAt([expense, income], 0) == [income]
  {
    var p := (t: Transaction) => Matches(INCOME, "", "", t);
    assert ToLower("") == "";
    assert !p(expense) && p(income);
    assert [expense, income][1..] == [income];
    assert [income][1..] == [];
    assert Filter([income], p) == [income] + Filter([], p);
  }

  // ---------------------------------------------------------------- the page state

  /** The page's state: the stored list, newest first, and the selected type tab. */
  class TransactionPage {
    var transactions: seq<Transaction>
    var currentFilter: string

    /** The page as loaded: the stored records and the "all" tab. */
    constructor (stored: seq<Transaction>)
      ensures transactions == stored && currentFilter == ALL
    {
      transactions := stored;
      currentFilter := ALL;
    }

    /** A tab click: the tab's id without its "-tab" suffix becomes the type filter. */
    method SelectTab(tabId: string)
      modifies this
      ensures currentFilter == ReplaceFirst(tabId, "-tab", "")
      ensures transactions == old(transactions)
    {
      currentFilter := ReplaceFirst(tabId, "-tab", "");
    }

    /** The form's submit: an acceptable form puts its record in front of the list, any other
        form changes nothing. `stored` is the date as read back from the stored text. */
    method Submit(f: Form, stored: Option<CalDate>) returns (accepted: bool)
      modifies this
      ensures accepted <==> Acceptable(f)
      ensures accepted ==> transactions == [Entered(f, stored)] + old(transactions)
      ensures !accepted ==> transactions == old(transactions)
      ensures currentFilter == old(currentFilter)
    {
      if !Acceptable(f) {
        return false;
      }
      transactions := [Entered(f, stored)] + transactions;
      return true;
    }

    /** A delete button: `index` is the record's position in the shown list and is used on the
        stored list; a declined confirmation changes nothing. */
    method Delete(index: int, confirmed: bool)
      modifies this
      ensures confirmed ==> transactions == RemoveAt(old(transactions), index)
      ensures !confirmed ==> transactions == old(transactions)
      ensures currentFilter == old(currentFilter)
    {
      if confirmed {
        transactions := RemoveAt(transactions, index);
      }
    }
  }
}
