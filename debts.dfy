/** The debts page: the add form, the search and status filters, the status toggle and delete
    buttons, and the two totals. */
module Debts {
  import opened Records
  import opened Text
  import opened Seqs
  import opened Totals

  /** What the add form holds on submit. `name` is the field as typed (the page trims it);
      `amount` is `parseFloat` of the amount field, `None` when that is NaN; `date` is `None`
      when the date field is empty. */
  datatype DebtForm = DebtForm(name: string, amount: Option<int>, kind: string, note: string, date: Option<CalDate>)

  /** The submit guard: a name that is not all white space, a non-zero number, a type and a date. */
  predicate Acceptable(f: DebtForm)
  {
    Trim(f.name) != "" && f.amount.Some? && f.amount.value != 0 && f.kind != "" && f.date.Some?
  }

  /** The debt a valid form adds: the trimmed name, the entered amount, type and note, status
      pending. The page stores the date as its `ar-EG` display text; `stored` is what `new Date`
      reads back from that text (`None` for an Invalid Date). */
  function Entered(f: DebtForm, stored: Option<CalDate>): (d: Debt)
    requires Acceptable(f)
    ensures d.name == Trim(f.name) && d.name != [] && !IsSpace(d.name[0]) && !IsSpace(d.name[|d.name| - 1])
    ensures d.amount == f.amount.value && d.amount != 0
    ensures d.kind == f.kind && d.note == f.note && d.date == stored
    ensures d.status == PENDING
  {
    Debt(Trim(f.name), f.amount.value, f.kind, f.note, stored, PENDING)
  }

  /** A name made only of white space is refused, however long it is. */
  lemma BlankNameRefused(f: DebtForm)
    requires forall i :: 0 <= i < |f.name| ==> IsSpace(f.name[i])
    ensures !Acceptable(f)
  {
  }

  // ---------------------------------------------------------------- the list filter

  /** The search filter with the lower-cased term: an empty term passes everything; otherwise
      the lower-cased name, the amount's digits or the lower-cased note must contain it. */
  predicate SearchPasses(term: string, d: Debt)
  {
    term == "" ||
    Contains(ToLower(d.name), term) ||
    Contains(IntToString(d.amount), term) ||
    Contains(ToLower(d.note), term)
  }

  /** The status filter: no selection passes everything; otherwise the status must be the selected one. */
  predicate StatusPasses(status: string, d: Debt)
  {
    status == "" || d.status == status
  }

  /** The `renderDebts` filter: search and status joined by AND. */
  predicate Matches(search: string, status: string, d: Debt)
  {
    SearchPasses(ToLower(search), d) && StatusPasses(status, d)
  }

  /** The list the page shows: the debts that pass the filter. */
  function View(ds: seq<Debt>, search: string, status: string): (r: seq<Debt>)
    ensures |r| <= |ds|
    ensures forall d :: d in r <==> d in ds && Matches(search, status, d)
    ensures forall d :: multiset(r)[d] == if Matches(search, status, d) then multiset(ds)[d] else 0
  {
    Filter(ds, (d: Debt) => Matches(search, status, d))
  }

  /** The shown list keeps the debts' original order. */
  lemma ViewIsSubsequence(ds: seq<Debt>, search: string, status: string)
    ensures IsSubsequence(View(ds, search, status), ds)
  {
    FilterIsSubsequence(ds, (d: Debt) => Matches(search, status, d));
  }

  /** With no search term and no status selected, the page shows the whole list. */
  lemma NoFilterShowsAll(ds: seq<Debt>)
    ensures View(ds, "", "") == ds
  {
    FilterKeepsAll(ds, (d: Debt) => Matches("", "", d));
  }

  /** Without a filter the position of a shown debt is its position in the stored list, so the
      toggle and delete buttons at `index` act on the debt they are shown next to. */
  lemma UnfilteredIndexIsStoredIndex(ds: seq<Debt>, index: int)
    requires 0 <= index < |View(ds, "", "")|
    ensures index < |ds| && View(ds, "", "")[index] == ds[index]
  {
    NoFilterShowsAll(ds);
  }

  /** With a status selected, the button's position in the shown list is used on the stored list:
      toggling the first shown (paid) debt flips the pending debt stored first instead. */
  lemma FilteredToggleHitsOther(pending: Debt, paid: Debt)
    requires pending.status == PENDING && paid.status == PAID
    ensures View([pending, paid], "", PAID) == [paid]
    ensures Toggled([pending, paid], 0) == [pending.(status := PAID), paid]
  {
    var p := (d: Debt) => Matches("", PAID, d);
    assert ToLower("") == "";
    assert !p(pending) && p(paid);
    assert [pending, paid][1..] == [paid];
    assert [paid][1..] == [];
    assert Filter([paid], p) == [paid] + Filter([], p);
  }

  // ---------------------------------------------------------------- status toggle

  /** The toggle's new status: a paid debt becomes pending, any other becomes paid. */
  function Flip(status: string): (r: string)
    ensures r == PENDING <==> status == PAID
    ensures r == PAID <==> status != PAID
  {
    if status == PAID then PENDING else PAID
  }

  /** Flipping twice gives the status back exactly for the two statuses the page sets. */
  lemma FlipTwice(status: string)
    ensures Flip(Flip(status)) == status <==> status == PENDING || status == PAID
  {
  }

  /** The list after the toggle at `index`. */
  function Toggled(ds: seq<Debt>, index: int): seq<Debt>
    requires 0 <= index < |ds|
  {
    ds[index := ds[index].(status := Flip(ds[index].status))]
  }

  /** The toggle changes the status of the debt at `index` and nothing else. */
  lemma ToggleChangesOnlyStatus(ds: seq<Debt>, index: int)
    requires 0 <= index < |ds|
    ensures |Toggled(ds, index)| == |ds|
    ensures forall j :: 0 <= j < |ds| && j != index ==> Toggled(ds, index)[j] == ds[j]
    ensures var d, e := Toggled(ds, index)[index], ds[index];
      d.name == e.name && d.amount == e.amount && d.kind == e.kind && d.note == e.note && d.date == e.date
    ensures Toggled(ds, index)[index].status != ds[index].status
  {
  }

  /** Toggling the same debt twice restores the list when its status was pending or paid. */
  lemma ToggleTwice(ds: seq<Debt>, index: int)
    requires 0 <= index < |ds|
    requires ds[index].status == PENDING || ds[index].status == PAID
    ensures Toggled(Toggled(ds, index), index) == ds
  {
    FlipTwice(ds[index].status);
  }

  lemma {:induction false} ToggleKeepsSum(ds: seq<Debt>, index: int, kind: string)
    requires 0 <= index < |ds|
    ensures DebtSum(Toggled(ds, index), kind) == DebtSum(ds, kind)
  {
    var n := |ds|;
    var t := Toggled(ds, index);
    if index < n - 1 {
      assert t[..n - 1] == Toggled(ds[..n - 1], index);
      ToggleKeepsSum(ds[..n - 1], index, kind);
    } else {
      assert t[..n - 1] == ds[..n - 1];
    }
  }

  // ---------------------------------------------------------------- totals

  /** `updateTotals`: what the user is owed and what the user owes, over the whole stored list
      whatever the filter shows. */
  datatype DebtTotals = DebtTotals(owed: int, debt: int)

  function UpdateTotals(ds: seq<Debt>): DebtTotals
  {
    DebtTotals(DebtSum(ds, OWED), DebtSum(ds, DEBT))
  }

  /** The totals do not depend on status, so a toggle leaves both as they were. */
  lemma ToggleKeepsTotals(ds: seq<Debt>, index: int)
    requires 0 <= index < |ds|
    ensures UpdateTotals(Toggled(ds, index)) == UpdateTotals(ds)
  {
    ToggleKeepsSum(ds, index, OWED);
    ToggleKeepsSum(ds, index, DEBT);
  }

  // ---------------------------------------------------------------- the page state

  /** The page's state: the stored debts, newest first. */
  class DebtPage {
    var debts: seq<Debt>

    constructor (stored: seq<Debt>)
      ensures debts == stored
    {
      debts := stored;
    }

    /** The form's submit: an acceptable form puts its debt, pending, in front of the list;
        any other form changes nothing. `stored` is the date as read back from the stored text. */
    method Submit(f: DebtForm, stored: Option<CalDate>) returns (accepted: bool)
      modifies this
      ensures accepted <==> Acceptable(f)
      ensures accepted ==> debts == [Entered(f, stored)] + old(debts)
      ensures !accepted ==> debts == old(debts)
    {
      if !Acceptable(f) {
        return false;
      }
      debts := [Entered(f, stored)] + debts;
      return true;
    }

    /** A status button: `index` is the debt's position in the shown list and is used on the
        stored list. Past the end of the stored list the assignment throws and nothing changes. */
    method ToggleStatus(index: int) returns (ok: bool)
      modifies this
      ensures ok <==> 0 <= index < |old(debts)|
      ensures ok ==> debts == Toggled(old(debts), index)
      ensures !ok ==> debts == old(debts)
    {
      if !(0 <= index < |debts|) {
        return false;
      }
      debts := debts[index := debts[index].(status := Flip(debts[index].status))];
      return true;
    }

    /** A delete button: `index` is the debt's position in the shown list and is used on the
        stored list; a declined confirmation changes nothing. */
    method Delete(index: int, confirmed: bool)
      modifies this
      ensures confirmed ==> debts == RemoveAt(old(debts), index)
      ensures !confirmed ==> debts == old(debts)
    {
      if confirmed {
        debts := RemoveAt(debts, index);
      }
    }
  }
}
