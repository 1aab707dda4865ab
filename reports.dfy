/** The reports page: monthly, per-category and yearly reports over the stored transactions. */
module Reports {
  import opened Records
  import opened Text
  import opened Seqs
  import opened Totals
  import Transactions

  // ---------------------------------------------------------------- month keys

  /** The "YYYY-MM" key of a year and a 0-based month. */
  function MonthKey(year: int, month: int): (key: string)
    ensures |key| >= 4
  {
    IntToString(year) + "-" + PadStart2(IntToString(month + 1))
  }

  /** `getYearMonth(dateString)`: the month key of a record's date, or of today's date
      when the stored date does not parse. */
  function YearMonth(date: Option<CalDate>, today: CalDate): (key: string)
    ensures date.None? ==> key == MonthKey(today.year, today.month)
    ensures key != ""
  {
    var d := DateOr(date, today);
    MonthKey(d.year, d.month)
  }

  /** The month part of a key is the two digits of the 1-based month. */
  lemma MonthPartDigits(m: int)
    requires 0 <= m < 12
    ensures PadStart2(IntToString(m + 1)) == [DigitChar((m + 1) / 10), DigitChar((m + 1) % 10)]
  {
    if m + 1 >= 10 {
      assert NatToString(m + 1) == NatToString((m + 1) / 10) + [DigitChar((m + 1) % 10)];
    }
  }

  lemma MonthPartInjective(a: int, b: int)
    requires 0 <= a < 12 && 0 <= b < 12
    requires PadStart2(IntToString(a + 1)) == PadStart2(IntToString(b + 1))
    ensures a == b
  {
    MonthPartDigits(a);
    MonthPartDigits(b);
    assert DigitChar((a + 1) / 10) == DigitChar((b + 1) / 10);
    assert DigitChar((a + 1) % 10) == DigitChar((b + 1) % 10);
  }

  /** Month keys of years from 0 on and of months 0 .. 11 are equal exactly when year and month are. */
  lemma MonthKeyInjective(y1: int, m1: int, y2: int, m2: int)
    requires 0 <= y1 && 0 <= y2 && 0 <= m1 < 12 && 0 <= m2 < 12
    ensures MonthKey(y1, m1) == MonthKey(y2, m2) <==> y1 == y2 && m1 == m2
  {
    if MonthKey(y1, m1) == MonthKey(y2, m2) {
      var k := MonthKey(y1, m1);
      var a1, a2 := IntToString(y1), IntToString(y2);
      var p1, p2 := PadStart2(IntToString(m1 + 1)), PadStart2(IntToString(m2 + 1));
      MonthPartDigits(m1);
      MonthPartDigits(m2);
      assert |a1| == |a2|;
      assert k[..|a1|] == a1 && MonthKey(y2, m2)[..|a2|] == a2;
      IntToStringInjective(y1, y2);
      assert k[|a1| + 1..] == p1 && MonthKey(y2, m2)[|a2| + 1..] == p2;
      MonthPartInjective(m1, m2);
    }
  }

  /** `transactions.filter(trx => getYearMonth(trx.date) === month)`. */
  function InMonth(txs: seq<Transaction>, month: string, today: CalDate): (r: seq<Transaction>)
    ensures forall t :: t in r <==> t in txs && YearMonth(t.date, today) == month
    ensures forall t :: multiset(r)[t] == if YearMonth(t.date, today) == month then multiset(txs)[t] else 0
  {
    Filter(txs, (t: Transaction) => YearMonth(t.date, today) == month)
  }

  /** The month filter keeps, in their original order and with every copy, exactly the records
      filed under the selected year and month; a record whose date does not parse is filed
      under today's. */
  lemma InMonthExactly(txs: seq<Transaction>, today: CalDate, y: int, m: int, t: Transaction)
    requires 0 <= y && 0 <= m < 12
    requires var d := DateOr(t.date, today); 0 <= d.year && 0 <= d.month < 12
    ensures IsSubsequence(InMonth(txs, MonthKey(y, m), today), txs)
    ensures t in InMonth(txs, MonthKey(y, m), today) <==>
      t in txs && DateOr(t.date, today).year == y && DateOr(t.date, today).month == m
    ensures multiset(InMonth(txs, MonthKey(y, m), today))[t] ==
      if DateOr(t.date, today).year == y && DateOr(t.date, today).month == m then multiset(txs)[t] else 0
  {
    FilterIsSubsequence(txs, (u: Transaction) => YearMonth(u.date, today) == MonthKey(y, m));
    var d := DateOr(t.date, today);
    MonthKeyInjective(d.year, d.month, y, m);
  }

  /** The page stores a submitted date as display text; when that text does not read back as a
      date, the new record is filed under today's month whatever date was entered. */
  lemma UnreadableDateFiledToday(f: Transactions.Form, txs: seq<Transaction>, today: CalDate)
    requires Transactions.Acceptable(f)
    ensures Transactions.Entered(f, None) in
      InMonth([Transactions.Entered(f, None)] + txs, MonthKey(today.year, today.month), today)
  {
  }

  /** An empty month selection matches no record, so the monthly report then shows nothing. */
  lemma NoMonthSelectedKeepsNothing(txs: seq<Transaction>, today: CalDate)
    ensures InMonth(txs, "", today) == []
  {
    FilterDropsAll(txs, (t: Transaction) => YearMonth(t.date, today) == "");
  }

  // ---------------------------------------------------------------- month names

  const MONTH_NAMES: seq<string> := [
    "يناير", "فبراير", "مارس", "أبريل", "مايو", "يونيو",
    "يوليو", "أغسطس", "سبتمبر", "أكتوبر", "نوفمبر", "ديسمبر"
  ]

  const UNKNOWN_MONTH := "غير معروف"

  /** `getArabicMonthName(monthIndex)`: the name of months 0 .. 11, "unknown" for any other index. */
  function ArabicMonthName(i: int): (name: string)
    ensures 0 <= i < 12 ==> name == MONTH_NAMES[i]
    ensures name == UNKNOWN_MONTH <==> !(0 <= i < 12)
  {
    if 0 <= i < |MONTH_NAMES| then MONTH_NAMES[i] else UNKNOWN_MONTH
  }

  // ---------------------------------------------------------------- summary and slots

  /** The report's summary figures. */
  datatype Summary = Summary(income: int, expense: int, balance: int)

  /** The `income`, `expense` and `balance` reductions shared by the three reports. */
  function Summarize(s: seq<Transaction>): (r: Summary)
    ensures r.balance == r.income - r.expense
    ensures r.income == Sum(s, OfKind(INCOME)) && r.expense == Sum(s, OfKind(EXPENSE))
  {
    var income := Sum(s, OfKind(INCOME));
    var expense := Sum(s, OfKind(EXPENSE));
    Summary(income, expense, income - expense)
  }

  /** The `forEach` loops of the monthly and yearly reports: `n` slots start at zero and each
      record whose slot index lies in `0 .. n - 1` adds its amount to that slot. */
  method FillBuckets(s: seq<Transaction>, axis: Axis, n: nat) returns (r: seq<Bucket>)
    ensures r == Buckets(s, axis, n)
  {
    var slots := new Bucket[n](_ => Bucket(0, 0));
    BucketsStartEmpty(axis, n);
    var k := 0;
    while k < |s|
      invariant 0 <= k <= |s|
      invariant slots[..] == Buckets(s[..k], axis, n)
    {
      var t := s[k];
      assert s[..k + 1] == s[..k] + [t];
      var slot := SlotOf(axis, t);
      if slot.Some? && 0 <= slot.value < n {
        var j := slot.value;
        BucketsAdd(s[..k], t, axis, n, j);
        if IncomeSide(t) {
          slots[j] := slots[j].(income := slots[j].income + t.amount);
        } else {
          slots[j] := slots[j].(expense := slots[j].expense + t.amount);
        }
      } else {
        BucketsSkip(s[..k], t, axis, n);
      }
      k := k + 1;
    }
    assert s[..|s|] == s;
    r := slots[..];
  }

  // ---------------------------------------------------------------- monthly report

  /** One row of a report table: a label, an amount and a percentage (`None` where the page
      divides by a zero total). */
  datatype Row = Row(category: string, amount: int, percentage: Option<real>)

  datatype MonthlyReport = MonthlyReport(summary: Summary, days: seq<int>, daily: seq<Bucket>, table: seq<Row>)

  const INCOME_ROW := "المدخول"
  const EXPENSE_ROW := "المصروف"
  const BALANCE_ROW := "صافي الرصيد"

  /** What the monthly report of the records `kept` holds: their totals, one slot per day
      labelled 1 .. `daysInMonth`, and the fixed three-row table of income, expense and balance,
      each marked 100 percent. */
  predicate MonthlyHolds(m: MonthlyReport, kept: seq<Transaction>, daysInMonth: nat)
  {
    && m.summary == Summarize(kept)
    && |m.days| == daysInMonth
    && (forall i :: 0 <= i < daysInMonth ==> m.days[i] == i + 1)
    && m.daily == Buckets(kept, DayOfMonth, daysInMonth)
    && m.table == [Row(INCOME_ROW, m.summary.income, Some(100.0)),
                   Row(EXPENSE_ROW, m.summary.expense, Some(100.0)),
                   Row(BALANCE_ROW, m.summary.balance, Some(100.0))]
  }

  /** `renderMonthlyReport(month)`: nothing when no transaction falls in the month; otherwise
      the monthly report of the month's records. */
  method RenderMonthly(txs: seq<Transaction>, month: string, today: CalDate, daysInMonth: nat)
    returns (r: Option<MonthlyReport>)
    ensures r.None? <==> InMonth(txs, month, today) == []
    ensures r.Some? ==> MonthlyHolds(r.value, InMonth(txs, month, today), daysInMonth)
  {
    var kept := InMonth(txs, month, today);
    if kept == [] {
      return None;
    }
    var summary := Summarize(kept);
    var days := seq(daysInMonth, i => i + 1);
    var daily := FillBuckets(kept, DayOfMonth, daysInMonth);
    var table := [Row(INCOME_ROW, summary.income, Some(100.0)),
                  Row(EXPENSE_ROW, summary.expense, Some(100.0)),
                  Row(BALANCE_ROW, summary.balance, Some(100.0))];
    return Some(MonthlyReport(summary, days, daily, table));
  }

  // ---------------------------------------------------------------- category report

  /** One entry of the `categories` object. */
  datatype Group = Group(key: string, name: string, income: int, expense: int)

  /** The position of the group with `key`, or -1. */
  function FindGroup(gs: seq<Group>, key: string): (i: int)
    ensures -1 <= i < |gs|
    ensures i >= 0 ==> gs[i].key == key
    ensures i < 0 ==> forall j :: 0 <= j < |gs| ==> gs[j].key != key
  {
    if gs == [] then -1
    else if gs[|gs| - 1].key == key then |gs| - 1
    else FindGroup(gs[..|gs| - 1], key)
  }

  /** A record's amount added to its group: income side for income records, expense side otherwise. */
  function Credit(g: Group, t: Transaction): Group
  {
    if IncomeSide(t) then g.(income := g.income + t.amount) else g.(expense := g.expense + t.amount)
  }

  /** One step of the grouping loop: create the record's group if missing, then credit it. */
  function AddToGroups(gs: seq<Group>, t: Transaction): seq<Group>
  {
    var key := CategoryKey(t);
    var i := FindGroup(gs, key);
    if i < 0 then gs + [Credit(Group(key, CategoryName(key), 0, 0), t)]
    else gs[i := Credit(gs[i], t)]
  }

  /** The `categories` object after the grouping loop, its entries in first-seen order. */
  function Grouped(s: seq<Transaction>): seq<Group>
  {
    if s == [] then [] else AddToGroups(Grouped(s[..|s| - 1]), s[|s| - 1])
  }

  ghost predicate KeysDistinct(gs: seq<Group>)
  {
    forall i, j :: 0 <= i < j < |gs| ==> gs[i].key != gs[j].key
  }

  /** The keys of the groups. */
  function KeysOf(gs: seq<Group>): set<string>
  {
    if gs == [] then {} else KeysOf(gs[..|gs| - 1]) + {gs[|gs| - 1].key}
  }

  /** The grouping loop of `renderCategoryReport`, updating the groups in place. */
  method GroupByCategory(s: seq<Transaction>) returns (gs: seq<Group>)
    ensures gs == Grouped(s)
  {
    gs := [];
    var k := 0;
    while k < |s|
      invariant 0 <= k <= |s|
      invariant gs == Grouped(s[..k])
    {
      var t := s[k];
      assert s[..k + 1][..k] == s[..k];
      var key := CategoryKey(t);
      var i := FindGroup(gs, key);
      if i < 0 {
        gs := gs + [Group(key, CategoryName(key), 0, 0)];
        i := |gs| - 1;
      }
      gs := gs[i := Credit(gs[i], t)];
      k := k + 1;
    }
    assert s[..|s|] == s;
  }

  /** What `s` has made of one group: the key's display name, and the income and the other
      amounts of exactly the records with that key. */
  ghost predicate GroupHolds(g: Group, s: seq<Transaction>)
  {
    && g.name == CategoryName(g.key)
    && g.income == Sum(s, InCategory(g.key, true))
    && g.expense == Sum(s, InCategory(g.key, false))
  }

  /** The category keys that occur in `s`. */
  ghost function KeysIn(s: seq<Transaction>): set<string>
  {
    if s == [] then {} else KeysIn(s[..|s| - 1]) + {CategoryKey(s[|s| - 1])}
  }

  lemma KeysInAppend(s: seq<Transaction>, t: Transaction)
    ensures KeysIn(s + [t]) == KeysIn(s) + {CategoryKey(t)}
  {
    assert (s + [t])[..|s|] == s;
  }

  /** A key outside `KeysIn(s)` is the key of no record of `s`. */
  lemma {:induction false} KeysInCovers(s: seq<Transaction>, key: string)
    requires key !in KeysIn(s)
    ensures forall t :: t in s ==> CategoryKey(t) != key
  {
    if s != [] {
      var p := s[..|s| - 1];
      KeysInCovers(p, key);
      assert s == p + [s[|s| - 1]];
    }
  }

  lemma KeysOfAppend(gs: seq<Group>, g: Group)
    ensures KeysOf(gs + [g]) == KeysOf(gs) + {g.key}
  {
    assert (gs + [g])[..|gs|] == gs;
  }

  /** A key no group carries is not among the keys. */
  lemma {:induction false} KeysOfMissing(gs: seq<Group>, key: string)
    requires forall j :: 0 <= j < |gs| ==> gs[j].key != key
    ensures key !in KeysOf(gs)
  {
    if gs != [] {
      KeysOfMissing(gs[..|gs| - 1], key);
    }
  }

  /** The key of every group is among the keys. */
  lemma {:induction false} KeysOfHas(gs: seq<Group>, i: int)
    requires 0 <= i < |gs|
    ensures gs[i].key in KeysOf(gs)
  {
    if i < |gs| - 1 {
      KeysOfHas(gs[..|gs| - 1], i);
    }
  }

  lemma {:induction false} KeysOfUpdate(gs: seq<Group>, i: int, g: Group)
    requires 0 <= i < |gs| && g.key == gs[i].key
    ensures KeysOf(gs[i := g]) == KeysOf(gs)
  {
    var n := |gs|;
    if i < n - 1 {
      assert gs[i := g][..n - 1] == gs[..n - 1][i := g];
      KeysOfUpdate(gs[..n - 1], i, g);
    } else {
      assert gs[i := g][..n - 1] == gs[..n - 1];
    }
  }

  /** The grouping loop keeps one group per category key that occurs (a missing category
      counting as "other"), and no group for any other key. */
  lemma {:induction false} GroupedKeys(s: seq<Transaction>)
    ensures KeysDistinct(Grouped(s))
    ensures KeysOf(Grouped(s)) == KeysIn(s)
  {
    if s != [] {
      var p := s[..|s| - 1];
      var t := s[|s| - 1];
      assert s == p + [t];
      GroupedKeys(p);
      KeysInAppend(p, t);
      var gs := Grouped(p);
      var key := CategoryKey(t);
      var i := FindGroup(gs, key);
      if i < 0 {
        var g := Credit(Group(key, CategoryName(key), 0, 0), t);
        assert Grouped(s) == gs + [g];
        KeysOfAppend(gs, g);
      } else {
        assert Grouped(s) == gs[i := Credit(gs[i], t)];
        KeysOfUpdate(gs, i, Credit(gs[i], t));
        KeysOfHas(gs, i);
      }
    }
  }

  /** One step of the grouping loop keeps every group faithful: groups with distinct keys, one
      per key of `p`, each holding the totals of `p`, become after `t` groups holding the
      totals of `p + [t]`. */
  lemma GroupedSumsStep(gs: seq<Group>, p: seq<Transaction>, t: Transaction, j: int)
    requires forall g :: g in gs ==> GroupHolds(g, p)
    requires KeysDistinct(gs) && KeysOf(gs) == KeysIn(p)
    requires 0 <= j < |AddToGroups(gs, t)|
    ensures GroupHolds(AddToGroups(gs, t)[j], p + [t])
  {
    var key := CategoryKey(t);
    var i := FindGroup(gs, key);
    var g := AddToGroups(gs, t)[j];
    SumAppend(p, t, InCategory(g.key, true));
    SumAppend(p, t, InCategory(g.key, false));
    if i < 0 && j == |gs| {
      KeysOfMissing(gs, key);
      KeysInCovers(p, key);
      SumOfNothing(p, InCategory(key, true));
      SumOfNothing(p, InCategory(key, false));
    } else if j == i {
      assert gs[i] in gs;
    } else {
      assert g == gs[j] && g in gs;
    }
  }

  /** Every group carries its key's name and the totals of exactly the records with its key. */
  lemma {:induction false} GroupedSums(s: seq<Transaction>)
    ensures forall g :: g in Grouped(s) ==> GroupHolds(g, s)
  {
    if s != [] {
      var p := s[..|s| - 1];
      var t := s[|s| - 1];
      assert s == p + [t];
      GroupedSums(p);
      GroupedKeys(p);
      var gs' := Grouped(s);
      assert gs' == AddToGroups(Grouped(p), t);
      forall j | 0 <= j < |gs'|
        ensures GroupHolds(gs'[j], s)
      {
        GroupedSumsStep(Grouped(p), p, t, j);
      }
    }
  }

  /** Each group is keyed by a distinct category key (a missing category by "other"), carries
      that key's display name, and holds the income and the other amounts of exactly the
      records with that key; there is a group for every key that occurs and for no other. */
  lemma GroupedFaithful(s: seq<Transaction>)
    ensures KeysDistinct(Grouped(s))
    ensures KeysOf(Grouped(s)) == KeysIn(s)
    ensures forall g :: g in Grouped(s) ==> GroupHolds(g, s)
  {
    GroupedKeys(s);
    GroupedSums(s);
  }

  /** Income plus expense over all groups. */
  function GroupsTotal(gs: seq<Group>): int
  {
    if gs == [] then 0 else GroupsTotal(gs[..|gs| - 1]) + gs[|gs| - 1].income + gs[|gs| - 1].expense
  }

  lemma {:induction false} GroupsTotalUpdate(gs: seq<Group>, i: int, g: Group)
    requires 0 <= i < |gs|
    ensures GroupsTotal(gs[i := g]) == GroupsTotal(gs) - gs[i].income - gs[i].expense + g.income + g.expense
  {
    var n := |gs|;
    if i < n - 1 {
      assert gs[i := g][..n - 1] == gs[..n - 1][i := g];
      GroupsTotalUpdate(gs[..n - 1], i, g);
    } else {
      assert gs[i := g][..n - 1] == gs[..n - 1];
    }
  }

  /** The groups partition the records: together they hold every amount exactly once. */
  lemma {:induction false} GroupedPartition(s: seq<Transaction>)
    ensures GroupsTotal(Grouped(s)) == Sum(s, Everything)
  {
    if s != [] {
      var p := s[..|s| - 1];
      var t := s[|s| - 1];
      GroupedPartition(p);
      var gs := Grouped(p);
      var key := CategoryKey(t);
      var i := FindGroup(gs, key);
      if i < 0 {
        var g := Credit(Group(key, CategoryName(key), 0, 0), t);
        assert (gs + [g])[..|gs|] == gs;
      } else {
        GroupsTotalUpdate(gs, i, Credit(gs[i], t));
      }
    }
  }

  /** `(amount / total) * 100`; a zero total gives NaN or Infinity in the page, `None` here. */
  function Percentage(amount: int, total: int): (p: Option<real>)
    ensures p.Some? <==> total != 0
    ensures p.Some? ==> p.value * (total as real) == (amount as real) * 100.0
  {
    if total == 0 then None else Some((amount as real) / (total as real) * 100.0)
  }

  /** The groups the table keeps: those with some income or some expense. */
  predicate Shown(g: Group)
  {
    g.income > 0 || g.expense > 0
  }

  function RowOf(g: Group, total: int): Row
  {
    Row(g.name, g.income + g.expense, Percentage(g.income + g.expense, total))
  }

  /** `.filter(cat => cat.income > 0 || cat.expense > 0).map(...)`: one row per shown group, in group order. */
  function TableRows(gs: seq<Group>, total: int): (rows: seq<Row>)
    ensures |rows| <= |gs|
  {
    if gs == [] then []
    else (if Shown(gs[0]) then [RowOf(gs[0], total)] else []) + TableRows(gs[1..], total)
  }

  /** The rows are exactly those of the shown groups. */
  lemma {:induction false} TableRowsMembers(gs: seq<Group>, total: int)
    ensures forall g :: g in gs && Shown(g) ==> RowOf(g, total) in TableRows(gs, total)
    ensures forall x :: x in TableRows(gs, total) ==> exists g :: g in gs && Shown(g) && x == RowOf(g, total)
  {
    if gs != [] {
      TableRowsMembers(gs[1..], total);
      assert gs == [gs[0]] + gs[1..];
    }
  }

  /** `.map(cat => ...)`: the row of each group, in order. */
  function RowsOf(gs: seq<Group>, total: int): (rows: seq<Row>)
    ensures |rows| == |gs|
    ensures forall i :: 0 <= i < |gs| ==> rows[i] == RowOf(gs[i], total)
  {
    if gs == [] then [] else [RowOf(gs[0], total)] + RowsOf(gs[1..], total)
  }

  /** The table rows are the rows of the shown groups: row `i` is the row of the `i`-th shown
      group, so there is exactly one row per shown group even when two groups' rows coincide. */
  lemma {:induction false} TableRowsPerGroup(gs: seq<Group>, total: int)
    ensures TableRows(gs, total) == RowsOf(Filter(gs, Shown), total)
    ensures |TableRows(gs, total)| == |Filter(gs, Shown)|
    ensures forall i :: 0 <= i < |TableRows(gs, total)| ==>
      TableRows(gs, total)[i] == RowOf(Filter(gs, Shown)[i], total)
  {
    if gs != [] {
      TableRowsPerGroup(gs[1..], total);
      if Shown(gs[0]) {
        assert Filter(gs, Shown) == [gs[0]] + Filter(gs[1..], Shown);
        assert RowsOf(Filter(gs, Shown), total) == [RowOf(gs[0], total)] + RowsOf(Filter(gs[1..], Shown), total);
      } else {
        assert Filter(gs, Shown) == Filter(gs[1..], Shown);
      }
    }
  }

  ghost predicate Descending(rows: seq<Row>)
  {
    forall i, j :: 0 <= i < j < |rows| ==> rows[i].amount >= rows[j].amount
  }

  /** Inserts `x` in front of the first row whose amount is at most its own. */
  function Insert(x: Row, rows: seq<Row>): (r: seq<Row>)
    ensures multiset(r) == multiset(rows) + multiset{x}
    ensures forall y :: y in r <==> y == x || y in rows
  {
    if rows == [] || x.amount >= rows[0].amount then [x] + rows
    else
      assert rows == [rows[0]] + rows[1..];
      [rows[0]] + Insert(x, rows[1..])
  }

  /** Inserting into rows sorted by descending amount keeps them sorted. */
  lemma {:induction false} InsertDescending(x: Row, rows: seq<Row>)
    requires Descending(rows)
    ensures Descending(Insert(x, rows))
  {
    if !(rows == [] || x.amount >= rows[0].amount) {
      var rest := Insert(x, rows[1..]);
      InsertDescending(x, rows[1..]);
      assert forall y :: y in rest ==> rows[0].amount >= y.amount;
      assert Insert(x, rows) == [rows[0]] + rest;
    }
  }

  /** `.sort((a, b) => b.amount - a.amount)`: the same rows, by amount, largest first. */
  function SortByAmount(rows: seq<Row>): (r: seq<Row>)
    ensures multiset(r) == multiset(rows)
    ensures forall y :: y in r <==> y in rows
    ensures Descending(r)
  {
    if rows == [] then []
    else
      assert rows == [rows[0]] + rows[1..];
      var sorted := SortByAmount(rows[1..]);
      InsertDescending(rows[0], sorted);
      Insert(rows[0], sorted)
  }

  /** The category table: the shown groups as rows, percentages of `total`, largest amount first. */
  function CategoryTable(gs: seq<Group>, total: int): (rows: seq<Row>)
    ensures Descending(rows)
    ensures multiset(rows) == multiset(TableRows(gs, total))
  {
    SortByAmount(TableRows(gs, total))
  }

  /** The table holds a row for each group with some income or expense, and no other row. */
  lemma CategoryTableMembers(gs: seq<Group>, total: int)
    ensures forall x :: x in CategoryTable(gs, total) <==> exists g :: g in gs && Shown(g) && x == RowOf(g, total)
  {
    TableRowsMembers(gs, total);
  }

  /** The sum of the table's percentages (a missing one counts as nothing). */
  function PercentSum(rows: seq<Row>): real
  {
    if rows == [] then 0.0
    else (if rows[0].percentage.Some? then rows[0].percentage.value else 0.0) + PercentSum(rows[1..])
  }

  lemma {:induction false} PercentSumInsert(x: Row, rows: seq<Row>)
    ensures PercentSum(Insert(x, rows)) == PercentSum([x]) + PercentSum(rows)
  {
    if !(rows == [] || x.amount >= rows[0].amount) {
      PercentSumInsert(x, rows[1..]);
    }
  }

  lemma {:induction false} PercentSumSort(rows: seq<Row>)
    ensures PercentSum(SortByAmount(rows)) == PercentSum(rows)
  {
    if rows != [] {
      PercentSumSort(rows[1..]);
      PercentSumInsert(rows[0], SortByAmount(rows[1..]));
    }
  }

  lemma DivideSum(x: real, y: real, d: real)
    requires d != 0.0
    ensures (x + y) / d == x / d + y / d
  {
  }

  /** The percentages of the shown groups add up to their share of `total`. */
  lemma {:induction false} PercentSumRows(gs: seq<Group>, total: int)
    requires total != 0
    requires forall g :: g in gs ==> g.income >= 0 && g.expense >= 0
    ensures PercentSum(TableRows(gs, total)) == (GroupsTotal(gs) as real) / (total as real) * 100.0
  {
    if gs != [] {
      var tail := gs[1..];
      var a := gs[0].income + gs[0].expense;
      var rest := GroupsTotal(tail);
      PercentSumRows(tail, total);
      GroupsTotalFront(gs);
      DivideSum(a as real, rest as real, total as real);
      if Shown(gs[0]) {
        assert TableRows(gs, total) == [RowOf(gs[0], total)] + TableRows(tail, total);
      } else {
        assert TableRows(gs, total) == TableRows(tail, total);
      }
    }
  }

  lemma {:induction false} GroupsTotalFront(gs: seq<Group>)
    requires gs != []
    ensures GroupsTotal(gs) == gs[0].income + gs[0].expense + GroupsTotal(gs[1..])
  {
    if |gs| > 1 {
      GroupsTotalFront(gs[..|gs| - 1]);
      assert gs[..|gs| - 1][1..] == gs[1..][..|gs[1..]| - 1];
    }
  }

  /** With no negative amount, no group holds a negative total. */
  lemma {:induction false} GroupsNonNegative(s: seq<Transaction>)
    requires forall t :: t in s ==> t.amount >= 0
    ensures forall g :: g in Grouped(s) ==> g.income >= 0 && g.expense >= 0
  {
    GroupedSums(s);
    forall g | g in Grouped(s)
      ensures g.income >= 0 && g.expense >= 0
    {
      assert GroupHolds(g, s);
      SumNonNegative(s, InCategory(g.key, true));
      SumNonNegative(s, InCategory(g.key, false));
    }
  }

  /** The sorted table's percentages add up to the groups' share of `total`. */
  lemma {:induction false} TablePercentSum(gs: seq<Group>, total: int)
    requires total != 0
    requires forall g :: g in gs ==> g.income >= 0 && g.expense >= 0
    ensures PercentSum(CategoryTable(gs, total)) == (GroupsTotal(gs) as real) / (total as real) * 100.0
  {
    PercentSumRows(gs, total);
    PercentSumSort(TableRows(gs, total));
  }

  lemma WholeShare(total: int)
    requires total != 0
    ensures (total as real) / (total as real) * 100.0 == 100.0
  {
  }

  /** When every amount is non-negative, every record is income or expense, and the total is
      positive, the table's percentages add up to 100. */
  lemma {:induction false} PercentagesAddUpTo100(s: seq<Transaction>)
    requires forall t :: t in s ==> t.amount >= 0 && (t.kind == INCOME || t.kind == EXPENSE)
    requires Sum(s, Everything) > 0
    ensures var sum := Summarize(s);
      PercentSum(CategoryTable(Grouped(s), sum.income + sum.expense)) == 100.0
  {
    var sum := Summarize(s);
    var total := sum.income + sum.expense;
    KindsPartition(s);
    GroupedPartition(s);
    GroupsNonNegative(s);
    TablePercentSum(Grouped(s), total);
    WholeShare(total);
  }

  datatype CategoryReport = CategoryReport(summary: Summary, groups: seq<Group>, table: seq<Row>)

  /** The records the category report covers: the selected month's, or all when no month is selected. */
  function CategorySelection(txs: seq<Transaction>, month: string, today: CalDate): seq<Transaction>
  {
    if month == "" then txs else InMonth(txs, month, today)
  }

  /** What the category report of the records `kept` holds: their totals, their category
      groups and the sorted table with percentages of income plus expense. */
  predicate CategoryHolds(summary: Summary, groups: seq<Group>, table: seq<Row>, kept: seq<Transaction>)
  {
    && summary == Summarize(kept)
    && groups == Grouped(kept)
    && table == CategoryTable(groups, summary.income + summary.expense)
  }

  /** The body of `renderCategoryReport` after the empty check: the totals, the grouping loop
      and the sorted table of the records `kept`. */
  method BuildCategoryReport(kept: seq<Transaction>) returns (summary: Summary, groups: seq<Group>, table: seq<Row>)
    ensures CategoryHolds(summary, groups, table, kept)
  {
    summary := Summarize(kept);
    groups := GroupByCategory(kept);
    table := CategoryTable(groups, summary.income + summary.expense);
  }

  /** `renderCategoryReport(month)`: nothing when no transaction is selected; otherwise the
      category report of the selected records. */
  method RenderCategory(txs: seq<Transaction>, month: string, today: CalDate)
    returns (r: Option<CategoryReport>)
    ensures r.None? <==> CategorySelection(txs, month, today) == []
    ensures r.Some? ==> CategoryHolds(r.value.summary, r.value.groups, r.value.table, CategorySelection(txs, month, today))
  {
    var kept := CategorySelection(txs, month, today);
    if kept == [] {
      return None;
    }
    var summary, groups, table := BuildCategoryReport(kept);
    return Some(CategoryReport(summary, groups, table));
  }

  // ---------------------------------------------------------------- yearly report

  datatype YearlyReport = YearlyReport(summary: Summary, monthly: seq<Bucket>, table: seq<Row>)

  const YEARLY_INCOME_ROW := "المدخول السنوي"
  const YEARLY_EXPENSE_ROW := "المصروف السنوي"

  /** What the yearly report of `txs` holds: their totals, twelve month slots (records whose
      month is not 0 .. 11 being left out of the slots), and the fixed three-row table of
      yearly income, yearly expense and balance, each marked 100 percent. */
  predicate YearlyHolds(y: YearlyReport, txs: seq<Transaction>)
  {
    && y.summary == Summarize(txs)
    && |y.monthly| == 12
    && y.monthly == Buckets(txs, MonthOfYear, 12)
    && y.table == [Row(YEARLY_INCOME_ROW, y.summary.income, Some(100.0)),
                   Row(YEARLY_EXPENSE_ROW, y.summary.expense, Some(100.0)),
                   Row(BALANCE_ROW, y.summary.balance, Some(100.0))]
  }

  /** `renderYearlyReport()`: nothing when there are no transactions; otherwise the yearly
      report of all of them. */
  method RenderYearly(txs: seq<Transaction>) returns (r: Option<YearlyReport>)
    ensures r.None? <==> txs == []
    ensures r.Some? ==> YearlyHolds(r.value, txs)
  {
    if txs == [] {
      return None;
    }
    var summary := Summarize(txs);
    var monthly := FillBuckets(txs, MonthOfYear, 12);
    var table := [Row(YEARLY_INCOME_ROW, summary.income, Some(100.0)),
                  Row(YEARLY_EXPENSE_ROW, summary.expense, Some(100.0)),
                  Row(BALANCE_ROW, summary.balance, Some(100.0))];
    return Some(YearlyReport(summary, monthly, table));
  }

  // ---------------------------------------------------------------- dispatch

  datatype ReportKind = MonthlyKind | CategoryKind | YearlyKind

  /** The `switch` of `renderReport`: an unknown selection falls back to the monthly report. */
  function KindOf(selection: string): (k: ReportKind)
    ensures k == CategoryKind <==> selection == "category"
    ensures k == YearlyKind <==> selection == "yearly"
    ensures k == MonthlyKind <==> selection != "category" && selection != "yearly"
  {
    if selection == "category" then CategoryKind
    else if selection == "yearly" then YearlyKind
    else MonthlyKind
  }

  datatype Report =
    | NoTransactions
    | Monthly(monthly: Option<MonthlyReport>)
    | ByCategory(byCategory: Option<CategoryReport>)
    | Yearly(yearly: Option<YearlyReport>)

  /** `renderReport()`: nothing without transactions, otherwise the report the selection names,
      with the contents its own render method gives it. */
  method RenderReport(txs: seq<Transaction>, selection: string, month: string, today: CalDate, daysInMonth: nat)
    returns (r: Report)
    ensures r.NoTransactions? <==> txs == []
    ensures txs != [] ==> (r.Monthly? <==> KindOf(selection) == MonthlyKind)
    ensures txs != [] ==> (r.ByCategory? <==> KindOf(selection) == CategoryKind)
    ensures txs != [] ==> (r.Yearly? <==> KindOf(selection) == YearlyKind)
    ensures r.Monthly? ==> (r.monthly.None? <==> InMonth(txs, month, today) == [])
    ensures r.Monthly? && r.monthly.Some? ==> MonthlyHolds(r.monthly.value, InMonth(txs, month, today), daysInMonth)
    ensures r.ByCategory? ==> (r.byCategory.None? <==> CategorySelection(txs, month, today) == [])
    ensures r.ByCategory? && r.byCategory.Some? ==>
      var c := r.byCategory.value;
      CategoryHolds(c.summary, c.groups, c.table, CategorySelection(txs, month, today))
    ensures r.Yearly? ==> r.yearly.Some? && YearlyHolds(r.yearly.value, txs)
  {
    if txs == [] {
      return NoTransactions;
    }
    match KindOf(selection) {
      case MonthlyKind =>
        var m := RenderMonthly(txs, month, today, daysInMonth);
        r := Monthly(m);
      case CategoryKind =>
        var c := RenderCategory(txs, month, today);
        r := ByCategory(c);
      case YearlyKind =>
        var y := RenderYearly(txs);
        r := Yearly(y);
    }
  }
}
