/** The shared start-up script: store initialisation, the dashboard figures and the monthly chart's data. */
module App {
  import opened Records
  import opened Seqs
  import opened Totals

  // ---------------------------------------------------------------- store initialisation

  const TRANSACTIONS_KEY := "transactions"
  const DEBTS_KEY := "debts"

  /** The stored text of an empty list. */
  const EMPTY_LIST := "[]"

  /** `!localStorage.getItem(key)`: the key is missing, or holds the empty string. */
  predicate Blank(items: map<string, string>, key: string)
  {
    key !in items || items[key] == ""
  }

  /** The store after start-up: each of the two list keys that was blank now holds an empty list;
      every filled key, and every other key, is as it was. */
  function Initialized(items: map<string, string>): (r: map<string, string>)
    ensures TRANSACTIONS_KEY in r && DEBTS_KEY in r
    ensures !Blank(r, TRANSACTIONS_KEY) && !Blank(r, DEBTS_KEY)
    ensures forall k :: k in items && !Blank(items, k) ==> k in r && r[k] == items[k]
    ensures forall k :: (k == TRANSACTIONS_KEY || k == DEBTS_KEY) && Blank(items, k) ==> r[k] == EMPTY_LIST
    ensures forall k :: k != TRANSACTIONS_KEY && k != DEBTS_KEY ==>
      (k in r <==> k in items) && (k in items ==> r[k] == items[k])
  {
    var withTransactions := if Blank(items, TRANSACTIONS_KEY) then items[TRANSACTIONS_KEY := EMPTY_LIST] else items;
    if Blank(withTransactions, DEBTS_KEY) then withTransactions[DEBTS_KEY := EMPTY_LIST] else withTransactions
  }

  /** Starting up a second time changes nothing. */
  lemma InitializedIdempotent(items: map<string, string>)
    ensures Initialized(Initialized(items)) == Initialized(items)
  {
  }

  /** The browser's store, as far as the pages use it. */
  class Storage {
    var items: map<string, string>

    constructor (stored: map<string, string>)
      ensures items == stored
    {
      items := stored;
    }

    /** The start-up writes: an empty list under each list key that is missing or empty. */
    method Initialize()
      modifies this
      ensures items == Initialized(old(items))
    {
      if Blank(items, TRANSACTIONS_KEY) {
        items := items[TRANSACTIONS_KEY := EMPTY_LIST];
      }
      if Blank(items, DEBTS_KEY) {
        items := items[DEBTS_KEY := EMPTY_LIST];
      }
    }
  }

  // ---------------------------------------------------------------- dashboard figures

  /** The four dashboard figures. */
  datatype Stats = Stats(totalIncome: int, totalExpense: int, currentBalance: int, totalOwed: int)

  /** `updateStats`: income and expense over the transactions, their difference, and what the
      user is owed over the debts. */
  function UpdateStats(txs: seq<Transaction>, ds: seq<Debt>): Stats
  {
    var income := Sum(txs, OfKind(INCOME));
    var expense := Sum(txs, OfKind(EXPENSE));
    Stats(income, expense, income - expense, DebtSum(ds, OWED))
  }

  /** What a record adds to the balance: its amount when income, minus it when expense, nothing otherwise. */
  function BalanceShare(t: Transaction): int
  {
    if t.kind == INCOME then t.amount else if t.kind == EXPENSE then -t.amount else 0
  }

  /** A record put in front moves the balance by its own share and leaves the owed total alone. */
  lemma StatsAfterSubmit(t: Transaction, txs: seq<Transaction>, ds: seq<Debt>)
    ensures var before, after := UpdateStats(txs, ds), UpdateStats([t] + txs, ds);
      && after.totalIncome == before.totalIncome + (if t.kind == INCOME then t.amount else 0)
      && after.totalExpense == before.totalExpense + (if t.kind == EXPENSE then t.amount else 0)
      && after.currentBalance == before.currentBalance + BalanceShare(t)
      && after.totalOwed == before.totalOwed
  {
    SumPrepend(t, txs, OfKind(INCOME));
    SumPrepend(t, txs, OfKind(EXPENSE));
  }

  /** Removing the record at `index` takes its share back out of the balance. */
  lemma StatsAfterDelete(txs: seq<Transaction>, index: int, ds: seq<Debt>)
    requires 0 <= index < |txs|
    ensures UpdateStats(RemoveAt(txs, index), ds).currentBalance
         == UpdateStats(txs, ds).currentBalance - BalanceShare(txs[index])
  {
    SumRemoveAt(txs, index, OfKind(INCOME));
    SumRemoveAt(txs, index, OfKind(EXPENSE));
  }

  /** Only debts owed to the user count: a debt of any other type changes no figure. */
  lemma OwedCountsOnlyOwed(d: Debt, txs: seq<Transaction>, ds: seq<Debt>)
    requires d.kind != OWED
    ensures UpdateStats(txs, [d] + ds) == UpdateStats(txs, ds)
  {
    DebtSumPrepend(d, ds, OWED);
  }

  const INCOME_COLOR := "var(--income-color)"
  const EXPENSE_COLOR := "var(--expense-color)"

  /** The balance's colour: the income colour for a balance of zero or more, the expense colour below. */
  function BalanceColor(balance: int): (c: string)
    ensures c == INCOME_COLOR <==> balance >= 0
    ensures c == EXPENSE_COLOR <==> balance < 0
  {
    if balance >= 0 then INCOME_COLOR else EXPENSE_COLOR
  }

  /** The balance shows in the income colour exactly when income covers expense. */
  lemma BalanceColorMeansCovered(txs: seq<Transaction>, ds: seq<Debt>)
    ensures BalanceColor(UpdateStats(txs, ds).currentBalance) == INCOME_COLOR
      <==> Sum(txs, OfKind(INCOME)) >= Sum(txs, OfKind(EXPENSE))
  {
  }

  // ---------------------------------------------------------------- monthly chart

  /** The record's month indexes one of the chart's twelve slots. Any other record (an Invalid
      Date gives NaN) reads a missing slot, and the loop throws. */
  predicate HasChartMonth(t: Transaction)
  {
    SlotOf(MonthOfYear, t).Some? && 0 <= SlotOf(MonthOfYear, t).value < 12
  }

  /** The `forEach` of `renderMonthlyChart`: twelve slots start at zero and every record adds its
      amount to the slot of its month, on the income side for income and the expense side
      otherwise. There is no range check: a record without a chart month stops the chart. */
  method MonthlyChart(txs: seq<Transaction>) returns (r: Option<seq<Bucket>>)
    ensures r.None? <==> exists t :: t in txs && !HasChartMonth(t)
    ensures r.Some? ==> r.value == Buckets(txs, MonthOfYear, 12)
  {
    var monthly := new Bucket[12](_ => Bucket(0, 0));
    BucketsStartEmpty(MonthOfYear, 12);
    var k := 0;
    while k < |txs|
      invariant 0 <= k <= |txs|
      invariant forall j :: 0 <= j < k ==> HasChartMonth(txs[j])
      invariant monthly[..] == Buckets(txs[..k], MonthOfYear, 12)
    {
      var t := txs[k];
      if !HasChartMonth(t) {
        return None;
      }
      var month := SlotOf(MonthOfYear, t).value;
      assert txs[..k + 1] == txs[..k] + [t];
      BucketsAdd(txs[..k], t, MonthOfYear, 12, month);
      if t.kind == INCOME {
        monthly[month] := monthly[month].(income := monthly[month].income + t.amount);
      } else {
        monthly[month] := monthly[month].(expense := monthly[month].expense + t.amount);
      }
      k := k + 1;
    }
    assert txs[..|txs|] == txs;
    return Some(monthly[..]);
  }
}
