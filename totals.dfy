/** The reductions the pages run over record lists: totals by type, per-slot totals
    (days of a month, months of a year) and per-category totals. */
module Totals {
  import opened Records
  import opened Seqs

  /** The two ways a date picks a chart slot. */
  datatype Axis = DayOfMonth | MonthOfYear

  /** The slot of a record: `getDate() - 1` or `getMonth()` of its date. An Invalid Date
      gives NaN, which fails every range test, so it has no slot. */
  function SlotOf(axis: Axis, t: Transaction): Option<int>
  {
    match t.date
    case None => None
    case Some(d) => Some(if axis == DayOfMonth then d.day - 1 else d.month)
  }

  /** `trx.category || 'other'`: the key a record is grouped under. */
  function CategoryKey(t: Transaction): (key: string)
    ensures key != ""
    ensures t.category != "" ==> key == t.category
    ensures t.category == "" ==> key == "other"
  {
    if t.category == "" then "other" else t.category
  }

  /** The records the income side of a slot or group counts; every other type goes to the expense side. */
  predicate IncomeSide(t: Transaction)
  {
    t.kind == INCOME
  }

  /** Which records a total adds up. */
  datatype Measure =
    | OfKind(kind: string)                          // records whose type is `kind`
    | Everything                                    // every record
    | InSlot(axis: Axis, slot: int, income: bool)   // one side of one slot
    | InRange(axis: Axis, count: nat, income: bool) // one side of slots 0 .. count - 1
    | InCategory(key: string, income: bool)         // one side of one category group

  /** What one record adds to a total. */
  function Share(m: Measure, t: Transaction): int
  {
    match m
    case OfKind(k) => if t.kind == k then t.amount else 0
    case Everything => t.amount
    case InSlot(axis, j, income) =>
      if SlotOf(axis, t) == Some(j) && IncomeSide(t) == income then t.amount else 0
    case InRange(axis, n, income) =>
      if SlotOf(axis, t).Some? && 0 <= SlotOf(axis, t).value < n && IncomeSide(t) == income then t.amount else 0
    case InCategory(key, income) =>
      if CategoryKey(t) == key && IncomeSide(t) == income then t.amount else 0
  }

  /** `s.reduce((sum, t) => sum + share(t), 0)`, folded left to right as `reduce` does. */
  function Sum(s: seq<Transaction>, m: Measure): int
  {
    if s == [] then 0 else Sum(s[..|s| - 1], m) + Share(m, s[|s| - 1])
  }

  lemma SumAppend(s: seq<Transaction>, t: Transaction, m: Measure)
    ensures Sum(s + [t], m) == Sum(s, m) + Share(m, t)
  {
    assert (s + [t])[..|s|] == s;
  }

  /** Totals add up over a concatenation. */
  lemma {:induction false} SumConcat(a: seq<Transaction>, b: seq<Transaction>, m: Measure)
    ensures Sum(a + b, m) == Sum(a, m) + Sum(b, m)
  {
    if b != [] {
      var b' := b[..|b| - 1];
      assert a + b == (a + b') + [b[|b| - 1]];
      SumAppend(a + b', b[|b| - 1], m);
      SumConcat(a, b', m);
      SumAppend(b', b[|b| - 1], m);
      assert b == b' + [b[|b| - 1]];
    } else {
      assert a + b == a;
    }
  }

  /** Prepending a record (as `unshift` does) adds its share. */
  lemma SumPrepend(t: Transaction, s: seq<Transaction>, m: Measure)
    ensures Sum([t] + s, m) == Share(m, t) + Sum(s, m)
  {
    SumConcat([t], s, m);
    assert [t] == [] + [t];
    SumAppend([], t, m);
  }

  /** A measure that splits record by record into two splits the total the same way. */
  lemma {:induction false} SumSplit(s: seq<Transaction>, m: Measure, m1: Measure, m2: Measure)
    requires forall t :: t in s ==> Share(m, t) == Share(m1, t) + Share(m2, t)
    ensures Sum(s, m) == Sum(s, m1) + Sum(s, m2)
  {
    if s != [] {
      SumSplit(s[..|s| - 1], m, m1, m2);
    }
  }

  /** A total over records that each add nothing is zero. */
  lemma {:induction false} SumOfNothing(s: seq<Transaction>, m: Measure)
    requires forall t :: t in s ==> Share(m, t) == 0
    ensures Sum(s, m) == 0
  {
    if s != [] {
      SumOfNothing(s[..|s| - 1], m);
    }
  }

  /** A total over records that each add a non-negative amount is non-negative. */
  lemma {:induction false} SumNonNegative(s: seq<Transaction>, m: Measure)
    requires forall t :: t in s ==> Share(m, t) >= 0
    ensures Sum(s, m) >= 0
  {
    if s != [] {
      SumNonNegative(s[..|s| - 1], m);
    }
  }

  /** When every record is income or expense, the two type totals make up the grand total. */
  lemma KindsPartition(s: seq<Transaction>)
    requires forall t :: t in s ==> t.kind == INCOME || t.kind == EXPENSE
    ensures Sum(s, OfKind(INCOME)) + Sum(s, OfKind(EXPENSE)) == Sum(s, Everything)
  {
    SumSplit(s, Everything, OfKind(INCOME), OfKind(EXPENSE));
  }

  /** One chart slot: the income and expense added into it. */
  datatype Bucket = Bucket(income: int, expense: int)

  /** The slots `0 .. n - 1` as the bucket loops leave them: slot `j` holds the amounts of the
      records whose slot is `j`, income records on the income side and all others on the expense side. */
  function Buckets(s: seq<Transaction>, axis: Axis, n: nat): (r: seq<Bucket>)
    ensures |r| == n
  {
    seq(n, j => Bucket(Sum(s, InSlot(axis, j, true)), Sum(s, InSlot(axis, j, false))))
  }

  /** Before any record is added, every slot is zero. */
  lemma BucketsStartEmpty(axis: Axis, n: nat)
    ensures forall j :: 0 <= j < n ==> Buckets([], axis, n)[j] == Bucket(0, 0)
  {
  }

  /** A record whose slot is outside `0 .. n - 1` (or that has none) changes no slot. */
  lemma BucketsSkip(s: seq<Transaction>, t: Transaction, axis: Axis, n: nat)
    requires !(SlotOf(axis, t).Some? && 0 <= SlotOf(axis, t).value < n)
    ensures Buckets(s + [t], axis, n) == Buckets(s, axis, n)
  {
    forall j | 0 <= j < n
      ensures Buckets(s + [t], axis, n)[j] == Buckets(s, axis, n)[j]
    {
      SumAppend(s, t, InSlot(axis, j, true));
      SumAppend(s, t, InSlot(axis, j, false));
    }
  }

  /** A record whose slot `k` is inside `0 .. n - 1` adds its amount to slot `k` only,
      on the income side for an income record and on the expense side otherwise. */
  lemma BucketsAdd(s: seq<Transaction>, t: Transaction, axis: Axis, n: nat, k: int)
    requires SlotOf(axis, t) == Some(k) && 0 <= k < n
    ensures var b := Buckets(s, axis, n)[k];
      Buckets(s + [t], axis, n) ==
        Buckets(s, axis, n)[k := if IncomeSide(t) then b.(income := b.income + t.amount)
                                 else b.(expense := b.expense + t.amount)]
  {
    forall j | 0 <= j < n
      ensures Buckets(s + [t], axis, n)[j] == Buckets(s, axis, n)[j] || j == k
    {
      SumAppend(s, t, InSlot(axis, j, true));
      SumAppend(s, t, InSlot(axis, j, false));
    }
    SumAppend(s, t, InSlot(axis, k, true));
    SumAppend(s, t, InSlot(axis, k, false));
  }

  /** Income plus expense over all slots of a chart. */
  function SlotsTotal(bs: seq<Bucket>): int
  {
    if bs == [] then 0 else SlotsTotal(bs[..|bs| - 1]) + bs[|bs| - 1].income + bs[|bs| - 1].expense
  }

  /** Every record whose slot is in range is counted exactly once across the slots, and no other record is. */
  lemma {:induction false} BucketsCountInRangeOnce(s: seq<Transaction>, axis: Axis, n: nat)
    ensures SlotsTotal(Buckets(s, axis, n)) == Sum(s, InRange(axis, n, true)) + Sum(s, InRange(axis, n, false))
  {
    if n == 0 {
      SumOfNothing(s, InRange(axis, 0, true));
      SumOfNothing(s, InRange(axis, 0, false));
    } else {
      BucketsCountInRangeOnce(s, axis, n - 1);
      assert Buckets(s, axis, n)[..n - 1] == Buckets(s, axis, n - 1);
      SumSplit(s, InRange(axis, n, true), InRange(axis, n - 1, true), InSlot(axis, n - 1, true));
      SumSplit(s, InRange(axis, n, false), InRange(axis, n - 1, false), InSlot(axis, n - 1, false));
    }
  }

  /** When every record's slot is in range, the slots together hold every amount. */
  lemma BucketsCountAll(s: seq<Transaction>, axis: Axis, n: nat)
    requires forall t :: t in s ==> SlotOf(axis, t).Some? && 0 <= SlotOf(axis, t).value < n
    ensures SlotsTotal(Buckets(s, axis, n)) == Sum(s, Everything)
  {
    BucketsCountInRangeOnce(s, axis, n);
    SumSplit(s, Everything, InRange(axis, n, true), InRange(axis, n, false));
  }

  /** What one debt adds to the total of `kind`. */
  function DebtShare(d: Debt, kind: string): int
  {
    if d.kind == kind then d.amount else 0
  }

  /** `debts.reduce(...)` adding the amounts of the debts whose type is `kind`. */
  function DebtSum(ds: seq<Debt>, kind: string): int
  {
    if ds == [] then 0 else DebtSum(ds[..|ds| - 1], kind) + DebtShare(ds[|ds| - 1], kind)
  }

  /** Debt totals add up over a concatenation. */
  lemma {:induction false} DebtSumConcat(a: seq<Debt>, b: seq<Debt>, kind: string)
    ensures DebtSum(a + b, kind) == DebtSum(a, kind) + DebtSum(b, kind)
  {
    if b != [] {
      var b' := b[..|b| - 1];
      assert a + b == (a + b') + [b[|b| - 1]];
      assert (a + b)[..|a + b| - 1] == a + b';
      DebtSumConcat(a, b', kind);
    } else {
      assert a + b == a;
    }
  }

  /** A debt put in front adds its amount to the total of its own type only. */
  lemma DebtSumPrepend(d: Debt, ds: seq<Debt>, kind: string)
    ensures DebtSum([d] + ds, kind) == DebtShare(d, kind) + DebtSum(ds, kind)
  {
    DebtSumConcat([d], ds, kind);
    assert [d][..0] == [];
  }

  /** Removing the debt at `index` takes its amount out of the total of its type only. */
  lemma DebtSumRemoveAt(ds: seq<Debt>, index: int, kind: string)
    requires 0 <= index < |ds|
    ensures DebtSum(RemoveAt(ds, index), kind) == DebtSum(ds, kind) - DebtShare(ds[index], kind)
  {
    assert ds == ds[..index] + [ds[index]] + ds[index + 1..];
    DebtSumConcat(ds[..index], ds[index + 1..], kind);
    DebtSumConcat(ds[..index] + [ds[index]], ds[index + 1..], kind);
    DebtSumConcat(ds[..index], [ds[index]], kind);
    assert [ds[index]][..0] == [];
  }

  /** Removing the record at `index` takes its share out of every total. */
  lemma {:induction false} SumRemoveAt(s: seq<Transaction>, index: int, m: Measure)
    requires 0 <= index < |s|
    ensures Sum(RemoveAt(s, index), m) == Sum(s, m) - Share(m, s[index])
  {
    assert s == s[..index] + [s[index]] + s[index + 1..];
    SumConcat(s[..index], s[index + 1..], m);
    SumConcat(s[..index] + [s[index]], s[index + 1..], m);
    SumAppend(s[..index], s[index], m);
  }
}
