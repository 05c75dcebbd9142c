/**
 * The records both routes work on, as the ORM returns them with
 * `include: { category: true }`, and the filter-and-reduce sums over them.
 * Amounts are integer cents.
 */
module Ledger {
  import opened Calendar

  datatype Option<T> = None | Some(value: T)

  datatype Category = Category(id: int, name: string, kind: string, color: string)

  /** `kind` is the row's `type` column: "income", "expense" or any other text. */
  datatype Transaction = Transaction(id: int, description: string, amount: int, kind: string,
                                     date: Date, categoryId: int, category: Category, userId: int)

  const IncomeKind: string := "income"
  const ExpenseKind: string := "expense"

  /** `ts.filter(t => t.type === kind)` */
  function OfKind(ts: seq<Transaction>, kind: string): (r: seq<Transaction>)
    ensures forall t :: t in r <==> t in ts && t.kind == kind
    ensures forall t :: multiset(r)[t] == if t.kind == kind then multiset(ts)[t] else 0
    ensures |r| <= |ts|
  {
    if ts == [] then []
    else
      assert ts == [ts[0]] + ts[1..];
      (if ts[0].kind == kind then [ts[0]] else []) + OfKind(ts[1..], kind)
  }

  /**
   * `ts.reduce((sum, t) => sum + t.amount, 0)`: the sum of the amounts; with
   * no negative amount it is non-negative and at least every single amount.
   */
  function Total(ts: seq<Transaction>): (r: int)
    ensures (forall t :: t in ts ==> t.amount >= 0) ==> r >= 0 && forall t :: t in ts ==> t.amount <= r
  {
    if ts == [] then 0 else ts[0].amount + Total(ts[1..])
  }

  /** Summing a concatenation sums the parts. */
  lemma {:induction false} TotalAppend(a: seq<Transaction>, b: seq<Transaction>)
    ensures Total(a + b) == Total(a) + Total(b)
  {
    if a == [] {
      assert a + b == b;
    } else {
      assert (a + b)[1..] == a[1..] + b;
      TotalAppend(a[1..], b);
    }
  }

  /** What one row adds to the total of a kind. */
  function Share(t: Transaction, kind: string): int {
    if t.kind == kind then t.amount else 0
  }

  /** Every row's share of a kind, summed without filtering. */
  function ShareSum(ts: seq<Transaction>, kind: string): int {
    if ts == [] then 0 else Share(ts[0], kind) + ShareSum(ts[1..], kind)
  }

  /** Summing after the filter is the same as summing every row's share. */
  lemma {:induction false} FilteredTotalIsShareSum(ts: seq<Transaction>, kind: string)
    ensures Total(OfKind(ts, kind)) == ShareSum(ts, kind)
  {
    if ts != [] {
      FilteredTotalIsShareSum(ts[1..], kind);
      var rest := OfKind(ts[1..], kind);
      if ts[0].kind == kind {
        assert OfKind(ts, kind) == [ts[0]] + rest;
        assert ([ts[0]] + rest)[1..] == rest;
      } else {
        assert OfKind(ts, kind) == rest;
      }
    }
  }

  /** The amount of every row of the given kind, summed: `filter` then `reduce`. */
  function KindTotal(ts: seq<Transaction>, kind: string): (r: int)
    ensures r == ShareSum(ts, kind)
  {
    FilteredTotalIsShareSum(ts, kind);
    Total(OfKind(ts, kind))
  }

  /** Prepending a row adds its share and nothing else. */
  lemma KindTotalCons(t: Transaction, ts: seq<Transaction>, kind: string)
    ensures KindTotal([t] + ts, kind) == Share(t, kind) + KindTotal(ts, kind)
  {
    assert ([t] + ts)[1..] == ts;
  }
}
