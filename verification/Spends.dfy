/** The per-payer spend accumulator that the policy engine reads. */
module Spends {
  import opened Outcomes
  import opened Wallet

  /** `bucket` is the UTC day that `daily` belongs to; a fresh row belongs to no day. */
  datatype SpendRow = SpendRow(total: real, bucket: Option<int>, daily: real)

  type Book = map<Key, SpendRow>

  function RowOf(b: Book, k: Key): SpendRow {
    if k in b then b[k] else SpendRow(0.0, None, 0.0)
  }

  /** Adds a settled spend, rolling the daily part forward when the day has changed. */
  function RecordSpend(b: Book, k: Key, amount: real, today: int): Outcome<Book> {
    if amount <= 0.0 then Thrown(b, Invalid)
    else
      var row := RowOf(b, k);
      Done(b[k := SpendRow(row.total + amount, Some(today), if row.bucket == Some(today) then row.daily + amount else amount)])
  }

  /** A spend is recorded exactly if it is positive; otherwise the book stays as it is. */
  lemma RecordOutcome(b: Book, k: Key, amount: real, today: int)
    ensures var o := RecordSpend(b, k, amount, today);
            && (o.Done? <==> amount > 0.0) && (o.Thrown? ==> o == Thrown(b, Invalid))
            && (o.Done? ==> TotalSpent(o.state, k) == TotalSpent(b, k) + amount && DailySpent(o.state, k, today) == DailySpent(b, k, today) + amount)
            && (forall j | j != k :: RowOf(o.state, j) == RowOf(b, j))
  {
  }

  function TotalSpent(b: Book, k: Key): real {
    RowOf(b, k).total
  }

  function DailySpent(b: Book, k: Key, today: int): real {
    if RowOf(b, k).bucket == Some(today) then RowOf(b, k).daily else 0.0
  }
}
