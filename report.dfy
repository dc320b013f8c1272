/**
 * The transaction report: the requesting account's transactions, narrowed to an
 * optional inclusive range of calendar dates, with duplicates removed.
 */
module Report {
  import opened Common
  import opened Sequences

  /** An inclusive range of calendar dates, as the report form supplies it. */
  datatype DateRange = DateRange(start: Date, end: Date)

  /** Whether `d` lies in the range, both ends included. */
  predicate InRange(range: DateRange, d: Date) {
    range.start <= d <= range.end
  }

  /** The membership test the report applies to one transaction. */
  predicate Selected(t: Transaction, account: AccountId, range: Option<DateRange>, cal: Calendar) {
    t.account == account && (range.Some? ==> InRange(range.value, cal.dateOf(t.timestamp)))
  }

  /** The transactions that belong to `account`, in retrieval order. */
  function OfAccount(all: seq<Transaction>, account: AccountId): (r: seq<Transaction>)
    ensures forall t :: t in r <==> t in all && t.account == account
  {
    Keep(all, (t: Transaction) => t.account == account)
  }

  /** Those of `ts` whose calendar date lies in `range`, in their original order. */
  function OnDates(ts: seq<Transaction>, range: DateRange, cal: Calendar): (r: seq<Transaction>)
    ensures forall t :: t in r <==> t in ts && InRange(range, cal.dateOf(t.timestamp))
  {
    Keep(ts, (t: Transaction) => InRange(range, cal.dateOf(t.timestamp)))
  }

  /**
   * The report's query set. `range` is None when no valid date range was submitted,
   * in which case the account's whole history is reported.
   */
  function ReportQuery(all: seq<Transaction>, account: AccountId, range: Option<DateRange>, cal: Calendar): (r: seq<Transaction>)
    ensures forall t :: t in r <==> t in all && Selected(t, account, range, cal)
    ensures NoDuplicates(r)
    ensures |r| <= |all|
  {
    var mine := OfAccount(all, account);
    var dated := if range.Some? then OnDates(mine, range.value, cal) else mine;
    Distinct(dated)
  }

  /**
   * When the stored rows are pairwise distinct, removing duplicates drops nothing:
   * the report is exactly the selected transactions in retrieval order.
   */
  lemma ReportOfDistinctRows(all: seq<Transaction>, account: AccountId, range: Option<DateRange>, cal: Calendar)
    requires NoDuplicates(all)
    ensures ReportQuery(all, account, range, cal) == Keep(all, (t: Transaction) => Selected(t, account, range, cal))
  {
    var mine := OfAccount(all, account);
    KeepNoDuplicates(all, (t: Transaction) => t.account == account);
    var dated := if range.Some? then OnDates(mine, range.value, cal) else mine;
    if range.Some? {
      KeepNoDuplicates(mine, (t: Transaction) => InRange(range.value, cal.dateOf(t.timestamp)));
    }
    DistinctOfNoDuplicates(dated);
    KeepTwice(all, account, range, cal);
  }

  /** Filtering by account and then by date is filtering by both at once. */
  lemma {:induction false} KeepTwice(all: seq<Transaction>, account: AccountId, range: Option<DateRange>, cal: Calendar)
    ensures (if range.Some? then OnDates(OfAccount(all, account), range.value, cal) else OfAccount(all, account))
            == Keep(all, (t: Transaction) => Selected(t, account, range, cal))
    decreases |all|
  {
    if all != [] {
      KeepTwice(all[..|all| - 1], account, range, cal);
    }
  }
}
