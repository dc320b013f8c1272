/** Values shared by the ledger, the report and the export of the transactions app. */
module Common {

  datatype Option<+T> = None | Some(value: T)

  /** A currency amount in the smallest unit (cents), so that decimal arithmetic is exact. */
  type Money = int

  /** An instant, as an abstract count (for example microseconds since the epoch). */
  type Timestamp = int

  /** A calendar day, as an ordinal that grows with time. */
  type Date = int

  /** The primary key of an account. */
  type AccountId = int

  /**
   * The calendar the application runs against: month addition that respects
   * month lengths (dateutil's relativedelta) and the calendar date of an instant
   * in the configured time zone. Both are external and kept abstract.
   */
  datatype Calendar = Calendar(addMonths: (Timestamp, nat) -> Timestamp, dateOf: Timestamp -> Date)

  /** The transaction type codes used by the export: 1 is a deposit, 2 a withdrawal. */
  const DEPOSIT: int := 1
  const WITHDRAWAL: int := 2

  /**
   * One stored transaction record. The record is written by the form and model
   * layer, so the fields here are taken as given.
   */
  datatype Transaction = Transaction(
    id: nat,
    account: AccountId,
    transactionType: int,
    amount: Money,
    timestamp: Timestamp,
    balanceAfterTransaction: Money)
}
