/**
 * The statement export: a fixed header row, then one row per deposit or
 * withdrawal of the account, in retrieval order. Rows are sequences of field
 * values; their rendering as comma-separated text is left to the CSV writer.
 */
module Export {
  import opened Common
  import opened Sequences
  import Report

  /** One field of an exported row. */
  datatype Field = Text(text: string) | Time(instant: Timestamp) | Amount(value: Money)

  type Row = seq<Field>

  function HeaderRow(): Row {
    [Text("TRANSACTION TYPE"), Text("DATE"), Text("AMOUNT"), Text("BALANCE AFTER TRANSACTION")]
  }

  /** The label column: "DEPOSIT" for code 1, "WITHDRAW" for code 2, nothing for any other code. */
  function Label(transactionType: int): Option<string> {
    if transactionType == DEPOSIT then Some("DEPOSIT")
    else if transactionType == WITHDRAWAL then Some("WITHDRAW")
    else None
  }

  /** The transactions the export writes a row for: those whose type has a label. */
  predicate Exported(t: Transaction) {
    Label(t.transactionType).Some?
  }

  /** The row written for an exported transaction. */
  function DataRow(t: Transaction): Row
    requires Exported(t)
  {
    [Text(Label(t.transactionType).value), Time(t.timestamp), Amount(t.amount), Amount(t.balanceAfterTransaction)]
  }

  /** The rows one transaction contributes: its data row, or none for an unknown type. */
  function RowsFor(t: Transaction): seq<Row> {
    if Exported(t) then [DataRow(t)] else []
  }

  /** The data rows of `ts`, taken one transaction at a time from the front. */
  function DataRows(ts: seq<Transaction>): seq<Row>
    decreases |ts|
  {
    if ts == [] then [] else DataRows(ts[..|ts| - 1]) + RowsFor(ts[|ts| - 1])
  }

  /** One data row per exported transaction: the others contribute nothing. */
  lemma {:induction false} DataRowsCount(ts: seq<Transaction>)
    ensures |DataRows(ts)| == |Keep(ts, Exported)|
    decreases |ts|
  {
    if ts != [] {
      DataRowsCount(ts[..|ts| - 1]);
    }
  }

  /**
   * The data rows are exactly the exported transactions, each mapped to its row, in
   * their original relative order.
   */
  lemma {:induction false} DataRowsFollowTransactions(ts: seq<Transaction>)
    ensures |DataRows(ts)| == |Keep(ts, Exported)|
    ensures forall i :: 0 <= i < |DataRows(ts)| ==> DataRows(ts)[i] == DataRow(Keep(ts, Exported)[i])
    decreases |ts|
  {
    if ts != [] {
      DataRowsFollowTransactions(ts[..|ts| - 1]);
    }
  }

  /**
   * Build the export of the account `accountId` out of the stored transactions: the
   * header, then the rows of the account's deposits and withdrawals.
   */
  method ExportCsv(all: seq<Transaction>, accountId: AccountId) returns (rows: seq<Row>)
    ensures rows == [HeaderRow()] + DataRows(Report.OfAccount(all, accountId))
    ensures |rows| == 1 + |Keep(Report.OfAccount(all, accountId), Exported)|
  {
    rows := [HeaderRow()];
    var expenses := Report.OfAccount(all, accountId);
    rows := WriteTransactionRows(rows, expenses);
    DataRowsCount(expenses);
  }

  /**
   * The export's loop: after the rows already written, one row for each deposit and
   * each withdrawal as the loop meets them, and nothing for other types.
   */
  method WriteTransactionRows(written: seq<Row>, expenses: seq<Transaction>) returns (rows: seq<Row>)
    ensures rows == written + DataRows(expenses)
  {
    rows := written;
    var i := 0;
    while i < |expenses|
      invariant 0 <= i <= |expenses|
      invariant rows == written + DataRows(expenses[..i])
    {
      var expense := expenses[i];
      DataRowsExtend(expenses, i);
      if expense.transactionType == 1 {
        rows := rows + [[Text("DEPOSIT"), Time(expense.timestamp), Amount(expense.amount), Amount(expense.balanceAfterTransaction)]];
      } else if expense.transactionType == 2 {
        rows := rows + [[Text("WITHDRAW"), Time(expense.timestamp), Amount(expense.amount), Amount(expense.balanceAfterTransaction)]];
      }
      i := i + 1;
    }
    assert expenses[..i] == expenses;
  }

  /** One more transaction adds exactly its own rows at the end. */
  lemma DataRowsExtend(ts: seq<Transaction>, i: nat)
    requires i < |ts|
    ensures DataRows(ts[..i + 1]) == DataRows(ts[..i]) + RowsFor(ts[i])
  {
    assert ts[..i + 1][..i] == ts[..i];
  }

  /**
   * The layout of the whole export: after the header, row i + 1 is the labelled row
   * of the i-th deposit or withdrawal of the account, in retrieval order.
   */
  lemma ExportRowLayout(all: seq<Transaction>, a: AccountId)
    ensures var ex := Keep(Report.OfAccount(all, a), Exported);
      var rows := [HeaderRow()] + DataRows(Report.OfAccount(all, a));
      |rows| == 1 + |ex| &&
      forall i :: 0 <= i < |ex| ==>
        rows[i + 1] == [Text(if ex[i].transactionType == DEPOSIT then "DEPOSIT" else "WITHDRAW"),
                        Time(ex[i].timestamp), Amount(ex[i].amount), Amount(ex[i].balanceAfterTransaction)]
  {
    DataRowsFollowTransactions(Report.OfAccount(all, a));
  }

  /** A deposit, a withdrawal and a record of unknown type 9 give the header and two data rows. */
  lemma ExportExample(a: AccountId, t0: Timestamp, t1: Timestamp, t2: Timestamp)
    ensures var ts := [Transaction(1, a, 1, 10, t0, 10), Transaction(2, a, 2, 5, t1, 5), Transaction(3, a, 9, 1, t2, 4)];
      [HeaderRow()] + DataRows(ts) ==
      [HeaderRow(),
       [Text("DEPOSIT"), Time(t0), Amount(10), Amount(10)],
       [Text("WITHDRAW"), Time(t1), Amount(5), Amount(5)]]
  {
    var ts := [Transaction(1, a, 1, 10, t0, 10), Transaction(2, a, 2, 5, t1, 5), Transaction(3, a, 9, 1, t2, 4)];
    DataRowsExtend(ts, 0);
    DataRowsExtend(ts, 1);
    DataRowsExtend(ts, 2);
    assert ts[..0] == [] && ts[..3] == ts;
  }
}
