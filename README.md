# Banking-System transactions: account and ledger rules in Dafny

This project models the rules inside the transaction views of a small Django banking
application (`Banking-System/transactions/views.py`). It covers four things:

- **Deposit** (`DepositMoneyView.form_valid`). On an account's first deposit, the one
  with no initial deposit date, it records the deposit instant. It sets the interest
  start date to a whole number of months later: twelve divided by the account type's
  interest calculations per year, with the remainder dropped. It always adds the amount
  to the balance. Only the balance and the two dates are written.
- **Withdrawal** (`WithdrawMoneyView.form_valid`). It subtracts the amount from the
  balance. Nothing stops the balance from going negative. Only the balance is written.
- **Report** (`TransactionRepostView.get_queryset`). It returns the requesting
  account's transactions, narrowed to an inclusive range of calendar dates when one is
  given, with duplicates removed.
- **Export** (`export_csv`). It writes a fixed header row, then one row per stored
  transaction of the account whose type is 1 (`DEPOSIT`) or 2 (`WITHDRAW`), in the
  order they are retrieved. Other type codes are skipped without notice.

Layout:

- `common.dfy` (module `Common`) holds the shared types. Money is an `int` count of
  cents, so decimal arithmetic is exact. Timestamps and dates are integers. The
  `Transaction` record lives here too. `Calendar` holds the two calendar operations
  as parameters: month addition (dateutil's `relativedelta`) and the calendar date of
  an instant in the configured time zone.
- `sequences.dfy` (module `Sequences`) models the query-set `filter` and `distinct`
  steps on plain sequences.
- `ledger.dfy` (module `Ledger`) holds the `Account` class. Its `Deposit` and
  `Withdraw` methods update the fields in place, and their `modifies` clauses name
  exactly the fields each view saves. Pure specifications (`Deposited`, `Withdrawn`)
  and a replay of operation histories (`Replay`) support the lemmas about many
  operations in a row.
- `report.dfy` (module `Report`) holds the report query.
- `export.dfy` (module `Export`) holds the export loop and the lemmas about its rows.

The interest-interval rule is `int(12 / n)` in the source. For positive `n`, this
float-then-truncate value equals floor division, and the model writes it as Dafny's
`12 / n`. The division runs only on the first deposit. So `Account.Deposit` requires a
positive frequency only when the initial deposit date is unset. A zero frequency
would raise a division error in exactly that case.

The views themselves do not check that an amount is positive. Any amount validation
belongs to the deposit and withdrawal forms, which are not part of this model. The
methods therefore accept any amount, including zero and negative ones.

## Model

| member | source | states |
|---|---|---|
| `Ledger.MonthsToInterest` | Banking-System/transactions/views.py:101-103 | For a positive number of calculations per year `n`, the interval `m` is the floor of 12/n: `m * n <= 12 < (m + 1) * n`. |
| `Ledger.MonthsToInterestUnique` | Banking-System/transactions/views.py:101-103 | The floor characterisation has exactly one solution, so it fully determines the interval. |
| `Ledger.MonthsToInterestExamples` | Banking-System/transactions/views.py:101-103 | 4 per year gives 3 months, 5 gives 2 (the remainder is dropped) and 12 gives 1. |
| `Ledger.MonthsToInterestBeyondTwelve` | Banking-System/transactions/views.py:101-103 | More than twelve calculations per year give an interval of 0 months, so the interest start is `addMonths(now, 0)`. |
| `Ledger.Account.Deposit` | Banking-System/transactions/views.py:94-118 | The balance grows by the amount. Without an initial deposit date, both dates are seeded: the initial date is `now` and the interest start is `now` plus the interval in months. With one set, both dates are unchanged. "Both set or both unset" is preserved. Only the three saved fields may change; the account type is left alone. |
| `Ledger.Account.Withdraw` | Banking-System/transactions/views.py:144-149 | The balance drops by the amount, with no lower limit. Only the balance may change; the interest dates are untouched. |
| `Ledger.WithdrawalMayOverdraw` | Banking-System/transactions/views.py:148-149 | A withdrawal larger than a non-negative balance leaves the balance negative, at exactly balance minus amount. |
| `Ledger.ReplayBalance` | Banking-System/transactions/views.py:111-149 | After any history of deposits and withdrawals, the balance is the opening balance plus the deposits minus the withdrawals. |
| `Ledger.ReplayKeepsSeededDates` | Banking-System/transactions/views.py:99-109 | Once the initial deposit date is set, no later history changes either interest date. |
| `Ledger.ReplayPreservesPairing` | Banking-System/transactions/views.py:99-109 | Any history keeps the two interest dates both set or both unset, given that this held at the start. |
| `Ledger.ReplayFirstDepositSeeds` | Banking-System/transactions/views.py:99-109 | On an account with no deposit yet, the first deposit of a history fixes the final dates: the initial date is that deposit's instant and the interest start is the interval in months after it. Earlier withdrawals and later deposits do not affect them. |
| `Ledger.ReplayWithdrawalsKeepDates` | Banking-System/transactions/views.py:144-149 | A history made only of withdrawals leaves both interest dates as they were. |
| `Sequences.Keep` | Banking-System/transactions/views.py:39-48 | A filter gives exactly the elements that satisfy the condition, never more of them than the input has. |
| `Sequences.KeepAppend` | Banking-System/transactions/views.py:39-48 | Filtering a concatenation filters each part and joins the results, so the filter keeps the elements' original relative order. |
| `Sequences.KeepNoDuplicates` | Banking-System/transactions/views.py:39-48 | Filtering a duplicate-free sequence leaves it duplicate-free. |
| `Sequences.Distinct` | Banking-System/transactions/views.py:51 | `distinct` keeps the same set of elements, removes every repetition and never lengthens the sequence. |
| `Sequences.DistinctOfNoDuplicates` | Banking-System/transactions/views.py:51 | On rows that are already pairwise distinct, `distinct` changes nothing. |
| `Report.OfAccount` | Banking-System/transactions/views.py:39-41 | Keeps exactly the transactions whose account is the given account. |
| `Report.OnDates` | Banking-System/transactions/views.py:47-48 | Keeps exactly the transactions whose calendar date lies in the range, both ends included. |
| `Report.ReportQuery` | Banking-System/transactions/views.py:38-51 | A transaction is in the report if and only if it is stored, belongs to the account, and (when a range is given) has a calendar date inside the range. The report has no duplicate entries. |
| `Report.KeepTwice` | Banking-System/transactions/views.py:39-48 | Filtering by account and then by date range is the same as one filter on both conditions. |
| `Report.ReportOfDistinctRows` | Banking-System/transactions/views.py:38-51 | When the stored rows are pairwise distinct, the report is exactly the selected transactions in retrieval order. |
| `Export.DataRowsCount` | Banking-System/transactions/views.py:180-186 | There is one data row per transaction of type 1 or 2. |
| `Export.DataRowsFollowTransactions` | Banking-System/transactions/views.py:180-186 | The i-th data row is the row of the i-th transaction of type 1 or 2, so the rows keep the input's relative order. Other types produce no row. |
| `Export.DataRowsExtend` | Banking-System/transactions/views.py:180-186 | Each further transaction adds only its own rows, at the end. |
| `Export.ExportCsv` | Banking-System/transactions/views.py:174-186 | The export is the header row followed by the data rows of the account's transactions. Its length is one plus the number of those transactions with type 1 or 2. |
| `Export.WriteTransactionRows` | Banking-System/transactions/views.py:180-186 | The loop appends, after the rows already written, exactly the data rows of the given transactions in order: one per type 1 or 2, none for other types. |
| `Export.ExportRowLayout` | Banking-System/transactions/views.py:175-186 | The export has one row more than the account has transactions of type 1 or 2. After the header, row i+1 belongs to the i-th such transaction, in retrieval order. It holds "DEPOSIT" for type 1 or "WITHDRAW" for type 2, then that transaction's timestamp, amount and balance after the transaction. |
| `Export.ExportExample` | Banking-System/transactions/views.py:175-186 | A deposit, a withdrawal and a record of type 9 export as the header and exactly two data rows. The type-9 record is absent. |

## Left out

- Outbound e-mail (`send_mail`) and the flash messages after each deposit or withdrawal. These are foreign I/O.
- The Django plumbing: login checks, the generic create and list views, form keyword arguments, initial form values, context data, templates and the HTTP response with its attachment header.
- The report view's `get`, which copies the date range out of a valid form. In the model, `ReportQuery` takes the range as an `Option`, which is `None` when no valid range was submitted. The debug `print` calls and the unused query in `get` (views.py:29) are left out as well.
- The ORM. Query sets are plain sequences. Saving with `update_fields` becomes a `modifies` clause naming exactly those fields.
- The creation of the `Transaction` record and the setting of its balance after the transaction. These happen in the form and model classes, which are not part of this model.
- The amount validation done by the deposit and withdrawal forms, which are not part of this model. The methods accept any amount.
- The text encoding done by the CSV writer, including quoting and the string forms of timestamps and decimals. Rows are sequences of field values.
- Real calendar arithmetic and time-zone handling. `Calendar.addMonths` and `Calendar.dateOf` are parameters with no properties assumed.
- The decimal field's digit limits. Money is an unbounded integer of cents, so overflow of the stored column is not modelled.
- Concurrency. Two simultaneous requests on one account can lose an update, since the source has no locking. The model is sequential.
- The export selects rows with `account_id` equal to the requesting user's id. The model takes the account id as a parameter. It does not model whether user ids and account ids coincide.
- `Sequences.Distinct`: SQL `DISTINCT` promises no order. The model keeps the first occurrence of each element, in order. Only the set of elements, the absence of repetitions, and the no-op on distinct rows are meant as claims.
- `Ledger.Account.Deposit`: requires a positive frequency when the initial deposit date is unset. For a zero frequency the source divides by zero at that point. For -12 <= n < 0, `int(12 / n)` is negative and the source seeds an interest start before `now`. For n < -12, `int` truncates toward zero, giving 0, and the interest start is `now` plus 0 months. None of these cases is modelled.
- `Ledger.Replay` and its lemmas assume a positive interest frequency throughout. They do not cover an account type whose zero frequency would fail only on the first deposit.
