/**
 * The account rules of the deposit and withdrawal views: the balance update and
 * the one-time seeding of the interest dates on the first deposit.
 */
module Ledger {
  import opened Common

  /** The part of an account's type that the deposit view reads. */
  datatype AccountType = AccountType(interestCalculationPerYear: int)

  /**
   * Months from the first deposit to the start of interest: twelve divided by the
   * number of interest calculations per year, the remainder dropped.
   */
  function MonthsToInterest(perYear: int): (months: nat)
    requires perYear > 0
    ensures months * perYear <= 12 < (months + 1) * perYear
  {
    12 / perYear
  }

  /** The floor characterisation determines the interval: no other count satisfies it. */
  lemma MonthsToInterestUnique(perYear: int, m: nat)
    requires perYear > 0
    requires m * perYear <= 12 < (m + 1) * perYear
    ensures m == MonthsToInterest(perYear)
  {
  }

  /** Quarterly gives three months, five per year drops the remainder, monthly gives one. */
  lemma MonthsToInterestExamples()
    ensures MonthsToInterest(4) == 3
    ensures MonthsToInterest(5) == 2
    ensures MonthsToInterest(12) == 1
  {
  }

  /** More than twelve calculations per year give no months at all. */
  lemma MonthsToInterestBeyondTwelve(perYear: int)
    requires perYear > 12
    ensures MonthsToInterest(perYear) == 0
  {
  }

  /** The three persisted fields a deposit or a withdrawal may change. */
  datatype AccountState = AccountState(
    balance: Money,
    initialDepositDate: Option<Timestamp>,
    interestStartDate: Option<Timestamp>)

  /** The two interest dates are either both unset or both set. */
  predicate DatesPaired(s: AccountState) {
    s.initialDepositDate.Some? <==> s.interestStartDate.Some?
  }

  /** Specification of a deposit of `amount` at instant `now`. */
  function Deposited(s: AccountState, amount: Money, now: Timestamp, perYear: int, cal: Calendar): AccountState
    requires s.initialDepositDate.None? ==> perYear > 0
  {
    if s.initialDepositDate.None? then
      AccountState(s.balance + amount, Some(now), Some(cal.addMonths(now, MonthsToInterest(perYear))))
    else
      s.(balance := s.balance + amount)
  }

  /** Specification of a withdrawal of `amount`. */
  function Withdrawn(s: AccountState, amount: Money): AccountState {
    s.(balance := s.balance - amount)
  }

  /**
   * An account as the two views see it. Only the three `AccountState` fields are
   * ever written; the account type is read and left alone.
   */
  class Account {
    var balance: Money
    var initialDepositDate: Option<Timestamp>
    var interestStartDate: Option<Timestamp>
    var accountType: AccountType

    constructor (balance: Money, initialDepositDate: Option<Timestamp>,
                 interestStartDate: Option<Timestamp>, accountType: AccountType)
      ensures this.balance == balance && this.accountType == accountType
      ensures this.initialDepositDate == initialDepositDate
      ensures this.interestStartDate == interestStartDate
    {
      this.balance := balance;
      this.initialDepositDate := initialDepositDate;
      this.interestStartDate := interestStartDate;
      this.accountType := accountType;
    }

    function State(): AccountState
      reads this
    {
      AccountState(balance, initialDepositDate, interestStartDate)
    }

    /**
     * Deposit `amount` at instant `now`. On the first deposit both interest dates are
     * seeded; afterwards they are never touched again. The interval is evaluated only
     * on the first deposit, so only then must the frequency be positive.
     */
    method Deposit(amount: Money, now: Timestamp, cal: Calendar)
      requires initialDepositDate.None? ==> accountType.interestCalculationPerYear > 0
      modifies this`balance, this`initialDepositDate, this`interestStartDate
      ensures balance == old(balance) + amount
      ensures old(initialDepositDate).None? ==>
        initialDepositDate == Some(now) &&
        interestStartDate == Some(cal.addMonths(now, MonthsToInterest(accountType.interestCalculationPerYear)))
      ensures old(initialDepositDate).Some? ==>
        initialDepositDate == old(initialDepositDate) && interestStartDate == old(interestStartDate)
      ensures old(DatesPaired(State())) ==> DatesPaired(State())
      ensures State() == Deposited(old(State()), amount, now, accountType.interestCalculationPerYear, cal)
    {
      if initialDepositDate.None? {
        var nextInterestMonth := MonthsToInterest(accountType.interestCalculationPerYear);
        initialDepositDate := Some(now);
        interestStartDate := Some(cal.addMonths(now, nextInterestMonth));
      }
      balance := balance + amount;
    }

    /** Withdraw `amount`. There is no sufficient-funds guard: the balance may become negative. */
    method Withdraw(amount: Money)
      modifies this`balance
      ensures balance == old(balance) - amount
      ensures State() == Withdrawn(old(State()), amount)
    {
      balance := balance - amount;
    }
  }

  /** One step of an account's history. */
  datatype Operation = DepositOf(amount: Money, now: Timestamp) | WithdrawalOf(amount: Money)

  function Apply(s: AccountState, op: Operation, perYear: int, cal: Calendar): AccountState
    requires perYear > 0
  {
    match op
    case DepositOf(amount, now) => Deposited(s, amount, now, perYear, cal)
    case WithdrawalOf(amount) => Withdrawn(s, amount)
  }

  /** The account state after the operations `ops`, in order. */
  function Replay(s: AccountState, ops: seq<Operation>, perYear: int, cal: Calendar): AccountState
    requires perYear > 0
    decreases |ops|
  {
    if ops == [] then s else Replay(Apply(s, ops[0], perYear, cal), ops[1..], perYear, cal)
  }

  /** Deposits minus withdrawals. */
  function NetFlow(ops: seq<Operation>): Money
    decreases |ops|
  {
    if ops == [] then 0
    else
      (match ops[0]
       case DepositOf(amount, _) => amount
       case WithdrawalOf(amount) => -amount) + NetFlow(ops[1..])
  }

  /** The balance is a running total: the opening balance plus deposits minus withdrawals. */
  lemma {:induction false} ReplayBalance(s: AccountState, ops: seq<Operation>, perYear: int, cal: Calendar)
    requires perYear > 0
    ensures Replay(s, ops, perYear, cal).balance == s.balance + NetFlow(ops)
    decreases |ops|
  {
    if ops != [] {
      ReplayBalance(Apply(s, ops[0], perYear, cal), ops[1..], perYear, cal);
    }
  }

  /** Once the interest dates are seeded, no later deposit or withdrawal resets them. */
  lemma {:induction false} ReplayKeepsSeededDates(s: AccountState, ops: seq<Operation>, perYear: int, cal: Calendar)
    requires perYear > 0
    requires s.initialDepositDate.Some?
    ensures Replay(s, ops, perYear, cal).initialDepositDate == s.initialDepositDate
    ensures Replay(s, ops, perYear, cal).interestStartDate == s.interestStartDate
    decreases |ops|
  {
    if ops != [] {
      ReplayKeepsSeededDates(Apply(s, ops[0], perYear, cal), ops[1..], perYear, cal);
    }
  }

  /** "Both unset or both set" holds after any history that starts from a state where it holds. */
  lemma {:induction false} ReplayPreservesPairing(s: AccountState, ops: seq<Operation>, perYear: int, cal: Calendar)
    requires perYear > 0
    requires DatesPaired(s)
    ensures DatesPaired(Replay(s, ops, perYear, cal))
    decreases |ops|
  {
    if ops != [] {
      ReplayPreservesPairing(Apply(s, ops[0], perYear, cal), ops[1..], perYear, cal);
    }
  }

  /**
   * On an account without an initial deposit date, the first deposit of a history
   * fixes both dates for good: the initial date is that deposit's instant and the
   * interest start lies the computed number of months after it.
   */
  lemma {:induction false} ReplayFirstDepositSeeds(s: AccountState, ops: seq<Operation>, k: nat, perYear: int, cal: Calendar)
    requires perYear > 0
    requires s.initialDepositDate.None?
    requires k < |ops| && ops[k].DepositOf?
    requires forall j :: 0 <= j < k ==> ops[j].WithdrawalOf?
    ensures Replay(s, ops, perYear, cal).initialDepositDate == Some(ops[k].now)
    ensures Replay(s, ops, perYear, cal).interestStartDate ==
      Some(cal.addMonths(ops[k].now, MonthsToInterest(perYear)))
    decreases k
  {
    var next := Apply(s, ops[0], perYear, cal);
    if k == 0 {
      ReplayKeepsSeededDates(next, ops[1..], perYear, cal);
    } else {
      ReplayFirstDepositSeeds(next, ops[1..], k - 1, perYear, cal);
    }
  }

  /** A history of withdrawals alone leaves the interest dates as they were. */
  lemma {:induction false} ReplayWithdrawalsKeepDates(s: AccountState, ops: seq<Operation>, perYear: int, cal: Calendar)
    requires perYear > 0
    requires forall j :: 0 <= j < |ops| ==> ops[j].WithdrawalOf?
    ensures Replay(s, ops, perYear, cal).initialDepositDate == s.initialDepositDate
    ensures Replay(s, ops, perYear, cal).interestStartDate == s.interestStartDate
    decreases |ops|
  {
    if ops != [] {
      ReplayWithdrawalsKeepDates(Apply(s, ops[0], perYear, cal), ops[1..], perYear, cal);
    }
  }

  /** A withdrawal larger than the balance leaves the account overdrawn: nothing refuses it. */
  lemma WithdrawalMayOverdraw(s: AccountState, amount: Money)
    requires 0 <= s.balance < amount
    ensures Withdrawn(s, amount).balance < 0
    ensures Withdrawn(s, amount).balance == s.balance - amount
  {
  }

  /**
   * A client of the class: a first deposit seeds the dates, a second one keeps them,
   * and a withdrawal larger than the balance is carried out.
   */
  method AccountScenario(cal: Calendar, t0: Timestamp, t1: Timestamp)
  {
    var acct := new Account(0, None, None, AccountType(4));
    acct.Deposit(10000, t0, cal);
    assert acct.initialDepositDate == Some(t0);
    assert acct.interestStartDate == Some(cal.addMonths(t0, 3));
    acct.Deposit(5000, t1, cal);
    assert acct.balance == 15000 && acct.initialDepositDate == Some(t0);
    acct.Withdraw(20000);
    assert acct.balance == -5000 && acct.interestStartDate == Some(cal.addMonths(t0, 3));
  }
}
