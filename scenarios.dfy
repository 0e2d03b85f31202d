/** Whole sessions (salary and rent, refused withdrawals, an early close, a
    close, a reopen), proved from the session operations' contracts alone. */
module Scenarios {
  import opened Text
  import opened Filtering
  import opened Transactions
  import opened Accounts
  import opened Bank

  /** Salary in, rent out: 300 remain over three ledger entries. */
  method SalaryRentScenario(date: string, salary: string, rent: string)
    returns (balance: real, entries: seq<Transaction>)
    requires !IsBlank(salary) && !IsBlank(rent)
    ensures balance == 300.0
    ensures entries == [Transaction(OpeningEntry, 0.0, OpeningDescription, date),
                        Transaction(DepositEntry, 500.0, salary, date),
                        Transaction(WithdrawalEntry, 200.0, rent, date)]
  {
    var session := new Session();
    var r := session.OpenAccount("40200000000000000001", "044525225", "770701001", date);
    var account := session.currentAccount;
    r := session.Deposit(500.0, salary, date);
    r := session.Withdraw(200.0, rent, date);
    balance, entries := account.balance, account.transactions;
  }

  /** An over-limit and an over-balance withdrawal are refused and leave the
      balance and the ledger as they were. */
  method RefusedWithdrawalScenario(date: string, salary: string)
    returns (tooLarge: Outcome, overdrawn: Outcome, balance: real, entries: seq<Transaction>)
    requires !IsBlank(salary)
    ensures tooLarge == AmountTooLarge && overdrawn == InsufficientFunds
    ensures balance == 300.0
    ensures entries == [Transaction(OpeningEntry, 0.0, OpeningDescription, date),
                        Transaction(DepositEntry, 300.0, salary, date)]
  {
    var session := new Session();
    var r := session.OpenAccount("40200000000000000001", "044525225", "770701001", date);
    var account := session.currentAccount;
    r := session.Deposit(300.0, salary, date);
    tooLarge := session.Withdraw(1000000.01, "", date);
    overdrawn := session.Withdraw(300.01, "", date);
    balance, entries := account.balance, account.transactions;
  }

  /** Closing is refused while money remains. */
  method EarlyCloseScenario(date: string, salary: string)
    returns (earlyClose: Outcome, open: bool, entries: seq<Transaction>)
    requires !IsBlank(salary)
    ensures earlyClose == FundsRemain && open
    ensures entries == [Transaction(OpeningEntry, 0.0, OpeningDescription, date),
                        Transaction(DepositEntry, 300.0, salary, date)]
  {
    var session := new Session();
    var r := session.OpenAccount("40200000000000000001", "044525225", "770701001", date);
    var account := session.currentAccount;
    r := session.Deposit(300.0, salary, date);
    earlyClose := session.CloseAccount(date);
    open, entries := account.isOpen, account.transactions;
  }

  /** Once everything is withdrawn (under the default description) the close
      succeeds: open, deposit, withdrawal, closing entry; afterwards there is
      no active account, so a later deposit is refused. */
  method CloseScenario(date: string, salary: string)
    returns (close: Outcome, entries: nat, closed: bool, lateDeposit: Outcome)
    ensures close == Done && entries == 4 && closed
    ensures lateDeposit == NoActiveAccount
  {
    var session := new Session();
    var r := session.OpenAccount("40200000000000000001", "044525225", "770701001", date);
    var account := session.currentAccount;
    r := session.Deposit(300.0, salary, date);
    r := session.Withdraw(300.0, " ", date);
    assert account.transactions[2].description == DefaultWithdrawalDescription;
    close := session.CloseAccount(date);
    entries, closed := |account.transactions|, !account.isOpen;
    lateDeposit := session.Deposit(10.0, salary, date);
  }

  /** Amounts with more than two decimals pass validation, so a residue below
      the minimum amount can remain: it cannot be withdrawn, and it blocks the
      close. */
  method SubCentResidueScenario(date: string, note: string)
    returns (balance: real, residueWithdrawal: Outcome, close: Outcome, open: bool)
    requires !IsBlank(note)
    ensures balance == 0.005
    ensures residueWithdrawal == AmountTooSmall && close == FundsRemain && open
  {
    var session := new Session();
    var r := session.OpenAccount("40200000000000000001", "044525225", "770701001", date);
    var account := session.currentAccount;
    r := session.Deposit(0.015, note, date);
    r := session.Withdraw(0.01, note, date);
    residueWithdrawal := session.Withdraw(0.005, note, date);
    close := session.CloseAccount(date);
    balance, open := account.balance, account.isOpen;
  }

  /** A second account can be opened only after the first is closed, and may
      reuse its number; the closed one stays registered and can still be found. */
  method ReopenScenario(date: string)
    returns (secondOpen: Outcome, registeredBefore: nat, reopen: Outcome, registeredAfter: nat,
             byNumber: nat)
    ensures secondOpen == AccountAlreadyOpen && registeredBefore == 1
    ensures reopen == Done && registeredAfter == 2
    ensures byNumber == 2
  {
    var session := new Session();
    var r := session.OpenAccount("40200000000000000001", "044525225", "770701001", date);
    secondOpen := session.OpenAccount("40200000000000000002", "044525225", "770701001", date);
    registeredBefore := |session.accounts|;
    r := session.CloseAccount(date);
    reopen := session.OpenAccount("40200000000000000001", "044525225", "770701001", date);
    registeredAfter := |session.accounts|;
    var found := session.SearchAccounts(1, "40200000000000000001");
    byNumber := |found.matches|;
    var p := AccountPredicate(Number, "40200000000000000001");
    assert p(session.accounts[0]) && p(session.accounts[1]);
    FilterAll(session.accounts, p);
  }
}
