/** class BankAccount: identity fields, a balance, an append-only ledger and an
    open flag. Its mutators carry no guards of their own; the session checks
    status, amount and funds before calling them. */
module Accounts {
  import opened Transactions

  class BankAccount {
    const accountNumber: string
    const bik: string
    const kpp: string
    var balance: real
    var transactions: seq<Transaction>
    var isOpen: bool

    /** The account's ledger invariant: it begins with the single opening
        entry, and the balance is the signed sum of the ledger. */
    ghost predicate Valid()
      reads this
    {
      |transactions| >= 1 &&
      transactions[0].kind == OpeningEntry &&
      transactions[0].amount == 0.0 &&
      (forall i :: 1 <= i < |transactions| ==> transactions[i].kind != OpeningEntry) &&
      balance == LedgerBalance(transactions)
    }

    /** A new account: balance 0, open, and a ledger holding only the opening entry. */
    constructor (accountNumber: string, bik: string, kpp: string, date: string)
      ensures Valid()
      ensures this.accountNumber == accountNumber && this.bik == bik && this.kpp == kpp
      ensures balance == 0.0 && isOpen
      ensures transactions == [Transaction(OpeningEntry, 0.0, OpeningDescription, date)]
    {
      this.accountNumber := accountNumber;
      this.bik := bik;
      this.kpp := kpp;
      balance := 0.0;
      transactions := [Transaction(OpeningEntry, 0.0, OpeningDescription, date)];
      isOpen := true;
      new;
      LedgerBalanceSnoc([], transactions[0]);
      assert [] + [transactions[0]] == transactions;
    }

    method Deposit(amount: real, description: string, date: string)
      requires Valid()
      modifies this
      ensures Valid()
      ensures balance == old(balance) + amount
      ensures transactions == old(transactions) + [Transaction(DepositEntry, amount, description, date)]
      ensures isOpen == old(isOpen)
    {
      LedgerBalanceSnoc(transactions, Transaction(DepositEntry, amount, description, date));
      balance := balance + amount;
      transactions := transactions + [Transaction(DepositEntry, amount, description, date)];
    }

    method Withdraw(amount: real, description: string, date: string)
      requires Valid()
      modifies this
      ensures Valid()
      ensures balance == old(balance) - amount
      ensures transactions == old(transactions) + [Transaction(WithdrawalEntry, amount, description, date)]
      ensures isOpen == old(isOpen)
    {
      LedgerBalanceSnoc(transactions, Transaction(WithdrawalEntry, amount, description, date));
      balance := balance - amount;
      transactions := transactions + [Transaction(WithdrawalEntry, amount, description, date)];
    }

    method Close(date: string)
      requires Valid()
      modifies this
      ensures Valid()
      ensures !isOpen && balance == old(balance)
      ensures transactions == old(transactions) + [Transaction(ClosingEntry, 0.0, ClosingDescription, date)]
    {
      LedgerBalanceSnoc(transactions, Transaction(ClosingEntry, 0.0, ClosingDescription, date));
      isOpen := false;
      transactions := transactions + [Transaction(ClosingEntry, 0.0, ClosingDescription, date)];
    }
  }
}
