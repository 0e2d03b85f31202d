/** class Main of the source: the session state (the current account and the
    registry of every account opened), the guards in front of every account
    operation, and the two linear searches. Console reads become parameters,
    console messages become the returned outcome. */
module Bank {
  import opened Wrappers
  import opened Text
  import opened Filtering
  import opened Transactions
  import opened Accounts

  const MinAmount: real := 0.01
  const MaxAmount: real := 1000000.0
  /** Amount search accepts entries within this distance of the query. */
  const AmountTolerance: real := 0.001

  const DefaultDepositDescription: string := "Пополнение счета"
  const DefaultWithdrawalDescription: string := "Снятие наличных"

  /** What a session command reports; `Done` is success, every other value is
      a refusal that leaves the state as it was. */
  datatype Outcome =
    | Done
    | NoActiveAccount
    | AccountAlreadyOpen
    | AmountTooSmall
    | AmountTooLarge
    | InsufficientFunds
    | FundsRemain
    | NoAccounts
    | UnknownSearchType

  /** validateAmount: below the minimum first, then above the maximum. */
  function ValidateAmount(amount: real): (r: Outcome)
    ensures r == Done <==> MinAmount <= amount <= MaxAmount
    ensures r == AmountTooSmall <==> amount < MinAmount
    ensures r == AmountTooLarge <==> MaxAmount < amount
  {
    if amount < MinAmount then AmountTooSmall
    else if amount > MaxAmount then AmountTooLarge
    else Done
  }

  /** The description actually stored: the user's text unless it is blank. */
  function DescriptionOrDefault(raw: string, fallback: string): (d: string)
    ensures !IsBlank(fallback) ==> !IsBlank(d)
    ensures d == raw || d == fallback
    ensures !IsBlank(raw) ==> d == raw
    ensures IsBlank(raw) ==> d == fallback
  {
    if IsBlank(raw) then fallback else raw
  }

  /** Neither default description is itself blank, so no stored deposit or
      withdrawal description is blank. */
  lemma DefaultsNotBlank(raw: string)
    ensures !IsBlank(DescriptionOrDefault(raw, DefaultDepositDescription))
    ensures !IsBlank(DescriptionOrDefault(raw, DefaultWithdrawalDescription))
  {
    BlankIffAllTrimmable(DefaultDepositDescription);
    BlankIffAllTrimmable(DefaultWithdrawalDescription);
    assert !IsTrimmable(DefaultDepositDescription[0]);
    assert !IsTrimmable(DefaultWithdrawalDescription[0]);
  }

  /** Entries written through the session carry a validated amount;
      opening and closing entries carry 0. */
  predicate AmountFits(t: Transaction) {
    if t.kind == DepositEntry || t.kind == WithdrawalEntry
    then MinAmount <= t.amount <= MaxAmount
    else t.amount == 0.0
  }

  /** What the session's guards keep true of every account it has opened, on
      top of the account's own ledger invariant: the balance never goes below
      zero, a closed account holds nothing, a closing entry appears exactly
      when the account is closed and then only as the last entry, and every
      amount passed validation. */
  ghost predicate Guarded(a: BankAccount)
    reads a
  {
    a.Valid() &&
    a.balance >= 0.0 &&
    (!a.isOpen ==> a.balance == 0.0) &&
    (forall i :: 0 <= i < |a.transactions| ==>
        (a.transactions[i].kind == ClosingEntry <==> !a.isOpen && i == |a.transactions| - 1)) &&
    (forall i :: 0 <= i < |a.transactions| ==> AmountFits(a.transactions[i]))
  }

  /** In a guarded account the withdrawals never exceed the deposits. */
  lemma WithdrawalsCovered(a: BankAccount)
    requires Guarded(a)
    ensures Total(a.transactions, WithdrawalEntry) <= Total(a.transactions, DepositEntry)
    ensures Total(a.transactions, WithdrawalEntry) >= 0.0
  {
    TotalNonNegative(a.transactions, WithdrawalEntry);
  }

  /** Search criteria of the transaction search. */
  datatype TxCriterion = ByKind(kindText: string) | ByAmount(value: real) | ByDescription(text: string)

  /** `Math.abs(amount - value) < EPSILON`, on exact reals. */
  predicate AmountNear(amount: real, value: real)
    ensures AmountNear(amount, value) <==> value - AmountTolerance < amount < value + AmountTolerance
  {
    (if amount >= value then amount - value else value - amount) < AmountTolerance
  }

  /** One entry against one search criterion: a kind query matches exactly
      the entries of the kind it names (none when it names no kind), an amount
      query the entries strictly within the tolerance, a description query the
      entries whose description contains it, ignoring case. */
  predicate TxMatches(t: Transaction, c: TxCriterion)
    ensures c.ByKind? ==> (TxMatches(t, c) <==> LabelKind(c.kindText) == Some(t.kind))
    ensures c.ByAmount? ==>
      (TxMatches(t, c) <==> c.value - AmountTolerance < t.amount < c.value + AmountTolerance)
    ensures c.ByDescription? ==>
      (TxMatches(t, c) <==> exists k :: OccursAt(Lower(c.text), Lower(t.description), k))
  {
    match c
    case ByKind(kindText) => EqualsIgnoreCase(KindLabel(t.kind), kindText)
    case ByAmount(value) => AmountNear(t.amount, value)
    case ByDescription(text) => ContainsIgnoreCase(t.description, text)
  }

  function TxPredicate(c: TxCriterion): Transaction -> bool {
    (t: Transaction) => TxMatches(t, c)
  }

  /** Search menu: 1 by kind, 2 by amount, 3 by description; the text or the
      amount is what the chosen branch reads from the console. */
  function TxCriterionFor(choice: int, text: string, amount: real): (c: Option<TxCriterion>)
    ensures c.Some? <==> 1 <= choice <= 3
  {
    if choice == 1 then Some(ByKind(text))
    else if choice == 2 then Some(ByAmount(amount))
    else if choice == 3 then Some(ByDescription(text))
    else None
  }

  function KindIs(k: Kind): Transaction -> bool {
    (t: Transaction) => t.kind == k
  }

  /** Searching by a kind's label, written in any letter case, returns
      exactly the entries of that kind, every one of them, in ledger order. */
  lemma KindSearchSelectsKind(ledger: seq<Transaction>, k: Kind, query: string)
    requires EqualsIgnoreCase(query, KindLabel(k))
    ensures Filter(ledger, TxPredicate(ByKind(query))) == Filter(ledger, KindIs(k))
  {
    forall i | 0 <= i < |ledger|
      ensures TxPredicate(ByKind(query))(ledger[i]) == KindIs(k)(ledger[i])
    {
      KindLabelsDistinct(ledger[i].kind, k);
    }
    FilterCongruent(ledger, TxPredicate(ByKind(query)), KindIs(k));
  }

  /** A kind query that names none of the four kinds finds nothing. */
  lemma UnknownKindFindsNothing(ledger: seq<Transaction>, query: string)
    requires LabelKind(query) == None
    ensures Filter(ledger, TxPredicate(ByKind(query))) == []
  {
    FilterEmptyIff(ledger, TxPredicate(ByKind(query)));
  }

  /** Kind and description searches find the same entries whatever the
      letter case of the query. */
  lemma TxSearchIgnoresQueryCase(ledger: seq<Transaction>, text: string)
    ensures Filter(ledger, TxPredicate(ByKind(text))) == Filter(ledger, TxPredicate(ByKind(Lower(text))))
    ensures Filter(ledger, TxPredicate(ByDescription(text))) ==
            Filter(ledger, TxPredicate(ByDescription(Lower(text))))
  {
    LowerIdempotent(text);
    FilterCongruent(ledger, TxPredicate(ByKind(text)), TxPredicate(ByKind(Lower(text))));
    FilterCongruent(ledger, TxPredicate(ByDescription(text)), TxPredicate(ByDescription(Lower(text))));
  }

  /** The amount search's tolerance: 100.0005 is found by a query for 100.001
      but not by one for 100.01. */
  lemma AmountToleranceExample(description: string, date: string)
    ensures TxMatches(Transaction(DepositEntry, 100.0005, description, date), ByAmount(100.001))
    ensures !TxMatches(Transaction(DepositEntry, 100.0005, description, date), ByAmount(100.01))
  {
  }

  /** Both bounds of the amount policy are inclusive. */
  lemma AmountBoundsInclusive()
    ensures ValidateAmount(MinAmount) == Done && ValidateAmount(MaxAmount) == Done
    ensures ValidateAmount(0.0) == AmountTooSmall && ValidateAmount(1000000.01) == AmountTooLarge
  {
  }

  /** Attributes the account search compares. */
  datatype AccountField = Number | Bik | Kpp

  function FieldValue(a: BankAccount, f: AccountField): string {
    match f
    case Number => a.accountNumber
    case Bik => a.bik
    case Kpp => a.kpp
  }

  function AccountPredicate(f: AccountField, value: string): BankAccount -> bool {
    (a: BankAccount) => EqualsIgnoreCase(FieldValue(a, f), value)
  }

  /** Search menu: 1 by number, 2 by BIK, 3 by KPP. */
  function AccountFieldFor(choice: int): (f: Option<AccountField>)
    ensures f.Some? <==> 1 <= choice <= 3
  {
    if choice == 1 then Some(Number)
    else if choice == 2 then Some(Bik)
    else if choice == 3 then Some(Kpp)
    else None
  }

  /** The account search finds the same accounts whatever the letter case of the query. */
  lemma AccountSearchIgnoresQueryCase(accounts: seq<BankAccount>, f: AccountField, value: string)
    ensures Filter(accounts, AccountPredicate(f, value)) == Filter(accounts, AccountPredicate(f, Lower(value)))
  {
    LowerIdempotent(value);
    FilterCongruent(accounts, AccountPredicate(f, value), AccountPredicate(f, Lower(value)));
  }

  /** A search either is refused or lists its matches in order; `found` is the
      flag that decides whether the "nothing found" report is printed. */
  datatype SearchResult<T> = Refused(why: Outcome) | Found(matches: seq<T>, found: bool)

  /** What the file export writes: identity, balance and the ledger in order. */
  datatype Snapshot = Snapshot(accountNumber: string, bik: string, kpp: string, balance: real, entries: seq<Transaction>)

  class Session {
    var currentAccount: BankAccount?
    var accounts: seq<BankAccount>

    /** The registry holds distinct, guarded accounts; the current account,
        when there is one, is the last one registered and is open; every
        other registered account is closed. */
    ghost predicate Valid()
      reads this, accounts
    {
      (forall i, j :: 0 <= i < j < |accounts| ==> accounts[i] != accounts[j]) &&
      (forall i :: 0 <= i < |accounts| ==> Guarded(accounts[i])) &&
      (currentAccount != null ==>
         |accounts| > 0 && currentAccount == accounts[|accounts| - 1] && currentAccount.isOpen) &&
      (forall i :: 0 <= i < |accounts| && accounts[i] != currentAccount ==> !accounts[i].isOpen)
    }

    constructor ()
      ensures Valid()
      ensures currentAccount == null && accounts == []
    {
      currentAccount := null;
      accounts := [];
    }

    /** isAccountOpen */
    predicate IsAccountOpen()
      reads this, currentAccount
    {
      currentAccount != null && currentAccount.isOpen
    }

    /** In a valid session an account is active exactly when one is set. */
    lemma ActiveIffPresent()
      requires Valid()
      ensures IsAccountOpen() <==> currentAccount != null
      ensures !IsAccountOpen() ==> forall i :: 0 <= i < |accounts| ==> !accounts[i].isOpen
    {
    }

    /** At most one registered account is open at any time. */
    lemma AtMostOneOpen()
      requires Valid()
      ensures forall i, j ::
        0 <= i < |accounts| && 0 <= j < |accounts| && accounts[i].isOpen && accounts[j].isOpen ==> i == j
    {
    }

    method OpenAccount(accountNumber: string, bik: string, kpp: string, date: string) returns (r: Outcome)
      requires Valid()
      modifies this
      ensures Valid()
      ensures forall a :: a in old(accounts) && !old(a.isOpen) ==> unchanged(a)
      ensures r == (if old(IsAccountOpen()) then AccountAlreadyOpen else Done)
      ensures r == Done ==>
        fresh(currentAccount) && accounts == old(accounts) + [currentAccount] &&
        currentAccount.accountNumber == accountNumber && currentAccount.bik == bik &&
        currentAccount.kpp == kpp && currentAccount.balance == 0.0 && currentAccount.isOpen &&
        currentAccount.transactions == [Transaction(OpeningEntry, 0.0, OpeningDescription, date)]
      ensures r != Done ==> currentAccount == old(currentAccount) && accounts == old(accounts)
    {
      if currentAccount != null && currentAccount.isOpen {
        return AccountAlreadyOpen;
      }
      var account := new BankAccount(accountNumber, bik, kpp, date);
      currentAccount := account;
      accounts := accounts + [account];
      r := Done;
    }

    method Deposit(amount: real, description: string, date: string) returns (r: Outcome)
      requires Valid()
      modifies currentAccount
      ensures Valid()
      ensures forall a :: a in old(accounts) && !old(a.isOpen) ==> unchanged(a)
      ensures r == (if !old(IsAccountOpen()) then NoActiveAccount else ValidateAmount(amount))
      ensures r == Done ==>
        currentAccount.isOpen &&
        currentAccount.balance == old(currentAccount.balance) + amount &&
        currentAccount.transactions == old(currentAccount.transactions) +
          [Transaction(DepositEntry, amount, DescriptionOrDefault(description, DefaultDepositDescription), date)]
      ensures r != Done && currentAccount != null ==> unchanged(currentAccount)
    {
      if !IsAccountOpen() {
        return NoActiveAccount;
      }
      r := ValidateAmount(amount);
      if r != Done {
        return;
      }
      var effective := DescriptionOrDefault(description, DefaultDepositDescription);
      currentAccount.Deposit(amount, effective, date);
      KeepsGuarded(currentAccount, old(currentAccount.transactions));
    }

    method Withdraw(amount: real, description: string, date: string) returns (r: Outcome)
      requires Valid()
      modifies currentAccount
      ensures Valid()
      ensures forall a :: a in old(accounts) && !old(a.isOpen) ==> unchanged(a)
      ensures r == (if !old(IsAccountOpen()) then NoActiveAccount
                    else if ValidateAmount(amount) != Done then ValidateAmount(amount)
                    else if amount > old(currentAccount.balance) then InsufficientFunds
                    else Done)
      ensures r == Done ==>
        currentAccount.isOpen &&
        currentAccount.balance == old(currentAccount.balance) - amount &&
        currentAccount.transactions == old(currentAccount.transactions) +
          [Transaction(WithdrawalEntry, amount, DescriptionOrDefault(description, DefaultWithdrawalDescription), date)]
      ensures r != Done && currentAccount != null ==> unchanged(currentAccount)
    {
      if !IsAccountOpen() {
        return NoActiveAccount;
      }
      r := ValidateAmount(amount);
      if r != Done {
        return;
      }
      if amount > currentAccount.balance {
        return InsufficientFunds;
      }
      var effective := DescriptionOrDefault(description, DefaultWithdrawalDescription);
      currentAccount.Withdraw(amount, effective, date);
      KeepsGuarded(currentAccount, old(currentAccount.transactions));
    }

    method CloseAccount(date: string) returns (r: Outcome)
      requires Valid()
      modifies this, currentAccount
      ensures Valid()
      ensures forall a :: a in old(accounts) && !old(a.isOpen) ==> unchanged(a)
      ensures r == (if !old(IsAccountOpen()) then NoActiveAccount
                    else if old(currentAccount.balance) > 0.0 then FundsRemain
                    else Done)
      ensures old(IsAccountOpen()) ==> (r == FundsRemain <==> old(currentAccount.balance) != 0.0)
      ensures r == Done ==>
        currentAccount == null && accounts == old(accounts) &&
        !old(currentAccount).isOpen && old(currentAccount).balance == 0.0 &&
        old(currentAccount).transactions == old(currentAccount.transactions) +
          [Transaction(ClosingEntry, 0.0, ClosingDescription, date)]
      ensures r != Done ==>
        currentAccount == old(currentAccount) && accounts == old(accounts) &&
        (currentAccount != null ==> unchanged(currentAccount))
    {
      if !IsAccountOpen() {
        return NoActiveAccount;
      }
      if currentAccount.balance > 0.0 {
        return FundsRemain;
      }
      var closing := currentAccount;
      closing.Close(date);
      currentAccount := null;
      r := Done;
      assert Guarded(closing);
    }

    /** showBalance */
    method ShowBalance() returns (b: Option<real>)
      requires Valid()
      ensures b == if IsAccountOpen() then Some(currentAccount.balance) else None
      ensures b.Some? ==> b.value == LedgerBalance(currentAccount.transactions) && b.value >= 0.0
    {
      if !IsAccountOpen() {
        return None;
      }
      b := Some(currentAccount.balance);
    }

    /** showTransactions: the ledger in chronological order. It always
        starts with the opening entry, so the "empty history" report is never
        reached. */
    method ShowTransactions() returns (h: Option<seq<Transaction>>)
      requires Valid()
      ensures h == if IsAccountOpen() then Some(currentAccount.transactions) else None
      ensures h.Some? ==> h.value != [] && h.value[0].kind == OpeningEntry
    {
      if !IsAccountOpen() {
        return None;
      }
      h := Some(currentAccount.transactions);
    }

    /** saveToFile: the content the export writes, in order. The balance
        written is the signed sum of the entries written after it. */
    method ExportSnapshot() returns (s: Option<Snapshot>)
      requires Valid()
      ensures IsAccountOpen() <==> s.Some?
      ensures s.Some? ==> s.value.balance == SignedSum(s.value.entries) && s.value.balance >= 0.0
      ensures s.Some? ==> s.value.entries != [] && s.value.entries[0].kind == OpeningEntry
      ensures s.Some? ==>
        s.value.accountNumber == currentAccount.accountNumber && s.value.bik == currentAccount.bik &&
        s.value.kpp == currentAccount.kpp && s.value.balance == currentAccount.balance &&
        s.value.entries == currentAccount.transactions
    {
      if !IsAccountOpen() {
        return None;
      }
      var a := currentAccount;
      LedgerBalanceIsSignedSum(a.transactions);
      s := Some(Snapshot(a.accountNumber, a.bik, a.kpp, a.balance, a.transactions));
    }

    /** searchTransactions: the active account's entries matching the chosen
        criterion, in ledger order. */
    method SearchTransactions(choice: int, text: string, amount: real) returns (r: SearchResult<Transaction>)
      ensures !IsAccountOpen() ==> r == Refused(NoActiveAccount)
      ensures IsAccountOpen() && TxCriterionFor(choice, text, amount).None? ==> r == Refused(UnknownSearchType)
      ensures IsAccountOpen() && TxCriterionFor(choice, text, amount).Some? ==>
        var matches := Filter(currentAccount.transactions, TxPredicate(TxCriterionFor(choice, text, amount).value));
        r == Found(matches, matches != [])
    {
      if !IsAccountOpen() {
        return Refused(NoActiveAccount);
      }
      var criterion := TxCriterionFor(choice, text, amount);
      if criterion.None? {
        return Refused(UnknownSearchType);
      }
      var matches, found := Scan(currentAccount.transactions, TxPredicate(criterion.value));
      FilterEmptyIff(currentAccount.transactions, TxPredicate(criterion.value));
      r := Found(matches, found);
    }

    /** searchAccountByAttributes: every registered account, open or closed,
        whose chosen attribute equals the value ignoring case, in registration
        order. The menu choice is examined inside the loop, as in the source. */
    method SearchAccounts(choice: int, value: string) returns (r: SearchResult<BankAccount>)
      ensures accounts == [] ==> r == Refused(NoAccounts)
      ensures accounts != [] && AccountFieldFor(choice).None? ==> r == Refused(UnknownSearchType)
      ensures accounts != [] && AccountFieldFor(choice).Some? ==>
        var matches := Filter(accounts, AccountPredicate(AccountFieldFor(choice).value, value));
        r == Found(matches, matches != [])
    {
      if accounts == [] {
        return Refused(NoAccounts);
      }
      var field := AccountFieldFor(choice);
      var matches: seq<BankAccount> := [];
      var found := false;
      for i := 0 to |accounts|
        invariant i > 0 ==> field.Some?
        invariant field.Some? ==> matches == Filter(accounts[..i], AccountPredicate(field.value, value))
        invariant found <==> matches != []
      {
        var account := accounts[i];
        var isMatch: bool;
        if choice == 1 {
          isMatch := EqualsIgnoreCase(account.accountNumber, value);
        } else if choice == 2 {
          isMatch := EqualsIgnoreCase(account.bik, value);
        } else if choice == 3 {
          isMatch := EqualsIgnoreCase(account.kpp, value);
        } else {
          return Refused(UnknownSearchType);
        }
        FilterSnoc(accounts[..i], account, AccountPredicate(field.value, value));
        assert accounts[..i + 1] == accounts[..i] + [account];
        if isMatch {
          matches := matches + [account];
          found := true;
        }
      }
      assert accounts[..|accounts|] == accounts;
      r := Found(matches, found);
    }
  }

  /** A deposit or withdrawal the session let through keeps an open account guarded. */
  lemma KeepsGuarded(a: BankAccount, before: seq<Transaction>)
    requires a.Valid() && a.isOpen && a.balance >= 0.0
    requires |a.transactions| == |before| + 1 && a.transactions[..|before|] == before
    requires forall i :: 0 <= i < |before| ==> before[i].kind != ClosingEntry && AmountFits(before[i])
    requires a.transactions[|before|].kind != ClosingEntry && AmountFits(a.transactions[|before|])
    ensures Guarded(a)
  {
    assert forall i :: 0 <= i < |before| ==> a.transactions[i] == before[i];
  }
}
