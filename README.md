# Bank account ledger with a session layer

A model of a console bank-account application. It covers one `BankAccount`
at a time, holding an append-only ledger of `Transaction` entries, a balance
and an open flag. On top of it sits the session state of `Main`: the current
account, the registry of every account opened, the guards in front of each
command, and the two linear searches. There is one search over the active
account's ledger and one over the registry.

Modules, leaf first:

- `Text`: stands in for `trim().isEmpty()`, `equalsIgnoreCase` and
  `toLowerCase().contains(...)`.
- `Filtering`: the in-order filter that both searches compute. `Scan` is
  the search loop, proved against it.
- `Transactions`: the immutable ledger entry, its four kinds with their
  labels, and the sums the balance is kept equal to.
- `Accounts`: class `BankAccount`. Its `Valid()` invariant says two things.
  The ledger starts with the single opening entry. The balance equals
  deposits minus withdrawals.
- `Bank`: class `Session`, which stands for `Main`'s static state.
  - It holds the guards (`ValidateAmount`, `IsAccountOpen`), the
    blank-description defaulting and the session commands.
  - Its `Valid()` invariant holds these facts about every registered
    account: the balance is never negative, every amount passed validation,
    and a closing entry comes last and appears exactly when the account is
    closed.
  - It also holds two facts about the registry: the current account is the
    last one registered and is open, and every other account is closed.
- `Scenarios`: whole sessions proved from the contracts alone: salary and
  rent, refused withdrawals, an early close, a close, and a reopen.

Amounts are exact `real`s. The amount search's `Math.abs(a - v) < 0.001`
becomes the same comparison on reals. Console input becomes method
parameters, and console messages become an `Outcome` value. The transaction
timestamp (`new Date().toString()`) is an opaque `date` string parameter.

Four behaviours of the code are easy to misread:

- An amount of exactly 0.01 is accepted, because the rejection test is
  `amount < MIN_AMOUNT` (main.java:424). 1,000,000 is accepted too
  (main.java:428).
- Close is refused on `balance > 0` (main.java:249), not on `balance != 0`.
  `Bank.Session.CloseAccount` proves that the two are the same, because the
  balance is never negative.
- A blank description is replaced by "Пополнение счета" for a deposit
  (main.java:210-212) and "Снятие наличных" for a withdrawal
  (main.java:236-238).
- The account search with a bad menu choice is refused only once the
  registry is non-empty. The choice is checked inside the loop, at the first
  account (main.java:349, 379-381).

## Model

| member | source | states |
|---|---|---|
| `Text.TrimStart` | main.java:210 | the result is a suffix of the input; only characters at or below U+0020 were removed; the result does not start with one |
| `Text.TrimEnd` | main.java:210 | the result is a prefix of the input; only characters at or below U+0020 were removed; the result does not end with one |
| `Text.Trim` | main.java:210 | `trim()` returns a contiguous block of the input; every character outside it is at or below U+0020; neither end of it is |
| `Text.IsBlank` | main.java:210 | `trim().isEmpty()` holds exactly when every character is at or below U+0020 |
| `Text.BlankIffAllTrimmable` | main.java:210 | `trim()` returns the empty string exactly when every character is at or below U+0020 |
| `Text.EqualsIgnoreCase` | main.java:304 | `equalsIgnoreCase` holds exactly when the strings have the same length and agree character by character once lower-cased |
| `Text.ContainsIgnoreCase` | main.java:330 | the lower-cased description contains the lower-cased query exactly when the query sits at some offset of it |
| `Text.LowerIdempotent` | main.java:330 | lower-casing twice equals lower-casing once; a lower-cased string equals its original, ignoring case |
| `Text.SubstringAt` | main.java:330 | `contains` holds exactly when the needle occurs at some offset of the haystack |
| `Text.ContainsTrivial` | main.java:330 | every description contains the empty query; a query equal to it ignoring case is contained in it |
| `Filtering.Filter` | main.java:303-308 | the search result is no longer than the list, and every element of it matches |
| `Filtering.FilterConcat` | main.java:303-308 | filtering distributes over concatenation, so results keep list order |
| `Filtering.FilterSnoc` | main.java:303-308 | one scan step appends the next element exactly when it matches |
| `Filtering.FilterMembership` | main.java:303-308 | an element is found exactly when it is in the list and matches |
| `Filtering.FilterEmptyIff` | main.java:342-344 | the "nothing found" report appears exactly when no element matches |
| `Filtering.FilterAll` | main.java:367-395 | when every element matches, the whole list is returned in order |
| `Filtering.FilterIdempotent` | main.java:303-308 | searching the results again by the same criterion returns them unchanged |
| `Filtering.FilterCongruent` | main.java:303-308 | criteria that agree on every element select the same elements |
| `Filtering.Scan` | main.java:295-335 | the search loop returns the in-order filter of the list; `found` is set exactly when some element matches |
| `Transactions.LedgerBalanceIsSignedSum` | main.java:52-82 | deposits minus withdrawals equals the signed sum of all entries; opening and closing entries add 0 |
| `Transactions.TotalSnoc` | main.java:67-76 | appending an entry adds its amount to its own kind's total and to no other |
| `Transactions.LedgerBalanceSnoc` | main.java:67-82 | appending an entry moves the ledger balance by exactly its signed amount |
| `Transactions.TotalNonNegative` | main.java:423-433 | the total of entries with non-negative amounts is non-negative |
| `Transactions.KindLabelsDistinct` | main.java:12-15 | the four kind labels are pairwise different, even ignoring case |
| `Transactions.LabelKind` | main.java:12-15 | a search text names kind k exactly when it equals k's label ignoring case; it names at most one kind |
| `Accounts.BankAccount.constructor` | main.java:48-56 | a new account has the given identity fields, balance 0 and is open; its ledger is exactly one opening entry of amount 0 |
| `Accounts.BankAccount.Deposit` | main.java:67-70 | balance rises by the amount; exactly one deposit entry with that amount and description is appended; the earlier entries and the open flag are unchanged; the ledger invariant holds |
| `Accounts.BankAccount.Withdraw` | main.java:73-76 | balance falls by the amount; exactly one withdrawal entry is appended; the earlier entries and the open flag are unchanged; the ledger invariant holds |
| `Accounts.BankAccount.Close` | main.java:79-82 | the account becomes closed; exactly one closing entry of amount 0 is appended; the balance is unchanged; the ledger invariant holds |
| `Bank.ValidateAmount` | main.java:423-433 | accepts exactly 0.01 <= amount <= 1,000,000; "too small" exactly below the minimum; "too large" exactly above the maximum |
| `Bank.AmountBoundsInclusive` | main.java:424-428 | both bounds are accepted; 0 is too small and 1,000,000.01 is too large |
| `Bank.DescriptionOrDefault` | main.java:210-212 | a non-blank description is kept; a blank one is replaced by the default; with a non-blank default the stored description is never blank |
| `Bank.DefaultsNotBlank` | main.java:236-238 | neither default description is blank, so no stored deposit or withdrawal description is blank |
| `Bank.WithdrawalsCovered` | main.java:229-232 | in every registered account the withdrawals never exceed the deposits |
| `Bank.TxCriterionFor` | main.java:298-340 | search types 1, 2 and 3 select a criterion; any other value is refused |
| `Bank.AmountNear` | main.java:316-318 | an amount matches a query exactly when it lies strictly within 0.001 of it, on either side |
| `Bank.TxMatches` | main.java:304-330 | a kind query matches exactly the entries of the kind it names; an amount query the entries strictly within 0.001; a description query the entries whose description contains it, ignoring case |
| `Bank.KindSearchSelectsKind` | main.java:299-309 | searching by a kind's label, in any letter case, returns the list of that kind's entries: all of them, duplicates included, in ledger order |
| `Bank.UnknownKindFindsNothing` | main.java:299-309 | a kind query that names none of the four kinds finds nothing |
| `Bank.TxSearchIgnoresQueryCase` | main.java:304-334 | kind and description searches do not depend on the letter case of the query |
| `Bank.AmountToleranceExample` | main.java:316-318 | an entry of 100.0005 is found by a query for 100.001 and not by one for 100.01 |
| `Bank.AccountFieldFor` | main.java:369-382 | account-search types 1 to 3 select a field; any other value is refused |
| `Bank.AccountSearchIgnoresQueryCase` | main.java:371-377 | the account search does not depend on the letter case of the query |
| `Bank.KeepsGuarded` | main.java:199-243 | a validated deposit, or a covered withdrawal, on an open account keeps every guarded-account fact |
| `Bank.Session.constructor` | main.java:87-89 | the session starts with no current account and an empty registry |
| `Bank.Session.ActiveIffPresent` | main.java:436-442 | an account is active exactly when one is set; with none active, every registered account is closed |
| `Bank.Session.AtMostOneOpen` | main.java:181-196 | at most one registered account is open at any time |
| `Bank.Session.OpenAccount` | main.java:180-196 | refused, with nothing changed, while the current account is open; otherwise a fresh account becomes current and is appended to the registry; closed accounts are untouched |
| `Bank.Session.Deposit` | main.java:199-217 | refused with no change when there is no open account or the amount is invalid; otherwise the balance rises by the amount and one deposit entry is appended, carrying the description or its default |
| `Bank.Session.Withdraw` | main.java:220-243 | refused with no change when there is no open account, the amount is invalid or the amount exceeds the balance; otherwise the balance falls by the amount and one withdrawal entry is appended; the balance never goes below 0 |
| `Bank.Session.CloseAccount` | main.java:246-259 | refused with no change when there is no open account or the balance is above 0, which is the same as non-zero; otherwise the account is closed with one closing entry and the current account is cleared |
| `Bank.Session.ShowBalance` | main.java:262-265 | the balance of the open current account, or a refusal; the balance shown is deposits minus withdrawals and is never negative |
| `Bank.Session.ShowTransactions` | main.java:268-280 | the full ledger of the open current account in order, or a refusal; it is never empty and starts with the opening entry, so the "empty history" branch is never taken |
| `Bank.Session.ExportSnapshot` | main.java:403-420 | the export holds the identity fields, the balance and every ledger entry in order; the balance written is the signed sum of the entries written, is never negative, and the first entry is the opening one; refused with no open account |
| `Bank.Session.SearchTransactions` | main.java:283-345 | refused with no open account or an unknown search type; otherwise the in-order filter of the ledger by the chosen criterion, with `found` set exactly when it is non-empty |
| `Bank.Session.SearchAccounts` | main.java:348-400 | refused on an empty registry or an unknown search type; otherwise the in-order filter of all registered accounts, open or closed, by the chosen attribute, ignoring case, with `found` set exactly when it is non-empty |
| `Scenarios.SalaryRentScenario` | main.java:199-243 | a deposit of 500 and a withdrawal of 200 leave 300 over exactly three entries: opening, deposit, withdrawal |
| `Scenarios.RefusedWithdrawalScenario` | main.java:227-232 | with 300 held, withdrawals of 1,000,000.01 and of 300.01 are refused; the balance stays 300 and the ledger stays exactly the opening and deposit entries |
| `Scenarios.EarlyCloseScenario` | main.java:249-253 | a close with 300 left is refused; the account stays open and its ledger stays exactly the opening and deposit entries |
| `Scenarios.CloseScenario` | main.java:246-259 | after everything is withdrawn, the close succeeds with four entries, and a later deposit is refused |
| `Scenarios.SubCentResidueScenario` | main.java:423-433 | after depositing 0.015 and withdrawing 0.01, a residue of 0.005 remains; withdrawing it is refused as too small, and the close is refused, leaving the account open |
| `Scenarios.ReopenScenario` | main.java:180-196 | a second open is refused while one account is open; after a close, the same number can be opened again, and a search finds both accounts |

## Left out

- The console menu, `Scanner` input, printed messages and the main loop's
  `InputMismatchException` and catch-all handling (main.java:108-177). The
  values read become parameters and each message becomes an `Outcome`.
- The file write in `saveToFile`. `Bank.Session.ExportSnapshot` gives what
  would be written. The `PrintWriter` and its `FileNotFoundException` path
  are I/O.
- `Transaction.toString` and every `%.2f` rendering. This is float
  formatting.
- The clock. The timestamp is a `date` parameter passed by the caller.
- Java `double` rounding. Amounts are exact reals, so the balance invariant
  holds exactly. In the source it holds only up to rounding.
- Bank.ValidateAmount: holds for finite amounts only. `nextDouble` also
  reads "NaN", and `validateAmount(NaN)` returns true because both
  comparisons (main.java:424, 428) are false. A NaN deposit makes the balance
  NaN. After that, the funds check (main.java:229) and the close check
  (main.java:249) never refuse. Any valid withdrawal then passes, and an
  account with deposits on its ledger can be closed. The model has no NaN, so
  "accepts exactly 0.01 <= amount <= 1,000,000" and the session invariant "a
  closed account holds 0" do not cover this case.
- Bank.Session.CloseAccount: exact reals do not model rounding residues.
  With doubles, depositing 0.1 and 0.2 and withdrawing 0.3 leaves a positive
  residue below 0.01. That residue blocks the close, and it cannot be
  withdrawn because it is below the minimum amount. The same stuck state also
  arises with exact reals, because `validateAmount` accepts amounts with more
  than two decimals (`Scenarios.SubCentResidueScenario`: deposit 0.015,
  withdraw 0.01). Such a residue can be cleared only by depositing again.
- Bank.Session.Withdraw: with exact reals, any balance from 0.01 to
  1,000,000 can be withdrawn in one go. A larger balance must be withdrawn in
  parts, and a balance below 0.01 cannot be withdrawn at all. With doubles,
  depositing 0.3 and withdrawing 0.1 leaves a balance just under 0.2, so a
  withdrawal of 0.2 is refused as insufficient.
- Bank.FieldValue, Bank.AccountPredicate: these select the attribute and
  compare it, for the account search's filter. They carry no contract of
  their own. `Bank.Session.SearchAccounts` reads the three getters
  directly in its loop, and its contract ties that loop to them.
- Full Unicode case folding. `Text.LowerChar` lower-cases only Latin A-Z,
  Cyrillic А-Я and Ё, and `equalsIgnoreCase` is modelled as equality after
  that mapping.
- Getters. They are direct field reads of the datatype or the class and have
  no contract of their own.
