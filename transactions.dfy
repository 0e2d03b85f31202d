/** Ledger entries (class Transaction) and the sums over a ledger that the
    account balance is kept equal to. */
module Transactions {
  import opened Wrappers
  import opened Text

  /** The four operation kinds, stored in the source as string constants. */
  datatype Kind = DepositEntry | WithdrawalEntry | OpeningEntry | ClosingEntry

  /** The constant string each kind is stored and searched as. */
  function KindLabel(k: Kind): string {
    match k
    case DepositEntry => "ПОПОЛНЕНИЕ"
    case WithdrawalEntry => "СНЯТИЕ"
    case OpeningEntry => "ОТКРЫТИЕ СЧЕТА"
    case ClosingEntry => "ЗАКРЫТИЕ СЧЕТА"
  }

  /** An immutable ledger entry. `date` is the creation-time clock reading,
      kept as the opaque string the source stores. */
  datatype Transaction = Transaction(kind: Kind, amount: real, description: string, date: string)

  const OpeningDescription: string := "Открытие счета"
  const ClosingDescription: string := "Закрытие счета"

  /** Sum of the amounts of the entries of kind `k`, in ledger order. */
  function Total(ledger: seq<Transaction>, k: Kind): real {
    if ledger == [] then 0.0
    else (if ledger[0].kind == k then ledger[0].amount else 0.0) + Total(ledger[1..], k)
  }

  /** What an entry adds to the balance: deposits count up, withdrawals down,
      opening and closing entries not at all. */
  function SignedAmount(t: Transaction): real {
    match t.kind
    case DepositEntry => t.amount
    case WithdrawalEntry => -t.amount
    case _ => 0.0
  }

  /** The balance a ledger stands for: deposits minus withdrawals. */
  function LedgerBalance(ledger: seq<Transaction>): real {
    Total(ledger, DepositEntry) - Total(ledger, WithdrawalEntry)
  }

  /** The signed sum of the ledger, entry by entry. */
  function SignedSum(ledger: seq<Transaction>): real {
    if ledger == [] then 0.0 else SignedAmount(ledger[0]) + SignedSum(ledger[1..])
  }

  /** Deposits minus withdrawals is the signed sum of the ledger: opening and
      closing entries contribute nothing. */
  lemma {:induction false} LedgerBalanceIsSignedSum(ledger: seq<Transaction>)
    ensures LedgerBalance(ledger) == SignedSum(ledger)
  {
    if ledger != [] {
      LedgerBalanceIsSignedSum(ledger[1..]);
    }
  }

  /** Appending an entry adds its amount to its own kind's total only. */
  lemma {:induction false} TotalSnoc(ledger: seq<Transaction>, t: Transaction, k: Kind)
    ensures Total(ledger + [t], k) == Total(ledger, k) + (if t.kind == k then t.amount else 0.0)
  {
    if ledger != [] {
      assert (ledger + [t])[1..] == ledger[1..] + [t];
      TotalSnoc(ledger[1..], t, k);
    }
  }

  /** Appending an entry moves the ledger balance by exactly its signed amount. */
  lemma LedgerBalanceSnoc(ledger: seq<Transaction>, t: Transaction)
    ensures LedgerBalance(ledger + [t]) == LedgerBalance(ledger) + SignedAmount(t)
  {
    TotalSnoc(ledger, t, DepositEntry);
    TotalSnoc(ledger, t, WithdrawalEntry);
  }

  /** A total over entries with non-negative amounts is itself non-negative. */
  lemma {:induction false} TotalNonNegative(ledger: seq<Transaction>, k: Kind)
    requires forall i :: 0 <= i < |ledger| ==> ledger[i].amount >= 0.0
    ensures Total(ledger, k) >= 0.0
  {
    if ledger != [] {
      TotalNonNegative(ledger[1..], k);
    }
  }

  /** No two kinds share a label, even ignoring case, so searching by a
      kind's label selects that kind and no other. */
  lemma KindLabelsDistinct(j: Kind, k: Kind)
    ensures EqualsIgnoreCase(KindLabel(j), KindLabel(k)) <==> j == k
  {
    if j != k && |KindLabel(j)| == |KindLabel(k)| {
      assert {j, k} == {OpeningEntry, ClosingEntry};
      assert Lower(KindLabel(j))[0] != Lower(KindLabel(k))[0];
    }
  }

  /** The kind whose label a search text names, ignoring case; none when the
      text names no kind. */
  function LabelKind(text: string): (r: Option<Kind>)
    ensures forall k :: r == Some(k) <==> EqualsIgnoreCase(text, KindLabel(k))
  {
    forall j, k ensures EqualsIgnoreCase(KindLabel(j), KindLabel(k)) <==> j == k {
      KindLabelsDistinct(j, k);
    }
    if EqualsIgnoreCase(text, KindLabel(DepositEntry)) then Some(DepositEntry)
    else if EqualsIgnoreCase(text, KindLabel(WithdrawalEntry)) then Some(WithdrawalEntry)
    else if EqualsIgnoreCase(text, KindLabel(OpeningEntry)) then Some(OpeningEntry)
    else if EqualsIgnoreCase(text, KindLabel(ClosingEntry)) then Some(ClosingEntry)
    else None
  }
}
