/**
 * The stored records of the cash book: ledgers and their transactions, with the default
 * category and payment-mode lists a new ledger starts from. Timestamps are time values
 * (milliseconds); amounts are exact.
 */
module Supabase {
  import opened Wrappers

  datatype TxType = CashIn | CashOut

  datatype Transaction = Transaction(
    id: string,
    createdAt: int,
    title: string,
    amount: real,
    txType: TxType,
    category: string,
    paymentMode: Option<string>,
    person: Option<string>,
    ledgerId: string)

  datatype Ledger = Ledger(
    id: string,
    name: string,
    categories: seq<string>,
    paymentModes: seq<string>,
    createdAt: int,
    userId: Option<string>)

  /** What a caller supplies to create a transaction: everything but `id` and `created_at`. */
  datatype TransactionDraft = TransactionDraft(
    title: string,
    amount: real,
    txType: TxType,
    category: string,
    paymentMode: Option<string>,
    person: Option<string>,
    ledgerId: string)

  const DEFAULT_CATEGORIES: seq<string> :=
    ["Food", "Shopping", "Salary", "Rent", "Bills", "Transport", "Entertainment", "Health", "Education", "Other"]

  const DEFAULT_PAYMENT_MODES: seq<string> := ["Cash", "UPI", "Credit Card", "Debit Card"]

  /** The amount of a cash-out transaction, 0 for a cash-in one. */
  function OutAmount(t: Transaction): real {
    if t.txType == CashOut then t.amount else 0.0
  }

  /** The amount of a cash-in transaction, 0 for a cash-out one. */
  function InAmount(t: Transaction): real {
    if t.txType == CashIn then t.amount else 0.0
  }

  function Amount(t: Transaction): real {
    t.amount
  }

  predicate IsCashIn(t: Transaction) {
    t.txType == CashIn
  }

  predicate IsCashOut(t: Transaction) {
    t.txType == CashOut
  }

  /** A person field that is missing or empty counts as "Unknown" (`t.person || 'Unknown'`). */
  function PersonOrUnknown(t: Transaction): (name: string)
    ensures name != ""
    ensures t.person.Some? && t.person.value != "" ==> name == t.person.value
    ensures t.person.None? || t.person.value == "" ==> name == "Unknown"
  {
    match t.person
    case Some(p) => if p != "" then p else "Unknown"
    case None => "Unknown"
  }

  /** The same rule for the payment mode (`t.payment_mode || 'Unknown'`). */
  function PaymentModeOrUnknown(t: Transaction): (mode: string)
    ensures mode != ""
    ensures t.paymentMode.Some? && t.paymentMode.value != "" ==> mode == t.paymentMode.value
    ensures t.paymentMode.None? || t.paymentMode.value == "" ==> mode == "Unknown"
  {
    match t.paymentMode
    case Some(p) => if p != "" then p else "Unknown"
    case None => "Unknown"
  }

  function Category(t: Transaction): string {
    t.category
  }
}
