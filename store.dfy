/**
 * The write rules of the data store, over in-memory tables keyed by id: the `??` field
 * merges that `updateTransaction` and `updateLedger` send as an upsert, and the order of the
 * two deletions in `deleteLedger`. The remote calls themselves are not modelled; whether a
 * remote write succeeded is a parameter of each operation.
 */
module Store {
  import opened Wrappers
  import opened Supabase

  /**
   * `Partial<Transaction>`: any field may be absent. A field that is `null` or `undefined`
   * is `None`, because `??` treats the two alike; so the update of the two nullable
   * columns is also one `Option<string>`.
   */
  datatype TransactionUpdate = TransactionUpdate(
    id: Option<string>,
    createdAt: Option<int>,
    title: Option<string>,
    amount: Option<real>,
    txType: Option<TxType>,
    category: Option<string>,
    paymentMode: Option<string>,
    person: Option<string>,
    ledgerId: Option<string>)

  /** `Partial<Ledger>`, read the same way. */
  datatype LedgerUpdate = LedgerUpdate(
    id: Option<string>,
    name: Option<string>,
    categories: Option<seq<string>>,
    paymentModes: Option<seq<string>>,
    createdAt: Option<int>,
    userId: Option<string>)

  const NoTransactionUpdate := TransactionUpdate(None, None, None, None, None, None, None, None, None)

  const NoLedgerUpdate := LedgerUpdate(None, None, None, None, None, None)

  /** `a ?? b` */
  function Coalesce<T>(a: Option<T>, b: T): T {
    if a.Some? then a.value else b
  }

  /** `a ?? b` where `b` may itself be null. */
  function CoalesceOption<T>(a: Option<T>, b: Option<T>): Option<T> {
    if a.Some? then a else b
  }

  /**
   * The row `updateTransaction` upserts: `id`, `ledger_id` and `created_at` from the
   * existing row whatever the update says, and every other column from the update unless
   * the update leaves it null or undefined. An empty string or a zero amount does overwrite.
   */
  function MergeTransaction(existing: Transaction, u: TransactionUpdate): (r: Transaction)
    ensures r.id == existing.id && r.ledgerId == existing.ledgerId && r.createdAt == existing.createdAt
    ensures u.title.Some? ==> r.title == u.title.value
    ensures u.title.None? ==> r.title == existing.title
    ensures u.amount.Some? ==> r.amount == u.amount.value
    ensures u.amount.None? ==> r.amount == existing.amount
    ensures u.txType.Some? ==> r.txType == u.txType.value
    ensures u.txType.None? ==> r.txType == existing.txType
    ensures u.category.Some? ==> r.category == u.category.value
    ensures u.category.None? ==> r.category == existing.category
    ensures u.paymentMode.Some? ==> r.paymentMode == u.paymentMode
    ensures u.paymentMode.None? ==> r.paymentMode == existing.paymentMode
    ensures u.person.Some? ==> r.person == u.person
    ensures u.person.None? ==> r.person == existing.person
  {
    Transaction(
      existing.id,
      existing.createdAt,
      Coalesce(u.title, existing.title),
      Coalesce(u.amount, existing.amount),
      Coalesce(u.txType, existing.txType),
      Coalesce(u.category, existing.category),
      CoalesceOption(u.paymentMode, existing.paymentMode),
      CoalesceOption(u.person, existing.person),
      existing.ledgerId)
  }

  /** The row `updateLedger` upserts: `id`, `user_id` and `created_at` kept, the rest merged by `??`. */
  function MergeLedger(existing: Ledger, u: LedgerUpdate): (r: Ledger)
    ensures r.id == existing.id && r.userId == existing.userId && r.createdAt == existing.createdAt
    ensures u.name.Some? ==> r.name == u.name.value
    ensures u.name.None? ==> r.name == existing.name
    ensures u.categories.Some? ==> r.categories == u.categories.value
    ensures u.categories.None? ==> r.categories == existing.categories
    ensures u.paymentModes.Some? ==> r.paymentModes == u.paymentModes.value
    ensures u.paymentModes.None? ==> r.paymentModes == existing.paymentModes
  {
    Ledger(
      existing.id,
      Coalesce(u.name, existing.name),
      Coalesce(u.categories, existing.categories),
      Coalesce(u.paymentModes, existing.paymentModes),
      existing.createdAt,
      existing.userId)
  }

  /** Merging an update that sets nothing gives back the existing row. */
  lemma MergeNothing(t: Transaction, l: Ledger)
    ensures MergeTransaction(t, NoTransactionUpdate) == t
    ensures MergeLedger(l, NoLedgerUpdate) == l
  {
  }

  /** Merging the same update twice is merging it once. */
  lemma MergeIdempotent(t: Transaction, u: TransactionUpdate, l: Ledger, v: LedgerUpdate)
    ensures MergeTransaction(MergeTransaction(t, u), u) == MergeTransaction(t, u)
    ensures MergeLedger(MergeLedger(l, v), v) == MergeLedger(l, v)
  {
  }

  /** The fields of `second` where it sets them, otherwise those of `first`. */
  function ThenTransaction(first: TransactionUpdate, second: TransactionUpdate): (u: TransactionUpdate) {
    TransactionUpdate(
      CoalesceOption(second.id, first.id),
      CoalesceOption(second.createdAt, first.createdAt),
      CoalesceOption(second.title, first.title),
      CoalesceOption(second.amount, first.amount),
      CoalesceOption(second.txType, first.txType),
      CoalesceOption(second.category, first.category),
      CoalesceOption(second.paymentMode, first.paymentMode),
      CoalesceOption(second.person, first.person),
      CoalesceOption(second.ledgerId, first.ledgerId))
  }

  /** Two updates in a row are one update whose later fields win. */
  lemma MergeCompose(t: Transaction, first: TransactionUpdate, second: TransactionUpdate)
    ensures MergeTransaction(MergeTransaction(t, first), second) == MergeTransaction(t, ThenTransaction(first, second))
  {
  }

  /**
   * `??` cannot clear a column: an update never turns a present payment mode or person into
   * null, and no update moves a transaction to another ledger or changes its id.
   */
  lemma MergeCannotClear(t: Transaction, u: TransactionUpdate)
    ensures t.paymentMode.Some? ==> MergeTransaction(t, u).paymentMode.Some?
    ensures t.person.Some? ==> MergeTransaction(t, u).person.Some?
    ensures u.ledgerId.Some? && u.ledgerId.value != t.ledgerId ==> MergeTransaction(t, u).ledgerId != u.ledgerId.value
  {
  }

  /** Every row stored under its own id. */
  ghost predicate KeyedById(ledgers: map<string, Ledger>, transactions: map<string, Transaction>) {
    (forall k :: k in ledgers ==> ledgers[k].id == k) &&
    (forall k :: k in transactions ==> transactions[k].id == k)
  }

  /** Every transaction belongs to a stored ledger. */
  ghost predicate Integrity(ledgers: map<string, Ledger>, transactions: map<string, Transaction>) {
    forall k :: k in transactions ==> transactions[k].ledgerId in ledgers
  }

  /** The transactions table after `.delete().eq('ledger_id', id)`. */
  function WithoutLedger(transactions: map<string, Transaction>, id: string): (r: map<string, Transaction>) {
    map k | k in transactions && transactions[k].ledgerId != id :: transactions[k]
  }

  /** The cascade deletes exactly the rows of that ledger and keeps the others as they were. */
  lemma WithoutLedgerRows(transactions: map<string, Transaction>, id: string)
    ensures forall k :: k in WithoutLedger(transactions, id) <==> k in transactions && transactions[k].ledgerId != id
    ensures forall k :: k in WithoutLedger(transactions, id) ==> WithoutLedger(transactions, id)[k] == transactions[k]
    ensures forall k :: k in WithoutLedger(transactions, id) ==> WithoutLedger(transactions, id)[k].ledgerId != id
  {
  }

  /** Deleting the transactions first and then the ledger keeps every transaction's ledger stored. */
  lemma CascadeKeepsIntegrity(ledgers: map<string, Ledger>, transactions: map<string, Transaction>, id: string)
    requires Integrity(ledgers, transactions)
    ensures Integrity(ledgers, WithoutLedger(transactions, id))
    ensures Integrity(ledgers - {id}, WithoutLedger(transactions, id))
  {
  }

  /** The other order would orphan the ledger's transactions: this is why they go first. */
  lemma LedgerFirstOrphans(ledgers: map<string, Ledger>, transactions: map<string, Transaction>, id: string, k: string)
    requires k in transactions && transactions[k].ledgerId == id
    ensures !Integrity(ledgers - {id}, transactions)
  {
  }

  /** The two tables, as the store functions see them. */
  class Tables {
    var ledgers: map<string, Ledger>
    var transactions: map<string, Transaction>

    ghost predicate Valid()
      reads this
    {
      KeyedById(ledgers, transactions) && Integrity(ledgers, transactions)
    }

    constructor ()
      ensures Valid()
      ensures ledgers == map[] && transactions == map[]
    {
      ledgers := map[];
      transactions := map[];
    }

    /**
     * `updateTransaction(id, updates)`: null, with nothing written, when no row has that id
     * or the upsert fails; otherwise the merged row, which replaces the old one.
     */
    method UpdateTransaction(id: string, updates: TransactionUpdate, upsertOk: bool) returns (r: Option<Transaction>)
      requires Valid()
      modifies this
      ensures Valid()
      ensures ledgers == old(ledgers)
      ensures id !in old(transactions) || !upsertOk ==> r.None? && transactions == old(transactions)
      ensures id in old(transactions) && upsertOk ==>
        r == Some(MergeTransaction(old(transactions)[id], updates)) &&
        transactions == old(transactions)[id := r.value]
    {
      if id !in transactions {
        return None;
      }
      var existing := transactions[id];
      var merged := MergeTransaction(existing, updates);
      if !upsertOk {
        return None;
      }
      transactions := transactions[id := merged];
      r := Some(merged);
    }

    /** `updateLedger(id, updates)`, by the same rules. */
    method UpdateLedger(id: string, updates: LedgerUpdate, upsertOk: bool) returns (r: Option<Ledger>)
      requires Valid()
      modifies this
      ensures Valid()
      ensures transactions == old(transactions)
      ensures id !in old(ledgers) || !upsertOk ==> r.None? && ledgers == old(ledgers)
      ensures id in old(ledgers) && upsertOk ==>
        r == Some(MergeLedger(old(ledgers)[id], updates)) &&
        ledgers == old(ledgers)[id := r.value]
    {
      if id !in ledgers {
        return None;
      }
      var existing := ledgers[id];
      var merged := MergeLedger(existing, updates);
      if !upsertOk {
        return None;
      }
      ledgers := ledgers[id := merged];
      r := Some(merged);
    }

    /**
     * `deleteLedger(id)`: the ledger's transactions are deleted first; if that fails nothing
     * else happens. The ledger row goes next; if that fails the transactions stay deleted.
     * The result is true exactly when both deletions succeeded.
     */
    method DeleteLedger(id: string, transactionsDeleteOk: bool, ledgerDeleteOk: bool) returns (ok: bool)
      requires Valid()
      modifies this
      ensures Valid()
      ensures ok <==> transactionsDeleteOk && ledgerDeleteOk
      ensures !transactionsDeleteOk ==> ledgers == old(ledgers) && transactions == old(transactions)
      ensures transactionsDeleteOk ==> transactions == WithoutLedger(old(transactions), id)
      ensures ledgers == if ok then old(ledgers) - {id} else old(ledgers)
      ensures ok ==> forall k :: k in transactions ==> transactions[k].ledgerId != id
    {
      if !transactionsDeleteOk {
        return false;
      }
      transactions := WithoutLedger(transactions, id);
      if !ledgerDeleteOk {
        return false;
      }
      ledgers := ledgers - {id};
      ok := true;
    }
  }
}
