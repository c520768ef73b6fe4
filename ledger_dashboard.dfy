/**
 * The dashboard of one ledger: the cash-in and cash-out totals and the balance shown on
 * its cards, the search over titles and categories, and the list update after a
 * transaction has been added.
 */
module LedgerDashboard {
  import opened Wrappers
  import opened JsString
  import opened Seqs
  import opened Supabase

  /** `totalIn`: the amounts of the cash-in transactions, added up. */
  function TotalIn(txs: seq<Transaction>): (r: real) {
    SumBy(Filter(txs, IsCashIn), Amount)
  }

  /** `totalOut`: the amounts of the cash-out transactions, added up. */
  function TotalOut(txs: seq<Transaction>): (r: real) {
    SumBy(Filter(txs, IsCashOut), Amount)
  }

  /** `balance`. */
  function NetBalance(txs: seq<Transaction>): (r: real) {
    TotalIn(txs) - TotalOut(txs)
  }

  /** Filtering by type and adding up equals adding up the amount each transaction contributes to its side. */
  lemma {:induction false} TotalsBySide(txs: seq<Transaction>)
    ensures TotalIn(txs) == SumBy(txs, InAmount)
    ensures TotalOut(txs) == SumBy(txs, OutAmount)
  {
    if txs != [] {
      var pre, t := txs[..|txs| - 1], txs[|txs| - 1];
      TotalsBySide(pre);
      var fi, fo := Filter(pre, IsCashIn), Filter(pre, IsCashOut);
      if t.txType == CashIn {
        assert Filter(txs, IsCashIn) == fi + [t];
        assert (fi + [t])[..|fi|] == fi;
        assert Filter(txs, IsCashOut) == fo + [];
        assert fo + [] == fo;
      } else {
        assert Filter(txs, IsCashOut) == fo + [t];
        assert (fo + [t])[..|fo|] == fo;
        assert Filter(txs, IsCashIn) == fi + [];
        assert fi + [] == fi;
      }
    }
  }

  lemma {:induction false} SidesTotal(txs: seq<Transaction>)
    ensures SumBy(txs, InAmount) + SumBy(txs, OutAmount) == SumBy(txs, Amount)
  {
    if txs != [] {
      SidesTotal(txs[..|txs| - 1]);
    }
  }

  /** Together the two totals are the sum of all amounts, and the balance is cash in minus cash out. */
  lemma TotalsCoverAll(txs: seq<Transaction>)
    ensures TotalIn(txs) + TotalOut(txs) == SumBy(txs, Amount)
    ensures NetBalance(txs) == SumBy(txs, InAmount) - SumBy(txs, OutAmount)
  {
    TotalsBySide(txs);
    SidesTotal(txs);
  }

  /** The search predicate: the lower-cased title or category contains the lower-cased query. */
  function MatchesQuery(query: string): Transaction -> bool {
    (t: Transaction) => Includes(Lower(t.title), Lower(query)) || Includes(Lower(t.category), Lower(query))
  }

  /** `filteredTransactions`. */
  function FilteredTransactions(txs: seq<Transaction>, query: string): (r: seq<Transaction>) {
    Filter(txs, MatchesQuery(query))
  }

  /**
   * The search keeps exactly the transactions whose title or category contains the query,
   * ignoring case, as a subsequence of the list in its own order.
   */
  lemma SearchKeeps(txs: seq<Transaction>, query: string) returns (idx: seq<int>)
    ensures forall t :: t in FilteredTransactions(txs, query) <==>
      t in txs && (Includes(Lower(t.title), Lower(query)) || Includes(Lower(t.category), Lower(query)))
    ensures Embeds(FilteredTransactions(txs, query), txs, idx)
  {
    FilterMembers(txs, MatchesQuery(query));
    idx := FilterEmbeds(txs, MatchesQuery(query));
  }

  /** The empty query keeps every transaction. */
  lemma EmptyQuery(txs: seq<Transaction>)
    ensures FilteredTransactions(txs, "") == txs
  {
    forall i | 0 <= i < |txs|
      ensures MatchesQuery("")(txs[i])
    {
      IncludesEmpty(Lower(txs[i].title));
    }
    FilterAll(txs, MatchesQuery(""));
  }

  /** `handleAdd`: the created transaction, when the store returned one, goes to the front. */
  function AfterAdd(txs: seq<Transaction>, created: Option<Transaction>): (r: seq<Transaction>)
    ensures created.None? ==> r == txs
    ensures created.Some? ==> |r| == |txs| + 1 && r[0] == created.value && r[1..] == txs
  {
    match created
    case None => txs
    case Some(t) => [t] + txs
  }

  /** Adding a transaction moves the total of its side by its amount and leaves the other side alone. */
  lemma AddMovesTotals(txs: seq<Transaction>, t: Transaction)
    ensures TotalIn(AfterAdd(txs, Some(t))) == TotalIn(txs) + InAmount(t)
    ensures TotalOut(AfterAdd(txs, Some(t))) == TotalOut(txs) + OutAmount(t)
  {
    var r := AfterAdd(txs, Some(t));
    TotalsBySide(r);
    TotalsBySide(txs);
    SumByCons(t, txs, InAmount);
    SumByCons(t, txs, OutAmount);
  }
}
