/**
 * The summary charts of a ledger: spending by category, money by person and by payment
 * mode, and income by category. Each chart adds the amounts of its transactions up per
 * key, gives each key a colour by its position, and lists the keys by decreasing total.
 */
module SummaryCharts {
  import opened Seqs
  import opened Grouping
  import opened Supabase
  import opened LedgerDashboard

  const CHART_COLORS: seq<string> := [
    "hsl(160, 60%, 45%)", "hsl(280, 60%, 55%)", "hsl(45, 80%, 55%)", "hsl(210, 70%, 50%)",
    "hsl(180, 50%, 45%)", "hsl(330, 60%, 55%)", "hsl(0, 65%, 55%)", "hsl(260, 60%, 45%)",
    "hsl(90, 50%, 50%)", "hsl(25, 80%, 55%)"]

  /** One slice or bar: a key, the total of its transactions and its colour. */
  datatype ChartEntry = ChartEntry(name: string, value: real, fill: string)

  function Value(e: ChartEntry): real {
    e.value
  }

  /** `expenses`: the cash-out transactions. */
  function Expenses(txs: seq<Transaction>): seq<Transaction> {
    Filter(txs, IsCashOut)
  }

  /** `income`: the cash-in transactions. */
  function Income(txs: seq<Transaction>): seq<Transaction> {
    Filter(txs, IsCashIn)
  }

  /** Every transaction is an expense or an income and not both, and the two totals add up to all amounts. */
  lemma ExpensesAndIncome(txs: seq<Transaction>)
    ensures forall t :: t in txs ==> (t in Expenses(txs) <==> t !in Income(txs))
    ensures forall t :: t in Expenses(txs) || t in Income(txs) ==> t in txs
    ensures TotalOut(txs) + TotalIn(txs) == SumBy(txs, Amount)
  {
    FilterMembers(txs, IsCashOut);
    FilterMembers(txs, IsCashIn);
    TotalsCoverAll(txs);
  }

  /** The total of the transactions of `s` whose key is `k`. */
  function GroupTotal(s: seq<Transaction>, key: Transaction -> string, k: string): real {
    SumBy(Group(s, key, k), Amount)
  }

  /** `Object.entries(grouped).map(...)`: the keys in order of first appearance, coloured by position. */
  function Unsorted(s: seq<Transaction>, key: Transaction -> string): seq<ChartEntry> {
    var ks := Keys(s, key);
    seq(|ks|, j requires 0 <= j < |ks| => ChartEntry(ks[j], GroupTotal(s, key, ks[j]), CHART_COLORS[j % |CHART_COLORS|]))
  }

  /** The comparator `b.value - a.value`: larger totals first. */
  predicate LargerValue(a: ChartEntry, b: ChartEntry) {
    a.value >= b.value
  }

  /** The data of one chart. */
  function Chart(s: seq<Transaction>, key: Transaction -> string): (r: seq<ChartEntry>) {
    Sort(Unsorted(s, key), LargerValue)
  }

  /** `categoryData`: spending by category. */
  function CategoryData(txs: seq<Transaction>): (r: seq<ChartEntry>) {
    Chart(Expenses(txs), Category)
  }

  /** `personData`: all money by person, "Unknown" when the person is missing or empty. */
  function PersonData(txs: seq<Transaction>): (r: seq<ChartEntry>) {
    Chart(txs, PersonOrUnknown)
  }

  /** `paymentModeData`: all money by payment mode, "Unknown" when the mode is missing or empty. */
  function PaymentModeData(txs: seq<Transaction>): (r: seq<ChartEntry>) {
    Chart(txs, PaymentModeOrUnknown)
  }

  /** `incomeCategoryData`: income by category. */
  function IncomeCategoryData(txs: seq<Transaction>): (r: seq<ChartEntry>) {
    Chart(Income(txs), Category)
  }

  /** The running totals after the transactions `s` have been added in one by one. */
  ghost function TotalsMap(s: seq<Transaction>, key: Transaction -> string): map<string, real> {
    if s == [] then map[]
    else
      var m := TotalsMap(s[..|s| - 1], key);
      var t := s[|s| - 1];
      m[key(t) := (if key(t) in m then m[key(t)] else 0.0) + t.amount]
  }

  lemma TotalsMapSnoc(s: seq<Transaction>, t: Transaction, key: Transaction -> string)
    ensures var m := TotalsMap(s, key);
      TotalsMap(s + [t], key) == m[key(t) := (if key(t) in m then m[key(t)] else 0.0) + t.amount]
  {
    assert (s + [t])[..|s|] == s;
  }

  /** The running totals hold exactly the keys met so far, each with the total of its group. */
  lemma {:induction false} TotalsMapIsTotal(s: seq<Transaction>, key: Transaction -> string, k: string)
    ensures k in TotalsMap(s, key) <==> k in Keys(s, key)
    ensures k in TotalsMap(s, key) ==> TotalsMap(s, key)[k] == GroupTotal(s, key, k)
  {
    if s != [] {
      var s', t := s[..|s| - 1], s[|s| - 1];
      assert s == s' + [t];
      TotalsMapIsTotal(s', key, k);
      if key(t) == k {
        TotalsStepOwn(s', t, key);
      } else {
        TotalsStepOther(s', t, key, k);
      }
    }
  }

  lemma TotalsStepOwn(s: seq<Transaction>, t: Transaction, key: Transaction -> string)
    requires key(t) in TotalsMap(s, key) <==> key(t) in Keys(s, key)
    requires key(t) in TotalsMap(s, key) ==> TotalsMap(s, key)[key(t)] == GroupTotal(s, key, key(t))
    ensures key(t) in TotalsMap(s + [t], key) && key(t) in Keys(s + [t], key)
    ensures TotalsMap(s + [t], key)[key(t)] == GroupTotal(s + [t], key, key(t))
  {
    TotalsMapSnoc(s, t, key);
    KeysSnoc(s, t, key);
    GroupSnoc(s, t, key, key(t));
    var g := Group(s, key, key(t));
    assert SumBy(g + [t], Amount) == SumBy(g, Amount) + t.amount by {
      assert (g + [t])[..|g|] == g;
    }
    if key(t) !in TotalsMap(s, key) {
      GroupNonEmpty(s, key, key(t));
    }
  }

  lemma TotalsStepOther(s: seq<Transaction>, t: Transaction, key: Transaction -> string, k: string)
    requires key(t) != k
    requires k in TotalsMap(s, key) <==> k in Keys(s, key)
    requires k in TotalsMap(s, key) ==> TotalsMap(s, key)[k] == GroupTotal(s, key, k)
    ensures k in TotalsMap(s + [t], key) <==> k in Keys(s + [t], key)
    ensures k in TotalsMap(s + [t], key) ==> TotalsMap(s + [t], key)[k] == GroupTotal(s + [t], key, k)
  {
    TotalsMapSnoc(s, t, key);
    KeysSnoc(s, t, key);
    GroupSnoc(s, t, key, k);
    assert Group(s, key, k) + [] == Group(s, key, k);
  }

  lemma TotalsMapSpec(s: seq<Transaction>, key: Transaction -> string)
    ensures forall k :: k in TotalsMap(s, key) <==> k in Keys(s, key)
    ensures forall k :: k in TotalsMap(s, key) ==> TotalsMap(s, key)[k] == GroupTotal(s, key, k)
  {
    forall k
      ensures k in TotalsMap(s, key) <==> k in Keys(s, key)
      ensures k in TotalsMap(s, key) ==> TotalsMap(s, key)[k] == GroupTotal(s, key, k)
    {
      TotalsMapIsTotal(s, key, k);
    }
  }

  /** A key not yet in the running totals is new to the keys met. */
  lemma KeysOfTotals(s: seq<Transaction>, t: Transaction, key: Transaction -> string)
    ensures Keys(s + [t], key) == if key(t) in TotalsMap(s, key) then Keys(s, key) else Keys(s, key) + [key(t)]
  {
    KeysSnoc(s, t, key);
    TotalsMapIsTotal(s, key, key(t));
  }

  /**
   * The `forEach` pass of a chart: `grouped[k] = (grouped[k] || 0) + t.amount`. The order in
   * which the record received its keys is kept beside it, since `Object.entries` lists them
   * in that order.
   */
  method GroupTotals(s: seq<Transaction>, key: Transaction -> string) returns (order: seq<string>, grouped: map<string, real>)
    ensures order == Keys(s, key)
    ensures forall k :: k in grouped <==> k in order
    ensures forall k :: k in grouped ==> grouped[k] == GroupTotal(s, key, k)
  {
    order := [];
    grouped := map[];
    var i := 0;
    while i < |s|
      invariant 0 <= i <= |s|
      invariant order == Keys(s[..i], key)
      invariant grouped == TotalsMap(s[..i], key)
    {
      var t := s[i];
      var k := key(t);
      assert s[..i + 1] == s[..i] + [t];
      TotalsMapSnoc(s[..i], t, key);
      KeysOfTotals(s[..i], t, key);
      if k !in grouped {
        order := order + [k];
      }
      grouped := grouped[k := (if k in grouped then grouped[k] else 0.0) + t.amount];
      i := i + 1;
    }
    assert s[..i] == s;
    TotalsMapSpec(s, key);
  }

  /** One chart: the totals pass, the entries with their colours, and the sort. */
  method ChartOf(s: seq<Transaction>, key: Transaction -> string) returns (r: seq<ChartEntry>)
    ensures r == Chart(s, key)
  {
    var order, grouped := GroupTotals(s, key);
    var entries := seq(|order|, j requires 0 <= j < |order| => ChartEntry(order[j], grouped[order[j]], CHART_COLORS[j % |CHART_COLORS|]));
    assert entries == Unsorted(s, key);
    r := Sort(entries, LargerValue);
  }

  /** The totals of the first `n` keys add up to the group sums of those keys. */
  lemma {:induction false} UnsortedSum(s: seq<Transaction>, key: Transaction -> string, n: int)
    requires 0 <= n <= |Keys(s, key)|
    ensures SumBy(Unsorted(s, key)[..n], Value) == SumGroups(s, key, Keys(s, key)[..n], Amount)
  {
    if n > 0 {
      UnsortedSum(s, key, n - 1);
      SumByPrefix(Unsorted(s, key), n, Value);
      SumGroupsPrefix(s, key, Keys(s, key), n, Amount);
    }
  }

  /** The values of a chart add up to the total of the transactions it is drawn from. */
  lemma ChartSum(s: seq<Transaction>, key: Transaction -> string)
    ensures SumBy(Chart(s, key), Value) == SumBy(s, Amount)
  {
    var u := Unsorted(s, key);
    var ks := Keys(s, key);
    assert SumBy(Chart(s, key), Value) == SumBy(u, Value) by {
      SortSum(u, LargerValue, Value);
    }
    assert SumBy(u, Value) == SumGroups(s, key, ks, Amount) by {
      UnsortedSum(s, key, |ks|);
      assert u[..|ks|] == u;
      assert ks[..|ks|] == ks;
    }
    GroupSumsTotal(s, key, Amount);
  }

  /** Spending by category adds up to the cash-out total, income by category to the cash-in total. */
  lemma CategoryTotals(txs: seq<Transaction>)
    ensures SumBy(CategoryData(txs), Value) == TotalOut(txs)
    ensures SumBy(IncomeCategoryData(txs), Value) == TotalIn(txs)
  {
    ChartSum(Expenses(txs), Category);
    ChartSum(Income(txs), Category);
  }

  /** The person and payment-mode charts each add up to all the money of the ledger. */
  lemma AllMoneyTotals(txs: seq<Transaction>)
    ensures SumBy(PersonData(txs), Value) == TotalIn(txs) + TotalOut(txs)
    ensures SumBy(PaymentModeData(txs), Value) == TotalIn(txs) + TotalOut(txs)
  {
    ChartSum(txs, PersonOrUnknown);
    ChartSum(txs, PaymentModeOrUnknown);
    TotalsCoverAll(txs);
  }

  /** A chart lists its entries by non-increasing value. */
  lemma ChartOrdered(s: seq<Transaction>, key: Transaction -> string, i: int, j: int)
    requires 0 <= i < j < |Chart(s, key)|
    ensures Chart(s, key)[i].value >= Chart(s, key)[j].value
  {
    SortedPairwise(Chart(s, key), LargerValue, i, j);
  }

  /**
   * Every entry is a key of the transactions with the total of that key's group, coloured
   * by the position at which the key was first met.
   */
  lemma ChartEntryFacts(s: seq<Transaction>, key: Transaction -> string, e: ChartEntry)
    requires e in Chart(s, key)
    ensures exists j :: 0 <= j < |Keys(s, key)| && Keys(s, key)[j] == e.name && e.fill == CHART_COLORS[j % 10]
    ensures e.value == GroupTotal(s, key, e.name)
    ensures Group(s, key, e.name) != []
  {
    assert e in multiset(Unsorted(s, key));
    var j :| 0 <= j < |Unsorted(s, key)| && Unsorted(s, key)[j] == e;
    GroupNonEmpty(s, key, e.name);
  }

  /** Every key of the transactions has an entry. */
  lemma EveryKeyCharted(s: seq<Transaction>, key: Transaction -> string, i: int) returns (q: int)
    requires 0 <= i < |s|
    ensures 0 <= q < |Chart(s, key)| && Chart(s, key)[q].name == key(s[i])
  {
    var ks := Keys(s, key);
    var u := Unsorted(s, key);
    KeysCover(s, key);
    var j :| 0 <= j < |ks| && ks[j] == key(s[i]);
    assert u[j] in multiset(Chart(s, key));
    q :| 0 <= q < |Chart(s, key)| && Chart(s, key)[q] == u[j];
  }

  /** No key has two entries. */
  lemma ChartNamesDistinct(s: seq<Transaction>, key: Transaction -> string, a: int, b: int)
    requires 0 <= a < b < |Chart(s, key)|
    ensures Chart(s, key)[a].name != Chart(s, key)[b].name
  {
    var u := Unsorted(s, key);
    var r := Chart(s, key);
    var ks := Keys(s, key);
    KeysDistinct(s, key);
    assert Distinct(u) by {
      forall x, y | 0 <= x < y < |u|
        ensures u[x] != u[y]
      {
        assert u[x].name == ks[x] && u[y].name == ks[y];
      }
    }
    PermutationPreservesDistinct(u, r);
    assert r[a] in multiset(u) && r[b] in multiset(u);
    var x :| 0 <= x < |u| && u[x] == r[a];
    var y :| 0 <= y < |u| && u[y] == r[b];
    assert x != y;
    assert u[x].name == ks[x] && u[y].name == ks[y];
  }
}
