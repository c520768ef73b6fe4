/**
 * The lendings view of a ledger: its transactions grouped by counterparty into per-person
 * balances, the list of known people, the name search, and the owed / owing / settled
 * split with its two totals. Cash out is money lent (the person owes you), cash in is
 * money received back.
 */
module LendingsDashboard {
  import opened Wrappers
  import opened JsString
  import opened Seqs
  import opened Grouping
  import opened Supabase

  /** One counterparty's standing; a positive balance means they owe you. */
  datatype PersonBalance = PersonBalance(
    name: string,
    balance: real,
    totalLent: real,
    totalReceived: real,
    transactions: seq<Transaction>,
    lastTransactionDate: int)

  /** What a transaction adds to the balance: `+amount` when lent, `-amount` when received. */
  function Signed(t: Transaction): real {
    if t.txType == CashOut then t.amount else -t.amount
  }

  function Balance(p: PersonBalance): real {
    p.balance
  }

  function Abs(x: real): real {
    if x < 0.0 then -x else x
  }

  /** The latest creation time in a non-empty group. */
  function MaxCreated(g: seq<Transaction>): (m: int)
    requires g != []
    ensures exists i :: 0 <= i < |g| && g[i].createdAt == m
    ensures forall i :: 0 <= i < |g| ==> g[i].createdAt <= m
  {
    if |g| == 1 then g[0].createdAt
    else
      var p := MaxCreated(g[..|g| - 1]);
      assert forall i :: 0 <= i < |g| - 1 ==> g[..|g| - 1][i] == g[i];
      if g[|g| - 1].createdAt > p then g[|g| - 1].createdAt else p
  }

  /** The comparator `b.created_at - a.created_at`: newest first. */
  predicate NewerFirst(a: Transaction, b: Transaction) {
    a.createdAt >= b.createdAt
  }

  /** The comparator `|b.balance| - |a.balance|`: largest absolute balance first. */
  predicate LargerBalance(a: PersonBalance, b: PersonBalance) {
    Abs(a.balance) >= Abs(b.balance)
  }

  /** The entry summing up the non-empty group `g` of person `k`. */
  function Summary(k: string, g: seq<Transaction>): PersonBalance
    requires g != []
  {
    PersonBalance(k, SumBy(g, Signed), SumBy(g, OutAmount), SumBy(g, InAmount), g, MaxCreated(g))
  }

  /** The entry for `k` after the transactions `s` have been folded in, before any sorting. */
  function Partial(s: seq<Transaction>, k: string): PersonBalance
    requires k in Keys(s, PersonOrUnknown)
  {
    GroupNonEmpty(s, PersonOrUnknown, k);
    Summary(k, Group(s, PersonOrUnknown, k))
  }

  /** The entry for `k` with its transactions sorted newest first. */
  function Finished(s: seq<Transaction>, k: string): PersonBalance
    requires k in Keys(s, PersonOrUnknown)
  {
    NewestFirst(Partial(s, k))
  }

  /** An entry with its transactions sorted newest first. */
  function NewestFirst(p: PersonBalance): PersonBalance {
    p.(transactions := Sort(p.transactions, NewerFirst))
  }

  /** One finished entry per person, in order of first appearance. */
  function Entries(s: seq<Transaction>): seq<PersonBalance> {
    var ks := Keys(s, PersonOrUnknown);
    seq(|ks|, j requires 0 <= j < |ks| => Finished(s, ks[j]))
  }

  /** The specification of `personBalances`: the entries, largest absolute balance first. */
  function PersonBalancesOf(s: seq<Transaction>): (r: seq<PersonBalance>) {
    Sort(Entries(s), LargerBalance)
  }

  /** Folding one more transaction into the entries leaves the other people's entries alone. */
  lemma PartialSnocOther(s: seq<Transaction>, t: Transaction, k: string)
    requires k in Keys(s + [t], PersonOrUnknown) && PersonOrUnknown(t) != k
    ensures k in Keys(s, PersonOrUnknown) && Partial(s + [t], k) == Partial(s, k)
  {
    KeysSnoc(s, t, PersonOrUnknown);
    GroupSnoc(s, t, PersonOrUnknown, k);
    assert Group(s, PersonOrUnknown, k) + [] == Group(s, PersonOrUnknown, k);
  }

  /** Folding a transaction into its own person's entry extends that person's group. */
  lemma PartialSnocOwn(s: seq<Transaction>, t: Transaction)
    ensures PersonOrUnknown(t) in Keys(s + [t], PersonOrUnknown)
    ensures Partial(s + [t], PersonOrUnknown(t)) == Summary(PersonOrUnknown(t), Group(s, PersonOrUnknown, PersonOrUnknown(t)) + [t])
  {
    KeysSnoc(s, t, PersonOrUnknown);
    GroupSnoc(s, t, PersonOrUnknown, PersonOrUnknown(t));
  }

  /** Adding a transaction to a group adds it to every field of the summary. */
  lemma SummarySnoc(k: string, g: seq<Transaction>, t: Transaction)
    ensures Summary(k, g + [t]) == PersonBalance(
        k,
        SumBy(g, Signed) + Signed(t),
        SumBy(g, OutAmount) + OutAmount(t),
        SumBy(g, InAmount) + InAmount(t),
        g + [t],
        if g == [] then t.createdAt
        else if t.createdAt > MaxCreated(g) then t.createdAt
        else MaxCreated(g))
  {
    SumBySnoc(g, t);
    MaxCreatedSnoc(g, t);
  }

  lemma SumBySnoc(g: seq<Transaction>, t: Transaction)
    ensures SumBy(g + [t], Signed) == SumBy(g, Signed) + Signed(t)
    ensures SumBy(g + [t], OutAmount) == SumBy(g, OutAmount) + OutAmount(t)
    ensures SumBy(g + [t], InAmount) == SumBy(g, InAmount) + InAmount(t)
  {
    assert (g + [t])[..|g|] == g;
  }

  lemma MaxCreatedSnoc(g: seq<Transaction>, t: Transaction)
    ensures MaxCreated(g + [t]) ==
      if g == [] then t.createdAt
      else if t.createdAt > MaxCreated(g) then t.createdAt
      else MaxCreated(g)
  {
    assert (g + [t])[..|g|] == g;
  }

  /** The entry a person starts from when their first transaction `t` is met. */
  function Fresh(name: string, t: Transaction): PersonBalance {
    PersonBalance(name, 0.0, 0.0, 0.0, [], t.createdAt)
  }

  /** What one transaction does to its person's entry: it is appended and its amount counted. */
  function Extend(p: PersonBalance, t: Transaction): (q: PersonBalance)
    ensures q.name == p.name && q.transactions == p.transactions + [t]
    ensures q.balance == p.balance + Signed(t)
    ensures q.totalLent == p.totalLent + OutAmount(t) && q.totalReceived == p.totalReceived + InAmount(t)
    ensures q.lastTransactionDate >= p.lastTransactionDate && q.lastTransactionDate >= t.createdAt
  {
    PersonBalance(
      p.name, p.balance + Signed(t), p.totalLent + OutAmount(t), p.totalReceived + InAmount(t),
      p.transactions + [t], if t.createdAt > p.lastTransactionDate then t.createdAt else p.lastTransactionDate)
  }

  /** The map of entries after the transactions `s` have been folded in one by one. */
  ghost function FoldMap(s: seq<Transaction>): map<string, PersonBalance> {
    if s == [] then map[]
    else
      var m := FoldMap(s[..|s| - 1]);
      var t := s[|s| - 1];
      var name := PersonOrUnknown(t);
      m[name := Extend(if name in m then m[name] else Fresh(name, t), t)]
  }

  /** The folded map holds exactly the people met so far, each with the summary of their group. */
  lemma {:induction false} FoldMapIsSummary(s: seq<Transaction>, k: string)
    ensures k in FoldMap(s) <==> k in Keys(s, PersonOrUnknown)
    ensures k in FoldMap(s) ==> FoldMap(s)[k] == Partial(s, k)
  {
    if s != [] {
      var s', t := s[..|s| - 1], s[|s| - 1];
      assert s == s' + [t];
      FoldMapIsSummary(s', k);
      if k == PersonOrUnknown(t) {
        FoldMapStepOwn(s', t);
      } else {
        FoldMapStepOther(s', t, k);
      }
    }
  }

  /** Folding one more transaction extends the entry of its person. */
  lemma FoldMapSnoc(s: seq<Transaction>, t: Transaction)
    ensures var m, name := FoldMap(s), PersonOrUnknown(t);
      FoldMap(s + [t]) == m[name := Extend(if name in m then m[name] else Fresh(name, t), t)]
  {
    assert (s + [t])[..|s|] == s;
  }

  lemma FoldMapStepOwn(s: seq<Transaction>, t: Transaction)
    requires var name := PersonOrUnknown(t);
      && (name in FoldMap(s) <==> name in Keys(s, PersonOrUnknown))
      && (name in FoldMap(s) ==> FoldMap(s)[name] == Partial(s, name))
    ensures var name := PersonOrUnknown(t);
      && name in FoldMap(s + [t]) && name in Keys(s + [t], PersonOrUnknown)
      && FoldMap(s + [t])[name] == Partial(s + [t], name)
  {
    var name := PersonOrUnknown(t);
    var g := Group(s, PersonOrUnknown, name);
    FoldMapSnoc(s, t);
    PartialSnocOwn(s, t);
    GroupNonEmpty(s, PersonOrUnknown, name);
    if g == [] {
      SummaryOfFirst(name, t);
      assert g + [t] == [t];
    } else {
      SummaryExtend(name, g, t);
    }
  }

  /** A person's first transaction makes their entry from the fresh one. */
  lemma SummaryOfFirst(name: string, t: Transaction)
    ensures Summary(name, [t]) == Extend(Fresh(name, t), t)
  {
    SummarySnoc(name, [], t);
    assert [] + [t] == [t];
  }

  /** Each later transaction extends the entry of the group met so far. */
  lemma SummaryExtend(name: string, g: seq<Transaction>, t: Transaction)
    requires g != []
    ensures Summary(name, g + [t]) == Extend(Summary(name, g), t)
  {
    SummarySnoc(name, g, t);
  }

  lemma FoldMapStepOther(s: seq<Transaction>, t: Transaction, k: string)
    requires k != PersonOrUnknown(t)
    requires k in FoldMap(s) <==> k in Keys(s, PersonOrUnknown)
    requires k in FoldMap(s) ==> FoldMap(s)[k] == Partial(s, k)
    ensures k in FoldMap(s + [t]) <==> k in Keys(s + [t], PersonOrUnknown)
    ensures k in FoldMap(s + [t]) ==> FoldMap(s + [t])[k] == Partial(s + [t], k)
  {
    FoldMapSnoc(s, t);
    KeysSnoc(s, t, PersonOrUnknown);
    if k in Keys(s + [t], PersonOrUnknown) {
      PartialSnocOther(s, t, k);
    }
  }

  /** The pass adds the person of a transaction to the names met exactly when the map does not hold them yet. */
  lemma KeysOfFold(s: seq<Transaction>, t: Transaction)
    ensures var name := PersonOrUnknown(t);
      Keys(s + [t], PersonOrUnknown) == if name in FoldMap(s) then Keys(s, PersonOrUnknown) else Keys(s, PersonOrUnknown) + [name]
  {
    KeysSnoc(s, t, PersonOrUnknown);
    FoldMapIsSummary(s, PersonOrUnknown(t));
  }

  /** The folded map is keyed by exactly the people met, each with the summary of their group. */
  lemma FoldMapSpec(s: seq<Transaction>)
    ensures forall k :: k in FoldMap(s) <==> k in Keys(s, PersonOrUnknown)
    ensures forall k :: k in FoldMap(s) ==> FoldMap(s)[k] == Partial(s, k)
  {
    forall k
      ensures k in FoldMap(s) <==> k in Keys(s, PersonOrUnknown)
      ensures k in FoldMap(s) ==> FoldMap(s)[k] == Partial(s, k)
    {
      FoldMapIsSummary(s, k);
    }
  }

  /** Entries read off such a map, one per person in order of first appearance, are the entries. */
  lemma EntriesFromMap(s: seq<Transaction>, m: map<string, PersonBalance>, values: seq<PersonBalance>)
    requires forall k :: k in Keys(s, PersonOrUnknown) ==> k in m && m[k] == Partial(s, k)
    requires |values| == |Keys(s, PersonOrUnknown)|
    requires forall q :: 0 <= q < |values| ==> values[q] == NewestFirst(m[Keys(s, PersonOrUnknown)[q]])
    ensures values == Entries(s)
  {
  }

  /**
   * `personBalances`: one pass over the transactions updates a map from names to entries
   * field by field; then every entry's transactions are sorted and the entries are sorted
   * by absolute balance.
   */
  method PersonBalances(txs: seq<Transaction>) returns (r: seq<PersonBalance>)
    ensures r == PersonBalancesOf(txs)
  {
    var order, balanceMap := FoldBalances(txs);
    var values := SortHistories(order, balanceMap);
    EntriesFromMap(txs, balanceMap, values);
    r := Sort(values, LargerBalance);
  }

  /** The second pass of `personBalances`: each entry's transactions sorted newest first, in the order of `order`. */
  method SortHistories(order: seq<string>, balanceMap: map<string, PersonBalance>) returns (values: seq<PersonBalance>)
    requires forall k :: k in order ==> k in balanceMap
    ensures |values| == |order|
    ensures forall q :: 0 <= q < |order| ==> values[q] == NewestFirst(balanceMap[order[q]])
  {
    values := [];
    var j := 0;
    while j < |order|
      invariant 0 <= j <= |order|
      invariant |values| == j
      invariant forall q :: 0 <= q < j ==> values[q] == NewestFirst(balanceMap[order[q]])
    {
      var p := balanceMap[order[j]];
      values := values + [p.(transactions := Sort(p.transactions, NewerFirst))];
      j := j + 1;
    }
  }

  /** The field updates of one transaction on its person's entry. */
  method Apply(p0: PersonBalance, t: Transaction) returns (p: PersonBalance)
    ensures p == Extend(p0, t)
  {
    p := p0.(transactions := p0.transactions + [t]);
    if t.txType == CashOut {
      p := p.(balance := p.balance + t.amount, totalLent := p.totalLent + t.amount);
    } else {
      p := p.(balance := p.balance - t.amount, totalReceived := p.totalReceived + t.amount);
    }
    if t.createdAt > p.lastTransactionDate {
      p := p.(lastTransactionDate := t.createdAt);
    }
  }

  /** The pass of `personBalances` over the transactions: the names met, and the map of their entries. */
  method FoldBalances(txs: seq<Transaction>) returns (order: seq<string>, balanceMap: map<string, PersonBalance>)
    ensures order == Keys(txs, PersonOrUnknown)
    ensures forall k :: k in balanceMap <==> k in order
    ensures forall k :: k in balanceMap ==> balanceMap[k] == Partial(txs, k)
  {
    balanceMap := map[];
    order := [];
    var i := 0;
    while i < |txs|
      invariant 0 <= i <= |txs|
      invariant order == Keys(txs[..i], PersonOrUnknown)
      invariant balanceMap == FoldMap(txs[..i])
    {
      var t := txs[i];
      var name := PersonOrUnknown(t);
      assert txs[..i + 1] == txs[..i] + [t];
      FoldMapSnoc(txs[..i], t);
      KeysOfFold(txs[..i], t);
      if name !in balanceMap {
        balanceMap := balanceMap[name := Fresh(name, t)];
        order := order + [name];
      }
      var p := Apply(balanceMap[name], t);
      balanceMap := balanceMap[name := p];
      i := i + 1;
    }
    assert txs[..i] == txs;
    FoldMapSpec(txs);
  }

  /** The balance is what was lent minus what was received. */
  lemma {:induction false} BalanceSplit(g: seq<Transaction>)
    ensures SumBy(g, Signed) == SumBy(g, OutAmount) - SumBy(g, InAmount)
  {
    if g != [] {
      BalanceSplit(g[..|g| - 1]);
    }
  }

  lemma EntryOf(s: seq<Transaction>, p: PersonBalance)
    requires p in PersonBalancesOf(s)
    ensures p.name in Keys(s, PersonOrUnknown) && p == Finished(s, p.name)
  {
    var es := Entries(s);
    assert p in multiset(PersonBalancesOf(s));
    var j := EntryIndex(es, p);
    EntryAt(s, j);
  }

  /** A position of an element of a sequence. */
  lemma EntryIndex(es: seq<PersonBalance>, p: PersonBalance) returns (j: nat)
    requires p in multiset(es)
    ensures j < |es| && es[j] == p
  {
    assert p in es;
    j :| 0 <= j < |es| && es[j] == p;
  }

  lemma EntryAt(s: seq<Transaction>, j: nat)
    requires j < |Entries(s)|
    ensures j < |Keys(s, PersonOrUnknown)|
    ensures Entries(s)[j] == Finished(s, Keys(s, PersonOrUnknown)[j])
  {
  }

  /**
   * Every entry describes a non-empty group of the input: its totals sum the group's
   * cash-out and cash-in amounts, its balance is their difference, its history is the group
   * newest first, and its last date is the group's latest creation time.
   */
  lemma EntryFacts(s: seq<Transaction>, p: PersonBalance)
    requires p in PersonBalancesOf(s)
    ensures var g := Group(s, PersonOrUnknown, p.name);
      && g != []
      && p.totalLent == SumBy(g, OutAmount)
      && p.totalReceived == SumBy(g, InAmount)
      && p.balance == p.totalLent - p.totalReceived
      && multiset(p.transactions) == multiset(g)
      && (forall i, j :: 0 <= i < j < |p.transactions| ==> p.transactions[i].createdAt >= p.transactions[j].createdAt)
      && (exists i :: 0 <= i < |g| && g[i].createdAt == p.lastTransactionDate)
      && (forall i :: 0 <= i < |g| ==> g[i].createdAt <= p.lastTransactionDate)
  {
    EntryOf(s, p);
    var g := Group(s, PersonOrUnknown, p.name);
    GroupNonEmpty(s, PersonOrUnknown, p.name);
    BalanceSplit(g);
    forall i, j | 0 <= i < j < |p.transactions|
      ensures p.transactions[i].createdAt >= p.transactions[j].createdAt
    {
      SortedPairwise(p.transactions, NewerFirst, i, j);
    }
  }

  /** The people are listed by non-increasing absolute balance. */
  lemma OrderedByBalance(s: seq<Transaction>, i: int, j: int)
    requires 0 <= i < j < |PersonBalancesOf(s)|
    ensures Abs(PersonBalancesOf(s)[i].balance) >= Abs(PersonBalancesOf(s)[j].balance)
  {
    SortedPairwise(PersonBalancesOf(s), LargerBalance, i, j);
  }

  /** Every transaction's person has an entry. */
  lemma EveryPersonListed(s: seq<Transaction>, i: int)
    requires 0 <= i < |s|
    ensures exists q :: 0 <= q < |PersonBalancesOf(s)| && PersonBalancesOf(s)[q].name == PersonOrUnknown(s[i])
  {
    var ks := Keys(s, PersonOrUnknown);
    KeysCover(s, PersonOrUnknown);
    var j :| 0 <= j < |ks| && ks[j] == PersonOrUnknown(s[i]);
    var q := EntryListed(s, j);
  }

  /** The entry of the `j`-th person met stands somewhere in the sorted list. */
  lemma EntryListed(s: seq<Transaction>, j: int) returns (q: int)
    requires 0 <= j < |Keys(s, PersonOrUnknown)|
    ensures 0 <= q < |PersonBalancesOf(s)| && PersonBalancesOf(s)[q].name == Keys(s, PersonOrUnknown)[j]
  {
    var e := Entries(s);
    var r := PersonBalancesOf(s);
    assert e[j].name == Keys(s, PersonOrUnknown)[j];
    assert e[j] in multiset(r);
    q :| 0 <= q < |r| && r[q] == e[j];
  }

  /** No person has two entries. */
  lemma NamesDistinct(s: seq<Transaction>, a: int, b: int)
    requires 0 <= a < b < |PersonBalancesOf(s)|
    ensures PersonBalancesOf(s)[a].name != PersonBalancesOf(s)[b].name
  {
    var r := PersonBalancesOf(s);
    var e := Entries(s);
    var ks := Keys(s, PersonOrUnknown);
    KeysDistinct(s, PersonOrUnknown);
    assert Distinct(e) by {
      forall x, y | 0 <= x < y < |e|
        ensures e[x] != e[y]
      {
        assert e[x].name == ks[x] && e[y].name == ks[y];
      }
    }
    PermutationPreservesDistinct(e, r);
    EntryOf(s, r[a]);
    EntryOf(s, r[b]);
  }

  /** The balances of the first `n` entries add up to the signed sums of the first `n` groups. */
  lemma {:induction false} EntriesSum(s: seq<Transaction>, n: int)
    requires 0 <= n <= |Keys(s, PersonOrUnknown)|
    ensures SumBy(Entries(s)[..n], Balance) == SumGroups(s, PersonOrUnknown, Keys(s, PersonOrUnknown)[..n], Signed)
  {
    var ks := Keys(s, PersonOrUnknown);
    var e := Entries(s);
    if n > 0 {
      EntriesSum(s, n - 1);
      SumByPrefix(e, n, Balance);
      SumGroupsPrefix(s, PersonOrUnknown, ks, n, Signed);
      EntryBalance(s, n - 1);
    }
  }

  /** The balance of the `j`-th entry is the signed sum of the `j`-th person's group. */
  lemma EntryBalance(s: seq<Transaction>, j: int)
    requires 0 <= j < |Keys(s, PersonOrUnknown)|
    ensures Entries(s)[j].balance == SumBy(Group(s, PersonOrUnknown, Keys(s, PersonOrUnknown)[j]), Signed)
  {
  }

  /** The balances add up to everything lent minus everything received. */
  lemma BalancesTotal(s: seq<Transaction>)
    ensures SumBy(PersonBalancesOf(s), Balance) == SumBy(s, OutAmount) - SumBy(s, InAmount)
  {
    var ks := Keys(s, PersonOrUnknown);
    var e := Entries(s);
    assert SumBy(PersonBalancesOf(s), Balance) == SumBy(e, Balance) by {
      SortSum(e, LargerBalance, Balance);
    }
    assert SumBy(e, Balance) == SumGroups(s, PersonOrUnknown, ks, Signed) by {
      EntriesSum(s, |ks|);
      assert e[..|ks|] == e;
      assert ks[..|ks|] == ks;
    }
    GroupSumsTotal(s, PersonOrUnknown, Signed);
    BalanceSplit(s);
  }

  /** `t.person` when it is present and non-empty (`if (t.person)`). */
  predicate NamedIn(s: seq<Transaction>, name: string) {
    exists i :: 0 <= i < |s| && s[i].person == Some(name) && name != ""
  }

  /** `existingPeople`: the distinct non-empty person fields, collected in a set and sorted. */
  method ExistingPeople(txs: seq<Transaction>) returns (people: seq<string>)
    ensures Sorted(people, LexLe)
    ensures Distinct(people)
    ensures forall name :: name in people <==> NamedIn(txs, name)
  {
    var seen: set<string> := {};
    var order: seq<string> := [];
    for i := 0 to |txs|
      invariant seen == set x | x in order
      invariant Distinct(order)
      invariant forall name :: name in order <==> NamedIn(txs[..i], name)
    {
      var t := txs[i];
      assert txs[..i + 1] == txs[..i] + [t];
      if t.person.Some? && t.person.value != "" && t.person.value !in seen {
        seen := seen + {t.person.value};
        order := order + [t.person.value];
      }
      forall name
        ensures name in order <==> NamedIn(txs[..i + 1], name)
      {
        if NamedIn(txs[..i], name) {
          var j :| 0 <= j < i && txs[..i][j].person == Some(name) && name != "";
          assert txs[..i + 1][j] == txs[..i][j];
        }
      }
    }
    assert txs[..|txs|] == txs;
    LexTotal();
    people := Sort(order, LexLe);
    PermutationPreservesDistinct(order, people);
    assert forall name :: name in people <==> name in multiset(order);
  }

  /** The search predicate: the lower-cased name contains the lower-cased query. */
  function MatchesSearch(query: string): PersonBalance -> bool {
    (p: PersonBalance) => Includes(Lower(p.name), Lower(query))
  }

  /** `filteredPeople`. */
  function FilteredPeople(people: seq<PersonBalance>, query: string): (r: seq<PersonBalance>) {
    Filter(people, MatchesSearch(query))
  }

  /** The search keeps exactly the people whose name contains the query, in their order. */
  lemma SearchKeeps(people: seq<PersonBalance>, query: string) returns (idx: seq<int>)
    ensures forall p :: p in FilteredPeople(people, query) <==> p in people && Includes(Lower(p.name), Lower(query))
    ensures Embeds(FilteredPeople(people, query), people, idx)
  {
    FilterMembers(people, MatchesSearch(query));
    idx := FilterEmbeds(people, MatchesSearch(query));
  }

  /** The empty query keeps everyone. */
  lemma EmptySearch(people: seq<PersonBalance>)
    ensures FilteredPeople(people, "") == people
  {
    forall i | 0 <= i < |people|
      ensures MatchesSearch("")(people[i])
    {
      IncludesEmpty(Lower(people[i].name));
    }
    FilterAll(people, MatchesSearch(""));
  }

  predicate OwesYou(p: PersonBalance) {
    p.balance > 0.0
  }

  predicate YouOwe(p: PersonBalance) {
    p.balance < 0.0
  }

  predicate IsSettled(p: PersonBalance) {
    p.balance == 0.0 && |p.transactions| > 0
  }

  function TheyOweYou(people: seq<PersonBalance>): (r: seq<PersonBalance>) {
    Filter(people, OwesYou)
  }

  function YouOweThem(people: seq<PersonBalance>): (r: seq<PersonBalance>) {
    Filter(people, YouOwe)
  }

  function Settled(people: seq<PersonBalance>): (r: seq<PersonBalance>) {
    Filter(people, IsSettled)
  }

  /** Among the searched people, everyone is in exactly one of the three lists. */
  lemma Partition(s: seq<Transaction>, query: string)
    ensures var fp := FilteredPeople(PersonBalancesOf(s), query);
      forall p :: p in fp ==>
        && (p in TheyOweYou(fp) <==> p.balance > 0.0)
        && (p in YouOweThem(fp) <==> p.balance < 0.0)
        && (p in Settled(fp) <==> p.balance == 0.0)
    ensures var fp := FilteredPeople(PersonBalancesOf(s), query);
      forall p :: p in TheyOweYou(fp) || p in YouOweThem(fp) || p in Settled(fp) ==> p in fp
  {
    var fp := FilteredPeople(PersonBalancesOf(s), query);
    FilterMembers(PersonBalancesOf(s), MatchesSearch(query));
    FilterMembers(fp, OwesYou);
    FilterMembers(fp, YouOwe);
    FilterMembers(fp, IsSettled);
    forall p | p in fp
      ensures |p.transactions| > 0
    {
      EntryFacts(s, p);
    }
  }

  /** `totalOwedToYou`. */
  function TotalOwedToYou(people: seq<PersonBalance>): (r: real) {
    SumBy(TheyOweYou(people), Balance)
  }

  /** `totalYouOwe`: the absolute value of the sum of the negative balances. */
  function TotalYouOwe(people: seq<PersonBalance>): (r: real) {
    Abs(SumBy(YouOweThem(people), Balance))
  }

  lemma {:induction false} SplitSum(people: seq<PersonBalance>)
    ensures SumBy(people, Balance) == SumBy(TheyOweYou(people), Balance) + SumBy(YouOweThem(people), Balance)
    ensures SumBy(TheyOweYou(people), Balance) >= 0.0
    ensures SumBy(YouOweThem(people), Balance) <= 0.0
  {
    if people != [] {
      var pre := people[..|people| - 1];
      var p := people[|people| - 1];
      SplitSum(pre);
      var a, b := Filter(pre, OwesYou), Filter(pre, YouOwe);
      if OwesYou(p) {
        assert (a + [p])[..|a|] == a;
      } else {
        assert a + [] == a;
      }
      if YouOwe(p) {
        assert (b + [p])[..|b|] == b;
      } else {
        assert b + [] == b;
      }
    }
  }

  /**
   * The owed total is the sum of the positive balances, the owing total is the sum of the
   * negative balances' magnitudes, and their difference is the net of the listed balances.
   */
  lemma Totals(people: seq<PersonBalance>)
    ensures TotalOwedToYou(people) >= 0.0 && TotalYouOwe(people) >= 0.0
    ensures TotalYouOwe(people) == -SumBy(YouOweThem(people), Balance)
    ensures TotalOwedToYou(people) - TotalYouOwe(people) == SumBy(people, Balance)
  {
    SplitSum(people);
  }

  /** With no search, the two totals net out to everything lent minus everything received. */
  lemma NetOfAll(s: seq<Transaction>)
    ensures TotalOwedToYou(FilteredPeople(PersonBalancesOf(s), "")) - TotalYouOwe(FilteredPeople(PersonBalancesOf(s), ""))
      == SumBy(s, OutAmount) - SumBy(s, InAmount)
  {
    EmptySearch(PersonBalancesOf(s));
    Totals(PersonBalancesOf(s));
    BalancesTotal(s);
  }
}
