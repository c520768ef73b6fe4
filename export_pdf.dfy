/**
 * The parts of the PDF export of a ledger that are computed rather than drawn: the amount
 * format with thousands separators, the summary cards, the table rows with their signed
 * amounts and colours, and the file name.
 */
module ExportPdf {
  import opened JsString
  import opened JsNumber
  import opened Supabase
  import opened LedgerDashboard

  function Abs(x: real): (r: real)
    ensures r >= 0.0 && (r == x || r == -x)
  {
    if x < 0.0 then -x else x
  }

  /** `toFixed(0)` on a non-negative value: the nearest integer, the larger one on a tie. */
  function RoundHalfUp(y: real): (n: nat)
    requires y >= 0.0
    ensures n as real - 0.5 <= y < n as real + 0.5
  {
    (y + 0.5).Floor
  }

  /**
   * Where the pattern `\B(?=(\d{3})+(?!\d))` matches in a string of digits: between two
   * digits, at a position followed by a positive multiple of three digits up to the end.
   */
  predicate CommaAt(d: string, p: int) {
    0 < p < |d| && (|d| - p) % 3 == 0
  }

  /** The digits of `d` from position `p` on, with a comma at every match of the pattern. */
  function Commas(d: string, p: nat): string
    requires p <= |d|
    decreases |d| - p
  {
    if p == |d| then ""
    else (if CommaAt(d, p) then "," else "") + [d[p]] + Commas(d, p + 1)
  }

  /** `.replace(/\B(?=(\d{3})+(?!\d))/g, ',')` on a string of digits. */
  function InsertCommas(d: string): string {
    Commas(d, 0)
  }

  /** `formatAmount`: the rounded magnitude with its thousands separated by commas. */
  function FormatAmount(x: real): (r: string) {
    InsertCommas(NatToString(RoundHalfUp(Abs(x))))
  }

  /** The digits of `d` split into groups of three counted from the right. */
  function Groups(d: string): (gs: seq<string>)
    ensures |gs| >= 1
    decreases |d|
  {
    if |d| <= 3 then [d] else Groups(d[..|d| - 3]) + [d[|d| - 3..]]
  }

  /** The text with its commas deleted. */
  function Uncomma(s: string): string {
    if s == [] then "" else (if s[0] == ',' then "" else [s[0]]) + Uncomma(s[1..])
  }

  lemma {:induction false} UncommaAppend(a: string, b: string)
    ensures Uncomma(a + b) == Uncomma(a) + Uncomma(b)
  {
    if a != [] {
      assert (a + b)[1..] == a[1..] + b;
      UncommaAppend(a[1..], b);
    } else {
      assert a + b == b;
    }
  }

  /** A string of three digits or fewer gets no comma. */
  lemma {:induction false} CommasShort(d: string, p: nat)
    requires p <= |d| <= 3
    ensures Commas(d, p) == d[p..]
    decreases |d| - p
  {
    if p < |d| {
      CommasShort(d, p + 1);
      assert d[p..] == [d[p]] + d[p + 1..];
    }
  }

  /** The last three digits of a longer string follow a comma of their own. */
  lemma {:induction false} CommasPeel(d: string, p: nat)
    requires |d| > 3 && p <= |d| - 3
    ensures Commas(d, p) == Commas(d[..|d| - 3], p) + "," + d[|d| - 3..]
    decreases |d| - p
  {
    if p == |d| - 3 {
      CommasLastThree(d);
    } else {
      CommasPeel(d, p + 1);
      CommasPeelStep(d, p);
    }
  }

  lemma CommasPeelStep(d: string, p: nat)
    requires |d| > 3 && p < |d| - 3
    requires Commas(d, p + 1) == Commas(d[..|d| - 3], p + 1) + "," + d[|d| - 3..]
    ensures Commas(d, p) == Commas(d[..|d| - 3], p) + "," + d[|d| - 3..]
  {
    var d' := d[..|d| - 3];
    var c, x, tail := if CommaAt(d, p) then "," else "", [d[p]], "," + d[|d| - 3..];
    assert Commas(d', p) == c + x + Commas(d', p + 1) by {
      ModShift(|d'| - p);
      assert d'[p] == d[p];
    }
    Regroup(c, x, Commas(d', p + 1), tail);
  }

  lemma Regroup(c: string, x: string, m: string, t: string)
    ensures c + x + (m + t) == (c + x + m) + t
  {
  }

  lemma ModShift(k: int)
    ensures (k + 3) % 3 == k % 3
  {
  }

  lemma CommasLastThree(d: string)
    requires |d| > 3
    ensures Commas(d, |d| - 3) == "," + d[|d| - 3..]
    ensures Commas(d[..|d| - 3], |d| - 3) == ""
  {
    var p := |d| - 3;
    assert !CommaAt(d, p + 2) && !CommaAt(d, p + 1) && CommaAt(d, p);
    CommasStep(d, p + 2);
    SplitFirst(d, p + 2);
    CommasStep(d, p + 1);
    SplitFirst(d, p + 1);
    CommasStep(d, p);
    SplitFirst(d, p);
  }

  lemma SplitFirst(d: string, q: nat)
    requires q < |d|
    ensures d[q..] == [d[q]] + d[q + 1..]
  {
  }

  /** One step of `Commas`. */
  lemma CommasStep(d: string, p: nat)
    requires p < |d|
    ensures Commas(d, p) == (if CommaAt(d, p) then "," else "") + [d[p]] + Commas(d, p + 1)
  {
  }

  /** Inserting commas at the matches of the pattern is joining the groups of three with commas. */
  lemma {:induction false} CommasAreGroups(d: string)
    ensures InsertCommas(d) == Join(Groups(d), ",")
    decreases |d|
  {
    if |d| <= 3 {
      CommasShort(d, 0);
    } else {
      var d' := d[..|d| - 3];
      CommasPeel(d, 0);
      CommasAreGroups(d');
      JoinSnoc(Groups(d'), d[|d| - 3..], ",");
    }
  }

  /** The first group has one to three digits, every later group exactly three. */
  lemma {:induction false} GroupsShape(d: string)
    requires d != [] && AllDigits(d)
    ensures 1 <= |Groups(d)[0]| <= 3
    ensures forall i :: 0 < i < |Groups(d)| ==> |Groups(d)[i]| == 3
    ensures forall i :: 0 <= i < |Groups(d)| ==> Groups(d)[i] != [] && AllDigits(Groups(d)[i])
    decreases |d|
  {
    if |d| > 3 {
      var d' := d[..|d| - 3];
      assert AllDigits(d') && AllDigits(d[|d| - 3..]);
      GroupsShape(d');
    }
  }

  /** Deleting the inserted commas gives the digits back. */
  lemma {:induction false} UncommaCommas(d: string, p: nat)
    requires p <= |d| && AllDigits(d)
    ensures Uncomma(Commas(d, p)) == d[p..]
    decreases |d| - p
  {
    if p < |d| {
      var c := if CommaAt(d, p) then "," else "";
      UncommaCommas(d, p + 1);
      UncommaAppend(c + [d[p]], Commas(d, p + 1));
      UncommaAppend(c, [d[p]]);
      assert Uncomma([d[p]]) == [d[p]];
      assert d[p..] == [d[p]] + d[p + 1..];
    }
  }

  /** A formatted amount starts and ends with a digit, so it neither starts nor ends with a comma or a sign. */
  lemma {:induction false} CommasEnds(d: string)
    requires d != [] && AllDigits(d)
    ensures InsertCommas(d) != [] && IsAsciiDigit(InsertCommas(d)[0])
    ensures IsAsciiDigit(InsertCommas(d)[|InsertCommas(d)| - 1])
    decreases |d|
  {
    if |d| <= 3 {
      CommasShort(d, 0);
    } else {
      var d' := d[..|d| - 3];
      CommasPeel(d, 0);
      assert AllDigits(d');
      CommasEnds(d');
    }
  }

  /** The format ignores the sign. */
  lemma FormatIgnoresSign(x: real)
    ensures FormatAmount(-x) == FormatAmount(x)
  {
    assert Abs(-x) == Abs(x);
  }

  /**
   * The format of any amount is the digits of its rounded magnitude, in groups of three
   * from the right joined by commas; deleting the commas gives the digits back.
   */
  lemma FormatShape(x: real)
    ensures var d := NatToString(RoundHalfUp(Abs(x)));
      && FormatAmount(x) == Join(Groups(d), ",")
      && Uncomma(FormatAmount(x)) == d
      && IsAsciiDigit(FormatAmount(x)[0])
      && IsAsciiDigit(FormatAmount(x)[|FormatAmount(x)| - 1])
      && 1 <= |Groups(d)[0]| <= 3
      && (forall i :: 0 < i < |Groups(d)| ==> |Groups(d)[i]| == 3)
      && (forall i :: 0 <= i < |Groups(d)| ==> AllDigits(Groups(d)[i]))
  {
    var d := NatToString(RoundHalfUp(Abs(x)));
    CommasAreGroups(d);
    UncommaCommas(d, 0);
    assert d[0..] == d;
    CommasEnds(d);
    GroupsShape(d);
  }

  /** A whole amount is formatted as its own decimal digits with commas. */
  lemma FormatWhole(n: nat)
    ensures Uncomma(FormatAmount(n as real)) == NatToString(n)
    ensures Uncomma(FormatAmount(-(n as real))) == NatToString(n)
  {
    assert RoundHalfUp(Abs(n as real)) == n;
    UncommaCommas(NatToString(n), 0);
    assert NatToString(n)[0..] == NatToString(n);
    FormatIgnoresSign(n as real);
  }

  datatype Colour = Green | Red | Dark

  /** The three summary cards: the balance with its colour, the cash-in total and the cash-out total. */
  datatype Cards = Cards(balance: string, balanceColour: Colour, cashIn: string, cashOut: string)

  function SummaryCards(txs: seq<Transaction>): (c: Cards) {
    Cards(
      FormatAmount(NetBalance(txs)),
      if NetBalance(txs) >= 0.0 then Green else Red,
      FormatAmount(TotalIn(txs)),
      FormatAmount(TotalOut(txs)))
  }

  /**
   * The balance card shows the magnitude of the balance and its colour tells the sign: a
   * ledger and one with every type flipped show the same digits, in opposite colours
   * unless the balance is zero.
   */
  lemma BalanceCard(txs: seq<Transaction>)
    ensures var c := SummaryCards(txs);
      && Uncomma(c.balance) == NatToString(RoundHalfUp(Abs(TotalIn(txs) - TotalOut(txs))))
      && (c.balanceColour == Green <==> TotalIn(txs) >= TotalOut(txs))
  {
    FormatShape(NetBalance(txs));
  }

  /** One row of the table: the creation time, the title, the category and the signed amount. */
  datatype Row = Row(date: int, description: string, category: string, amount: string)

  /** The amount cell: `+` for cash in, `-` for cash out, then the formatted amount. */
  function AmountCell(t: Transaction): (cell: string) {
    (if t.txType == CashIn then "+" else "-") + FormatAmount(t.amount)
  }

  function RowOf(t: Transaction): Row {
    Row(t.createdAt, t.title, t.category, AmountCell(t))
  }

  /** `tableData`: one row per transaction, in order. */
  function TableRows(txs: seq<Transaction>): (rows: seq<Row>)
    ensures |rows| == |txs|
    ensures forall i :: 0 <= i < |txs| ==> rows[i] == RowOf(txs[i])
  {
    if txs == [] then [] else [RowOf(txs[0])] + TableRows(txs[1..])
  }

  /** `didParseCell`: an amount cell starting with `+` is green, one starting with `-` red. */
  function CellColour(cell: string): (c: Colour) {
    if cell != [] && cell[0] == '+' then Green
    else if cell != [] && cell[0] == '-' then Red
    else Dark
  }

  /**
   * The amount cell of a row is green exactly for cash in and red exactly for cash out, and
   * after its sign it reads as the rounded magnitude of the amount.
   */
  lemma RowAmount(t: Transaction)
    ensures CellColour(AmountCell(t)) == if t.txType == CashIn then Green else Red
    ensures AmountCell(t)[1..] == FormatAmount(t.amount)
    ensures Uncomma(AmountCell(t)[1..]) == NatToString(RoundHalfUp(Abs(t.amount)))
  {
    var c, f := if t.txType == CashIn then '+' else '-', FormatAmount(t.amount);
    var d := NatToString(RoundHalfUp(Abs(t.amount)));
    assert AmountCell(t) == [c] + f;
    SignThen(c, f);
    assert Uncomma(f) == d by {
      UncommaCommas(d, 0);
      assert d[0..] == d;
    }
  }

  lemma SignThen(c: char, f: string)
    ensures ([c] + f)[0] == c && ([c] + f)[1..] == f
  {
  }

  /** `replace(/[^a-z0-9]/gi, '_')` on one character: anything but an ASCII letter or digit becomes `_`. */
  function SafeChar(c: char): char {
    if IsAsciiLetter(c) || IsAsciiDigit(c) then c else '_'
  }

  /** The file-name stem made from the ledger name. */
  function Sanitize(name: string): (r: string) {
    if name == [] then "" else [SafeChar(name[0])] + Sanitize(name[1..])
  }

  /** The file name: the sanitised ledger name, `_`, the date stamp, `.pdf`. */
  function Filename(name: string, stamp: string): (r: string) {
    Sanitize(name) + "_" + stamp + ".pdf"
  }

  /**
   * The stem is as long as the name; it keeps each ASCII letter and digit in place and puts
   * `_` for every other character, so it holds nothing else.
   */
  lemma {:induction false} SanitizeFacts(name: string)
    ensures |Sanitize(name)| == |name|
    ensures forall i :: 0 <= i < |name| ==>
      (IsAsciiLetter(name[i]) || IsAsciiDigit(name[i]) ==> Sanitize(name)[i] == name[i])
      && (!(IsAsciiLetter(name[i]) || IsAsciiDigit(name[i])) ==> Sanitize(name)[i] == '_')
    ensures forall i :: 0 <= i < |name| ==>
      IsAsciiLetter(Sanitize(name)[i]) || IsAsciiDigit(Sanitize(name)[i]) || Sanitize(name)[i] == '_'
  {
    if name != [] {
      SanitizeFacts(name[1..]);
    }
  }

  /** Sanitising a sanitised stem changes nothing. */
  lemma {:induction false} SanitizeIdempotent(name: string)
    ensures Sanitize(Sanitize(name)) == Sanitize(name)
  {
    if name != [] {
      SanitizeIdempotent(name[1..]);
      SanitizeFacts(name);
    }
  }

  /** The file name begins with the stem, which keeps the ledger name's length. */
  lemma FilenameStem(name: string, stamp: string)
    ensures |Filename(name, stamp)| == |name| + |stamp| + 5
    ensures Filename(name, stamp)[..|name|] == Sanitize(name)
    ensures Filename(name, stamp)[|name|] == '_'
  {
    SanitizeFacts(name);
  }
}
