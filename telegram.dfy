/**
 * The Telegram bot's message parser: chat text such as `500 john 15jan` or
 * `received 500 john` becomes an amount, a borrower name, an optional due date and a
 * repayment flag, or nothing when the text does not fit the grammar; and the transaction
 * and lending-record drafts built from a parse. The current time is a parameter.
 */
module Telegram {
  import opened Wrappers
  import opened JsString
  import opened JsNumber
  import opened JsDate
  import opened Seqs
  import opened Supabase

  datatype ParsedLending = ParsedLending(
    amount: real,
    borrowerName: string,
    dueDate: Option<Instant>,
    isRepayment: bool,
    rawDueText: Option<string>)

  // ---------------------------------------------------------------- amount

  /** The characters `/[₹$,rs]/gi` deletes. */
  predicate Stripped(c: char) {
    c == '₹' || c == '$' || c == ',' || c == 'r' || c == 's' || c == 'R' || c == 'S'
  }

  predicate Kept(c: char) {
    !Stripped(c)
  }

  /**
   * `parseAmount`: currency symbols, commas and the letters r and s are deleted wherever
   * they stand, the rest goes through `parseFloat`, and NaN or a value that is not
   * positive gives `None`.
   */
  function ParseAmount(token: string): (r: Option<real>)
    ensures r.Some? ==> r.value > 0.0
  {
    AmountOf(Cleaned(token))
  }

  /** The token with the deleted characters gone and white space trimmed. */
  function Cleaned(token: string): string {
    Trim(Filter(token, Kept))
  }

  /** `parseFloat` of the cleaned text, kept only when it is a positive number. */
  function AmountOf(cleaned: string): (r: Option<real>)
    ensures r.Some? ==> r.value > 0.0
  {
    match ParseFloat(cleaned)
    case None => None
    case Some(x) => if x <= 0.0 then None else Some(x)
  }

  /** A positive decimal integer reads as itself. */
  lemma ParseAmountOfNat(n: nat)
    requires n > 0
    ensures ParseAmount(NatToString(n)) == Some(n as real)
  {
    CleanedDigits(NatToString(n));
    ParseFloatOfInteger(n);
  }

  /** Digits are kept and not trimmed. */
  lemma CleanedDigits(d: string)
    requires d != [] && AllDigits(d)
    ensures Cleaned(d) == d
  {
    KeptDigits(d);
    FilterAll(d, Kept);
    TrimOfTrimmed(d);
  }

  lemma KeptDigits(d: string)
    requires AllDigits(d)
    ensures forall i :: 0 <= i < |d| ==> Kept(d[i])
  {
  }

  /** Currency signs, commas and the letters r and s in front of a number are ignored. */
  lemma ParseAmountIgnoresSymbols(junk: string, n: nat)
    requires n > 0 && forall i :: 0 <= i < |junk| ==> Stripped(junk[i])
    ensures ParseAmount(junk + NatToString(n)) == Some(n as real)
  {
    CleanedAfterSymbols(junk, NatToString(n));
    ParseAmountOfNat(n);
  }

  lemma CleanedAfterSymbols(junk: string, d: string)
    requires forall i :: 0 <= i < |junk| ==> Stripped(junk[i])
    requires d != [] && AllDigits(d)
    ensures Cleaned(junk + d) == Cleaned(d)
  {
    KeptDigits(d);
    StrippedPrefix(junk, d);
    FilterAll(d, Kept);
  }

  /**
   * Deleted characters in front of a point and digits leave a fraction: the letters of `rs`
   * are deleted one by one, not as a unit, so `rs.500` reads as `.500`, that is 0.5.
   */
  lemma ParseAmountOfFraction(junk: string, d: string)
    requires forall i :: 0 <= i < |junk| ==> Stripped(junk[i])
    requires d != [] && AllDigits(d) && DigitsValue(d) > 0
    ensures ParseAmount(junk + "." + d) == Some(Shift(DigitsValue(d) as real, -|d|))
  {
    CleanedFraction(junk, d);
    ParseFloatFraction(d);
  }

  lemma CleanedFraction(junk: string, d: string)
    requires forall i :: 0 <= i < |junk| ==> Stripped(junk[i])
    requires d != [] && AllDigits(d)
    ensures Cleaned(junk + "." + d) == "." + d
  {
    var u := "." + d;
    assert junk + "." + d == junk + u;
    KeptFraction(d);
    StrippedPrefix(junk, u);
    TrimOfTrimmed(u);
  }

  lemma KeptFraction(d: string)
    requires d != [] && AllDigits(d)
    ensures forall i :: 0 <= i < |"." + d| ==> Kept(("." + d)[i])
    ensures Trimmed("." + d)
  {
    var u := "." + d;
    assert forall i :: 1 <= i < |u| ==> u[i] == d[i - 1];
    assert u[|u| - 1] == d[|d| - 1];
  }

  /** Deleting a prefix of deleted characters in front of kept ones leaves the kept ones. */
  lemma StrippedPrefix(junk: string, u: string)
    requires forall i :: 0 <= i < |junk| ==> Stripped(junk[i])
    requires forall i :: 0 <= i < |u| ==> Kept(u[i])
    ensures Filter(junk + u, Kept) == u
  {
    FilterAppend(junk, u, Kept);
    FilterNone(junk, Kept);
    FilterAll(u, Kept);
    assert [] + u == u;
  }

  /** A token that starts with a letter other than r or s is not an amount: `gave` is not. */
  lemma ParseAmountOfWord(w: string)
    requires w != [] && IsAsciiLetter(w[0]) && Kept(w[0])
    ensures ParseAmount(w) == None
  {
    var f := Filter(w, Kept);
    assert f != [] && f[0] == w[0] by {
      assert w == [w[0]] + w[1..];
      FilterCons(w[0], w[1..], Kept);
    }
    assert Cleaned(w) != [] && Cleaned(w)[0] == w[0] by {
      TrimKeepsFirst(f);
    }
    ParseFloatOfLetter(Cleaned(w));
  }

  // ---------------------------------------------------------------- names

  /** `capitalizeFirst`: the first character upper-cased, the rest lower-cased. */
  function CapitalizeFirst(s: string): (r: string)
    ensures |r| == |s|
    ensures r != [] ==> r[0] == UpperChar(s[0]) && !IsAsciiLower(r[0])
    ensures forall i :: 1 <= i < |r| ==> r[i] == LowerChar(s[i]) && !IsAsciiUpper(r[i])
  {
    if s == [] then [] else [UpperChar(s[0])] + Lower(s[1..])
  }

  /** Capitalising a capitalised name changes nothing. */
  lemma CapitalizeIdempotent(s: string)
    ensures CapitalizeFirst(CapitalizeFirst(s)) == CapitalizeFirst(s)
  {
    if s != [] {
      var c := CapitalizeFirst(s);
      assert c[1..] == Lower(s[1..]);
      LowerIdempotent(s[1..]);
    }
  }

  // ---------------------------------------------------------------- tokens

  /** The text starts with a repayment keyword (no white space needed after it). */
  predicate StartsWithKeyword(text: string) {
    StartsWith(text, "received") || StartsWith(text, "got") || StartsWith(text, "returned")
  }

  /** `text` starts with keyword `k` followed by at least one white-space character. */
  predicate KeywordThenSpace(text: string, k: string) {
    StartsWith(text, k) && |text| > |k| && IsSpace(text[|k|])
  }

  /** `text.replace(/^(received|got|returned)\s+/i, '')`. */
  function DropKeyword(text: string): (r: string)
    ensures |r| <= |text| && r == text[|text| - |r|..]
    ensures KeywordThenSpace(text, "received") || KeywordThenSpace(text, "got") || KeywordThenSpace(text, "returned")
      <==> |r| < |text|
  {
    if KeywordThenSpace(text, "received") then TrimStart(text[8..])
    else if KeywordThenSpace(text, "got") then TrimStart(text[3..])
    else if KeywordThenSpace(text, "returned") then TrimStart(text[8..])
    else text
  }

  /** The text the parser works on: trimmed and lower-cased. */
  function Normalized(message: string): string {
    Lower(Trim(message))
  }

  /** `cleanText.split(/\s+/)`. */
  function Tokens(message: string): (parts: seq<string>)
    ensures |parts| >= 1
    ensures parts[0] == [] ==> |parts| == 1
    ensures forall k :: 0 <= k < |parts| ==> NoSpace(parts[k])
  {
    var clean := Trim(DropKeyword(Normalized(message)));
    if clean == [] then SplitWs(clean)
    else
      SplitWsOfTrimmed(clean);
      SplitWs(clean)
  }

  /** The fields of a message are non-empty words once there are at least two of them. */
  lemma TokensAreWords(message: string)
    requires |Tokens(message)| >= 2
    ensures forall k :: 0 <= k < |Tokens(message)| ==> IsWord(Tokens(message)[k])
  {
    var clean := Trim(DropKeyword(Normalized(message)));
    if clean != [] {
      SplitWsOfTrimmed(clean);
    }
  }

  // ---------------------------------------------------------------- months

  type MonthNumber = m: int | 0 <= m < 12

  /** What `months[name]` yields: an own entry, `undefined`, or a non-numeric inherited member. */
  datatype MonthValue = MonthIndex(m: MonthNumber) | Undefined | ObjectMember

  /** The keys and values of the `months` object literal. */
  function MonthTable(): seq<(string, MonthNumber)> {
    [
    ("jan", 0), ("january", 0), ("feb", 1), ("february", 1), ("mar", 2), ("march", 2),
    ("apr", 3), ("april", 3), ("may", 4), ("jun", 5), ("june", 5), ("jul", 6), ("july", 6),
    ("aug", 7), ("august", 7), ("sep", 8), ("september", 8), ("oct", 9), ("october", 9),
    ("nov", 10), ("november", 10), ("dec", 11), ("december", 11)]
  }

  /** The entry of `name` in `table`. */
  function Lookup(table: seq<(string, MonthNumber)>, name: string): (r: MonthValue)
    ensures r != ObjectMember
    ensures r.MonthIndex? ==> (name, r.m) in table
    ensures r == Undefined <==> forall i :: 0 <= i < |table| ==> table[i].0 != name
  {
    if table == [] then Undefined
    else if table[0].0 == name then MonthIndex(table[0].1)
    else Lookup(table[1..], name)
  }

  /** The month names as own keys of the table, which is what the lookup evidently intends. */
  function OwnMonth(name: string): (r: MonthValue)
    ensures r != ObjectMember
  {
    Lookup(MonthTable(), name)
  }

  /**
   * `months[name]` as JavaScript evaluates it on an object literal: the own keys, and the
   * members inherited from `Object.prototype`. Only `constructor` among those is spelled
   * with lower-case letters alone, so it is the only one `[a-z]+` can reach.
   */
  function InheritedMonth(name: string): (r: MonthValue)
    ensures r == ObjectMember <==> name == "constructor"
  {
    if name == "constructor" then ObjectMember
    else
      assert OwnMonth(name) != ObjectMember;
      OwnMonth(name)
  }

  // ---------------------------------------------------------------- due-date grammar

  predicate AllAsciiLower(s: string) {
    forall i :: 0 <= i < |s| ==> IsAsciiLower(s[i])
  }

  /** Number of `[a-z]` characters at the start of `s`. */
  function LeadingLower(s: string): (k: nat)
    ensures k <= |s| && AllAsciiLower(s[..k])
    ensures k < |s| ==> !IsAsciiLower(s[k])
  {
    if s != [] && IsAsciiLower(s[0]) then 1 + LeadingLower(s[1..]) else 0
  }

  /** `days?`. */
  predicate DayUnit(w: string) {
    w == "day" || w == "days"
  }

  /** `/^in\s+(\d+)\s+days?$/`: the number of days. */
  function InDays(str: string): (r: Option<nat>)
    ensures r.Some? ==> StartsWith(str, "in") && |str| > 2 && IsSpace(str[2])
  {
    if StartsWith(str, "in") && |str| > 2 && IsSpace(str[2]) then CountThenUnit(TrimStart(str[2..]))
    else None
  }

  /** `(\d+)\s+days?$` after the white space that follows `in`. */
  function CountThenUnit(a: string): Option<nat> {
    var k := LeadingDigits(a);
    var b := a[k..];
    if k > 0 && b != [] && IsSpace(b[0]) && DayUnit(TrimStart(b)) then Some(DigitsValue(a[..k]))
    else None
  }

  /** `in N days` (and `in N day`) is read back as N. */
  lemma InDaysOf(n: nat, unit: string)
    requires DayUnit(unit)
    ensures InDays("in " + NatToString(n) + " " + unit) == Some(n)
  {
    var d := NatToString(n);
    var a := d + " " + unit;
    assert "in " + d + " " + unit == "in " + a;
    InDaysAfterIn(a);
    CountThenUnitOf(d, unit);
  }

  /** After `in` and one space, `InDays` reads the count and the unit. */
  lemma InDaysAfterIn(a: string)
    requires a != [] && !IsSpace(a[0])
    ensures InDays("in " + a) == CountThenUnit(a)
  {
    var str := "in " + a;
    assert str[..2] == "in" && str[2] == ' ';
    assert str[2..] == " " + a;
    SpaceThen(a);
  }

  lemma DayUnitStart(unit: string)
    requires DayUnit(unit)
    ensures unit != [] && unit[0] == 'd'
  {
  }

  lemma CountThenUnitOf(d: string, unit: string)
    requires d != [] && AllDigits(d) && DayUnit(unit)
    ensures CountThenUnit(d + " " + unit) == Some(DigitsValue(d))
  {
    var b := " " + unit;
    var a := d + b;
    assert d + " " + unit == a;
    LeadingDigitsOfDigits(d, b);
    assert a[..|d|] == d && a[|d|..] == b;
    DayUnitStart(unit);
    SpaceThen(unit);
  }

  /** One space before text that does not start with white space is trimmed away. */
  lemma SpaceThen(t: string)
    requires t != [] && !IsSpace(t[0])
    ensures TrimStart(" " + t) == t
  {
    assert (" " + t)[1..] == t;
  }

  /** `/^(\d{1,2})\s*([a-z]+)$/`: the day and the month word. */
  function DayMonthMatch(str: string): (r: Option<(nat, string)>)
    ensures r.Some? ==> r.value.0 <= 99 && r.value.1 != [] && AllAsciiLower(r.value.1)
  {
    var k := LeadingDigits(str);
    var rest := TrimStart(str[k..]);
    if 1 <= k <= 2 && rest != [] && AllAsciiLower(rest) then
      DigitsBound(str[..k]);
      Some((DigitsValue(str[..k]), rest))
    else None
  }

  /** `/^([a-z]+)\s+(\d{1,2})$/`: the month word and the day. */
  function MonthDayMatch(str: string): (r: Option<(string, nat)>)
    ensures r.Some? ==> r.value.0 != [] && AllAsciiLower(r.value.0) && r.value.1 <= 99
  {
    var j := LeadingLower(str);
    var rest := str[j..];
    var digits := TrimStart(rest);
    if j >= 1 && rest != [] && IsSpace(rest[0]) && 1 <= |digits| <= 2 && AllDigits(digits) then
      DigitsBound(digits);
      Some((str[..j], DigitsValue(digits)))
    else None
  }

  lemma DigitsBound(d: string)
    requires AllDigits(d) && |d| <= 2
    ensures DigitsValue(d) <= 99
  {
    if d != [] {
      var p := d[..|d| - 1];
      assert DigitsValue(p) <= 9 by {
        if p != [] {
          assert p[..|p| - 1] == [];
        }
      }
    }
  }

  /** One or two digits followed by a month word, as `15jan`, match with that day and word. */
  lemma DayMonthOf(d: string, w: string)
    requires 1 <= |d| <= 2 && AllDigits(d)
    requires w != [] && AllAsciiLower(w)
    ensures DayMonthMatch(d + w) == Some((DigitsValue(d), w))
  {
    var str := d + w;
    assert LeadingDigits(str) == |d| by { LeadingDigitsOfDigits(d, w); }
    assert str[..|d|] == d;
    assert TrimStart(str[|d|..]) == w by {
      assert str[|d|..] == w;
      assert TrimStart(w) == w;
    }
    DayMonthSplit(str, |d|);
  }

  /** The match of `DayMonthMatch`, given where the digits end. */
  lemma DayMonthSplit(str: string, k: nat)
    requires k == LeadingDigits(str) && 1 <= k <= 2
    requires TrimStart(str[k..]) != [] && AllAsciiLower(TrimStart(str[k..]))
    ensures DayMonthMatch(str) == Some((DigitsValue(str[..k]), TrimStart(str[k..])))
  {
  }

  /**
   * `new Date(today.getFullYear(), m, day)`, moved one year on with `setFullYear` when it
   * lies before the current instant. A date outside the time-value range is the Invalid
   * Date, which is never before anything and stays invalid.
   */
  function ResolveDay(today: Instant, m: MonthNumber, day: int): (r: DateValue)
    requires IsNow(today)
    ensures r.DateOf? ==> IsNow(r.instant) && r.instant.ms == 0
  {
    var date := MakeDate(today.date.year, m, day);
    if !InTimeRange(date) then InvalidDate
    else if Before(date, today) then Clip(AddYear(date))
    else DateOf(date)
  }

  /**
   * The date for a month-table entry and a day; an inherited member makes an Invalid Date,
   * and so does a month date outside the time-value range.
   */
  function ResolveMonth(today: Instant, key: MonthValue, day: int): (r: Option<DateValue>)
    requires IsNow(today)
    ensures r.Some? <==> key != Undefined
    ensures r == Some(InvalidDate) <==> key == ObjectMember || (key.MonthIndex? && ResolveDay(today, key.m, day) == InvalidDate)
    ensures r.Some? && r.value.DateOf? ==> IsNow(r.value.instant)
  {
    match key
    case MonthIndex(m) => Some(ResolveDay(today, m, day))
    case Undefined => None
    case ObjectMember => Some(InvalidDate)
  }

  /** The text `parseDueDate` matches against: lower-cased, then trimmed. */
  function DueText(dateStr: string): string {
    Trim(Lower(dateStr))
  }

  /** The fixed phrases `parseDueDate` recognises first. */
  datatype Phrase = Today | Tomorrow | NextWeek | NextMonth

  function PhraseOf(str: string): (r: Option<Phrase>)
    ensures r.Some? ==> |str| >= 5 && IsAsciiLower(str[0])
  {
    if str == "today" then Some(Today)
    else if str == "tomorrow" then Some(Tomorrow)
    else if str == "next week" then Some(NextWeek)
    else if str == "next month" then Some(NextMonth)
    else None
  }

  /** The date a phrase names: the current instant, or a copy moved by `setDate` or `setMonth`. */
  function PhraseDate(p: Phrase, today: Instant): (r: DateValue)
    requires IsNow(today)
    ensures r.DateOf? ==> IsNow(r.instant)
  {
    match p
    case Today => DateOf(today)
    case Tomorrow => Clip(AddDays(today, 1))
    case NextWeek => Clip(AddDays(today, 7))
    case NextMonth => Clip(AddMonth(today))
  }

  /** `parseDueDate` with the month table `months`. */
  function DueDateWith(dateStr: string, today: Instant, months: string -> MonthValue): (r: Option<DateValue>)
    requires IsNow(today)
    ensures r.Some? && r.value.DateOf? ==> IsNow(r.value.instant)
  {
    var str := DueText(dateStr);
    if PhraseOf(str).Some? then Some(PhraseDate(PhraseOf(str).value, today))
    else if InDays(str).Some? then Some(Clip(AddDays(today, InDays(str).value)))
    else CalendarDate(str, today, months)
  }

  /** The day-month form first, and the month-day form when that gives no date. */
  function CalendarDate(str: string, today: Instant, months: string -> MonthValue): (r: Option<DateValue>)
    requires IsNow(today)
    ensures r.Some? && r.value.DateOf? ==> IsNow(r.value.instant)
  {
    var fromDayMonth :=
      match DayMonthMatch(str)
      case Some((day, name)) => ResolveMonth(today, months(name), day)
      case None => None;
    if fromDayMonth.Some? then fromDayMonth
    else
      match MonthDayMatch(str)
      case Some((name, day)) => ResolveMonth(today, months(name), day)
      case None => None
  }

  /** `parseDueDate` as written: `months['constructor']` is found on the prototype. */
  function ParseDueDateAsWritten(dateStr: string, today: Instant): (r: Option<DateValue>)
    requires IsNow(today)
    ensures r.Some? && r.value.DateOf? ==> IsNow(r.value.instant)
  {
    DueDateWith(dateStr, today, InheritedMonth)
  }

  /** A `Date` value with the Invalid Date dropped. */
  function Defined(v: DateValue): (r: Option<Instant>)
    ensures r.Some? <==> v.DateOf?
    ensures r.Some? ==> v == DateOf(r.value)
  {
    match v
    case DateOf(t) => Some(t)
    case InvalidDate => None
  }

  /**
   * `parseDueDate` with own month keys only, and with a date outside the time-value range
   * dropped: undefined outside the grammar and never an Invalid Date.
   */
  function ParseDueDate(dateStr: string, today: Instant): (r: Option<Instant>)
    requires IsNow(today)
    ensures r.Some? ==> IsNow(r.value)
    ensures r.Some? <==> DueDateWith(dateStr, today, OwnMonth).Some? && DueDateWith(dateStr, today, OwnMonth).value.DateOf?
    ensures r.Some? ==> DueDateWith(dateStr, today, OwnMonth) == Some(DateOf(r.value))
  {
    match DueDateWith(dateStr, today, OwnMonth)
    case Some(v) => Defined(v)
    case None => None
  }

  lemma DueDateOfPhrase(dateStr: string, today: Instant)
    requires IsNow(today) && PhraseOf(DueText(dateStr)).Some?
    ensures ParseDueDate(dateStr, today) == Defined(PhraseDate(PhraseOf(DueText(dateStr)).value, today))
  {
  }

  /** A phrase whose date is clipped: defined exactly when it stays in the time-value range. */
  lemma ClippedPhrase(dateStr: string, today: Instant, p: Phrase, t: Instant)
    requires IsNow(today) && PhraseOf(DueText(dateStr)) == Some(p) && ValidInstant(t)
    requires PhraseDate(p, today) == Clip(t)
    ensures InTimeRange(t) ==> ParseDueDate(dateStr, today) == Some(t)
    ensures !InTimeRange(t) ==> ParseDueDate(dateStr, today) == None
  {
    DueDateOfPhrase(dateStr, today);
  }

  lemma DueDateOfInDays(dateStr: string, today: Instant)
    requires IsNow(today) && PhraseOf(DueText(dateStr)).None? && InDays(DueText(dateStr)).Some?
    ensures ParseDueDateAsWritten(dateStr, today) == Some(Clip(AddDays(today, InDays(DueText(dateStr)).value)))
    ensures ParseDueDate(dateStr, today) == Defined(Clip(AddDays(today, InDays(DueText(dateStr)).value)))
  {
  }

  lemma DueDateOfCalendar(dateStr: string, today: Instant, months: string -> MonthValue)
    requires IsNow(today) && PhraseOf(DueText(dateStr)).None? && InDays(DueText(dateStr)).None?
    ensures DueDateWith(dateStr, today, months) == CalendarDate(DueText(dateStr), today, months)
  {
  }

  /** `today` is now. */
  lemma TodayForm(dateStr: string, today: Instant)
    requires IsNow(today) && DueText(dateStr) == "today"
    ensures ParseDueDate(dateStr, today) == Some(today)
  {
    assert PhraseOf("today") == Some(Today);
    DueDateOfPhrase(dateStr, today);
  }

  /** `tomorrow` is one day on, at the same time of day, unless that leaves the time-value range. */
  lemma TomorrowForm(dateStr: string, today: Instant)
    requires IsNow(today) && DueText(dateStr) == "tomorrow"
    ensures InTimeRange(AddDays(today, 1)) ==> ParseDueDate(dateStr, today) == Some(AddDays(today, 1))
    ensures !InTimeRange(AddDays(today, 1)) ==> ParseDueDate(dateStr, today) == None
  {
    assert PhraseOf("tomorrow") == Some(Tomorrow);
    ClippedPhrase(dateStr, today, Tomorrow, AddDays(today, 1));
  }

  /** `next week` is seven days on, unless that leaves the time-value range. */
  lemma NextWeekForm(dateStr: string, today: Instant)
    requires IsNow(today) && DueText(dateStr) == "next week"
    ensures InTimeRange(AddDays(today, 7)) ==> ParseDueDate(dateStr, today) == Some(AddDays(today, 7))
    ensures !InTimeRange(AddDays(today, 7)) ==> ParseDueDate(dateStr, today) == None
  {
    assert PhraseOf("next week") == Some(NextWeek);
    ClippedPhrase(dateStr, today, NextWeek, AddDays(today, 7));
  }

  /**
   * `next month` is the same day of the next month, spilling over when that month is
   * shorter, unless that leaves the time-value range.
   */
  lemma NextMonthForm(dateStr: string, today: Instant)
    requires IsNow(today) && DueText(dateStr) == "next month"
    ensures InTimeRange(AddMonth(today)) ==> ParseDueDate(dateStr, today) == Some(AddMonth(today))
    ensures !InTimeRange(AddMonth(today)) ==> ParseDueDate(dateStr, today) == None
  {
    assert PhraseOf("next month") == Some(NextMonth);
    ClippedPhrase(dateStr, today, NextMonth, AddMonth(today));
  }

  /**
   * `in N days` is N days on, at the same time of day, while that stays within the
   * time-value range; beyond it JavaScript's `setDate` gives the Invalid Date.
   */
  lemma InDaysForm(dateStr: string, today: Instant, n: nat)
    requires IsNow(today)
    requires InDays(DueText(dateStr)) == Some(n)
    ensures InTimeRange(AddDays(today, n)) ==> ParseDueDate(dateStr, today) == Some(AddDays(today, n))
    ensures InTimeRange(AddDays(today, n)) ==> ParseDueDateAsWritten(dateStr, today) == Some(DateOf(AddDays(today, n)))
    ensures !InTimeRange(AddDays(today, n)) ==> ParseDueDateAsWritten(dateStr, today) == Some(InvalidDate)
    ensures !InTimeRange(AddDays(today, n)) ==> ParseDueDate(dateStr, today) == None
  {
    NotPhrase(DueText(dateStr));
    DueDateOfInDays(dateStr, today);
  }

  /**
   * `in N days` has a date exactly when now plus N days stays within 8.64e15 ms of 1970;
   * past that, JavaScript's `setDate` leaves the Invalid Date.
   */
  lemma InDaysPastRange(dateStr: string, today: Instant, n: nat)
    requires IsNow(today)
    requires InDays(DueText(dateStr)) == Some(n)
    ensures ParseDueDate(dateStr, today).Some? <==> TimeValue(today) + n * MS_PER_DAY <= MAX_TIME_VALUE
    ensures ParseDueDateAsWritten(dateStr, today) == Some(InvalidDate) <==> TimeValue(today) + n * MS_PER_DAY > MAX_TIME_VALUE
  {
    InDaysForm(dateStr, today, n);
    AddDaysTimeValue(today, n);
    ForwardInRange(today, AddDays(today, n), n * MS_PER_DAY);
  }

  /** A time value moved forward stays in range exactly while it is at most the upper limit. */
  lemma ForwardInRange(t: Instant, u: Instant, k: nat)
    requires IsNow(t) && ValidInstant(u) && TimeValue(u) == TimeValue(t) + k
    ensures InTimeRange(u) <==> TimeValue(t) + k <= MAX_TIME_VALUE
  {
  }

  /**
   * At any instant after 1970 began, `in 100000000 days` (the text `InDaysOf` reads back as
   * 100000000) is past the range: an Invalid Date as written, no due date when corrected.
   */
  lemma HundredMillionDays(dateStr: string, today: Instant)
    requires IsNow(today) && TimeValue(today) > 0
    requires InDays(DueText(dateStr)) == Some(100000000)
    ensures ParseDueDateAsWritten(dateStr, today) == Some(InvalidDate)
    ensures ParseDueDate(dateStr, today) == None
  {
    InDaysPastRange(dateStr, today, 100000000);
  }

  /** A day number and a month name of the table give that day of that month, rolled forward as needed. */
  lemma DayMonthForm(dateStr: string, today: Instant, d: string, name: string, m: MonthNumber)
    requires IsNow(today)
    requires 1 <= |d| <= 2 && AllDigits(d)
    requires name != [] && AllAsciiLower(name) && OwnMonth(name) == MonthIndex(m)
    requires DueText(dateStr) == d + name
    ensures ParseDueDate(dateStr, today) == Defined(ResolveDay(today, m, DigitsValue(d)))
  {
    var str := DueText(dateStr);
    DayMonthOf(d, name);
    NotPhrase(str);
    NotInDays(str);
    DueDateOfCalendar(dateStr, today, OwnMonth);
  }

  /**
   * Away from the ends of the time-value range only `in N days` can leave it: every other
   * form gives a date exactly when its grammar matches a listed month or phrase.
   */
  lemma OnlyInDaysLeavesRange(dateStr: string, today: Instant)
    requires FarFromLimit(today) && InDays(DueText(dateStr)).None?
    ensures DueDateWith(dateStr, today, OwnMonth) != Some(InvalidDate)
  {
    var str := DueText(dateStr);
    if PhraseOf(str).Some? {
      PhraseInRange(PhraseOf(str).value, today);
      DueDateWithPhrase(dateStr, today, OwnMonth);
    } else {
      DueDateOfCalendar(dateStr, today, OwnMonth);
      CalendarInRange(str, today);
    }
  }

  /** Away from the ends of the range, a text other than `in N days` has a due date exactly when its grammar matches. */
  lemma DefinedWhenMatched(dateStr: string, today: Instant)
    requires FarFromLimit(today) && InDays(DueText(dateStr)).None?
    ensures ParseDueDate(dateStr, today).Some? <==> DueDateWith(dateStr, today, OwnMonth).Some?
  {
    OnlyInDaysLeavesRange(dateStr, today);
    DefinedUnlessInvalid(DueDateWith(dateStr, today, OwnMonth), ParseDueDate(dateStr, today));
  }

  lemma DefinedUnlessInvalid(v: Option<DateValue>, r: Option<Instant>)
    requires r.Some? <==> v.Some? && v.value.DateOf?
    requires v != Some(InvalidDate)
    ensures r.Some? <==> v.Some?
  {
  }

  lemma DueDateWithPhrase(dateStr: string, today: Instant, months: string -> MonthValue)
    requires IsNow(today) && PhraseOf(DueText(dateStr)).Some?
    ensures DueDateWith(dateStr, today, months) == Some(PhraseDate(PhraseOf(DueText(dateStr)).value, today))
  {
  }

  lemma PhraseInRange(p: Phrase, today: Instant)
    requires FarFromLimit(today)
    ensures PhraseDate(p, today).DateOf?
  {
    match p
    case Today =>
    case Tomorrow => NearIsInRange(today, AddDays(today, 1));
    case NextWeek => NearIsInRange(today, AddDays(today, 7));
    case NextMonth =>
      AddMonthNotEarlier(today);
      AddMonthAtMost(today);
      NearIsInRange(today, AddMonth(today));
  }

  lemma CalendarInRange(str: string, today: Instant)
    requires FarFromLimit(today)
    ensures CalendarDate(str, today, OwnMonth) != Some(InvalidDate)
  {
    match DayMonthMatch(str)
    case Some((day, name)) => MonthInRange(today, OwnMonth(name), day);
    case None =>
    match MonthDayMatch(str)
    case Some((name, day)) => MonthInRange(today, OwnMonth(name), day);
    case None =>
  }

  lemma MonthInRange(today: Instant, key: MonthValue, day: nat)
    requires FarFromLimit(today) && key != ObjectMember && day <= 99
    ensures ResolveMonth(today, key, day) != Some(InvalidDate)
  {
    if key.MonthIndex? {
      ResolveDayInRange(today, key.m, day);
    }
  }

  /**
   * The day-month date lies within about a year of today, or, in the years 0..99 that
   * `new Date` maps into the twentieth century, close to 1970: within range either way.
   */
  lemma ResolveDayInRange(today: Instant, m: MonthNumber, day: nat)
    requires FarFromLimit(today) && day <= 99
    ensures ResolveDay(today, m, day).DateOf?
  {
    if 0 <= today.date.year <= 99 {
      CenturyDateInRange(today.date.year, m, day);
    } else {
      NearDateInRange(today, m, day);
    }
  }

  /** In the years 0..99 the day-month date lands in the twentieth century, far inside the range. */
  lemma CenturyDateInRange(y: int, m: MonthNumber, day: nat)
    requires 0 <= y <= 99 && day <= 99
    ensures InTimeRange(MakeDate(y, m, day)) && InTimeRange(AddYear(MakeDate(y, m, day)))
  {
    var date := MakeDate(y, m, day);
    AddYearBounds(date);
    TwentiethCentury(1900 + y);
  }

  /** Outside the years 0..99 the day-month date, and the year after it when it has passed, are near today. */
  lemma NearDateInRange(today: Instant, m: MonthNumber, day: nat)
    requires FarFromLimit(today) && day <= 99 && !(0 <= today.date.year <= 99)
    ensures InTimeRange(MakeDate(today.date.year, m, day))
    ensures Before(MakeDate(today.date.year, m, day), today) ==> InTimeRange(AddYear(MakeDate(today.date.year, m, day)))
  {
    var date := MakeDate(today.date.year, m, day);
    AddYearBounds(date);
    MakeDateNearToday(today, m, day);
    NearIsInRange(today, date);
    if Before(date, today) {
      BeforeByDay(date, today);
      NearIsInRange(today, AddYear(date));
    }
  }

  /** Outside the years 0..99, `new Date(year, m, day)` is within 433 days of today. */
  lemma MakeDateNearToday(today: Instant, m: MonthNumber, day: nat)
    requires ValidInstant(today) && !(0 <= today.date.year <= 99) && day <= 99
    ensures DayNumber(today.date) - 366 <= DayNumber(MakeDate(today.date.year, m, day).date) <= DayNumber(today.date) + 433
  {
    DayNumberWithinYear(today.date);
    YearStep(today.date.year);
  }

  /** The first of January of a year of the twentieth century lies within 26 000 days of 1970. */
  lemma TwentiethCentury(y: int)
    requires 1900 <= y <= 1999
    ensures -26000 <= DaysBeforeYear(y) <= 11000
  {
    if y <= 1970 {
      YearsAtMost(y, 1970);
      YearsMonotone(y, 1970);
    } else {
      YearsAtMost(1970, y);
      YearsMonotone(1970, y);
    }
  }

  /** `in N days` and a text that starts with a digit are not one of the phrases. */
  lemma NotPhrase(str: string)
    requires StartsWith(str, "in") || (str != [] && IsAsciiDigit(str[0]))
    ensures PhraseOf(str) == None
  {
    if StartsWith(str, "in") {
      assert str[..2][0] == str[0] == 'i';
    }
  }

  /** A text that starts with a digit is not `in N days`. */
  lemma NotInDays(str: string)
    requires str != [] && IsAsciiDigit(str[0])
    ensures InDays(str) == None
  {
    if |str| >= 2 {
      assert str[..2][0] == str[0];
    }
  }

  /** Every due date falls on today's calendar day or later. */
  lemma DueDateNotEarlier(dateStr: string, today: Instant)
    requires IsNow(today)
    ensures ParseDueDate(dateStr, today).Some? ==> DayNumber(ParseDueDate(dateStr, today).value.date) >= DayNumber(today.date)
  {
    var str := DueText(dateStr);
    if PhraseOf(str).Some? {
      DueDateOfPhrase(dateStr, today);
      PhraseNotEarlier(PhraseOf(str).value, today);
    } else if InDays(str).Some? {
      DueDateOfInDays(dateStr, today);
    } else {
      DueDateOfCalendar(dateStr, today, OwnMonth);
      CalendarNotEarlier(str, today, OwnMonth);
    }
  }

  lemma PhraseNotEarlier(p: Phrase, today: Instant)
    requires IsNow(today)
    ensures PhraseDate(p, today).DateOf? ==> DayNumber(PhraseDate(p, today).instant.date) >= DayNumber(today.date)
  {
    if p == NextMonth {
      AddMonthNotEarlier(today);
    }
  }

  lemma CalendarNotEarlier(str: string, today: Instant, months: string -> MonthValue)
    requires IsNow(today)
    ensures CalendarDate(str, today, months).Some? && CalendarDate(str, today, months).value.DateOf? ==>
      DayNumber(CalendarDate(str, today, months).value.instant.date) >= DayNumber(today.date)
  {
    match DayMonthMatch(str)
    case Some((day, name)) => ResolveMonthNotEarlier(today, months(name), day);
    case None =>
    match MonthDayMatch(str)
    case Some((name, day)) => ResolveMonthNotEarlier(today, months(name), day);
    case None =>
  }

  lemma ResolveMonthNotEarlier(today: Instant, key: MonthValue, day: nat)
    requires IsNow(today)
    ensures ResolveMonth(today, key, day).Some? && ResolveMonth(today, key, day).value.DateOf? ==>
      DayNumber(ResolveMonth(today, key, day).value.instant.date) >= DayNumber(today.date)
  {
    if key.MonthIndex? {
      ResolveDayNotEarlier(today, key.m, day);
    }
  }

  lemma AddMonthNotEarlier(t: Instant)
    requires ValidInstant(t)
    ensures DayNumber(AddMonth(t).date) >= DayNumber(t.date)
  {
    DayNumberWithinYear(t.date);
    if t.date.month < 11 {
      MonthStep(t.date.year, t.date.month);
    }
  }

  /**
   * A day-month date is never on a calendar day before today: either it is not before now,
   * or it is moved to the next year, which lies after today except for 31 December of last
   * year (day 0 of January), which moves to 31 December of this year.
   */
  lemma ResolveDayNotEarlier(today: Instant, m: MonthNumber, day: nat)
    requires IsNow(today)
    ensures ResolveDay(today, m, day).DateOf? ==> DayNumber(ResolveDay(today, m, day).instant.date) >= DayNumber(today.date)
  {
    var y := today.date.year;
    var date := MakeDate(y, m, day);
    BeforeByDay(date, today);
    DayNumberWithinYear(today.date);
    if Before(date, today) {
      MakeDateLowerBound(y, m, day);
      YearAtLeastPrevious(date.date, y);
      if date.date.year == y - 1 {
        LastDayOfYear(date.date, y);
        AddYearOfLastDay(date, y);
      } else {
        AddYearLater(date, y);
      }
    }
  }

  /** `new Date(y, m, day)` with `day >= 0` is no earlier than the last day of the year before `y`. */
  lemma MakeDateLowerBound(y: int, m: MonthNumber, day: nat)
    ensures DayNumber(MakeDate(y, m, day).date) >= DaysBeforeYear(y) - 1
  {
    YearsMonotone(y, JsYear(y));
  }

  lemma YearAtLeastPrevious(d: CalDate, y: int)
    requires Valid(d) && DayNumber(d) >= DaysBeforeYear(y) - 1
    ensures d.year >= y - 1
  {
    DayNumberWithinYear(d);
    if d.year + 1 < y {
      YearsMonotone(d.year + 1, y);
    }
  }

  /** The only valid date of year `y - 1` at or after the eve of year `y` is 31 December. */
  lemma LastDayOfYear(d: CalDate, y: int)
    requires Valid(d) && d.year == y - 1 && DayNumber(d) >= DaysBeforeYear(y) - 1
    ensures d == CalDate(y - 1, 11, 31)
  {
    var dec31 := CalDate(y - 1, 11, 31);
    DayNumberWithinYear(d);
    assert DayNumber(dec31) == DaysBeforeYear(y) - 1 by {
      MonthStep(y - 1, 11);
      YearStep(y - 1);
    }
    DayNumberInjective(d, dec31);
  }

  lemma AddYearOfLastDay(t: Instant, y: int)
    requires ValidInstant(t) && t.date == CalDate(y - 1, 11, 31)
    ensures DayNumber(AddYear(t).date) == DaysBeforeYear(y + 1) - 1
  {
    MonthStep(y, 11);
    YearStep(y);
  }

  lemma AddYearLater(t: Instant, y: int)
    requires ValidInstant(t) && t.date.year >= y
    ensures DayNumber(AddYear(t).date) >= DaysBeforeYear(y + 1)
  {
    YearsMonotone(y + 1, t.date.year + 1);
  }

  /**
   * Naming today's own day and month gives today at midnight, which is before now unless
   * it is exactly midnight; so it moves one year on.
   */
  lemma TodayRollsOver(today: Instant)
    requires IsNow(today) && !(0 <= today.date.year <= 99)
    ensures today.ms == 0 ==> ResolveDay(today, today.date.month, today.date.day) == DateOf(today)
    ensures today.ms > 0 && InTimeRange(Instant(today.date, 0)) ==>
      ResolveDay(today, today.date.month, today.date.day) == Clip(AddYear(Instant(today.date, 0)))
  {
    var date := MakeDate(today.date.year, today.date.month, today.date.day);
    NormOfValid(today.date);
    assert date.date == today.date;
    BeforeByDay(date, today);
  }

  /** The keys of the month table are at most nine letters long. */
  lemma MonthKeysShort()
    ensures forall i :: 0 <= i < |MonthTable()| ==> |MonthTable()[i].0| <= 9
  {
  }

  lemma ConstructorFacts()
    ensures "constructor" != [] && AllAsciiLower("constructor")
    ensures InheritedMonth("constructor") == ObjectMember
    ensures OwnMonth("constructor") == Undefined
  {
    MonthKeysShort();
  }

  /** A day number followed by `constructor`: an Invalid Date as written, no due date with own keys. */
  lemma ConstructorMonth(dateStr: string, today: Instant, d: string)
    requires IsNow(today) && 1 <= |d| <= 2 && AllDigits(d)
    requires DueText(dateStr) == d + "constructor"
    ensures ParseDueDateAsWritten(dateStr, today) == Some(InvalidDate)
    ensures ParseDueDate(dateStr, today) == None
  {
    var str := DueText(dateStr);
    ConstructorFacts();
    DayMonthOf(d, "constructor");
    NotPhrase(str);
    NotInDays(str);
    DueDateOfCalendar(dateStr, today, InheritedMonth);
    DueDateOfCalendar(dateStr, today, OwnMonth);
    assert MonthDayMatch(str) == None by {
      assert LeadingLower(str) == 0;
    }
  }

  /** Lower-casing leaves digits and lower-case letters alone. */
  lemma LowerDigitsLetters(s: string)
    requires forall i :: 0 <= i < |s| ==> IsAsciiDigit(s[i]) || IsAsciiLower(s[i])
    ensures Lower(s) == s
  {
  }

  // ---------------------------------------------------------------- the message

  /** `parseLendingMessage`. */
  function ParseLendingMessage(message: string, now: Instant): (r: Option<ParsedLending>)
    requires IsNow(now)
    ensures r.Some? <==> |Tokens(message)| >= 2 && ParseAmount(Tokens(message)[0]).Some?
    ensures r.Some? ==> r.value.amount > 0.0
    ensures r.Some? ==> r.value.isRepayment == StartsWithKeyword(Normalized(message))
    ensures r.Some? ==> r.value.borrowerName == CapitalizeFirst(Tokens(message)[1]) && r.value.borrowerName != []
    ensures r.Some? ==> (r.value.rawDueText.Some? <==> |Tokens(message)| > 2)
    ensures r.Some? && |Tokens(message)| > 2 ==>
      r.value.rawDueText == Some(Join(Tokens(message)[2..], " ")) &&
      r.value.dueDate == ParseDueDate(Join(Tokens(message)[2..], " "), now)
    ensures r.Some? && |Tokens(message)| <= 2 ==> r.value.dueDate.None?
  {
    var text := Normalized(message);
    var isRepayment := StartsWithKeyword(text);
    var parts := Tokens(message);
    if |parts| < 2 then None
    else
      match ParseAmount(parts[0])
      case None => None
      case Some(amount) =>
        var borrowerName := CapitalizeFirst(parts[1]);
        TokensAreWords(message);
        if |parts| > 2 then
          var rawDueText := Join(parts[2..], " ");
          Some(ParsedLending(amount, borrowerName, ParseDueDate(rawDueText, now), isRepayment, Some(rawDueText)))
        else
          Some(ParsedLending(amount, borrowerName, None, isRepayment, None))
  }

  /** The parse of a message whose first token is an amount, in terms of its tokens. */
  lemma ParseOfTokens(message: string, now: Instant, amount: real)
    requires IsNow(now) && |Tokens(message)| >= 2 && ParseAmount(Tokens(message)[0]) == Some(amount)
    ensures var ws := Tokens(message);
      ParseLendingMessage(message, now) == Some(ParsedLending(
        amount, CapitalizeFirst(ws[1]),
        if |ws| > 2 then ParseDueDate(Join(ws[2..], " "), now) else None,
        StartsWithKeyword(Normalized(message)),
        if |ws| > 2 then Some(Join(ws[2..], " ")) else None))
  {
  }

  /** A word the parser reads back unchanged: non-empty, without white space or upper-case letters. */
  predicate PlainWord(w: string) {
    IsWord(w) && NoUpper(w)
  }

  predicate PlainWords(ws: seq<string>) {
    forall k :: 0 <= k < |ws| ==> PlainWord(ws[k])
  }

  lemma PlainWordsCons(w: string, ws: seq<string>)
    requires PlainWord(w) && PlainWords(ws)
    ensures PlainWords([w] + ws)
  {
    assert forall k :: 1 <= k < |[w] + ws| ==> ([w] + ws)[k] == ws[k - 1];
  }

  lemma PlainWordsOfMessage(d: string, name: string, due: seq<string>)
    requires PlainWord(d) && PlainWord(name) && PlainWords(due)
    ensures PlainWords([d, name] + due)
  {
    var ws := [d, name] + due;
    forall k | 0 <= k < |ws|
      ensures PlainWord(ws[k])
    {
      if k >= 2 {
        assert ws[k] == due[k - 2];
      }
    }
  }

  /** Digits are a plain word. */
  lemma DigitsPlain(d: string)
    requires d != [] && AllDigits(d)
    ensures PlainWord(d)
  {
  }

  /** Plain words joined by single spaces are already trimmed and lower-case. */
  lemma NormalizedOfJoin(ws: seq<string>)
    requires |ws| >= 1 && PlainWords(ws)
    ensures Normalized(Join(ws, " ")) == Join(ws, " ")
    ensures Trimmed(Join(ws, " "))
  {
    var m := Join(ws, " ");
    JoinStartsWithWord(ws);
    JoinEndsWithWord(ws);
    TrimOfTrimmed(m);
    JoinNoUpper(ws);
    LowerOfNoUpper(m);
  }

  /** Text that starts with a digit has no repayment keyword to drop. */
  lemma NoKeyword(text: string)
    requires text != [] && IsAsciiDigit(text[0])
    ensures !StartsWithKeyword(text) && DropKeyword(text) == text
  {
    if |text| >= 3 {
      assert text[..3][0] == text[0];
    }
    if |text| >= 8 {
      assert text[..8][0] == text[0];
    }
  }

  /** Text that cleans to plain words joined by spaces splits into those words. */
  lemma TokensFromClean(message: string, ws: seq<string>)
    requires |ws| >= 1 && PlainWords(ws)
    requires Trim(DropKeyword(Normalized(message))) == Join(ws, " ")
    ensures Tokens(message) == ws
  {
    SplitJoin(ws);
  }

  /** The tokens of plain words after a digit are those words, and there is no keyword. */
  lemma TokensOfPlain(ws: seq<string>)
    requires |ws| >= 1 && PlainWords(ws) && IsAsciiDigit(ws[0][0])
    ensures Tokens(Join(ws, " ")) == ws
    ensures !StartsWithKeyword(Normalized(Join(ws, " ")))
  {
    var m := Join(ws, " ");
    assert Normalized(m) == m && Trimmed(m) by {
      NormalizedOfJoin(ws);
    }
    assert !StartsWithKeyword(m) && DropKeyword(m) == m by {
      JoinStartsWithWord(ws);
      NoKeyword(m);
    }
    TrimOfTrimmed(m);
    TokensFromClean(m, ws);
  }

  predicate IsKeyword(kw: string) {
    kw == "received" || kw == "got" || kw == "returned"
  }

  lemma KeywordIsPlain(kw: string)
    requires IsKeyword(kw)
    ensures PlainWord(kw)
  {
  }

  /** A keyword and one space in front of text are dropped. */
  lemma DropKeywordOf(kw: string, m: string)
    requires IsKeyword(kw)
    ensures StartsWithKeyword(kw + " " + m)
    ensures DropKeyword(kw + " " + m) == TrimStart(" " + m)
  {
    if kw == "received" {
      DropReceived(m);
    } else if kw == "got" {
      DropGot(m);
    } else {
      DropReturned(m);
    }
  }

  lemma KeywordSplit(kw: string, m: string)
    requires kw != []
    ensures var text := kw + " " + m;
      StartsWith(text, kw) && |text| > |kw| && text[|kw|] == ' ' && text[|kw|..] == " " + m
  {
    var text := kw + " " + m;
    assert text[..|kw|] == kw;
    assert text[|kw|..] == " " + m;
  }

  lemma DropReceived(m: string)
    ensures StartsWithKeyword("received" + " " + m)
    ensures DropKeyword("received" + " " + m) == TrimStart(" " + m)
  {
    KeywordSplit("received", m);
  }

  lemma DropGot(m: string)
    ensures StartsWithKeyword("got" + " " + m)
    ensures DropKeyword("got" + " " + m) == TrimStart(" " + m)
  {
    var text := "got" + " " + m;
    KeywordSplit("got", m);
    NotReceived(text);
  }

  lemma DropReturned(m: string)
    ensures StartsWithKeyword("returned" + " " + m)
    ensures DropKeyword("returned" + " " + m) == TrimStart(" " + m)
  {
    var text := "returned" + " " + m;
    KeywordSplit("returned", m);
    NotReceived(text);
    NotGot(text);
  }

  lemma NotReceived(text: string)
    requires |text| >= 3 && (text[0] != 'r' || text[2] != 'c')
    ensures !StartsWith(text, "received")
  {
    if |text| >= 8 {
      assert text[..8][0] == text[0] && text[..8][2] == text[2];
    }
  }

  lemma NotGot(text: string)
    requires text != [] && text[0] != 'g'
    ensures !StartsWith(text, "got")
  {
    if |text| >= 3 {
      assert text[..3][0] == text[0];
    }
  }

  /** The tokens of plain words after a keyword and a space are those words, and the keyword is seen. */
  lemma TokensAfterKeyword(kw: string, ws: seq<string>)
    requires IsKeyword(kw) && |ws| >= 1 && PlainWords(ws)
    ensures Tokens(kw + " " + Join(ws, " ")) == ws
    ensures StartsWithKeyword(Normalized(kw + " " + Join(ws, " ")))
  {
    NormalizedAfterKeyword(kw, ws);
    CleanAfterKeyword(kw, ws);
    TokensFromClean(kw + " " + Join(ws, " "), ws);
  }

  lemma NormalizedAfterKeyword(kw: string, ws: seq<string>)
    requires IsKeyword(kw) && |ws| >= 1 && PlainWords(ws)
    ensures Normalized(kw + " " + Join(ws, " ")) == kw + " " + Join(ws, " ")
  {
    JoinCons(kw, ws, " ");
    KeywordIsPlain(kw);
    PlainWordsCons(kw, ws);
    NormalizedOfJoin([kw] + ws);
  }

  lemma CleanAfterKeyword(kw: string, ws: seq<string>)
    requires IsKeyword(kw) && |ws| >= 1 && PlainWords(ws)
    ensures StartsWithKeyword(kw + " " + Join(ws, " "))
    ensures Trim(DropKeyword(kw + " " + Join(ws, " "))) == Join(ws, " ")
  {
    var m := Join(ws, " ");
    DropKeywordOf(kw, m);
    JoinStartsWithWord(ws);
    SpaceThen(m);
    NormalizedOfJoin(ws);
    TrimOfTrimmed(m);
  }

  /**
   * A message of an amount, a name and any due-date words, each a plain word, is read back
   * as that amount, the capitalised name, and the due-date words joined by single spaces.
   */
  lemma LendingOfWords(d: string, amount: real, name: string, due: seq<string>, now: Instant)
    requires IsNow(now) && d != [] && AllDigits(d) && ParseAmount(d) == Some(amount)
    requires PlainWord(name) && PlainWords(due)
    ensures ParseLendingMessage(Join([d, name] + due, " "), now) == Some(ParsedLending(
      amount, CapitalizeFirst(name),
      if due == [] then None else ParseDueDate(Join(due, " "), now),
      false,
      if due == [] then None else Some(Join(due, " "))))
  {
    var ws := [d, name] + due;
    assert ws[0] == d && ws[1] == name && ws[2..] == due;
    assert PlainWords(ws) by {
      DigitsPlain(d);
      PlainWordsOfMessage(d, name, due);
    }
    assert Tokens(Join(ws, " ")) == ws && !StartsWithKeyword(Normalized(Join(ws, " "))) by {
      TokensOfPlain(ws);
    }
    ParseOfTokens(Join(ws, " "), now, amount);
  }

  /** The same message after `received`, `got` or `returned` is read back as a repayment. */
  lemma RepaymentOfWords(kw: string, d: string, amount: real, name: string, due: seq<string>, now: Instant)
    requires IsNow(now) && IsKeyword(kw)
    requires d != [] && AllDigits(d) && ParseAmount(d) == Some(amount)
    requires PlainWord(name) && PlainWords(due)
    ensures ParseLendingMessage(kw + " " + Join([d, name] + due, " "), now) == Some(ParsedLending(
      amount, CapitalizeFirst(name),
      if due == [] then None else ParseDueDate(Join(due, " "), now),
      true,
      if due == [] then None else Some(Join(due, " "))))
  {
    var ws := [d, name] + due;
    assert ws[0] == d && ws[1] == name && ws[2..] == due;
    assert PlainWords(ws) by {
      DigitsPlain(d);
      PlainWordsOfMessage(d, name, due);
    }
    assert Tokens(kw + " " + Join(ws, " ")) == ws && StartsWithKeyword(Normalized(kw + " " + Join(ws, " "))) by {
      TokensAfterKeyword(kw, ws);
    }
    ParseOfTokens(kw + " " + Join(ws, " "), now, amount);
  }

  /** A whole number and a name, as `500 john`, make a lending of that many rupees without a due date. */
  lemma LendingOfNumberAndName(n: nat, name: string, now: Instant)
    requires IsNow(now) && n > 0 && PlainWord(name)
    ensures ParseLendingMessage(NatToString(n) + " " + name, now) ==
      Some(ParsedLending(n as real, CapitalizeFirst(name), None, false, None))
  {
    ParseAmountOfNat(n);
    LendingOfDigitsAndName(NatToString(n), n as real, name, now);
  }

  lemma LendingOfDigitsAndName(d: string, amount: real, name: string, now: Instant)
    requires IsNow(now) && d != [] && AllDigits(d) && ParseAmount(d) == Some(amount) && PlainWord(name)
    ensures ParseLendingMessage(d + " " + name, now) == Some(ParsedLending(amount, CapitalizeFirst(name), None, false, None))
  {
    LendingOfWords(d, amount, name, [], now);
    JoinPair(d, name, " ");
  }

  lemma JoinPair(a: string, b: string, sep: string)
    ensures Join([a, b] + [], sep) == a + sep + b
  {
    assert [a, b] + [] == [a] + [b];
    JoinCons(a, [b], sep);
  }

  /** A plain word is its own due-date text. */
  lemma DueTextOfPlain(w: string)
    requires PlainWord(w)
    ensures DueText(w) == w
  {
    LowerOfNoUpper(w);
    TrimStartOfWord(w);
    TrimEndOfWord(w);
  }

  /** A day number glued to a month word, as `15jan`, is a plain word. */
  lemma DayMonthWordPlain(d: string, mon: string)
    requires d != [] && AllDigits(d) && mon != [] && AllAsciiLower(mon)
    ensures PlainWord(d + mon)
  {
    DigitsPlain(d);
    assert forall i :: 0 <= i < |d + mon| ==> (d + mon)[i] == if i < |d| then d[i] else mon[i - |d|];
  }

  /** An amount, a name and one due-date word: the word is the due-date text. */
  lemma LendingWithDueWord(d: string, amount: real, name: string, w: string, now: Instant)
    requires IsNow(now) && d != [] && AllDigits(d) && ParseAmount(d) == Some(amount)
    requires PlainWord(name) && PlainWord(w)
    ensures ParseLendingMessage(d + " " + name + " " + w, now) ==
      Some(ParsedLending(amount, CapitalizeFirst(name), ParseDueDate(w, now), false, Some(w)))
  {
    OneWord(w);
    LendingOfWords(d, amount, name, [w], now);
    JoinThree(d, name, w);
  }

  lemma OneWord(w: string)
    requires PlainWord(w)
    ensures PlainWords([w]) && Join([w], " ") == w
  {
  }

  /** `500 john 15jan`: the third word is the due date, that day of that month, rolled forward as needed. */
  lemma LendingDueOnDayMonth(d: string, amount: real, name: string, dd: string, mon: string, m: MonthNumber, now: Instant)
    requires IsNow(now) && d != [] && AllDigits(d) && ParseAmount(d) == Some(amount) && PlainWord(name)
    requires 1 <= |dd| <= 2 && AllDigits(dd) && mon != [] && AllAsciiLower(mon) && OwnMonth(mon) == MonthIndex(m)
    ensures ParseLendingMessage(d + " " + name + " " + (dd + mon), now) ==
      Some(ParsedLending(amount, CapitalizeFirst(name), Defined(ResolveDay(now, m, DigitsValue(dd))), false, Some(dd + mon)))
  {
    var w := dd + mon;
    DayMonthWordPlain(dd, mon);
    assert ParseDueDate(w, now) == Defined(ResolveDay(now, m, DigitsValue(dd))) by {
      DueTextOfPlain(w);
      DayMonthForm(w, now, dd, mon, m);
    }
    LendingWithDueWord(d, amount, name, w, now);
  }

  /** A message of one word is never a lending. */
  lemma OneWordIsNoLending(w: string, now: Instant)
    requires IsNow(now) && IsWord(w)
    ensures ParseLendingMessage(w, now) == None
  {
    TokensOfWord(w);
  }

  /** A single word is a single token. */
  lemma TokensOfWord(w: string)
    requires IsWord(w)
    ensures |Tokens(w)| == 1
  {
    var text := Normalized(w);
    assert Trim(w) == w by {
      TrimStartOfWord(w);
      TrimEndOfWord(w);
    }
    assert NoSpace(text);
    assert DropKeyword(text) == text by {
      DropKeywordOfWord(text);
    }
    assert Trim(text) == text by {
      TrimStartOfWord(text);
      TrimEndOfWord(text);
    }
    assert FirstSpace(text) == |text|;
  }

  /** Without white space there is no keyword followed by white space to drop. */
  lemma DropKeywordOfWord(text: string)
    requires NoSpace(text)
    ensures DropKeyword(text) == text
  {
    assert !KeywordThenSpace(text, "received") && !KeywordThenSpace(text, "got") && !KeywordThenSpace(text, "returned");
  }

  lemma TrimStartOfWord(w: string)
    requires NoSpace(w)
    ensures TrimStart(w) == w
  {
  }

  lemma TrimEndOfWord(w: string)
    requires NoSpace(w)
    ensures TrimEnd(w) == w
  {
  }

  // ---------------------------------------------------------------- drafts

  /** The fields of the transaction `createLendingFromMessage` creates in the lendings ledger. */
  function TransactionDraftOf(p: ParsedLending, ledgerId: string): (d: TransactionDraft)
    ensures d.amount == p.amount && d.ledgerId == ledgerId
    ensures d.paymentMode == Some("Cash") && d.person == Some(p.borrowerName)
    ensures d.txType == CashIn <==> p.isRepayment
    ensures p.isRepayment ==> d.category == "Repayment" && d.title == "Received from " + p.borrowerName
    ensures !p.isRepayment ==> d.category == "Lending" && d.title == "Lent to " + p.borrowerName
  {
    TransactionDraft(
      if p.isRepayment then "Received from " + p.borrowerName else "Lent to " + p.borrowerName,
      p.amount,
      if p.isRepayment then CashIn else CashOut,
      if p.isRepayment then "Repayment" else "Lending",
      Some("Cash"),
      Some(p.borrowerName),
      ledgerId)
  }

  datatype LendingStatus = Pending

  /** A row of the `lendings` table. */
  datatype LendingRecord = LendingRecord(
    transactionId: string,
    borrowerName: string,
    dueDate: Option<Instant>,
    status: LendingStatus,
    originalAmount: real,
    remainingAmount: real,
    notes: Option<string>)

  /** The lending record inserted alongside the transaction: only for money lent, never for a repayment. */
  function LendingRecordOf(p: ParsedLending, transactionId: string): (r: Option<LendingRecord>)
    ensures r.Some? <==> !p.isRepayment
    ensures r.Some? ==> r.value.status == Pending && r.value.transactionId == transactionId
    ensures r.Some? ==> r.value.originalAmount == p.amount && r.value.remainingAmount == p.amount
    ensures r.Some? ==> r.value.borrowerName == p.borrowerName && r.value.dueDate == p.dueDate && r.value.notes == p.rawDueText
  {
    if p.isRepayment then None
    else Some(LendingRecord(transactionId, p.borrowerName, p.dueDate, Pending, p.amount, p.amount, p.rawDueText))
  }
}
