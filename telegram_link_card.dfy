/**
 * The settings card that links a Telegram chat: the countdown of the link code's lifetime,
 * the `m:ss` rendering of what is left of it, and the text copied for the bot. The HTTP
 * calls are not modelled; what they return is a parameter of each operation.
 */
module TelegramLinkCard {
  import opened Wrappers
  import opened JsString
  import opened JsNumber
  import TelegramWebhook

  // ---------------------------------------------------------------- formatTime

  /** `s.padStart(2, '0')` */
  function PadStart2(s: string): (r: string)
    ensures |s| >= 2 ==> r == s
    ensures |s| < 2 ==> |r| == 2 && r[2 - |s|..] == s && forall i :: 0 <= i < 2 - |s| ==> r[i] == '0'
    decreases 2 - |s|
  {
    if |s| >= 2 then s else PadStart2("0" + s)
  }

  /** `formatTime(seconds)`: whole minutes, a colon, and the seconds left over on two digits. */
  function FormatTime(seconds: nat): (r: string) {
    NatToString(seconds / 60) + ":" + PadStart2(NatToString(seconds % 60))
  }

  /** Reads `m:ss` back: digits, one colon, then exactly two digits. */
  function ReadTime(t: string): (r: Option<(nat, nat)>) {
    var i := FirstIndexOf(t, ':');
    if i == |t| then None
    else
      var m, s := t[..i], t[i + 1..];
      if m != [] && AllDigits(m) && |s| == 2 && AllDigits(s) then Some((DigitsValue(m), DigitsValue(s)))
      else None
  }

  /** A leading zero does not change the value of a digit string. */
  lemma {:induction false} LeadingZero(d: string)
    requires AllDigits(d)
    ensures AllDigits("0" + d) && DigitsValue("0" + d) == DigitsValue(d)
    decreases |d|
  {
    if d != [] {
      var pre := d[..|d| - 1];
      assert ("0" + d)[..|d|] == "0" + pre;
      LeadingZero(pre);
    }
  }

  /** Padding keeps the digits and their value. */
  lemma {:induction false} PadKeepsValue(d: string)
    requires AllDigits(d)
    ensures AllDigits(PadStart2(d)) && DigitsValue(PadStart2(d)) == DigitsValue(d)
    decreases 2 - |d|
  {
    if |d| < 2 {
      LeadingZero(d);
      PadKeepsValue("0" + d);
    }
  }

  /** The first colon of digits, a colon and anything is right after the digits. */
  lemma ColonAfterDigits(a: string, b: string)
    requires AllDigits(a)
    ensures FirstIndexOf(a + ":" + b, ':') == |a|
  {
    var s := a + ":" + b;
    assert s[|a|] == ':' && s[..|a|] == a;
    assert ':' !in a by {
      forall j | 0 <= j < |a|
        ensures a[j] != ':'
      {
        assert IsAsciiDigit(a[j]);
      }
    }
  }

  /**
   * What `formatTime` renders reads back as the minutes and the seconds, the seconds field
   * has two digits and is below 60, and minutes times 60 plus seconds is the input.
   */
  lemma FormatTimeReadBack(seconds: nat)
    ensures ReadTime(FormatTime(seconds)).Some?
    ensures ReadTime(FormatTime(seconds)).value == (seconds / 60, seconds % 60)
    ensures ReadTime(FormatTime(seconds)).value.1 < 60
    ensures ReadTime(FormatTime(seconds)).value.0 * 60 + ReadTime(FormatTime(seconds)).value.1 == seconds
  {
    var m, s := NatToString(seconds / 60), NatToString(seconds % 60);
    var p := PadStart2(s);
    PadKeepsValue(s);
    assert |s| <= 2 by {
      if |s| > 2 {
        TwoDigitsAtMost(s, seconds % 60);
      }
    }
    var t := m + ":" + p;
    ColonAfterDigits(m, p);
    assert t[..|m|] == m && t[|m| + 1..] == p;
  }

  /** A digit string of more than two digits without a leading zero is at least 100. */
  lemma TwoDigitsAtMost(d: string, n: nat)
    requires AllDigits(d) && |d| > 2 && d[0] != '0' && DigitsValue(d) == n
    ensures n >= 100
  {
    AtLeastPower(d);
  }

  /** A digit string of length k + 1 with no leading zero has a value of at least 10^k. */
  lemma {:induction false} AtLeastPower(d: string)
    requires AllDigits(d) && |d| >= 1 && d[0] != '0'
    ensures DigitsValue(d) >= Power10(|d| - 1)
    decreases |d|
  {
    if |d| > 1 {
      var pre := d[..|d| - 1];
      assert pre[0] == d[0];
      AtLeastPower(pre);
    } else {
      assert DigitValue(d[0]) >= 1;
    }
  }

  function Power10(k: nat): (r: nat)
    ensures r >= 1
  {
    if k == 0 then 1 else 10 * Power10(k - 1)
  }

  /** Under ten minutes and ten seconds the rendering is one digit, a colon, a zero and one digit. */
  lemma FormatSmall(m: nat, sec: nat)
    requires m < 10 && sec < 10
    ensures FormatTime(60 * m + sec) == [DigitChar(m), ':', '0', DigitChar(sec)]
  {
    assert (60 * m + sec) / 60 == m && (60 * m + sec) % 60 == sec;
    assert NatToString(m) == [DigitChar(m)] && NatToString(sec) == [DigitChar(sec)];
    assert PadStart2([DigitChar(sec)]) == ['0', DigitChar(sec)];
  }

  /** Five minutes render as `5:00`, one minute and five seconds as `1:05`. */
  lemma FormatTimeExamples()
    ensures FormatTime(300) == "5:00"
    ensures FormatTime(65) == "1:05"
  {
    FormatSmall(5, 0);
    FormatSmall(1, 5);
  }

  // ---------------------------------------------------------------- the countdown

  /** One tick of the interval: at one second or less the code is dropped and the counter is 0. */
  function Tick(expiry: int, code: Option<string>): (r: (int, Option<string>))
    ensures expiry <= 1 ==> r == (0, None)
    ensures expiry > 1 ==> r == (expiry - 1, code)
  {
    if expiry <= 1 then (0, None) else (expiry - 1, code)
  }

  /** `n` seconds of the timer, which is running only while the counter is above 0. */
  function Run(expiry: int, code: Option<string>, n: nat): (r: (int, Option<string>)) {
    if n == 0 || expiry <= 0 then (expiry, code)
    else
      var next := Tick(expiry, code);
      Run(next.0, next.1, n - 1)
  }

  /** Fewer ticks than the counter leave the code in place and count it down by one each. */
  lemma {:induction false} RunCountsDown(expiry: int, code: Option<string>, n: nat)
    requires n < expiry
    ensures Run(expiry, code, n) == (expiry - n, code)
    decreases n
  {
    if n > 0 {
      RunCountsDown(expiry - 1, code, n - 1);
    }
  }

  /** As many ticks as the counter shows clear the code and stop the timer at 0. */
  lemma RunExpires(expiry: nat, code: Option<string>)
    requires expiry > 0
    ensures Run(expiry, code, expiry) == (0, None)
  {
    RunCountsDown(expiry, code, expiry - 1);
    RunSplit(expiry, code, expiry - 1, 1);
  }

  /** Running `a` and then `b` seconds is running `a + b`. */
  lemma {:induction false} RunSplit(expiry: int, code: Option<string>, a: nat, b: nat)
    ensures Run(expiry, code, a + b) == Run(Run(expiry, code, a).0, Run(expiry, code, a).1, b)
    decreases a
  {
    if a > 0 && expiry > 0 {
      var next := Tick(expiry, code);
      RunSplit(next.0, next.1, a - 1, b);
      assert a + b - 1 == (a - 1) + b;
    } else if a == 0 {
    } else {
      assert Run(expiry, code, a + b) == (expiry, code);
      assert b == 0 || Run(expiry, code, b) == (expiry, code);
    }
  }

  /** The counter never goes below 0 once it starts at 0 or more. */
  lemma {:induction false} RunNeverNegative(expiry: int, code: Option<string>, n: nat)
    requires expiry >= 0
    ensures Run(expiry, code, n).0 >= 0
    ensures Run(expiry, code, n).0 == 0 ==> expiry == 0 || Run(expiry, code, n).1.None?
    decreases n
  {
    if n > 0 && expiry > 0 {
      var next := Tick(expiry, code);
      RunNeverNegative(next.0, next.1, n - 1);
    }
  }

  /** The state of `TelegramLinkCard` this model keeps. */
  class LinkCard {
    var linked: bool
    var linkCode: Option<string>
    var codeExpiry: int
    var copied: bool

    /** The counter is never negative. */
    ghost predicate Valid()
      reads this
    {
      codeExpiry >= 0
    }

    /** The interval is installed exactly while the counter is above 0. */
    predicate TimerRunning()
      reads this
    {
      codeExpiry > 0
    }

    constructor ()
      ensures Valid() && !linked && linkCode == None && codeExpiry == 0 && !copied
    {
      linked, linkCode, codeExpiry, copied := false, None, 0, false;
    }

    /** `setCodeExpiry(prev => …)` run by the interval, which only runs while the counter is above 0. */
    method TickSecond()
      requires Valid() && TimerRunning()
      modifies this
      ensures Valid()
      ensures (codeExpiry, linkCode) == Tick(old(codeExpiry), old(linkCode))
      ensures linked == old(linked) && copied == old(copied)
    {
      if codeExpiry <= 1 {
        linkCode := None;
        codeExpiry := 0;
      } else {
        codeExpiry := codeExpiry - 1;
      }
    }

    /** `fetchLinkStatus`: the status is replaced when the request succeeds. */
    method FetchLinkStatus(ok: bool, status: bool)
      modifies this
      ensures linked == (if ok then status else old(linked))
      ensures linkCode == old(linkCode) && codeExpiry == old(codeExpiry) && copied == old(copied)
    {
      if ok {
        linked := status;
      }
    }

    /** `generateLinkCode`: a successful request sets the code and its lifetime in seconds. */
    method GenerateLinkCode(ok: bool, code: string, expiresIn: nat)
      requires Valid()
      modifies this
      ensures Valid()
      ensures ok ==> linkCode == Some(code) && codeExpiry == expiresIn
      ensures !ok ==> linkCode == old(linkCode) && codeExpiry == old(codeExpiry)
      ensures linked == old(linked) && copied == old(copied)
    {
      if ok {
        linkCode := Some(code);
        codeExpiry := expiresIn;
      }
    }

    /** `unlinkAccount`: after the confirmation, a successful request unlinks and drops the code. */
    method UnlinkAccount(confirmed: bool, ok: bool)
      requires Valid()
      modifies this
      ensures Valid()
      ensures confirmed && ok ==> !linked && linkCode == None
      ensures !(confirmed && ok) ==> linked == old(linked) && linkCode == old(linkCode)
      ensures codeExpiry == old(codeExpiry) && copied == old(copied)
    {
      if confirmed && ok {
        linked := false;
        linkCode := None;
      }
    }

    /**
     * `copyCode`: with a code (an empty one is falsy and counts as none) the text
     * `/start <code>` goes to the clipboard and the copied mark is set; otherwise nothing
     * happens.
     */
    method CopyCode() returns (clipboard: Option<string>)
      modifies this
      ensures old(linkCode).Some? && old(linkCode).value != "" ==>
        clipboard == Some("/start " + old(linkCode).value) && copied
      ensures old(linkCode).None? || old(linkCode).value == "" ==> clipboard.None? && copied == old(copied)
      ensures linked == old(linked) && linkCode == old(linkCode) && codeExpiry == old(codeExpiry)
    {
      if linkCode.Some? && linkCode.value != "" {
        clipboard := Some("/start " + linkCode.value);
        copied := true;
      } else {
        clipboard := None;
      }
    }

    /** The timeout two seconds after a copy. */
    method CopiedTimeout()
      modifies this
      ensures !copied
      ensures linked == old(linked) && linkCode == old(linkCode) && codeExpiry == old(codeExpiry)
    {
      copied := false;
    }
  }

  /**
   * The text the card copies, sent to the bot as it is, asks the webhook to link the chat
   * with that code, for a code of digits like the ones the link endpoint hands out.
   */
  lemma CopiedCodeLinks(code: string, linked: bool, parsed: Option<TelegramWebhook.Telegram.ParsedLending>)
    requires code != [] && AllDigits(code)
    ensures TelegramWebhook.Route(Some("/start " + code), linked, parsed) == TelegramWebhook.LinkAttempt(code)
  {
    assert !IsSpace(code[|code| - 1]);
    assert ' ' !in code by {
      forall i | 0 <= i < |code|
        ensures code[i] != ' '
      {
        assert IsAsciiDigit(code[i]);
      }
    }
    TelegramWebhook.StartWithCode(code, linked, parsed);
  }
}
