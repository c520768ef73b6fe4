/**
 * The command routing of the Telegram webhook: which reply an incoming update gets, from
 * its text, whether the chat is linked to an account, and the clock the lending parser
 * reads. The replies stand for the messages sent and the store calls made; sending them
 * is not modelled.
 */
module TelegramWebhook {
  import opened Wrappers
  import opened JsString
  import opened JsDate
  import Telegram

  /** What the webhook does for one update. */
  datatype Reply =
    | NoReply                                    // no text: nothing is sent
    | LinkAttempt(code: string)                  // `/start <code>`: `verifyAndLinkAccount(code, …)`
    | WelcomeBack                                // `/start` in a linked chat
    | LinkInstructions                           // `/start` in a chat not linked yet
    | Help                                       // `/help`
    | StatusLinked                               // `/status`, linked
    | StatusUnlinked                             // `/status`, not linked
    | LinkPrompt                                 // anything else from a chat not linked yet
    | FormatHint                                 // a linked chat's text that does not parse
    | CreateLending(parsed: Telegram.ParsedLending)  // `createLendingFromMessage(parsed, …)`

  /** A start command: the trimmed text begins with `/start`, whatever follows. */
  predicate IsStart(t: string) {
    StartsWith(t, "/start")
  }

  /** One of the three commands, each of which is answered whether or not the chat is linked. */
  predicate IsCommand(t: string) {
    IsStart(t) || t == "/help" || t == "/status"
  }

  /**
   * `POST`, given the parse of the trimmed text: an update with no text, or an empty one,
   * gets no reply. Otherwise the trimmed text is tried as a start command, then as `/help`,
   * then as `/status`; an unlinked chat then gets the link prompt, and a linked one a
   * lending created from the parse, or the format hint when there is none.
   */
  function Route(text: Option<string>, linked: bool, parsed: Option<Telegram.ParsedLending>): (r: Reply)
    ensures (text.None? || text == Some("")) <==> r == NoReply
    ensures text.Some? && IsStart(Trim(text.value)) ==>
      if ' ' in Trim(text.value) then r == LinkAttempt(SplitOn(Trim(text.value), ' ')[1])
      else r == (if linked then WelcomeBack else LinkInstructions)
    ensures r.LinkAttempt? ==> text.Some? && IsStart(Trim(text.value)) && ' ' in Trim(text.value)
    ensures r == Help <==> text.Some? && Trim(text.value) == "/help"
    ensures r.StatusLinked? || r.StatusUnlinked? <==> text.Some? && Trim(text.value) == "/status"
    ensures r.StatusLinked? ==> linked
    ensures r.StatusUnlinked? ==> !linked
    ensures r == LinkPrompt <==> text.Some? && text.value != "" && !IsCommand(Trim(text.value)) && !linked
    ensures r == FormatHint <==> text.Some? && text.value != "" && !IsCommand(Trim(text.value)) && linked && parsed.None?
    ensures r.CreateLending? <==> text.Some? && text.value != "" && !IsCommand(Trim(text.value)) && linked && parsed.Some?
    ensures r.CreateLending? ==> r.parsed == parsed.value
  {
    CommandsDiffer();
    if text.None? || text.value == "" then NoReply
    else
      var t := Trim(text.value);
      if IsStart(t) then
        var parts := SplitOn(t, ' ');
        if |parts| > 1 then LinkAttempt(parts[1])
        else if linked then WelcomeBack
        else LinkInstructions
      else if t == "/help" then Help
      else if t == "/status" then (if linked then StatusLinked else StatusUnlinked)
      else if !linked then LinkPrompt
      else
        match parsed
        case None => FormatHint
        case Some(p) => CreateLending(p)
  }

  /** Neither `/help` nor `/status` is a start command. */
  lemma CommandsDiffer()
    ensures !IsStart("/help") && !IsStart("/status")
  {
    assert "/help"[1] != "/start"[1];
    assert "/status"[..6][4] != "/start"[4];
  }

  /** The webhook with the clock: the text the route parses is the trimmed text of the update. */
  function Webhook(text: Option<string>, linked: bool, now: Instant): (r: Reply)
    requires IsNow(now)
  {
    Route(text, linked, if text.Some? then Telegram.ParseLendingMessage(Trim(text.value), now) else None)
  }

  /** Text a chat that is not linked sends never reaches the parser and creates no lending. */
  lemma UnlinkedNeverCreates(text: Option<string>, now: Instant)
    requires IsNow(now)
    ensures !Webhook(text, false, now).CreateLending? && Webhook(text, false, now) != FormatHint
  {
  }

  /**
   * A lending is created only from text the parser accepts, with its amount above zero and
   * its repayment flag set by the keyword; unparsable text from a linked chat gets the hint.
   */
  lemma CreatedFromParse(text: string, now: Instant)
    requires IsNow(now)
    requires text != "" && !IsCommand(Trim(text))
    ensures Telegram.ParseLendingMessage(Trim(text), now).None? ==> Webhook(Some(text), true, now) == FormatHint
    ensures Webhook(Some(text), true, now).CreateLending? ==>
      Webhook(Some(text), true, now).parsed.amount > 0.0 &&
      Webhook(Some(text), true, now).parsed.isRepayment == Telegram.StartsWithKeyword(Telegram.Normalized(Trim(text)))
  {
    var parsed := Telegram.ParseLendingMessage(Trim(text), now);
    assert Webhook(Some(text), true, now) == Route(Some(text), true, parsed);
  }

  /**
   * `text.split(' ')` of `/start` and a code without spaces is the command and the code;
   * `/start` alone splits into one part.
   */
  lemma SplitStart(code: string)
    requires ' ' !in code
    ensures SplitOn("/start " + code, ' ') == ["/start", code]
  {
    var s := "/start " + code;
    assert s[..6] == "/start" && s[6] == ' ';
    assert FirstIndexOf(s, ' ') == 6 by {
      assert ' ' !in s[..6];
    }
    assert s[7..] == code;
  }

  /** `/start`, a space and a code that does not end in white space has no white space at either end. */
  lemma TrimStartCommand(code: string)
    requires code != [] && !IsSpace(code[|code| - 1])
    ensures Trimmed("/start " + code)
  {
    var s := "/start " + code;
    assert s[|s| - 1] == code[|code| - 1];
  }

  /** `/start`, a space and a code is a start command with a space in it. */
  lemma StartAndSpace(code: string)
    ensures IsStart("/start " + code) && ' ' in "/start " + code
  {
    var s := "/start " + code;
    assert s[..6] == "/start";
    assert s[6] == ' ';
  }

  /**
   * `/start <code>` with a code that has no spaces and does not end in white space asks to
   * link the chat with exactly that code, whether or not the chat is linked already.
   */
  lemma StartWithCode(code: string, linked: bool, parsed: Option<Telegram.ParsedLending>)
    requires code != [] && ' ' !in code && !IsSpace(code[|code| - 1])
    ensures Route(Some("/start " + code), linked, parsed) == LinkAttempt(code)
  {
    var s := "/start " + code;
    TrimStartCommand(code);
    SplitStart(code);
    StartAndSpace(code);
    StartRoute(s, linked, parsed);
  }

  /** A trimmed start command with a space in it links with what follows the first space. */
  lemma StartRoute(s: string, linked: bool, parsed: Option<Telegram.ParsedLending>)
    requires Trimmed(s) && IsStart(s) && ' ' in s
    ensures Route(Some(s), linked, parsed) == LinkAttempt(SplitOn(s, ' ')[1])
  {
    TrimOfTrimmed(s);
  }

  /** Trailing white space is what `trimEnd` drops. */
  lemma {:induction false} TrimEndSpaces(p: string, spaces: string)
    requires AllSpace(spaces) && (p == [] || !IsSpace(p[|p| - 1]))
    ensures TrimEnd(p + spaces) == p
    decreases |spaces|
  {
    if spaces != [] {
      var pre := spaces[..|spaces| - 1];
      assert (p + spaces)[..|p + spaces| - 1] == p + pre;
      TrimEndSpaces(p, pre);
    }
  }

  /** `/start` followed by white space only trims to the bare command. */
  lemma BareStart(spaces: string)
    requires AllSpace(spaces)
    ensures Trim("/start" + spaces) == "/start" && IsStart("/start") && ' ' !in "/start"
  {
    var s := "/start" + spaces;
    assert TrimStart(s) == s;
    TrimEndSpaces("/start", spaces);
  }

  /** `/start`, two spaces and a code splits into the command, an empty part and the rest. */
  lemma DoubleSpaceStart(code: string)
    requires code != [] && !IsSpace(code[|code| - 1])
    ensures Trimmed("/start  " + code) && IsStart("/start  " + code) && ' ' in "/start  " + code
    ensures SplitOn("/start  " + code, ' ')[1] == ""
  {
    var rest := " " + code;
    var s := "/start " + rest;
    assert s == "/start  " + code;
    assert s[|s| - 1] == code[|code| - 1];
    assert s[..6] == "/start";
    assert s[6] == ' ';
    assert FirstIndexOf(s, ' ') == 6 by {
      assert ' ' !in "/start";
    }
    assert s[7..] == rest;
    assert FirstIndexOf(rest, ' ') == 0;
  }

  /**
   * `/start` followed by white space only also counts as the bare command, since the text
   * is trimmed first; `/start` with two spaces before the code passes an empty code.
   */
  lemma StartEdgeCases(spaces: string, code: string, linked: bool, parsed: Option<Telegram.ParsedLending>)
    requires AllSpace(spaces) && code != [] && !IsSpace(code[|code| - 1])
    ensures Route(Some("/start" + spaces), linked, parsed) == (if linked then WelcomeBack else LinkInstructions)
    ensures Route(Some("/start  " + code), linked, parsed) == LinkAttempt("")
  {
    BareStart(spaces);
    DoubleSpaceStart(code);
    StartRoute("/start  " + code, linked, parsed);
  }

  /** Only the exact commands count: `/help me` is not the help command but lending text. */
  lemma HelpOnlyExact(linked: bool, parsed: Option<Telegram.ParsedLending>)
    ensures Route(Some("/help me"), linked, parsed) != Help
    ensures !linked ==> Route(Some("/help me"), linked, parsed) == LinkPrompt
  {
    var s := "/help me";
    TrimOfTrimmed(s);
    assert s[..6] != "/start" by {
      assert s[1] == 'h';
    }
  }
}
