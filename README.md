# Cashbook lending core, modelled in Dafny

Cashbook is a small bookkeeping web app. A user keeps ledgers of cash-in and cash-out
transactions. A special ledger records money lent to and borrowed from people, and a
Telegram bot can add entries to it from chat messages such as `500 john tomorrow`.

This project models the logic of the app's core and proves properties of it:

- the chat-message parser (amount, borrower, due date, repayment keyword) and the
  transaction and lending-record fields it produces;
- the bot's webhook routing decision;
- the lendings dashboard's per-person balances, search, owed/owing/settled split and
  totals;
- the add-lending and edit-lending dialogs: the intent ↔ type/category mapping, validation,
  the draft or update sent, and the form resets;
- the summary charts' group-by-sum data and the ledger dashboard's totals, search and
  prepend;
- the PDF export's totals, thousands separators, amount cells and file name;
- the store's `??` field merges and the ledger-delete cascade, over in-memory tables;
- the new-ledger dialog's category and payment-mode list editing;
- the category-icon lookup;
- the link card's `mm:ss` formatting, code countdown and copy guard.

Each core source file has its own module. Six helper modules model the JavaScript
behaviour the core relies on:

- `Wrappers`: `Option`.
- `JsString`: the ECMAScript white-space set used by `trim` and `\s`, ASCII case mapping,
  `split`, `join` and `includes`.
- `JsNumber`: `parseFloat` (section 19.2.4 of ECMA-262) and decimal rendering. The grammar
  is the longest decimal prefix; the `Infinity` literal and overflow to `Infinity` are left out.
- `JsDate`: `MakeDay`-style normalisation of out-of-range days and months (section 21.4.1
  of ECMA-262), over a proleptic Gregorian day number, and `TimeClip`: a time value more
  than 8.64e15 ms from 1970 is the Invalid Date.
- `Seqs`: `filter`, sums, and a stable insertion sort with multiset and sortedness
  guarantees.
- `Grouping`: keys in order of first appearance, groups, and the sum over groups.

Modelling choices:

- Amounts are exact `real`s. `created_at` is an integer time value.
- The current time is a parameter: a calendar date plus milliseconds into the day.
- Record and object key order is insertion order.
- Everything that talks to Supabase, Telegram or the browser is replaced by a parameter.
  For example, `upsertOk` says whether the upsert succeeded, and `linked` says whether the
  chat has a linked user.

Stateful pieces are Dafny classes whose methods are proved against specification
functions:

- the dialogs' React state (`AddLendingForm`, `EditLendingForm`, `LedgerForm`);
- the link card (`LinkCard`);
- the tables the store mutates (`Store.Tables`).

The loops of `personBalances`, `existingPeople`, the chart groupings and
`getCategoryIcon` are methods with loop invariants.

## Model

| member | source | states |
|---|---|---|
| Supabase.PersonOrUnknown | components/LendingsDashboard.tsx:144 | the person field when present and non-empty, otherwise "Unknown"; never empty |
| Supabase.PaymentModeOrUnknown | components/SummaryCharts.tsx:72 | the payment mode when present and non-empty, otherwise "Unknown" |
| Telegram.ParseAmount | lib/telegram.ts:267-274 | a parsed amount is always above zero |
| Telegram.AmountOf | lib/telegram.ts:270-273 | `parseFloat` of the cleaned token, kept only when it is a number above zero |
| Telegram.ParseAmountOfNat | lib/telegram.ts:267-274 | a positive decimal integer token reads as that number |
| Telegram.ParseAmountIgnoresSymbols | lib/telegram.ts:269 | any run of `₹ $ , r s R S` before a number is deleted, so `₹500` and `rs500` read as 500 |
| Telegram.ParseAmountOfFraction | lib/telegram.ts:269-270 | the deleted characters go one by one, not as a unit: `rs.5` reads as `.5`, a fraction |
| Telegram.ParseAmountOfWord | lib/telegram.ts:269-272 | a token starting with a letter other than r/s is no amount, so `gave john 500` fails |
| Telegram.CapitalizeFirst | lib/telegram.ts:360-362 | same length; the first character upper-cased and every later one lower-cased |
| Telegram.CapitalizeIdempotent | lib/telegram.ts:360-362 | capitalising twice is capitalising once |
| Telegram.DropKeyword | lib/telegram.ts:227-228 | the result is a suffix of the text; something is dropped iff the text starts with received/got/returned followed by white space |
| Telegram.Tokens | lib/telegram.ts:227-233 | the split of the cleaned text: at least one part, no part holds white space, and an empty first part means there is only one part |
| Telegram.TokensAreWords | lib/telegram.ts:233-235 | once there are two or more parts, every part is a non-empty word |
| Telegram.Lookup | lib/telegram.ts:313-326 | a month entry is found only for a listed name; undefined iff the name is not a key |
| Telegram.InheritedMonth | lib/telegram.ts:313-333 | the JavaScript lookup `months[name]` finds a non-month exactly for `constructor` |
| Telegram.LeadingLower | lib/telegram.ts:329 | number of leading `[a-z]` characters |
| Telegram.InDays | lib/telegram.ts:304 | a match of `in N days` starts with `in` and white space |
| Telegram.InDaysOf | lib/telegram.ts:304-306 | `in N days` and `in N day` read back as N |
| Telegram.DayMonthMatch | lib/telegram.ts:329-332 | a day-month match has a day of at most two digits (0..99) and a lower-case month word |
| Telegram.MonthDayMatch | lib/telegram.ts:344-347 | a month-day match has a lower-case month word and a day of at most two digits |
| Telegram.DayMonthOf | lib/telegram.ts:329-332 | one or two digits followed by a lower-case word (`15jan`) match with that day and word |
| Telegram.ResolveDay | lib/telegram.ts:334-338 | a date, when there is one, is at local midnight and inside the time-value range |
| Telegram.ResolveMonth | lib/telegram.ts:333-339 | a result exactly when the month entry is defined; an Invalid Date exactly for an inherited member or a date outside the time-value range; every date is inside the range |
| Telegram.PhraseOf | lib/telegram.ts:284-301 | only the four fixed phrases are recognised |
| Telegram.DueDateWith | lib/telegram.ts:279-358 | every date produced is a valid instant inside the time-value range |
| Telegram.ParseDueDateAsWritten | lib/telegram.ts:279-358 | `parseDueDate` as written: prototype month lookup and unbounded `setDate` included; every proper date is inside the time-value range |
| Telegram.ParseDueDate | lib/telegram.ts:279-358 | `parseDueDate` with own month keys and no Invalid Date: defined exactly when the grammar matches and the date is inside the time-value range, and then it is that date |
| Telegram.DueDateOfPhrase | lib/telegram.ts:281-301 | a phrase of the lower-cased, trimmed text gives the phrase's date |
| Telegram.DueDateOfInDays | lib/telegram.ts:304-310 | `in N days` gives now plus N days, clipped: the Invalid Date as written, and no due date when corrected, past the time-value range |
| Telegram.InDaysPastRange | lib/telegram.ts:304-310 | `in N days` has a corrected due date iff now plus N days is at most 8.64e15 ms, and is the Invalid Date as written iff it is beyond |
| Telegram.HundredMillionDays | lib/telegram.ts:304-310 | after 1970 began, `in 100000000 days` is the Invalid Date as written and no due date when corrected |
| Telegram.OnlyInDaysLeavesRange | lib/telegram.ts:279-358 | more than 800 days inside the range, only `in N days` can give an Invalid Date with own month keys |
| Telegram.DefinedWhenMatched | lib/telegram.ts:279-358 | more than 800 days inside the range, every form other than `in N days` has a corrected due date exactly when its grammar matches |
| Telegram.DueDateOfCalendar | lib/telegram.ts:312-357 | outside the phrases and `in N days` only the calendar forms are tried |
| Telegram.TodayForm | lib/telegram.ts:284-286 | `today` is the current instant |
| Telegram.TomorrowForm | lib/telegram.ts:287-291 | `tomorrow` is one day on at the same time of day, or no due date past the time-value range |
| Telegram.NextWeekForm | lib/telegram.ts:292-296 | `next week` is seven days on, or no due date past the time-value range |
| Telegram.NextMonthForm | lib/telegram.ts:297-301 | `next month` is the same day next month, overflowing as `setMonth` does, or no due date past the time-value range |
| Telegram.InDaysForm | lib/telegram.ts:304-310 | inside the time-value range `in N days` is N days on at the same time of day, as written and corrected; past it, the Invalid Date as written and no due date when corrected |
| Telegram.DayMonthForm | lib/telegram.ts:329-340 | a day and a known month name give `ResolveDay`: that day of that month this year, or next year when it has passed, and no due date past the time-value range |
| Telegram.NotPhrase | lib/telegram.ts:284-301 | `in …` and text starting with a digit are none of the phrases |
| Telegram.NotInDays | lib/telegram.ts:304 | text starting with a digit is not `in N days` |
| Telegram.DueDateNotEarlier | lib/telegram.ts:279-358 | every due date falls on today's calendar day or later |
| Telegram.PhraseNotEarlier | lib/telegram.ts:284-301 | phrase dates are never before today |
| Telegram.CalendarNotEarlier | lib/telegram.ts:329-355 | the day-month and month-day dates are never before today |
| Telegram.ResolveMonthNotEarlier | lib/telegram.ts:334-338 | the rolled-forward date of a month entry is never before today |
| Telegram.AddMonthNotEarlier | lib/telegram.ts:297-300 | `setMonth(+1)` never moves a date back |
| Telegram.ResolveDayNotEarlier | lib/telegram.ts:334-338 | a date in the past moved on one year is no longer before today's day |
| Telegram.TodayRollsOver | lib/telegram.ts:334-338 | naming today's own day keeps today only at exactly midnight, and otherwise rolls to the clipped date next year |
| Telegram.ConstructorMonth | lib/telegram.ts:313-339 | `15constructor` gives an Invalid Date as written, and no due date with own keys only |
| Telegram.ParseLendingMessage | lib/telegram.ts:220-262 | built on the corrected `ParseDueDate`: a parse exists iff there are two or more tokens and the first is an amount; amount above zero; repayment iff the normalised text starts with a keyword; the name is the capitalised second token; due-date text iff more than two tokens, and then it is the rest joined by single spaces and the due date is its corrected parse |
| Telegram.ParseOfTokens | lib/telegram.ts:233-261 | the whole result in terms of the tokens |
| Telegram.NoKeyword | lib/telegram.ts:224-228 | text starting with a digit is no repayment and loses nothing |
| Telegram.TokensOfPlain | lib/telegram.ts:221-233 | plain words after a digit split back into those words |
| Telegram.DropKeywordOf | lib/telegram.ts:227-229 | a keyword and one space are dropped, and the text counts as a repayment |
| Telegram.TokensAfterKeyword | lib/telegram.ts:221-233 | after `received`/`got`/`returned` the tokens are the words that follow |
| Telegram.LendingOfWords | lib/telegram.ts:220-262 | `amount name due…` parses to that amount, the capitalised name, the due text and its date, no repayment |
| Telegram.RepaymentOfWords | lib/telegram.ts:220-262 | the same after a repayment keyword parses the same, with the repayment flag set |
| Telegram.LendingOfNumberAndName | lib/telegram.ts:220-262 | `500 john` is a lending of 500 to John without a due date |
| Telegram.LendingWithDueWord | lib/telegram.ts:247-253 | a third word is the raw due text, kept even when it is no date |
| Telegram.LendingDueOnDayMonth | lib/telegram.ts:250-340 | `500 john 15jan` is due on 15 January, rolled forward as needed |
| Telegram.OneWordIsNoLending | lib/telegram.ts:235-237 | a message of one word is never a lending |
| Telegram.TransactionDraftOf | lib/telegram.ts:381-391 | the amount, the ledger, payment mode Cash, person = name; cash_in/Repayment/"Received from X" for repayments, cash_out/Lending/"Lent to X" otherwise |
| Telegram.LendingRecordOf | lib/telegram.ts:398-409 | a record only for non-repayments: pending, original = remaining = amount, the name, due date and raw due text |
| TelegramWebhook.Route | app/api/telegram/webhook/route.ts:41-129 | no reply iff no text or empty text; every trimmed text starting with `/start` is a start command (link with the second part when there is a space, else welcome back or instructions); help and status iff exact; unlinked chats get the link prompt; linked chats get the hint iff no parse, otherwise a lending from the parse |
| TelegramWebhook.Webhook | app/api/telegram/webhook/route.ts:36-129 | the POST handler: the trimmed text routed with the parse of that text; specified by Route, UnlinkedNeverCreates and CreatedFromParse |
| TelegramWebhook.CommandsDiffer | app/api/telegram/webhook/route.ts:51-87 | `/help` and `/status` are not start commands |
| TelegramWebhook.UnlinkedNeverCreates | app/api/telegram/webhook/route.ts:104-111 | an unlinked chat never creates a lending and never gets the format hint |
| TelegramWebhook.CreatedFromParse | app/api/telegram/webhook/route.ts:114-129 | unparsable text gets the hint; a created lending has an amount above zero and the keyword's repayment flag |
| TelegramWebhook.SplitStart | app/api/telegram/webhook/route.ts:52 | `/start CODE` splits into the command and the code |
| TelegramWebhook.StartWithCode | app/api/telegram/webhook/route.ts:51-57 | `/start CODE` tries to link with exactly that code, linked or not |
| TelegramWebhook.StartRoute | app/api/telegram/webhook/route.ts:51-57 | a trimmed start command with a space links with the part after the first space |
| TelegramWebhook.StartEdgeCases | app/api/telegram/webhook/route.ts:47-76 | `/start` followed by white space is the bare command; `/start` with two spaces before the code links with an empty code |
| TelegramWebhook.HelpOnlyExact | app/api/telegram/webhook/route.ts:81-111 | `/help me` is not help, and goes to the link prompt when unlinked |
| LendingsDashboard.MaxCreated | components/LendingsDashboard.tsx:153-172 | the latest creation time in the group, attained by one of its transactions |
| LendingsDashboard.Extend | components/LendingsDashboard.tsx:157-172 | one transaction appends itself and moves the balance by ± its amount, totalLent or totalReceived by its amount, and the last date to at least its own |
| LendingsDashboard.FoldMapIsSummary | components/LendingsDashboard.tsx:143-173 | the map after the forEach holds exactly the people met, each with the summary of their group |
| LendingsDashboard.FoldBalances | components/LendingsDashboard.tsx:141-173 | the loop's map is keyed by the people met, each entry the summary of that person's transactions |
| LendingsDashboard.SortHistories | components/LendingsDashboard.tsx:176-180 | each entry's transactions sorted newest first, in key order |
| LendingsDashboard.Apply | components/LendingsDashboard.tsx:157-172 | the field updates of one transaction are its `Extend` |
| LendingsDashboard.PersonBalances | components/LendingsDashboard.tsx:140-185 | `personBalances` equals the specification: finished entries in first-appearance order, sorted by absolute balance |
| LendingsDashboard.PersonBalancesOf | components/LendingsDashboard.tsx:140-185 | the specification of `personBalances`; characterised by EntryFacts, OrderedByBalance, EveryPersonListed, NamesDistinct and BalancesTotal |
| LendingsDashboard.EntryFacts | components/LendingsDashboard.tsx:143-180 | each entry's group is non-empty; totalLent = Σ cash_out, totalReceived = Σ cash_in, balance = their difference; history is a newest-first permutation of the group; last date = the group's maximum |
| LendingsDashboard.OrderedByBalance | components/LendingsDashboard.tsx:182-184 | the people come by non-increasing absolute balance |
| LendingsDashboard.EveryPersonListed | components/LendingsDashboard.tsx:143-157 | every transaction's person (or Unknown) has an entry |
| LendingsDashboard.NamesDistinct | components/LendingsDashboard.tsx:146-155 | no person has two entries |
| LendingsDashboard.BalancesTotal | components/LendingsDashboard.tsx:161-167 | the balances add up to total cash_out minus total cash_in |
| LendingsDashboard.ExistingPeople | components/LendingsDashboard.tsx:131-137 | sorted, duplicate-free, and holds exactly the non-empty person fields |
| LendingsDashboard.FilteredPeople | components/LendingsDashboard.tsx:188-190 | `filteredPeople`; specified by SearchKeeps and EmptySearch |
| LendingsDashboard.SearchKeeps | components/LendingsDashboard.tsx:188-190 | a person is kept iff the lower-cased name contains the lower-cased query; kept people keep their order |
| LendingsDashboard.EmptySearch | components/LendingsDashboard.tsx:188-190 | the empty query keeps everyone |
| LendingsDashboard.TheyOweYou | components/LendingsDashboard.tsx:193 | `theyOweYou`; specified by Partition |
| LendingsDashboard.YouOweThem | components/LendingsDashboard.tsx:194 | `youOweThem`; specified by Partition |
| LendingsDashboard.IsSettled | components/LendingsDashboard.tsx:195 | the `settled` filter condition; specified by Partition |
| LendingsDashboard.Settled | components/LendingsDashboard.tsx:195 | `settled`; specified by Partition |
| LendingsDashboard.Partition | components/LendingsDashboard.tsx:193-195 | every searched person is in exactly one of owes-you (> 0), you-owe (< 0), settled (= 0), and the lists hold only searched people |
| LendingsDashboard.TotalOwedToYou | components/LendingsDashboard.tsx:197 | `totalOwedToYou`; specified by Totals and NetOfAll |
| LendingsDashboard.TotalYouOwe | components/LendingsDashboard.tsx:198 | `totalYouOwe`; specified by Totals and NetOfAll |
| LendingsDashboard.Totals | components/LendingsDashboard.tsx:197-198 | both totals are non-negative; you-owe is minus the sum of negative balances; their difference is the sum of all balances |
| LendingsDashboard.NetOfAll | components/LendingsDashboard.tsx:161-198 | with no search, owed-to-you minus you-owe is everything lent minus everything received |
| Grouping.ExactlyOneGroup | components/LendingsDashboard.tsx:143-157 | every element lands in the group of its key and in no other |
| Grouping.GroupSizesTotal | components/LendingsDashboard.tsx:143-157 | the group sizes add up to the input length |
| Grouping.GroupSumsTotal | components/SummaryCharts.tsx:38-43 | the per-key sums add up to the sum over the whole input |
| AddLendingDialog.InitialIntent | components/AddLendingDialog.tsx:51-58 | the starting intent is lent for gave and received for got, and is offered for that direction |
| AddLendingDialog.OfferedIntents | components/AddLendingDialog.tsx:160-206 | gave offers lent and repaid only, got offers received and borrowed only; no intent is offered to both |
| AddLendingDialog.TypeOfDirection | components/AddLendingDialog.tsx:60-82 | cash_out iff the direction is gave |
| AddLendingDialog.CategoryOf | components/AddLendingDialog.tsx:97-102 | one of Lending/Repayment/Borrowing, Repayment exactly for repaid and received |
| AddLendingDialog.TitleDefault | components/AddLendingDialog.tsx:90-95 | the default title ends with the person's name |
| AddLendingDialog.TitleDefaultInjective | components/AddLendingDialog.tsx:90-95 | the default title determines both intent and person |
| AddLendingDialog.Title | components/AddLendingDialog.tsx:108 | never empty; the trimmed note when it is non-empty, the default title otherwise |
| AddLendingDialog.IsValid | components/AddLendingDialog.tsx:132 | `isValid`; specified by DraftOf (a draft iff valid) and NoPeopleCannotSubmit |
| AddLendingDialog.PersonNameAsWritten | components/AddLendingDialog.tsx:76 | the name as written, the first half of the second Findings row; specified by PersonName (agreement whenever people exist), NoPeopleCannotSubmit and NoPeopleExample |
| AddLendingDialog.PersonName | components/AddLendingDialog.tsx:76-259 | the trimmed new name when the new-name field is the one shown, the selected name otherwise; agrees with the code whenever people exist |
| AddLendingDialog.DraftOf | components/AddLendingDialog.tsx:72-112 | a draft iff the amount parses above zero and the person is non-empty; then the amount, Cash, the ledger, the person, cash_out iff gave, the intent's category and the title |
| AddLendingDialog.IntentKeepsType | components/AddLendingDialog.tsx:82 | the intent never changes the type written |
| AddLendingDialog.NoPeopleCannotSubmit | components/AddLendingDialog.tsx:76-259 | with no people the code's name is empty and nothing is sent; the corrected name sends the draft |
| AddLendingDialog.NoPeopleExample | components/AddLendingDialog.tsx:76-259 | `500` and the typed name John: nothing as written, a draft once corrected |
| AddLendingDialog.AddLendingForm.constructor | components/AddLendingDialog.tsx:44-53 | empty fields and the direction's starting intent |
| AddLendingDialog.AddLendingForm.SetDirection | components/AddLendingDialog.tsx:56-58 | a changed direction resets the intent to its starting intent; the same direction again keeps the intent; the fields are kept |
| AddLendingDialog.AddLendingForm.SetIntent | components/AddLendingDialog.tsx:164-197 | only an offered intent can be chosen; nothing else changes |
| AddLendingDialog.AddLendingForm.SetAmount | components/AddLendingDialog.tsx:218 | sets the amount text only |
| AddLendingDialog.AddLendingForm.SetNewPerson | components/AddLendingDialog.tsx:264 | sets the new-person text only |
| AddLendingDialog.AddLendingForm.SetNote | components/AddLendingDialog.tsx:288 | sets the note only |
| AddLendingDialog.AddLendingForm.SelectPerson | components/AddLendingDialog.tsx:229-235 | picks one of the existing people |
| AddLendingDialog.AddLendingForm.ChooseNewPerson | components/AddLendingDialog.tsx:247-249 | shows the new-person field and clears the selection |
| AddLendingDialog.AddLendingForm.ChooseExistingPerson | components/AddLendingDialog.tsx:266-271 | back to the list, clearing the typed name |
| AddLendingDialog.AddLendingForm.Submit | components/AddLendingDialog.tsx:72-121 | built on the corrected `PersonName`: emits exactly `DraftOf` the old fields; clears the form after emitting; an invalid form changes nothing |
| AddLendingDialog.AddLendingForm.Close | components/AddLendingDialog.tsx:123-130 | clears amount, person, new person, note and new-person mode; keeps intent and direction |
| EditLendingDialog.InferIntent | components/EditLendingDialog.tsx:73-78 | cash_out gives repaid iff the lower-cased category contains "repay", else lent; cash_in gives borrowed iff it contains "borrow", else received |
| EditLendingDialog.TypeOfIntent | components/EditLendingDialog.tsx:105 | cash_out iff the intent is lent or repaid |
| EditLendingDialog.InferAfterWrite | components/EditLendingDialog.tsx:73-119 | reading back the type and category written for an intent gives that intent |
| EditLendingDialog.WriteAfterInfer | components/EditLendingDialog.tsx:73-105 | writing the inferred intent back keeps the stored type |
| EditLendingDialog.AddThenInfer | components/AddLendingDialog.tsx:82-102 | the edit dialog writes the add dialog's type and reads its transactions back as their intent |
| EditLendingDialog.ChatDraftIntent | lib/telegram.ts:381-391 | a chat lending opens as lent, a chat repayment as received |
| EditLendingDialog.EditUpdate | components/EditLendingDialog.tsx:94-127 | an update iff the amount parses above zero and the person is non-empty; then type, amount, title, category and person, and never id, date, ledger or payment mode |
| EditLendingDialog.NoPeopleCannotSave | components/EditLendingDialog.tsx:99-100 | with no people the code's name is the empty selection and nothing is saved; the corrected name saves the trimmed typed name |
| EditLendingDialog.UntouchedSaveKeepsRow | components/EditLendingDialog.tsx:66-127 | opening and saving untouched writes back the same row (trimmed title, canonical category, amount text that reads back) |
| EditLendingDialog.UntouchedNoteTitle | components/EditLendingDialog.tsx:70-124 | an untouched note keeps the trimmed old title; an empty one gives the default title |
| EditLendingDialog.EditLendingForm.constructor | components/EditLendingDialog.tsx:55-60 | empty fields, intent lent, no transaction |
| EditLendingDialog.EditLendingForm.Load | components/EditLendingDialog.tsx:66-80 | amount text, person or "", title as note, inferred intent |
| EditLendingDialog.EditLendingForm.SetIntent | components/EditLendingDialog.tsx:82-92 | only the intent changes |
| EditLendingDialog.EditLendingForm.SetAmount | components/EditLendingDialog.tsx:218 | only the amount text changes |
| EditLendingDialog.EditLendingForm.SelectPerson | components/EditLendingDialog.tsx:228-234 | with the chips shown, picking a listed person sets the person and nothing else |
| EditLendingDialog.EditLendingForm.ChooseNewPerson | components/EditLendingDialog.tsx:244-249 | with people listed, `New` shows the name field and clears the person; nothing else changes |
| EditLendingDialog.EditLendingForm.SetNewPerson | components/EditLendingDialog.tsx:263 | only the typed name changes |
| EditLendingDialog.EditLendingForm.ChooseExistingPerson | components/EditLendingDialog.tsx:266-271 | with the name field shown and people listed, going back hides it and clears the typed name; nothing else changes |
| EditLendingDialog.EditLendingForm.SetNote | components/EditLendingDialog.tsx:287 | only the note changes |
| EditLendingDialog.EditLendingForm.Submit | components/EditLendingDialog.tsx:94-134 | built on the corrected `PersonName`: nothing without a transaction or with an invalid form; otherwise exactly the store's update of that row, and the form is cleared iff a row comes back |
| EditLendingDialog.EditLendingForm.Close | components/EditLendingDialog.tsx:149-156 | clears five fields and leaves the intent unchanged |
| SummaryCharts.ExpensesAndIncome | components/SummaryCharts.tsx:32-35 | expenses and income split the transactions, and their totals add up to the sum of all amounts |
| SummaryCharts.TotalsMapIsTotal | components/SummaryCharts.tsx:39-42 | the accumulated record holds exactly the keys met, each with its group's sum |
| SummaryCharts.GroupTotals | components/SummaryCharts.tsx:39-42 | the loop's key order is first appearance and each value is the group's sum |
| SummaryCharts.ChartOf | components/SummaryCharts.tsx:38-50 | the method computes the chart specification |
| SummaryCharts.ChartSum | components/SummaryCharts.tsx:43-49 | a chart's values add up to the total of its source transactions |
| SummaryCharts.CategoryData | components/SummaryCharts.tsx:38-50 | `categoryData`: the chart of expenses by category; specified by ChartOf, ChartSum, CategoryTotals, ChartOrdered and ChartEntryFacts |
| SummaryCharts.PersonData | components/SummaryCharts.tsx:53-66 | `personData`: the chart of all money by person or Unknown; specified by ChartOf, ChartSum, AllMoneyTotals, ChartOrdered and ChartEntryFacts |
| SummaryCharts.PaymentModeData | components/SummaryCharts.tsx:69-82 | `paymentModeData`: the chart of all money by payment mode or Unknown; specified by ChartOf, ChartSum, AllMoneyTotals, ChartOrdered and ChartEntryFacts |
| SummaryCharts.IncomeCategoryData | components/SummaryCharts.tsx:85-97 | `incomeCategoryData`: the chart of income by category; specified by ChartOf, ChartSum, CategoryTotals, ChartOrdered and ChartEntryFacts |
| SummaryCharts.CategoryTotals | components/SummaryCharts.tsx:32-97 | categoryData sums to totalExpenses and incomeCategoryData to totalIncome |
| SummaryCharts.AllMoneyTotals | components/SummaryCharts.tsx:52-82 | personData and paymentModeData sum to all money in and out |
| SummaryCharts.ChartOrdered | components/SummaryCharts.tsx:49-96 | charts are sorted by non-increasing value |
| SummaryCharts.ChartEntryFacts | components/SummaryCharts.tsx:43-48 | each entry's value is its group's sum, the group is non-empty, and the fill is `CHART_COLORS[i mod 10]` for the key's first-appearance position i |
| SummaryCharts.EveryKeyCharted | components/SummaryCharts.tsx:40-58 | every transaction's key has an entry |
| SummaryCharts.ChartNamesDistinct | components/SummaryCharts.tsx:43-48 | no key has two entries |
| LedgerDashboard.TotalIn | components/LedgerDashboard.tsx:66-68 | `totalIn`; specified by TotalsBySide, TotalsCoverAll and AddMovesTotals |
| LedgerDashboard.TotalOut | components/LedgerDashboard.tsx:70-72 | `totalOut`; specified by TotalsBySide, TotalsCoverAll and AddMovesTotals |
| LedgerDashboard.NetBalance | components/LedgerDashboard.tsx:74 | `balance`; specified by TotalsCoverAll |
| LedgerDashboard.FilteredTransactions | components/LedgerDashboard.tsx:76-79 | `filteredTransactions`; specified by SearchKeeps and EmptyQuery |
| LedgerDashboard.TotalsBySide | components/LedgerDashboard.tsx:66-72 | totalIn is Σ cash_in amounts and totalOut Σ cash_out amounts |
| LedgerDashboard.TotalsCoverAll | components/LedgerDashboard.tsx:66-74 | totalIn + totalOut is the sum of all amounts, and the balance is in minus out |
| LedgerDashboard.SearchKeeps | components/LedgerDashboard.tsx:76-79 | kept iff title or category contains the query ignoring case; order-preserving subsequence |
| LedgerDashboard.EmptyQuery | components/LedgerDashboard.tsx:76-79 | the empty query keeps everything |
| LedgerDashboard.AfterAdd | components/LedgerDashboard.tsx:54-59 | the created transaction goes first and the rest is unchanged; nothing changes without one |
| LedgerDashboard.AddMovesTotals | components/LedgerDashboard.tsx:57-72 | adding moves exactly one total, by the new amount |
| ExportPdf.Abs | lib/export-pdf.ts:50 | `Math.abs`: non-negative, ± the input |
| ExportPdf.RoundHalfUp | lib/export-pdf.ts:50 | `toFixed(0)` on a non-negative number: the nearest natural, halves up |
| ExportPdf.FormatAmount | lib/export-pdf.ts:49-51 | `formatAmount`; specified by FormatIgnoresSign, FormatShape, FormatWhole and CommasAreGroups |
| ExportPdf.FormatIgnoresSign | lib/export-pdf.ts:49-51 | formatAmount(−x) = formatAmount(x) |
| ExportPdf.FormatShape | lib/export-pdf.ts:50 | the output is the digit groups joined by commas; the leading group has 1–3 digits and every other group 3; it starts and ends with a digit; removing the commas gives the rounded number's digits |
| ExportPdf.FormatWhole | lib/export-pdf.ts:50 | for a natural n, removing the commas from formatAmount(±n) gives n's digits |
| ExportPdf.CommasAreGroups | lib/export-pdf.ts:50 | the comma regex equals joining groups of three counted from the right |
| ExportPdf.SummaryCards | lib/export-pdf.ts:53-84 | the balance, cash-in and cash-out cards with the balance colour; specified by BalanceCard |
| ExportPdf.BalanceCard | lib/export-pdf.ts:17-62 | the balance card shows the digits of \|in − out\|, green iff in ≥ out |
| ExportPdf.TableRows | lib/export-pdf.ts:88-93 | one row per transaction, in input order |
| ExportPdf.AmountCell | lib/export-pdf.ts:92 | the signed amount cell of a row; specified by RowAmount |
| ExportPdf.CellColour | lib/export-pdf.ts:121-130 | `didParseCell`: the colour of an amount cell by its first character; specified by RowAmount |
| ExportPdf.RowAmount | lib/export-pdf.ts:92-128 | the amount cell is "+" or "-" by type followed by formatAmount, green for cash_in and red for cash_out |
| ExportPdf.Sanitize | lib/export-pdf.ts:151 | `replace(/[^a-z0-9]/gi, '_')` of the ledger name; specified by SanitizeFacts and SanitizeIdempotent |
| ExportPdf.Filename | lib/export-pdf.ts:151 | the file name; specified by FilenameStem |
| ExportPdf.SanitizeFacts | lib/export-pdf.ts:151 | same length; letters and digits kept, everything else becomes `_` |
| ExportPdf.SanitizeIdempotent | lib/export-pdf.ts:151 | sanitising twice is sanitising once |
| ExportPdf.FilenameStem | lib/export-pdf.ts:151 | the file name is the sanitised name, `_`, the date stamp and `.pdf` |
| Store.MergeTransaction | lib/store.ts:189-198 | id, ledger and date from the existing row; each other field from the update unless absent, so "" and 0 still overwrite |
| Store.MergeLedger | lib/store.ts:84-91 | id, user and date kept; name, categories and payment modes merged by `??` |
| Store.MergeNothing | lib/store.ts:84-198 | an empty update returns the existing record |
| Store.MergeIdempotent | lib/store.ts:84-198 | merging the same update twice is merging it once |
| Store.MergeCompose | lib/store.ts:189-198 | two merges in a row are one merge of the combined update |
| Store.MergeCannotClear | lib/store.ts:191-198 | an update cannot clear a payment mode or person, nor move a row to another ledger |
| Store.WithoutLedger | lib/store.ts:51-54 | the transactions table after the cascade delete; specified by WithoutLedgerRows and CascadeKeepsIntegrity |
| Store.WithoutLedgerRows | lib/store.ts:51-54 | the cascade removes exactly the ledger's transactions and keeps the rest unchanged |
| Store.CascadeKeepsIntegrity | lib/store.ts:49-71 | deleting transactions first, then the ledger, leaves no transaction without its ledger |
| Store.LedgerFirstOrphans | lib/store.ts:49-71 | deleting the ledger first would orphan its transactions |
| Store.Tables.UpdateTransaction | lib/store.ts:175-208 | a missing row or a failed upsert gives null and no write; otherwise the merged row is written and returned |
| Store.Tables.UpdateLedger | lib/store.ts:73-100 | the same for ledgers |
| Store.Tables.DeleteLedger | lib/store.ts:49-71 | true iff both deletions succeed; a failed transaction delete changes nothing; the ledger goes only after its transactions |
| AddLedgerDialog.ToggleFacts | components/AddLedgerDialog.tsx:49-55 | toggling a present item removes every copy and keeps the rest in order; an absent one is appended |
| AddLedgerDialog.ToggleTwiceFromAbsent | components/AddLedgerDialog.tsx:49-55 | toggling an absent item twice restores the list |
| AddLedgerDialog.ToggleTwiceFromPresent | components/AddLedgerDialog.tsx:49-55 | toggling a present item twice moves it to the end |
| AddLedgerDialog.ToggleDistinct | components/AddLedgerDialog.tsx:49-63 | a duplicate-free list stays duplicate-free under toggling |
| AddLedgerDialog.AddNew | components/AddLedgerDialog.tsx:65-79 | appends the trimmed input iff it is non-empty and not yet listed |
| AddLedgerDialog.AddNewDistinct | components/AddLedgerDialog.tsx:65-79 | adding keeps a duplicate-free list duplicate-free |
| AddLedgerDialog.DefaultsDistinct | lib/supabase.ts:32-50 | the default categories and payment modes have no duplicates |
| AddLedgerDialog.LedgerForm.constructor | components/AddLedgerDialog.tsx:24-30 | the defaults and empty fields |
| AddLedgerDialog.LedgerForm.ResetForm | components/AddLedgerDialog.tsx:39-47 | back to the defaults with the other fields cleared |
| AddLedgerDialog.LedgerForm.SetName | components/AddLedgerDialog.tsx:95 | sets the name only |
| AddLedgerDialog.LedgerForm.SetNewCategory | components/AddLedgerDialog.tsx:136 | sets the new-category text only |
| AddLedgerDialog.LedgerForm.SetNewPaymentMode | components/AddLedgerDialog.tsx:199 | sets the new-payment-mode text only |
| AddLedgerDialog.LedgerForm.OpenAddCategory | components/AddLedgerDialog.tsx:154 | shows the new-category field |
| AddLedgerDialog.LedgerForm.OpenAddPaymentMode | components/AddLedgerDialog.tsx:217 | shows the new-payment-mode field |
| AddLedgerDialog.LedgerForm.ToggleCategory | components/AddLedgerDialog.tsx:49-55 | categories become their toggle, and stay duplicate-free |
| AddLedgerDialog.LedgerForm.TogglePaymentMode | components/AddLedgerDialog.tsx:57-63 | payment modes become their toggle, and stay duplicate-free |
| AddLedgerDialog.LedgerForm.AddNewCategory | components/AddLedgerDialog.tsx:65-71 | a new category is appended, the input cleared and the field hidden; otherwise nothing changes |
| AddLedgerDialog.LedgerForm.AddNewPaymentMode | components/AddLedgerDialog.tsx:73-79 | the same for payment modes |
| AddLedgerDialog.LedgerForm.Submit | components/AddLedgerDialog.tsx:32-37 | a blank name does nothing; otherwise it emits the trimmed name and both lists, then resets |
| CategoryIcons.FirstFrom | lib/category-icons.ts:91-95 | the first position from `from` whose key matches, or the end |
| CategoryIcons.ExactIn | lib/category-icons.ts:85-87 | none iff no key equals the category |
| CategoryIcons.GetIconIn | lib/category-icons.ts:83-99 | the loop computes the lookup specification |
| CategoryIcons.GetCategoryIcon | lib/category-icons.ts:83-99 | `getCategoryIcon` over the table |
| CategoryIcons.ExactMatch | lib/category-icons.ts:85-87 | a key gives its own icon |
| CategoryIcons.CaseInsensitiveMatch | lib/category-icons.ts:90-95 | without an exact key, the first key equal ignoring case gives the icon |
| CategoryIcons.NoMatch | lib/category-icons.ts:80-98 | with no match, the default Sparkles icon |
| CategoryIcons.TableWellFormed | lib/category-icons.ts:17-77 | every key is capitalised and no entry has the default icon |
| CategoryIcons.IconIgnoresCase | lib/category-icons.ts:17-99 | getCategoryIcon(c) = getCategoryIcon(lower(c)) |
| CategoryIcons.IsPredefinedCategory | lib/category-icons.ts:102-105 | `isPredefinedCategory`; specified by PredefinedIffIcon and ConstructorCategory |
| CategoryIcons.PredefinedIffIcon | lib/category-icons.ts:80-105 | predefined iff some key equals c ignoring case, iff the icon is not the default |
| CategoryIcons.GetCategoryIconAsWritten | lib/category-icons.ts:85-87 | as written, a prototype member name finds an inherited member instead of an icon |
| CategoryIcons.ConstructorCategory | lib/category-icons.ts:85-105 | `constructor` finds an inherited member as written, is not predefined, and gets the default icon when corrected |
| TelegramLinkCard.PadStart2 | components/TelegramLinkCard.tsx:113 | `padStart(2, '0')`: two characters ending in the input, or the input when longer |
| TelegramLinkCard.FormatTime | components/TelegramLinkCard.tsx:110-114 | `formatTime`; specified by FormatTimeReadBack, FormatSmall and FormatTimeExamples |
| TelegramLinkCard.FormatTimeReadBack | components/TelegramLinkCard.tsx:110-114 | the output reads back as minutes and two-digit seconds, with seconds in 0..59 and mins·60 + secs = s |
| TelegramLinkCard.FormatSmall | components/TelegramLinkCard.tsx:110-114 | m minutes and fewer than ten seconds render as `m:0s` |
| TelegramLinkCard.FormatTimeExamples | components/TelegramLinkCard.tsx:110-114 | 300 s is `5:00` and 65 s is `1:05` |
| TelegramLinkCard.Tick | components/TelegramLinkCard.tsx:38-44 | at one second or less the counter goes to 0 and the code is cleared; otherwise one less |
| TelegramLinkCard.RunCountsDown | components/TelegramLinkCard.tsx:36-44 | n ticks before the end take n seconds off and keep the code |
| TelegramLinkCard.RunExpires | components/TelegramLinkCard.tsx:36-44 | after as many ticks as seconds the counter is 0 and the code is gone |
| TelegramLinkCard.RunSplit | components/TelegramLinkCard.tsx:35-48 | ticking a then b times is ticking a + b times |
| TelegramLinkCard.RunNeverNegative | components/TelegramLinkCard.tsx:36-44 | the counter never goes negative, and reaching 0 clears the code |
| TelegramLinkCard.LinkCard.constructor | components/TelegramLinkCard.tsx:20-25 | unlinked, no code, counter 0 |
| TelegramLinkCard.LinkCard.TickSecond | components/TelegramLinkCard.tsx:36-44 | ticks only while the timer runs; the new counter and code are `Tick` of the old |
| TelegramLinkCard.LinkCard.FetchLinkStatus | components/TelegramLinkCard.tsx:50-62 | the link status is replaced only on a successful response |
| TelegramLinkCard.LinkCard.GenerateLinkCode | components/TelegramLinkCard.tsx:64-81 | on success the code and its expiry are set |
| TelegramLinkCard.LinkCard.UnlinkAccount | components/TelegramLinkCard.tsx:83-100 | confirmed and successful: unlinked and no code; otherwise nothing changes |
| TelegramLinkCard.LinkCard.CopyCode | components/TelegramLinkCard.tsx:102-108 | copies `/start ` + the code and marks it copied, only when a non-empty code is present |
| TelegramLinkCard.LinkCard.CopiedTimeout | components/TelegramLinkCard.tsx:106 | clears the copied mark only |
| TelegramLinkCard.CopiedCodeLinks | components/TelegramLinkCard.tsx:104 | the copied text, sent to the bot, is routed as a link attempt with that code |

## Left out

- All Supabase queries, the Telegram `sendTelegramMessage` fetch, and `fetch` in the link
  card. Their outcomes are parameters: `upsertOk`, `transactionsDeleteOk`,
  `ledgerDeleteOk`, `linked`, `ok`, `status`, `code`, `expiresIn`.
- The clock. `new Date()` in `parseDueDate` is the `now`/`today` parameter, and the date
  stamp of the PDF file name is a string parameter.
- The link-code and link-table operations of lib/telegram.ts:49-176 (random codes, expiry
  by wall-clock time) and `getOrCreateLendingsLedger` (183-200). These are remote-store
  calls.
- The inserts of `createLendingFromMessage` and its reply texts (`toLocaleString`,
  `toLocaleDateString`). Only the transaction and lending-record fields are modelled.
- `getHelpMessage` and every chat message text. The webhook's replies are the `Reply`
  constructors.
- The webhook's constant `{ ok: true }` response on every path, and its `catch`. Only I/O
  can throw there, and no I/O is modelled.
- The GET route of the webhook and app/api/telegram/link/route.ts: session plumbing.
- Floating point:
  - sums are exact;
  - a literal beyond the double range (such as `1e999`) is accepted as its exact real
    value, where JavaScript's `parseFloat` gives `Infinity`, which the amount rule also accepts;
  - `toFixed(0)` is rounding half up on exact reals.
- `toString` of a stored amount in `EditLendingForm.Load`: the amount text is a parameter.
- date-fns `format` of the table's date column: the row keeps the raw `created_at`.
- Object key order. `Object.values`/`Object.entries` are modelled in insertion order, but
  JavaScript lists integer-like keys first. A person or category named `"42"` would move
  to the front of the unsorted list and change the `CHART_COLORS` index.
- Prototype members in the `balanceMap` and `grouped` records (a person named `toString`):
  these records are modelled as own-property maps.
- The JSX rendering, recharts, the jsPDF drawing and page footers, confirm dialogs (a
  `confirmed` parameter), and the `loading`/`isSaving`/`isDeleting`/`actionLoading` flags.
- `handleDelete`, `deleteTransaction`, `createLedger`, `createTransaction` and every
  `get*` query.
- The `onClose`/`onAdd` callbacks: `Submit` returns what is passed to `onAdd`.
- React's asynchronous state batching: each handler is one atomic method.
- TelegramLinkCard.FormatTimeReadBack: seconds are naturals. Negative or fractional
  `expires_in` values are not modelled.
- Telegram.TodayRollsOver: stated only for a current year outside 0..99.
  `new Date(y, m, d)` maps the years 0..99 to 1900..1999, and `JsDate` models that
  mapping, so in those years the date lands a century later.
- Telegram.DayMonthForm: states only the day-month form. The month-day form (`jan 15`) is
  computed by the same `ResolveMonth` and covered by `CalendarNotEarlier`.
- Telegram.ParseLendingMessage: uses the corrected `ParseDueDate` (own month keys, no
  Invalid Date). The app's message-to-lending path can return an Invalid Date; that
  behaviour is `ParseDueDateAsWritten` (see Findings).
- AddLendingDialog.AddLendingForm.Submit: uses the corrected `PersonName`, which takes the
  typed name whenever the name field is visible. As written, the dialog with no existing
  people never submits; that is `PersonNameAsWritten` (see Findings).
- EditLendingDialog.EditLendingForm.Submit: uses the same corrected `PersonName`; the
  as-written edit dialog with no people never saves (`NoPeopleCannotSave`).
- Telegram.CapitalizeFirst: case mapping is ASCII only. JavaScript's full Unicode
  `toUpperCase`/`toLowerCase` can change the length (`ßa` becomes `SSa`) and maps
  non-ASCII letters (`émile` becomes `Émile`); the model leaves such characters as they are.
- ExportPdf.Sanitize and ExportPdf.Filename: the model works per character, the
  source per UTF-16 code unit, so a character outside the Basic Multilingual Plane (an
  emoji) gives one `_` here and `__` in the app.
- LendingsDashboard.ExistingPeople: sorted by character order. `Array.prototype.sort`
  compares UTF-16 code units, which differs for characters outside the Basic Multilingual
  Plane.
- The case-insensitive searches of the two dashboards, EditLendingDialog.InferIntent and
  the case-insensitive icon lookup of CategoryIcons.GetCategoryIcon: lower-casing is ASCII
  only, so they differ from the app on non-ASCII letters.
- Time zones and daylight saving time. The local calendar date plus milliseconds into the
  day is the time value, and `TimeClip` is applied to it. A `setDate` across a daylight
  saving gap, or a time zone offset near the ends of the range, is not modelled.
- `toFixed(0)` of an amount of 1e21 or more is exponent notation in JavaScript; the model
  always renders the plain digits.
- AddLendingDialog.AddLendingForm and EditLendingDialog.EditLendingForm: `existingPeople`
  is a constant fixed when the form is built. In the app it is a prop, rebuilt from the
  transactions on every render of the lendings dashboard; a change to the list while a dialog
  is open is not modelled.

## Findings

| source | as written | input that shows it | evidently intended | confidence | as-written member | corrected member |
|---|---|---|---|---|---|---|
| lib/telegram.ts:313-339 | `months[monthName] !== undefined` also finds `Object.prototype` members. `new Date(y, Object, d)` is then an Invalid Date, which is returned as the due date. Its `toISOString()` at lib/telegram.ts:404 throws after the transaction was created. | `500 john 15constructor` | only the listed month names are months; any other word gives no due date | not executed | Telegram.ParseDueDateAsWritten, Telegram.ConstructorMonth | Telegram.ParseDueDate |
| components/AddLendingDialog.tsx:76,132,259 | with no existing people, the new-name field is shown but `showNewPerson` stays false. The name is taken from the empty selection, so the dialog can never be submitted. The edit dialog has the same shape at components/EditLendingDialog.tsx:99-100,258 and uses the same two definitions. | no existing people, amount `500`, typed name `John` | the name typed in the visible field is used | not executed | AddLendingDialog.PersonNameAsWritten, AddLendingDialog.NoPeopleCannotSubmit, AddLendingDialog.NoPeopleExample, EditLendingDialog.NoPeopleCannotSave | AddLendingDialog.PersonName |
| lib/telegram.ts:304-310 | `dueDate.setDate(dueDate.getDate() + days)` has no bound on `days`. Past 8.64e15 ms from 1970 the result is an Invalid Date, which is returned as the due date. Its `toISOString()` at lib/telegram.ts:404 then throws after the transaction was inserted at lib/telegram.ts:381. | `500 john in 100000000 days`, sent after 1970 began | a date outside the Date range gives no due date | not executed | Telegram.ParseDueDateAsWritten, Telegram.InDaysPastRange, Telegram.HundredMillionDays | Telegram.ParseDueDate |
| lib/category-icons.ts:85-87 | `CATEGORY_ICONS[category]` finds inherited `Object.prototype` members and returns one of them (for example the `Object` function) as the icon component | category `constructor` | a category without an own key falls back to the case-insensitive search and then to Sparkles | not executed | CategoryIcons.GetCategoryIconAsWritten, CategoryIcons.ConstructorCategory | CategoryIcons.GetCategoryIcon |
