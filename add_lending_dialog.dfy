/**
 * The dialog that records money given to or received from a person in the lendings ledger:
 * the intents each direction offers, the validation of the form, and the transaction it
 * hands to the dashboard.
 */
module AddLendingDialog {
  import opened Wrappers
  import opened JsString
  import opened JsNumber
  import opened Supabase

  /** `MoneyDirection` */
  datatype Direction = Gave | Got

  /** `LendingIntent` */
  datatype Intent = Lent | Repaid | Received | Borrowed

  /** The two intents the toggle shows: lent and repaid for money given, received and borrowed for money got. */
  predicate Offered(d: Direction, i: Intent) {
    if d == Gave then i == Lent || i == Repaid else i == Received || i == Borrowed
  }

  /** The intent the dialog starts from, and resets to when the direction changes. */
  function InitialIntent(d: Direction): (i: Intent)
    ensures Offered(d, i)
    ensures i == Lent || i == Received
  {
    if d == Gave then Lent else Received
  }

  /** Each direction offers exactly two intents, and no intent is offered by both. */
  lemma OfferedIntents(d: Direction)
    ensures d == Gave ==> (forall i :: Offered(d, i) <==> i in {Lent, Repaid})
    ensures d == Got ==> (forall i :: Offered(d, i) <==> i in {Received, Borrowed})
    ensures forall i :: !(Offered(Gave, i) && Offered(Got, i))
  {
  }

  /** The transaction type: money given goes out, money got comes in, whatever the intent. */
  function TypeOfDirection(d: Direction): (t: TxType)
    ensures t == CashOut <==> d == Gave
  {
    if d == Gave then CashOut else CashIn
  }

  /** `categoryMap` */
  function CategoryOf(i: Intent): (c: string)
    ensures c in {"Lending", "Repayment", "Borrowing"}
    ensures c == "Repayment" <==> i == Repaid || i == Received
  {
    match i
    case Lent => "Lending"
    case Repaid => "Repayment"
    case Received => "Repayment"
    case Borrowed => "Borrowing"
  }

  /** The words in front of the person's name in `titleMap`. */
  function TitlePrefix(i: Intent): string {
    match i
    case Lent => "Lent to "
    case Repaid => "Repaid to "
    case Received => "Received from "
    case Borrowed => "Borrowed from "
  }

  /** `titleMap[intent]`: the intent's words followed by the person's name. */
  function TitleDefault(i: Intent, person: string): (title: string)
    ensures |title| > |person| && title[|title| - |person|..] == person
  {
    var t := TitlePrefix(i) + person;
    assert t[|t| - |person|..] == person;
    t
  }

  /** Different intents or different people never share a default title. */
  lemma TitleDefaultInjective(i: Intent, p: string, j: Intent, q: string)
    requires TitleDefault(i, p) == TitleDefault(j, q)
    ensures i == j && p == q
  {
    var a, b := TitlePrefix(i), TitlePrefix(j);
    var s := TitleDefault(i, p);
    assert s == a + p && s == b + q;
    assert a[..3] == s[..3] == b[..3];
    PrefixHeads(i, j);
    assert p == s[|a|..] == q;
  }

  /** The first three letters of the prefixes tell the intents apart. */
  lemma PrefixHeads(i: Intent, j: Intent)
    ensures |TitlePrefix(i)| >= 3 && |TitlePrefix(j)| >= 3
    ensures TitlePrefix(i)[..3] == TitlePrefix(j)[..3] ==> i == j
  {
    assert TitlePrefix(Lent)[..3] == "Len";
    assert TitlePrefix(Repaid)[..3] == "Rep";
    assert TitlePrefix(Received)[..3] == "Rec";
    assert TitlePrefix(Borrowed)[..3] == "Bor";
  }

  /** `note.trim() || titleMap[intent]` */
  function Title(note: string, i: Intent, person: string): (title: string)
    ensures title != []
    ensures Trim(note) != "" ==> title == Trim(note)
    ensures Trim(note) == "" ==> title == TitleDefault(i, person)
  {
    if Trim(note) != "" then Trim(note) else TitleDefault(i, person)
  }

  /** `isValid`: the Record button is enabled when `parseFloat(amount) > 0` and there is a person. */
  predicate IsValid(amountText: string, personName: string) {
    ParseFloat(amountText).Some? && ParseFloat(amountText).value > 0.0 && personName != ""
  }

  /** The person the dialog reads, as written: the trimmed new name only in new-person mode. */
  function PersonNameAsWritten(showNewPerson: bool, newPerson: string, person: string): (name: string) {
    if showNewPerson then Trim(newPerson) else person
  }

  /**
   * The person as evidently intended: the trimmed new name whenever the new-name field is
   * the one shown, which is in new-person mode and also when there is no existing person
   * to pick.
   */
  function PersonName(showNewPerson: bool, noPeople: bool, newPerson: string, person: string): (name: string)
    ensures showNewPerson || noPeople ==> name == Trim(newPerson)
    ensures !showNewPerson && !noPeople ==> name == person
    ensures !noPeople ==> name == PersonNameAsWritten(showNewPerson, newPerson, person)
  {
    if showNewPerson || noPeople then Trim(newPerson) else person
  }

  /**
   * `handleSubmit`'s transaction: none when the amount is NaN, zero or negative or the
   * person is empty; otherwise the direction's type, the intent's category, the note or
   * the default title, payment mode "Cash" and the current ledger.
   */
  function DraftOf(ledgerId: string, d: Direction, i: Intent, amountText: string, personName: string, note: string): (r: Option<TransactionDraft>)
    ensures r.Some? <==> IsValid(amountText, personName)
    ensures r.Some? ==> r.value.amount == ParseFloat(amountText).value && r.value.amount > 0.0
    ensures r.Some? ==> r.value.paymentMode == Some("Cash") && r.value.ledgerId == ledgerId
    ensures r.Some? ==> r.value.person == Some(personName) && personName != ""
    ensures r.Some? ==> (r.value.txType == CashOut <==> d == Gave)
    ensures r.Some? ==> r.value.category == CategoryOf(i) && r.value.title == Title(note, i, personName)
  {
    var amountNum := ParseFloat(amountText);
    if amountNum.None? || amountNum.value == 0.0 || amountNum.value <= 0.0 then None
    else if personName == "" then None
    else Some(TransactionDraft(Title(note, i, personName), amountNum.value, TypeOfDirection(d), CategoryOf(i), Some("Cash"), Some(personName), ledgerId))
  }

  /** The intent changes the category and the title but never the type. */
  lemma IntentKeepsType(ledgerId: string, d: Direction, i: Intent, j: Intent, amountText: string, personName: string, note: string)
    requires DraftOf(ledgerId, d, i, amountText, personName, note).Some?
    ensures DraftOf(ledgerId, d, j, amountText, personName, note).Some?
    ensures DraftOf(ledgerId, d, i, amountText, personName, note).value.txType ==
            DraftOf(ledgerId, d, j, amountText, personName, note).value.txType
  {
  }

  /**
   * With nobody to pick, the as-written dialog reads the empty `person` however the shown
   * field is filled in, so it never records anything; the intended rule records the lending.
   */
  lemma NoPeopleCannotSubmit(ledgerId: string, d: Direction, i: Intent, amountText: string, newPerson: string, note: string)
    requires ParseFloat(amountText).Some? && ParseFloat(amountText).value > 0.0 && Trim(newPerson) != ""
    ensures DraftOf(ledgerId, d, i, amountText, PersonNameAsWritten(false, newPerson, ""), note).None?
    ensures DraftOf(ledgerId, d, i, amountText, PersonName(false, true, newPerson, ""), note).Some?
  {
  }

  /** The same for the text "500" and the name "John". */
  lemma NoPeopleExample(ledgerId: string)
    ensures DraftOf(ledgerId, Gave, Lent, "500", PersonNameAsWritten(false, "John", ""), "").None?
    ensures DraftOf(ledgerId, Gave, Lent, "500", PersonName(false, true, "John", ""), "").Some?
    ensures PersonName(false, true, "John", "") == "John"
  {
    FiveHundred();
    TrimJohn();
    NoPeopleCannotSubmit(ledgerId, Gave, Lent, "500", "John", "");
  }

  lemma FiveHundred()
    ensures ParseFloat("500") == Some(500.0)
  {
    assert NatToString(500) == "500" by {
      assert NatToString(5) == "5";
      assert NatToString(50) == "50";
    }
    ParseFloatOfInteger(500);
  }

  lemma TrimJohn()
    ensures Trim("John") == "John"
  {
    assert TrimStart("John") == "John";
    assert TrimEnd("John") == "John";
  }

  /** The form of `AddLendingDialog`. */
  class AddLendingForm {
    var amount: string
    var person: string
    var newPerson: string
    var note: string
    var showNewPerson: bool
    var intent: Intent
    var direction: Direction
    const ledgerId: string
    const existingPeople: seq<string>

    /**
     * The intent is one the direction offers; with nobody to pick, no name is selected and
     * the "New" button that switches to new-person mode is not there.
     */
    ghost predicate Valid()
      reads this
    {
      Offered(direction, intent) &&
      (existingPeople == [] ==> person == "" && !showNewPerson)
    }

    /** The fields the dialog empties after recording and on closing. */
    ghost predicate Cleared()
      reads this
    {
      amount == "" && person == "" && newPerson == "" && note == "" && !showNewPerson
    }

    /** The transaction `handleSubmit` would hand over now. */
    ghost function Pending(): Option<TransactionDraft>
      reads this
    {
      DraftOf(ledgerId, direction, intent, amount, PersonName(showNewPerson, existingPeople == [], newPerson, person), note)
    }

    constructor (d: Direction, ledger: string, people: seq<string>)
      ensures Valid() && Cleared()
      ensures direction == d && intent == InitialIntent(d)
      ensures ledgerId == ledger && existingPeople == people
    {
      amount, person, newPerson, note, showNewPerson := "", "", "", "", false;
      direction := d;
      intent := InitialIntent(d);
      ledgerId := ledger;
      existingPeople := people;
    }

    /**
     * The direction prop as the dialog is opened. The effect on `direction` runs only when
     * the direction changes, so the same direction again keeps the intent.
     */
    method SetDirection(d: Direction)
      requires Valid()
      modifies this
      ensures Valid()
      ensures direction == d
      ensures intent == if d == old(direction) then old(intent) else InitialIntent(d)
      ensures amount == old(amount) && person == old(person) && newPerson == old(newPerson)
      ensures note == old(note) && showNewPerson == old(showNewPerson)
    {
      if d != direction {
        direction := d;
        intent := InitialIntent(d);
      }
    }

    /** A click on one of the two intent buttons. */
    method SetIntent(i: Intent)
      requires Valid() && Offered(direction, i)
      modifies this
      ensures Valid()
      ensures intent == i
      ensures amount == old(amount) && person == old(person) && newPerson == old(newPerson)
      ensures note == old(note) && showNewPerson == old(showNewPerson) && direction == old(direction)
    {
      intent := i;
    }

    method SetAmount(s: string)
      requires Valid()
      modifies this
      ensures Valid()
      ensures amount == s
      ensures person == old(person) && newPerson == old(newPerson) && note == old(note)
      ensures showNewPerson == old(showNewPerson) && intent == old(intent) && direction == old(direction)
    {
      amount := s;
    }

    method SetNewPerson(s: string)
      requires Valid()
      modifies this
      ensures Valid()
      ensures newPerson == s
      ensures amount == old(amount) && person == old(person) && note == old(note)
      ensures showNewPerson == old(showNewPerson) && intent == old(intent) && direction == old(direction)
    {
      newPerson := s;
    }

    method SetNote(s: string)
      requires Valid()
      modifies this
      ensures Valid()
      ensures note == s
      ensures amount == old(amount) && person == old(person) && newPerson == old(newPerson)
      ensures showNewPerson == old(showNewPerson) && intent == old(intent) && direction == old(direction)
    {
      note := s;
    }

    /** A click on one of the existing people. */
    method SelectPerson(p: string)
      requires Valid() && p in existingPeople && !showNewPerson
      modifies this
      ensures Valid()
      ensures person == p
      ensures amount == old(amount) && newPerson == old(newPerson) && note == old(note)
      ensures showNewPerson == old(showNewPerson) && intent == old(intent) && direction == old(direction)
    {
      person := p;
    }

    /** The "New" button, shown only when there are people to pick from. */
    method ChooseNewPerson()
      requires Valid() && existingPeople != [] && !showNewPerson
      modifies this
      ensures Valid()
      ensures showNewPerson && person == ""
      ensures amount == old(amount) && newPerson == old(newPerson) && note == old(note)
      ensures intent == old(intent) && direction == old(direction)
    {
      showNewPerson := true;
      person := "";
    }

    /** "Select existing person": back to the list, with the typed name dropped. */
    method ChooseExistingPerson()
      requires Valid() && existingPeople != [] && showNewPerson
      modifies this
      ensures Valid()
      ensures !showNewPerson && newPerson == ""
      ensures amount == old(amount) && person == old(person) && note == old(note)
      ensures intent == old(intent) && direction == old(direction)
    {
      showNewPerson := false;
      newPerson := "";
    }

    /**
     * `handleSubmit`: when the form is valid, the transaction is handed over and the fields
     * are emptied; otherwise nothing is handed over and nothing changes.
     */
    method Submit() returns (draft: Option<TransactionDraft>)
      requires Valid()
      modifies this
      ensures Valid()
      ensures draft == DraftOf(ledgerId, old(direction), old(intent), old(amount),
        PersonName(old(showNewPerson), existingPeople == [], old(newPerson), old(person)), old(note))
      ensures draft.Some? ==> Cleared() && intent == old(intent) && direction == old(direction)
      ensures draft.None? ==> unchanged(this)
    {
      var personName := PersonName(showNewPerson, existingPeople == [], newPerson, person);
      draft := DraftOf(ledgerId, direction, intent, amount, personName, note);
      if draft.Some? {
        Clear();
      }
    }

    /** `handleClose`: the fields are emptied, the intent and direction stay. */
    method Close()
      requires Valid()
      modifies this
      ensures Valid() && Cleared()
      ensures intent == old(intent) && direction == old(direction)
    {
      Clear();
    }

    /** The five resets `handleSubmit` and `handleClose` share. */
    method Clear()
      requires Valid()
      modifies this
      ensures Valid() && Cleared()
      ensures intent == old(intent) && direction == old(direction)
    {
      amount, person, newPerson, note, showNewPerson := "", "", "", "", false;
    }
  }
}
