/**
 * The dialog that edits a transaction of the lendings ledger: the intent read back from the
 * stored type and category, the update it sends to the store, and its reset on closing.
 */
module EditLendingDialog {
  import opened Wrappers
  import opened JsString
  import opened JsNumber
  import opened Supabase
  import opened Store
  import opened AddLendingDialog
  import Telegram

  /**
   * The intent of a stored transaction: for money out, repaid when the lower-cased category
   * contains "repay" and lent otherwise; for money in, borrowed when it contains "borrow"
   * and received otherwise.
   */
  function InferIntent(t: TxType, category: string): (i: Intent)
    ensures t == CashOut ==> (i == Lent || i == Repaid) && (i == Repaid <==> Includes(Lower(category), "repay"))
    ensures t == CashIn ==> (i == Received || i == Borrowed) && (i == Borrowed <==> Includes(Lower(category), "borrow"))
  {
    var c := Lower(category);
    if t == CashOut then (if Includes(c, "repay") then Repaid else Lent)
    else (if Includes(c, "borrow") then Borrowed else Received)
  }

  /** The type written for an intent: lent and repaid go out, received and borrowed come in. */
  function TypeOfIntent(i: Intent): (t: TxType)
    ensures t == CashOut <==> i == Lent || i == Repaid
  {
    if i == Lent || i == Repaid then CashOut else CashIn
  }

  /** Text none of whose characters is the first one of `sub` does not contain `sub`. */
  lemma NotIncludes(s: string, sub: string)
    requires sub != [] && forall k :: 0 <= k < |s| ==> s[k] != sub[0]
    ensures !Includes(s, sub)
  {
    forall i | 0 <= i <= |s| - |sub|
      ensures !OccursAt(s, sub, i)
    {
      assert s[i..i + |sub|][0] == s[i] != sub[0];
    }
  }

  lemma LendingCategory()
    ensures !Includes(Lower("Lending"), "repay")
  {
    assert Lower("Lending") == "lending";
    NotIncludes("lending", "repay");
  }

  lemma RepaymentCategory()
    ensures Includes(Lower("Repayment"), "repay")
    ensures !Includes(Lower("Repayment"), "borrow")
  {
    assert Lower("Repayment") == "repayment";
    assert OccursAt("repayment", "repay", 0);
    NotIncludes("repayment", "borrow");
  }

  lemma BorrowingCategory()
    ensures Includes(Lower("Borrowing"), "borrow")
  {
    assert Lower("Borrowing") == "borrowing";
    assert OccursAt("borrowing", "borrow", 0);
  }

  /** Reading back what the dialog writes for an intent gives that intent. */
  lemma InferAfterWrite(i: Intent)
    ensures InferIntent(TypeOfIntent(i), CategoryOf(i)) == i
  {
    match i
    case Lent => LendingCategory();
    case Repaid => RepaymentCategory();
    case Received => RepaymentCategory();
    case Borrowed => BorrowingCategory();
  }

  /** Writing back the inferred intent keeps the stored type, whatever the category says. */
  lemma WriteAfterInfer(t: TxType, category: string)
    ensures TypeOfIntent(InferIntent(t, category)) == t
  {
  }

  /**
   * The two dialogs agree: under an offered intent the edit dialog writes the type the add
   * dialog wrote, and reads the add dialog's transaction back as its intent.
   */
  lemma AddThenInfer(d: Direction, i: Intent)
    requires Offered(d, i)
    ensures TypeOfIntent(i) == TypeOfDirection(d)
    ensures InferIntent(TypeOfDirection(d), CategoryOf(i)) == i
  {
    InferAfterWrite(i);
  }

  /** A lending recorded from chat opens as lent, a repayment as received. */
  lemma ChatDraftIntent(p: Telegram.ParsedLending, ledgerId: string)
    ensures InferIntent(Telegram.TransactionDraftOf(p, ledgerId).txType, Telegram.TransactionDraftOf(p, ledgerId).category) ==
      if p.isRepayment then Received else Lent
  {
    if p.isRepayment {
      InferAfterWrite(Received);
    } else {
      InferAfterWrite(Lent);
    }
  }

  /**
   * The update `handleSubmit` sends: none when the amount is NaN, zero or negative or the
   * person is empty; otherwise the intent's type and category, the amount, the note or the
   * default title and the person. The payment mode is not part of it, so it is kept.
   */
  function EditUpdate(i: Intent, amountText: string, personName: string, note: string): (u: Option<TransactionUpdate>)
    ensures u.Some? <==> IsValid(amountText, personName)
    ensures u.Some? ==> u.value.id.None? && u.value.createdAt.None? && u.value.ledgerId.None? && u.value.paymentMode.None?
    ensures u.Some? ==> u.value.amount == Some(ParseFloat(amountText).value) && ParseFloat(amountText).value > 0.0
    ensures u.Some? ==> u.value.txType == Some(TypeOfIntent(i)) && u.value.category == Some(CategoryOf(i))
    ensures u.Some? ==> u.value.title == Some(Title(note, i, personName)) && u.value.person == Some(personName)
  {
    var amountNum := ParseFloat(amountText);
    if amountNum.None? || amountNum.value == 0.0 || amountNum.value <= 0.0 then None
    else if personName == "" then None
    else Some(TransactionUpdate(None, None, Some(Title(note, i, personName)), Some(amountNum.value),
      Some(TypeOfIntent(i)), Some(CategoryOf(i)), None, Some(personName), None))
  }

  /**
   * Opening a transaction and saving without touching anything writes it back unchanged,
   * when its title is already trimmed, its category the one its intent maps to, and its
   * amount's text reads back as the amount.
   */
  lemma UntouchedSaveKeepsRow(t: Transaction, amountText: string)
    requires ParseFloat(amountText) == Some(t.amount) && t.amount > 0.0
    requires t.person.Some? && t.person.value != ""
    requires t.title != "" && Trim(t.title) == t.title
    requires t.category == CategoryOf(InferIntent(t.txType, t.category))
    ensures EditUpdate(InferIntent(t.txType, t.category), amountText, t.person.value, t.title).Some?
    ensures MergeTransaction(t, EditUpdate(InferIntent(t.txType, t.category), amountText, t.person.value, t.title).value) == t
  {
    WriteAfterInfer(t.txType, t.category);
  }

  /** An untouched note keeps the stored title once trimmed; an empty one gives the default title. */
  lemma UntouchedNoteTitle(t: Transaction, i: Intent, amountText: string, personName: string)
    requires IsValid(amountText, personName)
    ensures Trim(t.title) != "" ==> EditUpdate(i, amountText, personName, t.title).value.title == Some(Trim(t.title))
    ensures Trim(t.title) == "" ==> EditUpdate(i, amountText, personName, t.title).value.title == Some(TitleDefault(i, personName))
  {
  }

  /**
   * With nobody to pick, the edit dialog also shows the new-name field while new-person mode
   * stays off. A transaction without a person loads an empty `person`, so as written the
   * dialog reads that empty name however the field is filled in and never saves; the
   * intended rule saves the trimmed typed name.
   */
  lemma NoPeopleCannotSave(i: Intent, amountText: string, newPerson: string, note: string)
    requires ParseFloat(amountText).Some? && ParseFloat(amountText).value > 0.0 && Trim(newPerson) != ""
    ensures EditUpdate(i, amountText, PersonNameAsWritten(false, newPerson, ""), note).None?
    ensures EditUpdate(i, amountText, PersonName(false, true, newPerson, ""), note).Some?
    ensures EditUpdate(i, amountText, PersonName(false, true, newPerson, ""), note).value.person == Some(Trim(newPerson))
  {
  }

  /** The form of `EditLendingDialog`. */
  class EditLendingForm {
    var amount: string
    var person: string
    var newPerson: string
    var note: string
    var showNewPerson: bool
    var intent: Intent
    var transaction: Option<Transaction>
    const existingPeople: seq<string>

    ghost predicate Cleared()
      reads this
    {
      amount == "" && person == "" && newPerson == "" && note == "" && !showNewPerson
    }

    constructor (people: seq<string>)
      ensures Cleared() && intent == Lent && transaction == None && existingPeople == people
    {
      amount, person, newPerson, note, showNewPerson := "", "", "", "", false;
      intent := Lent;
      transaction := None;
      existingPeople := people;
    }

    /**
     * The effect on `transaction`: the amount's text, the person (empty when missing), the
     * title as the note, and the inferred intent; `newPerson` and the new-person mode stay.
     */
    method Load(t: Transaction, amountText: string)
      modifies this
      ensures transaction == Some(t) && amount == amountText && person == t.person.GetOr("")
      ensures note == t.title && intent == InferIntent(t.txType, t.category)
      ensures newPerson == old(newPerson) && showNewPerson == old(showNewPerson)
    {
      transaction := Some(t);
      amount := amountText;
      person := t.person.GetOr("");
      note := t.title;
      intent := InferIntent(t.txType, t.category);
    }

    /** A click on one of the four intent buttons. */
    method SetIntent(i: Intent)
      modifies this
      ensures intent == i
      ensures amount == old(amount) && person == old(person) && newPerson == old(newPerson)
      ensures note == old(note) && showNewPerson == old(showNewPerson) && transaction == old(transaction)
    {
      intent := i;
    }

    method SetAmount(s: string)
      modifies this
      ensures amount == s
      ensures person == old(person) && newPerson == old(newPerson) && note == old(note)
      ensures showNewPerson == old(showNewPerson) && intent == old(intent) && transaction == old(transaction)
    {
      amount := s;
    }

    method SetNewPerson(s: string)
      modifies this
      ensures newPerson == s
      ensures amount == old(amount) && person == old(person) && note == old(note)
      ensures showNewPerson == old(showNewPerson) && intent == old(intent) && transaction == old(transaction)
    {
      newPerson := s;
    }

    method SetNote(s: string)
      modifies this
      ensures note == s
      ensures amount == old(amount) && person == old(person) && newPerson == old(newPerson)
      ensures showNewPerson == old(showNewPerson) && intent == old(intent) && transaction == old(transaction)
    {
      note := s;
    }

    /** A click on one of the existing people, listed while new-person mode is off. */
    method SelectPerson(p: string)
      requires p in existingPeople && !showNewPerson
      modifies this
      ensures person == p
      ensures amount == old(amount) && newPerson == old(newPerson) && note == old(note)
      ensures showNewPerson == old(showNewPerson) && intent == old(intent) && transaction == old(transaction)
    {
      person := p;
    }

    /** The "New" button, shown only when there are people to pick from. */
    method ChooseNewPerson()
      requires existingPeople != [] && !showNewPerson
      modifies this
      ensures showNewPerson && person == ""
      ensures amount == old(amount) && newPerson == old(newPerson) && note == old(note)
      ensures intent == old(intent) && transaction == old(transaction)
    {
      showNewPerson := true;
      person := "";
    }

    /** "Select existing person": back to the list, with the typed name dropped. */
    method ChooseExistingPerson()
      requires existingPeople != [] && showNewPerson
      modifies this
      ensures !showNewPerson && newPerson == ""
      ensures amount == old(amount) && person == old(person) && note == old(note)
      ensures intent == old(intent) && transaction == old(transaction)
    {
      showNewPerson := false;
      newPerson := "";
    }

    /** The person this form would save. */
    ghost function PersonNow(): string
      reads this
    {
      PersonName(showNewPerson, existingPeople == [], newPerson, person)
    }

    /**
     * `handleSubmit`: with no transaction, or an invalid form, nothing is sent and nothing
     * changes; otherwise the update goes to the store, and the form is emptied when the
     * store returns the updated row.
     */
    method Submit(tables: Tables, upsertOk: bool) returns (updated: Option<Transaction>)
      requires tables.Valid()
      modifies this, tables
      ensures tables.Valid()
      ensures old(transaction).None? || old(EditUpdate(intent, amount, PersonNow(), note)).None? ==>
        updated.None? && unchanged(this) && unchanged(tables)
      ensures old(transaction).Some? && old(EditUpdate(intent, amount, PersonNow(), note)).Some? ==>
        var id, u := old(transaction).value.id, old(EditUpdate(intent, amount, PersonNow(), note)).value;
        tables.ledgers == old(tables.ledgers) &&
        (id in old(tables.transactions) && upsertOk ==>
          updated == Some(MergeTransaction(old(tables.transactions)[id], u)) &&
          tables.transactions == old(tables.transactions)[id := updated.value]) &&
        (id !in old(tables.transactions) || !upsertOk ==>
          updated.None? && tables.transactions == old(tables.transactions))
      ensures updated.Some? ==> Cleared() && intent == old(intent) && transaction == old(transaction)
      ensures updated.None? ==> unchanged(this)
    {
      if transaction.None? {
        return None;
      }
      var personName := PersonName(showNewPerson, existingPeople == [], newPerson, person);
      var u := EditUpdate(intent, amount, personName, note);
      if u.None? {
        return None;
      }
      updated := tables.UpdateTransaction(transaction.value.id, u.value, upsertOk);
      if updated.Some? {
        Clear();
      }
    }

    /** `handleClose`: amount, person, new person, note and new-person mode are reset; the intent stays. */
    method Close()
      modifies this
      ensures Cleared()
      ensures intent == old(intent) && transaction == old(transaction)
    {
      Clear();
    }

    method Clear()
      modifies this
      ensures Cleared()
      ensures intent == old(intent) && transaction == old(transaction)
    {
      amount, person, newPerson, note, showNewPerson := "", "", "", "", false;
    }
  }
}
