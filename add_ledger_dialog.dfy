/**
 * The dialog that creates a ledger: its name, and the category and payment-mode lists the
 * user edits by toggling the offered entries and adding entries of their own.
 */
module AddLedgerDialog {
  import opened Wrappers
  import opened JsString
  import opened Seqs
  import opened Supabase

  /** `list.filter(c => c !== x)` */
  function Remove(s: seq<string>, x: string): seq<string> {
    Filter(s, (c: string) => c != x)
  }

  /** `toggleCategory` / `togglePaymentMode` on a list: drop a present entry, append an absent one. */
  function Toggle(s: seq<string>, x: string): seq<string> {
    if x in s then Remove(s, x) else s + [x]
  }

  /**
   * Toggling a present entry removes every occurrence of it, keeps every other entry, and
   * keeps their order; toggling an absent one appends it at the end.
   */
  lemma ToggleFacts(s: seq<string>, x: string) returns (idx: seq<int>)
    ensures x in s ==> x !in Toggle(s, x) && Embeds(Toggle(s, x), s, idx)
    ensures x in s ==> forall y :: y != x ==> (y in Toggle(s, x) <==> y in s)
    ensures x !in s ==> Toggle(s, x) == s + [x]
  {
    var p := (c: string) => c != x;
    FilterMembers(s, p);
    idx := FilterEmbeds(s, p);
  }

  /** Removing an absent entry changes nothing. */
  lemma RemoveAbsent(s: seq<string>, x: string)
    requires x !in s
    ensures Remove(s, x) == s
  {
    FilterAll(s, (c: string) => c != x);
  }

  /** Toggling an absent entry twice gives back the list. */
  lemma ToggleTwiceFromAbsent(s: seq<string>, x: string)
    requires x !in s
    ensures Toggle(Toggle(s, x), x) == s
  {
    var p := (c: string) => c != x;
    FilterAppend(s, [x], p);
    RemoveAbsent(s, x);
    assert Filter([x], p) == [];
  }

  /** Toggling a present entry twice moves it to the end. */
  lemma ToggleTwiceFromPresent(s: seq<string>, x: string)
    requires x in s
    ensures Toggle(Toggle(s, x), x) == Remove(s, x) + [x]
  {
    FilterMembers(s, (c: string) => c != x);
  }

  /** A filtered list without repetitions has none. */
  lemma {:induction false} FilterDistinct(s: seq<string>, p: string -> bool)
    requires Distinct(s)
    ensures Distinct(Filter(s, p))
  {
    if s != [] {
      var pre, last := s[..|s| - 1], s[|s| - 1];
      assert Distinct(pre);
      FilterDistinct(pre, p);
      FilterMembers(pre, p);
      assert last !in pre;
    }
  }

  /** Appending an absent entry keeps a list without repetitions. */
  lemma AppendDistinct(s: seq<string>, x: string)
    requires Distinct(s) && x !in s
    ensures Distinct(s + [x])
  {
  }

  /** Toggling keeps a list without repetitions. */
  lemma ToggleDistinct(s: seq<string>, x: string)
    requires Distinct(s)
    ensures Distinct(Toggle(s, x))
  {
    if x in s {
      FilterDistinct(s, (c: string) => c != x);
    } else {
      AppendDistinct(s, x);
    }
  }

  /**
   * `addNewCategory` / `addNewPaymentMode` on a list: the trimmed input is appended when it
   * is not blank and not already there; otherwise nothing happens.
   */
  function AddNew(s: seq<string>, input: string): (r: Option<seq<string>>)
    ensures r.Some? <==> Trim(input) != "" && Trim(input) !in s
    ensures r.Some? ==> r.value == s + [Trim(input)]
  {
    var entry := Trim(input);
    if entry != "" && entry !in s then Some(s + [entry]) else None
  }

  /** Adding keeps a list without repetitions. */
  lemma AddNewDistinct(s: seq<string>, input: string)
    requires Distinct(s) && AddNew(s, input).Some?
    ensures Distinct(AddNew(s, input).value)
  {
    AppendDistinct(s, Trim(input));
  }

  /** Neither default list has a repeated entry. */
  lemma DefaultsDistinct()
    ensures Distinct(DEFAULT_CATEGORIES) && Distinct(DEFAULT_PAYMENT_MODES)
  {
  }

  /** What `handleSubmit` hands to `onAdd`. */
  datatype NewLedger = NewLedger(name: string, categories: seq<string>, paymentModes: seq<string>)

  /** The form of `AddLedgerDialog`. */
  class LedgerForm {
    var name: string
    var categories: seq<string>
    var paymentModes: seq<string>
    var newCategory: string
    var newPaymentMode: string
    var showAddCategory: bool
    var showAddPaymentMode: bool

    /** Neither list ever holds an entry twice. */
    ghost predicate Valid()
      reads this
    {
      Distinct(categories) && Distinct(paymentModes)
    }

    /** The state `resetForm` restores, which is also the initial one. */
    ghost predicate Fresh()
      reads this
    {
      name == "" && categories == DEFAULT_CATEGORIES && paymentModes == DEFAULT_PAYMENT_MODES &&
      newCategory == "" && newPaymentMode == "" && !showAddCategory && !showAddPaymentMode
    }

    constructor ()
      ensures Valid() && Fresh()
    {
      name := "";
      categories := DEFAULT_CATEGORIES;
      paymentModes := DEFAULT_PAYMENT_MODES;
      newCategory, newPaymentMode := "", "";
      showAddCategory, showAddPaymentMode := false, false;
      DefaultsDistinct();
    }

    /** `resetForm`, also run when the dialog is dismissed. */
    method ResetForm()
      modifies this
      ensures Valid() && Fresh()
    {
      name := "";
      categories := DEFAULT_CATEGORIES;
      paymentModes := DEFAULT_PAYMENT_MODES;
      newCategory, newPaymentMode := "", "";
      showAddCategory, showAddPaymentMode := false, false;
      DefaultsDistinct();
    }

    method SetName(s: string)
      requires Valid()
      modifies this
      ensures Valid() && name == s
      ensures categories == old(categories) && paymentModes == old(paymentModes)
      ensures newCategory == old(newCategory) && newPaymentMode == old(newPaymentMode)
      ensures showAddCategory == old(showAddCategory) && showAddPaymentMode == old(showAddPaymentMode)
    {
      name := s;
    }

    /** Typing in the new-category field. */
    method SetNewCategory(s: string)
      requires Valid()
      modifies this
      ensures Valid() && newCategory == s
      ensures name == old(name) && categories == old(categories) && paymentModes == old(paymentModes)
      ensures newPaymentMode == old(newPaymentMode)
      ensures showAddCategory == old(showAddCategory) && showAddPaymentMode == old(showAddPaymentMode)
    {
      newCategory := s;
    }

    /** Typing in the new-payment-mode field. */
    method SetNewPaymentMode(s: string)
      requires Valid()
      modifies this
      ensures Valid() && newPaymentMode == s
      ensures name == old(name) && categories == old(categories) && paymentModes == old(paymentModes)
      ensures newCategory == old(newCategory)
      ensures showAddCategory == old(showAddCategory) && showAddPaymentMode == old(showAddPaymentMode)
    {
      newPaymentMode := s;
    }

    /** The "Add" pill that opens the new-category field. */
    method OpenAddCategory()
      requires Valid()
      modifies this
      ensures Valid() && showAddCategory
      ensures name == old(name) && categories == old(categories) && paymentModes == old(paymentModes)
      ensures newCategory == old(newCategory) && newPaymentMode == old(newPaymentMode)
      ensures showAddPaymentMode == old(showAddPaymentMode)
    {
      showAddCategory := true;
    }

    /** The "Add" pill that opens the new-payment-mode field. */
    method OpenAddPaymentMode()
      requires Valid()
      modifies this
      ensures Valid() && showAddPaymentMode
      ensures name == old(name) && categories == old(categories) && paymentModes == old(paymentModes)
      ensures newCategory == old(newCategory) && newPaymentMode == old(newPaymentMode)
      ensures showAddCategory == old(showAddCategory)
    {
      showAddPaymentMode := true;
    }

    /** `toggleCategory` */
    method ToggleCategory(c: string)
      requires Valid()
      modifies this
      ensures Valid()
      ensures categories == Toggle(old(categories), c)
      ensures name == old(name) && paymentModes == old(paymentModes)
      ensures newCategory == old(newCategory) && newPaymentMode == old(newPaymentMode)
      ensures showAddCategory == old(showAddCategory) && showAddPaymentMode == old(showAddPaymentMode)
    {
      ToggleDistinct(categories, c);
      if c in categories {
        categories := Remove(categories, c);
      } else {
        categories := categories + [c];
      }
    }

    /** `togglePaymentMode` */
    method TogglePaymentMode(m: string)
      requires Valid()
      modifies this
      ensures Valid()
      ensures paymentModes == Toggle(old(paymentModes), m)
      ensures name == old(name) && categories == old(categories)
      ensures newCategory == old(newCategory) && newPaymentMode == old(newPaymentMode)
      ensures showAddCategory == old(showAddCategory) && showAddPaymentMode == old(showAddPaymentMode)
    {
      ToggleDistinct(paymentModes, m);
      if m in paymentModes {
        paymentModes := Remove(paymentModes, m);
      } else {
        paymentModes := paymentModes + [m];
      }
    }

    /**
     * `addNewCategory`: a new entry is appended, the field emptied and hidden; a blank or
     * repeated one leaves everything as it was.
     */
    method AddNewCategory()
      requires Valid()
      modifies this
      ensures Valid()
      ensures AddNew(old(categories), old(newCategory)).Some? ==>
        categories == AddNew(old(categories), old(newCategory)).value && newCategory == "" && !showAddCategory
      ensures AddNew(old(categories), old(newCategory)).None? ==>
        categories == old(categories) && newCategory == old(newCategory) && showAddCategory == old(showAddCategory)
      ensures name == old(name) && paymentModes == old(paymentModes)
      ensures newPaymentMode == old(newPaymentMode) && showAddPaymentMode == old(showAddPaymentMode)
    {
      var added := AddNew(categories, newCategory);
      if added.Some? {
        AddNewDistinct(categories, newCategory);
        KeepCategory(added.value);
      }
    }

    /** `addNewPaymentMode`, by the same rule. */
    method AddNewPaymentMode()
      requires Valid()
      modifies this
      ensures Valid()
      ensures AddNew(old(paymentModes), old(newPaymentMode)).Some? ==>
        paymentModes == AddNew(old(paymentModes), old(newPaymentMode)).value && newPaymentMode == "" && !showAddPaymentMode
      ensures AddNew(old(paymentModes), old(newPaymentMode)).None? ==>
        paymentModes == old(paymentModes) && newPaymentMode == old(newPaymentMode) && showAddPaymentMode == old(showAddPaymentMode)
      ensures name == old(name) && categories == old(categories)
      ensures newCategory == old(newCategory) && showAddCategory == old(showAddCategory)
    {
      var added := AddNew(paymentModes, newPaymentMode);
      if added.Some? {
        AddNewDistinct(paymentModes, newPaymentMode);
        KeepPaymentMode(added.value);
      }
    }

    /** Stores the list with the new category and empties and hides its field. */
    method KeepCategory(c: seq<string>)
      requires Distinct(c) && Distinct(paymentModes)
      modifies this
      ensures Valid() && categories == c && newCategory == "" && !showAddCategory
      ensures name == old(name) && paymentModes == old(paymentModes)
      ensures newPaymentMode == old(newPaymentMode) && showAddPaymentMode == old(showAddPaymentMode)
    {
      categories, newCategory, showAddCategory := c, "", false;
    }

    /** Stores the list with the new payment mode and empties and hides its field. */
    method KeepPaymentMode(m: seq<string>)
      requires Distinct(categories) && Distinct(m)
      modifies this
      ensures Valid() && paymentModes == m && newPaymentMode == "" && !showAddPaymentMode
      ensures name == old(name) && categories == old(categories)
      ensures newCategory == old(newCategory) && showAddCategory == old(showAddCategory)
    {
      paymentModes, newPaymentMode, showAddPaymentMode := m, "", false;
    }

    /**
     * `handleSubmit`: a blank name hands over nothing and changes nothing; otherwise the
     * trimmed name and the two lists are handed over and the form is reset.
     */
    method Submit() returns (r: Option<NewLedger>)
      requires Valid()
      modifies this
      ensures Valid()
      ensures Trim(old(name)) == "" ==> r.None? && unchanged(this)
      ensures Trim(old(name)) != "" ==> r == Some(NewLedger(Trim(old(name)), old(categories), old(paymentModes))) && Fresh()
    {
      var trimmed := Trim(name);
      if trimmed == "" {
        return None;
      }
      r := Some(NewLedger(trimmed, categories, paymentModes));
      ResetForm();
    }
  }
}
