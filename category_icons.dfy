/**
 * The icon shown for a category: the table of predefined categories, the lookup that tries
 * the exact name and then the name ignoring case, and the test for predefined categories.
 */
module CategoryIcons {
  import opened Wrappers
  import opened JsString

  datatype Icon = Utensils | ShoppingBag | Wallet | Home | Receipt | Car | Film | Heart | GraduationCap | MoreHorizontal | Sparkles

  /** `DEFAULT_CATEGORY_ICON`, for categories the user made up. */
  const DEFAULT_CATEGORY_ICON: Icon := Sparkles

  /** `CATEGORY_ICONS`, its entries in the order of the object literal, in runs of five. */
  const TABLE: seq<(string, Icon)> :=
    FROM_FOOD + FROM_SALARY + FROM_HOME + FROM_GAS +
    FROM_FUEL + FROM_SUBSCRIPTIONS + FROM_HOSPITAL + FROM_COURSES

  const FROM_FOOD: seq<(string, Icon)> := [
    ("Food", Utensils), ("Dining", Utensils), ("Restaurant", Utensils), ("Groceries", ShoppingBag), ("Shopping", ShoppingBag)]

  const FROM_SALARY: seq<(string, Icon)> := [
    ("Salary", Wallet), ("Income", Wallet), ("Freelance", Wallet), ("Rent", Home), ("Housing", Home)]

  const FROM_HOME: seq<(string, Icon)> := [
    ("Home", Home), ("Bills", Receipt), ("Utilities", Receipt), ("Electricity", Receipt), ("Water", Receipt)]

  const FROM_GAS: seq<(string, Icon)> := [
    ("Gas", Receipt), ("Internet", Receipt), ("Phone", Receipt), ("Transport", Car), ("Transportation", Car)]

  const FROM_FUEL: seq<(string, Icon)> := [
    ("Fuel", Car), ("Petrol", Car), ("Travel", Car), ("Entertainment", Film), ("Movies", Film)]

  const FROM_SUBSCRIPTIONS: seq<(string, Icon)> := [
    ("Subscriptions", Film), ("Netflix", Film), ("Health", Heart), ("Medical", Heart), ("Medicine", Heart)]

  const FROM_HOSPITAL: seq<(string, Icon)> := [
    ("Hospital", Heart), ("Gym", Heart), ("Fitness", Heart), ("Education", GraduationCap), ("Books", GraduationCap)]

  const FROM_COURSES: seq<(string, Icon)> := [
    ("Courses", GraduationCap), ("School", GraduationCap), ("College", GraduationCap), ("Other", MoreHorizontal), ("Miscellaneous", MoreHorizontal)]

  /** The names every plain object inherits from `Object.prototype`; looking one up yields a truthy non-icon. */
  const PROTOTYPE_MEMBERS: set<string> := {
    "constructor", "toString", "toLocaleString", "valueOf", "hasOwnProperty", "isPrototypeOf",
    "propertyIsEnumerable", "__proto__", "__defineGetter__", "__defineSetter__", "__lookupGetter__", "__lookupSetter__"}

  /** The first index from `from` on whose key satisfies `matches`, or `|t|` when none does. */
  function FirstFrom(t: seq<(string, Icon)>, from: nat, matches: string -> bool): (i: nat)
    requires from <= |t|
    ensures from <= i <= |t|
    ensures forall j :: from <= j < i ==> !matches(t[j].0)
    ensures i < |t| ==> matches(t[i].0)
    decreases |t| - from
  {
    if from == |t| || matches(t[from].0) then from else FirstFrom(t, from + 1, matches)
  }

  function IsKey(c: string): string -> bool {
    (k: string) => k == c
  }

  function SameIgnoringCase(lower: string): string -> bool {
    (k: string) => Lower(k) == lower
  }

  /** `table[c]` over own entries: the icon of the first entry whose key is `c`, or `undefined`. */
  function ExactIn(t: seq<(string, Icon)>, c: string): (r: Option<Icon>)
    ensures r.None? <==> forall j :: 0 <= j < |t| ==> t[j].0 != c
  {
    var i := FirstFrom(t, 0, IsKey(c));
    if i < |t| then Some(t[i].1) else None
  }

  /** The exact entry, else the first entry equal ignoring case, else the default icon. */
  function IconIn(t: seq<(string, Icon)>, c: string): Icon {
    match ExactIn(t, c)
    case Some(icon) => icon
    case None =>
      var i := FirstFrom(t, 0, SameIgnoringCase(Lower(c)));
      if i < |t| then t[i].1 else DEFAULT_CATEGORY_ICON
  }

  /** Some key of the table equals `c` ignoring case. */
  predicate PredefinedIn(t: seq<(string, Icon)>, c: string) {
    exists j :: 0 <= j < |t| && Lower(t[j].0) == Lower(c)
  }

  /** `getCategoryIcon` with own entries only. */
  function CategoryIcon(c: string): Icon {
    IconIn(TABLE, c)
  }

  /** `isPredefinedCategory`: some key equals the category ignoring case. */
  predicate IsPredefinedCategory(c: string) {
    PredefinedIn(TABLE, c)
  }

  /** What the lookup yields as written: an icon, or an inherited member of `Object.prototype`. */
  datatype Found = IconOf(icon: Icon) | PrototypeMember

  /** `getCategoryIcon` as written: `CATEGORY_ICONS[c]` also finds the inherited members. */
  function GetCategoryIconAsWritten(c: string): (r: Found)
    ensures c in PROTOTYPE_MEMBERS <==> r == PrototypeMember
    ensures c !in PROTOTYPE_MEMBERS ==> r == IconOf(CategoryIcon(c))
  {
    if c in PROTOTYPE_MEMBERS then PrototypeMember else IconOf(CategoryIcon(c))
  }

  /** The search of `getCategoryIcon` over a table: the exact lookup, then the entries in order. */
  method GetIconIn(t: seq<(string, Icon)>, category: string) returns (icon: Icon)
    ensures icon == IconIn(t, category)
  {
    var exact := ExactIn(t, category);
    if exact.Some? {
      return exact.value;
    }
    var lowerCategory := Lower(category);
    var i := 0;
    while i < |t|
      invariant 0 <= i <= |t|
      invariant FirstFrom(t, 0, SameIgnoringCase(lowerCategory)) == FirstFrom(t, i, SameIgnoringCase(lowerCategory))
    {
      if Lower(t[i].0) == lowerCategory {
        return t[i].1;
      }
      i := i + 1;
    }
    return DEFAULT_CATEGORY_ICON;
  }

  /** `getCategoryIcon` */
  method GetCategoryIcon(category: string) returns (icon: Icon)
    ensures icon == CategoryIcon(category)
  {
    icon := GetIconIn(TABLE, category);
  }

  /** A capital letter followed by no capitals. */
  predicate Capitalized(k: string) {
    k != [] && IsAsciiUpper(k[0]) && NoUpper(k[1..])
  }

  /** Every key is capitalized and no entry carries the default icon. */
  predicate WellFormed(t: seq<(string, Icon)>) {
    forall j :: 0 <= j < |t| ==> Capitalized(t[j].0) && t[j].1 != DEFAULT_CATEGORY_ICON
  }

  lemma WellFormedAppend(a: seq<(string, Icon)>, b: seq<(string, Icon)>)
    requires WellFormed(a) && WellFormed(b)
    ensures WellFormed(a + b)
  {
    forall j | 0 <= j < |a + b|
      ensures Capitalized((a + b)[j].0) && (a + b)[j].1 != DEFAULT_CATEGORY_ICON
    {
      if j >= |a| {
        assert (a + b)[j] == b[j - |a|];
      }
    }
  }

  lemma FromFoodWellFormed()
    ensures WellFormed(FROM_FOOD)
  {
  }

  lemma FromSalaryWellFormed()
    ensures WellFormed(FROM_SALARY)
  {
  }

  lemma FromHomeWellFormed()
    ensures WellFormed(FROM_HOME)
  {
  }

  lemma FromGasWellFormed()
    ensures WellFormed(FROM_GAS)
  {
  }

  lemma FromFuelWellFormed()
    ensures WellFormed(FROM_FUEL)
  {
  }

  lemma FromSubscriptionsWellFormed()
    ensures WellFormed(FROM_SUBSCRIPTIONS)
  {
  }

  lemma FromHospitalWellFormed()
    ensures WellFormed(FROM_HOSPITAL)
  {
  }

  lemma FromCoursesWellFormed()
    ensures WellFormed(FROM_COURSES)
  {
  }

  /** The table's keys are capitalized and its icons are not the default. */
  lemma TableWellFormed()
    ensures WellFormed(TABLE)
  {
    FromFoodWellFormed();
    FromSalaryWellFormed();
    FromHomeWellFormed();
    FromGasWellFormed();
    FromFuelWellFormed();
    FromSubscriptionsWellFormed();
    FromHospitalWellFormed();
    FromCoursesWellFormed();
    WellFormedAppend(FROM_FOOD, FROM_SALARY);
    WellFormedAppend(FROM_FOOD + FROM_SALARY, FROM_HOME);
    WellFormedAppend(FROM_FOOD + FROM_SALARY + FROM_HOME, FROM_GAS);
    WellFormedAppend(FROM_FOOD + FROM_SALARY + FROM_HOME + FROM_GAS, FROM_FUEL);
    WellFormedAppend(FROM_FOOD + FROM_SALARY + FROM_HOME + FROM_GAS + FROM_FUEL, FROM_SUBSCRIPTIONS);
    WellFormedAppend(FROM_FOOD + FROM_SALARY + FROM_HOME + FROM_GAS + FROM_FUEL + FROM_SUBSCRIPTIONS, FROM_HOSPITAL);
    WellFormedAppend(FROM_FOOD + FROM_SALARY + FROM_HOME + FROM_GAS + FROM_FUEL + FROM_SUBSCRIPTIONS + FROM_HOSPITAL, FROM_COURSES);
  }

  /** Two capitalized names equal ignoring case are equal. */
  lemma CapitalizedLower(a: string, b: string)
    requires Capitalized(a) && Capitalized(b) && Lower(a) == Lower(b)
    ensures a == b
  {
    assert |a| == |b|;
    forall i | 0 <= i < |a|
      ensures a[i] == b[i]
    {
      assert LowerChar(a[i]) == LowerChar(b[i]);
      if i > 0 {
        assert a[1..][i - 1] == a[i] && b[1..][i - 1] == b[i];
      }
    }
  }

  /** Lower-cased text cannot be a capitalized key. */
  lemma LowerIsNoKey(t: seq<(string, Icon)>, c: string)
    requires WellFormed(t)
    ensures ExactIn(t, Lower(c)).None?
  {
    forall j | 0 <= j < |t|
      ensures t[j].0 != Lower(c)
    {
      if c != [] {
        assert !IsAsciiUpper(Lower(c)[0]);
      }
    }
  }

  /** An exact match returns the icon of that key's (first) entry. */
  lemma ExactMatch(t: seq<(string, Icon)>, j: nat)
    requires j < |t| && forall k :: 0 <= k < j ==> t[k].0 != t[j].0
    ensures IconIn(t, t[j].0) == t[j].1
  {
    assert FirstFrom(t, 0, IsKey(t[j].0)) == j;
  }

  /** Otherwise the first entry equal ignoring case gives the icon. */
  lemma CaseInsensitiveMatch(t: seq<(string, Icon)>, c: string, j: nat)
    requires j < |t| && Lower(t[j].0) == Lower(c)
    requires forall k :: 0 <= k < |t| ==> t[k].0 != c
    requires forall k :: 0 <= k < j ==> Lower(t[k].0) != Lower(c)
    ensures IconIn(t, c) == t[j].1
  {
    assert FirstFrom(t, 0, SameIgnoringCase(Lower(c))) == j;
  }

  /** With no entry equal ignoring case, the default icon. */
  lemma NoMatch(t: seq<(string, Icon)>, c: string)
    requires !PredefinedIn(t, c)
    ensures IconIn(t, c) == DEFAULT_CATEGORY_ICON
  {
    forall j | 0 <= j < |t|
      ensures t[j].0 != c
    {
      assert Lower(t[j].0) != Lower(c);
    }
  }

  /** Upper or lower case makes no difference to the icon. */
  lemma IconIgnoresCaseIn(t: seq<(string, Icon)>, c: string)
    requires WellFormed(t)
    ensures IconIn(t, c) == IconIn(t, Lower(c))
  {
    LowerIsNoKey(t, c);
    LowerIdempotent(c);
    var exact := FirstFrom(t, 0, IsKey(c));
    var ignoring := FirstFrom(t, 0, SameIgnoringCase(Lower(c)));
    if exact < |t| {
      assert ignoring <= exact;
      CapitalizedLower(t[ignoring].0, c);
    }
  }

  /** A category is predefined exactly when its icon is not the default. */
  lemma PredefinedIffIconIn(t: seq<(string, Icon)>, c: string)
    requires WellFormed(t)
    ensures PredefinedIn(t, c) <==> IconIn(t, c) != DEFAULT_CATEGORY_ICON
  {
    var exact := FirstFrom(t, 0, IsKey(c));
    var ignoring := FirstFrom(t, 0, SameIgnoringCase(Lower(c)));
    if exact < |t| {
      assert Lower(t[exact].0) == Lower(c);
    } else if PredefinedIn(t, c) {
      var j :| 0 <= j < |t| && Lower(t[j].0) == Lower(c);
      assert ignoring <= j;
    }
  }

  /** `getCategoryIcon(c)` equals `getCategoryIcon(c.toLowerCase())`. */
  lemma IconIgnoresCase(c: string)
    ensures CategoryIcon(c) == CategoryIcon(Lower(c))
  {
    TableWellFormed();
    IconIgnoresCaseIn(TABLE, c);
  }

  /** `isPredefinedCategory(c)` holds exactly when `getCategoryIcon(c)` is not the default icon. */
  lemma PredefinedIffIcon(c: string)
    ensures IsPredefinedCategory(c) <==> CategoryIcon(c) != DEFAULT_CATEGORY_ICON
  {
    TableWellFormed();
    PredefinedIffIconIn(TABLE, c);
  }

  /** No key is `Constructor`. */
  lemma NoConstructorKey()
    ensures ExactIn(TABLE, "Constructor").None?
  {
  }

  /** A name whose capitalized form is no key is not predefined. */
  lemma NotPredefined(t: seq<(string, Icon)>, c: string, k: string)
    requires WellFormed(t) && Capitalized(k) && Lower(k) == Lower(c) && ExactIn(t, k).None?
    ensures !PredefinedIn(t, c)
  {
    forall j | 0 <= j < |t|
      ensures Lower(t[j].0) != Lower(c)
    {
      if Lower(t[j].0) == Lower(k) {
        CapitalizedLower(t[j].0, k);
      }
    }
  }

  /**
   * A category named `constructor`, which the ledger dialog accepts like any other name,
   * gets `Object` itself as its icon as written, although it is not predefined; with own
   * entries only it gets the default icon.
   */
  lemma ConstructorCategory()
    ensures GetCategoryIconAsWritten("constructor") == PrototypeMember
    ensures !IsPredefinedCategory("constructor")
    ensures CategoryIcon("constructor") == DEFAULT_CATEGORY_ICON
  {
    assert Lower("Constructor") == "constructor" == Lower("constructor");
    TableWellFormed();
    NoConstructorKey();
    NotPredefined(TABLE, "constructor", "Constructor");
    NoMatch(TABLE, "constructor");
  }
}
