/** src/middleware/validateIngredient.js: the body rules of ingredient create
    and update. The name chain ends in a read-only probe of the ingredient
    table for the trimmed name; on update the probe does not leave out the
    ingredient being updated. */
module ValidateIngredient {
  import opened Common
  import opened Text
  import opened Validation
  import opened IngredientRepo

  /** The messages of the validators below. */
  datatype Message = NameRequired | NameLength | NameUnique | UnitRequired
  {
    /** The wording the response carries. */
    function Wording(): string {
      match this
      case NameRequired => "Name is required"
      case NameLength => "Name must be between 3 and 100 characters"
      case NameUnique => "Ingredient name must be unique"
      case UnitRequired => "Unit is required"
    }
  }

  datatype IngredientBody = IngredientBody(name: Option<string>, unit: Option<string>)

  /** The name rule: 3 to 100 characters once trimmed, and no stored
      ingredient (the one being updated included) carries the trimmed name. */
  predicate AcceptableName(store: map<int, Ingredient>, name: string) {
    3 <= |Trim(name)| <= 100 && forall id :: id in store ==> store[id].name != Trim(name)
  }

  /** The rule for creation: an acceptable name and a unit with a
      non-whitespace character. */
  predicate AcceptableIngredient(store: map<int, Ingredient>, b: IngredientBody) {
    && b.name.Some? && AcceptableName(store, b.name.value)
    && b.unit.Some? && Trim(b.unit.value) != ""
  }

  /** The rule for update: each field may be absent; a given one obeys the
      creation rule. */
  predicate AcceptableIngredientUpdate(store: map<int, Ingredient>, b: IngredientBody) {
    && (b.name.Some? ==> AcceptableName(store, b.name.value))
    && (b.unit.Some? ==> Trim(b.unit.value) != "")
  }

  /** The `trim().isString().notEmpty().isLength({min: 3, max: 100}).custom(probe)` chain. */
  function NameErrors(store: map<int, Ingredient>, name: string): (errs: seq<Message>)
    ensures |errs| <= 3
    ensures errs == [] <==> AcceptableName(store, name)
    ensures NameIn(store, Trim(name)) ==> |errs| >= 1 && errs[|errs| - 1] == NameUnique
  {
    var t := Trim(name);
    ChainOfThree(t != "", 3 <= |t| <= 100, !NameIn(store, t), NameRequired, NameLength, NameUnique);
    Check(t != "", NameRequired) + Check(3 <= |t| <= 100, NameLength) + Check(!NameIn(store, t), NameUnique)
  }

  /** The `trim().isString().notEmpty()` chain of the unit. */
  function UnitErrors(unit: string): (errs: seq<Message>)
    ensures errs == [] <==> Trim(unit) != ""
    ensures errs != [] ==> errs == [UnitRequired]
  {
    Check(Trim(unit) != "", UnitRequired)
  }

  /** `validateIngredient`: the messages of the failing validators, in order. */
  function IngredientErrors(store: map<int, Ingredient>, b: IngredientBody): (errs: seq<Message>)
    ensures errs == [] <==> AcceptableIngredient(store, b)
    ensures b.unit.None? ==> errs[|errs| - 1] == UnitRequired
  {
    NameErrors(store, OrEmpty(b.name)) + UnitErrors(OrEmpty(b.unit))
  }

  /** `validateIngredientUpdate`. */
  function IngredientUpdateErrors(store: map<int, Ingredient>, b: IngredientBody): (errs: seq<Message>)
    ensures errs == [] <==> AcceptableIngredientUpdate(store, b)
  {
    (if b.name.None? then [] else NameErrors(store, b.name.value))
    + (if b.unit.None? then [] else UnitErrors(b.unit.value))
  }

  /** The data a validated creation body hands to `createNewIngredient`: its
      trimmed name is free in the table probed. */
  function IngredientDataOf(store: map<int, Ingredient>, b: IngredientBody): (d: IngredientData)
    requires AcceptableIngredient(store, b)
    ensures d.name == Trim(b.name.value) && 3 <= |d.name| <= 100 && !NameIn(store, d.name)
    ensures d.unit == Trim(b.unit.value) && d.unit != ""
  {
    IngredientData(Trim(b.name.value), Trim(b.unit.value))
  }

  /** The update a validated body hands to `updateIngredientById`: a given
      name is free in the table probed. */
  function IngredientUpdateOf(store: map<int, Ingredient>, b: IngredientBody): (u: IngredientUpdate)
    requires AcceptableIngredientUpdate(store, b)
    ensures u.name.Some? <==> b.name.Some?
    ensures u.name.Some? ==> u.name.value == Trim(b.name.value) && !NameIn(store, u.name.value)
    ensures u.unit == TrimmedOption(b.unit)
    ensures u.unit.Some? ==> u.unit.value != ""
  {
    IngredientUpdate(TrimmedOption(b.name), TrimmedOption(b.unit))
  }

  /** An update that resubmits the ingredient's own name is rejected as a
      duplicate: the probe finds the row being updated. */
  lemma {:induction false} UpdateRejectsOwnName(store: map<int, Ingredient>, id: int, b: IngredientBody)
    requires id in store && b.name.Some? && Trim(b.name.value) == store[id].name
    ensures IngredientUpdateErrors(store, b) != []
    ensures NameUnique in IngredientUpdateErrors(store, b)
  {
    assert NameIn(store, Trim(b.name.value));
    var errs := IngredientUpdateErrors(store, b);
    var nameErrs := NameErrors(store, b.name.value);
    assert errs[|nameErrs| - 1] == NameUnique;
  }

  /** A creation body whose trimmed name is stored already is rejected as a duplicate. */
  lemma {:induction false} DuplicateNameRejected(store: map<int, Ingredient>, name: string, unit: Option<string>)
    requires NameIn(store, Trim(name))
    ensures NameUnique in IngredientErrors(store, IngredientBody(Some(name), unit))
  {
    var nameErrs := NameErrors(store, name);
    assert IngredientErrors(store, IngredientBody(Some(name), unit))[|nameErrs| - 1] == NameUnique;
  }

  /** Surrounding whitespace does not escape the probe: a stored name padded
      with whitespace is rejected on create. */
  lemma {:induction false} PaddedDuplicateRejected(store: map<int, Ingredient>, id: int, before: string, after: string, unit: Option<string>)
    requires id in store && AllSpace(before) && AllSpace(after)
    requires store[id].name != [] ==> !IsSpace(store[id].name[0]) && !IsSpace(store[id].name[|store[id].name| - 1])
    ensures NameUnique in IngredientErrors(store, IngredientBody(Some(before + store[id].name + after), unit))
  {
    var name := before + store[id].name + after;
    assert NameIn(store, Trim(name)) by {
      TrimOfPadded(before, store[id].name, after);
    }
    DuplicateNameRejected(store, name, unit);
  }

  /** Every creation body the validator accepts is an acceptable update too. */
  lemma CreateRulesImplyUpdateRules(store: map<int, Ingredient>, b: IngredientBody)
    ensures IngredientErrors(store, b) == [] ==> IngredientUpdateErrors(store, b) == []
  {
  }
}
