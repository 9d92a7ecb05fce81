/** src/middleware/validateRecipe.js: the body rules of recipe create and
    update. Title and description are trimmed in place before they are
    measured; the owner id is taken from the body. */
module ValidateRecipe {
  import opened Common
  import opened Text
  import opened Validation
  import opened RecipeRepo

  /** The messages of the validators below. */
  datatype Message = TitleRequired | TitleEmpty | TitleLength | DescriptionLength | PrepTimeMessage | CookTimeMessage | ServingsMessage | UserIdMessage
  {
    /** The wording the response carries. */
    function Wording(): string {
      match this
      case TitleRequired => "Title is required"
      case TitleEmpty => "Title cannot be empty"
      case TitleLength => "Title must be between 3 and 100 characters"
      case DescriptionLength => "Description must not exceed 500 characters"
      case PrepTimeMessage => "Prep time must be a positive integer"
      case CookTimeMessage => "Cook time must be a positive integer"
      case ServingsMessage => "Servings must be at least 1"
      case UserIdMessage => "User ID must be a valid integer"
    }
  }

  datatype RecipeBody = RecipeBody(
    title: Option<string>,
    description: Option<string>,
    prepTime: Option<IntField>,
    cookTime: Option<IntField>,
    servings: Option<IntField>,
    userId: Option<IntField>)

  /** The rule for creation: a title of 3 to 100 characters once trimmed, an
      optional description of at most 500, times of at least 0, at least one
      serving, and an integer owner id. */
  predicate AcceptableRecipe(b: RecipeBody) {
    && b.title.Some? && 3 <= |Trim(b.title.value)| <= 100
    && (b.description.Some? ==> |Trim(b.description.value)| <= 500)
    && IsIntAtLeast(b.prepTime, 0) && IsIntAtLeast(b.cookTime, 0) && IsIntAtLeast(b.servings, 1)
    && b.userId.Some? && b.userId.value.Int?
  }

  /** The rule for update: each field may be absent, a given one obeys the
      creation rule, and the owner id is not examined. */
  predicate AcceptableRecipeUpdate(b: RecipeBody) {
    && (b.title.Some? ==> 3 <= |Trim(b.title.value)| <= 100)
    && (b.description.Some? ==> |Trim(b.description.value)| <= 500)
    && (b.prepTime.Some? ==> IsIntAtLeast(b.prepTime, 0))
    && (b.cookTime.Some? ==> IsIntAtLeast(b.cookTime, 0))
    && (b.servings.Some? ==> IsIntAtLeast(b.servings, 1))
  }

  /** The `trim().notEmpty().isLength({min: 3, max: 100})` chain. */
  function TitleErrors(title: string, emptyMessage: Message): (errs: seq<Message>)
    ensures |errs| <= 2
    ensures errs == [] <==> 3 <= |Trim(title)| <= 100
    ensures Trim(title) == "" ==> errs == [emptyMessage, TitleLength]
  {
    var t := Trim(title);
    ChainOfTwo(t != "", 3 <= |t| <= 100, emptyMessage, TitleLength);
    Check(t != "", emptyMessage) + Check(3 <= |t| <= 100, TitleLength)
  }

  /** The optional `trim().isLength({max: 500})` chain. */
  function DescriptionErrors(d: Option<string>): (errs: seq<Message>)
    ensures |errs| <= 1
    ensures errs == [] <==> (d.Some? ==> |Trim(d.value)| <= 500)
  {
    if d.None? then [] else Check(|Trim(d.value)| <= 500, DescriptionLength)
  }

  /** An `optional().isInt({min})` chain. */
  function OptionalIntErrors(f: Option<IntField>, min: int, message: Message): (errs: seq<Message>)
    ensures |errs| <= 1 && (errs != [] ==> errs[0] == message)
    ensures errs == [] <==> (f.Some? ==> IsIntAtLeast(f, min))
  {
    if f.None? then [] else Check(IsIntAtLeast(f, min), message)
  }

  /** `validateRecipe`: the messages of the failing validators, in order. */
  function RecipeErrors(b: RecipeBody): (errs: seq<Message>)
    ensures errs == [] <==> AcceptableRecipe(b)
    ensures b.title.None? ==> |errs| >= 2 && errs[..2] == [TitleRequired, TitleLength]
    ensures b.userId.None? ==> errs[|errs| - 1] == UserIdMessage
  {
    var title := TitleErrors(OrEmpty(b.title), TitleRequired);
    var errs := title + DescriptionErrors(b.description) + NumberErrors(b);
    assert |title| == 2 ==> errs[..2] == title;
    errs
  }

  /** The `isInt` validators of the creation chain: the two times, the
      servings and the owner id. */
  function NumberErrors(b: RecipeBody): (errs: seq<Message>)
    ensures errs == [] <==> (IsIntAtLeast(b.prepTime, 0) && IsIntAtLeast(b.cookTime, 0) && IsIntAtLeast(b.servings, 1)
                             && b.userId.Some? && b.userId.value.Int?)
    ensures !(b.userId.Some? && b.userId.value.Int?) ==> |errs| >= 1 && errs[|errs| - 1] == UserIdMessage
  {
    ChainOfThree(IsIntAtLeast(b.prepTime, 0), IsIntAtLeast(b.cookTime, 0), IsIntAtLeast(b.servings, 1),
                 PrepTimeMessage, CookTimeMessage, ServingsMessage);
    Check(IsIntAtLeast(b.prepTime, 0), PrepTimeMessage)
    + Check(IsIntAtLeast(b.cookTime, 0), CookTimeMessage)
    + Check(IsIntAtLeast(b.servings, 1), ServingsMessage)
    + Check(b.userId.Some? && b.userId.value.Int?, UserIdMessage)
  }

  /** `validateRecipeUpdate`. */
  function RecipeUpdateErrors(b: RecipeBody): (errs: seq<Message>)
    ensures errs == [] <==> AcceptableRecipeUpdate(b)
  {
    (if b.title.None? then [] else TitleErrors(b.title.value, TitleEmpty))
    + DescriptionErrors(b.description)
    + OptionalIntErrors(b.prepTime, 0, PrepTimeMessage)
    + OptionalIntErrors(b.cookTime, 0, CookTimeMessage)
    + OptionalIntErrors(b.servings, 1, ServingsMessage)
  }

  /** The data a validated creation body hands to `createNewRecipe`: the
      trimmed text, the numbers, and the owner id exactly as the body gave it. */
  function RecipeDataOf(b: RecipeBody): (d: RecipeData)
    requires AcceptableRecipe(b)
    ensures 3 <= |d.title| <= 100 && d.title == Trim(b.title.value)
    ensures d.description == TrimmedOption(b.description)
    ensures d.description.Some? ==> |d.description.value| <= 500
    ensures d.prepTime == b.prepTime.value.value && d.prepTime >= 0
    ensures d.cookTime == b.cookTime.value.value && d.cookTime >= 0
    ensures d.servings == b.servings.value.value && d.servings >= 1
    ensures d.userId == b.userId.value.value
  {
    RecipeData(Trim(b.title.value), TrimmedOption(b.description),
      b.prepTime.value.value, b.cookTime.value.value, b.servings.value.value, b.userId.value.value)
  }

  /** The integer a field holds, if it holds one. */
  function IntOf(f: Option<IntField>): (r: Option<int>)
    ensures r.Some? <==> f.Some? && f.value.Int?
    ensures r.Some? ==> r.value == f.value.value
  {
    if f.Some? && f.value.Int? then Some(f.value.value) else None
  }

  /** The update a validated body hands to `updateRecipeById`, an integer
      owner id included. */
  function RecipeUpdateOf(b: RecipeBody): (u: RecipeUpdate)
    requires AcceptableRecipeUpdate(b)
    ensures u.title == TrimmedOption(b.title)
    ensures u.title.Some? ==> 3 <= |u.title.value| <= 100
    ensures u.description == TrimmedOption(b.description)
    ensures u.description.Some? ==> |u.description.value| <= 500
    ensures u.prepTime == IntOf(b.prepTime) && (u.prepTime.Some? ==> u.prepTime.value >= 0)
    ensures u.cookTime == IntOf(b.cookTime) && (u.cookTime.Some? ==> u.cookTime.value >= 0)
    ensures u.servings == IntOf(b.servings) && (u.servings.Some? ==> u.servings.value >= 1)
    ensures u.userId == IntOf(b.userId)
    ensures b.userId.Some? && b.userId.value.Int? ==> u.userId == Some(b.userId.value.value)
  {
    RecipeUpdate(TrimmedOption(b.title), TrimmedOption(b.description),
      IntOf(b.prepTime), IntOf(b.cookTime), IntOf(b.servings), IntOf(b.userId))
  }

  /** Every creation body the validator accepts is an acceptable update too. */
  lemma CreateRulesImplyUpdateRules(b: RecipeBody)
    ensures RecipeErrors(b) == [] ==> RecipeUpdateErrors(b) == []
  {
  }

  /** The update rules never look at the owner: an update body that only
      names a new owner passes, and applied to a recipe it moves the recipe
      to that owner and changes nothing else. */
  lemma {:induction false} UpdateCanReassignOwner(r: Recipe, newOwner: int)
    ensures var b := RecipeBody(None, None, None, None, None, Some(Int(newOwner)));
      && RecipeUpdateErrors(b) == []
      && ApplyRecipeUpdate(r, RecipeUpdateOf(b)) == r.(userId := newOwner)
  {
    var b := RecipeBody(None, None, None, None, None, Some(Int(newOwner)));
    assert RecipeUpdateErrors(b) == [];
  }

  /** The title is judged and stored by its trimmed value alone: a title
      that trims to an accepted one (padding it with whitespace, say) is
      accepted too and yields the same recipe data. */
  lemma TitleJudgedTrimmed(b: RecipeBody, title: string)
    requires AcceptableRecipe(b) && Trim(title) == Trim(b.title.value)
    ensures RecipeErrors(b.(title := Some(title))) == []
    ensures RecipeDataOf(b.(title := Some(title))) == RecipeDataOf(b)
  {
  }
}
