/** The recipe table (src/repositories/recipeRepo.js): rows keyed by
    `recipeId`, with ids handed out by an auto-increment counter. */
module RecipeRepo {
  import opened Common

  datatype Recipe = Recipe(
    recipeId: int,
    title: string,
    description: Option<string>,
    prepTime: int,
    cookTime: int,
    servings: int,
    userId: int)

  /** The data of a new row, as `prisma.recipe.create` receives it. */
  datatype RecipeData = RecipeData(
    title: string,
    description: Option<string>,
    prepTime: int,
    cookTime: int,
    servings: int,
    userId: int)

  /** A partial update: every given field is written, the others are kept. */
  datatype RecipeUpdate = RecipeUpdate(
    title: Option<string>,
    description: Option<string>,
    prepTime: Option<int>,
    cookTime: Option<int>,
    servings: Option<int>,
    userId: Option<int>)

  /** The value a column holds after an update: the given one, else the current one. */
  function Pick<T>(given: Option<T>, current: T): (v: T)
    ensures given.Some? ==> v == given.value
    ensures given.None? ==> v == current
  {
    if given.Some? then given.value else current
  }

  /** The row after `prisma.recipe.update({ data })`. */
  function ApplyRecipeUpdate(r: Recipe, u: RecipeUpdate): (r': Recipe)
    ensures r'.recipeId == r.recipeId
    ensures r'.title == Pick(u.title, r.title)
    ensures r'.description == (if u.description.Some? then u.description else r.description)
    ensures r'.prepTime == Pick(u.prepTime, r.prepTime)
    ensures r'.cookTime == Pick(u.cookTime, r.cookTime)
    ensures r'.servings == Pick(u.servings, r.servings)
    ensures r'.userId == Pick(u.userId, r.userId)
    ensures u == RecipeUpdate(None, None, None, None, None, None) ==> r' == r
  {
    Recipe(r.recipeId, Pick(u.title, r.title),
      if u.description.Some? then u.description else r.description,
      Pick(u.prepTime, r.prepTime), Pick(u.cookTime, r.cookTime),
      Pick(u.servings, r.servings), Pick(u.userId, r.userId))
  }

  /** Applying the same partial update twice changes nothing more. */
  lemma ApplyRecipeUpdateIdempotent(r: Recipe, u: RecipeUpdate)
    ensures ApplyRecipeUpdate(ApplyRecipeUpdate(r, u), u) == ApplyRecipeUpdate(r, u)
  {
  }

  class RecipeTable {
    var rows: map<int, Recipe>
    var nextId: int

    /** Rows sit under their own id, and the counter is past every id. */
    ghost predicate Valid()
      reads this
    {
      && nextId >= 1
      && (forall id :: id in rows ==> rows[id].recipeId == id && 1 <= id < nextId)
    }

    constructor ()
      ensures Valid() && rows == map[]
    {
      rows := map[];
      nextId := 1;
    }

    /** `findRecipeById`: the row, or nothing. */
    function FindRecipeById(id: int): (r: Option<Recipe>)
      reads this
      requires Valid()
      ensures r.Some? <==> id in rows
      ensures r.Some? ==> r.value == rows[id] && r.value.recipeId == id
    {
      if id in rows then Some(rows[id]) else None
    }

    /** `createRecipe`: one new row under a fresh id, holding the data as given. */
    method CreateRecipe(data: RecipeData) returns (r: Recipe)
      requires Valid()
      modifies this
      ensures Valid()
      ensures r.recipeId !in old(rows)
      ensures r == Recipe(r.recipeId, data.title, data.description, data.prepTime, data.cookTime, data.servings, data.userId)
      ensures rows == old(rows)[r.recipeId := r]
    {
      r := Recipe(nextId, data.title, data.description, data.prepTime, data.cookTime, data.servings, data.userId);
      rows := rows[nextId := r];
      nextId := nextId + 1;
    }

    /** `updateRecipe`: rewrites that one row. */
    method UpdateRecipe(id: int, u: RecipeUpdate) returns (r: Recipe)
      requires Valid() && id in rows
      modifies this
      ensures Valid()
      ensures r == ApplyRecipeUpdate(old(rows[id]), u)
      ensures rows == old(rows)[id := r]
    {
      r := ApplyRecipeUpdate(rows[id], u);
      rows := rows[id := r];
    }

    /** `deleteRecipe`: removes that one row and returns it. */
    method DeleteRecipe(id: int) returns (r: Recipe)
      requires Valid() && id in rows
      modifies this
      ensures Valid()
      ensures r == old(rows[id])
      ensures rows == old(rows) - {id}
    {
      r := rows[id];
      rows := rows - {id};
    }
  }
}
