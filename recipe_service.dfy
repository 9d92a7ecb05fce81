/** src/services/recipeService.js: an existence check on the recipe table,
    then the write. No ownership check is made here or on the routes that
    reach it. */
module RecipeService {
  import opened Common
  import opened RecipeRepo

  const RecipeNotFound := "Recipe not found"

  /** `getRecipeById`: the row, or NotFound. */
  function GetRecipeById(t: RecipeTable, id: int): (r: Result<Recipe>)
    reads t
    requires t.Valid()
    ensures r.Ok? <==> id in t.rows
    ensures r.Ok? ==> r.value == t.rows[id] && r.value.recipeId == id
    ensures r.Err? ==> r.error == NotFound(RecipeNotFound)
  {
    match t.FindRecipeById(id)
    case None => Err(NotFound(RecipeNotFound))
    case Some(recipe) => Ok(recipe)
  }

  /** `createNewRecipe`: stores the body as given, owner included. */
  method CreateNewRecipe(t: RecipeTable, data: RecipeData) returns (r: Recipe)
    requires t.Valid()
    modifies t
    ensures t.Valid()
    ensures r.recipeId !in old(t.rows) && t.rows == old(t.rows)[r.recipeId := r]
    ensures r.userId == data.userId && r.title == data.title && r.description == data.description
    ensures r.prepTime == data.prepTime && r.cookTime == data.cookTime && r.servings == data.servings
  {
    r := t.CreateRecipe(data);
  }

  /** `updateRecipeById`: NotFound and no write for an absent id; otherwise
      only that row changes. */
  method UpdateRecipeById(t: RecipeTable, id: int, u: RecipeUpdate) returns (r: Result<Recipe>)
    requires t.Valid()
    modifies t
    ensures t.Valid()
    ensures id !in old(t.rows) ==> r == Err(NotFound(RecipeNotFound)) && t.rows == old(t.rows)
    ensures id in old(t.rows) ==>
      r == Ok(ApplyRecipeUpdate(old(t.rows[id]), u)) && t.rows == old(t.rows)[id := r.value]
  {
    var found := GetRecipeById(t, id);
    if found.Err? {
      return Err(found.error);
    }
    var updated := t.UpdateRecipe(id, u);
    r := Ok(updated);
  }

  /** `deleteRecipeById`: NotFound and no write for an absent id; otherwise
      exactly that row goes. */
  method DeleteRecipeById(t: RecipeTable, id: int) returns (r: Result<Recipe>)
    requires t.Valid()
    modifies t
    ensures t.Valid()
    ensures id !in old(t.rows) ==> r == Err(NotFound(RecipeNotFound)) && t.rows == old(t.rows)
    ensures id in old(t.rows) ==> r == Ok(old(t.rows[id])) && t.rows == old(t.rows) - {id}
  {
    var found := GetRecipeById(t, id);
    if found.Err? {
      return Err(found.error);
    }
    var deleted := t.DeleteRecipe(id);
    r := Ok(deleted);
  }
}
