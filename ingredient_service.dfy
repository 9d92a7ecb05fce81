/** src/services/ingredientService.js: an existence check on the ingredient
    table, then the write. */
module IngredientService {
  import opened Common
  import opened IngredientRepo

  const IngredientNotFound := "Ingredient not found"

  /** `getIngredientById`. */
  function GetIngredientById(t: IngredientTable, id: int): (r: Result<Ingredient>)
    reads t
    requires t.Valid()
    ensures r.Ok? <==> id in t.rows
    ensures r.Ok? ==> r.value == t.rows[id] && r.value.ingredientId == id
    ensures r.Err? ==> r.error == NotFound(IngredientNotFound)
  {
    match t.FindIngredientById(id)
    case None => Err(NotFound(IngredientNotFound))
    case Some(g) => Ok(g)
  }

  /** `createNewIngredient`: stores the (validated) data unchanged. */
  method CreateNewIngredient(t: IngredientTable, data: IngredientData) returns (g: Ingredient)
    requires t.Valid() && !NameIn(t.rows, data.name)
    modifies t
    ensures t.Valid()
    ensures g.name == data.name && g.unit == data.unit
    ensures g.ingredientId !in old(t.rows) && t.rows == old(t.rows)[g.ingredientId := g]
  {
    g := t.CreateIngredient(data);
  }

  /** `updateIngredientById`: NotFound and no write for an absent id;
      otherwise only that ingredient changes. */
  method UpdateIngredientById(t: IngredientTable, id: int, u: IngredientUpdate) returns (r: Result<Ingredient>)
    requires t.Valid()
    requires u.name.Some? ==> !NameIn(t.rows, u.name.value)
    modifies t
    ensures t.Valid()
    ensures id !in old(t.rows) ==> r == Err(NotFound(IngredientNotFound)) && t.rows == old(t.rows)
    ensures id in old(t.rows) ==>
      r == Ok(ApplyIngredientUpdate(old(t.rows[id]), u)) && t.rows == old(t.rows)[id := r.value]
  {
    var found := GetIngredientById(t, id);
    if found.Err? {
      return Err(found.error);
    }
    var g := t.UpdateIngredient(id, u);
    r := Ok(g);
  }

  /** `deleteIngredientById`: NotFound and no write for an absent id;
      otherwise exactly that ingredient goes. */
  method DeleteIngredientById(t: IngredientTable, id: int) returns (r: Result<Ingredient>)
    requires t.Valid()
    modifies t
    ensures t.Valid()
    ensures id !in old(t.rows) ==> r == Err(NotFound(IngredientNotFound)) && t.rows == old(t.rows)
    ensures id in old(t.rows) ==> r == Ok(old(t.rows[id])) && t.rows == old(t.rows) - {id}
  {
    var found := GetIngredientById(t, id);
    if found.Err? {
      return Err(found.error);
    }
    var g := t.DeleteIngredient(id);
    r := Ok(g);
  }
}
