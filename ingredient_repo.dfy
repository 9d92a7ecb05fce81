/** The ingredient catalogue (src/repositories/ingredientRepo.js): rows keyed
    by `ingredientId`; `name` is a unique key of the table. */
module IngredientRepo {
  import opened Common

  datatype Ingredient = Ingredient(ingredientId: int, name: string, unit: string)

  datatype IngredientData = IngredientData(name: string, unit: string)

  datatype IngredientUpdate = IngredientUpdate(name: Option<string>, unit: Option<string>)

  /** The row after `prisma.ingredient.update({ data })`. */
  function ApplyIngredientUpdate(g: Ingredient, u: IngredientUpdate): (g': Ingredient)
    ensures g'.ingredientId == g.ingredientId
    ensures g'.name == (if u.name.Some? then u.name.value else g.name)
    ensures g'.unit == (if u.unit.Some? then u.unit.value else g.unit)
  {
    Ingredient(g.ingredientId,
      if u.name.Some? then u.name.value else g.name,
      if u.unit.Some? then u.unit.value else g.unit)
  }

  /** Whether some row of `rows` has exactly this name (case-sensitive). */
  predicate NameIn(rows: map<int, Ingredient>, name: string) {
    exists id :: id in rows && rows[id].name == name
  }

  class IngredientTable {
    var rows: map<int, Ingredient>
    var nextId: int

    ghost predicate Valid()
      reads this
    {
      && nextId >= 1
      && (forall id :: id in rows ==> rows[id].ingredientId == id && 1 <= id < nextId)
      && (forall a, b :: a in rows && b in rows && rows[a].name == rows[b].name ==> a == b)
    }

    constructor ()
      ensures Valid() && rows == map[]
    {
      rows := map[];
      nextId := 1;
    }

    /** `findIngredientById`. */
    function FindIngredientById(id: int): (r: Option<Ingredient>)
      reads this
      requires Valid()
      ensures r.Some? <==> id in rows
      ensures r.Some? ==> r.value == rows[id]
    {
      if id in rows then Some(rows[id]) else None
    }

    /** `findUnique({ where: { name } })`: the one row with that name, if any. */
    function FindIngredientByName(name: string): (r: Option<Ingredient>)
      reads this
      requires Valid()
      ensures r.Some? <==> NameIn(rows, name)
      ensures r.Some? ==> r.value.ingredientId in rows && rows[r.value.ingredientId] == r.value && r.value.name == name
    {
      if exists id :: id in rows && rows[id].name == name then
        var id :| id in rows && rows[id].name == name;
        Some(rows[id])
      else None
    }

    /** `createIngredient`; the table's unique name key holds because the
        route's validator has refused a taken name. */
    method CreateIngredient(data: IngredientData) returns (g: Ingredient)
      requires Valid() && !NameIn(rows, data.name)
      modifies this
      ensures Valid()
      ensures g.ingredientId !in old(rows) && g == Ingredient(g.ingredientId, data.name, data.unit)
      ensures rows == old(rows)[g.ingredientId := g]
    {
      g := Ingredient(nextId, data.name, data.unit);
      rows := rows[nextId := g];
      nextId := nextId + 1;
    }

    /** `updateIngredient`: rewrites that one row. */
    method UpdateIngredient(id: int, u: IngredientUpdate) returns (g: Ingredient)
      requires Valid() && id in rows
      requires u.name.Some? ==> !NameIn(rows, u.name.value)
      modifies this
      ensures Valid()
      ensures g == ApplyIngredientUpdate(old(rows[id]), u)
      ensures rows == old(rows)[id := g]
    {
      g := ApplyIngredientUpdate(rows[id], u);
      rows := rows[id := g];
    }

    /** `deleteIngredient` (a hard delete): removes that one row. */
    method DeleteIngredient(id: int) returns (g: Ingredient)
      requires Valid() && id in rows
      modifies this
      ensures Valid()
      ensures g == old(rows[id]) && rows == old(rows) - {id}
    {
      g := rows[id];
      rows := rows - {id};
    }
  }
}
