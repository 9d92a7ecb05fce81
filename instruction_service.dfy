/** src/services/instructionService.js: the instruction aggregate under a
    recipe. Each write is a read, the checks in a fixed order, then the store
    mutation; each is specified by a transition function of the old table,
    and the properties of the aggregate are proved about those functions. */
module InstructionService {
  import opened Common
  import opened RecipeRepo
  import opened InstructionRepo

  const RecipeNotFound := "Recipe not found"
  const InstructionNotFound := "Instruction not found"
  const OwnRecipesOnly := "You can only add instructions to your own recipes"
  const StepExists := "Step number already exists for this recipe"

  /** The fields `createInstruction` takes from the request body. */
  datatype InstructionData = InstructionData(stepNumber: int, description: string)

  /** The outcome of a write together with the instruction table after it. */
  datatype Transition = Transition(result: Result<Instruction>, rows: map<int, Instruction>)

  /** The ownership test of the instruction operations: ADMIN, or the owner of
      the parent recipe. */
  predicate OwnerOrAdmin(userId: int, role: Role, ownerId: int) {
    role == Admin || ownerId == userId
  }

  /** `createInstruction`, with `freshId` the id storage hands out next. */
  function CreateTransition(recipes: map<int, Recipe>, rows: map<int, Instruction>, freshId: int,
                            recipeId: int, data: InstructionData, userId: int, role: Role): Transition
  {
    if recipeId !in recipes then Transition(Err(NotFound(RecipeNotFound)), rows)
    else if !OwnerOrAdmin(userId, role, recipes[recipeId].userId) then Transition(Err(Forbidden(OwnRecipesOnly)), rows)
    else if StepTaken(rows, recipeId, data.stepNumber) then Transition(Err(Conflict(StepExists)), rows)
    else
      var x := Instruction(freshId, recipeId, data.stepNumber, data.description);
      Transition(Ok(x), rows[freshId := x])
  }

  /** Whether an update moves instruction `id` onto a step a row of its recipe
      already holds. A falsy (zero) or unchanged step skips the test. */
  predicate StepClash(rows: map<int, Instruction>, id: int, u: InstructionUpdate) {
    && id in rows
    && u.stepNumber.Some? && u.stepNumber.value != 0
    && u.stepNumber.value != rows[id].stepNumber
    && StepTaken(rows, rows[id].recipeId, u.stepNumber.value)
  }

  /** `updateInstructionById`. */
  function UpdateTransition(rows: map<int, Instruction>, id: int, u: InstructionUpdate): Transition {
    if id !in rows then Transition(Err(NotFound(InstructionNotFound)), rows)
    else if StepClash(rows, id, u) then Transition(Err(Conflict(StepExists)), rows)
    else
      var x := ApplyInstructionUpdate(rows[id], u);
      Transition(Ok(x), rows[id := x])
  }

  /** `deleteInstructionById`. */
  function DeleteTransition(rows: map<int, Instruction>, id: int): Transition {
    if id !in rows then Transition(Err(NotFound(InstructionNotFound)), rows)
    else Transition(Ok(rows[id]), rows - {id})
  }

  // ---------------------------------------------------------------- queries

  /** `getInstructionsByRecipeId`: NotFound for a missing recipe, otherwise
      exactly its instructions in ascending step order. */
  method GetInstructionsByRecipeId(recipes: RecipeTable, table: InstructionTable, recipeId: int)
    returns (r: Result<seq<Instruction>>)
    requires recipes.Valid() && table.Valid()
    ensures recipeId !in recipes.rows ==> r == Err(NotFound(RecipeNotFound))
    ensures recipeId in recipes.rows ==> r.Ok? && IsStepListing(table.rows, recipeId, r.value)
  {
    if recipes.FindRecipeById(recipeId).None? {
      return Err(NotFound(RecipeNotFound));
    }
    var listing := table.FindInstructionsByRecipeId(recipeId);
    r := Ok(listing);
  }

  /** `getInstructionById`: the row with its parent's owner, or NotFound. */
  function GetInstructionById(recipes: RecipeTable, table: InstructionTable, id: int): (r: Result<InstructionWithRecipe>)
    reads recipes, table
    requires recipes.Valid() && table.Valid()
    ensures r.Ok? <==> id in table.rows
    ensures r.Ok? ==> r.value.instruction == table.rows[id]
    ensures r.Ok? ==> (r.value.recipe.None? <==> table.rows[id].recipeId !in recipes.rows)
    ensures r.Ok? && table.rows[id].recipeId in recipes.rows ==>
      r.value.recipe == Some(RecipeRef(table.rows[id].recipeId, recipes.rows[table.rows[id].recipeId].title,
                                       recipes.rows[table.rows[id].recipeId].userId))
    ensures r.Err? ==> r.error == NotFound(InstructionNotFound)
  {
    match table.FindInstructionById(recipes, id)
    case None => Err(NotFound(InstructionNotFound))
    case Some(info) => Ok(info)
  }

  // ---------------------------------------------------------------- writes

  /** `createInstruction`: NotFound, then Forbidden, then Conflict, else one new row. */
  method CreateInstruction(recipes: RecipeTable, table: InstructionTable, recipeId: int,
                           data: InstructionData, userId: int, role: Role) returns (r: Result<Instruction>)
    requires recipes.Valid() && table.Valid()
    modifies table
    ensures table.Valid()
    ensures Transition(r, table.rows) ==
      CreateTransition(recipes.rows, old(table.rows), old(table.nextId), recipeId, data, userId, role)
  {
    var recipe := recipes.FindRecipeById(recipeId);
    if recipe.None? {
      return Err(NotFound(RecipeNotFound));
    }
    if role != Admin && recipe.value.userId != userId {
      return Err(Forbidden(OwnRecipesOnly));
    }
    var existing := table.FindInstructionByRecipeAndStep(recipeId, data.stepNumber);
    if existing.Some? {
      return Err(Conflict(StepExists));
    }
    var x := table.CreateInstruction(recipeId, data.stepNumber, data.description);
    r := Ok(x);
  }

  /** `updateInstructionById`, on a body that passed `validateInstructionUpdate`
      (so a given step number is at least 1). */
  method UpdateInstructionById(table: InstructionTable, id: int, u: InstructionUpdate) returns (r: Result<Instruction>)
    requires table.Valid()
    requires u.stepNumber.Some? ==> u.stepNumber.value >= 1
    modifies table
    ensures table.Valid()
    ensures Transition(r, table.rows) == UpdateTransition(old(table.rows), id, u)
  {
    if id !in table.rows {
      return Err(NotFound(InstructionNotFound));
    }
    var current := table.rows[id];
    if u.stepNumber.Some? && u.stepNumber.value != 0 && u.stepNumber.value != current.stepNumber {
      var existing := table.FindInstructionByRecipeAndStep(current.recipeId, u.stepNumber.value);
      if existing.Some? {
        return Err(Conflict(StepExists));
      }
    }
    var x := table.UpdateInstruction(id, u);
    r := Ok(x);
  }

  /** `deleteInstructionById`. */
  method DeleteInstructionById(table: InstructionTable, id: int) returns (r: Result<Instruction>)
    requires table.Valid()
    modifies table
    ensures table.Valid()
    ensures Transition(r, table.rows) == DeleteTransition(old(table.rows), id)
  {
    if id !in table.rows {
      return Err(NotFound(InstructionNotFound));
    }
    var x := table.DeleteInstruction(id);
    r := Ok(x);
  }

  // ---------------------------------------------------------------- properties

  /** The checks of `createInstruction` run in order: a missing recipe is
      NotFound whoever asks, a stranger is Forbidden even on a taken step, and
      only an authorised caller can meet Conflict. */
  lemma CreateCheckOrder(recipes: map<int, Recipe>, rows: map<int, Instruction>, freshId: int,
                         recipeId: int, data: InstructionData, userId: int, role: Role)
    ensures var t := CreateTransition(recipes, rows, freshId, recipeId, data, userId, role);
      && (recipeId !in recipes ==> t.result == Err(NotFound(RecipeNotFound)))
      && (recipeId in recipes && !OwnerOrAdmin(userId, role, recipes[recipeId].userId) ==>
            t.result == Err(Forbidden(OwnRecipesOnly)))
      && (t.result == Err(Conflict(StepExists)) ==>
            recipeId in recipes && OwnerOrAdmin(userId, role, recipes[recipeId].userId))
      && (t.result.Err? ==> t.rows == rows)
  {
  }

  /** A successful create adds exactly one row, under the fresh id, with the
      given recipe, step and description, and keeps steps unique per recipe. */
  lemma {:induction false} CreateKeepsStepsUnique(recipes: map<int, Recipe>, rows: map<int, Instruction>, freshId: int,
                                                  recipeId: int, data: InstructionData, userId: int, role: Role)
    requires StepsUnique(rows) && freshId !in rows
    ensures var t := CreateTransition(recipes, rows, freshId, recipeId, data, userId, role);
      && StepsUnique(t.rows)
      && (t.result.Ok? ==> t.rows == rows[freshId := Instruction(freshId, recipeId, data.stepNumber, data.description)])
  {
    var t := CreateTransition(recipes, rows, freshId, recipeId, data, userId, role);
    if t.result.Ok? {
      var x := Instruction(freshId, recipeId, data.stepNumber, data.description);
      assert !StepTaken(rows, recipeId, data.stepNumber);
      forall a, b | a in t.rows && b in t.rows && a != b && t.rows[a].recipeId == t.rows[b].recipeId
        ensures t.rows[a].stepNumber != t.rows[b].stepNumber
      {
        if a == freshId {
          assert t.rows[b] == rows[b];
        } else if b == freshId {
          assert t.rows[a] == rows[a];
        }
      }
    }
  }

  /** Two creations of one `(recipeId, stepNumber)`: once the first has
      succeeded, the second is refused with Conflict and writes nothing. */
  lemma {:induction false} RepeatedStepConflicts(recipes: map<int, Recipe>, rows: map<int, Instruction>,
                                                 id1: int, id2: int, recipeId: int,
                                                 first: InstructionData, second: InstructionData,
                                                 userId1: int, role1: Role, userId2: int, role2: Role)
    requires CreateTransition(recipes, rows, id1, recipeId, first, userId1, role1).result.Ok?
    requires second.stepNumber == first.stepNumber
    requires recipeId in recipes && OwnerOrAdmin(userId2, role2, recipes[recipeId].userId)
    ensures var after := CreateTransition(recipes, rows, id1, recipeId, first, userId1, role1).rows;
      CreateTransition(recipes, after, id2, recipeId, second, userId2, role2) ==
        Transition(Err(Conflict(StepExists)), after)
  {
    var after := CreateTransition(recipes, rows, id1, recipeId, first, userId1, role1).rows;
    assert after[id1].recipeId == recipeId && after[id1].stepNumber == second.stepNumber;
    assert StepTaken(after, recipeId, second.stepNumber);
  }

  /** Within the modelled fields (step number and description), an update
      keeps steps unique per recipe, changes only row `id`, and keeps its
      recipe. */
  lemma {:induction false} UpdateKeepsStepsUnique(rows: map<int, Instruction>, id: int, u: InstructionUpdate)
    requires StepsUnique(rows)
    requires u.stepNumber.Some? ==> u.stepNumber.value >= 1
    ensures var t := UpdateTransition(rows, id, u);
      && StepsUnique(t.rows)
      && t.rows.Keys == rows.Keys
      && (forall k :: k in rows && k != id ==> t.rows[k] == rows[k])
      && (id in rows ==> t.rows[id].recipeId == rows[id].recipeId)
  {
    var t := UpdateTransition(rows, id, u);
    if t.result.Ok? {
      forall a, b | a in t.rows && b in t.rows && a != b && t.rows[a].recipeId == t.rows[b].recipeId
        ensures t.rows[a].stepNumber != t.rows[b].stepNumber
      {
        if a == id {
          assert t.rows[b] == rows[b];
          if u.stepNumber.Some? && u.stepNumber.value != rows[id].stepNumber {
            assert !StepTaken(rows, rows[id].recipeId, u.stepNumber.value);
          }
        } else if b == id {
          assert t.rows[a] == rows[a];
          if u.stepNumber.Some? && u.stepNumber.value != rows[id].stepNumber {
            assert !StepTaken(rows, rows[id].recipeId, u.stepNumber.value);
          }
        }
      }
    }
  }

  /** Keeping the current step number skips the conflict test: such an update
      succeeds although its own row holds that step. */
  lemma SameStepSkipsConflictCheck(rows: map<int, Instruction>, id: int, u: InstructionUpdate)
    requires id in rows && u.stepNumber == Some(rows[id].stepNumber)
    ensures UpdateTransition(rows, id, u).result == Ok(ApplyInstructionUpdate(rows[id], u))
  {
  }

  /** Moving to a step held by a sibling of the same recipe is a Conflict and
      writes nothing. */
  lemma {:induction false} SiblingStepConflicts(rows: map<int, Instruction>, id: int, sibling: int, u: InstructionUpdate)
    requires id in rows && sibling in rows && sibling != id
    requires rows[sibling].recipeId == rows[id].recipeId
    requires u.stepNumber == Some(rows[sibling].stepNumber)
    requires rows[sibling].stepNumber != 0 && rows[sibling].stepNumber != rows[id].stepNumber
    ensures UpdateTransition(rows, id, u) == Transition(Err(Conflict(StepExists)), rows)
  {
    assert StepTaken(rows, rows[id].recipeId, rows[sibling].stepNumber);
  }

  /** A delete removes that instruction only; deleting it again is NotFound. */
  lemma DeleteRemovesOnlyThatRow(rows: map<int, Instruction>, id: int)
    requires id in rows
    ensures var t := DeleteTransition(rows, id);
      && t.result == Ok(rows[id])
      && t.rows.Keys == rows.Keys - {id}
      && (forall k :: k in t.rows ==> t.rows[k] == rows[k])
      && DeleteTransition(t.rows, id) == Transition(Err(NotFound(InstructionNotFound)), t.rows)
  {
  }
}
