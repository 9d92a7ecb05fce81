/** The ownership gate of src/controllers/instructionController.js, which the
    update and delete handlers apply between the lookup and the write. */
module InstructionController {
  import opened Common
  import opened Authorize
  import opened RecipeRepo
  import opened InstructionRepo
  import opened InstructionService

  const ModifyOwnOnly := "You can only modify instructions for your own recipes"
  const DeleteOwnOnly := "You can only delete instructions for your own recipes"
  /** What the handler's error path reports when it reads the owner of a
      parent that is not there (a null dereference). */
  const ParentMissing := "Cannot read properties of null (reading 'userId')"

  /** `req.user.role !== 'ADMIN' && instruction.recipe.userId !== req.user.userId`.
      The owner compared against is the parent recipe's `userId`; an ADMIN
      never reads it (short-circuit), anyone else fails on a missing parent. */
  function OwnerGate(caller: Identity, parent: Option<RecipeRef>, forbidden: string): (d: Decision)
    ensures caller.role == Admin ==> d == Allow
    ensures caller.role != Admin && parent.None? ==> d == Deny(ServerError(ParentMissing))
    ensures caller.role != Admin && parent.Some? ==>
      (d == Allow <==> parent.value.userId == caller.userId)
    ensures d != Allow ==> d == Deny(Forbidden(forbidden)) || d == Deny(ServerError(ParentMissing))
  {
    if caller.role == Admin then Allow
    else if parent.None? then Deny(ServerError(ParentMissing))
    else if parent.value.userId != caller.userId then Deny(Forbidden(forbidden))
    else Allow
  }

  /** The controller's gate is the service's owner-or-admin test on the
      parent's owner, and, for a truthy owner, has the verdict of the
      `requireOwnershipOrAdmin` guard. */
  lemma OwnerGateMatchesGuards(caller: Identity, parent: RecipeRef, forbidden: string)
    ensures OwnerGate(caller, Some(parent), forbidden) == Allow <==>
      OwnerOrAdmin(caller.userId, caller.role, parent.userId)
    ensures parent.userId != 0 ==>
      SameVerdict(OwnerGate(caller, Some(parent), forbidden), RequireOwnershipOrAdmin(Some(caller), Some(parent.userId)))
  {
  }

  /** Where they differ: an owner id of 0 is compared by the gate but is a
      configuration fault (500) for the guard. */
  lemma ZeroOwnerDiffers(caller: Identity, parent: RecipeRef, forbidden: string)
    requires caller.role == User && caller.userId == 0 && parent.userId == 0
    ensures OwnerGate(caller, Some(parent), forbidden) == Allow
    ensures RequireOwnershipOrAdmin(Some(caller), Some(parent.userId)) == Deny(ServerError(OwnershipNotConfigured))
  {
  }

  /** `updateInstructionHandler` after `authenticate` and
      `validateInstructionUpdate`: NotFound before the gate, the gate before
      any write, and an allowed caller gets the service update. */
  method UpdateInstructionHandler(recipes: RecipeTable, table: InstructionTable, caller: Identity,
                                  id: int, u: InstructionUpdate) returns (r: Result<Instruction>)
    requires recipes.Valid() && table.Valid()
    requires u.stepNumber.Some? ==> u.stepNumber.value >= 1
    modifies table
    ensures table.Valid()
    ensures id !in old(table.rows) ==> r == Err(NotFound(InstructionNotFound)) && table.rows == old(table.rows)
    ensures id in old(table.rows) ==>
      var gate := OwnerGate(caller, old(table.FindInstructionById(recipes, id)).value.recipe, ModifyOwnOnly);
      && (gate.Deny? ==> r == Err(gate.error) && table.rows == old(table.rows))
      && (gate == Allow ==> Transition(r, table.rows) == UpdateTransition(old(table.rows), id, u))
  {
    var found := GetInstructionById(recipes, table, id);
    if found.Err? {
      return Err(found.error);
    }
    var gate := OwnerGate(caller, found.value.recipe, ModifyOwnOnly);
    if gate.Deny? {
      return Err(gate.error);
    }
    r := UpdateInstructionById(table, id, u);
  }

  /** `deleteInstructionHandler` after `authenticate`. */
  method DeleteInstructionHandler(recipes: RecipeTable, table: InstructionTable, caller: Identity, id: int)
    returns (r: Result<Instruction>)
    requires recipes.Valid() && table.Valid()
    modifies table
    ensures table.Valid()
    ensures id !in old(table.rows) ==> r == Err(NotFound(InstructionNotFound)) && table.rows == old(table.rows)
    ensures id in old(table.rows) ==>
      var gate := OwnerGate(caller, old(table.FindInstructionById(recipes, id)).value.recipe, DeleteOwnOnly);
      && (gate.Deny? ==> r == Err(gate.error) && table.rows == old(table.rows))
      && (gate == Allow ==> Transition(r, table.rows) == DeleteTransition(old(table.rows), id))
  {
    var found := GetInstructionById(recipes, table, id);
    if found.Err? {
      return Err(found.error);
    }
    var gate := OwnerGate(caller, found.value.recipe, DeleteOwnOnly);
    if gate.Deny? {
      return Err(gate.error);
    }
    r := DeleteInstructionById(table, id);
  }
}
