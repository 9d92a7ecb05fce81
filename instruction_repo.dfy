/** The instruction table (src/repositories/instructionRepo.js): rows keyed
    by `instructionId`, with `(recipeId, stepNumber)` a composite unique key. */
module InstructionRepo {
  import opened Common
  import opened RecipeRepo

  datatype Instruction = Instruction(instructionId: int, recipeId: int, stepNumber: int, description: string)

  /** A partial update (`stepNumber` and `description` only). */
  datatype InstructionUpdate = InstructionUpdate(stepNumber: Option<int>, description: Option<string>)

  /** The parent recipe fields `findInstructionById` includes. */
  datatype RecipeRef = RecipeRef(recipeId: int, title: string, userId: int)

  /** A row together with its included parent; the parent is absent only if
      the recipe row is gone (recipe deletion does not cascade here). */
  datatype InstructionWithRecipe = InstructionWithRecipe(instruction: Instruction, recipe: Option<RecipeRef>)

  function ApplyInstructionUpdate(x: Instruction, u: InstructionUpdate): (x': Instruction)
    ensures x'.instructionId == x.instructionId && x'.recipeId == x.recipeId
    ensures x'.stepNumber == (if u.stepNumber.Some? then u.stepNumber.value else x.stepNumber)
    ensures x'.description == (if u.description.Some? then u.description.value else x.description)
  {
    Instruction(x.instructionId, x.recipeId,
      if u.stepNumber.Some? then u.stepNumber.value else x.stepNumber,
      if u.description.Some? then u.description.value else x.description)
  }

  /** Whether `(recipeId, step)` is held by some row. */
  predicate StepTaken(rows: map<int, Instruction>, recipeId: int, step: int) {
    exists id :: id in rows && rows[id].recipeId == recipeId && rows[id].stepNumber == step
  }

  /** No two rows of one recipe share a step number. */
  ghost predicate StepsUnique(rows: map<int, Instruction>) {
    forall a, b :: a in rows && b in rows && a != b && rows[a].recipeId == rows[b].recipeId ==>
      rows[a].stepNumber != rows[b].stepNumber
  }

  ghost predicate StrictlyAscending(s: seq<Instruction>) {
    forall i, j :: 0 <= i < j < |s| ==> s[i].stepNumber < s[j].stepNumber
  }

  /** `rows` holds `x` under its own id. */
  predicate Stored(rows: map<int, Instruction>, x: Instruction) {
    x.instructionId in rows && rows[x.instructionId] == x
  }

  /** `s` is the listing of `recipeId`'s instructions: every one of them, nothing
      else, in ascending step order. */
  ghost predicate IsStepListing(rows: map<int, Instruction>, recipeId: int, s: seq<Instruction>) {
    && (forall x :: x in s <==> Stored(rows, x) && x.recipeId == recipeId)
    && StrictlyAscending(s)
  }

  /** The listing is determined by the table: two listings of one recipe are equal. */
  lemma {:induction false} ListingUnique(a: seq<Instruction>, b: seq<Instruction>)
    requires StrictlyAscending(a) && StrictlyAscending(b)
    requires forall x :: x in a <==> x in b
    ensures a == b
    decreases |a|
  {
    assert b != [] ==> b[0] in b;
    if a != [] {
      assert a[0] in b;
      AscendingTail(a);
      AscendingTail(b);
      // the least step comes first in both
      assert b[0] in a;
      assert a[0] == b[0];
      ListingUnique(a[1..], b[1..]);
      assert a == [a[0]] + a[1..] && b == [b[0]] + b[1..];
    }
  }

  /** Past its head, an ascending listing holds only later steps. */
  lemma AscendingTail(a: seq<Instruction>)
    requires StrictlyAscending(a) && a != []
    ensures StrictlyAscending(a[1..])
    ensures forall x :: x in a <==> x == a[0] || x in a[1..]
    ensures forall x :: x in a[1..] ==> x.stepNumber > a[0].stepNumber
  {
    assert a == [a[0]] + a[1..];
    forall x | x in a[1..] ensures x.stepNumber > a[0].stepNumber {
      var k :| 0 <= k < |a[1..]| && a[1..][k] == x;
      assert a[k + 1] == x;
    }
  }

  lemma NonEmptySetHasMember(s: set<int>)
    ensures s != {} ==> exists x :: x in s
  {
    if forall x :: x !in s {
      assert s == {};
    }
  }

  class InstructionTable {
    var rows: map<int, Instruction>
    var nextId: int

    ghost predicate Valid()
      reads this
    {
      && nextId >= 1
      && (forall id :: id in rows ==> rows[id].instructionId == id && 1 <= id < nextId)
      && StepsUnique(rows)
    }

    constructor ()
      ensures Valid() && rows == map[]
    {
      rows := map[];
      nextId := 1;
    }

    /** `findInstructionByRecipeAndStep`: a lookup on the composite key, which
        finds at most one row. */
    function FindInstructionByRecipeAndStep(recipeId: int, step: int): (r: Option<Instruction>)
      reads this
      requires Valid()
      ensures r.Some? <==> StepTaken(rows, recipeId, step)
      ensures r.Some? ==> r.value.instructionId in rows && rows[r.value.instructionId] == r.value
      ensures r.Some? ==> r.value.recipeId == recipeId && r.value.stepNumber == step
      ensures r.Some? ==> forall id :: id in rows && rows[id].recipeId == recipeId && rows[id].stepNumber == step ==>
        id == r.value.instructionId
    {
      if exists id :: id in rows && rows[id].recipeId == recipeId && rows[id].stepNumber == step then
        var id :| id in rows && rows[id].recipeId == recipeId && rows[id].stepNumber == step;
        Some(rows[id])
      else None
    }

    /** `findInstructionById`: the row with the `recipeId`, `title` and `userId`
        of its parent recipe. */
    function FindInstructionById(recipes: RecipeTable, id: int): (r: Option<InstructionWithRecipe>)
      reads this, recipes
      requires Valid()
      ensures r.Some? <==> id in rows
      ensures r.Some? ==> r.value.instruction == rows[id]
      ensures r.Some? ==> (r.value.recipe.Some? <==> rows[id].recipeId in recipes.rows)
      ensures r.Some? && r.value.recipe.Some? ==>
        var p := recipes.rows[rows[id].recipeId];
        r.value.recipe.value == RecipeRef(p.recipeId, p.title, p.userId)
    {
      if id !in rows then None
      else
        var x := rows[id];
        var parent :=
          if x.recipeId in recipes.rows then
            var p := recipes.rows[x.recipeId];
            Some(RecipeRef(p.recipeId, p.title, p.userId))
          else None;
        Some(InstructionWithRecipe(x, parent))
    }

    /** The id in `ids` whose row has the smallest step number. */
    method LowestStep(ids: set<int>) returns (best: int)
      requires Valid() && ids != {} && ids <= rows.Keys
      ensures best in ids
      ensures forall id :: id in ids ==> rows[best].stepNumber <= rows[id].stepNumber
    {
      NonEmptySetHasMember(ids);
      best :| best in ids;
      var rest := ids - {best};
      while rest != {}
        invariant rest <= ids && best in ids
        invariant forall id :: id in ids - rest ==> rows[best].stepNumber <= rows[id].stepNumber
        decreases rest
      {
        NonEmptySetHasMember(rest);
        var id :| id in rest;
        if rows[id].stepNumber < rows[best].stepNumber {
          best := id;
        }
        rest := rest - {id};
      }
    }

    /** `findInstructionsByRecipeId`: that recipe's rows ordered by ascending
        `stepNumber`. */
    method FindInstructionsByRecipeId(recipeId: int) returns (s: seq<Instruction>)
      requires Valid()
      ensures IsStepListing(rows, recipeId, s)
    {
      var pending := set id | id in rows && rows[id].recipeId == recipeId;
      s := [];
      while pending != {}
        invariant pending <= rows.Keys
        invariant forall id :: id in pending ==> rows[id].recipeId == recipeId
        invariant forall x :: x in s <==>
          (Stored(rows, x) && x.recipeId == recipeId && x.instructionId !in pending)
        invariant StrictlyAscending(s)
        invariant forall i, id :: 0 <= i < |s| && id in pending ==> s[i].stepNumber < rows[id].stepNumber
        decreases pending
      {
        var next := LowestStep(pending);
        var x := rows[next];
        forall id | id in pending && id != next ensures x.stepNumber < rows[id].stepNumber {
          assert x.stepNumber != rows[id].stepNumber;
        }
        s := s + [x];
        pending := pending - {next};
      }
    }

    /** `createInstruction`: one new row holding exactly the given fields. */
    method CreateInstruction(recipeId: int, step: int, description: string) returns (x: Instruction)
      requires Valid() && !StepTaken(rows, recipeId, step)
      modifies this
      ensures Valid()
      ensures x.instructionId == old(nextId) && x.instructionId !in old(rows)
      ensures x == Instruction(x.instructionId, recipeId, step, description)
      ensures rows == old(rows)[x.instructionId := x]
    {
      x := Instruction(nextId, recipeId, step, description);
      rows := rows[nextId := x];
      nextId := nextId + 1;
    }

    /** `updateInstruction`: rewrites only the row with that id. */
    method UpdateInstruction(id: int, u: InstructionUpdate) returns (x: Instruction)
      requires Valid() && id in rows
      requires u.stepNumber.Some? && u.stepNumber.value != rows[id].stepNumber ==>
        !StepTaken(rows, rows[id].recipeId, u.stepNumber.value)
      modifies this
      ensures Valid()
      ensures x == ApplyInstructionUpdate(old(rows[id]), u)
      ensures rows == old(rows)[id := x]
    {
      x := ApplyInstructionUpdate(rows[id], u);
      rows := rows[id := x];
    }

    /** `deleteInstruction`: removes only the row with that id. */
    method DeleteInstruction(id: int) returns (x: Instruction)
      requires Valid() && id in rows
      modifies this
      ensures Valid()
      ensures x == old(rows[id]) && rows == old(rows) - {id}
    {
      x := rows[id];
      rows := rows - {id};
    }
  }
}
