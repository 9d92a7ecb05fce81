/** The user table (src/repositories/userRepo.js): rows keyed by `userId`,
    with `email` and `username` unique keys. Every query but the login lookup
    selects the public projection, which has no password field. */
module UserRepo {
  import opened Common
  import opened RecipeRepo
  import opened InstructionRepo

  /** A stored user; `password` holds the hash. */
  datatype UserRow = UserRow(userId: int, username: string, email: string, password: string, role: Role)

  /** The `select` of every outward query: the row without its password. */
  datatype PublicUser = PublicUser(userId: int, username: string, email: string, role: Role)

  /** The data of `createUser`. */
  datatype NewUser = NewUser(username: string, email: string, password: string, role: Role)

  /** The data of `updateUser`: every given field is written. */
  datatype UserUpdate = UserUpdate(username: Option<string>, email: Option<string>, password: Option<string>)

  /** A recipe of `getUserRecipes` with its instructions in step order. */
  datatype RecipeWithInstructions = RecipeWithInstructions(recipe: Recipe, instructions: seq<Instruction>)

  function Project(u: UserRow): (p: PublicUser)
    ensures p.userId == u.userId && p.username == u.username && p.email == u.email && p.role == u.role
  {
    PublicUser(u.userId, u.username, u.email, u.role)
  }

  function ApplyUserUpdate(u: UserRow, d: UserUpdate): (u': UserRow)
    ensures u'.userId == u.userId && u'.role == u.role
    ensures u'.username == (if d.username.Some? then d.username.value else u.username)
    ensures u'.email == (if d.email.Some? then d.email.value else u.email)
    ensures u'.password == (if d.password.Some? then d.password.value else u.password)
  {
    UserRow(u.userId,
      if d.username.Some? then d.username.value else u.username,
      if d.email.Some? then d.email.value else u.email,
      if d.password.Some? then d.password.value else u.password,
      u.role)
  }

  predicate EmailIn(rows: map<int, UserRow>, email: string) {
    exists id :: id in rows && rows[id].email == email
  }

  predicate UsernameIn(rows: map<int, UserRow>, username: string) {
    exists id :: id in rows && rows[id].username == username
  }

  /** The two unique keys of the user table: no email and no username is
      held by two rows. */
  predicate KeysUnique(rows: map<int, UserRow>) {
    && (forall a, b :: a in rows && b in rows && rows[a].email == rows[b].email ==> a == b)
    && (forall a, b :: a in rows && b in rows && rows[a].username == rows[b].username ==> a == b)
  }

  class UserTable {
    var rows: map<int, UserRow>
    var nextId: int

    ghost predicate Valid()
      reads this
    {
      && nextId >= 1
      && (forall id :: id in rows ==> rows[id].userId == id && 1 <= id < nextId)
      && KeysUnique(rows)
    }

    constructor ()
      ensures Valid() && rows == map[]
    {
      rows := map[];
      nextId := 1;
    }

    /** `findUserByEmail`: the one row with that email, password included. */
    function FindUserByEmail(email: string): (r: Option<UserRow>)
      reads this
      requires Valid()
      ensures r.Some? <==> EmailIn(rows, email)
      ensures r.Some? ==> r.value.userId in rows && rows[r.value.userId] == r.value && r.value.email == email
    {
      if exists id :: id in rows && rows[id].email == email then
        var id :| id in rows && rows[id].email == email;
        Some(rows[id])
      else None
    }

    /** `findUserById`: the public projection of the row. */
    function FindUserById(userId: int): (r: Option<PublicUser>)
      reads this
      requires Valid()
      ensures r.Some? <==> userId in rows
      ensures r.Some? ==> r.value == Project(rows[userId]) && r.value.userId == userId
    {
      if userId in rows then Some(Project(rows[userId])) else None
    }

    /** `findUserByUsername`: the public projection of the one row with that username. */
    function FindUserByUsername(username: string): (r: Option<PublicUser>)
      reads this
      requires Valid()
      ensures r.Some? <==> UsernameIn(rows, username)
      ensures r.Some? ==> r.value.userId in rows && r.value == Project(rows[r.value.userId]) && r.value.username == username
    {
      if exists id :: id in rows && rows[id].username == username then
        var id :| id in rows && rows[id].username == username;
        Some(Project(rows[id]))
      else None
    }

    /** `createUser`: a new row under a fresh id; the result has no password.
        The unique keys are free because the service checked them first. */
    method CreateUser(data: NewUser) returns (p: PublicUser)
      requires Valid() && !EmailIn(rows, data.email) && !UsernameIn(rows, data.username)
      modifies this
      ensures Valid()
      ensures p.userId == old(nextId) && p.userId !in old(rows)
      ensures rows == old(rows)[p.userId := UserRow(p.userId, data.username, data.email, data.password, data.role)]
      ensures p == Project(rows[p.userId])
    {
      var row := UserRow(nextId, data.username, data.email, data.password, data.role);
      rows := rows[nextId := row];
      nextId := nextId + 1;
      p := Project(row);
    }

    /** `updateUser`: rewrites that one row; the result has no password. */
    method UpdateUser(userId: int, d: UserUpdate) returns (p: PublicUser)
      requires Valid() && userId in rows
      requires d.email.Some? && d.email.value != rows[userId].email ==> !EmailIn(rows, d.email.value)
      requires d.username.Some? && d.username.value != rows[userId].username ==> !UsernameIn(rows, d.username.value)
      modifies this
      ensures Valid()
      ensures rows == old(rows)[userId := ApplyUserUpdate(old(rows[userId]), d)]
      ensures p == Project(rows[userId])
    {
      rows := rows[userId := ApplyUserUpdate(rows[userId], d)];
      p := Project(rows[userId]);
    }

    /** `deleteUser`: removes only that row (Prisma's delete returns the whole row). */
    method DeleteUser(userId: int) returns (u: UserRow)
      requires Valid() && userId in rows
      modifies this
      ensures Valid()
      ensures u == old(rows[userId]) && rows == old(rows) - {userId}
    {
      u := rows[userId];
      rows := rows - {userId};
    }
  }

  /** `getUserRecipes`: every recipe of `userId` once, each with its
      instructions in ascending step order. Storage gives the recipes in no
      particular order. */
  /** `e` is one of `userId`'s stored recipes with its step listing. */
  ghost predicate OwnedEntry(recipeRows: map<int, Recipe>, instructionRows: map<int, Instruction>, userId: int, e: RecipeWithInstructions) {
    && e.recipe.recipeId in recipeRows
    && recipeRows[e.recipe.recipeId] == e.recipe
    && e.recipe.userId == userId
    && IsStepListing(instructionRows, e.recipe.recipeId, e.instructions)
  }

  method GetUserRecipes(recipes: RecipeTable, instructions: InstructionTable, userId: int)
    returns (s: seq<RecipeWithInstructions>)
    requires recipes.Valid() && instructions.Valid()
    ensures forall i :: 0 <= i < |s| ==> OwnedEntry(recipes.rows, instructions.rows, userId, s[i])
    ensures forall i, j :: 0 <= i < j < |s| ==> s[i].recipe.recipeId != s[j].recipe.recipeId
    ensures forall id :: id in recipes.rows && recipes.rows[id].userId == userId ==>
      exists i :: 0 <= i < |s| && s[i].recipe.recipeId == id
  {
    var pending := set id | id in recipes.rows && recipes.rows[id].userId == userId;
    s := [];
    while pending != {}
      invariant pending <= recipes.rows.Keys
      invariant forall id :: id in pending ==> recipes.rows[id].userId == userId
      invariant forall i :: 0 <= i < |s| ==>
        OwnedEntry(recipes.rows, instructions.rows, userId, s[i]) && s[i].recipe.recipeId !in pending
      invariant forall i, j :: 0 <= i < j < |s| ==> s[i].recipe.recipeId != s[j].recipe.recipeId
      invariant forall id :: id in recipes.rows && recipes.rows[id].userId == userId && id !in pending ==>
        exists i :: 0 <= i < |s| && s[i].recipe.recipeId == id
      decreases pending
    {
      NonEmptySetHasMember(pending);
      var id :| id in pending;
      var steps := instructions.FindInstructionsByRecipeId(id);
      ghost var before := s;
      s := s + [RecipeWithInstructions(recipes.rows[id], steps)];
      assert s[|s| - 1].recipe.recipeId == id;
      assert forall i :: 0 <= i < |before| ==> s[i] == before[i];
      pending := pending - {id};
    }
  }
}
