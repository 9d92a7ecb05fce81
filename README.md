# Recipe API: a verified model of its decision and integrity core

This project models the core of an Express/Prisma recipe service in Dafny: who may
act on what, how a bearer token becomes an identity, and how the services keep
the tables consistent. The service has users, recipes, the numbered
instructions of a recipe and an ingredient catalogue. The model covers:

- the role and ownership guards (`authorizeRole`, `requireAdmin`, `requireOwnershipOrAdmin`);
- bearer-token authentication, strict (`authenticate`) and lenient (`optionalAuthenticate`);
- registration, login, the caller's profile and its update, and the claims a token carries;
- the instruction aggregate: listing in step order, creation and update under the
  unique `(recipeId, stepNumber)` key, deletion, and the ownership gate of the
  update and delete handlers;
- the recipe and ingredient services (existence check, then write);
- the request-body validators of instructions, recipes and ingredients, including
  `trim()` and the ingredient-name uniqueness probe.

Each table is a class over a map from id to row, with an id counter and a
`Valid()` invariant. `Valid()` says each row sits under its own id and the
table's unique keys hold: user email, user username, ingredient name, and the
instruction key `(recipeId, stepNumber)`.

Services and handlers are methods that take the tables they touch. The
instruction and user services, and the handlers in front of them, are
specified by transition functions of the old table that return the result
together with the new rows; the properties are lemmas about those functions.
The recipe and ingredient services, which only check existence before
writing, state their new rows directly in terms of the old ones.

Parts outside the model enter as parameters:

- bcrypt's `hash` and `compare` are functions of type `string -> string` and
  `(string, string) -> bool`.
- jwt's `sign` and `verify` are `Payload -> string` and `string -> VerifyOutcome`.
  `VerifyOutcome` is either the decoded claims or the name of the error thrown.

The route tables decide which guard runs before which handler. Where that
order matters to a handler, it appears as a precondition. For example, the
instruction update service requires a given step number to be at least 1,
which `validateInstructionUpdate` has already checked.

Where the code and the design it was written against disagree, the model follows the code:

- `authorizeRole` grants ADMIN nothing beyond the listed roles: an ADMIN is refused by a list without ADMIN (`Authorize.AuthorizeRoleHasNoAdminBypass`).
- `requireOwnershipOrAdmin` treats an owner id of 0 like a missing one and answers 500 (`InstructionController.ZeroOwnerDiffers`).
- The ingredient-name probe on update does not leave out the ingredient being updated, so resubmitting its own name is rejected (`ValidateIngredient.UpdateRejectsOwnName`).
- The owner of a new recipe is the `userId` of the request body, and the recipe update validator does not look at `userId`, so an update can reassign a recipe (`ValidateRecipe.UpdateCanReassignOwner`). Recipe update and delete check existence only, not ownership.
- The instruction handlers read `instruction.recipe.userId` with no null check. A non-admin acting on an instruction whose recipe row is gone gets a 500 (`InstructionController.OwnerGate`); an ADMIN never reads it.

## Model

| member | source | states |
|---|---|---|
| Authorize.AuthorizeRole | src/middleware/authorize.js:9-29 | no caller gives 401; a caller is allowed exactly when their role is in the list, otherwise 403 |
| Authorize.RequireAdmin | src/middleware/authorize.js:34-50 | no caller gives 401; non-ADMIN gives 403 "Admin access required"; allowed exactly for ADMIN |
| Authorize.RequireOwnershipOrAdmin | src/middleware/authorize.js:57-86 | 401 without a caller; ADMIN always allowed; non-admin with a missing or zero owner gets 500; otherwise allowed exactly when owner equals caller id, else 403 |
| Authorize.DesignedDecision | src/middleware/authorize.js:52-56 | the reference access rule: an ADMIN caller is always allowed and a missing caller is always 401 |
| Authorize.RequireAdminIsAuthorizeRoleAdmin | src/middleware/authorize.js:34-50 | `requireAdmin` has the verdict of `authorizeRole('ADMIN')` and of the reference rule for a required ADMIN role |
| Authorize.AuthorizeRoleHasNoAdminBypass | src/middleware/authorize.js:20-25 | an ADMIN caller is refused 403 by a role list without ADMIN, where the reference rule allows |
| Authorize.OwnershipGuardMatchesDesign | src/middleware/authorize.js:66-85 | with a non-zero owner, the ownership guard has the verdict of the reference rule |
| Authorize.AuthenticationPrecedesOtherChecks | src/middleware/authorize.js:12-17 | without a caller every guard answers 401, whatever the roles or owner |
| Auth.ExtractToken | src/middleware/auth.js:17-33 | absent or empty header: "No token provided"; no case-sensitive "Bearer " prefix: the format error; success exactly with the prefix, and header == "Bearer " + token |
| Auth.BearerRoundTrip | src/middleware/auth.js:33 | the header built from a token parses back to that token |
| Auth.VerifyFailure | src/middleware/auth.js:46-65 | JsonWebTokenError gives 401 "Invalid token", TokenExpiredError gives 401 "Token expired", any other error 500 |
| Auth.Authenticate | src/middleware/auth.js:12-66 | succeeds exactly for a Bearer header whose token the codec verifies, with identity `{userId, email, role}` of the claims; every failure is 401 or the 500 |
| Auth.AuthenticateBearer | src/middleware/auth.js:33-43 | for a well-formed header only the codec's verdict on the token decides |
| Auth.LowerCaseSchemeRejected | src/middleware/auth.js:25-30 | a "bearer " header is a format error |
| Auth.OptionalAuthenticate | src/middleware/auth.js:72-96 | never rejects; yields an identity exactly when `authenticate` would succeed, and the same one |
| Text.TrimFrom | src/middleware/validateInstruction.js:16 | where the leading whitespace ends: every skipped character is whitespace and the one reached is not |
| Text.TrimTo | src/middleware/validateInstruction.js:16 | where the trailing whitespace starts: every cut character is whitespace and the one before the cut is not |
| Text.Trim | src/middleware/validateInstruction.js:16 | a contiguous piece of the input with no whitespace at either end, everything cut off being whitespace |
| Text.TrimOfTrimmed | src/middleware/validateInstruction.js:16 | a value with no whitespace at either end is its own trim |
| Text.TrimIdempotent | src/middleware/validateInstruction.js:16 | trimming twice is trimming once |
| Text.TrimOfPadded | src/middleware/validateIngredient.js:10 | a trimmed value padded with whitespace on both sides trims back to itself |
| RecipeRepo.ApplyRecipeUpdate | src/repositories/recipeRepo.js:67-80 | every given field (title, description, times, servings, owner) is written and every absent one kept; the id never changes and the empty update changes nothing |
| RecipeRepo.ApplyRecipeUpdateIdempotent | src/repositories/recipeRepo.js:67-80 | applying the same update twice is applying it once |
| RecipeRepo.RecipeTable.FindRecipeById | src/repositories/recipeRepo.js:29-50 | found exactly when the id is stored, and then it is that row |
| RecipeRepo.RecipeTable.CreateRecipe | src/repositories/recipeRepo.js:53-65 | adds one row under a fresh id holding the data unchanged |
| RecipeRepo.RecipeTable.UpdateRecipe | src/repositories/recipeRepo.js:67-80 | rewrites only that row with the partial update |
| RecipeRepo.RecipeTable.DeleteRecipe | src/repositories/recipeRepo.js:82-86 | removes only that row and returns it |
| RecipeService.GetRecipeById | src/services/recipeService.js:10-20 | NotFound "Recipe not found" exactly for an absent id, otherwise that row |
| RecipeService.CreateNewRecipe | src/services/recipeService.js:22-24 | stores the data as given, owner id included, under a fresh id |
| RecipeService.UpdateRecipeById | src/services/recipeService.js:26-31 | absent id: NotFound and no write; otherwise only that row changes, by the update |
| RecipeService.DeleteRecipeById | src/services/recipeService.js:33-38 | absent id: NotFound and no write; otherwise only that row goes |
| IngredientRepo.ApplyIngredientUpdate | src/repositories/ingredientRepo.js:24-29 | a given name or unit replaces the stored one, the id is kept |
| IngredientRepo.IngredientTable.FindIngredientById | src/repositories/ingredientRepo.js:10-14 | found exactly when the id is stored |
| IngredientRepo.IngredientTable.FindIngredientByName | src/middleware/validateIngredient.js:17-19 | found exactly when some row has that exact name, and then it is that row |
| IngredientRepo.IngredientTable.CreateIngredient | src/repositories/ingredientRepo.js:17-21 | adds one row under a fresh id with the data unchanged, keeping names unique |
| IngredientRepo.IngredientTable.UpdateIngredient | src/repositories/ingredientRepo.js:24-29 | rewrites only that row |
| IngredientRepo.IngredientTable.DeleteIngredient | src/repositories/ingredientRepo.js:32-36 | removes only that row and returns it |
| IngredientService.GetIngredientById | src/services/ingredientService.js:10-20 | NotFound "Ingredient not found" exactly for an absent id |
| IngredientService.CreateNewIngredient | src/services/ingredientService.js:22-24 | stores the data unchanged under a fresh id |
| IngredientService.UpdateIngredientById | src/services/ingredientService.js:26-31 | absent id: NotFound and no write; otherwise only that ingredient changes |
| IngredientService.DeleteIngredientById | src/services/ingredientService.js:33-38 | absent id: NotFound and no write; otherwise only that ingredient goes |
| InstructionRepo.ApplyInstructionUpdate | src/repositories/instructionRepo.js:48-53 | an update keeps the id and the recipe |
| InstructionRepo.ListingUnique | src/repositories/instructionRepo.js:9-16 | two step-ordered listings with the same members are equal, so the listing is determined by the table |
| InstructionRepo.InstructionTable.FindInstructionByRecipeAndStep | src/repositories/instructionRepo.js:67-76 | found exactly when the `(recipeId, stepNumber)` key is taken, and then it is the one row holding it |
| InstructionRepo.InstructionTable.FindInstructionById | src/repositories/instructionRepo.js:21-34 | found exactly when stored; the parent `{recipeId, title, userId}` is included exactly when the recipe row exists |
| InstructionRepo.InstructionTable.LowestStep | src/repositories/instructionRepo.js:12-14 | picks from a non-empty set of rows one with the least step number |
| InstructionRepo.InstructionTable.FindInstructionsByRecipeId | src/repositories/instructionRepo.js:9-16 | returns exactly the recipe's instructions, in strictly ascending step order |
| InstructionRepo.InstructionTable.CreateInstruction | src/repositories/instructionRepo.js:39-43 | adds one row under the next id, keeping the step key unique |
| InstructionRepo.InstructionTable.UpdateInstruction | src/repositories/instructionRepo.js:48-53 | rewrites only that row |
| InstructionRepo.InstructionTable.DeleteInstruction | src/repositories/instructionRepo.js:58-62 | removes only that row and returns it |
| InstructionService.GetInstructionsByRecipeId | src/services/instructionService.js:10-20 | missing recipe: NotFound; otherwise exactly its instructions in ascending step order |
| InstructionService.GetInstructionById | src/services/instructionService.js:25-35 | NotFound "Instruction not found" exactly for an absent id; otherwise the row with its parent's owner, the parent being absent exactly when its recipe row is gone |
| InstructionService.CreateInstruction | src/services/instructionService.js:40-71 | follows the create transition: NotFound, then Forbidden, then Conflict, else one new row |
| InstructionService.UpdateInstructionById | src/services/instructionService.js:76-94 | follows the update transition: NotFound, then Conflict for a changed, non-zero step already taken in the recipe, else that row is rewritten |
| InstructionService.DeleteInstructionById | src/services/instructionService.js:99-104 | follows the delete transition: NotFound, else that row goes |
| InstructionService.CreateCheckOrder | src/services/instructionService.js:42-64 | a missing recipe is NotFound for anyone, a stranger is Forbidden even on a taken step, only an authorised caller meets Conflict, failures write nothing |
| InstructionService.CreateKeepsStepsUnique | src/services/instructionService.js:58-70 | a create keeps `(recipeId, stepNumber)` unique and on success adds exactly the new row |
| InstructionService.RepeatedStepConflicts | src/services/instructionService.js:58-64 | after one create of a step, a second create of that step in that recipe is Conflict and writes nothing |
| InstructionService.UpdateKeepsStepsUnique | src/services/instructionService.js:80-93 | within the modelled fields (step number and description), an update keeps the step key unique, changes only that row and keeps its recipe |
| InstructionService.SameStepSkipsConflictCheck | src/services/instructionService.js:81 | resubmitting the current step number is not a conflict |
| InstructionService.SiblingStepConflicts | src/services/instructionService.js:81-90 | moving onto a sibling's step is Conflict with no write |
| InstructionService.DeleteRemovesOnlyThatRow | src/services/instructionService.js:99-104 | delete removes only that row, and deleting it again is NotFound |
| InstructionController.OwnerGate | src/controllers/instructionController.js:99-104 | ADMIN passes; anyone else passes exactly when the parent recipe's owner is the caller, is 403 otherwise, and 500 when the parent is missing |
| InstructionController.OwnerGateMatchesGuards | src/controllers/instructionController.js:135-140 | the gate is the service's owner-or-admin test and, for a non-zero owner, has the verdict of `requireOwnershipOrAdmin` |
| InstructionController.ZeroOwnerDiffers | src/middleware/authorize.js:71-76 | an owner id of 0 passes the gate for its owner but is a 500 for the middleware guard |
| InstructionController.UpdateInstructionHandler | src/controllers/instructionController.js:96-106 | NotFound before the gate; a refused caller gets the gate's error and nothing is written; an allowed one gets the service update |
| InstructionController.DeleteInstructionHandler | src/controllers/instructionController.js:132-142 | NotFound before the gate; a refused caller gets the gate's error and nothing is removed; an allowed one gets the service delete |
| UserRepo.Project | src/repositories/userRepo.js:27-39 | the public user is the row without its password |
| UserRepo.ApplyUserUpdate | src/repositories/userRepo.js:78-91 | given fields replace the stored ones; id and role are kept |
| UserRepo.UserTable.FindUserByEmail | src/repositories/userRepo.js:9-22 | found exactly when some row has that email; the row includes the password |
| UserRepo.UserTable.FindUserById | src/repositories/userRepo.js:27-39 | found exactly when stored, as the public projection |
| UserRepo.UserTable.FindUserByUsername | src/repositories/userRepo.js:44-56 | found exactly when some row has that username, as the public projection |
| UserRepo.UserTable.CreateUser | src/repositories/userRepo.js:61-73 | adds one row under a fresh id, keeps both unique keys, returns it without password |
| UserRepo.UserTable.UpdateUser | src/repositories/userRepo.js:78-91 | rewrites only that row, keeps both unique keys, returns it without password |
| UserRepo.UserTable.DeleteUser | src/repositories/userRepo.js:96-100 | removes only that row |
| UserRepo.GetUserRecipes | src/repositories/userRepo.js:105-121 | every recipe of the user exactly once, each with its instructions in ascending step order |
| AuthService.TokenPayload | src/services/authService.js:150-160 | the signed claims are the user's id, email and role |
| AuthService.RegisterUser | src/services/authService.js:11-48 | follows the register transition: email taken is 409, then username taken is 409, else one USER row with the hashed password |
| AuthService.LoginUser | src/services/authService.js:53-82 | succeeds exactly when a row has the email and `compare` accepts the password; every failure is the same 401; the user is returned without password with a token for it |
| AuthService.GetCurrentUser | src/services/authService.js:87-97 | NotFound "User not found" exactly for an absent id, otherwise the public projection |
| AuthService.UpdateUserProfile | src/services/authService.js:102-138 | follows the profile transition: NotFound, then an email conflict, then a username conflict, else the row with a hashed password |
| AuthService.RegisterStoresHashedUser | src/services/authService.js:14-39 | email is checked before username; success exactly when both are free, storing role USER and hash(password); failures write nothing |
| AuthService.RegisterKeepsKeysUnique | src/services/authService.js:14-39 | registration keeps email and username unique |
| AuthService.IssuedTokenAuthenticates | src/services/authService.js:150-160 | a token the service issues authenticates as that user, given a codec that decodes what it signed |
| AuthService.LoginFailuresIndistinguishable | src/services/authService.js:57-70 | an unknown email and a wrong password get the same answer |
| AuthService.RegisteredUserCanLogIn | src/services/authService.js:53-82 | right after registering, login with the same password returns the registered user and token |
| AuthService.UpdateProfileTouchesOnlyCaller | src/services/authService.js:102-137 | only the caller's row changes, id and role are kept, a new password is stored hashed, both keys stay unique |
| AuthService.OwnKeysDoNotConflict | src/services/authService.js:112-129 | resubmitting one's own email and username is not a conflict |
| AuthController.RegisterFields | src/controllers/authController.js:12-18 | the handler forwards only username, email and password |
| AuthController.BuildUpdateData | src/controllers/authController.js:78-81 | each field of the update is present exactly when the body's value is non-empty |
| AuthController.RegisterHandler | src/controllers/authController.js:10-28 | registration of the forwarded fields |
| AuthController.UpdateMeHandler | src/controllers/authController.js:73-95 | the profile update of the authenticated caller, with the non-empty fields of the body |
| AuthController.RequestedRoleIgnored | src/controllers/authController.js:12 | a role in the body does not change the outcome; a new user is always USER |
| AuthController.EmptyFieldsLeaveRowUnchanged | src/controllers/authController.js:78-81 | a body of empty strings leaves the caller's row as it was |
| ValidateInstruction.InstructionErrors | src/middleware/validateInstruction.js:10-23 | no message exactly when the step is an integer ≥ 1 and the trimmed description has 5..1000 characters; a missing description reports both description messages |
| ValidateInstruction.InstructionUpdateErrors | src/middleware/validateInstruction.js:28-43 | no message exactly when each given field obeys the creation rule; a blank description reports "cannot be empty" and the length message |
| ValidateInstruction.Sanitize | src/middleware/validateInstruction.js:16 | the handler sees the description trimmed, the step untouched |
| ValidateInstruction.InstructionDataOf | src/middleware/validateInstruction.js:11-20 | a validated body yields a step ≥ 1 and a trimmed 5..1000-character description |
| ValidateInstruction.CreateRulesImplyUpdateRules | src/middleware/validateInstruction.js:10-43 | a body the creation chain accepts also passes the update chain |
| ValidateInstruction.EmptyUpdatePasses | src/middleware/validateInstruction.js:28-43 | an update body naming no field passes: every update validator is optional |
| ValidateInstruction.InstructionUpdateOf | src/middleware/validateInstruction.js:29-40 | a validated update gives a step ≥ 1 when present, which the instruction update requires |
| ValidateInstruction.SanitizeIdempotent | src/middleware/validateInstruction.js:16 | sanitising twice is sanitising once |
| ValidateInstruction.SanitizedBodyRevalidates | src/middleware/validateInstruction.js:15-20 | an accepted body is still accepted once trimmed |
| ValidateRecipe.RecipeErrors | src/middleware/validateRecipe.js:7-38 | no message exactly when title trims to 3..100, description to ≤ 500, the times are integers ≥ 0, servings ≥ 1 and userId is an integer |
| ValidateRecipe.NumberErrors | src/middleware/validateRecipe.js:21-35 | no message exactly when both times are integers ≥ 0, servings an integer ≥ 1 and userId an integer; a bad userId gives the last message |
| ValidateRecipe.RecipeUpdateErrors | src/middleware/validateRecipe.js:40-71 | no message exactly when each given field obeys the creation rule; userId is not examined |
| ValidateRecipe.RecipeDataOf | src/middleware/validateRecipe.js:8-35 | a validated body yields the trimmed title (3..100), the trimmed description if given (≤ 500), the body's times, servings and owner id, with times ≥ 0 and servings ≥ 1 |
| ValidateRecipe.RecipeUpdateOf | src/middleware/validateRecipe.js:41-68 | a validated update carries exactly the given fields: trimmed title (3..100) and description (≤ 500), the integer times (≥ 0), servings (≥ 1) and owner id |
| ValidateRecipe.CreateRulesImplyUpdateRules | src/middleware/validateRecipe.js:7-71 | a body the creation chain accepts also passes the update chain |
| ValidateRecipe.UpdateCanReassignOwner | src/middleware/validateRecipe.js:40-71 | an update naming only a new owner passes and moves the recipe to that owner |
| ValidateRecipe.TitleJudgedTrimmed | src/middleware/validateRecipe.js:8-13 | a title that trims to an accepted title is accepted too and yields the same recipe data |
| ValidateIngredient.NameErrors | src/middleware/validateIngredient.js:9-24 | no message exactly when the trimmed name has 3..100 characters and no stored ingredient has it; a stored name ends in "must be unique" |
| ValidateIngredient.IngredientErrors | src/middleware/validateIngredient.js:8-33 | no message exactly when the name is acceptable and the trimmed unit is non-empty |
| ValidateIngredient.IngredientUpdateErrors | src/middleware/validateIngredient.js:35-62 | no message exactly when each given field obeys the creation rule, against every stored name |
| ValidateIngredient.IngredientDataOf | src/middleware/validateIngredient.js:9-30 | a validated body yields a trimmed name free in the table and a non-empty unit |
| ValidateIngredient.IngredientUpdateOf | src/middleware/validateIngredient.js:36-59 | a validated update carries exactly the given fields, trimmed; a given name is free in the table, which the ingredient update requires, and a given unit is non-empty |
| ValidateIngredient.CreateRulesImplyUpdateRules | src/middleware/validateIngredient.js:8-62 | a body the creation chain accepts against a store also passes the update chain against it |
| ValidateIngredient.UpdateRejectsOwnName | src/middleware/validateIngredient.js:44-51 | resubmitting an ingredient's own name on update is rejected as a duplicate |
| ValidateIngredient.DuplicateNameRejected | src/middleware/validateIngredient.js:16-23 | a body whose trimmed name is stored is rejected as a duplicate |
| ValidateIngredient.PaddedDuplicateRejected | src/middleware/validateIngredient.js:10-23 | a stored name padded with whitespace is still a duplicate |

## Left out

- bcrypt and jsonwebtoken are parameters. Salting, hashing, signing, the secret, the token lifetime and the clock are not modelled; a login is only as sound as the `compare` passed in.
- I/O, Express routing (`src/routes/*`), the server setup and `prisma/seed.js` are not part of this model. Guard order from the route tables appears as preconditions.
- `checkValidationResults` and `validateAuth.js` are not part of this model, and neither are the user-admin handlers of the user routes. The model stops at the list of validation messages; an empty list lets the request through.
- The recipe and ingredient controllers, id parsing (`parseInt`/`isNaN`), response status codes and JSON shapes are transport translation. `loginHandler`, `getMeHandler` and `getMyRecipesHandler` only pass `req.user.userId` or the body to `LoginUser`, `GetCurrentUser` and `GetUserRecipes`.
- `getUserRecipes` in the service is a pass-through to the repository function, so only `UserRepo.GetUserRecipes` models it; the included `recipeIngredients` are left out.
- Included relations (the recipe's `user`, `recipeIngredients`) and the `createdAt`/`updatedAt` columns are not modelled.
- RecipeService.CreateNewRecipe: stores a recipe for any integer owner id. In the source, `userId` is the foreign key of the recipe's `user` relation, so an id that names no user makes Prisma refuse the write, and the error handler answers 500; referential integrity is not modelled.
- RecipeService.UpdateRecipeById: rewrites the owner to any integer an update gives, where the source's storage refuses an owner that names no user (500, no write); referential integrity is not modelled.
- RecipeRepo.RecipeTable.CreateRecipe: adds the row for any owner id; the foreign-key check of the storage is not modelled.
- RecipeRepo.RecipeTable.UpdateRecipe: writes any owner id; the foreign-key check of the storage is not modelled.
- UserRepo.UserTable.DeleteUser: removes the row unconditionally. Whether the storage refuses to delete a user who owns recipes depends on the schema, which is not part of this model.
- IngredientRepo.IngredientTable.DeleteIngredient: removes the row unconditionally. Whether the storage refuses to delete an ingredient a recipe uses depends on the schema, which is not part of this model.
- Deleting a recipe does not cascade here: the schema is not visible. An instruction's parent may therefore be missing, which `OwnerGate` handles.
- Concurrency and storage-level unique-constraint arbitration are left out. The store's unique keys are preconditions of the repository writes, established by the sequential pre-checks.
- Request bodies carry only the modelled fields. Extra fields that Prisma would receive through a pass-through body are not modelled.
- Moving an instruction to another recipe is not modelled. The update handler passes the whole body to `prisma.instruction.update` (src/controllers/instructionController.js:106, src/repositories/instructionRepo.js:51), so a body carrying `recipeId` moves the row. The ownership gate only looks at the current parent (src/controllers/instructionController.js:99), and the step probe runs against the old recipe (src/services/instructionService.js:81-84), so the target recipe is neither owner-checked nor probed for a step clash. The recipe counterpart, where an update body reassigns the owner, is modelled (`ValidateRecipe.UpdateCanReassignOwner`).
- A numeric string such as `"2"` or `"+5"` passes `isInt` but is forwarded as a string. The model reads it as the integer it spells. In the source, the unchanged-step test (src/services/instructionService.js:81) then compares a string with a number and always runs the step probe. Prisma rejects a string for an Int column (`stepNumber` on create and update, and the recipe's times, servings and `userId`), and the error handler (src/server.js:51) answers 500. That path to a 500 is not modelled.
- Body values are either strings or integer-like fields. A non-string value where a string is expected, and `null`, are not modelled. `isLength` counts code points here; express-validator also discounts U+FE0E and U+FE0F.
- ValidateRecipe.RecipeUpdateOf: drops a non-integer `userId` from an update, where the source would hand it to Prisma and fail there.
- AuthService.UpdateUserProfile: requires every given field to be non-empty, which its only caller guarantees; a direct call with an empty field is not modelled.
- InstructionService.UpdateInstructionById: requires a given step number to be at least 1, as the validator before it ensures; the source's falsy-zero skip is kept in the transition.
