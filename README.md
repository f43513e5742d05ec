# Recipe manager: a verified model of its core

This project models the core of a small recipe manager. The server side is an Express
application over MySQL with four tables: `recipes`, `ingredients`, `steps` and `favorites`.
The client side is a React application with a Redux store. The model covers these parts:

- **Input validators.** The server's `isValidText`, `isValidNumber`, `isNonEmptyArray` and
  `isAnArray`, and the client's `isNotEmpty`, `hasMinLength` and `isEqualsToOtherValue`.
  JavaScript's `trim()` is modelled over the ECMAScript whitespace and line-terminator set (module `Text`).
- **The tables and their statements.** Each table is a class holding its rows (a `seq`) and
  its AUTO_INCREMENT counter (`nextId`). Every model function is a method or function on it:
  SELECT, INSERT, UPDATE and DELETE by `id` or by `recipe_id`. `Valid()` says that every id
  lies below the counter and that ids are unique. Module `Table` holds the generic
  selection (`Where`) and deletion (`WhereNot`) by a key column.
- **The aggregate writer, `RecipeController`.** `createFullRecipe` and `editFullRecipe` run
  inside one transaction. `beginTransaction` takes a snapshot of the rows. Statement failure
  is an injected `Fault`: the number of the failing statement plus the driver error.
  Statement 0 is `beginTransaction` and the last statement is `commit`. On any failure,
  `rollback` restores the snapshot and the error is re-raised. The AUTO_INCREMENT counter is
  not rolled back; InnoDB does not hand back consumed ids. The pool counts acquisitions and
  releases.
- **The HTTP handlers.** These are pure functions from the request data and the controller's
  outcome to a status and a JSON body. Where a handler may skip the controller, it receives
  the controller operation itself, so "never calls the controller" is proved as "the
  response is the same whatever the controller does".
- **The client.** The favorites and recipes Redux slices are classes whose methods are the
  reducers. `RecipeForm`'s list editing and submit gate are methods on a form-state class.
  `Recipes.jsx` provides the favorite flag and the toggle decision.

Some behaviours of the code are worth stating outright, because the model keeps them:

- GET `/recipes/:id` answers 500 "Recipe not found" both for a missing recipe and for a
  database error (`RecipeRoutes.GetRecipe`).
- `editFullRecipe` on an id no row has updates nothing, but still deletes and inserts
  child rows under that id (`RecipeController.EditFullRecipe`). A recipe later created with
  that id inherits them: `ReadAfterCreate` reads a new recipe's children as "the rows that
  already named the id, then the payload".
- Deleting a recipe does not delete its ingredients or steps (`RecipeController.DeleteRecipe`).
- The client's `addFavorite` reducer appends without checking for an entry already present,
  so the store can hold the same recipe twice (`FavoriteSlice.AddDoesNotDeduplicate`).
- PUT `/recipes/:id` validates nothing; a body with no ingredients is forwarded to
  `editFullRecipe` as is (`RecipeRoutes.PutNeverRejects`).

## Model

| member | source | states |
|---|---|---|
| `Text.Trim` | backend/utils/validations.js:11-12 | The trimmed text is no longer than the input. It is empty exactly when the input is all whitespace; otherwise it starts and ends with a non-space. |
| `Text.TrimPadding` | backend/utils/validations.js:11-12 | Trimming ignores leading and trailing whitespace: `trim(pre + s + post) == trim(s)` for all-space padding. |
| `Text.TrimIdempotent` | src/components/RecipeForm.jsx:41-44 | Trimming an already trimmed value changes nothing, so the form's validators see the handler's trimmed text unchanged. |
| `ServerValidation.IsValidText` | backend/utils/validations.js:8-14 | A value passes exactly when it is a string whose trimmed length lies within [minLength, maxLength], by default [1, 100]. |
| `ServerValidation.IsValidNumber` | backend/utils/validations.js:22-25 | A coerced number passes exactly when it is not NaN and is at least `min`, by default 1. |
| `ServerValidation.IsAnArray` | backend/utils/validations.js:41-43 | A value passes exactly when it is an array. |
| `ServerValidation.IsNonEmptyArray` | backend/utils/validations.js:32-34 | A value passes exactly when it is an array with at least one element. |
| `ClientValidation.IsNotEmpty` | src/util/validation.js:15-17 | A value passes exactly when its trimmed text is not the empty string. |
| `ClientValidation.HasMinLength` | src/util/validation.js:26-28 | A value passes exactly when its untrimmed length is at least `minLength`. |
| `ClientValidation.IsEqualsToOtherValue` | src/util/validation.js:38-40 | Two values pass exactly when they are the same text, with no trimming. |
| `ServerValidation.NonStringIsInvalidText` | backend/utils/validations.js:10 | Any value that is not a string fails `isValidText`, whatever the bounds. |
| `ServerValidation.ValidTextIgnoresPadding` | backend/utils/validations.js:11-12 | Adding or removing surrounding whitespace never changes `isValidText`'s verdict. |
| `ServerValidation.BlankIsInvalidTextByDefault` | backend/utils/validations.js:8-12 | Under the default bounds [1, 100], a whitespace-only string is rejected. |
| `ServerValidation.ValidTextWidening` | backend/utils/validations.js:11-12 | A text valid for [a, b] stays valid for every wider [a', b']. |
| `ServerValidation.ValidNumberLowering` | backend/utils/validations.js:22-25 | A number accepted for a minimum stays accepted for every lower minimum; NaN fails `isValidNumber` whatever the minimum. |
| `ClientValidation.NotEmptyMeansNonSpace` | src/util/validation.js:15-17 | `isNotEmpty(s)` holds exactly when some character of `s` is not whitespace. |
| `ClientValidation.MinLengthMonotone` | src/util/validation.js:26-28 | `hasMinLength` counts untrimmed characters. It holds for every bound below a bound that holds, and always for 0. |
| `ClientValidation.NotEmptyHasLengthOne` | src/util/validation.js:15-28 | `isNotEmpty(s)` implies `hasMinLength(s, 1)`. |
| `ClientValidation.PaddedCopyIsNotEqual` | src/util/validation.js:38-40 | `isEqualsToOtherValue` compares untrimmed text: a copy with leading whitespace trims to the same text and still is not equal. |
| `Table.Where` | backend/models/ingredientModel.js:8-11 | A SELECT by key returns only rows of the table that carry the key, and every such row; it is never longer than the table. |
| `Table.WhereNot` | backend/models/ingredientModel.js:34-37 | A DELETE by key keeps exactly the rows with another key. The kept count plus the deleted count is the table size. |
| `Table.WhereAfterDelete` | backend/models/ingredientModel.js:34-37 | After a delete by `recipe_id` r, selecting r returns nothing. Selecting any other recipe returns what it returned before. |
| `Table.DeleteOfAbsentKey` | backend/models/ingredientModel.js:35-37 | A delete whose key matches no row leaves the table unchanged. |
| `Table.DeleteIdempotent` | backend/models/stepModel.js:35-37 | A second delete by the same key changes nothing. |
| `Table.UniqueMatchesAtMostOne` | backend/models/recipeModel.js:46-48 | On a primary-key column, at most one row matches, so `affectedRows` is 0 or 1. |
| `Table.InsertKeepsAutoIncrement` | backend/db/setup.js:33 | Inserting a row with the counter's value keeps ids unique and below the counter. The new id differs from every existing id. |
| `Table.DeleteKeepsAutoIncrement` | backend/models/favoriteModel.js:31-34 | Deleting by any column keeps the id invariant. |
| `ChildRows.NewChildren` | backend/controllers/RecipeController.js:73-84 | The insert loop adds one row per payload item, in payload order. Item i gets id `first + i` and the owning recipe id. |
| `ChildRows.ReadBackNewChildren` | backend/models/ingredientModel.js:8-26 | Reading back freshly inserted rows for their recipe yields exactly the payload items. Any other recipe sees none of them. |
| `ChildRows.InsertReadBack` | backend/models/stepModel.js:8-26 | After a loop of inserts, a recipe's children are its earlier rows followed by the payload in order. |
| `ChildRows.InsertLeavesOthers` | backend/models/ingredientModel.js:22-26 | A loop of inserts for one recipe leaves every other recipe's child rows unchanged. |
| `ChildRows.AppendChild` | backend/models/stepModel.js:22-26 | One insert appends the row to its recipe's children and changes no other recipe's children. |
| `ChildRows.ReplaceChildren` | backend/controllers/RecipeController.js:117-135 | After delete-all plus re-insert, the recipe's children are exactly the new rows, carrying the new payload in order, however many it had before. Every other recipe's children are the same rows as before. |
| `RecipeModel.Updated` | backend/models/recipeModel.js:45-48 | The UPDATE keeps the table's length and every id. Only rows with that id change, and only their name and description. |
| `RecipeModel.UpdateOfAbsentId` | backend/models/recipeModel.js:46-48 | Updating an id that no row has changes nothing. |
| `RecipeModel.UpdateReadBack` | backend/models/recipeModel.js:45-48 | With unique ids and an existing row, reading the id after the update yields exactly the updated recipe. |
| `RecipeModel.CreateReadBack` | backend/models/recipeModel.js:30-34 | Reading the fresh id after the insert yields exactly the new row. |
| `RecipeModel.RecipeTable.GetAllRecipes` | backend/models/recipeModel.js:7-10 | Every row of the table, in storage order. |
| `RecipeModel.RecipeTable.GetRecipeById` | backend/models/recipeModel.js:17-20 | Nothing exactly when no row has the id. Otherwise a row of the table with that id. |
| `RecipeModel.RecipeTable.CreateRecipe` | backend/models/recipeModel.js:30-34 | Appends one row with the given name and description. Returns its id, which is fresh: it equals the counter and no earlier row has it. |
| `RecipeModel.RecipeTable.UpdateRecipe` | backend/models/recipeModel.js:45-48 | The rows become `Updated(old rows)`. `affectedRows` is the number of matching rows, at most 1; when it is 0 the table is unchanged. |
| `RecipeModel.RecipeTable.DeleteRecipe` | backend/models/recipeModel.js:56-60 | Removes only the rows with that id and returns their number (0 or 1). |
| `RecipeModel.RecipeTable.RestoreRows` | backend/controllers/RecipeController.js:91-93 | Rollback for this table: the rows return to the snapshot; the counter is kept. |
| `IngredientModel.IngredientTable.GetAllIngredients` | backend/models/ingredientModel.js:8-11 | Exactly the rows whose `recipe_id` matches, in table order. |
| `IngredientModel.IngredientTable.CreateIngredient` | backend/models/ingredientModel.js:22-26 | Appends one row carrying the recipe id and the name and quantity verbatim, with a fresh id. |
| `IngredientModel.IngredientTable.DeleteIngredients` | backend/models/ingredientModel.js:34-38 | Deletes by `recipe_id`, not by the row's own id: removes every row of the recipe and returns how many there were. |
| `IngredientModel.IngredientTable.RestoreRows` | backend/controllers/RecipeController.js:142-143 | Rollback for this table: the rows return to the snapshot. |
| `StepModel.StepTable.GetAllSteps` | backend/models/stepModel.js:8-11 | Exactly the rows whose `recipe_id` matches, in table order, not sorted by step number. |
| `StepModel.StepTable.CreateStep` | backend/models/stepModel.js:22-26 | Appends one row with the caller's step number and text verbatim; nothing is renumbered or checked for uniqueness. |
| `StepModel.StepTable.DeleteSteps` | backend/models/stepModel.js:34-38 | Removes every step row of the recipe and returns their count. |
| `StepModel.StepTable.RestoreRows` | backend/controllers/RecipeController.js:93 | Rollback for this table: the rows return to the snapshot. |
| `FavoriteModel.WithoutFavorite` | src/store/favoriteSlice.js:51-53 | Filtering by favorite id keeps exactly the entries with another id. |
| `FavoriteModel.RemoveAbsentFavorite` | backend/models/favoriteModel.js:31-34 | Removing an id no entry has changes nothing, and removing twice is removing once. |
| `FavoriteModel.RemoveKeepsOrder` | src/store/favoriteSlice.js:52 | The filter distributes over concatenation, so surviving entries keep their relative order. |
| `FavoriteModel.IsFavorite` | src/components/Recipes.jsx:87 | A recipe is a favorite exactly when some entry carries its recipe id. |
| `FavoriteModel.FavoriteTable.GetAllFavorites` | backend/models/favoriteModel.js:8-11 | Every favorites row. |
| `FavoriteModel.FavoriteTable.CreateFavorite` | backend/models/favoriteModel.js:19-23 | Appends one row with that recipe id and returns its fresh favorite id. |
| `FavoriteModel.FavoriteTable.DeleteFavoriteById` | backend/models/favoriteModel.js:31-35 | Removes only the row with that favorite id. Returns 1 if it existed, else 0, and with 0 the table is unchanged. |
| `ConnectionPool.Pool.GetConnection` | backend/controllers/RecipeController.js:64 | One more connection acquired; none released. |
| `ConnectionPool.Pool.Release` | backend/controllers/RecipeController.js:88 | Releases a held connection; never more releases than acquisitions. |
| `RecipeController.GetRecipeDetails` | backend/controllers/RecipeController.js:20-34 | Fails with "Recipe not found" exactly when no recipe row has the id. Otherwise returns that row and exactly the ingredient and step rows whose `recipe_id` matches, in storage order. |
| `RecipeController.Rollback` | backend/controllers/RecipeController.js:91-94 | All three tables return to the `beginTransaction` snapshot; the counters keep their values. |
| `RecipeController.InsertIngredients` | backend/controllers/RecipeController.js:73-77 | The insert loop succeeds exactly when none of its statements fails. On success the new rows follow the old ones in payload order with consecutive fresh ids. |
| `RecipeController.InsertSteps` | backend/controllers/RecipeController.js:80-84 | As InsertIngredients, for steps. |
| `RecipeController.CreateFullRecipe` | backend/controllers/RecipeController.js:63-98 | Fails exactly when one of its `3 + n + m` statements fails. It then re-raises that error with every table back at its snapshot. On success it appends one recipe plus the listed children under the new id, and none for an absent list. It returns `{success: true, recipeId}`. The connection is acquired and released exactly once on both paths. |
| `RecipeController.ReplaceIngredients` | backend/controllers/RecipeController.js:118-125 | Delete-then-reinsert of one recipe's ingredients succeeds exactly when none of its statements fails. The result is the other rows followed by the new ones. |
| `RecipeController.ReplaceSteps` | backend/controllers/RecipeController.js:128-135 | As ReplaceIngredients, for steps. |
| `RecipeController.EditStatementsUpToCommit` | backend/controllers/RecipeController.js:112-135 | The update and both replacement phases succeed exactly when none of the statements before the commit fails. |
| `RecipeController.EditFullRecipe` | backend/controllers/RecipeController.js:108-148 | Fails exactly when one of its `5 + n + m` statements fails, and then restores every table and re-raises. On success the recipe row is updated and both child sets are replaced by the payload lists. The connection is acquired and released exactly once. |
| `RecipeController.DeleteRecipe` | backend/controllers/RecipeController.js:41-43 | Removes only the recipe row (0 or 1 rows) and keeps the AUTO_INCREMENT counter. Ingredient and step rows are untouched: there is no cascade. |
| `RecipeController.ReadAfterCreate` | backend/controllers/RecipeController.js:70-90 | After a successful create, `getRecipeDetails` finds the recipe with the payload's name and description. Its children end in the payload lists in order, and other recipes' children are unchanged. |
| `RecipeController.ReadAfterEdit` | backend/controllers/RecipeController.js:115-135 | After a successful edit of an existing recipe, `getRecipeDetails` returns the new name and description. Its ingredients and steps are exactly the newly inserted rows, carrying the payload lists in order. Every other recipe's children are the same rows as before. |
| `RecipeRoutes.PostAccepted` | backend/routes/recipes.js:48-55 | The POST gate: name of 3..100 and description of 5..100 trimmed characters, and ingredients and steps both non-empty arrays. |
| `RecipeRoutes.Payload` | backend/routes/recipes.js:57-58 | What an accepted POST hands to createFullRecipe: the body's name and description as received, untrimmed, and both lists. |
| `RecipeRoutes.GetRecipes` | backend/routes/recipes.js:12-20 | 200 with the list exactly when the query succeeds, else 500. |
| `RecipeRoutes.GetRecipe` | backend/routes/recipes.js:28-36 | 200 with `{recipe}` on success. Every failure, not-found included, becomes 500 "Recipe not found". |
| `RecipeRoutes.PostRecipe` | backend/routes/recipes.js:44-64 | 400 exactly when the gate fails: name 3..100 and description 5..100 trimmed characters, and two non-empty arrays. Otherwise 201 with the create result, or 500. |
| `RecipeRoutes.PutRecipe` | backend/routes/recipes.js:73-82 | No validation: 200 with `{recipes: result}` exactly when the edit succeeds, else 500. |
| `RecipeRoutes.DeleteRecipe` | backend/routes/recipes.js:90-98 | 200 with the affected count, even 0, exactly when the delete succeeds, else 500. |
| `RecipeRoutes.RejectedPostNeverCreates` | backend/routes/recipes.js:48-55 | A rejected POST gives the same 400 whatever createFullRecipe would do, so it never reaches the controller. |
| `RecipeRoutes.AcceptedPostForwardsUntrimmed` | backend/routes/recipes.js:49-58 | An accepted POST forwards name and description exactly as received. Only their trimmed lengths were checked. Both lists reach the controller non-empty. |
| `RecipeRoutes.PaddedNameIsStoredPadded` | backend/routes/recipes.js:49-58 | Padding a name never changes the gate's verdict, but the padded text is what gets forwarded. |
| `RecipeRoutes.PutNeverRejects` | backend/routes/recipes.js:73-81 | PUT never answers 400, and its answer depends only on editFullRecipe's outcome. |
| `RecipeRoutes.GetRecipeOverTables` | backend/routes/recipes.js:28-35 | Over the tables: 500 exactly when no recipe row has the id. Otherwise 200 with that row and exactly its ingredient and step rows. |
| `FavoriteRoutes.GetFavorites` | backend/routes/favorites.js:12-21 | 200 with `{favorites}` exactly when the query succeeds, else 500. |
| `FavoriteRoutes.CheckFavorite` | backend/routes/favorites.js:29-43 | 400 exactly for an id failing `isValidNumber`. Then 200 only if the controller's lookup exists and succeeds; otherwise 500. |
| `FavoriteRoutes.PostFavorite` | backend/routes/favorites.js:51-69 | 400 for an invalid id. 201 with `{favorite: newId, recipeId}` on success. 409 exactly for `ER_DUP_ENTRY`, and 500 for every other error. |
| `FavoriteRoutes.DeleteFavorite` | backend/routes/favorites.js:77-91 | 400 for an invalid id. 200 with the affected count exactly when the delete succeeds, else 500. |
| `FavoriteRoutes.InvalidIdNeverReachesController` | backend/routes/favorites.js:30-33 | An invalid id gets the same 400 from all three guarded routes, whatever the controller would do. |
| `FavoriteRoutes.PostFavoriteStatuses` | backend/routes/favorites.js:53-67 | POST answers only 400, 201, 409 or 500. |
| `FavoriteRoutes.CheckFavoriteNeverAnswers` | backend/routes/favorites.js:36-41 | As written, the check route never answers 200: every valid id ends in 500. |
| `FavoriteRoutes.CheckFavoriteFailsOnAFavorite` | backend/controllers/FavoriteController.js:33-37 | Witness: recipe 1 is a favorite, and the route still answers 500. |
| `FavoriteRoutes.FavoriteLookup` | backend/routes/favorites.js:36 | The lookup the route means to call: it exists and answers membership of the recipe in the table. |
| `FavoriteRoutes.CheckFavoriteWithLookup` | backend/routes/favorites.js:36-38 | With that lookup, a valid id is answered 200 with whether some favorites row carries the recipe id. |
| `FavoriteSlice.FavoritesState.constructor` | src/store/favoriteSlice.js:13-20 | The favorites list starts empty. |
| `FavoriteSlice.FavoritesState.ReplaceFavorites` | src/store/favoriteSlice.js:29-31 | Items become exactly the payload. |
| `FavoriteSlice.FavoritesState.AddFavorite` | src/store/favoriteSlice.js:40-42 | Appends the payload: one longer, earlier items unchanged, the new item last. |
| `FavoriteSlice.FavoritesState.RemoveFavorite` | src/store/favoriteSlice.js:51-53 | Afterwards no item has the id. The others are kept in order. |
| `FavoriteSlice.AddThenRemove` | src/store/favoriteSlice.js:40-53 | Adding an entry and then removing its id gives the list filtered by that id, so every copy goes. |
| `FavoriteSlice.AddDoesNotDeduplicate` | src/store/favoriteSlice.js:41 | Adding an entry already present leaves one more copy of it. |
| `RecipesSlice.RecipesState.constructor` | src/store/recipesSlice.js:19-22 | Starts with no items and `needsRefresh` false. |
| `RecipesSlice.RecipesState.SetRecipes` | src/store/recipesSlice.js:38-41 | Items become the payload and `needsRefresh` is always cleared. |
| `RecipesSlice.RecipesState.SetNeedsRefresh` | src/store/recipesSlice.js:51-53 | Sets the flag and leaves items unchanged. So `setRecipes(p)` followed by `setNeedsRefresh(true)` leaves items equal to `p`. |
| `RecipeForm.FormState.constructor` | src/components/RecipeForm.jsx:15-25 | Pre-filled from the initial data when editing (an absent list gives `[]`). Empty when creating. |
| `RecipeForm.TrimmedGate` | src/util/validation.js:15-28 | On a trimmed input, `isNotEmpty` together with `hasMinLength(n)`, for n at least 1, means at least n trimmed characters. |
| `RecipeForm.IngredientGate` | src/components/RecipeForm.jsx:41-44 | The ingredient gate holds exactly when the name has at least 3 trimmed characters and the quantity is not blank. |
| `RecipeForm.StepGate` | src/components/RecipeForm.jsx:69-71 | The step gate holds exactly when the text has at least 3 trimmed characters. |
| `RecipeForm.IngredientInputsPass` | src/components/RecipeForm.jsx:41-44 | The add-ingredient guard passes exactly when the name has at least 3 trimmed characters and the quantity is not blank. |
| `RecipeForm.StepInputPasses` | src/components/RecipeForm.jsx:69-71 | The add-step guard passes exactly when the text has at least 3 trimmed characters. |
| `RecipeForm.FormState.AddIngredient` | src/components/RecipeForm.jsx:40-49 | Appends the trimmed name and quantity and clears both inputs only when the gate passes. Otherwise nothing changes. |
| `RecipeForm.FormState.IngredientChange` | src/components/RecipeForm.jsx:57-63 | Only the chosen field of entry `index` changes. Length and all other entries are kept. |
| `RecipeForm.FormState.AddStep` | src/components/RecipeForm.jsx:68-75 | When the gate passes, appends the trimmed text numbered one past the length; otherwise nothing changes. Keeps numbering 1..n. |
| `RecipeForm.FormState.StepChange` | src/components/RecipeForm.jsx:83-89 | Entry `index` gets the text and number `index + 1`; the others are kept. Keeps numbering 1..n. |
| `RecipeForm.AppendKeepsNumbering` | src/components/RecipeForm.jsx:72 | Appending step `length + 1` keeps steps numbered 1..n in order. |
| `RecipeForm.ChangeKeepsNumbering` | src/components/RecipeForm.jsx:86 | Renumbering entry i as i + 1 keeps steps numbered 1..n in order. |
| `RecipeForm.FormState.HandleSubmit` | src/components/RecipeForm.jsx:95-143 | A payload is produced exactly when title and description each have a non-space character and 3 untrimmed characters and both lists are non-empty. It is exactly `{name: title, description, ingredients, steps}`. |
| `RecipeForm.ServerAcceptedPassesForm` | src/components/RecipeForm.jsx:98-104 | The form is no stricter than the server: whatever the POST gate accepts also passes the submit gate. |
| `RecipeForm.FormLooserThanServer` | backend/routes/recipes.js:50 | The converse fails: the description "abc" passes the form's 3-character gate, but the server requires 5 and answers 400. |
| `RecipesView.FirstFavoriteOf` | src/components/Recipes.jsx:47 | `find`: the position of the first entry for the recipe; no earlier entry is for it. |
| `RecipesView.ToggleFavorite` | src/components/Recipes.jsx:43-52 | Exactly one action. Add the recipe exactly when it is not a favorite; otherwise delete the favorite id of its first entry. |
| `RecipesView.ToggleOffUnmarks` | src/components/Recipes.jsx:44-48 | For a recipe with a single entry, the dispatched delete, once applied, leaves the recipe unmarked. With unique ids, every other card's flag is kept. |
| `RecipesView.OtherFlagKept` | src/components/Recipes.jsx:87 | Deleting one entry by its unique id keeps the flag of every recipe that entry is not for. |

## Left out

- The HTTP layer is not modelled: Express routing, JSON parsing and serialisation, CORS and the server bootstrap. Each handler is a function from already-parsed inputs.
- Logging (`console.log`, `console.error`) is left out.
- JavaScript's numeric coercion is abstracted. `parseInt` on path ids and `+value` on body ids become `Numeric`: an integer or NaN. Prefix parsing and floats are not modelled.
- Ids from the URL are modelled as integers, though the handlers pass strings on to MySQL.
- `trim()` uses a fixed whitespace set. Lengths count `char`s, not UTF-16 code units.
- The driver's statements are atomic steps on in-memory rows. Concurrency, isolation levels and interleaved transactions are not modelled.
- The pool's queueing at `connectionLimit` is not modelled; only acquisitions and releases are counted.
- A failing `getConnection` is not modelled. It happens before the `try`, so nothing is opened or released.
- A failing `rollback` or `release` is not modelled either.
- The `favorites` DDL is not in the repository (backend/db/setup.js creates only `recipes`). The model assumes no unique constraint, so `CreateFavorite` never fails, and `ER_DUP_ENTRY` is only an abstract outcome that the POST handler maps to 409.
- No foreign keys or cascades are assumed. `DeleteRecipe` leaves the recipe's children in place.
- `RecipeRoutes.PostRecipe` and `RecipeController.CreateFullRecipe` take arrays whose elements are already ingredient and step records. The server checks only that the arrays exist and are non-empty. A body such as `ingredients: ["salt"]` passes the gate, and the driver then binds `undefined` and the insert fails. The model cannot express that input; its failure shows up only as an injected statement fault.
- Row order is not modelled as SQL promises it. `SELECT * FROM recipes` and the `SELECT ... WHERE recipe_id = ?` queries have no ORDER BY, so SQL promises no order. "Table order" and "storage order" in the rows for `GetAllRecipes`, `GetAllIngredients`, `GetAllSteps` and `GetRecipeDetails` mean insertion order, which is InnoDB's primary-key order for these auto-increment ids.
- Column types, VARCHAR truncation and the untyped `quantity` column are not modelled. Quantity is kept as text.
- `RecipeRoutes.PutRecipe`: the PUT body is modelled as a well-formed payload with string name and description. What MySQL does with a missing or non-string field is not modelled.
- `FavoriteRoutes.PostFavorite`: the 201 body echoes the parsed integer recipe id. The handler echoes the raw body value, which may be a numeric string.
- `RecipeController.GetRecipeDetails`: the result is a record of the recipe row and its two lists. The source spreads the row's columns into the returned object.
- `RecipeForm.FormState.IngredientChange`: it requires an index inside the list. The component only passes indices of rendered entries.
- `RecipeForm.FormState.StepChange`: it requires an index inside the list, as IngredientChange does.
- The form's `useEffect` re-sync of title and description when `initialData` changes is not modelled. It is React lifecycle.
- The `alert` calls in the submit handler are not modelled. They are UI.
- Rendering, navigation, and the axios thunks in `favorites-actions.js` are not modelled; they are network clients. A successful delete there ends in the slice's `removeFavorite`, which is modelled.
- The pass-through controllers (`IngredientsController`, `StepsController`, `FavoriteController`) are inlined into their callers.

## Findings

| source | as written | input that shows it | evidently intended | confidence | as-written member | corrected member |
|---|---|---|---|---|---|---|
| backend/routes/favorites.js:36 | The handler calls `FavoriteController.isFavorite`, but the controller exports only `getFavorites`, `addFavorite` and `removeFavorite` (backend/controllers/FavoriteController.js:33-37). The call throws, and the catch answers 500. | `GET /favorites/1` with recipe 1 in the favorites table | 200 with `{favorite: true}` when some favorites row carries the recipe id, and `false` otherwise | high; not executed | `FavoriteRoutes.CheckFavoriteNeverAnswers` | `FavoriteRoutes.CheckFavoriteWithLookup` |
