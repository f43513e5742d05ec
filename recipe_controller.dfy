/**
 * The aggregate writer and read assembler of backend/controllers/RecipeController.js.
 * A transaction is a snapshot of the three tables' rows taken at `beginTransaction`
 * and restored by `rollback`; which statement fails, if any, is an injected fault.
 */
module RecipeController {
  import opened Wrappers
  import opened Records
  import opened Table
  import opened ChildRows
  import opened RecipeModel
  import opened IngredientModel
  import opened StepModel
  import opened ConnectionPool

  /**
   * The statement of a transaction that raises `error`, counted from 0 at
   * `beginTransaction`, through each SQL statement in issue order, to `commit`.
   */
  datatype Fault = Fault(at: nat, error: DbError)

  predicate FailsAt(fault: Option<Fault>, k: nat) {
    fault.Some? && fault.value.at == k
  }

  /** Some statement numbered below `n` fails. */
  predicate FailsBefore(fault: Option<Fault>, n: nat) {
    fault.Some? && fault.value.at < n
  }

  /** `{ success: true, recipeId }`. */
  datatype WriteResult = WriteResult(success: bool, recipeId: int)

  /** `{ ...recipe, ingredients, steps }`. */
  datatype RecipeDetails = RecipeDetails(recipe: Recipe, ingredients: seq<Ingredient>, steps: seq<Step>)

  const RecipeNotFound := "Recipe not found"

  /** begin, the recipe insert, one insert per ingredient, one per step, commit. */
  function CreateStatements(data: RecipeData): nat {
    3 + |Listed(data.ingredients)| + |Listed(data.steps)|
  }

  /** begin, the update, the ingredient delete, one insert per ingredient, the step delete, one insert per step, commit. */
  function EditStatements(data: RecipeData): nat {
    5 + |Listed(data.ingredients)| + |Listed(data.steps)|
  }

  /**
   * getRecipeDetails: "Recipe not found" when no recipe row has the id; otherwise the
   * row together with exactly the ingredients and steps whose `recipe_id` matches.
   */
  function GetRecipeDetails(recipes: RecipeTable, ingredients: IngredientTable, steps: StepTable, recipeId: int)
    : (r: Result<RecipeDetails, string>)
    reads recipes, ingredients, steps
    ensures r.Failure? <==> forall i | 0 <= i < |recipes.rows| :: recipes.rows[i].id != recipeId
    ensures r.Failure? ==> r.error == RecipeNotFound
    ensures r.Success? ==> r.value.recipe in recipes.rows && r.value.recipe.id == recipeId
    ensures r.Success? ==> r.value.ingredients == Where(ingredients.rows, ParentKey, recipeId)
    ensures r.Success? ==> r.value.steps == Where(steps.rows, ParentKey, recipeId)
  {
    match recipes.GetRecipeById(recipeId)
    case None => Failure(RecipeNotFound)
    case Some(recipe) =>
      Success(RecipeDetails(recipe, ingredients.GetAllIngredients(recipeId), steps.GetAllSteps(recipeId)))
  }

  /** `connection.rollback()`: every table's rows return to the snapshot taken at `beginTransaction`. */
  method Rollback(recipes: RecipeTable, ingredients: IngredientTable, steps: StepTable,
                  savedRecipes: seq<Recipe>, savedIngredients: seq<Ingredient>, savedSteps: seq<Step>)
    requires recipes.Valid() && ingredients.Valid() && steps.Valid()
    requires AutoIncremented(savedRecipes, RecipeKey, recipes.nextId)
    requires AutoIncremented(savedIngredients, ChildKey, ingredients.nextId)
    requires AutoIncremented(savedSteps, ChildKey, steps.nextId)
    modifies recipes, ingredients, steps
    ensures recipes.Valid() && ingredients.Valid() && steps.Valid()
    ensures recipes.rows == savedRecipes && ingredients.rows == savedIngredients && steps.rows == savedSteps
    ensures recipes.nextId == old(recipes.nextId) && ingredients.nextId == old(ingredients.nextId)
    ensures steps.nextId == old(steps.nextId)
  {
    recipes.RestoreRows(savedRecipes);
    ingredients.RestoreRows(savedIngredients);
    steps.RestoreRows(savedSteps);
  }

  /** Some statement numbered in [lo, hi) fails. */
  predicate FailsWithin(fault: Option<Fault>, lo: nat, hi: nat) {
    fault.Some? && lo <= fault.value.at < hi
  }

  /**
   * The `for (const ingredient of ...)` loop: one insert per item, the `k`-th being statement
   * `first + k`. On success the new rows follow the old ones in payload order; on a failing
   * statement the loop stops and the table is left for the rollback.
   */
  method InsertIngredients(table: IngredientTable, recipeId: int, items: seq<IngredientData>,
                           fault: Option<Fault>, first: nat) returns (ok: bool)
    requires table.Valid()
    modifies table
    ensures table.Valid() && table.nextId >= old(table.nextId)
    ensures ok <==> !FailsWithin(fault, first, first + |items|)
    ensures ok ==> table.rows == old(table.rows) + NewChildren(old(table.nextId), recipeId, items)
    ensures ok ==> table.nextId == old(table.nextId) + |items|
  {
    var i := 0;
    while i < |items|
      invariant 0 <= i <= |items|
      invariant table.Valid()
      invariant table.rows == old(table.rows) + NewChildren(old(table.nextId), recipeId, items[..i])
      invariant table.nextId == old(table.nextId) + i
      invariant !FailsWithin(fault, first, first + i)
    {
      if FailsAt(fault, first + i) {
        return false;
      }
      var _ := table.CreateIngredient(recipeId, items[i]);
      assert items[..i + 1][..i] == items[..i];
      i := i + 1;
    }
    assert items[..i] == items;
    return true;
  }

  /** The `for (const step of ...)` loop, as InsertIngredients. */
  method InsertSteps(table: StepTable, recipeId: int, items: seq<StepData>,
                     fault: Option<Fault>, first: nat) returns (ok: bool)
    requires table.Valid()
    modifies table
    ensures table.Valid() && table.nextId >= old(table.nextId)
    ensures ok <==> !FailsWithin(fault, first, first + |items|)
    ensures ok ==> table.rows == old(table.rows) + NewChildren(old(table.nextId), recipeId, items)
    ensures ok ==> table.nextId == old(table.nextId) + |items|
  {
    var i := 0;
    while i < |items|
      invariant 0 <= i <= |items|
      invariant table.Valid()
      invariant table.rows == old(table.rows) + NewChildren(old(table.nextId), recipeId, items[..i])
      invariant table.nextId == old(table.nextId) + i
      invariant !FailsWithin(fault, first, first + i)
    {
      if FailsAt(fault, first + i) {
        return false;
      }
      var _ := table.CreateStep(recipeId, items[i]);
      assert items[..i + 1][..i] == items[..i];
      i := i + 1;
    }
    assert items[..i] == items;
    return true;
  }

  /**
   * One replacement phase of editFullRecipe: `deleteIngredientsByRecipeId` is statement `first`
   * and the re-inserts follow it. On success the recipe's old ingredients are gone and the
   * payload's follow the other recipes' rows.
   */
  method ReplaceIngredients(table: IngredientTable, recipeId: int, items: seq<IngredientData>,
                            fault: Option<Fault>, first: nat) returns (ok: bool)
    requires table.Valid()
    modifies table
    ensures table.Valid() && table.nextId >= old(table.nextId)
    ensures ok <==> !FailsWithin(fault, first, first + 1 + |items|)
    ensures ok ==> table.rows == WhereNot(old(table.rows), ParentKey, recipeId)
                                 + NewChildren(old(table.nextId), recipeId, items)
  {
    if FailsAt(fault, first) {
      return false;
    }
    var _ := table.DeleteIngredients(recipeId);
    ok := InsertIngredients(table, recipeId, items, fault, first + 1);
  }

  /** The steps phase of editFullRecipe, as ReplaceIngredients. */
  method ReplaceSteps(table: StepTable, recipeId: int, items: seq<StepData>,
                      fault: Option<Fault>, first: nat) returns (ok: bool)
    requires table.Valid()
    modifies table
    ensures table.Valid() && table.nextId >= old(table.nextId)
    ensures ok <==> !FailsWithin(fault, first, first + 1 + |items|)
    ensures ok ==> table.rows == WhereNot(old(table.rows), ParentKey, recipeId)
                                 + NewChildren(old(table.nextId), recipeId, items)
  {
    if FailsAt(fault, first) {
      return false;
    }
    var _ := table.DeleteSteps(recipeId);
    ok := InsertSteps(table, recipeId, items, fault, first + 1);
  }

  /**
   * createFullRecipe: in one transaction, insert the recipe, then each ingredient and each
   * step under the new id, in payload order. Any failing statement rolls everything back
   * and re-raises; the connection is released exactly once on either path.
   */
  method CreateFullRecipe(data: RecipeData, fault: Option<Fault>, pool: Pool,
                          recipes: RecipeTable, ingredients: IngredientTable, steps: StepTable)
    returns (r: Result<WriteResult, DbError>)
    requires pool.Valid() && recipes.Valid() && ingredients.Valid() && steps.Valid()
    modifies pool, recipes, ingredients, steps
    ensures pool.Valid() && recipes.Valid() && ingredients.Valid() && steps.Valid()
    ensures pool.acquired == old(pool.acquired) + 1 && pool.released == old(pool.released) + 1
    ensures r.Failure? <==> FailsBefore(fault, CreateStatements(data))
    ensures r.Failure? ==> r.error == fault.value.error
    ensures r.Failure? ==> recipes.rows == old(recipes.rows) && ingredients.rows == old(ingredients.rows)
                           && steps.rows == old(steps.rows)
    ensures r.Success? ==> r.value == WriteResult(true, old(recipes.nextId))
    ensures r.Success? ==>
      var id := old(recipes.nextId);
      && recipes.rows == old(recipes.rows) + [Recipe(id, data.name, data.description)]
      && ingredients.rows == old(ingredients.rows) + NewChildren(old(ingredients.nextId), id, Listed(data.ingredients))
      && steps.rows == old(steps.rows) + NewChildren(old(steps.nextId), id, Listed(data.steps))
  {
    pool.GetConnection();
    var items, stepItems := Listed(data.ingredients), Listed(data.steps);

    // beginTransaction (statement 0): the point a rollback returns to
    var savedRecipes, savedIngredients, savedSteps := recipes.rows, ingredients.rows, steps.rows;
    var ok := !FailsAt(fault, 0) && !FailsAt(fault, 1);
    var id := recipes.nextId;
    if ok {
      id := recipes.CreateRecipe(data.name, data.description);
      ok := InsertIngredients(ingredients, id, items, fault, 2);
    }
    if ok {
      ok := InsertSteps(steps, id, stepItems, fault, 2 + |items|);
    }
    // commit
    ok := ok && !FailsAt(fault, 2 + |items| + |stepItems|);
    if ok {
      pool.Release();
      r := Success(WriteResult(true, id));
    } else {
      Rollback(recipes, ingredients, steps, savedRecipes, savedIngredients, savedSteps);
      pool.Release();
      r := Failure(fault.value.error);
    }
  }

  /**
   * The statements of editFullRecipe before its commit: beginTransaction (0), the recipe
   * update (1), then the ingredients phase from 2 and the steps phase after it.
   */
  method EditStatementsUpToCommit(recipeId: int, data: RecipeData, fault: Option<Fault>,
                                  recipes: RecipeTable, ingredients: IngredientTable, steps: StepTable)
    returns (ok: bool)
    requires recipes.Valid() && ingredients.Valid() && steps.Valid()
    modifies recipes, ingredients, steps
    ensures recipes.Valid() && ingredients.Valid() && steps.Valid()
    ensures recipes.nextId == old(recipes.nextId)
    ensures ingredients.nextId >= old(ingredients.nextId) && steps.nextId >= old(steps.nextId)
    ensures ok <==> !FailsBefore(fault, EditStatements(data) - 1)
    ensures ok ==>
      && recipes.rows == Updated(old(recipes.rows), recipeId, data.name, data.description)
      && ingredients.rows == WhereNot(old(ingredients.rows), ParentKey, recipeId)
                             + NewChildren(old(ingredients.nextId), recipeId, Listed(data.ingredients))
      && steps.rows == WhereNot(old(steps.rows), ParentKey, recipeId)
                       + NewChildren(old(steps.nextId), recipeId, Listed(data.steps))
  {
    var items, stepItems := Listed(data.ingredients), Listed(data.steps);
    ok := !FailsAt(fault, 0) && !FailsAt(fault, 1);
    if ok {
      var _ := recipes.UpdateRecipe(recipeId, data.name, data.description);
      ok := ReplaceIngredients(ingredients, recipeId, items, fault, 2);
    }
    if ok {
      ok := ReplaceSteps(steps, recipeId, stepItems, fault, 3 + |items|);
    }
  }

  /**
   * editFullRecipe: in one transaction, update the recipe's name and description, delete all
   * its ingredients and re-insert the payload's, then the same for steps (a full replacement).
   * Any failing statement rolls everything back and re-raises; the connection is released
   * exactly once on either path. A missing recipe id is not an error.
   */
  method EditFullRecipe(recipeId: int, data: RecipeData, fault: Option<Fault>, pool: Pool,
                        recipes: RecipeTable, ingredients: IngredientTable, steps: StepTable)
    returns (r: Result<WriteResult, DbError>)
    requires pool.Valid() && recipes.Valid() && ingredients.Valid() && steps.Valid()
    modifies pool, recipes, ingredients, steps
    ensures pool.Valid() && recipes.Valid() && ingredients.Valid() && steps.Valid()
    ensures pool.acquired == old(pool.acquired) + 1 && pool.released == old(pool.released) + 1
    ensures r.Failure? <==> FailsBefore(fault, EditStatements(data))
    ensures r.Failure? ==> r.error == fault.value.error
    ensures r.Failure? ==> recipes.rows == old(recipes.rows) && ingredients.rows == old(ingredients.rows)
                           && steps.rows == old(steps.rows)
    ensures r.Success? ==> r.value == WriteResult(true, recipeId)
    ensures r.Success? ==>
      && recipes.rows == Updated(old(recipes.rows), recipeId, data.name, data.description)
      && ingredients.rows == WhereNot(old(ingredients.rows), ParentKey, recipeId)
                             + NewChildren(old(ingredients.nextId), recipeId, Listed(data.ingredients))
      && steps.rows == WhereNot(old(steps.rows), ParentKey, recipeId)
                       + NewChildren(old(steps.nextId), recipeId, Listed(data.steps))
  {
    pool.GetConnection();
    var items, stepItems := Listed(data.ingredients), Listed(data.steps);

    // beginTransaction (statement 0): the point a rollback returns to
    var savedRecipes, savedIngredients, savedSteps := recipes.rows, ingredients.rows, steps.rows;
    var ok := EditStatementsUpToCommit(recipeId, data, fault, recipes, ingredients, steps);
    // commit
    ok := ok && !FailsAt(fault, 4 + |items| + |stepItems|);
    if ok {
      pool.Release();
      r := Success(WriteResult(true, recipeId));
    } else {
      Rollback(recipes, ingredients, steps, savedRecipes, savedIngredients, savedSteps);
      pool.Release();
      r := Failure(fault.value.error);
    }
  }

  /**
   * deleteRecipe: a single delete on `recipes` outside any transaction. Ingredient and step
   * rows of the recipe are not touched (there is no cascade).
   */
  method DeleteRecipe(recipeId: int, recipes: RecipeTable, ingredients: IngredientTable, steps: StepTable)
    returns (affected: nat)
    requires recipes.Valid() && ingredients.Valid() && steps.Valid()
    modifies recipes
    ensures recipes.Valid()
    ensures recipes.rows == WhereNot(old(recipes.rows), RecipeKey, recipeId)
    ensures recipes.nextId == old(recipes.nextId)
    ensures affected == |Where(old(recipes.rows), RecipeKey, recipeId)| && affected <= 1
    ensures ingredients.rows == old(ingredients.rows) && steps.rows == old(steps.rows)
  {
    affected := recipes.DeleteRecipe(recipeId);
  }

  /**
   * Reading a recipe back right after a successful create: it is found with the payload's
   * name and description, and its ingredients and steps are the payload lists in order,
   * after any rows that already named the new id; no other recipe's children change.
   */
  lemma ReadAfterCreate(recipes: RecipeTable, ingredients: IngredientTable, steps: StepTable, data: RecipeData,
                        id: int, oldRecipes: seq<Recipe>, oldIngredients: seq<Ingredient>, oldSteps: seq<Step>,
                        firstIngredient: int, firstStep: int, other: int)
    requires AutoIncremented(oldRecipes, RecipeKey, id)
    requires recipes.rows == oldRecipes + [Recipe(id, data.name, data.description)]
    requires ingredients.rows == oldIngredients + NewChildren(firstIngredient, id, Listed(data.ingredients))
    requires steps.rows == oldSteps + NewChildren(firstStep, id, Listed(data.steps))
    ensures
      var d := GetRecipeDetails(recipes, ingredients, steps, id);
      && d.Success?
      && d.value.recipe == Recipe(id, data.name, data.description)
      && Payloads(d.value.ingredients) == Payloads(Where(oldIngredients, ParentKey, id)) + Listed(data.ingredients)
      && Payloads(d.value.steps) == Payloads(Where(oldSteps, ParentKey, id)) + Listed(data.steps)
    ensures other != id ==>
      && Where(ingredients.rows, ParentKey, other) == Where(oldIngredients, ParentKey, other)
      && Where(steps.rows, ParentKey, other) == Where(oldSteps, ParentKey, other)
  {
    CreateReadBack(oldRecipes, id, data.name, data.description);
    InsertReadBack(oldIngredients, firstIngredient, id, Listed(data.ingredients));
    InsertReadBack(oldSteps, firstStep, id, Listed(data.steps));
    if other != id {
      InsertLeavesOthers(oldIngredients, firstIngredient, id, Listed(data.ingredients), other);
      InsertLeavesOthers(oldSteps, firstStep, id, Listed(data.steps), other);
    }
  }

  /**
   * Reading a recipe back right after a successful edit: when the recipe existed it has the
   * payload's name and description, and whatever children it had before, its ingredients and
   * steps are now exactly the payload lists in order; no other recipe's children changed.
   */
  lemma ReadAfterEdit(recipes: RecipeTable, ingredients: IngredientTable, steps: StepTable, data: RecipeData,
                      recipeId: int, oldRecipes: seq<Recipe>, oldIngredients: seq<Ingredient>, oldSteps: seq<Step>,
                      firstIngredient: int, firstStep: int, other: int)
    requires UniqueKeys(oldRecipes, RecipeKey) && Where(oldRecipes, RecipeKey, recipeId) != []
    requires recipes.rows == Updated(oldRecipes, recipeId, data.name, data.description)
    requires ingredients.rows == WhereNot(oldIngredients, ParentKey, recipeId)
                                 + NewChildren(firstIngredient, recipeId, Listed(data.ingredients))
    requires steps.rows == WhereNot(oldSteps, ParentKey, recipeId) + NewChildren(firstStep, recipeId, Listed(data.steps))
    ensures
      var d := GetRecipeDetails(recipes, ingredients, steps, recipeId);
      && d.Success?
      && d.value.recipe == Recipe(recipeId, data.name, data.description)
      && d.value.ingredients == NewChildren(firstIngredient, recipeId, Listed(data.ingredients))
      && d.value.steps == NewChildren(firstStep, recipeId, Listed(data.steps))
      && Payloads(d.value.ingredients) == Listed(data.ingredients)
      && Payloads(d.value.steps) == Listed(data.steps)
    ensures other != recipeId ==>
      && Where(ingredients.rows, ParentKey, other) == Where(oldIngredients, ParentKey, other)
      && Where(steps.rows, ParentKey, other) == Where(oldSteps, ParentKey, other)
  {
    UpdateReadBack(oldRecipes, recipeId, data.name, data.description);
    ReplaceChildren(oldIngredients, firstIngredient, recipeId, Listed(data.ingredients), other);
    ReplaceChildren(oldSteps, firstStep, recipeId, Listed(data.steps), other);
  }
}
