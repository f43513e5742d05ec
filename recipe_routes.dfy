/**
 * The HTTP handlers of backend/routes/recipes.js. Express is abstracted away: each handler is
 * a function from the request's data and the controller's outcome to a status and a body.
 * The POST handler receives the controller operation itself, so that "the controller is not
 * called" can be stated as "the response does not depend on it".
 */
module RecipeRoutes {
  import opened Wrappers
  import opened Records
  import opened Text
  import opened ServerValidation
  import opened Table
  import opened RecipeModel
  import opened IngredientModel
  import opened StepModel
  import opened RecipeController

  /** The JSON bodies the recipe handlers send. */
  datatype Body =
    | Message(message: string)
    | RecipeList(recipes: seq<Recipe>)
    | RecipeFound(recipe: RecipeDetails)
    | Created(created: WriteResult)
    | Edited(edited: WriteResult)
    | DeletedCount(deleted: nat)

  datatype Response = Response(status: int, body: Body)

  /** A POST body as parsed from JSON: the validators are what decide its shape. */
  datatype RecipeBody = RecipeBody(
    name: JsValue<()>,
    description: JsValue<()>,
    ingredients: JsValue<IngredientData>,
    steps: JsValue<StepData>)

  /** The POST input gate: name 3..100 and description 5..100 trimmed characters, two non-empty lists. */
  predicate PostAccepted(body: RecipeBody)
  {
    && IsValidText(body.name, 3, 100)
    && IsValidText(body.description, 5, 100)
    && IsNonEmptyArray(body.ingredients)
    && IsNonEmptyArray(body.steps)
  }

  /** What an accepted POST hands to createFullRecipe: the request body as received, untrimmed. */
  function Payload(body: RecipeBody): RecipeData
    requires PostAccepted(body)
  {
    RecipeData(body.name.s, body.description.s, Some(body.ingredients.items), Some(body.steps.items))
  }

  /** GET /recipes: the whole list with 200, or 500 when the query fails. */
  function GetRecipes(outcome: Result<seq<Recipe>, DbError>): (r: Response)
    ensures r.status == 200 <==> outcome.Success?
    ensures outcome.Success? ==> r.body == RecipeList(outcome.value)
    ensures outcome.Failure? ==> r == Response(500, Message("Failed to get recipes"))
  {
    match outcome
    case Success(recipes) => Response(200, RecipeList(recipes))
    case Failure(_) => Response(500, Message("Failed to get recipes"))
  }

  /**
   * GET /recipes/:id: 200 with `{recipe: details}`, or 500 "Recipe not found" for every
   * failure, a missing recipe and a database error alike.
   */
  function GetRecipe<E>(outcome: Result<RecipeDetails, E>): (r: Response)
    ensures r.status == 200 <==> outcome.Success?
    ensures outcome.Success? ==> r.body == RecipeFound(outcome.value)
    ensures outcome.Failure? ==> r == Response(500, Message(RecipeNotFound))
  {
    match outcome
    case Success(details) => Response(200, RecipeFound(details))
    case Failure(_) => Response(500, Message(RecipeNotFound))
  }

  /**
   * POST /recipes: 400 "Invalid input data" unless the gate passes; otherwise the request body
   * goes to createFullRecipe and the handler answers 201 with its result or 500.
   */
  function PostRecipe(body: RecipeBody, create: RecipeData -> Result<WriteResult, DbError>): (r: Response)
    ensures r.status == 400 <==> !PostAccepted(body)
    ensures !PostAccepted(body) ==> r.body == Message("Invalid input data")
    ensures PostAccepted(body) ==> (r.status == 201 <==> create(Payload(body)).Success?)
    ensures PostAccepted(body) && create(Payload(body)).Success? ==> r.body == Created(create(Payload(body)).value)
    ensures PostAccepted(body) && create(Payload(body)).Failure? ==>
              r == Response(500, Message("Failed to create recipe"))
  {
    if !PostAccepted(body) then
      Response(400, Message("Invalid input data"))
    else
      match create(Payload(body))
      case Success(created) => Response(201, Created(created))
      case Failure(_) => Response(500, Message("Failed to create recipe"))
  }

  /**
   * PUT /recipes/:id: no validation at all; the id and body go to editFullRecipe and the
   * handler answers 200 with `{recipes: result}` or 500.
   */
  function PutRecipe(id: int, body: RecipeData, edit: (int, RecipeData) -> Result<WriteResult, DbError>): (r: Response)
    ensures r.status == 200 <==> edit(id, body).Success?
    ensures edit(id, body).Success? ==> r.body == Edited(edit(id, body).value)
    ensures edit(id, body).Failure? ==> r == Response(500, Message("Failed to update recipe"))
  {
    match edit(id, body)
    case Success(edited) => Response(200, Edited(edited))
    case Failure(_) => Response(500, Message("Failed to update recipe"))
  }

  /** DELETE /recipes/:id: 200 with `{recipes: affectedRows}`, even when nothing was deleted, or 500. */
  function DeleteRecipe(outcome: Result<nat, DbError>): (r: Response)
    ensures r.status == 200 <==> outcome.Success?
    ensures outcome.Success? ==> r.body == DeletedCount(outcome.value)
    ensures outcome.Failure? ==> r == Response(500, Message("Failed to delete recipe"))
  {
    match outcome
    case Success(affected) => Response(200, DeletedCount(affected))
    case Failure(_) => Response(500, Message("Failed to delete recipe"))
  }

  /** A rejected POST never reaches createFullRecipe: its response is the same whatever the controller does. */
  lemma RejectedPostNeverCreates(body: RecipeBody, create: RecipeData -> Result<WriteResult, DbError>,
                                 create': RecipeData -> Result<WriteResult, DbError>)
    requires !PostAccepted(body)
    ensures PostRecipe(body, create) == PostRecipe(body, create') == Response(400, Message("Invalid input data"))
  {
  }

  /**
   * An accepted POST forwards name and description exactly as received, padding included,
   * though only their trimmed lengths were checked; both lists reach the controller non-empty.
   */
  lemma AcceptedPostForwardsUntrimmed(body: RecipeBody)
    requires PostAccepted(body)
    ensures Payload(body).name == body.name.s && Payload(body).description == body.description.s
    ensures 3 <= |Trim(Payload(body).name)| <= 100 && 5 <= |Trim(Payload(body).description)| <= 100
    ensures Listed(Payload(body).ingredients) == body.ingredients.items != []
    ensures Listed(Payload(body).steps) == body.steps.items != []
  {
  }

  /** Padding does not change the gate's verdict, yet the padded text is what gets stored. */
  lemma PaddedNameIsStoredPadded(pre: string, name: string, post: string, body: RecipeBody)
    requires AllSpace(pre) && AllSpace(post) && pre != []
    requires body.name == Str(pre + name + post)
    ensures PostAccepted(body) == PostAccepted(body.(name := Str(name)))
    ensures PostAccepted(body) ==> Payload(body).name != Payload(body.(name := Str(name))).name
  {
    ValidTextIgnoresPadding<()>(pre, name, post, 3, 100);
    if PostAccepted(body) {
      assert |pre + name + post| > |name|;
    }
  }

  /** PUT has no gate: it never answers 400, and its response depends only on editFullRecipe's outcome. */
  lemma PutNeverRejects(id: int, body: RecipeData, edit: (int, RecipeData) -> Result<WriteResult, DbError>,
                        edit': (int, RecipeData) -> Result<WriteResult, DbError>)
    ensures PutRecipe(id, body, edit).status != 400
    ensures edit(id, body) == edit'(id, body) ==> PutRecipe(id, body, edit) == PutRecipe(id, body, edit')
  {
  }

  /**
   * GET /recipes/:id over the tables: a recipe id that no row has is answered 500, and one that
   * exists is answered 200 with the recipe and exactly its ingredient and step rows.
   */
  lemma GetRecipeOverTables(recipes: RecipeTable, ingredients: IngredientTable, steps: StepTable, id: int)
    ensures
      var r := GetRecipe(GetRecipeDetails(recipes, ingredients, steps, id));
      && (r.status == 500 <==> forall i | 0 <= i < |recipes.rows| :: recipes.rows[i].id != id)
      && (r.status == 200 ==> r.body.recipe.recipe in recipes.rows && r.body.recipe.recipe.id == id)
      && (r.status == 200 ==> r.body.recipe.ingredients == Where(ingredients.rows, ParentKey, id))
      && (r.status == 200 ==> r.body.recipe.steps == Where(steps.rows, ParentKey, id))
  {
  }
}
