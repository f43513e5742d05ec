/** The rows of the four tables and the recipe payload exchanged between client and server. */
module Records {
  import opened Wrappers

  /** A row of `recipes`. */
  datatype Recipe = Recipe(id: int, name: string, description: string)

  /** What the client sends for one ingredient; `quantity` is stored untyped, kept here as text. */
  datatype IngredientData = IngredientData(name: string, quantity: string)

  /** What the client sends for one step. */
  datatype StepData = StepData(stepNumber: int, stepText: string)

  /** A row of a child table (`ingredients` or `steps`): its own id, the owning recipe and the payload columns. */
  datatype Child<P> = Child(id: int, recipeId: int, data: P)

  type Ingredient = Child<IngredientData>
  type Step = Child<StepData>

  /** A row of `favorites`. */
  datatype Favorite = Favorite(id: int, recipeId: int)

  /** The body given to the aggregate writer: the two child lists may be absent. */
  datatype RecipeData = RecipeData(
    name: string,
    description: string,
    ingredients: Option<seq<IngredientData>>,
    steps: Option<seq<StepData>>)

  /**
   * The entries of an optional list, none when it is absent. The writers guard their loops
   * with `list && list.length > 0`, and the form falls back to `[]`.
   */
  function Listed<T>(list: Option<seq<T>>): seq<T> {
    if list.Some? then list.value else []
  }

  /** An error raised by the database driver, identified by its code. */
  datatype DbError = DbError(code: string)

  /** The driver's code for a unique-constraint violation. */
  const DupEntry := "ER_DUP_ENTRY"

  function RecipeKey(r: Recipe): int { r.id }
  function ChildKey<P>(c: Child<P>): int { c.id }
  function ParentKey<P>(c: Child<P>): int { c.recipeId }
  function FavoriteKey(f: Favorite): int { f.id }
  function FavoriteRecipe(f: Favorite): int { f.recipeId }
}
