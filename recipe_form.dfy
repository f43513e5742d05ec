/**
 * The editing logic of src/components/RecipeForm.jsx: the state the component keeps
 * (title, description, the two lists and the three uncontrolled inputs), the handlers that
 * edit the lists, and the submit gate.
 */
module RecipeForm {
  import opened Wrappers
  import opened Text
  import opened Records
  import opened ClientValidation
  import opened ServerValidation
  import RecipeController
  import opened RecipeRoutes

  /** The two fields of an ingredient entry. */
  datatype IngredientField = Name | Quantity

  /** Steps numbered 1, 2, ..., n in list order. */
  predicate NumberedInOrder(steps: seq<StepData>) {
    forall i | 0 <= i < |steps| :: steps[i].stepNumber == i + 1
  }

  /** Appending a step numbered one past the length keeps the numbering 1..n. */
  lemma AppendKeepsNumbering(steps: seq<StepData>, text: string)
    requires NumberedInOrder(steps)
    ensures NumberedInOrder(steps + [StepData(|steps| + 1, text)])
  {
    var longer := steps + [StepData(|steps| + 1, text)];
    forall i | 0 <= i < |longer| ensures longer[i].stepNumber == i + 1 {
      if i < |steps| {
        assert longer[i] == steps[i];
      }
    }
  }

  /** Renumbering entry `index` as `index + 1` keeps the numbering 1..n. */
  lemma ChangeKeepsNumbering(steps: seq<StepData>, index: nat, text: string)
    requires NumberedInOrder(steps) && index < |steps|
    ensures NumberedInOrder(steps[index := StepData(index + 1, text)])
  {
  }

  /** What the ingredient gate asks, in plain terms: a name of at least 3 trimmed characters and a quantity that is not blank. */
  predicate IngredientAcceptable(name: string, quantity: string) {
    |Trim(name)| >= 3 && !AllSpace(quantity)
  }

  /** What the step gate asks: at least 3 trimmed characters. */
  predicate StepAcceptable(text: string) {
    |Trim(text)| >= 3
  }

  /**
   * What the submit gate asks: title and description each hold a non-space character and at
   * least 3 characters counted untrimmed, and both lists have an entry.
   */
  predicate SubmitAllowed(title: string, description: string, ingredients: seq<IngredientData>, steps: seq<StepData>) {
    && (exists i | 0 <= i < |title| :: !IsSpace(title[i])) && |title| >= 3
    && (exists i | 0 <= i < |description| :: !IsSpace(description[i])) && |description| >= 3
    && |ingredients| > 0 && |steps| > 0
  }

  /**
   * The validator chain on an already trimmed input: non-empty with at least `n` characters is
   * the same as at least `n` trimmed characters, once `n` is positive.
   */
  lemma TrimmedGate(input: string, n: int)
    requires n >= 1
    ensures IsNotEmpty(Trim(input)) && HasMinLength(Trim(input), n) <==> |Trim(input)| >= n
  {
    TrimIdempotent(input);
    if |Trim(input)| >= n {
      assert Trim(input) != [];
      assert !AllSpace(Trim(input));
    }
  }

  /** The ingredient gate of the handler is exactly IngredientAcceptable. */
  lemma IngredientGate(name: string, quantity: string)
    ensures IsNotEmpty(Trim(name)) && HasMinLength(Trim(name), 3) && IsNotEmpty(Trim(quantity))
        <==> IngredientAcceptable(name, quantity)
  {
    TrimmedGate(name, 3);
    TrimIdempotent(quantity);
  }

  /** The step gate of the handler is exactly StepAcceptable. */
  lemma StepGate(text: string)
    ensures IsNotEmpty(Trim(text)) && HasMinLength(Trim(text), 3) <==> StepAcceptable(text)
  {
    TrimmedGate(text, 3);
  }

  /** The guard of handleAddIngredient, run on the trimmed inputs. */
  function IngredientInputsPass(name: string, quantity: string): (ok: bool)
    ensures ok <==> IngredientAcceptable(name, quantity)
  {
    IngredientGate(name, quantity);
    var ingredient := Trim(name);
    IsNotEmpty(ingredient) && HasMinLength(ingredient, 3) && IsNotEmpty(Trim(quantity))
  }

  /** The guard of handleAddStep, run on the trimmed input. */
  function StepInputPasses(text: string): (ok: bool)
    ensures ok <==> StepAcceptable(text)
  {
    StepGate(text);
    var stepText := Trim(text);
    IsNotEmpty(stepText) && HasMinLength(stepText, 3)
  }

  class FormState {
    var title: string
    var description: string
    var ingredients: seq<IngredientData>
    var steps: seq<StepData>
    /** The three uncontrolled inputs the add buttons read from. */
    var ingredientInput: string
    var quantityInput: string
    var stepInput: string

    /** Pre-filled from `initialData` when editing, empty when creating. */
    constructor (initialData: Option<RecipeData>)
      ensures initialData.None? ==> title == "" && description == "" && ingredients == [] && steps == []
      ensures initialData.Some? ==>
        && title == initialData.value.name && description == initialData.value.description
        && ingredients == Listed(initialData.value.ingredients) && steps == Listed(initialData.value.steps)
      ensures ingredientInput == "" && quantityInput == "" && stepInput == ""
    {
      if initialData.Some? {
        title := initialData.value.name;
        description := initialData.value.description;
        ingredients := Listed(initialData.value.ingredients);
        steps := Listed(initialData.value.steps);
      } else {
        title, description, ingredients, steps := "", "", [], [];
      }
      ingredientInput, quantityInput, stepInput := "", "", "";
    }

    /**
     * handleAddIngredient: when the trimmed inputs pass the gate, append them as a new entry and
     * clear both inputs; otherwise change nothing.
     */
    method AddIngredient()
      modifies this
      ensures IngredientAcceptable(old(ingredientInput), old(quantityInput)) ==>
        && ingredients == old(ingredients) + [IngredientData(Trim(old(ingredientInput)), Trim(old(quantityInput)))]
        && ingredientInput == "" && quantityInput == ""
      ensures !IngredientAcceptable(old(ingredientInput), old(quantityInput)) ==>
        ingredients == old(ingredients) && ingredientInput == old(ingredientInput) && quantityInput == old(quantityInput)
      ensures title == old(title) && description == old(description) && steps == old(steps)
      ensures stepInput == old(stepInput)
    {
      var name, quantity := ingredientInput, quantityInput;
      if IngredientInputsPass(name, quantity) {
        var entry := IngredientData(Trim(name), Trim(quantity));
        ingredients := ingredients + [entry];
        ingredientInput, quantityInput := "", "";
      }
    }

    /** handleIngredientChange: only field `field` of entry `index` takes the new value. */
    method IngredientChange(index: nat, field: IngredientField, value: string)
      requires index < |ingredients|
      modifies this
      ensures |ingredients| == |old(ingredients)|
      ensures field == Name ==> ingredients[index] == old(ingredients)[index].(name := value)
      ensures field == Quantity ==> ingredients[index] == old(ingredients)[index].(quantity := value)
      ensures forall i | 0 <= i < |ingredients| && i != index :: ingredients[i] == old(ingredients)[i]
      ensures title == old(title) && description == old(description) && steps == old(steps)
      ensures ingredientInput == old(ingredientInput) && quantityInput == old(quantityInput)
      ensures stepInput == old(stepInput)
    {
      var entry := ingredients[index];
      var changed := if field == Name then entry.(name := value) else entry.(quantity := value);
      ingredients := ingredients[index := changed];
    }

    /**
     * handleAddStep: when the trimmed input passes the gate, append it numbered one past the
     * current length and clear the input; otherwise change nothing.
     */
    method AddStep()
      modifies this
      ensures StepAcceptable(old(stepInput)) ==>
        steps == old(steps) + [StepData(|old(steps)| + 1, Trim(old(stepInput)))] && stepInput == ""
      ensures !StepAcceptable(old(stepInput)) ==> steps == old(steps) && stepInput == old(stepInput)
      ensures NumberedInOrder(old(steps)) ==> NumberedInOrder(steps)
      ensures title == old(title) && description == old(description) && ingredients == old(ingredients)
      ensures ingredientInput == old(ingredientInput) && quantityInput == old(quantityInput)
    {
      if StepInputPasses(stepInput) {
        var stepText := Trim(stepInput);
        if NumberedInOrder(steps) {
          AppendKeepsNumbering(steps, stepText);
        }
        steps := steps + [StepData(|steps| + 1, stepText)];
        stepInput := "";
      }
    }

    /** handleStepChange: entry `index` gets the new text and the number `index + 1`; the others are kept. */
    method StepChange(index: nat, value: string)
      requires index < |steps|
      modifies this
      ensures |steps| == |old(steps)|
      ensures steps[index] == StepData(index + 1, value)
      ensures forall i | 0 <= i < |steps| && i != index :: steps[i] == old(steps)[i]
      ensures NumberedInOrder(old(steps)) ==> NumberedInOrder(steps)
      ensures title == old(title) && description == old(description) && ingredients == old(ingredients)
      ensures ingredientInput == old(ingredientInput) && quantityInput == old(quantityInput)
      ensures stepInput == old(stepInput)
    {
      steps := steps[index := StepData(index + 1, value)];
    }

    /**
     * handleSubmit: the guards in order; `onSubmit` receives a payload only when all pass, and
     * the payload is the form's state as it stands.
     */
    method HandleSubmit() returns (payload: Option<RecipeData>)
      ensures payload.Some? <==> SubmitAllowed(title, description, ingredients, steps)
      ensures payload.Some? ==> payload.value == RecipeData(title, description, Some(ingredients), Some(steps))
    {
      NotEmptyMeansNonSpace(title);
      NotEmptyMeansNonSpace(description);
      if !IsNotEmpty(title) || !HasMinLength(title, 3) {
        return None;
      }
      if !IsNotEmpty(description) || !HasMinLength(description, 3) {
        return None;
      }
      if |ingredients| == 0 {
        return None;
      }
      if |steps| == 0 {
        return None;
      }
      payload := Some(RecipeData(title, description, Some(ingredients), Some(steps)));
    }
  }

  /** The JSON body a submitted payload becomes on the wire to POST /recipes. */
  function AsRequestBody(payload: RecipeData): RecipeBody {
    RecipeBody(Str(payload.name), Str(payload.description),
               Arr(Listed(payload.ingredients)), Arr(Listed(payload.steps)))
  }

  /**
   * The form is no stricter than the server: every form state whose body the POST gate
   * accepts also passes the submit gate.
   */
  lemma ServerAcceptedPassesForm(title: string, description: string, ingredients: seq<IngredientData>,
                                 steps: seq<StepData>)
    requires PostAccepted(AsRequestBody(RecipeData(title, description, Some(ingredients), Some(steps))))
    ensures SubmitAllowed(title, description, ingredients, steps)
  {
    NotEmptyMeansNonSpace(title);
    NotEmptyMeansNonSpace(description);
  }

  /**
   * The converse fails: a three-letter description passes the form's gate of 3 characters,
   * and the server, which asks for 5, answers 400.
   */
  lemma FormLooserThanServer(ingredients: seq<IngredientData>, steps: seq<StepData>,
                             create: RecipeData -> Result<RecipeController.WriteResult, DbError>)
    requires ingredients != [] && steps != []
    ensures SubmitAllowed("Pie", "abc", ingredients, steps)
    ensures PostRecipe(AsRequestBody(RecipeData("Pie", "abc", Some(ingredients), Some(steps))), create).status == 400
  {
    assert !IsSpace("Pie"[0]) && !IsSpace("abc"[0]);
    assert |Trim("abc")| <= 3;
  }
}
