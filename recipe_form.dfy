/**
 * The recipe wizard's form: the form-side shape of a recipe, how a stored
 * recipe is loaded into it (`normalizeForForm`), the row handlers of the
 * ingredients and method lists, the validity checks that gate the Next
 * button, the step navigation, and the payload built on submit.
 */
module RecipeForm {
  import opened Wrappers
  import opened Text
  import opened JsValues
  import RecipesRoutes

  // ================================================================ form shape

  datatype IngredientRow = IngredientRow(quantity: string, unit: string, name: string)
  datatype StepRow = StepRow(text: string)

  /** The form state. `tags` is the comma-separated text of the tags box;
      `steps` (the `method` property) is `None` while the property is absent from the object. */
  datatype FormRecipe = FormRecipe(
    name: string, protein: string, portions: real, cookTime: string, tags: string,
    ingredients: seq<IngredientRow>, steps: Option<seq<StepRow>>, imageUrl: string, imagePublicId: string)

  const BlankIngredient: IngredientRow := IngredientRow("", "", "")
  const BlankStep: StepRow := StepRow("")

  /** `emptyRecipe` as the constants file declares it: one blank ingredient
      row and no `method` property at all. */
  const EmptyRecipeAsWritten: FormRecipe :=
    FormRecipe("", "", 1.0, "", "", [BlankIngredient], None, "", "")

  /** The blank form with the method list it evidently needs: one blank step. */
  const EmptyRecipe: FormRecipe :=
    FormRecipe("", "", 1.0, "", "", [BlankIngredient], Some([BlankStep]), "", "")

  /** The wizard's steps, in order (the constants file lists no method step). */
  const Steps: seq<string> := ["basics", "ingredients", "photo", "review"]

  // ================================================================ stored shape

  /** `tags` of a loaded recipe: an array, or any other value (`None` for
      `undefined`/`null`). */
  datatype StoredTags = TagArray(items: seq<string>) | TagText(text: Option<string>)

  datatype StoredIngredient = StoredIngredient(quantity: Option<string>, unit: Option<string>, name: Option<string>)

  /** A recipe as the edit page loads it. A list property is `None` when it
      is not an array; an element is `None` when it is `null` or not an
      object. */
  datatype StoredRecipe = StoredRecipe(
    name: Option<string>, protein: Option<string>, portions: Option<real>, cookTime: Option<string>,
    tags: StoredTags, ingredients: Option<seq<Option<StoredIngredient>>>, steps: Option<seq<Option<string>>>,
    imageUrl: Option<string>, imagePublicId: Option<string>)

  /** `x ?? ""` on an optional string. */
  function OrEmpty(x: Option<string>): string {
    x.GetOr("")
  }

  function IngredientRowOf(i: Option<StoredIngredient>): (row: IngredientRow)
    ensures i.None? ==> row == BlankIngredient
  {
    match i
    case None => BlankIngredient
    case Some(x) => IngredientRow(OrEmpty(x.quantity), OrEmpty(x.unit), OrEmpty(x.name))
  }

  function IngredientRowsOf(xs: seq<Option<StoredIngredient>>): (rows: seq<IngredientRow>)
    ensures |rows| == |xs| && forall k :: 0 <= k < |xs| ==> rows[k] == IngredientRowOf(xs[k])
  {
    seq(|xs|, k requires 0 <= k < |xs| => IngredientRowOf(xs[k]))
  }

  function StepRowsOf(xs: seq<Option<string>>): (rows: seq<StepRow>)
    ensures |rows| == |xs| && forall k :: 0 <= k < |xs| ==> rows[k] == StepRow(OrEmpty(xs[k]))
  {
    seq(|xs|, k requires 0 <= k < |xs| => StepRow(OrEmpty(xs[k])))
  }

  /** `normalizeForForm` over a given blank form: no recipe gives the blank
      form; otherwise every property falls back to `""` (portions to 1), an
      array of tags becomes its `", "` join, and an empty or missing list
      falls back to the blank form's list. */
  function NormalizeWith(empty: FormRecipe, initial: Option<StoredRecipe>): FormRecipe {
    match initial
    case None => empty
    case Some(r) =>
      FormRecipe(
        OrEmpty(r.name), OrEmpty(r.protein), r.portions.GetOr(1.0), OrEmpty(r.cookTime),
        match r.tags
        case TagArray(items) => Join(items, ", ")
        case TagText(t) => OrEmpty(t),
        if r.ingredients.Some? && |r.ingredients.value| > 0 then IngredientRowsOf(r.ingredients.value) else empty.ingredients,
        if r.steps.Some? && |r.steps.value| > 0 then Some(StepRowsOf(r.steps.value)) else empty.steps,
        OrEmpty(r.imageUrl), OrEmpty(r.imagePublicId))
  }

  /** `normalizeForForm`, over the blank form with its method list. */
  function NormalizeForForm(initial: Option<StoredRecipe>): (f: FormRecipe)
    ensures initial.None? ==> f == EmptyRecipe
    ensures FormOk(f)
    ensures initial.Some? ==>
      (f.name == OrEmpty(initial.value.name) && f.protein == OrEmpty(initial.value.protein)
       && f.cookTime == OrEmpty(initial.value.cookTime) && f.imageUrl == OrEmpty(initial.value.imageUrl)
       && f.imagePublicId == OrEmpty(initial.value.imagePublicId))
    ensures initial.Some? ==> f.portions == initial.value.portions.GetOr(1.0)
    ensures initial.Some? && initial.value.tags.TagArray? ==> f.tags == Join(initial.value.tags.items, ", ")
    ensures initial.Some? && initial.value.tags.TagText? ==> f.tags == OrEmpty(initial.value.tags.text)
    ensures initial.Some? && initial.value.ingredients.Some? && |initial.value.ingredients.value| > 0
      ==> f.ingredients == IngredientRowsOf(initial.value.ingredients.value)
    ensures initial.Some? && (initial.value.ingredients.None? || |initial.value.ingredients.value| == 0)
      ==> f.ingredients == EmptyRecipe.ingredients
    ensures initial.Some? && initial.value.steps.Some? && |initial.value.steps.value| > 0
      ==> f.steps == Some(StepRowsOf(initial.value.steps.value))
    ensures initial.Some? && (initial.value.steps.None? || |initial.value.steps.value| == 0)
      ==> f.steps == EmptyRecipe.steps
  {
    NormalizeWith(EmptyRecipe, initial)
  }

  /** What every state of the form keeps: at least one ingredient row and
      a method list with at least one step. */
  predicate FormOk(f: FormRecipe) {
    |f.ingredients| >= 1 && f.steps.Some? && |f.steps.value| >= 1
  }

  // ================================================================ validity

  /** `basicsValid`. */
  predicate BasicsValid(f: FormRecipe) {
    Trim(f.name) != "" && Trim(f.protein) != "" && f.portions > 0.0
  }

  /** `ingredientsValid`: some row has a name that is not blank. */
  predicate IngredientsValid(f: FormRecipe) {
    exists k :: 0 <= k < |f.ingredients| && Trim(f.ingredients[k].name) != ""
  }

  /** `methodValid`, computed on every render: `None` when there is no
      `method` list to call `.some` on, which throws. */
  function MethodValidity(f: FormRecipe): (r: Option<bool>)
    ensures r.Some? <==> f.steps.Some?
    ensures r == Some(true) <==> f.steps.Some? && exists k :: 0 <= k < |f.steps.value| && Trim(f.steps.value[k].text) != ""
  {
    match f.steps
    case None => None
    case Some(rows) => Some(exists k :: 0 <= k < |rows| && Trim(rows[k].text) != "")
  }

  /** `canGoNext` on the step at `stepIndex`. */
  predicate CanGoNext(stepIndex: nat, f: FormRecipe)
    requires stepIndex < |Steps|
  {
    var key := Steps[stepIndex];
    (key == "basics" && BasicsValid(f))
    || (key == "ingredients" && IngredientsValid(f))
    || (key == "method" && MethodValidity(f) == Some(true))
    || key == "photo"
    || key == "review"
  }

  /** The Next button's gate: the basics and ingredients steps need their
      check, the photo and review steps always let the user go on. */
  lemma CanGoNextCases(stepIndex: nat, f: FormRecipe)
    requires stepIndex < |Steps|
    ensures stepIndex == 0 ==> (CanGoNext(stepIndex, f) <==> BasicsValid(f))
    ensures stepIndex == 1 ==> (CanGoNext(stepIndex, f) <==> IngredientsValid(f))
    ensures stepIndex >= 2 ==> CanGoNext(stepIndex, f)
  {
  }

  // ================================================================ row edits

  /** `list.filter((_, i) => i !== index)`. */
  function DropIndex<T>(xs: seq<T>, index: int): (r: seq<T>)
    ensures 0 <= index < |xs| ==> r == xs[..index] + xs[index + 1..]
    ensures !(0 <= index < |xs|) ==> r == xs
    decreases |xs|
  {
    if xs == [] then []
    else (if index == 0 then [] else [xs[0]]) + DropIndex(xs[1..], index - 1)
  }

  /** `removeIngredient` / `removeMethodStep` on a list: drop row `index`,
      unless that would leave no rows. */
  function RemoveRow<T>(xs: seq<T>, index: int): (r: seq<T>)
    ensures |xs| >= 1 ==> |r| >= 1
    ensures |xs| == 1 ==> r == xs
    ensures |xs| > 1 && 0 <= index < |xs| ==> r == xs[..index] + xs[index + 1..]
    ensures !(0 <= index < |xs|) ==> r == xs
  {
    var updated := DropIndex(xs, index);
    if |updated| > 0 then updated else xs
  }

  datatype IngredientField = Quantity | Unit | Name

  /** `row[field]`. */
  function FieldOf(row: IngredientRow, field: IngredientField): string {
    match field
    case Quantity => row.quantity
    case Unit => row.unit
    case Name => row.name
  }

  /** `row[field] = value`. */
  function SetField(row: IngredientRow, field: IngredientField, value: string): (r: IngredientRow)
    ensures FieldOf(r, field) == value
    ensures forall g :: g != field ==> FieldOf(r, g) == FieldOf(row, g)
  {
    match field
    case Quantity => row.(quantity := value)
    case Unit => row.(unit := value)
    case Name => row.(name := value)
  }

  // ================================================================ submit

  /** The tags box read on submit: split on commas, trimmed, blanks dropped. */
  function ParseTags(tags: string): (r: seq<string>)
    ensures forall k :: 0 <= k < |r| ==> r[k] != "" && IsTrimmed(r[k]) && ',' !in r[k]
  {
    CommaList(tags)
  }

  /** Tags loaded into the form and read back on submit come back
      unchanged when each is trimmed, non-empty and free of commas. */
  lemma TagsRoundTrip(r: StoredRecipe, tags: seq<string>)
    requires r.tags == TagArray(tags)
    requires forall k :: 0 <= k < |tags| ==> tags[k] != "" && IsTrimmed(tags[k]) && ',' !in tags[k]
    ensures ParseTags(NormalizeForForm(Some(r)).tags) == tags
  {
    CommaListOfJoin(tags);
  }

  /** The payload `onSubmit` sends when no new image was picked. */
  datatype Payload = Payload(
    name: string, protein: string, portions: real, cookTime: string, tags: seq<string>,
    ingredients: seq<IngredientRow>, steps: Option<seq<StepRow>>, imageUrl: string, imagePublicId: string)

  function SubmitPayload(f: FormRecipe): (p: Payload)
    ensures p.tags == ParseTags(f.tags)
    ensures p.(tags := []) == Payload(f.name, f.protein, f.portions, f.cookTime, [], f.ingredients, f.steps, f.imageUrl, f.imagePublicId)
  {
    Payload(f.name, f.protein, f.portions, f.cookTime, ParseTags(f.tags), f.ingredients, f.steps, f.imageUrl, f.imagePublicId)
  }

  /** The JSON body the payload becomes, as the server reads it
      (`portionsText` is how the number prints). */
  function AsRequest(p: Payload, portionsText: string): RecipesRoutes.RecipeRequest {
    RecipesRoutes.RecipeRequest(
      Text(p.name), Text(p.protein), Num(p.portions, portionsText), Text(p.cookTime),
      RecipesRoutes.Items(seq(|p.tags|, k requires 0 <= k < |p.tags| => Text(p.tags[k]))),
      RecipesRoutes.Items(seq(|p.ingredients|, k requires 0 <= k < |p.ingredients| =>
        RecipesRoutes.IngredientObject(Text(p.ingredients[k].quantity), Text(p.ingredients[k].unit), Text(p.ingredients[k].name)))),
      match p.steps
      case None => RecipesRoutes.Absent
      case Some(rows) => RecipesRoutes.Items(seq(|rows|, k requires 0 <= k < |rows| => RecipesRoutes.StepObject(Text(rows[k].text)))),
      Text(p.imageUrl))
  }

  /** The basics check lets through what the server refuses: a form whose
      basics are valid is stored exactly when its portions are at least 1,
      so a fraction of a portion passes the wizard and is rejected on save. */
  lemma SubmitAcceptedIffWholePortion(f: FormRecipe, portionsText: string)
    requires BasicsValid(f)
    ensures RecipesRoutes.Create(AsRequest(SubmitPayload(f), portionsText)).Created? <==> f.portions >= 1.0
  {
    var req := AsRequest(SubmitPayload(f), portionsText);
    assert RecipesRoutes.PresenceOf(req.name) == RecipesRoutes.Present;
    assert RecipesRoutes.PresenceOf(req.protein) == RecipesRoutes.Present;
    assert RecipesRoutes.Elements(req.ingredients).Some?;
    assert RecipesRoutes.Elements(req.steps).Some?;
  }

  // ================================================================ the component

  datatype Mode = Create | Edit

  /** The wizard's state: the form and the step index. */
  class RecipeWizard {
    const mode: Mode
    const initial: Option<StoredRecipe>
    var recipe: FormRecipe
    var stepIndex: int

    predicate Valid()
      reads this
    {
      0 <= stepIndex < |Steps| && FormOk(recipe)
    }

    /** The form the wizard starts from and resets to. */
    function Start(): FormRecipe {
      if mode == Edit then NormalizeForForm(initial) else EmptyRecipe
    }

    constructor (m: Mode, init: Option<StoredRecipe>)
      ensures mode == m && initial == init
      ensures recipe == Start() && stepIndex == 0 && Valid()
    {
      mode := m;
      initial := init;
      recipe := if m == Edit then NormalizeForForm(init) else EmptyRecipe;
      stepIndex := 0;
    }

    /** `handleIngredientChange(index, field, value)` on a rendered row. */
    method HandleIngredientChange(index: nat, field: IngredientField, value: string)
      requires Valid() && index < |recipe.ingredients|
      modifies this
      ensures Valid() && stepIndex == old(stepIndex)
      ensures |recipe.ingredients| == |old(recipe.ingredients)|
      ensures recipe.ingredients[index] == SetField(old(recipe.ingredients[index]), field, value)
      ensures forall k :: 0 <= k < |recipe.ingredients| && k != index ==> recipe.ingredients[k] == old(recipe.ingredients[k])
      ensures recipe.(ingredients := old(recipe.ingredients)) == old(recipe)
    {
      var updated := recipe.ingredients;
      updated := updated[index := SetField(updated[index], field, value)];
      recipe := recipe.(ingredients := updated);
    }

    /** `addIngredient`: one blank row at the end. */
    method AddIngredient()
      requires Valid()
      modifies this
      ensures Valid() && stepIndex == old(stepIndex)
      ensures recipe == old(recipe).(ingredients := old(recipe.ingredients) + [BlankIngredient])
    {
      recipe := recipe.(ingredients := recipe.ingredients + [BlankIngredient]);
    }

    /** `removeIngredient(index)`. */
    method RemoveIngredient(index: int)
      requires Valid()
      modifies this
      ensures Valid() && stepIndex == old(stepIndex)
      ensures recipe == old(recipe).(ingredients := RemoveRow(old(recipe.ingredients), index))
    {
      var updated := DropIndex(recipe.ingredients, index);
      recipe := recipe.(ingredients := if |updated| > 0 then updated else recipe.ingredients);
    }

    /** `handleMethodChange(index, value)` on a rendered row: a copy of the
        row with the new text. */
    method HandleMethodChange(index: nat, value: string)
      requires Valid() && index < |recipe.steps.value|
      modifies this
      ensures Valid() && stepIndex == old(stepIndex)
      ensures recipe == old(recipe).(steps := Some(old(recipe.steps.value)[index := StepRow(value)]))
    {
      var updated := recipe.steps.value;
      updated := updated[index := updated[index].(text := value)];
      recipe := recipe.(steps := Some(updated));
    }

    /** `addMethodStep`: one blank step at the end. */
    method AddMethodStep()
      requires Valid()
      modifies this
      ensures Valid() && stepIndex == old(stepIndex)
      ensures recipe == old(recipe).(steps := Some(old(recipe.steps.value) + [BlankStep]))
    {
      recipe := recipe.(steps := Some(recipe.steps.value + [BlankStep]));
    }

    /** `removeMethodStep(index)`. */
    method RemoveMethodStep(index: int)
      requires Valid()
      modifies this
      ensures Valid() && stepIndex == old(stepIndex)
      ensures recipe == old(recipe).(steps := Some(RemoveRow(old(recipe.steps.value), index)))
    {
      var updated := DropIndex(recipe.steps.value, index);
      recipe := recipe.(steps := Some(if |updated| > 0 then updated else recipe.steps.value));
    }

    /** `goBack`: one step back, never before the first. */
    method GoBack()
      requires Valid()
      modifies this
      ensures Valid() && recipe == old(recipe)
      ensures stepIndex == if old(stepIndex) == 0 then 0 else old(stepIndex) - 1
    {
      stepIndex := if stepIndex - 1 > 0 then stepIndex - 1 else 0;
    }

    /** `goNext`: one step on, never past the last. */
    method GoNext()
      requires Valid()
      modifies this
      ensures Valid() && recipe == old(recipe)
      ensures stepIndex == if old(stepIndex) == |Steps| - 1 then old(stepIndex) else old(stepIndex) + 1
    {
      stepIndex := if |Steps| - 1 < stepIndex + 1 then |Steps| - 1 else stepIndex + 1;
    }

    /** `reset`: back to the loaded recipe in edit mode, to the blank form
        otherwise, and to the first step. */
    method Reset()
      modifies this
      ensures Valid() && recipe == Start() && stepIndex == 0
    {
      if mode == Edit {
        recipe := NormalizeForForm(initial);
        stepIndex := 0;
        return;
      }
      recipe := EmptyRecipe;
      stepIndex := 0;
    }

    /** What a render computes for the Next button: never a throw, since
        the form always has its method list. */
    function NextEnabled(): (r: bool)
      requires Valid()
      reads this
      ensures MethodValidity(recipe).Some?
      ensures r <==> CanGoNext(stepIndex, recipe) && stepIndex != |Steps| - 1
    {
      CanGoNext(stepIndex, recipe) && stepIndex != |Steps| - 1
    }
  }

  // ================================================================ the method-list finding

  /** As written, the create form has no `method` list, so computing
      `methodValid` on its first render throws. */
  lemma CreateFormRenderThrows()
    ensures MethodValidity(EmptyRecipeAsWritten).None?
    ensures MethodValidity(NormalizeWith(EmptyRecipeAsWritten, None)).None?
  {
  }

  /** As written, editing a recipe stored with no method steps falls back
      to the blank form's missing list, and the render throws too. */
  lemma EditWithoutStepsThrows(r: StoredRecipe)
    requires r.steps == Some([]) || r.steps.None?
    ensures MethodValidity(NormalizeWith(EmptyRecipeAsWritten, Some(r))).None?
  {
  }

  /** With the blank form's method list in place, every form the wizard
      loads defines `methodValid`, and its lists are never empty. */
  lemma NormalizedFormRenders(initial: Option<StoredRecipe>)
    ensures MethodValidity(NormalizeForForm(initial)).Some?
    ensures |NormalizeForForm(initial).ingredients| >= 1 && |NormalizeForForm(initial).steps.value| >= 1
  {
  }

  // ================================================================ the shared-row finding

  /** An ingredient row as the page holds it: an object, shared by every
      list that contains it. */
  class RowObject {
    var quantity: string
    var unit: string
    var name: string

    constructor ()
      ensures Row() == BlankIngredient
    {
      quantity, unit, name := "", "", "";
    }

    /** The row's current contents. */
    function Row(): IngredientRow
      reads this
    {
      IngredientRow(quantity, unit, name)
    }
  }

  /** The ingredient rows of a wizard as written, when the form's list fell
      back to the blank form's: `blankRow` is the one object in
      `emptyRecipe.ingredients`, and every reset loads that same object. */
  class SharedRowWizard {
    const blankRow: RowObject
    var rows: seq<RowObject>

    constructor ()
      ensures fresh(blankRow) && blankRow.Row() == BlankIngredient
      ensures rows == [blankRow]
    {
      blankRow := new RowObject();
      rows := [blankRow];
    }

    /** `handleIngredientChange` as written: the copied list still holds the
        same row objects, and the assignment writes into one of them. */
    method HandleIngredientChange(index: nat, field: IngredientField, value: string)
      requires index < |rows|
      modifies rows[index]
      ensures rows == old(rows)
      ensures rows[index].Row() == SetField(old(rows[index].Row()), field, value)
    {
      var row := rows[index];
      match field
      case Quantity => row.quantity := value;
      case Unit => row.unit := value;
      case Name => row.name := value;
    }

    /** `reset` as written: the blank form's list, holding the shared row. */
    method Reset()
      modifies this
      ensures rows == [blankRow]
    {
      rows := [blankRow];
    }
  }

  /** As written, a name typed into the blank form's first row is still
      there after the form is reset. */
  method TypedRowSurvivesReset() returns (after: IngredientRow)
    ensures after == IngredientRow("", "", "flour")
  {
    var w := new SharedRowWizard();
    w.HandleIngredientChange(0, Name, "flour");
    w.Reset();
    after := w.rows[0].Row();
  }

  /** With rows held as values, the same edit followed by a reset gives the
      blank row back. */
  method ResetBlanksTypedRow() returns (after: IngredientRow)
    ensures after == BlankIngredient
  {
    var w := new RecipeWizard(Create, None);
    w.HandleIngredientChange(0, Name, "flour");
    assert w.recipe.ingredients[0].name == "flour";
    w.Reset();
    after := w.recipe.ingredients[0];
  }
}
