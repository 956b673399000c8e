/**
 * `POST /recipes`: the checks a new recipe must pass and the cleaning of
 * its lists before it is stored. A property that is not a string where the
 * handler calls `.trim()` on it, or a truthy non-array where it calls
 * `.filter`, throws; the handler's `catch` turns that into a 500.
 */
module RecipesRoutes {
  import opened Wrappers
  import opened Text
  import opened JsValues
  import opened Lists

  // ================================================================ stored shape

  datatype Ingredient = Ingredient(quantity: string, unit: string, name: string)
  datatype MethodStep = MethodStep(text: string)

  /** A recipe as the handler hands it to the store (`steps` is the
      `method` property). */
  datatype NewRecipe = NewRecipe(
    name: string, protein: string, portions: real, cookTime: string,
    tags: seq<string>, ingredients: seq<Ingredient>, steps: seq<MethodStep>, imageUrl: string)

  // ================================================================ request shape

  /** An element of `ingredients`: an object with its three properties, or
      any other JSON value (which has no `name`). */
  datatype IngredientInput = IngredientObject(quantity: Field, unit: Field, name: Field) | NotAnIngredient

  /** An element of `method`: an object with its `text`, or any other value. */
  datatype StepInput = StepObject(text: Field) | NotAStep

  /** A list property: absent, an array, or any other JSON value. */
  datatype ListInput<T> = Absent | Items(items: seq<T>) | NotArray(value: Field)

  datatype RecipeRequest = RecipeRequest(
    name: Field, protein: Field, portions: Field, cookTime: Field,
    tags: ListInput<Field>, ingredients: ListInput<IngredientInput>, steps: ListInput<StepInput>, imageUrl: Field)

  datatype CreateResponse = Created(recipe: NewRecipe) | Failed(status: int, error: string)

  const ServerError: string := "Failed to create recipe"

  // ================================================================ checks

  /** The outcome of `x?.trim()` as a condition. */
  datatype Presence = Present | Blank | Throws

  /** `!x?.trim()`: missing and blank strings fail, other strings pass,
      and any other value has no `trim` to call. */
  function PresenceOf(f: Field): (p: Presence)
    ensures p == Present <==> f.Text? && Trim(f.s) != ""
    ensures p == Throws <==> !(f.Missing? || f.Null? || f.Text?)
  {
    match f
    case Missing => Blank
    case Null => Blank
    case Text(s) => if Trim(s) == "" then Blank else Present
    case _ => Throws
  }

  /** `(list || [])` when `.filter` is then called on it: falsy values read
      as the empty list, a truthy non-array throws. */
  function Elements<T>(l: ListInput<T>): (r: Option<seq<T>>)
    ensures r.None? <==> l.NotArray? && Truthy(l.value)
    ensures l.Items? ==> r == Some(l.items)
    ensures !l.Items? && r.Some? ==> r == Some([])
  {
    match l
    case Absent => Some([])
    case Items(xs) => Some(xs)
    case NotArray(v) => if Truthy(v) then None else Some([])
  }

  // ================================================================ cleaning

  /** `String(x ?? "").trim()`: empty for a missing or null property,
      otherwise the property's text, trimmed. */
  function CleanText(f: Field): (r: string)
    ensures IsTrimmed(r)
    ensures f.Missing? || f.Null? ==> r == ""
    ensures !(f.Missing? || f.Null?) ==> r == Trim(AsString(f))
  {
    Trim(AsString(OrElse(f, Text(""))))
  }

  /** `i?.name && String(i.name).trim()`. */
  predicate KeepIngredient(i: IngredientInput) {
    i.IngredientObject? && Truthy(i.name) && Trim(AsString(i.name)) != ""
  }

  function CleanIngredient(i: IngredientInput): (r: Ingredient)
    requires i.IngredientObject?
    ensures IsTrimmed(r.quantity) && IsTrimmed(r.unit) && IsTrimmed(r.name)
    ensures r.name == Trim(AsString(i.name))
    ensures r.quantity == CleanText(i.quantity) && r.unit == CleanText(i.unit)
  {
    Ingredient(CleanText(i.quantity), CleanText(i.unit), Trim(AsString(i.name)))
  }

  /** A stored ingredient: a non-empty name, every field trimmed. */
  predicate IsCleanIngredient(i: Ingredient) {
    i.name != "" && IsTrimmed(i.name) && IsTrimmed(i.quantity) && IsTrimmed(i.unit)
  }

  /** The kept ingredients, cleaned, in their order. */
  function CleanIngredients(xs: seq<IngredientInput>): (r: seq<Ingredient>)
    ensures |r| <= |xs|
    ensures forall k :: 0 <= k < |r| ==> IsCleanIngredient(r[k])
  {
    if xs == [] then [] else CleanedIngredient(xs[0]) + CleanIngredients(xs[1..])
  }

  /** Exactly the elements with a non-blank name survive, in order, each
      cleaned. */
  lemma {:induction false} CleanIngredientsKept(xs: seq<IngredientInput>)
    ensures IsMapped(CleanIngredients(xs), Filter(xs, KeepIngredient), CleanIngredient)
    decreases |xs|
  {
    if xs != [] {
      CleanIngredientsKept(xs[1..]);
      if KeepIngredient(xs[0]) {
        assert Filter(xs, KeepIngredient) == [xs[0]] + Filter(xs[1..], KeepIngredient);
        assert CleanIngredients(xs) == [CleanIngredient(xs[0])] + CleanIngredients(xs[1..]);
        MappedCons(xs[0], Filter(xs[1..], KeepIngredient), CleanIngredients(xs[1..]), CleanIngredient);
      } else {
        assert Filter(xs, KeepIngredient) == Filter(xs[1..], KeepIngredient);
        assert CleanIngredients(xs) == CleanIngredients(xs[1..]);
      }
    }
  }

  /** One element of `ingredients` after the filter and the map. */
  function CleanedIngredient(i: IngredientInput): (r: seq<Ingredient>)
    ensures |r| <= 1 && forall k :: 0 <= k < |r| ==> IsCleanIngredient(r[k])
  {
    if KeepIngredient(i) then [CleanIngredient(i)] else []
  }

  lemma {:induction false} CleanIngredientsAppend(a: seq<IngredientInput>, b: seq<IngredientInput>)
    ensures CleanIngredients(a + b) == CleanIngredients(a) + CleanIngredients(b)
    decreases |a|
  {
    if a == [] {
      assert a + b == b;
    } else {
      assert (a + b)[0] == a[0] && (a + b)[1..] == a[1..] + b;
      CleanIngredientsAppend(a[1..], b);
      var h, x, y := CleanedIngredient(a[0]), CleanIngredients(a[1..]), CleanIngredients(b);
      assert CleanIngredients(a + b) == h + (x + y);
      assert h + (x + y) == (h + x) + y;
    }
  }

  /** `s?.text && String(s.text).trim()`. */
  predicate KeepStep(s: StepInput) {
    s.StepObject? && Truthy(s.text) && Trim(AsString(s.text)) != ""
  }

  /** The kept method steps, trimmed, in their order. */
  function CleanMethod(xs: seq<StepInput>): (r: seq<MethodStep>)
    ensures |r| <= |xs|
    ensures forall k :: 0 <= k < |r| ==> r[k].text != "" && IsTrimmed(r[k].text)
  {
    if xs == [] then [] else CleanedStep(xs[0]) + CleanMethod(xs[1..])
  }

  /** Exactly the elements with non-blank text survive, in order, each
      trimmed. */
  lemma {:induction false} CleanMethodKept(xs: seq<StepInput>)
    ensures IsMapped(CleanMethod(xs), Filter(xs, KeepStep), CleanStep)
    decreases |xs|
  {
    if xs != [] {
      CleanMethodKept(xs[1..]);
      if KeepStep(xs[0]) {
        assert Filter(xs, KeepStep) == [xs[0]] + Filter(xs[1..], KeepStep);
        assert CleanMethod(xs) == [CleanStep(xs[0])] + CleanMethod(xs[1..]);
        MappedCons(xs[0], Filter(xs[1..], KeepStep), CleanMethod(xs[1..]), CleanStep);
      } else {
        assert Filter(xs, KeepStep) == Filter(xs[1..], KeepStep);
        assert CleanMethod(xs) == CleanMethod(xs[1..]);
      }
    }
  }

  /** `{ text: String(s.text).trim() }`. */
  function CleanStep(s: StepInput): MethodStep
    requires s.StepObject?
  {
    MethodStep(Trim(AsString(s.text)))
  }

  /** One element of `method` after the filter and the map. */
  function CleanedStep(x: StepInput): (r: seq<MethodStep>)
    ensures |r| <= 1 && forall k :: 0 <= k < |r| ==> r[k].text != "" && IsTrimmed(r[k].text)
    ensures r == [] <==> !KeepStep(x)
    ensures KeepStep(x) ==> r == [MethodStep(Trim(AsString(x.text)))]
  {
    if KeepStep(x) then [CleanStep(x)] else []
  }

  lemma {:induction false} CleanMethodAppend(a: seq<StepInput>, b: seq<StepInput>)
    ensures CleanMethod(a + b) == CleanMethod(a) + CleanMethod(b)
    decreases |a|
  {
    if a == [] {
      assert a + b == b;
    } else {
      assert (a + b)[0] == a[0] && (a + b)[1..] == a[1..] + b;
      CleanMethodAppend(a[1..], b);
      var h, x, y := CleanedStep(a[0]), CleanMethod(a[1..]), CleanMethod(b);
      assert CleanMethod(a + b) == h + (x + y);
      assert h + (x + y) == (h + x) + y;
    }
  }

  function AsStrings(xs: seq<Field>): (r: seq<string>)
    ensures |r| == |xs| && forall k :: 0 <= k < |xs| ==> r[k] == AsString(xs[k])
  {
    seq(|xs|, k requires 0 <= k < |xs| => AsString(xs[k]))
  }

  /** `Array.isArray(tags) ? tags.map(t => String(t).trim()).filter(Boolean) : []`. */
  function CleanTags(tags: ListInput<Field>): (r: seq<string>)
    ensures forall k :: 0 <= k < |r| ==> r[k] != "" && IsTrimmed(r[k])
    ensures !tags.Items? ==> r == []
  {
    if tags.Items? then
      var r := NonEmpty(TrimAll(AsStrings(tags.items)));
      assert forall k :: 0 <= k < |r| ==> r[k] in TrimAll(AsStrings(tags.items));
      r
    else []
  }

  /** Every tag that is not blank is kept, trimmed, as often as it occurs
      and in its order. */
  lemma CleanTagsKept(tags: ListInput<Field>)
    ensures tags.Items? ==> CleanTags(tags) == Filter(TrimAll(AsStrings(tags.items)), Filled)
  {
    if tags.Items? {
      NonEmptyIsFilter(TrimAll(AsStrings(tags.items)));
    }
  }

  // ================================================================ handler

  /** What every stored recipe satisfies: a non-blank trimmed name and
      protein, at least one portion, trimmed text fields, non-empty trimmed
      tags, ingredients with a non-empty trimmed name and non-empty trimmed
      method steps. */
  predicate IsClean(r: NewRecipe) {
    && r.name != "" && IsTrimmed(r.name)
    && r.protein != "" && IsTrimmed(r.protein)
    && r.portions >= 1.0
    && IsTrimmed(r.cookTime) && IsTrimmed(r.imageUrl)
    && (forall k :: 0 <= k < |r.tags| ==> r.tags[k] != "" && IsTrimmed(r.tags[k]))
    && (forall k :: 0 <= k < |r.ingredients| ==> IsCleanIngredient(r.ingredients[k]))
    && (forall k :: 0 <= k < |r.steps| ==> r.steps[k].text != "" && IsTrimmed(r.steps[k].text))
  }

  /** `POST /recipes`. */
  function Create(req: RecipeRequest): (res: CreateResponse)
    ensures res.Failed? ==> res.status in {400, 500}
    ensures res.Created? ==> IsClean(res.recipe)
    ensures res == Failed(400, "Name is required") <==> PresenceOf(req.name) == Blank
    ensures PresenceOf(req.name) == Present ==>
      (res == Failed(400, "Protein is required") <==> PresenceOf(req.protein) == Blank)
    ensures PresenceOf(req.name) == Present && PresenceOf(req.protein) == Present ==>
      (res == Failed(400, "Portions must be >= 1") <==> !(req.portions.Num? && req.portions.value >= 1.0))
    ensures PresenceOf(req.name) == Throws ==> res == Failed(500, ServerError)
    ensures PresenceOf(req.name) == Present && PresenceOf(req.protein) == Throws ==> res == Failed(500, ServerError)
    ensures res.Created? <==>
      && PresenceOf(req.name) == Present && PresenceOf(req.protein) == Present
      && req.portions.Num? && req.portions.value >= 1.0
      && Elements(req.ingredients).Some? && Elements(req.steps).Some?
    ensures PresenceOf(req.name) == Present && PresenceOf(req.protein) == Present
      && req.portions.Num? && req.portions.value >= 1.0
      && (Elements(req.ingredients).None? || Elements(req.steps).None?)
      ==> res == Failed(500, ServerError)
    ensures res.Created? ==>
      && req.name.Text? && req.protein.Text? && req.portions.Num?
      && res.recipe == Accepted(req, Elements(req.ingredients).value, Elements(req.steps).value)
  {
    match PresenceOf(req.name)
    case Throws => Failed(500, ServerError)
    case Blank => Failed(400, "Name is required")
    case Present =>
      match PresenceOf(req.protein)
      case Throws => Failed(500, ServerError)
      case Blank => Failed(400, "Protein is required")
      case Present =>
        if !(req.portions.Num? && req.portions.value >= 1.0) then Failed(400, "Portions must be >= 1")
        else
          match Elements(req.ingredients)
          case None => Failed(500, ServerError)
          case Some(ingredients) =>
            match Elements(req.steps)
            case None => Failed(500, ServerError)
            case Some(steps) => Created(Accepted(req, ingredients, steps))
  }

  /** The recipe stored for a request that passed the checks, with the
      request's ingredient and method arrays. */
  function Accepted(req: RecipeRequest, ingredients: seq<IngredientInput>, steps: seq<StepInput>): (r: NewRecipe)
    requires req.name.Text? && req.protein.Text? && req.portions.Num?
    ensures r.name == Trim(req.name.s) && r.protein == Trim(req.protein.s)
    ensures r.portions == req.portions.value
    ensures r.cookTime == if req.cookTime.Missing? then "" else Trim(AsString(req.cookTime))
    ensures r.imageUrl == if req.imageUrl.Missing? then "" else Trim(AsString(req.imageUrl))
    ensures r.tags == CleanTags(req.tags)
    ensures r.ingredients == CleanIngredients(ingredients) && r.steps == CleanMethod(steps)
  {
    NewRecipe(
      Trim(req.name.s), Trim(req.protein.s), req.portions.value, DefaultText(req.cookTime),
      CleanTags(req.tags), CleanIngredients(ingredients), CleanMethod(steps), DefaultText(req.imageUrl))
  }

  /** `String(x).trim()` for a property destructured with the default `''`:
      only a missing property takes the default. */
  function DefaultText(f: Field): (r: string)
    ensures IsTrimmed(r)
    ensures r == if f.Missing? then "" else Trim(AsString(f))
  {
    Trim(AsString(Default(f, Text(""))))
  }

  /** The request the client would send for a stored recipe. */
  function Resubmission(r: NewRecipe): RecipeRequest {
    RecipeRequest(Text(r.name), Text(r.protein), Num(r.portions, ""), Text(r.cookTime),
      Items(TextFields(r.tags)), Items(IngredientObjects(r.ingredients)), Items(StepObjects(r.steps)), Text(r.imageUrl))
  }

  function TextFields(xs: seq<string>): (r: seq<Field>)
    ensures |r| == |xs| && forall k :: 0 <= k < |xs| ==> r[k] == Text(xs[k])
  {
    seq(|xs|, k requires 0 <= k < |xs| => Text(xs[k]))
  }

  function IngredientObjects(xs: seq<Ingredient>): (r: seq<IngredientInput>)
    ensures |r| == |xs|
    ensures forall k :: 0 <= k < |xs| ==> r[k] == IngredientObject(Text(xs[k].quantity), Text(xs[k].unit), Text(xs[k].name))
  {
    seq(|xs|, k requires 0 <= k < |xs| => IngredientObject(Text(xs[k].quantity), Text(xs[k].unit), Text(xs[k].name)))
  }

  function StepObjects(xs: seq<MethodStep>): (r: seq<StepInput>)
    ensures |r| == |xs| && forall k :: 0 <= k < |xs| ==> r[k] == StepObject(Text(xs[k].text))
  {
    seq(|xs|, k requires 0 <= k < |xs| => StepObject(Text(xs[k].text)))
  }

  lemma {:induction false} CleanIngredientsOfClean(xs: seq<Ingredient>)
    requires forall k :: 0 <= k < |xs| ==> IsCleanIngredient(xs[k])
    ensures CleanIngredients(IngredientObjects(xs)) == xs
    decreases |xs|
  {
    if xs != [] {
      CleanIngredientsOfClean(xs[1..]);
      CleanIngredientsCons(xs[0], xs[1..]);
      assert [xs[0]] + xs[1..] == xs;
    }
  }

  lemma CleanIngredientsCons(x: Ingredient, rest: seq<Ingredient>)
    requires IsCleanIngredient(x) && CleanIngredients(IngredientObjects(rest)) == rest
    ensures CleanIngredients(IngredientObjects([x] + rest)) == [x] + rest
  {
    var o := IngredientObject(Text(x.quantity), Text(x.unit), Text(x.name));
    IngredientObjectsCons(x, rest);
    CleanIngredientsAppend([o], IngredientObjects(rest));
    CleanIngredientsOne(o);
    CleanedOfClean(x);
  }

  lemma IngredientObjectsCons(x: Ingredient, rest: seq<Ingredient>)
    ensures IngredientObjects([x] + rest) ==
      [IngredientObject(Text(x.quantity), Text(x.unit), Text(x.name))] + IngredientObjects(rest)
  {
    var l, r := IngredientObjects([x] + rest), [IngredientObject(Text(x.quantity), Text(x.unit), Text(x.name))] + IngredientObjects(rest);
    forall k | 0 <= k < |l| ensures l[k] == r[k] {
      if k > 0 { assert ([x] + rest)[k] == rest[k - 1]; }
    }
  }

  lemma CleanIngredientsOne(o: IngredientInput)
    ensures CleanIngredients([o]) == CleanedIngredient(o)
  {
    assert [o][1..] == [];
  }

  lemma CleanedOfClean(i: Ingredient)
    requires IsCleanIngredient(i)
    ensures CleanedIngredient(IngredientObject(Text(i.quantity), Text(i.unit), Text(i.name))) == [i]
  {
    var o := IngredientObject(Text(i.quantity), Text(i.unit), Text(i.name));
    TrimmedText(i.name);
    TrimmedText(i.quantity);
    TrimmedText(i.unit);
    assert KeepIngredient(o);
    assert CleanIngredient(o) == i;
  }

  /** A trimmed string read back from a request is cleaned to itself. */
  lemma TrimmedText(s: string)
    requires IsTrimmed(s)
    ensures Trim(s) == s && Trim(AsString(Text(s))) == s && CleanText(Text(s)) == s
  {
    TrimOfTrimmed(s);
  }

  lemma {:induction false} CleanMethodOfClean(xs: seq<MethodStep>)
    requires forall k :: 0 <= k < |xs| ==> xs[k].text != "" && IsTrimmed(xs[k].text)
    ensures CleanMethod(StepObjects(xs)) == xs
    decreases |xs|
  {
    if xs != [] {
      CleanMethodOfClean(xs[1..]);
      CleanMethodCons(xs);
    }
  }

  lemma CleanMethodCons(xs: seq<MethodStep>)
    requires xs != [] && xs[0].text != "" && IsTrimmed(xs[0].text)
    requires CleanMethod(StepObjects(xs[1..])) == xs[1..]
    ensures CleanMethod(StepObjects(xs)) == xs
  {
    var x, rest := xs[0], xs[1..];
    assert xs == [x] + rest;
    var o := StepObject(Text(x.text));
    StepObjectsCons(x, rest);
    CleanMethodAppend([o], StepObjects(rest));
    CleanMethodOne(o);
    CleanedStepOfClean(x);
  }

  lemma StepObjectsCons(x: MethodStep, rest: seq<MethodStep>)
    ensures StepObjects([x] + rest) == [StepObject(Text(x.text))] + StepObjects(rest)
  {
    var l, r := StepObjects([x] + rest), [StepObject(Text(x.text))] + StepObjects(rest);
    forall k | 0 <= k < |l| ensures l[k] == r[k] {
      if k > 0 { assert ([x] + rest)[k] == rest[k - 1]; }
    }
  }

  lemma CleanMethodOne(o: StepInput)
    ensures CleanMethod([o]) == CleanedStep(o)
  {
    assert [o][1..] == [];
  }

  lemma CleanedStepOfClean(x: MethodStep)
    requires x.text != "" && IsTrimmed(x.text)
    ensures CleanedStep(StepObject(Text(x.text))) == [x]
  {
    TrimmedText(x.text);
  }

  lemma CleanTagsOfClean(tags: seq<string>)
    requires forall k :: 0 <= k < |tags| ==> tags[k] != "" && IsTrimmed(tags[k])
    ensures CleanTags(Items(TextFields(tags))) == tags
  {
    var t := TrimAll(AsStrings(TextFields(tags)));
    forall k | 0 <= k < |tags| ensures t[k] == tags[k] {
      TrimOfTrimmed(tags[k]);
    }
    assert t == tags;
  }

  /** Cleaning is idempotent: posting a clean recipe again stores it
      unchanged. */
  lemma ResubmitClean(r: NewRecipe)
    requires IsClean(r)
    ensures Create(Resubmission(r)) == Created(r)
  {
    ResubmissionPasses(r);
    AcceptedOfClean(r);
  }

  /** The request built from a clean recipe passes every check. */
  lemma ResubmissionPasses(r: NewRecipe)
    requires IsClean(r)
    ensures Create(Resubmission(r)) == Created(Accepted(Resubmission(r), IngredientObjects(r.ingredients), StepObjects(r.steps)))
  {
    PresentOfTrimmed(r.name);
    PresentOfTrimmed(r.protein);
    CreateChecked(Resubmission(r));
  }

  lemma PresentOfTrimmed(s: string)
    requires s != "" && IsTrimmed(s)
    ensures PresenceOf(Text(s)) == Present
  {
    TrimOfTrimmed(s);
  }

  /** A request whose name, protein and portions pass and whose two lists
      are arrays is stored. */
  lemma CreateChecked(req: RecipeRequest)
    requires PresenceOf(req.name) == Present && PresenceOf(req.protein) == Present
    requires req.portions.Num? && req.portions.value >= 1.0
    requires req.ingredients.Items? && req.steps.Items?
    ensures Create(req) == Created(Accepted(req, req.ingredients.items, req.steps.items))
  {
    assert req.name.Text? && req.protein.Text?;
    assert Elements(req.ingredients) == Some(req.ingredients.items);
    assert Elements(req.steps) == Some(req.steps.items);
  }

  /** A request that passes the checks with no ingredient or method array
      (absent, or a falsy value) stores both lists empty. */
  lemma CreateWithoutLists(req: RecipeRequest)
    requires PresenceOf(req.name) == Present && PresenceOf(req.protein) == Present
    requires req.portions.Num? && req.portions.value >= 1.0
    requires !req.ingredients.Items? && Elements(req.ingredients).Some?
    requires !req.steps.Items? && Elements(req.steps).Some?
    ensures Create(req) == Created(Accepted(req, [], []))
    ensures Create(req).recipe.ingredients == [] && Create(req).recipe.steps == []
  {
    assert req.name.Text? && req.protein.Text?;
  }

  /** Cleaning the lists and fields of a clean recipe changes nothing. */
  lemma AcceptedOfClean(r: NewRecipe)
    requires IsClean(r)
    ensures Accepted(Resubmission(r), IngredientObjects(r.ingredients), StepObjects(r.steps)) == r
  {
    TrimmedText(r.name);
    TrimmedText(r.protein);
    TrimmedText(r.cookTime);
    TrimmedText(r.imageUrl);
    CleanTagsOfClean(r.tags);
    CleanIngredientsOfClean(r.ingredients);
    CleanMethodOfClean(r.steps);
  }
}
