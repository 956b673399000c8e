/**
 * The recipe page: the ingredient lines (`displayQty`), the ingredient and
 * method rows it lists, the tags it shows and the portions it prints.
 */
module RecipeDetail {
  import opened Wrappers
  import opened Text
  import opened JsValues
  import opened Lists
  import opened RecipesRoutes

  /** A stored recipe as the page receives it. Lists the document lacks are
      `None`; `tags` may hold a value that is not an array. */
  datatype DetailItem = DetailItem(
    id: string, name: string, protein: string, portions: Option<real>, cookTime: string,
    tags: ListInput<string>, ingredients: Option<seq<Ingredient>>, steps: Option<seq<MethodStep>>, imageUrl: string)

  // ================================================================ displayQty

  /** `displayQty(qty, unit, name)`: the non-empty parts, in the order
      quantity, unit, name, separated by single spaces. */
  function DisplayQty(qty: string, unit: string, name: string): (r: string)
    ensures qty == "" && unit == "" && name == "" ==> r == ""
    ensures qty == "" && unit == "" && name != "" ==> r == name
    ensures qty != "" && unit == "" && name != "" ==> r == qty + " " + name
    ensures qty == "" && unit != "" && name != "" ==> r == unit + " " + name
    ensures qty != "" && unit != "" && name != "" ==> r == qty + " " + unit + " " + name
    ensures qty != "" && unit != "" && name == "" ==> r == qty + " " + unit
    ensures qty != "" && unit == "" && name == "" ==> r == qty
    ensures qty == "" && unit != "" && name == "" ==> r == unit
  {
    NonEmptyOfThree(qty, unit, name);
    JoinShort(qty, unit, name, " ");
    JoinShort(qty, name, name, " ");
    JoinShort(unit, name, name, " ");
    JoinShort(qty, unit, unit, " ");
    assert name == "" ==> Present(qty) + Present(unit) + Present(name) == Present(qty) + Present(unit);
    Join(NonEmpty([qty, unit, name]), " ")
  }

  /** `[s]` when `s` is non-empty, otherwise nothing. */
  function Present(s: string): (r: seq<string>)
    ensures |r| <= 1 && (r == [] <==> s == "")
  {
    if s == "" then [] else [s]
  }

  lemma NonEmptyOfThree(a: string, b: string, c: string)
    ensures NonEmpty([a, b, c]) == Present(a) + Present(b) + Present(c)
  {
    assert [c][1..] == [];
    assert NonEmpty([c]) == Present(c);
    assert [b, c][1..] == [c];
    assert NonEmpty([b, c]) == Present(b) + Present(c);
    assert [a, b, c][1..] == [b, c];
  }

  /** `[x, y].join(sep)` and `[x, y, z].join(sep)`. */
  lemma JoinShort(x: string, y: string, z: string, sep: string)
    ensures Join([], sep) == ""
    ensures Join([x], sep) == x
    ensures Join([x, y], sep) == x + sep + y
    ensures Join([x, y, z], sep) == x + sep + y + sep + z
  {
    assert [x, y][1..] == [y];
    assert [x, y, z][1..] == [y, z];
    assert [y, z][1..] == [z];
    assert Join([x, y, z], sep) == x + sep + Join([y, z], sep);
  }

  /** Splitting a line at its spaces gives back the parts it was made of,
      empty ones dropped, when no part holds a space itself. */
  lemma DisplayQtySplits(qty: string, unit: string, name: string)
    requires ' ' !in qty && ' ' !in unit && ' ' !in name
    requires qty != "" || unit != "" || name != ""
    ensures Split(DisplayQty(qty, unit, name), ' ') == NonEmpty([qty, unit, name])
    ensures forall w :: w in Split(DisplayQty(qty, unit, name), ' ') ==> w != "" && w in [qty, unit, name]
  {
    NonEmptyOfThree(qty, unit, name);
    SplitJoin(NonEmpty([qty, unit, name]), ' ');
  }

  /** The line the page prints for an ingredient. */
  function IngredientLine(i: Ingredient): (line: string)
    ensures i.name != "" ==> |i.name| <= |line| && line[|line| - |i.name|..] == i.name
  {
    DisplayQty(i.quantity, i.unit, i.name)
  }

  // ================================================================ rows

  /** `(i?.name || "").trim()` as a condition. */
  predicate ListedIngredient(i: Ingredient) {
    Trim(i.name) != ""
  }

  /** `(s?.text || "").trim()` as a condition. */
  predicate ListedStep(s: MethodStep) {
    Trim(s.text) != ""
  }

  /** The ingredient rows listed: `(item.ingredients || [])` without the
      rows whose name is blank, in order. */
  function ShownIngredients(item: DetailItem): (r: seq<Ingredient>)
    ensures IsSublist(r, item.ingredients.GetOr([]))
    ensures forall i :: i in r <==> i in item.ingredients.GetOr([]) && !AllSpace(i.name)
    ensures forall i :: multiset(r)[i] == if AllSpace(i.name) then 0 else multiset(item.ingredients.GetOr([]))[i]
  {
    Filter(item.ingredients.GetOr([]), ListedIngredient)
  }

  /** The method rows listed: `(item.method || [])` without the rows whose
      text is blank, in order. */
  function ShownSteps(item: DetailItem): (r: seq<MethodStep>)
    ensures IsSublist(r, item.steps.GetOr([]))
    ensures forall s :: s in r <==> s in item.steps.GetOr([]) && !AllSpace(s.text)
    ensures forall s :: multiset(r)[s] == if AllSpace(s.text) then 0 else multiset(item.steps.GetOr([]))[s]
  {
    Filter(item.steps.GetOr([]), ListedStep)
  }

  /** `tags`: the stored tags when they are an array, otherwise none (no
      recipe loaded included). */
  function Tags(item: Option<DetailItem>): (r: seq<string>)
    ensures item.Some? && item.value.tags.Items? ==> r == item.value.tags.items
    ensures !(item.Some? && item.value.tags.Items?) ==> r == []
  {
    if item.Some? && item.value.tags.Items? then item.value.tags.items else []
  }

  /** `item.portions || 1`: the stored portions, or 1 when they are
      missing or zero. */
  function PortionsShown(item: DetailItem): (p: real)
    ensures item.portions.Some? && item.portions.value != 0.0 ==> p == item.portions.value
    ensures item.portions.None? || item.portions.value == 0.0 ==> p == 1.0
    ensures p != 0.0
  {
    if item.portions.Some? && item.portions.value != 0.0 then item.portions.value else 1.0
  }

  // ================================================================ what was saved is what is shown

  /** The document the store holds for a recipe the create route accepted. */
  function Stored(id: string, r: NewRecipe): (item: DetailItem)
    ensures item.tags == Items(r.tags) && item.ingredients == Some(r.ingredients) && item.steps == Some(r.steps)
  {
    DetailItem(id, r.name, r.protein, Some(r.portions), r.cookTime, Items(r.tags), Some(r.ingredients), Some(r.steps), r.imageUrl)
  }

  /** A recipe the create route accepted (it is clean, by the route's
      contract) is shown whole: every ingredient and step it kept, in
      order, its tags and its portions. */
  lemma CleanRecipeShownWhole(id: string, r: NewRecipe)
    requires IsClean(r)
    ensures ShownIngredients(Stored(id, r)) == r.ingredients
    ensures ShownSteps(Stored(id, r)) == r.steps
    ensures Tags(Some(Stored(id, r))) == r.tags
    ensures PortionsShown(Stored(id, r)) == r.portions
  {
    var item := Stored(id, r);
    assert ShownIngredients(item) == r.ingredients by {
      assert item.ingredients.GetOr([]) == r.ingredients;
      AllIngredientsListed(r.ingredients);
    }
    assert ShownSteps(item) == r.steps by {
      assert item.steps.GetOr([]) == r.steps;
      AllStepsListed(r.steps);
    }
  }

  lemma AllIngredientsListed(xs: seq<Ingredient>)
    requires forall k :: 0 <= k < |xs| ==> IsCleanIngredient(xs[k])
    ensures Filter(xs, ListedIngredient) == xs
  {
    forall k | 0 <= k < |xs|
      ensures ListedIngredient(xs[k])
    {
      TrimOfTrimmed(xs[k].name);
    }
    FilterAll(xs, ListedIngredient);
  }

  lemma AllStepsListed(xs: seq<MethodStep>)
    requires forall k :: 0 <= k < |xs| ==> xs[k].text != "" && IsTrimmed(xs[k].text)
    ensures Filter(xs, ListedStep) == xs
  {
    forall k | 0 <= k < |xs|
      ensures ListedStep(xs[k])
    {
      TrimOfTrimmed(xs[k].text);
    }
    FilterAll(xs, ListedStep);
  }
}
