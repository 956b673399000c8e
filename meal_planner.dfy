/**
 * The meal planner page: today's date as the default start date, the
 * recipe search of the swap sheet with its 60-row cap, the swap of one
 * planned dinner for a chosen recipe, and the guard in front of saving.
 */
module MealPlanner {
  import opened Wrappers
  import opened Text
  import opened JsValues
  import opened Dates
  import opened Lists
  import opened MealPlanRules

  // ================================================================ today

  /** `todayISO()` for the local calendar date `today` (the clock is a
      parameter): a `YYYY-MM-DD` date the generator reads back as the same
      day. */
  function TodayISO(today: Date): (s: string)
    requires Valid(today) && 1000 <= today.year <= 9999
    ensures IsFullDate(s)
    ensures ParseFullDate(s) == Some(today)
  {
    ToISODateIsFullDate(today);
    ParseToISODate(today);
    ToISODate(today)
  }

  // ================================================================ search

  /** A recipe as the page lists it: `tags` is `None` when not an array. */
  datatype ListedRecipe = ListedRecipe(id: string, name: string, protein: string, tags: Option<seq<string>>)

  /** A recipe matches when its lower-cased name, protein or space-joined
      tags contain the key. */
  predicate Matches(r: ListedRecipe, q: string) {
    var tags := if r.tags.Some? then Lower(Join(r.tags.value, " ")) else "";
    Contains(Lower(r.name), q) || Contains(Lower(r.protein), q) || Contains(tags, q)
  }

  /** `filteredRecipes`. */
  function FilteredRecipes(recipes: seq<ListedRecipe>, query: string): (r: seq<ListedRecipe>)
    ensures AllSpace(query) ==> r == recipes
    ensures IsSublist(r, recipes) && |r| <= |recipes|
    ensures !AllSpace(query) ==> forall x :: x in r <==> x in recipes && Matches(x, SearchKey(query))
  {
    var q := SearchKey(query);
    if q == "" then
      SublistRefl(recipes);
      recipes
    else
      var kept := Filter(recipes, x => Matches(x, q));
      SublistLength(kept, recipes);
      kept
  }

  const ShownCap: nat := 60

  /** `filteredRecipes.slice(0, 60)`: the first 60 matches, in order. */
  function Shown(filtered: seq<ListedRecipe>): (r: seq<ListedRecipe>)
    ensures |r| <= ShownCap && r <= filtered
    ensures |filtered| <= ShownCap ==> r == filtered
    ensures |filtered| > ShownCap ==> |r| == ShownCap && r == filtered[..ShownCap]
  {
    if |filtered| <= ShownCap then filtered else filtered[..ShownCap]
  }

  /** The "Showing first 60 results" note appears exactly when some matches
      are not shown. */
  predicate ShowsCapNote(filtered: seq<ListedRecipe>) {
    |filtered| > ShownCap
  }

  lemma CapNoteWhenCut(filtered: seq<ListedRecipe>)
    ensures ShowsCapNote(filtered) <==> |Shown(filtered)| < |filtered|
  {
  }

  // ================================================================ swap

  /** The plan with dinner `i` replaced by cooking `r` on the same date. */
  function Swapped(p: Proposal, i: nat, r: ListedRecipe): (q: Proposal)
    requires i < |p.dinners|
    ensures |q.dinners| == |p.dinners|
    ensures q.dinners[i] == Dinner(Cook(p.dinners[i].night.date, r.id), r.name)
    ensures forall k :: 0 <= k < |p.dinners| && k != i ==> q.dinners[k] == p.dinners[k]
    ensures q.(dinners := p.dinners) == p
  {
    p.(dinners := p.dinners[i := Dinner(Cook(p.dinners[i].night.date, r.id), r.name)])
  }

  /** Swapping keeps every date of the plan and makes the swapped night a
      cooking night, so saving the plan then bumps the chosen recipe. */
  lemma SwapKeepsDates(p: Proposal, i: nat, r: ListedRecipe)
    requires i < |p.dinners|
    ensures forall k :: 0 <= k < |p.dinners| ==> Swapped(p, i, r).dinners[k].night.date == p.dinners[k].night.date
    ensures Posted(Swapped(p, i, r).dinners[i]) == SavedDinner(Text("cook"), Text(r.id))
  {
  }

  // ================================================================ saving

  /** `save` posts only a plan that has dinners. */
  predicate SaveRequested(proposal: Option<Proposal>) {
    proposal.Some? && |proposal.value.dinners| > 0
  }

  /** The body `save` posts, as the save route reads it. */
  function SaveBody(p: Proposal): SaveRequest {
    SaveRequest(p.startDate, Dinners(PostedAll(p.dinners)))
  }

  /** A plan the page posts passes the route's dinner check, and is stored
      when it carries its start date. */
  lemma PostedPlanSaved(p: Proposal)
    requires SaveRequested(Some(p))
    ensures Save(SaveBody(p)).Saved? <==> Truthy(p.startDate)
    ensures Save(SaveBody(p)).Saved? ==> Save(SaveBody(p)).bumped == CookedIds(PostedAll(p.dinners))
  {
  }

  // ================================================================ the page

  class PlannerPage {
    var recipes: seq<ListedRecipe>
    var proposal: Option<Proposal>
    var swapOpen: bool
    var swapIndex: Option<nat>
    var query: string

    /** A swap sheet opened on a rendered dinner points into the plan. */
    predicate Valid()
      reads this
    {
      proposal.Some? && swapIndex.Some? ==> swapIndex.value < |proposal.value.dinners|
    }

    constructor (loaded: seq<ListedRecipe>)
      ensures recipes == loaded && proposal.None? && !swapOpen && swapIndex.None? && query == ""
      ensures Valid()
    {
      recipes := loaded;
      proposal := None;
      swapOpen := false;
      swapIndex := None;
      query := "";
    }

    /** The recipes the sheet lists. */
    function Listed(): (r: seq<ListedRecipe>)
      reads this
      ensures |r| <= ShownCap && r <= FilteredRecipes(recipes, query)
      ensures |FilteredRecipes(recipes, query)| <= ShownCap ==> r == FilteredRecipes(recipes, query)
      ensures |FilteredRecipes(recipes, query)| > ShownCap ==> r == FilteredRecipes(recipes, query)[..ShownCap]
    {
      Shown(FilteredRecipes(recipes, query))
    }

    /** `openSwap(index)` on a rendered dinner. */
    method OpenSwap(index: nat)
      requires proposal.Some? && index < |proposal.value.dinners|
      modifies this
      ensures swapIndex == Some(index) && swapOpen && query == ""
      ensures recipes == old(recipes) && proposal == old(proposal) && Valid()
      ensures Listed() == Shown(recipes)
    {
      swapIndex := Some(index);
      query := "";
      swapOpen := true;
    }

    /** `closeSwap()`. */
    method CloseSwap()
      modifies this
      ensures !swapOpen && swapIndex.None? && query == ""
      ensures recipes == old(recipes) && proposal == old(proposal) && Valid()
    {
      swapOpen := false;
      swapIndex := None;
      query := "";
    }

    /** `applySwap(recipe)`: nothing without a plan or a chosen dinner;
        otherwise a copy of the plan with the chosen dinner replaced, then
        the sheet closes. */
    method ApplySwap(r: ListedRecipe)
      requires Valid()
      modifies this
      ensures recipes == old(recipes) && Valid()
      ensures old(proposal).None? || old(swapIndex).None? ==>
        (proposal == old(proposal) && swapIndex == old(swapIndex) && swapOpen == old(swapOpen) && query == old(query))
      ensures old(proposal).Some? && old(swapIndex).Some? ==>
        (proposal == Some(Swapped(old(proposal).value, old(swapIndex).value, r)) && !swapOpen && swapIndex.None? && query == "")
    {
      if proposal.None? || swapIndex.None? {
        return;
      }
      var p := proposal.value;
      var i := swapIndex.value;
      var next := new Dinner[|p.dinners|](k requires 0 <= k < |p.dinners| => p.dinners[k]);
      next[i] := Dinner(Cook(next[i].night.date, r.id), r.name);
      assert next[..] == p.dinners[i := Dinner(Cook(p.dinners[i].night.date, r.id), r.name)];
      proposal := Some(p.(dinners := next[..]));
      CloseSwap();
    }

    /** Whether `save()` sends the plan. */
    function SaveSends(): (sends: bool)
      reads this
      ensures sends <==> proposal.Some? && proposal.value.dinners != []
    {
      SaveRequested(proposal)
    }
  }
}
