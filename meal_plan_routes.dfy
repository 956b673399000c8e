/**
 * The generate handler as the route runs it: `pickWeighted` with its two
 * loops, the day loop over a leftover bank and a dinner list that it
 * updates in place, and the request checks around it. Each piece is proved
 * to compute what module MealPlanRules specifies.
 */
module MealPlanRoutes {
  import opened Wrappers
  import opened JsValues
  import opened MealPlanRules

  /** `pickWeighted(recipes)` for the draw `u` of `Math.random()`: sum the
      weights, scale the draw, then subtract weights until the roll is no
      longer positive. */
  method PickWeighted(recipes: seq<Recipe>, now: int, u: real) returns (chosen: Option<Recipe>)
    ensures chosen == Pick(recipes, now, u)
  {
    var scored := Weights(recipes, now);
    var total := 0;
    var i := 0;
    while i < |scored|
      invariant 0 <= i <= |scored|
      invariant total == Prefix(scored, i)
    {
      PrefixSnoc(scored, i);
      total := total + scored[i];
      i := i + 1;
    }
    var start := u * total as real;
    assert start == Roll(u, scored);
    var roll := start;
    i := 0;
    while i < |scored|
      invariant 0 <= i <= |scored|
      invariant roll == start - Prefix(scored, i) as real
      invariant forall j :: 1 <= j <= i ==> (Prefix(scored, j) as real) < start
    {
      PrefixSnoc(scored, i);
      roll := roll - scored[i] as real;
      if roll <= 0.0 {
        PickIndexUnique(scored, start, i);
        PickAt(recipes, now, u, i);
        return Some(recipes[i]);
      }
      i := i + 1;
    }
    if |scored| == 0 {
      return None;
    }
    PickIndexUnique(scored, start, |scored| - 1);
    PickAt(recipes, now, u, |recipes| - 1);
    return Some(recipes[|recipes| - 1]);
  }

  /** One run of the day loop: the leftover bank (`leftovers`), the planned
      nights (`dinners`) and the anti-repeat memory (`lastCookedId`). */
  class PlanRun {
    const setup: Setup
    const meatRecipes: seq<Recipe>
    const vegRecipes: seq<Recipe>
    var leftovers: seq<Entry>
    var dinners: seq<Night>
    var lastCookedId: Option<string>

    /** The state the rules thread from day to day. */
    function State(): RunState
      reads this
    {
      RunState(leftovers, dinners, lastCookedId)
    }

    predicate Valid() {
      |setup.recipes| > 0 && meatRecipes == MeatRecipes(setup.recipes) && vegRecipes == VegRecipes(setup.recipes)
    }

    constructor (s: Setup)
      requires |s.recipes| > 0
      ensures setup == s && Valid() && State() == Initial
    {
      setup := s;
      meatRecipes := MeatRecipes(s.recipes);
      vegRecipes := VegRecipes(s.recipes);
      leftovers := [];
      dinners := [];
      lastCookedId := None;
    }

    /** The scan over `leftovers.entries()` for the entry to serve. */
    method FindBest() returns (best: Option<nat>)
      ensures best == Best(leftovers)
    {
      best := None;
      var i := 0;
      while i < |leftovers|
        invariant 0 <= i <= |leftovers|
        invariant best == BestAmong(leftovers, i)
      {
        var e := leftovers[i];
        if e.key != "" && (best.None? || e.balance > leftovers[best.value].balance) {
          best := Some(i);
        }
        i := i + 1;
      }
    }

    /** The pool of the day: the wanted kind, or all recipes when there is
        none of it. */
    method PoolFor(wantMeat: bool) returns (pool: seq<Recipe>)
      requires Valid()
      ensures pool == Pool(setup.recipes, wantMeat)
    {
      if wantMeat {
        pool := if |meatRecipes| > 0 then meatRecipes else setup.recipes;
      } else {
        pool := if |vegRecipes| > 0 then vegRecipes else setup.recipes;
      }
    }

    /** Up to five re-draws while the choice repeats `last`. */
    method AvoidRepeat(pool: seq<Recipe>, first: Recipe, last: string, d: DayDraw) returns (chosen: Recipe)
      requires Valid()
      ensures chosen == Redraw(setup, pool, first, last, d.picks, 0)
    {
      chosen := first;
      var tries := 0;
      while tries < 5
        invariant 0 <= tries <= 5
        invariant Redraw(setup, pool, chosen, last, d.picks, tries) == Redraw(setup, pool, first, last, d.picks, 0)
      {
        if chosen.id != last {
          break;
        }
        var picked := PickWeighted(pool, setup.now, d.picks[tries + 1]);
        chosen := picked.GetOr(setup.recipes[0]);
        tries := tries + 1;
      }
    }

    /** The recipe a cooking day picks, with the re-draws against
        yesterday's recipe when there is more than one recipe. */
    method ChooseRecipe(d: DayDraw) returns (chosen: Recipe)
      requires Valid()
      ensures chosen == Choose(setup, State(), d)
    {
      var wantMeat := Below(d.meatDraw, setup.meatRatio);
      var pool := PoolFor(wantMeat);
      var picked := PickWeighted(pool, setup.now, d.picks[0]);
      chosen := picked.GetOr(setup.recipes[0]);
      if lastCookedId.Some? && lastCookedId.value != "" && |setup.recipes| > 1 {
        chosen := AvoidRepeat(pool, chosen, lastCookedId.value, d);
      }
    }

    /** A leftovers night from the entry at `k`: keep a positive remainder
        in place, otherwise delete the entry. */
    method EatLeftovers(date: string, k: nat)
      requires k < |leftovers|
      modifies this
      ensures State() == ServeLeftovers(setup, old(State()), date, k)
    {
      var key := leftovers[k].key;
      var remaining := leftovers[k].balance - setup.people;
      if remaining > 0.0 {
        leftovers := leftovers[k := Entry(key, remaining)];
      } else {
        leftovers := leftovers[..k] + leftovers[k + 1..];
      }
      dinners := dinners + [Leftovers(date, key)];
    }

    /** A cooking night: record it, remember the recipe, bank the surplus. */
    method CookChosen(date: string, chosen: Recipe)
      modifies this
      ensures State() == CookRecipe(setup, old(State()), date, chosen)
    {
      var portions := if chosen.portions.Finite? then chosen.portions.value else 1.0;
      var produced := if portions - setup.people > 0.0 then portions - setup.people else 0.0;
      assert produced == Surplus(setup, chosen);
      var bank := leftovers;
      if setup.allowLeftovers && produced > 0.0 {
        bank := Deposit(bank, chosen.id, produced);
      }
      dinners, lastCookedId, leftovers := dinners + [Cook(date, chosen.id)], Some(chosen.id), bank;
    }

    /** Day `i` of the loop. */
    method ServeDay(i: nat, d: DayDraw)
      requires Valid()
      modifies this
      ensures State() == DayStep(setup, old(State()), i, d)
    {
      var dateStr := DateText(setup.start, i);
      if setup.allowLeftovers && |leftovers| > 0 && d.leftoverDraw < LeftoverChance {
        var best := FindBest();
        if best.Some? {
          EatLeftovers(dateStr, best.value);
          return;
        }
      }
      var chosen := ChooseRecipe(d);
      CookChosen(dateStr, chosen);
    }

    /** `for (let i = 0; i < days; i++)`. */
    method Generate(days: real, draws: seq<DayDraw>)
      requires Valid() && State() == Initial && days >= 0.0 && DayCount(days) <= |draws|
      modifies this
      ensures State() == Run(setup, draws, DayCount(days))
    {
      var i := 0;
      DayCountBound(days, 0);
      while (i as real) < days
        invariant 0 <= i <= DayCount(days)
        invariant State() == Run(setup, draws, i)
        decreases DayCount(days) - i
      {
        DayCountBound(days, i);
        ServeDay(i, draws[i]);
        i := i + 1;
      }
      DayCountBound(days, i);
    }
  }

  /** `POST /meal-plans/generate`: the checks, the empty-list answer, the
      day loop and the titles. */
  method GenerateHandler(req: GenerateRequest, recipes: seq<Recipe>, now: int, draws: seq<DayDraw>) returns (res: GenerateResponse)
    requires |draws| >= 31
    ensures res == Respond(req, recipes, now, draws)
  {
    var r := Settled(req);
    if !Truthy(r.startDate) {
      return BadRequest("startDate is required (YYYY-MM-DD)");
    }
    if !InRange(r.days, 1.0, 31.0) {
      return BadRequest("days must be 1..31");
    }
    if !InRange(r.people, 1.0, 20.0) {
      return BadRequest("people must be 1..20");
    }
    if |recipes| == 0 {
      return Planned(Proposal(r.startDate, r.days, r.people, r.meatRatio, r.allowLeftovers, []), [NoRecipesWarning]);
    }
    var run := new PlanRun(SetupFor(req, recipes, now));
    DayCountAtMost(r.days.value, 31);
    run.Generate(r.days.value, draws);
    res := Planned(Proposal(r.startDate, r.days, r.people, r.meatRatio, r.allowLeftovers, WithTitles(recipes, run.dinners)), []);
  }
}
