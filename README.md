# Din-Dins: a Dafny model of the dinner planner and its recipe pipeline

This project models the core of a household recipe and dinner-planning application.

The centre is the **dinner-plan generator** behind `POST /meal-plans/generate`. For a start date, a number of days, a party size, a meat ratio and a leftovers switch, it walks the days in order. Each day it either:
- serves leftovers from a *leftover bank* (recipe id → portions left), after a 35% coin and only while the bank is not empty; or
- cooks a recipe. The recipe is drawn by novelty weight from the meat or the non-meat pool, re-drawn up to five times against yesterday's recipe, and its surplus portions are banked.

At the end every dinner gets a display title. The save route (`POST /meal-plans`) checks the plan and picks out the recipe ids whose `lastPlannedAt` it bumps.

Around it the model covers:
- the recipe create route: checks, and cleaning of ingredients, method steps and tags;
- the allow-list middleware;
- the recipe wizard's form: loading, row edits, validity checks, navigation and the submit payload;
- the cook-time and quantity sanitisers of the basics and ingredients steps;
- the planner page: today's date, swap search and 60-row cap, swap edit, save guard;
- the recipes list filters and the recipe page's display helpers;
- the `apiFetch` header and URL rules of the front end.

Layout, one module per source file plus shared modules:

| file | module | models |
|---|---|---|
| `wrappers.dfy` | `Wrappers` | `Option`, `Result` |
| `js_values.dfy` | `JsValues` | JSON request values: truthiness, `String(x)`, `??`, destructuring defaults, `Number(x)` |
| `text.dfy` | `Text` | `trim` and the `\s` class, ASCII `toLowerCase`, `includes`, `split`/`join`, comma lists, `String(n)`/`parseInt`, `padStart` |
| `lists.dfy` | `Lists` | `Array.prototype.filter` as an order-preserving sublist |
| `dates.dfy` | `Dates` | civil dates, `addDays`, `toISODate`, the `YYYY-MM-DD` start-date parse |
| `meal_plan_rules.dfy` | `MealPlanRules` | the generator and save route as pure specification functions, with their lemmas |
| `meal_plan_routes.dfy` | `MealPlanRoutes` | the handler as it runs: `pickWeighted`'s loops and a `PlanRun` class that updates the bank, the dinners and `lastCookedId` in place, each method proved to compute the rules |
| `recipes_routes.dfy` | `RecipesRoutes` | `POST /recipes` |
| `allowed_user.dfy` | `AllowedUser` | `requireAllowedUser` |
| `recipe_form.dfy` | `RecipeForm` | the wizard form, with a `RecipeWizard` class for its state |
| `basic_step.dfy` | `BasicStep` | the basics step's edits |
| `ingredients_step.dfy` | `IngredientsStep` | the Qty box's three replacements |
| `meal_planner.dfy` | `MealPlanner` | the planner page, with a `PlannerPage` class for its state |
| `recipes_list.dfy` | `RecipesList` | the recipes page filters |
| `recipe_detail.dfy` | `RecipeDetail` | the recipe page |
| `use_api.dfy` | `UseApi` | `apiFetch`, with a `Headers` class |

Inputs that are not part of the program's logic are parameters:
- the recipe list a query returns, in stored order;
- the clock `Date.now()`, as `now` in milliseconds;
- the values `Math.random()` returns: one `DayDraw` per day, holding the leftovers coin, the meat coin and six pick draws;
- the signed-in state and access token of `apiFetch`;
- today's local date on the planner page.

## Model

| member | source | states |
|---|---|---|
| `Dates.DaysInMonth` | backend/src/routes/mealPlansRoutes.js:15-19 | month lengths of the Gregorian calendar: 31 exactly for the seven long months, 29 in February exactly in leap years |
| `Dates.NextDay` | backend/src/routes/mealPlansRoutes.js:15-19 | the next day is a valid date strictly after the given one, in the same month or on the 1st |
| `Dates.AddDays` | backend/src/routes/mealPlansRoutes.js:15-19 | adding days to a valid date gives a valid date |
| `Dates.AddDaysSucc` | backend/src/routes/mealPlansRoutes.js:15-19 | `n + 1` days on is one day after `n` days on |
| `Dates.AddDaysAdd` | backend/src/routes/mealPlansRoutes.js:15-19 | adding `i` then `j` days is adding `i + j` days |
| `Dates.AddDaysIncreasing` | backend/src/routes/mealPlansRoutes.js:15-19 | larger offsets give strictly later dates, so a plan's dates are distinct and ordered |
| `Dates.AddDaysWithinMonth` | backend/src/routes/mealPlansRoutes.js:15-19 | inside a month, adding days only moves the day of the month |
| `Dates.ToISODateIsFullDate` | backend/src/routes/mealPlansRoutes.js:7-13 | a four-digit-year date renders as `YYYY-MM-DD` with zero-padded month and day |
| `Dates.ParseFullDate` | backend/src/routes/mealPlansRoutes.js:93 | a parsed start date is a valid calendar date |
| `Dates.ParseToISODate` | backend/src/routes/mealPlansRoutes.js:7-13 | reading back what `toISODate` prints gives the same date |
| `Dates.ParseRollsOver` | backend/src/routes/mealPlansRoutes.js:93 | an overflowing day such as `2023-02-30` rolls over into the next month (2 March), as `new Date` does |
| `Text.LeadingSpace` | backend/src/routes/recipesRoutes.js:33 | the whitespace prefix: all of it whitespace, followed by a non-space |
| `Text.TrailingSpace` | backend/src/routes/recipesRoutes.js:33 | the whitespace suffix: all of it whitespace, preceded by a non-space |
| `Text.Trim` | backend/src/routes/recipesRoutes.js:33 | `trim` gives the infix of the input that starts right after its leading whitespace and is followed only by whitespace, with no whitespace at either end; it is empty exactly when the input is all whitespace |
| `Text.TrimOfTrimmed` | backend/src/routes/recipesRoutes.js:56-57 | trimming a trimmed string changes nothing |
| `Text.TrimSpacePrefix` | backend/src/routes/recipesRoutes.js:33 | leading whitespace does not survive `trim` |
| `Text.Lower` | backend/src/routes/mealPlansRoutes.js:22 | `toLowerCase` keeps the length and maps each character on its own |
| `Text.SearchKey` | frontend/src/pages/RecipeWizard/MealPlanner.jsx:61 | the search key is empty exactly when the query is blank |
| `Text.Split` | backend/src/middleware/allowedUser.js:6 | `split` gives at least one part, none holding the separator, and joining the parts gives the input back |
| `Text.SplitJoin` | frontend/src/pages/RecipeWizard/RecipeForm.jsx:161-162 | split is the inverse of join on separator-free parts |
| `Text.TrimAll` | backend/src/middleware/allowedUser.js:7 | `map(trim)`: same length, each part trimmed |
| `Text.NonEmpty` | backend/src/middleware/allowedUser.js:8 | `filter(Boolean)` keeps exactly the non-empty parts, all of them when none is empty |
| `Text.NonEmptyIsFilter` | backend/src/middleware/allowedUser.js:8 | `filter(Boolean)` on strings is `Lists.Filter` with truthiness, so every non-empty part is kept as often as it occurs, in order |
| `Text.CommaList` | backend/src/middleware/allowedUser.js:5-8 | the entries of a comma list are non-empty, trimmed and comma-free |
| `Text.CommaListMembers` | backend/src/middleware/allowedUser.js:5-8 | a string is an entry exactly when it is a non-empty trimmed comma-separated piece |
| `Text.CommaListOfEmpty` | backend/src/middleware/allowedUser.js:5-8 | an empty comma list has no entries |
| `Text.CommaListOfJoin` | frontend/src/pages/RecipeWizard/RecipeForm.jsx:29-31 | joining clean tags with `", "` and reading the result as a comma list gives the tags back |
| `Text.LeadingDigits` | frontend/src/pages/RecipeWizard/steps/BasicStep.jsx:8 | the maximal run of digits at the start |
| `Text.LeadingDigitsOf` | frontend/src/pages/RecipeWizard/steps/BasicStep.jsx:8 | when digits are followed by a non-digit, the leading run is exactly those digits |
| `Text.NatToString` | frontend/src/pages/RecipeWizard/steps/BasicStep.jsx:18 | `String(n)` is a non-empty digit string with no leading zero except for `0` itself |
| `Text.DigitsValueOfNatToString` | frontend/src/pages/RecipeWizard/steps/BasicStep.jsx:18 | `parseInt` of `String(n)` is `n` |
| `Text.NatToStringOfDigits` | frontend/src/pages/RecipeWizard/steps/BasicStep.jsx:18 | printing the value of a digit string without a leading zero gives that string back |
| `Text.IntToString` | backend/src/routes/mealPlansRoutes.js:9 | a non-negative integer prints as its decimal digits |
| `Text.PadStart2` | backend/src/routes/mealPlansRoutes.js:10-11 | `padStart(2, "0")`: at least two characters, the input at the end, zeros in front |
| `JsValues.UnsignedDecimal` | backend/src/routes/mealPlansRoutes.js:126 | a digit string reads as its decimal value; an accepted literal starts with a digit or a dot and is not negative |
| `JsValues.StringToNumber` | backend/src/routes/mealPlansRoutes.js:126 | `Number` of text: blank text is 0; the result is +Infinity exactly for the trimmed words `Infinity` and `+Infinity` and -Infinity exactly for `-Infinity`; trimmed digits read as their decimal value |
| `JsValues.StringToNumberOfNat` | backend/src/routes/mealPlansRoutes.js:126 | `Number(String(n))` is `n` |
| `JsValues.UnsignedNumber` | backend/src/routes/mealPlansRoutes.js:126 | text that trims to an unsigned decimal literal reads as that literal's value |
| `JsValues.DecimalFraction` | backend/src/routes/mealPlansRoutes.js:126 | digits, a dot and digits read as the whole part plus the fraction digits over ten to their count |
| `JsValues.MantissaOfFraction` | backend/src/routes/mealPlansRoutes.js:126 | a dotted literal splits into its whole and fraction digits |
| `JsValues.DecimalExponent` | backend/src/routes/mealPlansRoutes.js:126 | digits, `e` and digits read as the first number times ten to the second |
| `JsValues.MantissaOfExponent` | backend/src/routes/mealPlansRoutes.js:126 | a literal with an exponent splits into its digits and the exponent part |
| `JsValues.ExponentOfDigits` | backend/src/routes/mealPlansRoutes.js:126 | `e` followed by digits is that power of ten |
| `JsValues.NegatedNumber` | backend/src/routes/mealPlansRoutes.js:126 | a leading minus negates an unsigned literal |
| `JsValues.PaddedNumber` | backend/src/routes/mealPlansRoutes.js:126 | surrounding blanks do not change the number |
| `JsValues.FractionExample` | backend/src/routes/mealPlansRoutes.js:126 | `"0.7"` is 0.7 |
| `JsValues.LeadingDotExample` | backend/src/routes/mealPlansRoutes.js:126 | `".5"` is 0.5 |
| `JsValues.ExponentExample` | backend/src/routes/mealPlansRoutes.js:126 | `"1e2"` is 100 |
| `JsValues.NegativeExample` | backend/src/routes/mealPlansRoutes.js:126 | `"-2"` is -2 |
| `JsValues.DotIsNaN` | backend/src/routes/mealPlansRoutes.js:126 | a lone dot is NaN |
| `JsValues.WordIsNaN` | backend/src/routes/mealPlansRoutes.js:126 | a word is NaN |
| `JsValues.OrElse` | backend/src/routes/recipesRoutes.js:41 | `x ?? fallback` is the fallback exactly for `undefined` and `null`, and `x` itself for every other value |
| `Lists.Filter` | frontend/src/pages/RecipeWizard/RecipesList.jsx:46-50 | `filter` keeps an ordered sublist holding exactly the elements the predicate accepts, each as often as it occurs in the input |
| `Lists.FilterAll` | frontend/src/pages/RecipeWizard/RecipesList.jsx:44-56 | a filter that accepts everything returns the list unchanged |
| `Lists.SublistLength` | frontend/src/pages/RecipeWizard/RecipesList.jsx:112 | a sublist is no longer than its list |
| `MealPlanRules.Ids` | backend/src/routes/mealPlansRoutes.js:161 | the ids of the recipes, position by position |
| `MealPlanRules.MeatProteinExamples` | backend/src/routes/mealPlansRoutes.js:21-24 | `isMeatProtein` ignores letter case but not surrounding blanks: "Beef" and "FISH" are meat; "Vegetarian", " beef" and "" are not |
| `MealPlanRules.MeatRecipes` | backend/src/routes/mealPlansRoutes.js:86 | the meat list holds exactly the recipes with a meat protein |
| `MealPlanRules.VegRecipes` | backend/src/routes/mealPlansRoutes.js:87 | the other list holds exactly the rest |
| `MealPlanRules.MeatVegPartition` | backend/src/routes/mealPlansRoutes.js:86-87 | the two lists together are the recipe list, as a multiset |
| `MealPlanRules.Pool` | backend/src/routes/mealPlansRoutes.js:128-134 | the day's pool is drawn from the recipes, never empty when there are recipes, the wanted kind when it exists, and all recipes otherwise |
| `MealPlanRules.Weight` | backend/src/routes/mealPlansRoutes.js:30-38 | a novelty weight lies between 1 and 60 |
| `MealPlanRules.WeightIsClampedAge` | backend/src/routes/mealPlansRoutes.js:31-37 | the weight is the age in whole days (from the epoch when never planned), clamped to 1..60 |
| `MealPlanRules.NeverPlannedWeighsMost` | backend/src/routes/mealPlansRoutes.js:31 | a never-planned recipe weighs the full 60 |
| `MealPlanRules.OlderWeighsMore` | backend/src/routes/mealPlansRoutes.js:27-37 | a recipe planned longer ago weighs at least as much |
| `MealPlanRules.Weights` | backend/src/routes/mealPlansRoutes.js:30-39 | one weight per pool recipe, in pool order |
| `MealPlanRules.PrefixIncreasing` | backend/src/routes/mealPlansRoutes.js:41-47 | with positive weights the running sums strictly increase |
| `MealPlanRules.PickIndex` | backend/src/routes/mealPlansRoutes.js:44-48 | the roll loop stops at the first index whose running sum reaches the roll, or at the last index |
| `MealPlanRules.PickIndexUnique` | backend/src/routes/mealPlansRoutes.js:44-48 | that stopping index is the only one with this property |
| `MealPlanRules.PickInterval` | backend/src/routes/mealPlansRoutes.js:41-47 | recipe `i` is picked exactly for rolls in its own weight-long interval of running sums |
| `MealPlanRules.PickWithinTotal` | backend/src/routes/mealPlansRoutes.js:42-48 | a roll below the total always lands inside the picked recipe's interval |
| `MealPlanRules.ScaledDraw` | backend/src/routes/mealPlansRoutes.js:42 | `Math.random() * total` lies in `[0, total)` |
| `MealPlanRules.Pick` | backend/src/routes/mealPlansRoutes.js:26-49 | `pickWeighted` returns a member of the pool, and nothing exactly when the pool is empty |
| `MealPlanRules.PickProportional` | backend/src/routes/mealPlansRoutes.js:26-49 | each pool recipe is picked for the draws whose roll falls in its weight-sized interval |
| `MealPlanRules.Keys` | backend/src/routes/mealPlansRoutes.js:90 | the bank's keys, in insertion order |
| `MealPlanRules.IndexOf` | backend/src/routes/mealPlansRoutes.js:156 | a key's position in the bank, or none exactly when it is absent |
| `MealPlanRules.Deposit` | backend/src/routes/mealPlansRoutes.js:155-156 | adding portions keeps other entries in place, appends a new key at the end, keeps keys distinct, raises the key's balance by the amount, and keeps balances positive |
| `MealPlanRules.Withdraw` | backend/src/routes/mealPlansRoutes.js:111-114 | serving `people` keeps a positive remainder in place or deletes the entry, adds no key, and keeps keys distinct and balances positive |
| `MealPlanRules.BestAmong` | backend/src/routes/mealPlansRoutes.js:102-107 | the entry served has a non-empty key and the largest balance, the earliest on ties; none only when every key is empty |
| `MealPlanRules.Draw` | backend/src/routes/mealPlansRoutes.js:136 | `pickWeighted(pool) \|\| allRecipes[0]` is one of the recipes |
| `MealPlanRules.Redraw` | backend/src/routes/mealPlansRoutes.js:139-144 | the re-draws return one of the recipes |
| `MealPlanRules.RedrawFirstDifferent` | backend/src/routes/mealPlansRoutes.js:139-144 | the re-draws keep the first draw whose id differs from yesterday's, or the sixth draw when none differs |
| `MealPlanRules.Choose` | backend/src/routes/mealPlansRoutes.js:126-144 | a cooking day's recipe is one of the user's recipes |
| `MealPlanRules.ChooseKeepsFirstDraw` | backend/src/routes/mealPlansRoutes.js:136-139 | with no previous id, an empty (falsy) one, or a single recipe, the first draw is kept |
| `MealPlanRules.ChooseAvoidsRepeat` | backend/src/routes/mealPlansRoutes.js:139-144 | with a truthy previous id and more than one recipe, the day repeats yesterday's recipe only when all six draws give it |
| `MealPlanRules.NumeralMeatRatio` | backend/src/routes/mealPlansRoutes.js:126 | a meat ratio sent as the text of a whole number `n` compares as `n`: every day wants meat when `n` is at least 1 and none when it is 0 |
| `MealPlanRules.TextMeatRatio` | backend/src/routes/mealPlansRoutes.js:126 | the text `"0.7"` is the ratio 0.7; text trimming to `Infinity` makes every day want meat, and `-Infinity` none |
| `MealPlanRules.Surplus` | backend/src/routes/mealPlansRoutes.js:150-153 | the surplus is never negative, and positive exactly when the portions exceed the party |
| `MealPlanRules.LeftoverChoice` | backend/src/routes/mealPlansRoutes.js:101-110 | a leftovers night happens exactly when leftovers are on, the 35% coin falls, and the bank has an entry with a non-empty key; that entry is the one served |
| `MealPlanRules.DayStep` | backend/src/routes/mealPlansRoutes.js:96-158 | a day appends exactly one night, dated `start + i`, and keeps the earlier nights |
| `MealPlanRules.Run` | backend/src/routes/mealPlansRoutes.js:96 | a run of `n` days has `n` nights |
| `MealPlanRules.DayCountBound` | backend/src/routes/mealPlansRoutes.js:96 | day `i` runs exactly when `i < days`, so fractional `days` gives `ceil(days)` dinners |
| `MealPlanRules.ServeLeftoversConsistent` | backend/src/routes/mealPlansRoutes.js:111-121 | a leftovers night keeps the run invariant: positive balances, distinct keys, every banked recipe cooked earlier, nights sourced |
| `MealPlanRules.CookRecipeConsistent` | backend/src/routes/mealPlansRoutes.js:146-157 | a cooking night keeps the run invariant, and with leftovers off the bank stays empty |
| `MealPlanRules.DayStepConsistent` | backend/src/routes/mealPlansRoutes.js:96-158 | each day keeps the run invariant |
| `MealPlanRules.RunConsistent` | backend/src/routes/mealPlansRoutes.js:90-158 | every run satisfies the invariant |
| `MealPlanRules.RunDates` | backend/src/routes/mealPlansRoutes.js:96-97 | night `j` is dated `start + j` days, and the first night cooks |
| `MealPlanRules.FirstDayCooks` | backend/src/routes/mealPlansRoutes.js:90-101 | the bank starts empty, so the first day cooks |
| `MealPlanRules.RunExtends` | backend/src/routes/mealPlansRoutes.js:96-158 | a longer run begins with the nights of a shorter one |
| `MealPlanRules.NoLeftoversAllCook` | backend/src/routes/mealPlansRoutes.js:101-157 | with leftovers off the bank stays empty and every night cooks |
| `MealPlanRules.FindLast` | backend/src/routes/mealPlansRoutes.js:161 | a lookup by id finds a recipe with that id (the later one when ids repeat), and nothing exactly when no recipe has it |
| `MealPlanRules.WithTitles` | backend/src/routes/mealPlansRoutes.js:162-169 | each night keeps its place and gets its title |
| `MealPlanRules.TitlesOfRun` | backend/src/routes/mealPlansRoutes.js:161-169 | in a generated plan every lookup succeeds: cooking nights carry the recipe's name, leftovers nights `Leftovers: ` and the name |
| `MealPlanRules.Validate` | backend/src/routes/mealPlansRoutes.js:53-68 | a request passes exactly when `startDate` is truthy, `days` is a finite number in 1..31 and `people` one in 1..20; otherwise the first failing check's message is returned: the `startDate` message, then the `days` message, then the `people` message |
| `MealPlanRules.RejectedRequest` | backend/src/routes/mealPlansRoutes.js:61-68 | a failing request gets that 400 error, whatever the recipes, clock and draws |
| `MealPlanRules.NoRecipes` | backend/src/routes/mealPlansRoutes.js:72-84 | with no recipes the plan has no dinners and carries exactly the one warning |
| `MealPlanRules.RespondRuns` | backend/src/routes/mealPlansRoutes.js:86-180 | a valid request with recipes gets the titled nights of a run of `ceil(days)` days, at most 31, with no warnings |
| `MealPlanRules.RunIsDated` | backend/src/routes/mealPlansRoutes.js:96-97 | the dinners carry consecutive dates from the start date, and the first cooks |
| `MealPlanRules.RunIsSourced` | backend/src/routes/mealPlansRoutes.js:116-147 | every cooked recipe is the user's, every leftovers night eats a recipe cooked on an earlier night, and with leftovers off every night cooks |
| `MealPlanRules.RunIsTitled` | backend/src/routes/mealPlansRoutes.js:161-169 | every dinner's title is taken from its recipe |
| `MealPlanRules.GeneratedPlan` | backend/src/routes/mealPlansRoutes.js:52-181 | every proposed plan is dated, sourced and titled, and has `ceil(days)` dinners, between 1 and 31 |
| `MealPlanRules.CookedIds` | backend/src/routes/mealPlansRoutes.js:203-205 | the bump list is no longer than the dinners |
| `MealPlanRules.CookedIdsMembers` | backend/src/routes/mealPlansRoutes.js:203-205 | the bump list holds exactly the truthy `recipeId`s of `cook` dinners |
| `MealPlanRules.Save` | backend/src/routes/mealPlansRoutes.js:184-212 | a plan is stored exactly when `startDate` is truthy and `dinners` is a non-empty array, with "startDate is required" checked first; the bumped ids are the cooked ids |
| `MealPlanRules.SaveMarksCooked` | backend/src/routes/mealPlansRoutes.js:203-212 | saving a generated plan bumps exactly its cooked recipes, in plan order, and no leftovers night |
| `MealPlanRoutes.PickWeighted` | backend/src/routes/mealPlansRoutes.js:26-49 | the two loops compute `Pick`: sum the weights, scale the draw, subtract weights until the roll is not positive, fall back to the last |
| `MealPlanRoutes.PlanRun.constructor` | backend/src/routes/mealPlansRoutes.js:86-94 | a run starts with an empty bank, no dinners and no recipe cooked |
| `MealPlanRoutes.PlanRun.FindBest` | backend/src/routes/mealPlansRoutes.js:102-107 | the scan over the bank's entries finds the best entry |
| `MealPlanRoutes.PlanRun.PoolFor` | backend/src/routes/mealPlansRoutes.js:128-134 | the pool of the day is `Pool` |
| `MealPlanRoutes.PlanRun.AvoidRepeat` | backend/src/routes/mealPlansRoutes.js:140-143 | the retry loop computes `Redraw` |
| `MealPlanRoutes.PlanRun.ChooseRecipe` | backend/src/routes/mealPlansRoutes.js:126-144 | the recipe chosen is `Choose` of the current state |
| `MealPlanRoutes.PlanRun.EatLeftovers` | backend/src/routes/mealPlansRoutes.js:111-121 | the new state is a leftovers night from that entry |
| `MealPlanRoutes.PlanRun.CookChosen` | backend/src/routes/mealPlansRoutes.js:146-157 | the new state is a cooking night: the dinner pushed, the recipe remembered, the surplus banked |
| `MealPlanRoutes.PlanRun.ServeDay` | backend/src/routes/mealPlansRoutes.js:97-157 | the new state is `DayStep` of the old one |
| `MealPlanRoutes.PlanRun.Generate` | backend/src/routes/mealPlansRoutes.js:96-158 | after the day loop the state is the run of `ceil(days)` days |
| `MealPlanRoutes.GenerateHandler` | backend/src/routes/mealPlansRoutes.js:52-181 | the handler answers with `Respond` |
| `RecipesRoutes.PresenceOf` | backend/src/routes/recipesRoutes.js:33-34 | `!x?.trim()` passes only a non-blank string, and throws for a value that is neither absent nor a string |
| `RecipesRoutes.Elements` | backend/src/routes/recipesRoutes.js:38 | `(list \|\| [])` throws exactly on a truthy non-array; an array gives its own elements, and an absent or falsy value gives `[]` |
| `RecipesRoutes.CleanText` | backend/src/routes/recipesRoutes.js:41-42 | `String(x ?? "").trim()` is `""` for a missing or null value and otherwise the trimmed `String` of the value |
| `RecipesRoutes.CleanIngredient` | backend/src/routes/recipesRoutes.js:40-44 | the name is the trimmed `String` of the name, quantity and unit are cleaned with the `""` default, and every field is trimmed |
| `RecipesRoutes.CleanIngredients` | backend/src/routes/recipesRoutes.js:38-44 | kept ingredients are no more than the input, each with a non-empty trimmed name and trimmed fields |
| `RecipesRoutes.CleanIngredientsKept` | backend/src/routes/recipesRoutes.js:38-44 | the stored ingredients are exactly the inputs with a truthy, non-blank name, in order and as often as they occur, each cleaned by `CleanIngredient` |
| `RecipesRoutes.CleanIngredientsAppend` | backend/src/routes/recipesRoutes.js:38-44 | cleaning works element by element, keeping order |
| `RecipesRoutes.CleanMethod` | backend/src/routes/recipesRoutes.js:46-48 | kept steps are no more than the input, each non-empty and trimmed |
| `RecipesRoutes.CleanedStep` | backend/src/routes/recipesRoutes.js:46-48 | a step yields its trimmed text exactly when the text is truthy and not blank, and nothing otherwise |
| `RecipesRoutes.CleanMethodKept` | backend/src/routes/recipesRoutes.js:46-48 | the stored steps are exactly the inputs with truthy, non-blank text, in order and as often as they occur, each trimmed |
| `RecipesRoutes.CleanMethodAppend` | backend/src/routes/recipesRoutes.js:46-48 | step cleaning works element by element, keeping order |
| `RecipesRoutes.CleanTags` | backend/src/routes/recipesRoutes.js:50-52 | tags are non-empty and trimmed, and a non-array gives none |
| `RecipesRoutes.CleanTagsKept` | backend/src/routes/recipesRoutes.js:50-52 | for an array, the tags are exactly the trimmed `String`s of the entries that are not blank, in order and as often as they occur |
| `RecipesRoutes.Create` | backend/src/routes/recipesRoutes.js:20-70 | a failure is a 400 or a 500; a stored recipe is clean; "Name is required" exactly for a blank name, then "Protein is required" exactly for a blank protein, then "Portions must be >= 1" exactly when portions are not a number of at least 1; a name or protein that is neither absent, null nor text makes `trim` throw and gives a 500, and so does a truthy non-array ingredients or method value; a recipe is created exactly when all checks pass and both lists are readable, and it is `Accepted` of the request with those lists |
| `RecipesRoutes.Accepted` | backend/src/routes/recipesRoutes.js:54-64 | the stored name and protein are trimmed; the portions are the request's number; cook time and image URL are the trimmed `String` of the value, `""` only when missing; tags, ingredients and method are the cleaned lists |
| `RecipesRoutes.DefaultText` | backend/src/routes/recipesRoutes.js:26-30 | a property destructured with the default `''` is `""` only when missing and otherwise the trimmed `String` of the value |
| `RecipesRoutes.CleanIngredientsOfClean` | backend/src/routes/recipesRoutes.js:38-44 | cleaning clean ingredients gives them back |
| `RecipesRoutes.CleanMethodOfClean` | backend/src/routes/recipesRoutes.js:46-48 | cleaning clean steps gives them back |
| `RecipesRoutes.CleanTagsOfClean` | backend/src/routes/recipesRoutes.js:50-52 | cleaning clean tags gives them back |
| `RecipesRoutes.CreateChecked` | backend/src/routes/recipesRoutes.js:33-64 | a request passing the three checks with array lists is stored |
| `RecipesRoutes.CreateWithoutLists` | backend/src/routes/recipesRoutes.js:22-31 | a request passing the checks with its ingredients and method absent or falsy is stored with both lists empty |
| `RecipesRoutes.ResubmitClean` | backend/src/routes/recipesRoutes.js:22-64 | cleaning is idempotent: posting a stored recipe again stores it unchanged |
| `AllowedUser.AllowList` | backend/src/middleware/allowedUser.js:5-8 | the allow-list's entries are non-empty and trimmed, and there are none when the variable is unset |
| `AllowedUser.Decide` | backend/src/middleware/allowedUser.js:1-21 | auth off admits everyone; auth on admits exactly a string `sub` on the list; an empty list or a missing `sub` gets 403 "Access not allowed" |
| `AllowedUser.AdmittedEntries` | backend/src/middleware/allowedUser.js:5-20 | a subject is admitted exactly when it is one of the trimmed non-empty comma pieces, so a padded `sub` never matches |
| `AllowedUser.AdmitsListed` | backend/src/middleware/allowedUser.js:5-20 | an allow-list written as `a, b, c` admits exactly the listed subjects |
| `RecipeForm.IngredientRowOf` | frontend/src/pages/RecipeWizard/RecipeForm.jsx:34-38 | a missing ingredient loads as a blank row |
| `RecipeForm.IngredientRowsOf` | frontend/src/pages/RecipeWizard/RecipeForm.jsx:32-39 | one row per stored ingredient, in order |
| `RecipeForm.StepRowsOf` | frontend/src/pages/RecipeWizard/RecipeForm.jsx:40-43 | one row per stored step, missing text as `""` |
| `RecipeForm.NormalizeForForm` | frontend/src/pages/RecipeWizard/RecipeForm.jsx:18-48 | no recipe gives the blank form; otherwise name, protein, cook time and both image fields fall back to `""`, portions to 1, array tags become their `", "` join and other tags `tags ?? ""`, a non-empty stored ingredient or method list loads row by row and an empty or missing one falls back to the blank form's list; the result always has an ingredient row and a method list with a step |
| `RecipeForm.MethodValidity` | frontend/src/pages/RecipeWizard/RecipeForm.jsx:133-135 | `methodValid` is defined exactly when the form has a method list, and true exactly when a step is not blank |
| `RecipeForm.CanGoNextCases` | frontend/src/pages/RecipeWizard/RecipeForm.jsx:137-142 | Next needs `basicsValid` on the basics step and `ingredientsValid` on the ingredients step, and is always allowed on photo and review |
| `RecipeForm.DropIndex` | frontend/src/pages/RecipeWizard/RecipeForm.jsx:95 | the filter drops exactly the indexed row, or nothing for an index out of range |
| `RecipeForm.RemoveRow` | frontend/src/pages/RecipeWizard/RecipeForm.jsx:93-99 | removing never empties a list: a one-row list is unchanged, otherwise exactly the indexed row goes |
| `RecipeForm.SetField` | frontend/src/pages/RecipeWizard/RecipeForm.jsx:79 | the named field of the row becomes the value and every other field keeps its value |
| `RecipeForm.ParseTags` | frontend/src/pages/RecipeWizard/RecipeForm.jsx:161-164 | submitted tags are non-empty, trimmed and comma-free |
| `RecipeForm.TagsRoundTrip` | frontend/src/pages/RecipeWizard/RecipeForm.jsx:29-31 | clean stored tags, loaded into the form and submitted, come back unchanged |
| `RecipeForm.SubmitPayload` | frontend/src/pages/RecipeWizard/RecipeForm.jsx:175-185 | the payload carries the form's fields unchanged and the parsed tags |
| `RecipeForm.SubmitAcceptedIffWholePortion` | frontend/src/pages/RecipeWizard/RecipeForm.jsx:124-127 | a form passing the basics check is stored by the create route exactly when its portions are at least 1, so a fractional portion passes the wizard and is rejected on save |
| `RecipeForm.RecipeWizard.constructor` | frontend/src/pages/RecipeWizard/RecipeForm.jsx:58-61 | the wizard starts on the first step with the loaded form in edit mode and the blank form otherwise |
| `RecipeForm.RecipeWizard.HandleIngredientChange` | frontend/src/pages/RecipeWizard/RecipeForm.jsx:77-81 | only the given field of row `index` changes |
| `RecipeForm.RecipeWizard.AddIngredient` | frontend/src/pages/RecipeWizard/RecipeForm.jsx:83-91 | exactly one blank row is appended |
| `RecipeForm.RecipeWizard.RemoveIngredient` | frontend/src/pages/RecipeWizard/RecipeForm.jsx:93-99 | the ingredients become `RemoveRow` of the old ones |
| `RecipeForm.RecipeWizard.HandleMethodChange` | frontend/src/pages/RecipeWizard/RecipeForm.jsx:101-105 | only the text of step `index` changes |
| `RecipeForm.RecipeWizard.AddMethodStep` | frontend/src/pages/RecipeWizard/RecipeForm.jsx:107-112 | exactly one blank step is appended |
| `RecipeForm.RecipeWizard.RemoveMethodStep` | frontend/src/pages/RecipeWizard/RecipeForm.jsx:114-120 | the steps become `RemoveRow` of the old ones |
| `RecipeForm.RecipeWizard.GoBack` | frontend/src/pages/RecipeWizard/RecipeForm.jsx:144 | one step back, never before the first |
| `RecipeForm.RecipeWizard.GoNext` | frontend/src/pages/RecipeWizard/RecipeForm.jsx:145 | one step on, never past the last |
| `RecipeForm.RecipeWizard.Reset` | frontend/src/pages/RecipeWizard/RecipeForm.jsx:147-156 | back to the first step with the starting form |
| `RecipeForm.RowObject.constructor` | frontend/src/pages/RecipeWizard/constants.js:34 | a new row object is blank |
| `RecipeForm.SharedRowWizard.constructor` | frontend/src/pages/RecipeWizard/RecipeForm.jsx:58-61 | the form starts with the single row object of the blank form's list |
| `RecipeForm.SharedRowWizard.HandleIngredientChange` | frontend/src/pages/RecipeWizard/RecipeForm.jsx:77-81 | as written: the list keeps the same row objects and the edited row object itself changes, one field |
| `RecipeForm.SharedRowWizard.Reset` | frontend/src/pages/RecipeWizard/RecipeForm.jsx:147-156 | as written: the form gets the blank form's list back, holding the same shared row object |
| `RecipeForm.TypedRowSurvivesReset` | frontend/src/pages/RecipeWizard/RecipeForm.jsx:77-81 | as written: a name typed into the first row of a blank form is still in that row after a reset |
| `RecipeForm.ResetBlanksTypedRow` | frontend/src/pages/RecipeWizard/RecipeForm.jsx:147-156 | with rows held as values, the same edit and reset give the blank row back |
| `RecipeForm.RecipeWizard.NextEnabled` | frontend/src/pages/RecipeWizard/RecipeForm.jsx:133-142 | in every wizard state `methodValid` is defined and Next is enabled exactly when `canGoNext` holds on a step before the last |
| `RecipeForm.CreateFormRenderThrows` | frontend/src/pages/RecipeWizard/RecipeForm.jsx:133-135 | with `emptyRecipe` as declared, the create form has no method list and `methodValid` throws |
| `RecipeForm.EditWithoutStepsThrows` | frontend/src/pages/RecipeWizard/RecipeForm.jsx:40-43 | as declared, editing a recipe stored without method steps throws in the same way |
| `RecipeForm.NormalizedFormRenders` | frontend/src/pages/RecipeWizard/RecipeForm.jsx:18-48 | with the blank form's method list, every loaded form defines `methodValid` and has non-empty lists |
| `BasicStep.LeadingNonDigits` | frontend/src/pages/RecipeWizard/steps/BasicStep.jsx:8 | the position of the first digit |
| `BasicStep.CookTimeMinutes` | frontend/src/pages/RecipeWizard/steps/BasicStep.jsx:8 | the first maximal digit run of the cook time, or `""` exactly when it has no digit |
| `BasicStep.DigitsOf` | frontend/src/pages/RecipeWizard/steps/BasicStep.jsx:11 | `replace(/\D/g, "")` keeps every digit of the input, in order and as often as it occurs, and nothing else; nothing remains exactly when the input has no digit |
| `BasicStep.DigitsOfAppend` | frontend/src/pages/RecipeWizard/steps/BasicStep.jsx:11 | digit removal works piece by piece |
| `BasicStep.SpreadDigitsJoined` | frontend/src/pages/RecipeWizard/steps/BasicStep.jsx:10-20 | typing `1a2` stores `12 minutes`: digits spread through the text are joined |
| `BasicStep.CookTimeFor` | frontend/src/pages/RecipeWizard/steps/BasicStep.jsx:10-20 | no digits clear the cook time; otherwise it is the decimal value of the digits followed by ` minutes` |
| `BasicStep.HandleCookTimeChange` | frontend/src/pages/RecipeWizard/steps/BasicStep.jsx:10-20 | only the cook time changes |
| `BasicStep.CookTimeRoundTrip` | frontend/src/pages/RecipeWizard/steps/BasicStep.jsx:8-19 | the box reads back the typed number without its leading zeros |
| `BasicStep.CookTimeKeepsTypedNumber` | frontend/src/pages/RecipeWizard/steps/BasicStep.jsx:8-19 | typed digits not starting with `0` read back exactly |
| `BasicStep.CookTimeCleared` | frontend/src/pages/RecipeWizard/steps/BasicStep.jsx:13-16 | text without digits clears the cook time, and the box shows nothing |
| `BasicStep.PortionsFor` | frontend/src/pages/RecipeWizard/steps/BasicStep.jsx:65-72 | the stored portions are the typed number when finite and positive, otherwise 1, so always positive |
| `BasicStep.EditPortions` | frontend/src/pages/RecipeWizard/steps/BasicStep.jsx:65-72 | only the portions change, and they stay positive |
| `BasicStep.EditName` | frontend/src/pages/RecipeWizard/steps/BasicStep.jsx:33 | only the name changes |
| `BasicStep.EditProtein` | frontend/src/pages/RecipeWizard/steps/BasicStep.jsx:49 | only the protein changes |
| `BasicStep.EditTags` | frontend/src/pages/RecipeWizard/steps/BasicStep.jsx:109 | only the tags text changes |
| `BasicStep.EditsKeepForm` | frontend/src/pages/RecipeWizard/steps/BasicStep.jsx:14-109 | the step's edits keep the form's lists well formed |
| `BasicStep.PortionsEditKeepsBasics` | frontend/src/pages/RecipeWizard/steps/BasicStep.jsx:65-72 | after a portions edit `basicsValid` depends only on the name and protein |
| `IngredientsStep.Solid` | frontend/src/pages/RecipeWizard/steps/IngredientsStep.jsx:41-44 | the digits, dots and slashes of a string are no longer than it |
| `IngredientsStep.KeepQuantityChars` | frontend/src/pages/RecipeWizard/steps/IngredientsStep.jsx:41 | only digits, `.`, `/` and whitespace remain |
| `IngredientsStep.KeepIsFilter` | frontend/src/pages/RecipeWizard/steps/IngredientsStep.jsx:41 | the first replacement is the filter on `[\d./\s]`: every allowed character, whitespace included, stays in order and as often as typed |
| `IngredientsStep.KeepAppend` | frontend/src/pages/RecipeWizard/steps/IngredientsStep.jsx:41 | the first replacement works on each part of a concatenation separately |
| `IngredientsStep.TightenSlashes` | frontend/src/pages/RecipeWizard/steps/IngredientsStep.jsx:43 | the first character becomes `/` exactly where a whitespace run and a slash start the text |
| `IngredientsStep.TightenAppend` | frontend/src/pages/RecipeWizard/steps/IngredientsStep.jsx:43 | no match crosses a point just after a character that is neither whitespace nor `/`, so the text on each side is rewritten separately |
| `IngredientsStep.TightenAroundSlash` | frontend/src/pages/RecipeWizard/steps/IngredientsStep.jsx:43 | whitespace runs of any length around a slash, and the slash, become one `/` |
| `IngredientsStep.TightenKeepsSpaces` | frontend/src/pages/RecipeWizard/steps/IngredientsStep.jsx:43 | a whitespace run with no slash after it is kept unchanged |
| `IngredientsStep.TightenBetween` | frontend/src/pages/RecipeWizard/steps/IngredientsStep.jsx:43 | match by match: text, whitespace and a slash and whitespace, more text, rewrite to the two texts' rewrites around one `/` |
| `IngredientsStep.TightenLast` | frontend/src/pages/RecipeWizard/steps/IngredientsStep.jsx:43 | a last character that is neither whitespace nor `/` stays last |
| `IngredientsStep.CollapseSpaces` | frontend/src/pages/RecipeWizard/steps/IngredientsStep.jsx:44 | a leading whitespace run becomes one space |
| `IngredientsStep.CollapseAppend` | frontend/src/pages/RecipeWizard/steps/IngredientsStep.jsx:44 | no whitespace run crosses a point just after a non-whitespace character, so each side is collapsed separately |
| `IngredientsStep.CollapseRun` | frontend/src/pages/RecipeWizard/steps/IngredientsStep.jsx:44 | a whitespace run of any length becomes exactly one space |
| `IngredientsStep.CollapseBetween` | frontend/src/pages/RecipeWizard/steps/IngredientsStep.jsx:44 | run by run: text, one whitespace run, more text, collapse to the two texts' collapses around one space |
| `IngredientsStep.CleanQuantity` | frontend/src/pages/RecipeWizard/steps/IngredientsStep.jsx:41-45 | the stored quantity holds only digits, `.`, `/` and single spaces, none beside a `/`, and keeps the input's digits, dots and slashes in order |
| `IngredientsStep.KeepSolid` | frontend/src/pages/RecipeWizard/steps/IngredientsStep.jsx:41 | the first replacement keeps every digit, dot and slash |
| `IngredientsStep.TightenNoSpace` | frontend/src/pages/RecipeWizard/steps/IngredientsStep.jsx:43 | after the slash replacement no whitespace touches a slash |
| `IngredientsStep.TightenSolid` | frontend/src/pages/RecipeWizard/steps/IngredientsStep.jsx:43 | the slash replacement keeps every digit, dot and slash |
| `IngredientsStep.CollapseSingle` | frontend/src/pages/RecipeWizard/steps/IngredientsStep.jsx:44 | after the space replacement whitespace is single plain spaces |
| `IngredientsStep.CollapseSolid` | frontend/src/pages/RecipeWizard/steps/IngredientsStep.jsx:44 | the space replacement keeps every digit, dot and slash |
| `IngredientsStep.CollapseNoSpace` | frontend/src/pages/RecipeWizard/steps/IngredientsStep.jsx:44 | the space replacement puts no space beside a slash |
| `IngredientsStep.CleanQuantityIdempotent` | frontend/src/pages/RecipeWizard/steps/IngredientsStep.jsx:41-45 | cleaning a cleaned quantity changes nothing |
| `IngredientsStep.CleanQuantityOfClean` | frontend/src/pages/RecipeWizard/steps/IngredientsStep.jsx:41-45 | a quantity of digits, dots, slashes and single spaces, none beside a slash, is stored as typed |
| `IngredientsStep.CleanQuantityKeepsGap` | frontend/src/pages/RecipeWizard/steps/IngredientsStep.jsx:41-45 | a whitespace run between a digit or dot and a digit or dot survives as exactly one space, and each side is cleaned on its own |
| `IngredientsStep.MixedNumberExample` | frontend/src/pages/RecipeWizard/steps/IngredientsStep.jsx:41-45 | `1`, two spaces and `1/2` are stored as the mixed number `1 1/2` |
| `MealPlanner.TodayISO` | frontend/src/pages/RecipeWizard/MealPlanner.jsx:7-13 | today renders as a zero-padded `YYYY-MM-DD` that the generator reads back as the same day |
| `MealPlanner.FilteredRecipes` | frontend/src/pages/RecipeWizard/MealPlanner.jsx:60-70 | a blank query lists every recipe; otherwise exactly the recipes whose lower-cased name, protein or space-joined tags contain the key, in order |
| `MealPlanner.Shown` | frontend/src/pages/RecipeWizard/MealPlanner.jsx:283 | all of the matches when there are no more than 60, otherwise exactly the first 60, in order |
| `MealPlanner.CapNoteWhenCut` | frontend/src/pages/RecipeWizard/MealPlanner.jsx:310-314 | the cap note appears exactly when some matches are not shown |
| `MealPlanner.Swapped` | frontend/src/pages/RecipeWizard/MealPlanner.jsx:87-93 | only the chosen dinner changes, into a cooking night of the recipe on the same date, with the recipe's name as title |
| `MealPlanner.SwapKeepsDates` | frontend/src/pages/RecipeWizard/MealPlanner.jsx:87-93 | a swap keeps every date, and the swapped dinner is posted as a `cook` of the chosen recipe |
| `MealPlanner.PostedPlanSaved` | frontend/src/pages/RecipeWizard/MealPlanner.jsx:122-131 | a plan the page posts passes the dinner check, is stored exactly when it has a start date, and bumps its cooked recipes |
| `MealPlanner.PlannerPage.constructor` | frontend/src/pages/RecipeWizard/MealPlanner.jsx:24-34 | the page starts with no plan, the sheet closed and an empty query |
| `MealPlanner.PlannerPage.Listed` | frontend/src/pages/RecipeWizard/MealPlanner.jsx:283 | the sheet lists all of the matches when there are no more than 60, otherwise exactly the first 60, in order |
| `MealPlanner.PlannerPage.OpenSwap` | frontend/src/pages/RecipeWizard/MealPlanner.jsx:72-76 | opening the sheet on a dinner clears the query, so the sheet lists the first 60 recipes |
| `MealPlanner.PlannerPage.CloseSwap` | frontend/src/pages/RecipeWizard/MealPlanner.jsx:78-82 | closing clears the sheet's index and query |
| `MealPlanner.PlannerPage.ApplySwap` | frontend/src/pages/RecipeWizard/MealPlanner.jsx:84-97 | nothing without a plan or chosen dinner; otherwise the plan is its swapped copy and the sheet closes |
| `MealPlanner.PlannerPage.SaveSends` | frontend/src/pages/RecipeWizard/MealPlanner.jsx:123 | `save` posts exactly when there is a plan with dinners |
| `RecipesList.Filtered` | frontend/src/pages/RecipeWizard/RecipesList.jsx:44-51 | the list shown is an ordered sublist holding exactly the items both filters keep |
| `RecipesList.ShownCount` | frontend/src/pages/RecipeWizard/RecipesList.jsx:112 | "Showing n of m" never has n above m |
| `RecipesList.NoProteinFilter` | frontend/src/pages/RecipeWizard/RecipesList.jsx:47-48 | with `All` or no chip only the name query decides |
| `RecipesList.ProteinExact` | frontend/src/pages/RecipeWizard/RecipesList.jsx:47 | any other chip keeps only items whose protein equals it; with a blank query exactly those |
| `RecipesList.ProteinCaseSensitive` | frontend/src/pages/RecipeWizard/RecipesList.jsx:47 | a recipe stored as "chicken" is not listed under the "Chicken" chip |
| `RecipesList.QuerySearchesNamesOnly` | frontend/src/pages/RecipeWizard/RecipesList.jsx:48 | items with the same name match a query alike |
| `RecipesList.QueryIgnoresProtein` | frontend/src/pages/RecipeWizard/RecipesList.jsx:45-48 | searching "chicken" does not list a recipe named "Soup", whatever its protein and tags |
| `RecipesList.ClearFilters` | frontend/src/pages/RecipeWizard/RecipesList.jsx:53-56 | clearing leaves a blank query and no protein filter |
| `RecipesList.ClearedShowsAll` | frontend/src/pages/RecipeWizard/RecipesList.jsx:44-56 | after clearing every item is listed, in order |
| `RecipeDetail.DisplayQty` | frontend/src/pages/RecipeDetail.jsx:5-7 | the non-empty parts in the order quantity, unit, name, one space between each two |
| `RecipeDetail.DisplayQtySplits` | frontend/src/pages/RecipeDetail.jsx:5-7 | splitting the line at spaces gives back the non-empty parts |
| `RecipeDetail.IngredientLine` | frontend/src/pages/RecipeDetail.jsx:151 | a line ends with the ingredient's name |
| `RecipeDetail.ShownIngredients` | frontend/src/pages/RecipeDetail.jsx:148-152 | exactly the ingredients with a non-blank name, in order, each as often as stored |
| `RecipeDetail.ShownSteps` | frontend/src/pages/RecipeDetail.jsx:159-165 | exactly the steps with non-blank text, in order, each as often as stored |
| `RecipeDetail.Tags` | frontend/src/pages/RecipeDetail.jsx:60-63 | the stored tags when they are an array, otherwise none |
| `RecipeDetail.PortionsShown` | frontend/src/pages/RecipeDetail.jsx:75 | the stored portions, or 1 when they are missing or zero |
| `RecipeDetail.CleanRecipeShownWhole` | frontend/src/pages/RecipeDetail.jsx:60-165 | a recipe the create route stored is shown whole: all its ingredients, steps and tags, and its portions |
| `UseApi.StripTrailingSlash` | frontend/src/lib/useApi.js:32 | at most one trailing slash is removed, exactly when there is one |
| `UseApi.StripLeadingSlash` | frontend/src/lib/useApi.js:32 | at most one leading slash is removed, exactly when there is one |
| `UseApi.ResolveUrl` | frontend/src/lib/useApi.js:29-33 | absolute paths and every path without a base are used as they are; otherwise base and path are joined by one slash |
| `UseApi.OneSlashAtJoin` | frontend/src/lib/useApi.js:31-33 | a slash at the end of the base or the start of the path makes no difference |
| `UseApi.UpperCaseSchemeIsAbsolute` | frontend/src/lib/useApi.js:29 | the scheme test ignores case: an `HTTPS://` URL is used unchanged |
| `UseApi.OnlyOneSlashDropped` | frontend/src/lib/useApi.js:32 | only one slash is dropped on each side, so `//` on both sides joins with three slashes |
| `UseApi.Appended` | frontend/src/lib/useApi.js:9 | appending adds the lower-cased name and keeps other headers; a new name holds the value, and a repeated name holds the old value, `, ` and the new value |
| `UseApi.Initial` | frontend/src/lib/useApi.js:9 | the initial headers are keyed by lower-cased names |
| `UseApi.Headers.constructor` | frontend/src/lib/useApi.js:9 | `new Headers(init)` holds the entries appended in order |
| `UseApi.Headers.Has` | frontend/src/lib/useApi.js:25 | `has` ignores letter case |
| `UseApi.Headers.Set` | frontend/src/lib/useApi.js:22 | `set` replaces the one value under the name and keeps every other header |
| `UseApi.HeaderNames` | frontend/src/lib/useApi.js:22-26 | `Authorization` and `Content-Type` are stored under their lower-cased names |
| `UseApi.ApiFetch` | frontend/src/lib/useApi.js:8-35 | with auth on, an unauthenticated caller gets "Not authenticated" and no request; otherwise the URL is `ResolveUrl`, the body is passed on, `Authorization` is the bearer token with auth on, `Content-Type` is kept when given and otherwise set to JSON exactly for a non-empty non-FormData body, and every other header is kept |

## Left out

- Persistence: `Recipe.find`, `Recipe.create`, `MealPlan.create` and `Recipe.updateMany` are not modelled. The recipe list is an input and saving is an output. The save route's answer is the list of ids it would bump. The history and single-plan GET routes and the recipe list, get, update and delete routes are outside this model.
- Randomness: the values of `Math.random()` are oracle inputs, not a distribution. `PickProportional` states which draws pick each recipe. That a uniform draw yields probability weight/total is not stated.
- The clock: `Date.now()` is the parameter `now`, one value for the whole run. The source reads it afresh in each `pickWeighted` call.
- `Date` parsing: only the `YYYY-MM-DD` form of `startDate` is read. An overflowing day rolls over as JavaScript does. Any other text gives `NaN-NaN-NaN` dates. The other forms JavaScript's `Date` accepts, years outside 1000..9999 in `todayISO`, and time zones are not modelled.
- `Text.Lower`: only ASCII letters are mapped. Unicode case mapping of `toLowerCase` is left out.
- `JsValues.StringToNumber`: only decimal literals are read. Hexadecimal, octal and binary literals such as `0x1A`, which JavaScript reads as numbers, are NaN in the model. A literal keeps its exact decimal value instead of the nearest double, and a huge exponent does not overflow to Infinity.
- Numbers: JavaScript numbers are `real`s. Floating-point rounding is not modelled. A JSON number carries the text `String(n)` prints for it rather than re-deriving that text. `parseInt` of a very long digit string is an unbounded natural, without the loss of precision or the exponent notation of `String`.
- Stored documents: stored fields are taken as the types the schema declares (strings, a number of portions, arrays). A document whose fields have other types is not modelled on the display pages.
- `UseApi.Headers`: header names and values are not validated and value whitespace is not normalised. The `fetch` call itself, and options other than the headers and body, are left out. The access token is a parameter, since the identity service is foreign.
- React mechanics: hooks, effects and their cancellation flags, loading flags, toasts, and the 300 ms debounce of the recipes-list query are not modelled. `RecipesList.Filtered` takes the debounced query as given.
- `RecipeForm.RecipeWizard.HandleIngredientChange`: the source writes into the row object shared with the previous state (aliasing). The model replaces the row in a new sequence. So the previous state's row is not shown changing. Nor does it show that the shared row can be `emptyRecipe.ingredients[0]` itself (the blank create form, or the fallback at RecipeForm.jsx:39 for a recipe stored without ingredients). After that row is typed into, the Cancel/Reset button (RecipeForm.jsx:215, running `reset`, lines 150 and 154) and the reset after a save (RecipeForm.jsx:202) bring the typed row back instead of a blank one. `SharedRowWizard` models that effect separately; see Findings.
- `RecipeForm.SubmitPayload`: only the case without a newly picked image is modelled. Image upload, and the `image` property, are foreign I/O.
- Whether `onSubmit` uses the create route or an edit wrapper is not modelled, and neither is the reset after a successful save.
- RecipeDetail's delete button and load effect are not modelled. They are network calls with no logic of their own.
- MealPlanner's `generate` call and the `meatPercent` display are not modelled. `generate` is a network call whose answer is `MealPlanRules.Respond`. `meatPercent` is floating-point rounding for display.
- `IngredientsStep.TightenSlashes`: its own `ensures` gives only the first character of the result. The rewrite of each slash and the whitespace around it is stated by `TightenAppend`, `TightenAroundSlash`, `TightenKeepsSpaces` and `TightenBetween`, because a recursive function's contract cannot mention the function's value on the parts of its input.
- `IngredientsStep.CollapseSpaces`: its own `ensures` gives only the first character of the result. That every whitespace run becomes exactly one space and everything else is kept is stated by `CollapseAppend`, `CollapseRun` and `CollapseBetween`, for the same reason.
- `MealPlanRules.Weight` is not stated as a probability. It counts a never-planned recipe's age from the epoch, as the source does. It is 60 only once the clock is at least sixty days past the epoch (`NeverPlannedWeighsMost`).

Leftovers rules, as the code has them:
- A leftovers night is triggered only by the 35% coin while the bank has an entry. There is no "draining streak", no stagger after two cooking days, and no flush before the plan ends.
- The bank serves the entry with the largest balance, the earliest on ties. It is not first-in first-out.
- Any positive surplus is banked, not only a surplus of at least one full party.
- An entry is served even when its balance is below the party size. It is deleted once the remainder is not positive, not once it falls below the party size.

## Findings

| source | as written | input that shows it | evidently intended | confidence | as-written member | corrected member |
|---|---|---|---|---|---|---|
| frontend/src/pages/RecipeWizard/RecipeForm.jsx:133-135 | `emptyRecipe` (constants.js lines 28-36) declares no `method` list, yet every render calls `recipe.method.some(...)` | opening the wizard in create mode; or editing a recipe stored with no method steps, which falls back to `emptyRecipe.method` | the blank form carries a method list with one blank step, so `methodValid` is always defined | not executed | `RecipeForm.CreateFormRenderThrows` | `RecipeForm.NormalizedFormRenders` |
| frontend/src/pages/RecipeWizard/RecipeForm.jsx:77-81 | the shallow copy `[...recipe.ingredients]` keeps the row objects, and `updatedIngredients[index][field] = value` writes into one; the blank form's row (constants.js line 34) is such an object, and the fallback at line 39 and `reset` (lines 150, 154) load it again | type a name into the first row of a blank form (or of a recipe stored without ingredients), then press Cancel (Reset in edit mode, line 215): the row comes back with the typed name | each edit replaces the row with a copy, so a reset shows a blank row | not executed | `RecipeForm.TypedRowSurvivesReset` | `RecipeForm.ResetBlanksTypedRow` |
