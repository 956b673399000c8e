/**
 * The rules of the dinner-plan generator (`POST /meal-plans/generate`) and
 * of the save route (`POST /meal-plans`), as pure functions: protein
 * classification, novelty weights and the weighted pick, the leftover
 * bank, one planned day, a whole run, the titles and the recipe ids a
 * save marks as planned. The imperative handler in module MealPlanRoutes
 * is proved to compute exactly these.
 *
 * Randomness is an oracle: every day of a run reads one `DayDraw`, whose
 * numbers stand for the successive values of `Math.random()` that day.
 */
module MealPlanRules {
  import opened Wrappers
  import opened Text
  import opened Dates
  import opened JsValues

  // ================================================================ recipes

  /** A stored recipe as the generator reads it: `lastPlannedAt` in
      milliseconds since the epoch, `portions` as `Number(portions)`. */
  datatype Recipe = Recipe(id: string, name: string, protein: string, portions: JsNumber, lastPlannedAt: Option<int>)

  /** The ids of a recipe list, in order. */
  function Ids(rs: seq<Recipe>): (ids: seq<string>)
    ensures |ids| == |rs|
    ensures forall i :: 0 <= i < |rs| ==> ids[i] == rs[i].id
  {
    seq(|rs|, i requires 0 <= i < |rs| => rs[i].id)
  }

  /** The proteins that count as meat, compared after lower-casing. */
  const MeatProteins: seq<string> := ["chicken", "beef", "fish", "pork", "turkey", "lamb"]

  /** `isMeatProtein`: the lower-cased protein is one of the meat names
      (no trimming: " beef" is not meat). */
  predicate IsMeatProtein(protein: string) {
    Lower(protein) in MeatProteins
  }

  lemma MeatProteinExamples()
    ensures IsMeatProtein("Beef") && IsMeatProtein("FISH")
    ensures !IsMeatProtein("Vegetarian") && !IsMeatProtein(" beef") && !IsMeatProtein("")
  {
    assert Lower("Beef") == "beef";
    assert Lower("FISH") == "fish";
    assert Lower(" beef") == " beef";
    assert Lower("Vegetarian")[0] == 'v';
  }

  /** The meat recipes, in their stored order. */
  function MeatRecipes(rs: seq<Recipe>): (r: seq<Recipe>)
    ensures forall x :: x in r <==> x in rs && IsMeatProtein(x.protein)
    ensures |r| <= |rs|
  {
    if rs == [] then []
    else
      assert forall x :: x in rs <==> x == rs[0] || x in rs[1..];
      (if IsMeatProtein(rs[0].protein) then [rs[0]] else []) + MeatRecipes(rs[1..])
  }

  /** The other recipes, in their stored order. */
  function VegRecipes(rs: seq<Recipe>): (r: seq<Recipe>)
    ensures forall x :: x in r <==> x in rs && !IsMeatProtein(x.protein)
    ensures |r| <= |rs|
  {
    if rs == [] then []
    else
      assert forall x :: x in rs <==> x == rs[0] || x in rs[1..];
      (if IsMeatProtein(rs[0].protein) then [] else [rs[0]]) + VegRecipes(rs[1..])
  }

  /** Every recipe lands in exactly one of the two lists. */
  lemma {:induction false} MeatVegPartition(rs: seq<Recipe>)
    ensures multiset(MeatRecipes(rs)) + multiset(VegRecipes(rs)) == multiset(rs)
  {
    if rs != [] {
      var h, t := rs[0], rs[1..];
      MeatVegPartition(t);
      assert rs == [h] + t;
      assert multiset(rs) == multiset{h} + multiset(t);
      var meatHead: seq<Recipe> := if IsMeatProtein(h.protein) then [h] else [];
      var vegHead: seq<Recipe> := if IsMeatProtein(h.protein) then [] else [h];
      assert MeatRecipes(rs) == meatHead + MeatRecipes(t);
      assert VegRecipes(rs) == vegHead + VegRecipes(t);
      assert multiset(meatHead) + multiset(vegHead) == multiset{h};
    }
  }

  /** The pool one day draws from: the wanted kind, or every recipe when
      there is none of that kind. */
  function Pool(rs: seq<Recipe>, wantMeat: bool): (pool: seq<Recipe>)
    ensures forall x :: x in pool ==> x in rs
    ensures |rs| > 0 ==> |pool| > 0
    ensures wantMeat && (exists x :: x in rs && IsMeatProtein(x.protein)) ==>
      forall x :: x in pool ==> IsMeatProtein(x.protein)
    ensures !wantMeat && (exists x :: x in rs && !IsMeatProtein(x.protein)) ==>
      forall x :: x in pool ==> !IsMeatProtein(x.protein)
    ensures wantMeat && (forall x :: x in rs ==> !IsMeatProtein(x.protein)) ==> pool == rs
    ensures !wantMeat && (forall x :: x in rs ==> IsMeatProtein(x.protein)) ==> pool == rs
  {
    var meat, veg := MeatRecipes(rs), VegRecipes(rs);
    assert |meat| > 0 ==> meat[0] in rs && IsMeatProtein(meat[0].protein);
    assert |veg| > 0 ==> veg[0] in rs && !IsMeatProtein(veg[0].protein);
    if wantMeat then (if |meat| > 0 then meat else rs)
    else (if |veg| > 0 then veg else rs)
  }

  // ================================================================ weights

  const MsPerDay: int := 1000 * 60 * 60 * 24
  /** No recipe weighs more than sixty days of age. */
  const WeightCap: int := 60

  /** A recipe's novelty weight: its age in whole days (a recipe never
      planned counts from the epoch), at least 1 and at most 60. */
  function Weight(r: Recipe, now: int): (w: int)
    ensures 1 <= w <= WeightCap
  {
    var last := r.lastPlannedAt.GetOr(0);
    var age := (now - last) / MsPerDay;
    var ageDays := if age < 1 then 1 else age;
    if ageDays < WeightCap then ageDays else WeightCap
  }

  /** The weight is the age in whole days, clamped to 1..60. */
  lemma WeightIsClampedAge(r: Recipe, now: int, days: int)
    requires r.lastPlannedAt.GetOr(0) + days * MsPerDay <= now < r.lastPlannedAt.GetOr(0) + (days + 1) * MsPerDay
    ensures Weight(r, now) == if days < 1 then 1 else if days > WeightCap then WeightCap else days
  {
    var last := r.lastPlannedAt.GetOr(0);
    DivUnique(now - last, MsPerDay, days);
  }

  /** The floor quotient is the one `q` with `q * d <= x < (q + 1) * d`. */
  lemma DivUnique(x: int, d: int, q: int)
    requires d > 0 && q * d <= x < (q + 1) * d
    ensures x / d == q
  {
    var r := x / d;
    assert r * d <= x < (r + 1) * d;
    if r < q {
      MulMonotone(r + 1, q, d);
    } else if r > q {
      MulMonotone(q + 1, r, d);
    }
  }

  lemma MulMonotone(a: int, b: int, d: int)
    requires a <= b && d > 0
    ensures a * d <= b * d
  {
  }

  /** A recipe never planned weighs the full 60 once the clock is sixty
      days past the epoch. */
  lemma NeverPlannedWeighsMost(r: Recipe, now: int)
    requires r.lastPlannedAt.None? && now >= WeightCap * MsPerDay
    ensures Weight(r, now) == WeightCap
  {
    assert now / MsPerDay >= WeightCap;
  }

  /** A recipe planned longer ago weighs at least as much. */
  lemma OlderWeighsMore(a: Recipe, b: Recipe, now: int)
    requires a.lastPlannedAt.GetOr(0) <= b.lastPlannedAt.GetOr(0)
    ensures Weight(a, now) >= Weight(b, now)
  {
    var la, lb := a.lastPlannedAt.GetOr(0), b.lastPlannedAt.GetOr(0);
    assert (now - la) / MsPerDay >= (now - lb) / MsPerDay by {
      DivMonotone(now - lb, now - la, MsPerDay);
    }
  }

  lemma DivMonotone(x: int, y: int, d: int)
    requires x <= y && d > 0
    ensures x / d <= y / d
  {
    var qx, qy := x / d, y / d;
    assert qx * d <= x && y < (qy + 1) * d;
    if qx > qy {
      MulMonotone(qy + 1, qx, d);
    }
  }

  /** The weights of a pool, in pool order. */
  function Weights(pool: seq<Recipe>, now: int): (ws: seq<int>)
    ensures |ws| == |pool|
    ensures forall i :: 0 <= i < |pool| ==> ws[i] == Weight(pool[i], now)
  {
    seq(|pool|, i requires 0 <= i < |pool| => Weight(pool[i], now))
  }

  /** The sum of the first `k` weights. */
  function Prefix(ws: seq<int>, k: nat): int
    requires k <= |ws|
  {
    if k == 0 then 0 else ws[0] + Prefix(ws[1..], k - 1)
  }

  function Total(ws: seq<int>): int {
    Prefix(ws, |ws|)
  }

  lemma {:induction false} PrefixSnoc(ws: seq<int>, k: nat)
    requires k < |ws|
    ensures Prefix(ws, k + 1) == Prefix(ws, k) + ws[k]
  {
    if k > 0 {
      PrefixSnoc(ws[1..], k - 1);
    }
  }

  predicate Positive(ws: seq<int>) {
    forall i :: 0 <= i < |ws| ==> ws[i] > 0
  }

  /** With positive weights the prefix sums strictly increase. */
  lemma {:induction false} PrefixIncreasing(ws: seq<int>, i: nat, j: nat)
    requires Positive(ws) && i < j <= |ws|
    ensures Prefix(ws, i) < Prefix(ws, j)
    decreases j
  {
    PrefixSnoc(ws, j - 1);
    if i < j - 1 {
      PrefixIncreasing(ws, i, j - 1);
    }
  }

  /** The index the roll loop stops at: subtracting the weights in order,
      the first index after which the roll is no longer positive, and the
      last index when the roll outlasts every weight. */
  function PickIndex(ws: seq<int>, roll: real): (k: nat)
    requires |ws| > 0
    ensures k < |ws|
    ensures forall j :: 1 <= j <= k ==> (Prefix(ws, j) as real) < roll
    ensures k < |ws| - 1 ==> roll <= Prefix(ws, k + 1) as real
    decreases |ws|
  {
    if |ws| == 1 || roll - ws[0] as real <= 0.0 then 0
    else 1 + PickIndex(ws[1..], roll - ws[0] as real)
  }

  /** The stopping index is determined: an index whose prefixes before it
      stay below the roll and whose own prefix reaches it (or which is the
      last) is the one `PickIndex` names. */
  lemma PickIndexUnique(ws: seq<int>, roll: real, i: nat)
    requires i < |ws|
    requires forall j :: 1 <= j <= i ==> (Prefix(ws, j) as real) < roll
    requires i == |ws| - 1 || roll <= Prefix(ws, i + 1) as real
    ensures PickIndex(ws, roll) == i
  {
  }

  /** The recipe at index `i` is picked exactly for the rolls in the
      interval `(Prefix(i), Prefix(i + 1)]`, whose length is its weight: a
      uniform roll over `[0, total)` picks it with probability
      `weight / total`. */
  lemma PickInterval(ws: seq<int>, i: nat, roll: real)
    requires Positive(ws) && i < |ws|
    requires Prefix(ws, i) as real < roll <= Prefix(ws, i + 1) as real
    ensures PickIndex(ws, roll) == i
  {
    var k := PickIndex(ws, roll);
    if k < i {
      PrefixIncreasing(ws, k + 1, i + 1);
      if k + 1 < i {
        PrefixIncreasing(ws, k + 1, i);
      }
    }
  }

  /** The roll `u * total` of a draw `u` in `[0, 1)` always lands inside
      the picked recipe's interval, so the last-entry fallback only serves
      a roll of exactly zero. */
  lemma PickWithinTotal(ws: seq<int>, roll: real)
    requires |ws| > 0 && Positive(ws) && roll < Total(ws) as real
    ensures roll <= Prefix(ws, PickIndex(ws, roll) + 1) as real
  {
  }

  /** A draw `u` of `Math.random()` scaled by a positive total lies in
      `[0, total)`. */
  lemma ScaledDraw(u: real, total: int)
    requires 0.0 <= u < 1.0 && total > 0
    ensures 0.0 <= u * total as real < total as real
  {
  }

  /** `Math.random() * total` for the draw `u`. */
  function Roll(u: real, ws: seq<int>): real {
    u * Total(ws) as real
  }

  /** `pickWeighted(pool)` for the draw `u` of `Math.random()`: the roll is
      `u * total`; an empty pool gives nothing. */
  function Pick(pool: seq<Recipe>, now: int, u: real): (r: Option<Recipe>)
    ensures r.None? <==> pool == []
    ensures r.Some? ==> r.value in pool
  {
    if pool == [] then None
    else
      var ws := Weights(pool, now);
      Some(pool[PickIndex(ws, Roll(u, ws))])
  }

  lemma PickAt(pool: seq<Recipe>, now: int, u: real, i: nat)
    requires i < |pool| && PickIndex(Weights(pool, now), Roll(u, Weights(pool, now))) == i
    ensures Pick(pool, now, u) == Some(pool[i])
  {
  }

  /** Each recipe of the pool is picked for the draws whose roll lands in
      its own weight-sized interval. */
  lemma PickProportional(pool: seq<Recipe>, now: int, u: real, i: nat)
    requires i < |pool|
    requires Prefix(Weights(pool, now), i) as real < Roll(u, Weights(pool, now))
    requires Roll(u, Weights(pool, now)) <= Prefix(Weights(pool, now), i + 1) as real
    ensures Pick(pool, now, u) == Some(pool[i])
  {
    var ws := Weights(pool, now);
    WeightsPositive(pool, now);
    PickInterval(ws, i, Roll(u, ws));
  }

  lemma WeightsPositive(pool: seq<Recipe>, now: int)
    ensures Positive(Weights(pool, now))
  {
  }

  // ================================================================ bank

  /** One entry of the leftover bank: a recipe id and its portions left. */
  datatype Entry = Entry(key: string, balance: real)

  function Keys(bank: seq<Entry>): (ks: seq<string>)
    ensures |ks| == |bank|
    ensures forall i :: 0 <= i < |bank| ==> ks[i] == bank[i].key
  {
    seq(|bank|, i requires 0 <= i < |bank| => bank[i].key)
  }

  /** A Map holds each key once. */
  predicate DistinctKeys(bank: seq<Entry>) {
    forall i, j :: 0 <= i < j < |bank| ==> bank[i].key != bank[j].key
  }

  /** The position of `key` in the bank, if it is there. */
  function IndexOf(bank: seq<Entry>, key: string): (r: Option<nat>)
    ensures r.None? <==> key !in Keys(bank)
    ensures r.Some? ==> r.value < |bank| && bank[r.value].key == key
    ensures r.Some? ==> forall j :: 0 <= j < r.value ==> bank[j].key != key
  {
    if bank == [] then None
    else if bank[0].key == key then Some(0)
    else
      var rest := IndexOf(bank[1..], key);
      assert Keys(bank) == [bank[0].key] + Keys(bank[1..]);
      if rest.Some? then Some(rest.value + 1) else None
  }

  /** `leftovers.get(key) || 0`. */
  function Balance(bank: seq<Entry>, key: string): real {
    match IndexOf(bank, key)
    case Some(i) => bank[i].balance
    case None => 0.0
  }

  /** `leftovers.set(key, (leftovers.get(key) || 0) + amount)`: an existing
      entry keeps its place, a new key goes last. */
  function Deposit(bank: seq<Entry>, key: string, amount: real): (r: seq<Entry>)
    ensures |r| >= |bank| && key in Keys(r)
    ensures forall k :: k in Keys(r) <==> k in Keys(bank) || k == key
    ensures forall i :: 0 <= i < |bank| && bank[i].key != key ==> r[i] == bank[i]
    ensures key !in Keys(bank) ==> r == bank + [Entry(key, amount)]
    ensures DistinctKeys(bank) ==> DistinctKeys(r) && Balance(r, key) == Balance(bank, key) + amount
    ensures amount > 0.0 && (forall i :: 0 <= i < |bank| ==> bank[i].balance > 0.0) ==>
      forall i :: 0 <= i < |r| ==> r[i].balance > 0.0
  {
    match IndexOf(bank, key)
    case Some(i) =>
      var r := bank[i := Entry(key, bank[i].balance + amount)];
      assert Keys(r) == Keys(bank);
      r
    case None =>
      var r := bank + [Entry(key, amount)];
      assert Keys(r) == Keys(bank) + [key];
      r
  }

  /** Serving leftovers from the entry at `k`: `remaining = balance - people`;
      a positive remainder stays in place, otherwise the entry is deleted
      and the others keep their order. */
  function Withdraw(bank: seq<Entry>, k: nat, people: real): (r: seq<Entry>)
    requires k < |bank|
    ensures bank[k].balance - people > 0.0 ==>
      |r| == |bank| && r[k] == Entry(bank[k].key, bank[k].balance - people)
      && forall i :: 0 <= i < |bank| && i != k ==> r[i] == bank[i]
    ensures bank[k].balance - people <= 0.0 ==>
      |r| == |bank| - 1
      && (forall i :: 0 <= i < k ==> r[i] == bank[i])
      && (forall i :: k < i < |bank| ==> r[i - 1] == bank[i])
    ensures forall x :: x in Keys(r) ==> x in Keys(bank)
    ensures DistinctKeys(bank) ==> DistinctKeys(r)
    ensures (forall i :: 0 <= i < |bank| ==> bank[i].balance > 0.0) ==> forall i :: 0 <= i < |r| ==> r[i].balance > 0.0
  {
    var remaining := bank[k].balance - people;
    if remaining > 0.0 then
      var r := bank[k := Entry(bank[k].key, remaining)];
      assert forall i :: 0 <= i < |r| ==> r[i].key == Keys(bank)[i];
      r
    else
      var r := bank[..k] + bank[k + 1..];
      assert forall i :: 0 <= i < |r| ==> r[i] == bank[if i < k then i else i + 1];
      assert forall i :: 0 <= i < |r| ==> r[i].key == Keys(bank)[if i < k then i else i + 1];
      r
  }

  /** The entry the leftover branch serves, among the first `n`: the
      largest balance with a non-empty key, the earliest one on a tie. */
  function BestAmong(bank: seq<Entry>, n: nat): (best: Option<nat>)
    requires n <= |bank|
    ensures best.None? <==> forall j :: 0 <= j < n ==> bank[j].key == ""
    ensures best.Some? ==> best.value < n && bank[best.value].key != ""
    ensures best.Some? ==> forall j :: 0 <= j < n && bank[j].key != "" ==> bank[j].balance <= bank[best.value].balance
    ensures best.Some? ==> forall j :: 0 <= j < best.value && bank[j].key != "" ==> bank[j].balance < bank[best.value].balance
  {
    if n == 0 then None
    else
      var b := BestAmong(bank, n - 1);
      var e := bank[n - 1];
      if e.key == "" then b
      else if b.None? || e.balance > bank[b.value].balance then Some(n - 1)
      else b
  }

  /** The whole bank's best entry. */
  function Best(bank: seq<Entry>): Option<nat> {
    BestAmong(bank, |bank|)
  }

  // ================================================================ one day

  /** A planned night: cook a recipe, or eat the leftovers of one. */
  datatype Night =
    | Cook(date: string, recipeId: string)
    | Leftovers(date: string, leftoverOf: string)
  {
    /** The recipe the night refers to. */
    function Ref(): string {
      if Cook? then recipeId else leftoverOf
    }
  }

  /** Six draws for the picks of one day: the first pick and up to five
      re-draws. */
  type PickDraws = s: seq<real> | |s| == 6 witness [0.0, 0.0, 0.0, 0.0, 0.0, 0.0]

  /** The values `Math.random()` returns in the course of one day. */
  datatype DayDraw = DayDraw(leftoverDraw: real, meatDraw: real, picks: PickDraws)

  /** Draws that `Math.random()` can return: each in `[0, 1)`. */
  predicate DrawInRange(d: DayDraw) {
    0.0 <= d.leftoverDraw < 1.0 && 0.0 <= d.meatDraw < 1.0
    && forall t :: 0 <= t < 6 ==> 0.0 <= d.picks[t] < 1.0
  }

  /** The chance of a leftovers night while the bank is not empty. */
  const LeftoverChance: real := 0.35

  /** The fixed inputs of one run: the recipes in their stored order, the
      party size, `Number(meatRatio)` (numbers, booleans and null only), the
      leftover switch, the clock and the parsed start date. */
  datatype Setup = Setup(recipes: seq<Recipe>, people: real, meatRatio: JsNumber, allowLeftovers: bool, now: int, start: Option<Date>)

  /** The state a run threads from day to day. */
  datatype RunState = RunState(bank: seq<Entry>, nights: seq<Night>, lastCooked: Option<string>)

  const Initial: RunState := RunState([], [], None)

  /** The date text of day `i`: `toISODate(addDays(start, i))`. */
  function DateText(start: Option<Date>, i: nat): string {
    if start.Some? && Valid(start.value) then ToISODate(AddDays(start.value, i)) else InvalidDateText
  }

  /** `Math.random() < meatRatio`. */
  predicate WantsMeat(s: Setup, d: DayDraw) {
    Below(d.meatDraw, s.meatRatio)
  }

  /** `pickWeighted(pool) || allRecipes[0]`. */
  function Draw(s: Setup, pool: seq<Recipe>, u: real): (r: Recipe)
    requires |s.recipes| > 0
    ensures (forall x :: x in pool ==> x in s.recipes) ==> r in s.recipes
  {
    match Pick(pool, s.now, u)
    case Some(r) => r
    case None => s.recipes[0]
  }

  /** The anti-repeat retries from try `tries` on: stop once the choice
      differs from `last`, otherwise draw again, five times at most. */
  function Redraw(s: Setup, pool: seq<Recipe>, chosen: Recipe, last: string, u: PickDraws, tries: nat): (r: Recipe)
    requires |s.recipes| > 0 && tries <= 5
    ensures (forall x :: x in pool ==> x in s.recipes) && chosen in s.recipes ==> r in s.recipes
    decreases 5 - tries
  {
    if tries == 5 || chosen.id != last then chosen
    else Redraw(s, pool, Draw(s, pool, u[tries + 1]), last, u, tries + 1)
  }

  /** The retries keep the first of the six draws that differs from the
      previous night's recipe, or the sixth when none does. */
  lemma {:induction false} RedrawFirstDifferent(s: Setup, pool: seq<Recipe>, last: string, u: PickDraws, tries: nat)
    requires |s.recipes| > 0 && tries <= 5
    ensures exists t :: (tries <= t <= 5
      && Redraw(s, pool, Draw(s, pool, u[tries]), last, u, tries) == Draw(s, pool, u[t])
      && (forall j :: tries <= j < t ==> Draw(s, pool, u[j]).id == last)
      && (t < 5 ==> Draw(s, pool, u[t]).id != last))
    decreases 5 - tries
  {
    var chosen := Draw(s, pool, u[tries]);
    if tries == 5 || chosen.id != last {
      assert Redraw(s, pool, chosen, last, u, tries) == Draw(s, pool, u[tries]);
    } else {
      RedrawFirstDifferent(s, pool, last, u, tries + 1);
      var t :| tries + 1 <= t <= 5
        && Redraw(s, pool, Draw(s, pool, u[tries + 1]), last, u, tries + 1) == Draw(s, pool, u[t])
        && (forall j :: tries + 1 <= j < t ==> Draw(s, pool, u[j]).id == last)
        && (t < 5 ==> Draw(s, pool, u[t]).id != last);
      assert forall j :: tries <= j < t ==> Draw(s, pool, u[j]).id == last;
    }
  }

  /** The recipe a cooking day picks: from the meat or the other pool,
      re-drawn against yesterday's recipe when there is more than one
      recipe. */
  function Choose(s: Setup, st: RunState, d: DayDraw): (r: Recipe)
    requires |s.recipes| > 0
    ensures r in s.recipes
  {
    var pool := Pool(s.recipes, WantsMeat(s, d));
    var first := Draw(s, pool, d.picks[0]);
    if st.lastCooked.Some? && st.lastCooked.value != "" && |s.recipes| > 1 then
      Redraw(s, pool, first, st.lastCooked.value, d.picks, 0)
    else first
  }

  /** With no previous id, an empty one (falsy), or a single recipe, the
      first draw is kept. */
  lemma ChooseKeepsFirstDraw(s: Setup, st: RunState, d: DayDraw)
    requires |s.recipes| > 0
    requires !(st.lastCooked.Some? && st.lastCooked.value != "") || |s.recipes| == 1
    ensures Choose(s, st, d) == Draw(s, Pool(s.recipes, WantsMeat(s, d)), d.picks[0])
  {
  }

  /** With a truthy previous id and more than one recipe, the day repeats
      yesterday's recipe only when all six draws give it. */
  lemma ChooseAvoidsRepeat(s: Setup, st: RunState, d: DayDraw, j: nat)
    requires |s.recipes| > 1 && st.lastCooked.Some? && st.lastCooked.value != ""
    requires j < 6 && Draw(s, Pool(s.recipes, WantsMeat(s, d)), d.picks[j]).id != st.lastCooked.value
    ensures Choose(s, st, d).id != st.lastCooked.value
  {
    var pool := Pool(s.recipes, WantsMeat(s, d));
    var last := st.lastCooked.value;
    var u := d.picks;
    assert Choose(s, st, d) == Redraw(s, pool, Draw(s, pool, u[0]), last, u, 0);
    RedrawFirstDifferent(s, pool, last, u, 0);
    var t :| 0 <= t <= 5
      && Redraw(s, pool, Draw(s, pool, u[0]), last, u, 0) == Draw(s, pool, u[t])
      && (forall i :: 0 <= i < t ==> Draw(s, pool, u[i]).id == last)
      && (t < 5 ==> Draw(s, pool, u[t]).id != last);
    if t == 5 {
      assert j == 5;
    }
  }

  /** `Number(portions)` when finite, else 1. */
  function PortionsOf(r: Recipe): real {
    if r.portions.Finite? then r.portions.value else 1.0
  }

  /** `Math.max(0, portions - people)`. */
  function Surplus(s: Setup, r: Recipe): (x: real)
    ensures x >= 0.0
    ensures x > 0.0 <==> PortionsOf(r) > s.people
  {
    if PortionsOf(r) - s.people > 0.0 then PortionsOf(r) - s.people else 0.0
  }

  /** Whether day `d` serves leftovers, and from which entry. */
  function LeftoverChoice(s: Setup, st: RunState, d: DayDraw): (k: Option<nat>)
    ensures k.Some? ==> k.value < |st.bank| && st.bank[k.value].key != ""
    ensures k.Some? <==> s.allowLeftovers && d.leftoverDraw < LeftoverChance && Best(st.bank).Some?
  {
    if s.allowLeftovers && |st.bank| > 0 && d.leftoverDraw < LeftoverChance then Best(st.bank) else None
  }

  /** A leftovers night eating from the bank entry at `k`. */
  function ServeLeftovers(s: Setup, st: RunState, date: string, k: nat): RunState
    requires k < |st.bank|
  {
    RunState(Withdraw(st.bank, k, s.people), st.nights + [Leftovers(date, st.bank[k].key)], st.lastCooked)
  }

  /** A cooking night: cook `chosen`, remember it, and bank its surplus
      portions when leftovers are on. */
  function CookRecipe(s: Setup, st: RunState, date: string, chosen: Recipe): RunState {
    var extra := Surplus(s, chosen);
    var bank := if s.allowLeftovers && extra > 0.0 then Deposit(st.bank, chosen.id, extra) else st.bank;
    RunState(bank, st.nights + [Cook(date, chosen.id)], Some(chosen.id))
  }

  /** One day of the loop. */
  function DayStep(s: Setup, st: RunState, i: nat, d: DayDraw): (r: RunState)
    requires |s.recipes| > 0
    ensures |r.nights| == |st.nights| + 1 && r.nights[..|st.nights|] == st.nights
    ensures r.nights[|st.nights|].date == DateText(s.start, i)
  {
    var date := DateText(s.start, i);
    var k := LeftoverChoice(s, st, d);
    if k.Some? then ServeLeftovers(s, st, date, k.value)
    else CookRecipe(s, st, date, Choose(s, st, d))
  }

  /** `n` days of a run. */
  function Run(s: Setup, draws: seq<DayDraw>, n: nat): (st: RunState)
    requires |s.recipes| > 0 && n <= |draws|
    ensures |st.nights| == n
  {
    if n == 0 then Initial else DayStep(s, Run(s, draws, n - 1), n - 1, draws[n - 1])
  }

  /** `for (let i = 0; i < days; i++)`: the number of integers below `days`. */
  function DayCount(days: real): nat
    requires days >= 0.0
  {
    if days.Floor as real == days then days.Floor else days.Floor + 1
  }

  /** Day `i` runs exactly when `i < days`. */
  lemma DayCountBound(days: real, i: nat)
    requires days >= 0.0
    ensures (i as real) < days <==> i < DayCount(days)
  {
  }

  // ================================================================ invariant

  /** The recipes cooked so far, in order. */
  function CookIds(nights: seq<Night>): seq<string> {
    if nights == [] then []
    else
      var last := nights[|nights| - 1];
      CookIds(nights[..|nights| - 1]) + (if last.Cook? then [last.recipeId] else [])
  }

  lemma CookIdsAppend(nights: seq<Night>, n: Night)
    ensures CookIds(nights + [n]) == CookIds(nights) + (if n.Cook? then [n.recipeId] else [])
  {
    assert (nights + [n])[..|nights|] == nights;
  }

  /** The bank is a Map of positive portions, each left by a recipe cooked
      earlier in the run. */
  predicate BankOk(st: RunState) {
    && DistinctKeys(st.bank)
    && (forall i :: 0 <= i < |st.bank| ==> st.bank[i].balance > 0.0)
    && (forall x :: x in Keys(st.bank) ==> x in CookIds(st.nights))
  }

  /** Every cook night cooks a stored recipe; every leftovers night eats
      what an earlier night cooked. */
  predicate NightsOk(s: Setup, nights: seq<Night>) {
    && (forall j :: 0 <= j < |nights| && nights[j].Cook? ==> nights[j].recipeId in Ids(s.recipes))
    && (forall j :: 0 <= j < |nights| && nights[j].Leftovers? ==> nights[j].leftoverOf in CookIds(nights[..j]))
  }

  /** The anti-repeat memory is the last recipe cooked. */
  predicate MemoryOk(st: RunState) {
    && (st.lastCooked.None? <==> CookIds(st.nights) == [])
    && (st.lastCooked.Some? ==> CookIds(st.nights) != [] && st.lastCooked.value == CookIds(st.nights)[|CookIds(st.nights)| - 1])
  }

  /** What a run keeps true from day to day; with leftovers off, nothing is
      banked and every night cooks. */
  predicate Consistent(s: Setup, st: RunState) {
    && BankOk(st)
    && NightsOk(s, st.nights)
    && MemoryOk(st)
    && (!s.allowLeftovers ==> st.bank == [] && forall j :: 0 <= j < |st.nights| ==> st.nights[j].Cook?)
  }

  lemma NightsOkAppend(s: Setup, nights: seq<Night>, n: Night)
    requires NightsOk(s, nights)
    requires n.Cook? ==> n.recipeId in Ids(s.recipes)
    requires n.Leftovers? ==> n.leftoverOf in CookIds(nights)
    ensures NightsOk(s, nights + [n])
  {
    var r := nights + [n];
    forall j | 0 <= j < |nights| ensures r[..j] == nights[..j] && r[j] == nights[j] {
    }
    assert r[..|nights|] == nights;
  }

  lemma ChosenIsStored(s: Setup, r: Recipe)
    requires r in s.recipes
    ensures r.id in Ids(s.recipes)
  {
    var i :| 0 <= i < |s.recipes| && s.recipes[i] == r;
    assert Ids(s.recipes)[i] == r.id;
  }

  /** A leftovers night keeps the run consistent. */
  lemma ServeLeftoversConsistent(s: Setup, st: RunState, date: string, k: nat)
    requires Consistent(s, st) && k < |st.bank|
    ensures Consistent(s, ServeLeftovers(s, st, date, k))
  {
    var r := ServeLeftovers(s, st, date, k);
    var n := Leftovers(date, st.bank[k].key);
    CookIdsAppend(st.nights, n);
    assert Keys(st.bank)[k] == st.bank[k].key;
    NightsOkAppend(s, st.nights, n);
  }

  /** A cooking night keeps the run consistent. */
  lemma CookRecipeConsistent(s: Setup, st: RunState, date: string, chosen: Recipe)
    requires Consistent(s, st) && chosen in s.recipes
    ensures Consistent(s, CookRecipe(s, st, date, chosen))
  {
    var r := CookRecipe(s, st, date, chosen);
    var n := Cook(date, chosen.id);
    CookIdsAppend(st.nights, n);
    ChosenIsStored(s, chosen);
    NightsOkAppend(s, st.nights, n);
    assert forall x :: x in CookIds(st.nights) ==> x in CookIds(r.nights);
  }

  /** One day keeps the run consistent. */
  lemma DayStepConsistent(s: Setup, st: RunState, i: nat, d: DayDraw)
    requires |s.recipes| > 0 && Consistent(s, st)
    ensures Consistent(s, DayStep(s, st, i, d))
  {
    var date := DateText(s.start, i);
    var k := LeftoverChoice(s, st, d);
    if k.Some? {
      ServeLeftoversConsistent(s, st, date, k.value);
    } else {
      CookRecipeConsistent(s, st, date, Choose(s, st, d));
    }
  }

  /** Every run is consistent. */
  lemma {:induction false} RunConsistent(s: Setup, draws: seq<DayDraw>, n: nat)
    requires |s.recipes| > 0 && n <= |draws|
    ensures Consistent(s, Run(s, draws, n))
  {
    if n > 0 {
      RunConsistent(s, draws, n - 1);
      DayStepConsistent(s, Run(s, draws, n - 1), n - 1, draws[n - 1]);
    }
  }

  /** The nights of a run carry the consecutive dates from the start date,
      and the first night cooks (the bank starts empty). */
  lemma RunDates(s: Setup, draws: seq<DayDraw>, n: nat)
    requires |s.recipes| > 0 && n <= |draws|
    ensures forall j :: 0 <= j < n ==> Run(s, draws, n).nights[j].date == DateText(s.start, j)
    ensures n > 0 ==> Run(s, draws, n).nights[0].Cook?
  {
    forall j | 0 <= j < n
      ensures Run(s, draws, n).nights[j].date == DateText(s.start, j)
    {
      NightDate(s, draws, n, j);
    }
    if n > 0 {
      RunExtends(s, draws, 1, n);
      FirstNightCooks(s, draws);
      PrefixIndex(Run(s, draws, n).nights, Run(s, draws, 1).nights, 0);
    }
  }

  /** Night `j` of a run is dated `j` days after the start. */
  lemma {:induction false} NightDate(s: Setup, draws: seq<DayDraw>, n: nat, j: nat)
    requires |s.recipes| > 0 && j < n <= |draws|
    ensures Run(s, draws, n).nights[j].date == DateText(s.start, j)
  {
    var a := Run(s, draws, n).nights;
    var b := Run(s, draws, j + 1).nights;
    RunExtends(s, draws, j + 1, n);
    RunLastDate(s, draws, j + 1);
    DatedPrefix(a, b, j, DateText(s.start, j));
  }

  lemma DatedPrefix(a: seq<Night>, b: seq<Night>, j: nat, date: string)
    requires j < |b| <= |a| && a[..|b|] == b && b[j].date == date
    ensures a[j].date == date
  {
    PrefixIndex(a, b, j);
  }

  /** Run `n` is the day step after run `n - 1`. */
  lemma {:induction false} RunStep(s: Setup, draws: seq<DayDraw>, n: nat)
    requires |s.recipes| > 0 && 0 < n <= |draws|
    ensures Run(s, draws, n) == DayStep(s, Run(s, draws, n - 1), n - 1, draws[n - 1])
  {
  }

  /** Run `n` starts with the nights of run `n - 1`. */
  lemma {:induction false} RunPrefix(s: Setup, draws: seq<DayDraw>, n: nat)
    requires |s.recipes| > 0 && 0 < n <= |draws|
    ensures Run(s, draws, n).nights[..n - 1] == Run(s, draws, n - 1).nights
  {
    RunStep(s, draws, n);
  }

  /** The last night of run `n` is dated `n - 1` days after the start. */
  lemma {:induction false} RunLastDate(s: Setup, draws: seq<DayDraw>, n: nat)
    requires |s.recipes| > 0 && 0 < n <= |draws|
    ensures Run(s, draws, n).nights[n - 1].date == DateText(s.start, n - 1)
  {
    RunStep(s, draws, n);
  }

  lemma PrefixIndex<T>(a: seq<T>, b: seq<T>, j: nat)
    requires j < |b| <= |a| && a[..|b|] == b
    ensures a[j] == b[j]
  {
    assert a[j] == a[..|b|][j];
  }

  /** The first night of a run cooks. */
  lemma FirstNightCooks(s: Setup, draws: seq<DayDraw>)
    requires |s.recipes| > 0 && 0 < |draws|
    ensures Run(s, draws, 1).nights[0].Cook?
  {
    RunStep(s, draws, 1);
    FirstDayCooks(s, 0, draws[0]);
  }

  /** A day step keeps the nights already planned. */
  lemma StepKeepsNights(s: Setup, st: RunState, i: nat, d: DayDraw)
    requires |s.recipes| > 0
    ensures forall j :: 0 <= j < |st.nights| ==> DayStep(s, st, i, d).nights[j] == st.nights[j]
  {
    var r := DayStep(s, st, i, d);
    forall j | 0 <= j < |st.nights| ensures r.nights[j] == st.nights[j] {
      assert r.nights[j] == r.nights[..|st.nights|][j];
    }
  }

  /** The bank starts empty, so the first day cooks. */
  lemma FirstDayCooks(s: Setup, i: nat, d: DayDraw)
    requires |s.recipes| > 0
    ensures DayStep(s, Initial, i, d).nights[0].Cook?
  {
    assert LeftoverChoice(s, Initial, d).None?;
  }

  /** A longer run starts with the nights of a shorter one. */
  lemma {:induction false} RunExtends(s: Setup, draws: seq<DayDraw>, m: nat, n: nat)
    requires |s.recipes| > 0 && m <= n <= |draws|
    ensures Run(s, draws, n).nights[..m] == Run(s, draws, m).nights
    decreases n
  {
    if m < n {
      RunExtends(s, draws, m, n - 1);
      RunPrefix(s, draws, n);
      PrefixChain(Run(s, draws, n).nights, Run(s, draws, n - 1).nights, Run(s, draws, m).nights, n - 1, m);
    } else {
      PrefixOfPrefix(Run(s, draws, n).nights, n, n);
    }
  }

  lemma PrefixChain<T>(b: seq<T>, a: seq<T>, c: seq<T>, k: nat, m: nat)
    requires k <= |b| && b[..k] == a && m <= |a| && a[..m] == c
    ensures b[..m] == c
  {
    assert b[..m] == b[..k][..m];
  }

  lemma PrefixOfPrefix<T>(b: seq<T>, k: nat, m: nat)
    requires m <= k <= |b|
    ensures b[..m] == b[..k][..m] && (k == |b| ==> b[..k] == b)
  {
  }

  /** With leftovers off, every night cooks and nothing is banked. */
  lemma NoLeftoversAllCook(s: Setup, draws: seq<DayDraw>, n: nat)
    requires |s.recipes| > 0 && n <= |draws| && !s.allowLeftovers
    ensures Run(s, draws, n).bank == []
    ensures forall j :: 0 <= j < n ==> Run(s, draws, n).nights[j].Cook?
  {
    RunConsistent(s, draws, n);
  }

  /** Every recipe cooked so far was cooked on some night. */
  lemma {:induction false} CookIdsFromNights(nights: seq<Night>, x: string)
    requires x in CookIds(nights)
    ensures exists j :: 0 <= j < |nights| && nights[j].Cook? && nights[j].recipeId == x
  {
    var n := |nights|;
    if x !in CookIds(nights[..n - 1]) {
      assert nights[n - 1].Cook? && nights[n - 1].recipeId == x;
    } else {
      CookIdsFromNights(nights[..n - 1], x);
      var j :| 0 <= j < n - 1 && nights[..n - 1][j].Cook? && nights[..n - 1][j].recipeId == x;
      assert nights[j] == nights[..n - 1][j];
    }
  }

  // ================================================================ titles

  /** `recipeById.get(id)` for the Map built from the recipe list: the
      position of the recipe with that id, the later one when ids repeat. */
  function FindLast(rs: seq<Recipe>, id: string): (k: Option<nat>)
    ensures k.None? <==> id !in Ids(rs)
    ensures k.Some? ==> k.value < |rs| && rs[k.value].id == id
    ensures k.Some? ==> forall j :: k.value < j < |rs| ==> rs[j].id != id
  {
    if rs == [] then None
    else if rs[|rs| - 1].id == id then Some(|rs| - 1)
    else
      assert Ids(rs) == Ids(rs[..|rs| - 1]) + [rs[|rs| - 1].id];
      FindLast(rs[..|rs| - 1], id)
  }

  /** A planned dinner with the title the generator attaches to it. */
  datatype Dinner = Dinner(night: Night, title: string)

  /** The title of a night: the recipe's name for a cooking night (or
      nothing when it is not found), `Leftovers: <name>` for a leftovers
      night (or plain `Leftovers`). */
  function Title(rs: seq<Recipe>, night: Night): string {
    var k := FindLast(rs, night.Ref());
    if night.Cook? then (if k.Some? then rs[k.value].name else "")
    else (if k.Some? then "Leftovers: " + rs[k.value].name else "Leftovers")
  }

  function WithTitles(rs: seq<Recipe>, nights: seq<Night>): (ds: seq<Dinner>)
    ensures |ds| == |nights|
    ensures forall j :: 0 <= j < |nights| ==> ds[j] == Dinner(nights[j], Title(rs, nights[j]))
  {
    seq(|nights|, j requires 0 <= j < |nights| => Dinner(nights[j], Title(rs, nights[j])))
  }

  /** In a generated plan every night refers to a stored recipe, so no
      title falls back: a cooking night is titled with its recipe's name,
      a leftovers night with `Leftovers: ` and the name. */
  lemma TitlesOfRun(s: Setup, st: RunState)
    requires Consistent(s, st)
    ensures forall j :: 0 <= j < |st.nights| ==> FindLast(s.recipes, st.nights[j].Ref()).Some?
    ensures forall j :: 0 <= j < |st.nights| ==>
      var k := FindLast(s.recipes, st.nights[j].Ref()).value;
      Title(s.recipes, st.nights[j]) == (if st.nights[j].Cook? then "" else "Leftovers: ") + s.recipes[k].name
  {
    forall j | 0 <= j < |st.nights| ensures st.nights[j].Ref() in Ids(s.recipes) {
      var n := st.nights[j];
      if n.Leftovers? {
        CookIdsFromNights(st.nights[..j], n.leftoverOf);
        var i :| 0 <= i < j && st.nights[..j][i].Cook? && st.nights[..j][i].recipeId == n.leftoverOf;
        assert st.nights[i] == st.nights[..j][i];
      }
    }
  }

  // ================================================================ the handler

  /** The body of a generate request (`req.body ?? {}`: no body reads as
      every property missing). */
  datatype GenerateRequest = GenerateRequest(startDate: Field, days: Field, people: Field, meatRatio: Field, allowLeftovers: Field)

  /** The proposal echoes the settings, defaults filled in. */
  datatype Proposal = Proposal(startDate: Field, days: Field, people: Field, meatRatio: Field, allowLeftovers: Field, dinners: seq<Dinner>)

  /** A 400 with its error, or a proposal with its warnings (none means the
      response has no `warnings` property). */
  datatype GenerateResponse = BadRequest(error: string) | Planned(proposal: Proposal, warnings: seq<string>)

  const DefaultDays: Field := Num(7.0, "7")
  const DefaultPeople: Field := Num(2.0, "2")
  const DefaultMeatRatio: Field := Num(0.5, "0.5")
  const DefaultAllowLeftovers: Field := Bool(true)
  const NoRecipesWarning: string := "No recipes available to generate a plan."

  /** `Number.isFinite(x) && !(x < lo) && !(x > hi)`. */
  predicate InRange(f: Field, lo: real, hi: real) {
    IsFiniteNumber(f) && lo <= f.value <= hi
  }

  /** The settings after the destructuring defaults. */
  function Settled(req: GenerateRequest): GenerateRequest {
    GenerateRequest(req.startDate, Default(req.days, DefaultDays), Default(req.people, DefaultPeople),
      Default(req.meatRatio, DefaultMeatRatio), Default(req.allowLeftovers, DefaultAllowLeftovers))
  }

  /** The checks of the handler, in order: the first failing one's error. */
  function Validate(req: GenerateRequest): (err: Option<string>)
    ensures err.None? <==> Truthy(req.startDate) && InRange(Settled(req).days, 1.0, 31.0) && InRange(Settled(req).people, 1.0, 20.0)
    ensures !Truthy(req.startDate) ==> err == Some("startDate is required (YYYY-MM-DD)")
    ensures Truthy(req.startDate) && !InRange(Settled(req).days, 1.0, 31.0) ==> err == Some("days must be 1..31")
    ensures Truthy(req.startDate) && InRange(Settled(req).days, 1.0, 31.0) && !InRange(Settled(req).people, 1.0, 20.0)
      ==> err == Some("people must be 1..20")
  {
    var r := Settled(req);
    if !Truthy(r.startDate) then Some("startDate is required (YYYY-MM-DD)")
    else if !InRange(r.days, 1.0, 31.0) then Some("days must be 1..31")
    else if !InRange(r.people, 1.0, 20.0) then Some("people must be 1..20")
    else None
  }

  /** The inputs of the day loop for a request that passed its checks. */
  function SetupFor(req: GenerateRequest, recipes: seq<Recipe>, now: int): Setup {
    var r := Settled(req);
    Setup(recipes, if r.people.Num? then r.people.value else 0.0, ToNumber(r.meatRatio),
      Truthy(r.allowLeftovers), now, ParseFullDate(AsString(r.startDate)))
  }

  /** A meat ratio sent as the text of a whole number, or as an array of
      one, is read as that number: `"0"` gives no meat day, and `"1"` or
      more makes every day a meat day. */
  lemma NumeralMeatRatio(req: GenerateRequest, recipes: seq<Recipe>, now: int, n: nat)
    requires Settled(req).meatRatio == Text(NatToString(n)) || Settled(req).meatRatio == Other(NatToString(n))
    ensures SetupFor(req, recipes, now).meatRatio == Finite(n as real)
    ensures forall d :: DrawInRange(d) ==> (WantsMeat(SetupFor(req, recipes, now), d) <==> n >= 1)
  {
    StringToNumberOfNat(n);
  }

  /** Text is read as JavaScript reads it: `"0.7"` is 0.7, `"Infinity"`
      makes every day a meat day and `"-Infinity"` none. */
  lemma TextMeatRatio(req: GenerateRequest, recipes: seq<Recipe>, now: int, t: string)
    requires Settled(req).meatRatio == Text(t)
    ensures t == "0.7" ==> SetupFor(req, recipes, now).meatRatio == Finite(0.7)
    ensures Trim(t) == "Infinity" ==> forall d :: WantsMeat(SetupFor(req, recipes, now), d)
    ensures Trim(t) == "-Infinity" ==> forall d :: !WantsMeat(SetupFor(req, recipes, now), d)
  {
    assert SetupFor(req, recipes, now).meatRatio == StringToNumber(t);
    if t == "0.7" {
      FractionExample();
    }
  }

  lemma DayCountAtMost(days: real, hi: nat)
    requires 0.0 <= days <= hi as real
    ensures DayCount(days) <= hi
  {
  }

  /** `POST /meal-plans/generate` for the user's `recipes` (in stored
      order), the clock `now` and the draws of the 31 days at most. */
  function Respond(req: GenerateRequest, recipes: seq<Recipe>, now: int, draws: seq<DayDraw>): GenerateResponse
    requires |draws| >= 31
  {
    var r := Settled(req);
    match Validate(req)
    case Some(e) => BadRequest(e)
    case None =>
      if recipes == [] then
        Planned(Proposal(r.startDate, r.days, r.people, r.meatRatio, r.allowLeftovers, []), [NoRecipesWarning])
      else
        DayCountAtMost(r.days.value, 31);
        var st := Run(SetupFor(req, recipes, now), draws, DayCount(r.days.value));
        Planned(Proposal(r.startDate, r.days, r.people, r.meatRatio, r.allowLeftovers, WithTitles(recipes, st.nights)), [])
  }

  /** A request that fails a check is answered with that check's error,
      whatever the recipes, clock and draws. */
  lemma RejectedRequest(req: GenerateRequest, recipes: seq<Recipe>, now: int, draws: seq<DayDraw>)
    requires |draws| >= 31 && Validate(req).Some?
    ensures Respond(req, recipes, now, draws) == BadRequest(Validate(req).value)
  {
  }

  /** With no recipes the plan is empty and carries the one warning. */
  lemma NoRecipes(req: GenerateRequest, now: int, draws: seq<DayDraw>)
    requires |draws| >= 31 && Validate(req).None?
    ensures var res := Respond(req, [], now, draws);
      res.Planned? && res.proposal.dinners == [] && res.warnings == [NoRecipesWarning]
  {
  }

  /** A valid request with recipes is answered with the titled nights of
      a run of `DayCount(days)` days. */
  lemma RespondRuns(req: GenerateRequest, recipes: seq<Recipe>, now: int, draws: seq<DayDraw>)
    requires |draws| >= 31 && Validate(req).None? && recipes != []
    ensures DayCount(Settled(req).days.value) <= 31
    ensures var r := Settled(req);
      Respond(req, recipes, now, draws)
      == Planned(Proposal(r.startDate, r.days, r.people, r.meatRatio, r.allowLeftovers,
           WithTitles(recipes, Run(SetupFor(req, recipes, now), draws, DayCount(r.days.value)).nights)), [])
  {
    DayCountAtMost(Settled(req).days.value, 31);
  }

  /** The dinners fall on consecutive dates from the start date and the
      first one cooks. */
  predicate PlanDated(s: Setup, ds: seq<Dinner>) {
    && (forall j :: 0 <= j < |ds| ==> ds[j].night.date == DateText(s.start, j))
    && (|ds| > 0 ==> ds[0].night.Cook?)
  }

  /** Only the user's recipes are cooked, leftovers are only of a recipe
      cooked on an earlier night, and with leftovers off every night cooks. */
  predicate PlanSourced(s: Setup, ds: seq<Dinner>) {
    && (forall j :: 0 <= j < |ds| && ds[j].night.Cook? ==> ds[j].night.recipeId in Ids(s.recipes))
    && (forall j :: 0 <= j < |ds| && ds[j].night.Leftovers? ==>
          exists i :: 0 <= i < j && ds[i].night.Cook? && ds[i].night.recipeId == ds[j].night.leftoverOf)
    && (!s.allowLeftovers ==> forall j :: 0 <= j < |ds| ==> ds[j].night.Cook?)
  }

  /** Every dinner's recipe is found and its title is taken from it. */
  predicate PlanTitled(s: Setup, ds: seq<Dinner>) {
    && (forall j :: 0 <= j < |ds| ==> FindLast(s.recipes, ds[j].night.Ref()).Some?)
    && (forall j :: 0 <= j < |ds| ==>
          ds[j].title == (if ds[j].night.Cook? then "" else "Leftovers: ")
            + s.recipes[FindLast(s.recipes, ds[j].night.Ref()).value].name)
  }

  /** What every generated plan satisfies. */
  predicate WellFormedPlan(s: Setup, ds: seq<Dinner>) {
    PlanDated(s, ds) && PlanSourced(s, ds) && PlanTitled(s, ds)
  }

  lemma RunIsDated(s: Setup, draws: seq<DayDraw>, n: nat)
    requires |s.recipes| > 0 && n <= |draws|
    ensures PlanDated(s, WithTitles(s.recipes, Run(s, draws, n).nights))
  {
    RunDates(s, draws, n);
  }

  lemma RunIsSourced(s: Setup, draws: seq<DayDraw>, n: nat)
    requires |s.recipes| > 0 && n <= |draws|
    ensures PlanSourced(s, WithTitles(s.recipes, Run(s, draws, n).nights))
  {
    var st := Run(s, draws, n);
    var ds := WithTitles(s.recipes, st.nights);
    RunConsistent(s, draws, n);
    forall j | 0 <= j < n && ds[j].night.Leftovers?
      ensures exists i :: 0 <= i < j && ds[i].night.Cook? && ds[i].night.recipeId == ds[j].night.leftoverOf
    {
      var i := EarlierCook(st.nights, j);
      assert ds[i].night == st.nights[i];
    }
  }

  lemma RunIsTitled(s: Setup, draws: seq<DayDraw>, n: nat)
    requires |s.recipes| > 0 && n <= |draws|
    ensures PlanTitled(s, WithTitles(s.recipes, Run(s, draws, n).nights))
  {
    RunConsistent(s, draws, n);
    TitlesOfRun(s, Run(s, draws, n));
  }

  /** Every plan the handler proposes is well formed and has between 1 and
      31 dinners, `DayCount(days)` of them. */
  lemma GeneratedPlan(req: GenerateRequest, recipes: seq<Recipe>, now: int, draws: seq<DayDraw>)
    requires |draws| >= 31 && Validate(req).None? && recipes != []
    ensures var res := Respond(req, recipes, now, draws);
      && res.Planned? && res.warnings == []
      && |res.proposal.dinners| == DayCount(Settled(req).days.value)
      && 1 <= |res.proposal.dinners| <= 31
      && WellFormedPlan(SetupFor(req, recipes, now), res.proposal.dinners)
  {
    var n := DayCount(Settled(req).days.value);
    var s := SetupFor(req, recipes, now);
    RespondRuns(req, recipes, now, draws);
    DayCountBound(Settled(req).days.value, 0);
    RunIsDated(s, draws, n);
    RunIsSourced(s, draws, n);
    RunIsTitled(s, draws, n);
  }

  /** The night that cooked what the leftovers night `j` eats. */
  lemma EarlierCook(nights: seq<Night>, j: nat) returns (i: nat)
    requires j < |nights| && nights[j].Leftovers? && nights[j].leftoverOf in CookIds(nights[..j])
    ensures i < j && nights[i].Cook? && nights[i].recipeId == nights[j].leftoverOf
  {
    CookIdsFromNights(nights[..j], nights[j].leftoverOf);
    i :| 0 <= i < j && nights[..j][i].Cook? && nights[..j][i].recipeId == nights[j].leftoverOf;
    assert nights[i] == nights[..j][i];
  }

  // ================================================================ saving

  /** A dinner as the save route reads it: its `type` and `recipeId`. */
  datatype SavedDinner = SavedDinner(kind: Field, recipeId: Field)

  /** The `dinners` property: an array of dinner objects, or anything else. */
  datatype DinnerList = Dinners(items: seq<SavedDinner>) | NotAList(value: Field)

  datatype SaveRequest = SaveRequest(startDate: Field, dinners: DinnerList)

  /** A 400 with its error, or the plan stored (201) and the recipe ids
      whose `lastPlannedAt` is bumped. */
  datatype SaveResponse = SaveRejected(error: string) | Saved(bumped: seq<Field>)

  /** `dinners.filter(d => d.type === "cook" && d.recipeId).map(d => d.recipeId)`. */
  function CookedIds(ds: seq<SavedDinner>): (ids: seq<Field>)
    ensures |ids| <= |ds|
  {
    if ds == [] then []
    else CookedHead(ds[0]) + CookedIds(ds[1..])
  }

  /** The id one dinner contributes to the bump list. */
  function CookedHead(d: SavedDinner): seq<Field> {
    if d.kind == Text("cook") && Truthy(d.recipeId) then [d.recipeId] else []
  }

  /** The bump list holds exactly the truthy recipe ids of the cooking
      dinners. */
  lemma {:induction false} CookedIdsMembers(ds: seq<SavedDinner>)
    ensures forall x :: x in CookedIds(ds) ==> Truthy(x) && exists d :: d in ds && d.kind == Text("cook") && d.recipeId == x
    ensures forall d :: d in ds && d.kind == Text("cook") && Truthy(d.recipeId) ==> d.recipeId in CookedIds(ds)
    decreases |ds|
  {
    if ds != [] {
      var rest := CookedIds(ds[1..]);
      CookedIdsMembers(ds[1..]);
      assert CookedIds(ds) == CookedHead(ds[0]) + rest;
      forall x | x in CookedIds(ds)
        ensures Truthy(x) && exists d :: d in ds && d.kind == Text("cook") && d.recipeId == x
      {
        if x in rest {
          var d :| d in ds[1..] && d.kind == Text("cook") && d.recipeId == x;
          assert d in ds;
        } else {
          assert ds[0] in ds;
        }
      }
      forall d | d in ds && d.kind == Text("cook") && Truthy(d.recipeId)
        ensures d.recipeId in CookedIds(ds)
      {
        if d != ds[0] {
          assert d in ds[1..];
        }
      }
    }
  }

  /** `POST /meal-plans`: a truthy start date and a non-empty array of
      dinners are required; then the cooked recipes are marked planned. */
  function Save(req: SaveRequest): (r: SaveResponse)
    ensures r.Saved? <==> Truthy(req.startDate) && req.dinners.Dinners? && req.dinners.items != []
    ensures !Truthy(req.startDate) ==> r == SaveRejected("startDate is required")
    ensures r.Saved? ==> r.bumped == CookedIds(req.dinners.items)
  {
    if !Truthy(req.startDate) then SaveRejected("startDate is required")
    else if !req.dinners.Dinners? || req.dinners.items == [] then SaveRejected("dinners is required")
    else Saved(CookedIds(req.dinners.items))
  }

  /** A generated dinner as the client posts it back. */
  function Posted(d: Dinner): SavedDinner {
    if d.night.Cook? then SavedDinner(Text("cook"), Text(d.night.recipeId))
    else SavedDinner(Text("leftovers"), Missing)
  }

  function PostedAll(ds: seq<Dinner>): (r: seq<SavedDinner>)
    ensures |r| == |ds| && forall j :: 0 <= j < |ds| ==> r[j] == Posted(ds[j])
  {
    seq(|ds|, j requires 0 <= j < |ds| => Posted(ds[j]))
  }

  function TextAll(ids: seq<string>): (r: seq<Field>)
    ensures |r| == |ids| && forall j :: 0 <= j < |ids| ==> r[j] == Text(ids[j])
  {
    seq(|ids|, j requires 0 <= j < |ids| => Text(ids[j]))
  }

  /** Saving a generated plan marks exactly its cooked recipes as planned,
      in plan order and with repeats, and no leftovers night. */
  lemma {:induction false} SaveMarksCooked(rs: seq<Recipe>, nights: seq<Night>)
    ensures CookedIds(PostedAll(WithTitles(rs, nights))) == TextAll(NonEmpty(CookIds(nights)))
    decreases |nights|
  {
    if nights != [] {
      var n := |nights|;
      var init, last := nights[..n - 1], nights[n - 1];
      var lastIds := if last.Cook? then [last.recipeId] else [];
      var posted, d := PostedAll(WithTitles(rs, init)), Posted(Dinner(last, Title(rs, last)));
      assert nights == init + [last];
      calc {
        CookedIds(PostedAll(WithTitles(rs, nights)));
        { PostedAppend(rs, init, last); }
        CookedIds(posted + [d]);
        { CookedIdsAppend(posted, d); }
        CookedIds(posted) + CookedIds([d]);
        { SaveMarksCooked(rs, init); LastNightMarks(rs, last); }
        TextAll(NonEmpty(CookIds(init))) + TextAll(NonEmpty(lastIds));
        { TextAllAppend(NonEmpty(CookIds(init)), NonEmpty(lastIds)); }
        TextAll(NonEmpty(CookIds(init)) + NonEmpty(lastIds));
        { NonEmptyAppend(CookIds(init), lastIds); }
        TextAll(NonEmpty(CookIds(init) + lastIds));
        { CookIdsAppend(init, last); }
        TextAll(NonEmpty(CookIds(nights)));
      }
    }
  }

  lemma LastNightMarks(rs: seq<Recipe>, n: Night)
    ensures CookedIds([Posted(Dinner(n, Title(rs, n)))]) == TextAll(NonEmpty(if n.Cook? then [n.recipeId] else []))
  {
  }

  lemma PostedAppend(rs: seq<Recipe>, nights: seq<Night>, n: Night)
    ensures PostedAll(WithTitles(rs, nights + [n])) == PostedAll(WithTitles(rs, nights)) + [Posted(Dinner(n, Title(rs, n)))]
  {
  }

  lemma {:induction false} CookedIdsAppend(ds: seq<SavedDinner>, d: SavedDinner)
    ensures CookedIds(ds + [d]) == CookedIds(ds) + CookedIds([d])
    decreases |ds|
  {
    if ds == [] {
      assert ds + [d] == [d];
    } else {
      var e := ds + [d];
      assert e[0] == ds[0] && e[1..] == ds[1..] + [d];
      CookedIdsAppend(ds[1..], d);
    }
  }

  lemma TextAllAppend(a: seq<string>, b: seq<string>)
    ensures TextAll(a + b) == TextAll(a) + TextAll(b)
  {
  }
}
