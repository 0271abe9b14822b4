/** The nutrition engine: the food catalog, the per-day ledger of food entries
    split into five meals, the macro scaler and the daily aggregator. */
module NutritionContext {
  import opened Wrappers
  import opened Seqs
  import opened Text
  import opened JsNumber
  import opened NutritionTypes

  // ---------------------------------------------------------------------------
  // Catalog lookup and the macro scaler

  /** Position of the first food with the given id. */
  function FindFoodIndex(foods: seq<Food>, id: string): (r: Option<nat>)
    ensures r.None? <==> forall i :: 0 <= i < |foods| ==> foods[i].id != id
    ensures r.Some? ==> r.value < |foods| && foods[r.value].id == id
    ensures r.Some? ==> forall j :: 0 <= j < r.value ==> foods[j].id != id
  {
    if foods == [] then None
    else if foods[0].id == id then Some(0)
    else match FindFoodIndex(foods[1..], id)
      case None => None
      case Some(k) => Some(k + 1)
  }

  /** `foods.find(f => f.id === id)`. */
  function FindFood(foods: seq<Food>, id: string): (r: Option<Food>)
    ensures r.None? <==> forall i :: 0 <= i < |foods| ==> foods[i].id != id
    ensures r.Some? ==> r.value in foods && r.value.id == id
  {
    match FindFoodIndex(foods, id)
    case None => None
    case Some(i) => Some(foods[i])
  }

  /** Per-100 g macros of `food` scaled to `grams`: calories to whole kcal,
      the three macronutrients to one decimal place. */
  function ScaleMacros(food: Food, grams: real): (r: Macros)
    ensures var exact := food.macros.calories * (grams / 100.0);
            exact - 0.5 < r.calories <= exact + 0.5 && r.calories == r.calories.Floor as real
    ensures var exact := food.macros.protein * (grams / 100.0);
            exact - 0.05 < r.protein <= exact + 0.05 && (r.protein * 10.0).Floor as real == r.protein * 10.0
    ensures var exact := food.macros.carbs * (grams / 100.0);
            exact - 0.05 < r.carbs <= exact + 0.05 && (r.carbs * 10.0).Floor as real == r.carbs * 10.0
    ensures var exact := food.macros.fat * (grams / 100.0);
            exact - 0.05 < r.fat <= exact + 0.05 && (r.fat * 10.0).Floor as real == r.fat * 10.0
  {
    var ratio := grams / 100.0;
    Macros(
      Round(food.macros.calories * ratio) as real,
      RoundTenth(food.macros.protein * ratio),
      RoundTenth(food.macros.carbs * ratio),
      RoundTenth(food.macros.fat * ratio))
  }

  /** `calculateMacros(foodId, grams)`: zeros for an unknown food, the scaled macros of the
      first catalog food with that id otherwise. */
  function CalculateMacros(foods: seq<Food>, foodId: string, grams: real): (r: Macros)
    ensures (forall i :: 0 <= i < |foods| ==> foods[i].id != foodId) ==> r == ZeroMacros
    ensures forall i :: IsFirstMatch(foods, foodId, i) ==> r == ScaleMacros(foods[i], grams)
  {
    match FindFoodIndex(foods, foodId)
    case None => ZeroMacros
    case Some(k) => FirstMatchUnique(foods, foodId, k); ScaleMacros(foods[k], grams)
  }

  /** Position `i` holds the first food with id `id`. */
  predicate IsFirstMatch(foods: seq<Food>, id: string, i: int)
  {
    0 <= i < |foods| && foods[i].id == id && forall j :: 0 <= j < i ==> foods[j].id != id
  }

  /** Only one position holds the first food with a given id. */
  lemma FirstMatchUnique(foods: seq<Food>, id: string, k: nat)
    requires IsFirstMatch(foods, id, k)
    ensures forall i :: IsFirstMatch(foods, id, i) ==> i == k
  {
  }

  /** Worked example: 150 g of a 165 kcal / 31 g / 0 g / 3.6 g food. */
  lemma ScaleExample()
    ensures ScaleMacros(Food("c", "Chicken", Macros(165.0, 31.0, 0.0, 3.6), Proteins, false, false, None), 150.0)
            == Macros(248.0, 46.5, 0.0, 5.4)
  {
    assert Round(165.0 * 1.5) == 248;
    assert Round(31.0 * 1.5 * 10.0) == 465;
    assert Round(3.6 * 1.5 * 10.0) == 54;
  }

  /** Rounding happens per call, so scaling two halves need not add up to scaling the whole. */
  lemma ScalingIsNotAdditive()
    ensures var f := Food("x", "X", Macros(1.0, 0.0, 0.0, 0.0), Other, false, false, None);
            ScaleMacros(f, 50.0).calories + ScaleMacros(f, 50.0).calories != ScaleMacros(f, 100.0).calories
  {
    assert Round(1.0 * 0.5) == 1;
    assert Round(1.0 * 1.0) == 1;
  }

  // ---------------------------------------------------------------------------
  // Catalog operations

  predicate InCategory(food: Food, category: Option<FoodCategory>)
  {
    category.None? || food.category == category.value
  }

  predicate NameMatches(food: Food, query: string)
  {
    IsBlank(query) || ContainsIgnoringCase(food.name, query)
  }

  /** `searchFoods(query, category)`. A blank query applies no name filter; a non-blank one is
      matched as typed (untrimmed) against the lower-cased name. */
  function SearchFoods(foods: seq<Food>, query: string, category: Option<FoodCategory>): (r: seq<Food>)
    ensures forall f :: f in r <==> f in foods && InCategory(f, category) && NameMatches(f, query)
    ensures IsSubsequence(r, foods)
  {
    var byCategory := ByCategory(foods, category);
    var byName := ByName(byCategory, query);
    SubsequenceTransitive(byName, byCategory, foods);
    byName
  }

  /** The category step of `searchFoods`: no filter without a category. */
  function ByCategory(foods: seq<Food>, category: Option<FoodCategory>): (r: seq<Food>)
    ensures forall f :: f in r <==> f in foods && InCategory(f, category)
    ensures IsSubsequence(r, foods)
  {
    if category.Some? then
      FilterMembershipAll(foods, (f: Food) => f.category == category.value);
      FilterIsSubsequence(foods, (f: Food) => f.category == category.value);
      Filter(foods, (f: Food) => f.category == category.value)
    else
      SubsequenceReflexive(foods);
      foods
  }

  /** The name step of `searchFoods`: no filter for a blank query. */
  function ByName(foods: seq<Food>, query: string): (r: seq<Food>)
    ensures forall f :: f in r <==> f in foods && NameMatches(f, query)
    ensures IsSubsequence(r, foods)
  {
    if !IsBlank(query) then
      FilterMembershipAll(foods, (f: Food) => ContainsIgnoringCase(f.name, query));
      FilterIsSubsequence(foods, (f: Food) => ContainsIgnoringCase(f.name, query));
      Filter(foods, (f: Food) => ContainsIgnoringCase(f.name, query))
    else
      SubsequenceReflexive(foods);
      foods
  }

  /** `favoriteFoods`: the catalog foods marked favourite, in catalog order. */
  function FavoriteFoods(foods: seq<Food>): (r: seq<Food>)
    ensures forall f :: f in r <==> f in foods && f.isFavorite
    ensures IsSubsequence(r, foods)
  {
    FilterMembershipAll(foods, (f: Food) => f.isFavorite);
    FilterIsSubsequence(foods, (f: Food) => f.isFavorite);
    Filter(foods, (f: Food) => f.isFavorite)
  }

  /** The food `addCustomFood` builds: the draft's fields, the fresh id, `isCustom` set. */
  function NewCustomFood(draft: FoodDraft, id: string): (f: Food)
    ensures f.isCustom && f.id == id
    ensures f.name == draft.name && f.macros == draft.macros && f.category == draft.category
    ensures f.isFavorite == draft.isFavorite && f.commonPortions == draft.commonPortions
  {
    Food(id, draft.name, draft.macros, draft.category, true, draft.isFavorite, draft.commonPortions)
  }

  /** `toggleFavorite(id)` on the catalog. */
  function ToggledFavorite(foods: seq<Food>, id: string): (r: seq<Food>)
    ensures |r| == |foods|
    ensures forall i :: 0 <= i < |r| ==> r[i].(isFavorite := foods[i].isFavorite) == foods[i]
    ensures forall i :: 0 <= i < |r| ==> (r[i].isFavorite <==> (foods[i].isFavorite != (foods[i].id == id)))
  {
    seq(|foods|, i requires 0 <= i < |foods| =>
      if foods[i].id == id then foods[i].(isFavorite := !foods[i].isFavorite) else foods[i])
  }

  /** Toggling the same id twice restores the catalog. */
  lemma ToggleFavoriteTwice(foods: seq<Food>, id: string)
    ensures ToggledFavorite(ToggledFavorite(foods, id), id) == foods
  {
    var once := ToggledFavorite(foods, id);
    var twice := ToggledFavorite(once, id);
    forall i | 0 <= i < |foods| ensures twice[i] == foods[i] {
      assert once[i].id == foods[i].id;
    }
  }

  /** Toggling an id no food has leaves the catalog unchanged. */
  lemma ToggleUnknownFavorite(foods: seq<Food>, id: string)
    requires forall i :: 0 <= i < |foods| ==> foods[i].id != id
    ensures ToggledFavorite(foods, id) == foods
  {
  }

  // ---------------------------------------------------------------------------
  // The food-entry ledger

  /** The entry filter `entry => entry.id !== id`. */
  function NotId(id: string): FoodEntry -> bool
  {
    (e: FoodEntry) => e.id != id
  }

  /** The entry rewrite `entry.id === id ? { ...entry, grams } : entry`. */
  function WithGrams(s: seq<FoodEntry>, id: string, grams: real): (r: seq<FoodEntry>)
    ensures |r| == |s|
    ensures forall i :: 0 <= i < |s| ==> r[i].(grams := s[i].grams) == s[i]
    ensures forall i :: 0 <= i < |s| ==> r[i].grams == if s[i].id == id then grams else s[i].grams
  {
    seq(|s|, i requires 0 <= i < |s| => if s[i].id == id then s[i].(grams := grams) else s[i])
  }

  /** `addFoodEntry`: the entry goes to the end of its meal's list. */
  function AddEntry(b: MealEntries, e: FoodEntry): (r: MealEntries)
    requires Complete(b)
    ensures Complete(r)
    ensures r[e.meal] == b[e.meal] + [e]
    ensures forall m :: m != e.meal ==> r[m] == b[m]
  {
    b[e.meal := b[e.meal] + [e]]
  }

  /** `removeFoodEntry`: every entry with that id is dropped from every meal. */
  function RemoveEntry(b: MealEntries, id: string): (r: MealEntries)
    requires Complete(b)
    ensures Complete(r)
    ensures forall m :: r[m] == Filter(b[m], NotId(id))
  {
    map m | m in b :: Filter(b[m], NotId(id))
  }

  /** `updateFoodEntry`: the grams of every entry with that id are replaced. */
  function UpdateEntry(b: MealEntries, id: string, grams: real): (r: MealEntries)
    requires Complete(b)
    ensures Complete(r)
    ensures forall m :: r[m] == WithGrams(b[m], id, grams)
  {
    map m | m in b :: WithGrams(b[m], id, grams)
  }

  predicate HasEntry(b: MealEntries, id: string)
    requires Complete(b)
  {
    exists m: MealType, i :: 0 <= i < |b[m]| && b[m][i].id == id
  }

  /** After a removal, no entry with that id is left, and the others keep their order. */
  lemma RemoveEntryEffect(b: MealEntries, id: string)
    requires Complete(b)
    ensures !HasEntry(RemoveEntry(b, id), id)
    ensures forall m :: IsSubsequence(RemoveEntry(b, id)[m], b[m])
    ensures forall m, e :: e in b[m] && e.id != id ==> e in RemoveEntry(b, id)[m]
  {
    var r := RemoveEntry(b, id);
    forall m: MealType
      ensures IsSubsequence(r[m], b[m])
      ensures forall i :: 0 <= i < |r[m]| ==> r[m][i].id != id
      ensures forall e :: e in b[m] && e.id != id ==> e in r[m]
    {
      FilterIsSubsequence(b[m], NotId(id));
      FilterAllSatisfy(b[m], NotId(id));
      FilterMembershipAll(b[m], NotId(id));
    }
  }

  /** Removing an id no entry has changes nothing. */
  lemma RemoveUnknownEntry(b: MealEntries, id: string)
    requires Complete(b) && !HasEntry(b, id)
    ensures RemoveEntry(b, id) == b
  {
    forall m: MealType ensures RemoveEntry(b, id)[m] == b[m] {
      FilterKeepsAll(b[m], NotId(id));
    }
  }

  /** Adding an entry with a fresh id and then removing that id restores every meal. */
  lemma AddThenRemoveRestores(b: MealEntries, e: FoodEntry)
    requires Complete(b) && !HasEntry(b, e.id)
    ensures RemoveEntry(AddEntry(b, e), e.id) == b
  {
    var a := AddEntry(b, e);
    forall m: MealType ensures RemoveEntry(a, e.id)[m] == b[m] {
      FilterKeepsAll(b[m], NotId(e.id));
      if m == e.meal {
        FilterAppend(b[m], [e], NotId(e.id));
        assert Filter([e], NotId(e.id)) == [];
      }
    }
  }

  /** An update keeps every meal's entries, ids, foods and meal slots; only grams move. */
  lemma UpdateEntryKeepsShape(b: MealEntries, id: string, grams: real)
    requires Complete(b)
    ensures forall m :: |UpdateEntry(b, id, grams)[m]| == |b[m]|
    ensures forall m, i :: 0 <= i < |b[m]| ==>
              var e := UpdateEntry(b, id, grams)[m][i];
              e.id == b[m][i].id && e.foodId == b[m][i].foodId && e.meal == b[m][i].meal
              && e.grams == (if b[m][i].id == id then grams else b[m][i].grams)
  {
  }

  // ---------------------------------------------------------------------------
  // The daily aggregator

  /** The entries of all meals, meal lists concatenated in `ms` order. */
  function FlattenMeals(b: MealEntries, ms: seq<MealType>): (r: seq<FoodEntry>)
    requires Complete(b)
  {
    if ms == [] then [] else b[ms[0]] + FlattenMeals(b, ms[1..])
  }

  /** `Object.values(mealEntries).flat()`. */
  function AllEntries(b: MealEntries): seq<FoodEntry>
    requires Complete(b)
  {
    FlattenMeals(b, AllMeals)
  }

  /** What one entry adds to the day: its scaled macros, or nothing when its food is missing. */
  function EntryContribution(foods: seq<Food>, e: FoodEntry): (r: Macros)
  {
    match FindFood(foods, e.foodId)
    case None => ZeroMacros
    case Some(f) => ScaleMacros(f, e.grams)
  }

  /** The summed contributions of a list of entries. */
  function Consumed(foods: seq<Food>, entries: seq<FoodEntry>): Macros
  {
    if entries == [] then ZeroMacros
    else Consumed(foods, entries[..|entries| - 1]).Plus(EntryContribution(foods, entries[|entries| - 1]))
  }

  /** Totals over a concatenation add up. */
  lemma {:induction false} ConsumedAppend(foods: seq<Food>, a: seq<FoodEntry>, b: seq<FoodEntry>)
    ensures Consumed(foods, a + b) == Consumed(foods, a).Plus(Consumed(foods, b))
    decreases |b|
  {
    if b == [] {
      assert a + b == a;
    } else {
      assert (a + b)[..|a + b| - 1] == a + b[..|b| - 1];
      ConsumedAppend(foods, a, b[..|b| - 1]);
    }
  }

  /** Entries whose food is missing add nothing; a list of them totals zero. */
  lemma {:induction false} ConsumedOfMissing(foods: seq<Food>, entries: seq<FoodEntry>)
    requires forall i, j :: 0 <= i < |entries| && 0 <= j < |foods| ==> foods[j].id != entries[i].foodId
    ensures Consumed(foods, entries) == ZeroMacros
  {
    if entries != [] {
      ConsumedOfMissing(foods, entries[..|entries| - 1]);
    }
  }

  /** `Math.round(kcal * pct / 100 / kcalPerGram)`: grams of a macronutrient for a share of the calories. */
  function MacroGrams(kcal: real, pct: real, kcalPerGram: real): int
    requires kcalPerGram > 0.0
  {
    Round(kcal * pct / 100.0 / kcalPerGram)
  }

  /** At 4 kcal per gram the rounded grams hold the energy share to within 2 kcal. */
  lemma MacroGramsAt4(kcal: real, pct: real)
    ensures kcal * pct / 100.0 - 2.0 < 4.0 * MacroGrams(kcal, pct, 4.0) as real <= kcal * pct / 100.0 + 2.0
  {
    var e := kcal * pct / 100.0;
    assert e / 4.0 * 4.0 == e;
  }

  /** At 9 kcal per gram the rounded grams hold the energy share to within 4.5 kcal. */
  lemma MacroGramsAt9(kcal: real, pct: real)
    ensures kcal * pct / 100.0 - 4.5 < 9.0 * MacroGrams(kcal, pct, 9.0) as real <= kcal * pct / 100.0 + 4.5
  {
    var e := kcal * pct / 100.0;
    assert e / 9.0 * 9.0 == e;
  }

  /** The daily targets: the calorie goal and the gram targets at 4/4/9 kcal per gram. */
  function TargetMacros(goals: NutritionGoals): Macros
  {
    Macros(
      goals.dailyCalories,
      MacroGrams(goals.dailyCalories, goals.proteinPercentage, 4.0) as real,
      MacroGrams(goals.dailyCalories, goals.carbsPercentage, 4.0) as real,
      MacroGrams(goals.dailyCalories, goals.fatPercentage, 9.0) as real)
  }

  /** The energy of the gram targets is within 8.5 kcal of the goal's share sum applied to the goal. */
  lemma TargetEnergyNearShares(goals: NutritionGoals)
    ensures var t := TargetMacros(goals);
            var k := goals.dailyCalories;
            var e := k * (goals.proteinPercentage + goals.carbsPercentage + goals.fatPercentage) / 100.0;
            e - 8.5 < 4.0 * t.protein + 4.0 * t.carbs + 9.0 * t.fat <= e + 8.5
  {
    var k := goals.dailyCalories;
    var p, c, f := goals.proteinPercentage, goals.carbsPercentage, goals.fatPercentage;
    MacroGramsAt4(k, p);
    MacroGramsAt4(k, c);
    MacroGramsAt9(k, f);
    assert k * p / 100.0 + k * c / 100.0 + k * f / 100.0 == k * (p + c + f) / 100.0;
  }

  /** With shares summing to 100 %, the energy of the gram targets is within 8.5 kcal of the goal. */
  lemma TargetEnergyMatchesGoal(goals: NutritionGoals)
    requires goals.proteinPercentage + goals.carbsPercentage + goals.fatPercentage == 100.0
    ensures var t := TargetMacros(goals);
            goals.dailyCalories - 8.5 < 4.0 * t.protein + 4.0 * t.carbs + 9.0 * t.fat <= goals.dailyCalories + 8.5
  {
    TargetEnergyNearShares(goals);
  }

  /** The default goals give 150 g protein, 200 g carbohydrate and 67 g fat. */
  lemma DefaultTargets()
    ensures TargetMacros(DefaultGoals) == Macros(2000.0, 150.0, 200.0, 67.0)
  {
    assert Round(2000.0 * 30.0 / 100.0 / 9.0) == 67;
  }

  datatype DailyProgress = DailyProgress(consumed: Macros, target: Macros, percentage: Percentage)

  /** `getDailyProgress()`: consumed totals over every meal, the targets, and consumed calories as a
      rounded percentage of the goal (NaN or an infinity for a zero goal). */
  function DailyProgressOf(foods: seq<Food>, b: MealEntries, goals: NutritionGoals): DailyProgress
    requires Complete(b)
  {
    var consumed := Consumed(foods, AllEntries(b));
    DailyProgress(consumed, TargetMacros(goals), PercentOf(consumed.calories, goals.dailyCalories))
  }

  /** Adding an entry with a fresh id and removing it again restores the day's progress. */
  lemma AddThenRemoveRestoresProgress(foods: seq<Food>, b: MealEntries, goals: NutritionGoals, e: FoodEntry)
    requires Complete(b) && !HasEntry(b, e.id)
    ensures DailyProgressOf(foods, RemoveEntry(AddEntry(b, e), e.id), goals) == DailyProgressOf(foods, b, goals)
  {
    AddThenRemoveRestores(b, e);
  }

  // ---------------------------------------------------------------------------
  // The provider's state

  class NutritionStore {
    var foods: seq<Food>
    var currentDate: string
    var mealEntries: MealEntries
    var nutritionGoals: NutritionGoals

    ghost predicate Valid()
      reads this
    {
      Complete(mealEntries)
    }

    /** Seeded catalog, today's date, five empty meals and the default goals. */
    constructor (catalog: seq<Food>, today: string)
      ensures Valid()
      ensures foods == catalog && currentDate == today
      ensures mealEntries == EmptyMeals() && nutritionGoals == DefaultGoals
    {
      foods := catalog;
      currentDate := today;
      mealEntries := EmptyMeals();
      nutritionGoals := DefaultGoals;
    }

    /** `setCurrentDate`, with the effect that empties every meal when the date changes. */
    method SetCurrentDate(date: string)
      requires Valid()
      modifies this
      ensures Valid()
      ensures currentDate == date
      ensures mealEntries == if date != old(currentDate) then EmptyMeals() else old(mealEntries)
      ensures foods == old(foods) && nutritionGoals == old(nutritionGoals)
    {
      if date != currentDate {
        currentDate := date;
        mealEntries := EmptyMeals();
      }
    }

    /** `addCustomFood`: appends the draft as a custom food with id `custom_<now>`. */
    method AddCustomFood(draft: FoodDraft, now: nat)
      requires Valid()
      modifies this
      ensures Valid()
      ensures foods == old(foods) + [NewCustomFood(draft, "custom_" + NatToString(now))]
      ensures mealEntries == old(mealEntries) && currentDate == old(currentDate)
      ensures nutritionGoals == old(nutritionGoals)
    {
      foods := foods + [NewCustomFood(draft, "custom_" + NatToString(now))];
    }

    /** `toggleFavorite`. */
    method ToggleFavorite(foodId: string)
      requires Valid()
      modifies this
      ensures Valid()
      ensures foods == ToggledFavorite(old(foods), foodId)
      ensures mealEntries == old(mealEntries) && currentDate == old(currentDate)
      ensures nutritionGoals == old(nutritionGoals)
    {
      foods := ToggledFavorite(foods, foodId);
    }

    /** `addFoodEntry`: the new entry carries the current date and lands at the end of its meal. */
    method AddFoodEntry(foodId: string, grams: real, meal: MealType, entryId: string, createdAt: string)
      requires Valid()
      modifies this
      ensures Valid()
      ensures mealEntries == AddEntry(old(mealEntries), FoodEntry(entryId, foodId, grams, meal, currentDate, createdAt))
      ensures foods == old(foods) && currentDate == old(currentDate)
      ensures nutritionGoals == old(nutritionGoals)
    {
      mealEntries := AddEntry(mealEntries, FoodEntry(entryId, foodId, grams, meal, currentDate, createdAt));
    }

    /** `removeFoodEntry`: filters each meal's list in turn. */
    method RemoveFoodEntry(entryId: string)
      requires Valid()
      modifies this
      ensures Valid()
      ensures mealEntries == RemoveEntry(old(mealEntries), entryId)
      ensures foods == old(foods) && currentDate == old(currentDate)
      ensures nutritionGoals == old(nutritionGoals)
    {
      var updated := mealEntries;
      for k := 0 to |AllMeals|
        invariant updated.Keys == mealEntries.Keys
        invariant forall j :: 0 <= j < k ==> updated[AllMeals[j]] == Filter(mealEntries[AllMeals[j]], NotId(entryId))
        invariant forall j :: k <= j < |AllMeals| ==> updated[AllMeals[j]] == mealEntries[AllMeals[j]]
      {
        var meal := AllMeals[k];
        updated := updated[meal := Filter(updated[meal], NotId(entryId))];
      }
      forall m: MealType ensures updated[m] == RemoveEntry(mealEntries, entryId)[m] {
        AllMealsListsEachOnce(m);
        var j :| 0 <= j < |AllMeals| && AllMeals[j] == m;
      }
      EveryMealListed();
      assert updated == RemoveEntry(mealEntries, entryId);
      mealEntries := updated;
    }

    /** `updateFoodEntry`: rewrites each meal's list in turn. */
    method UpdateFoodEntry(entryId: string, grams: real)
      requires Valid()
      modifies this
      ensures Valid()
      ensures mealEntries == UpdateEntry(old(mealEntries), entryId, grams)
      ensures foods == old(foods) && currentDate == old(currentDate)
      ensures nutritionGoals == old(nutritionGoals)
    {
      var updated := mealEntries;
      for k := 0 to |AllMeals|
        invariant updated.Keys == mealEntries.Keys
        invariant forall j :: 0 <= j < k ==> updated[AllMeals[j]] == WithGrams(mealEntries[AllMeals[j]], entryId, grams)
        invariant forall j :: k <= j < |AllMeals| ==> updated[AllMeals[j]] == mealEntries[AllMeals[j]]
      {
        var meal := AllMeals[k];
        updated := updated[meal := WithGrams(updated[meal], entryId, grams)];
      }
      forall m: MealType ensures updated[m] == UpdateEntry(mealEntries, entryId, grams)[m] {
        AllMealsListsEachOnce(m);
        var j :| 0 <= j < |AllMeals| && AllMeals[j] == m;
      }
      EveryMealListed();
      assert updated == UpdateEntry(mealEntries, entryId, grams);
      mealEntries := updated;
    }

    /** `updateNutritionGoals`: replaces the goals wholesale. */
    method UpdateNutritionGoals(goals: NutritionGoals)
      requires Valid()
      modifies this
      ensures Valid()
      ensures nutritionGoals == goals
      ensures foods == old(foods) && mealEntries == old(mealEntries) && currentDate == old(currentDate)
    {
      nutritionGoals := goals;
    }

    /** `getDailyProgress()`: accumulates each entry whose food exists into `consumed`. */
    method GetDailyProgress() returns (p: DailyProgress)
      requires Valid()
      ensures p == DailyProgressOf(foods, mealEntries, nutritionGoals)
    {
      var entries := AllEntries(mealEntries);
      var consumed := ZeroMacros;
      for i := 0 to |entries|
        invariant consumed == Consumed(foods, entries[..i])
      {
        var entry := entries[i];
        assert entries[..i + 1][..i] == entries[..i];
        assert Consumed(foods, entries[..i + 1]) == consumed.Plus(EntryContribution(foods, entry));
        var food := FindFood(foods, entry.foodId);
        if food.Some? {
          var scaled := ScaleMacros(food.value, entry.grams);
          consumed := Macros(
            consumed.calories + scaled.calories,
            consumed.protein + scaled.protein,
            consumed.carbs + scaled.carbs,
            consumed.fat + scaled.fat);
        }
      }
      assert entries[..|entries|] == entries;
      var target := TargetMacros(nutritionGoals);
      var percentage := PercentOf(consumed.calories, target.calories);
      p := DailyProgress(consumed, target, percentage);
    }
  }
}
