/** The nutrition main screen: per-meal calorie totals, the macro bars, the colour of the
    daily progress and the list of meal sections. */
module NutritionMain {
  import opened Wrappers
  import opened Seqs
  import opened JsNumber
  import opened NutritionTypes
  import opened NutritionContext

  /** The meal sections in `MEAL_NAMES` key order, with their titles. */
  const MealNames: seq<(MealType, string)> := [
    (Breakfast, "Desayuno"),
    (MorningSnack, "Media Mañana"),
    (Lunch, "Comida"),
    (AfternoonSnack, "Merienda"),
    (Dinner, "Cena")]

  /** `Object.keys(MEAL_NAMES)`: the slots the screen renders, in order. */
  function SectionOrder(): (r: seq<MealType>)
    ensures |r| == |MealNames| && forall i :: 0 <= i < |r| ==> r[i] == MealNames[i].0
  {
    seq(|MealNames|, i requires 0 <= i < |MealNames| => MealNames[i].0)
  }

  /** The screen shows exactly the five meal slots, each once, in the ledger's order. */
  lemma SectionsAreAllMeals()
    ensures SectionOrder() == AllMeals
    ensures forall m: MealType :: m in SectionOrder()
  {
    EveryMealListed();
  }

  // ---------------------------------------------------------------------------
  // Meal totals

  /** `entries.reduce((sum, e) => sum + calculateMacros(e.foodId, e.grams).calories, 0)`. */
  function MealCalories(foods: seq<Food>, entries: seq<FoodEntry>): real
  {
    if entries == [] then 0.0
    else
      var last := entries[|entries| - 1];
      MealCalories(foods, entries[..|entries| - 1]) + CalculateMacros(foods, last.foodId, last.grams).calories
  }

  /** `calculateMacros` for an entry is what that entry contributes to the daily totals. */
  lemma CalculateMacrosIsContribution(foods: seq<Food>, e: FoodEntry)
    ensures CalculateMacros(foods, e.foodId, e.grams) == EntryContribution(foods, e)
  {
    match FindFoodIndex(foods, e.foodId)
    case None =>
    case Some(k) =>
      assert IsFirstMatch(foods, e.foodId, k);
  }

  /** A meal's total is the calorie part of the consumed totals over its entries. */
  lemma {:induction false} MealCaloriesIsConsumed(foods: seq<Food>, entries: seq<FoodEntry>)
    ensures MealCalories(foods, entries) == Consumed(foods, entries).calories
  {
    if entries != [] {
      MealCaloriesIsConsumed(foods, entries[..|entries| - 1]);
      CalculateMacrosIsContribution(foods, entries[|entries| - 1]);
    }
  }

  /** The meal totals of the slots in `ms`, added up. */
  function SumOfMeals(foods: seq<Food>, b: MealEntries, ms: seq<MealType>): real
    requires Complete(b)
  {
    if ms == [] then 0.0 else MealCalories(foods, b[ms[0]]) + SumOfMeals(foods, b, ms[1..])
  }

  /** Summed over the slots in `ms`, the meal totals give the consumed calories of those meals. */
  lemma {:induction false} SumOfMealsIsConsumed(foods: seq<Food>, b: MealEntries, ms: seq<MealType>)
    requires Complete(b)
    ensures SumOfMeals(foods, b, ms) == Consumed(foods, FlattenMeals(b, ms)).calories
  {
    if ms != [] {
      SumOfMealsIsConsumed(foods, b, ms[1..]);
      MealCaloriesIsConsumed(foods, b[ms[0]]);
      ConsumedAppend(foods, b[ms[0]], FlattenMeals(b, ms[1..]));
    }
  }

  /** The five meal totals on screen add up to the consumed calories of the daily progress. */
  lemma MealTotalsMatchDailyProgress(foods: seq<Food>, b: MealEntries, goals: NutritionGoals)
    requires Complete(b)
    ensures SumOfMeals(foods, b, SectionOrder()) == DailyProgressOf(foods, b, goals).consumed.calories
  {
    SectionsAreAllMeals();
    SumOfMealsIsConsumed(foods, b, AllMeals);
  }

  // ---------------------------------------------------------------------------
  // Rendered entries

  /** The entry filter of `renderFoodEntry`: an entry is drawn only when its food exists. */
  function HasFood(foods: seq<Food>): FoodEntry -> bool
  {
    (e: FoodEntry) => FindFood(foods, e.foodId).Some?
  }

  /** The entries of a meal that are drawn, in order. */
  function RenderedEntries(foods: seq<Food>, entries: seq<FoodEntry>): (r: seq<FoodEntry>)
    ensures forall e :: e in r <==> e in entries && exists i :: 0 <= i < |foods| && foods[i].id == e.foodId
    ensures IsSubsequence(r, entries)
  {
    FilterMembershipAll(entries, HasFood(foods));
    FilterIsSubsequence(entries, HasFood(foods));
    Filter(entries, HasFood(foods))
  }

  /** Entries that are not drawn add nothing: the meal total over the drawn entries is the same. */
  lemma {:induction false} HiddenEntriesAddNothing(foods: seq<Food>, entries: seq<FoodEntry>)
    ensures MealCalories(foods, RenderedEntries(foods, entries)) == MealCalories(foods, entries)
  {
    if entries != [] {
      var init, last := entries[..|entries| - 1], entries[|entries| - 1];
      assert entries == init + [last];
      HiddenEntriesAddNothing(foods, init);
      FilterAppend(init, [last], HasFood(foods));
      CalculateMacrosIsContribution(foods, last);
      var shown := Filter(init, HasFood(foods));
      if HasFood(foods)(last) {
        assert Filter([last], HasFood(foods)) == [last];
        assert (shown + [last])[..|shown + [last]| - 1] == shown;
      } else {
        assert Filter([last], HasFood(foods)) == [];
        assert shown + [] == shown;
      }
    }
  }

  // ---------------------------------------------------------------------------
  // Bars and colours

  function Min(a: real, b: real): real
  {
    if a <= b then a else b
  }

  /** `renderMacroBar`'s fill: the share of the target reached, at most 100, 0 without a target. */
  function MacroBarPercent(current: real, target: real): (r: real)
    ensures r <= 100.0
    ensures target <= 0.0 ==> r == 0.0
    ensures current >= 0.0 ==> r >= 0.0
    ensures r == 100.0 <==> target > 0.0 && current >= target
    ensures target > 0.0 && current < target ==> r == current / target * 100.0
  {
    if target > 0.0 then
      DivisionBelowOne(current, target);
      Min(current / target * 100.0, 100.0)
    else 0.0
  }

  lemma DivisionBelowOne(current: real, target: real)
    requires target > 0.0
    ensures current >= target <==> current / target * 100.0 >= 100.0
    ensures current >= 0.0 ==> current / target >= 0.0
  {
    var q := current / target;
    assert current == q * target;
    assert current >= target <==> q >= 1.0 by {
      ScaleMonotone(1.0, q, target);
      ScaleMonotone(q, 1.0, target);
    }
    assert current >= 0.0 ==> q >= 0.0 by {
      ScaleMonotone(q, 0.0, target);
    }
  }

  /** Multiplying by a positive number keeps a strict or non-strict order. */
  lemma ScaleMonotone(a: real, b: real, c: real)
    requires c > 0.0
    ensures a <= b ==> a * c <= b * c
    ensures a < b ==> a * c < b * c
  {
    assert b * c - a * c == (b - a) * c;
  }

  datatype ProgressColor = ErrorColor | Orange | SuccessColor

  /** `getProgressColor()` for the daily percentage: NaN fails both comparisons, Infinity passes
      `> 120` and -Infinity passes `< 80`. */
  function ProgressColorOf(percentage: Percentage): (r: ProgressColor)
    ensures r == ErrorColor <==> percentage == NegativeInfinite || (percentage.Pct? && percentage.value < 80)
    ensures r == Orange <==> percentage == Infinite || (percentage.Pct? && percentage.value > 120)
    ensures r == SuccessColor <==> percentage == NotANumber || (percentage.Pct? && 80 <= percentage.value <= 120)
  {
    match percentage
    case Pct(v) => if v < 80 then ErrorColor else if v > 120 then Orange else SuccessColor
    case NotANumber => SuccessColor
    case Infinite => Orange
    case NegativeInfinite => ErrorColor
  }

  /** With no calorie goal the bar shows the success colour while nothing is eaten, the over-goal
      colour once any calories are, and the error colour for a negative total. */
  lemma ZeroGoalColor(foods: seq<Food>, b: MealEntries, goals: NutritionGoals)
    requires Complete(b) && goals.dailyCalories == 0.0
    ensures var calories := DailyProgressOf(foods, b, goals).consumed.calories;
            ProgressColorOf(DailyProgressOf(foods, b, goals).percentage)
            == if calories == 0.0 then SuccessColor else if calories > 0.0 then Orange else ErrorColor
  {
  }
}
