/** The nutrition data model: foods with per-100 g macros, food entries logged
    against one of five meals, and the daily goals. */
module NutritionTypes {
  import opened Wrappers

  /** Calories (kcal) and protein, carbohydrate and fat (g). */
  datatype Macros = Macros(calories: real, protein: real, carbs: real, fat: real)
  {
    function Plus(other: Macros): Macros {
      Macros(calories + other.calories, protein + other.protein, carbs + other.carbs, fat + other.fat)
    }
  }

  const ZeroMacros := Macros(0.0, 0.0, 0.0, 0.0)

  datatype FoodCategory =
    | Proteins | Carbs | Vegetables | Fruits | Dairy
    | NutsSeeds | OilsFats | Beverages | Snacks | Other

  datatype Portion = Portion(name: string, grams: real)

  /** A catalog food; `macros` are per 100 g. */
  datatype Food = Food(
    id: string,
    name: string,
    macros: Macros,
    category: FoodCategory,
    isCustom: bool,
    isFavorite: bool,
    commonPortions: Option<seq<Portion>>)

  /** A food as the create-food form hands it over: everything but `id` and `isCustom`. */
  datatype FoodDraft = FoodDraft(
    name: string,
    macros: Macros,
    category: FoodCategory,
    isFavorite: bool,
    commonPortions: Option<seq<Portion>>)

  datatype MealType = Breakfast | MorningSnack | Lunch | AfternoonSnack | Dinner

  /** The meal slots in the order the meal-entries object lists its keys. */
  const AllMeals: seq<MealType> := [Breakfast, MorningSnack, Lunch, AfternoonSnack, Dinner]

  /** Every meal slot appears in `AllMeals`, exactly once. */
  lemma AllMealsListsEachOnce(m: MealType)
    ensures m in AllMeals
    ensures forall i, j :: 0 <= i < j < |AllMeals| ==> AllMeals[i] != AllMeals[j]
  {
  }

  lemma EveryMealListed()
    ensures forall m: MealType :: m in AllMeals
  {
    forall m: MealType ensures m in AllMeals {
      AllMealsListsEachOnce(m);
    }
  }

  datatype FoodEntry = FoodEntry(
    id: string,
    foodId: string,
    grams: real,
    meal: MealType,
    date: string,
    createdAt: string)

  datatype NutritionGoals = NutritionGoals(
    dailyCalories: real,
    proteinPercentage: real,
    carbsPercentage: real,
    fatPercentage: real)

  /** 2000 kcal split 30 % protein, 40 % carbohydrate, 30 % fat. */
  const DefaultGoals := NutritionGoals(2000.0, 30.0, 40.0, 30.0)

  /** The entries of the current day, one list per meal slot. */
  type MealEntries = map<MealType, seq<FoodEntry>>

  predicate Complete(b: MealEntries)
  {
    forall m: MealType :: m in b
  }

  /** All five meal slots, each with no entries. */
  function EmptyMeals(): (b: MealEntries)
    ensures Complete(b)
    ensures forall m :: m in b ==> b[m] == []
  {
    EveryMealListed();
    map m | m in AllMeals :: []
  }
}
