/** The nutrition settings screen: the Mifflin–St Jeor calorie calculator with its
    activity and goal tables, the goal validator, and the gram preview of the goals. */
module NutritionSettings {
  import opened Wrappers
  import opened Text
  import opened JsNumber
  import opened NutritionTypes
  import opened NutritionContext

  // ---------------------------------------------------------------------------
  // The calculator

  datatype Gender = Male | Female

  datatype ActivityLevel = ActivityLevel(id: string, multiplier: real)

  datatype GoalOption = GoalOption(id: string, adjustment: real)

  /** Activity levels and their TDEE multipliers, in the order the screen lists them. */
  const ActivityLevels: seq<ActivityLevel> := [
    ActivityLevel("sedentary", 1.2),
    ActivityLevel("light", 1.375),
    ActivityLevel("moderate", 1.55),
    ActivityLevel("very", 1.725),
    ActivityLevel("extra", 1.9)]

  /** Weight goals and their calorie adjustments. */
  const Goals: seq<GoalOption> := [
    GoalOption("lose", -0.2),
    GoalOption("maintain", 0.0),
    GoalOption("gain", 0.15)]

  /** `ACTIVITY_LEVELS.find(level => level.id === id)?.multiplier`. */
  function FindMultiplier(levels: seq<ActivityLevel>, id: string): (r: Option<real>)
    ensures r.None? <==> forall i :: 0 <= i < |levels| ==> levels[i].id != id
    ensures r.Some? ==> exists i :: 0 <= i < |levels| && levels[i].id == id && levels[i].multiplier == r.value
  {
    if levels == [] then None
    else if levels[0].id == id then Some(levels[0].multiplier)
    else
      var r := FindMultiplier(levels[1..], id);
      assert forall i :: 1 <= i < |levels| ==> levels[i] == levels[1..][i - 1];
      r
  }

  /** `GOALS.find(g => g.id === id)?.adjustment`. */
  function FindAdjustment(goals: seq<GoalOption>, id: string): (r: Option<real>)
    ensures r.None? <==> forall i :: 0 <= i < |goals| ==> goals[i].id != id
    ensures r.Some? ==> exists i :: 0 <= i < |goals| && goals[i].id == id && goals[i].adjustment == r.value
  {
    if goals == [] then None
    else if goals[0].id == id then Some(goals[0].adjustment)
    else
      var r := FindAdjustment(goals[1..], id);
      assert forall i :: 1 <= i < |goals| ==> goals[i] == goals[1..][i - 1];
      r
  }

  /** The activity table, looked up by id: the multipliers grow from sedentary to extra. */
  lemma ActivityMultipliers()
    ensures FindMultiplier(ActivityLevels, "sedentary") == Some(1.2)
    ensures FindMultiplier(ActivityLevels, "light") == Some(1.375)
    ensures FindMultiplier(ActivityLevels, "moderate") == Some(1.55)
    ensures FindMultiplier(ActivityLevels, "very") == Some(1.725)
    ensures FindMultiplier(ActivityLevels, "extra") == Some(1.9)
  {
  }

  /** The goal table, looked up by id: losing adjusts down, gaining up. */
  lemma GoalAdjustments()
    ensures FindAdjustment(Goals, "lose") == Some(-0.2)
    ensures FindAdjustment(Goals, "maintain") == Some(0.0)
    ensures FindAdjustment(Goals, "gain") == Some(0.15)
  {
  }

  /** Basal metabolic rate by the Mifflin–St Jeor equation (kg, cm, years). */
  function Bmr(weight: real, height: real, age: real, gender: Gender): real
  {
    match gender
    case Male => 10.0 * weight + 6.25 * height - 5.0 * age + 5.0
    case Female => 10.0 * weight + 6.25 * height - 5.0 * age - 161.0
  }

  /** Each extra kilogram adds 10 kcal, each centimetre 6.25 kcal, each year removes 5 kcal, and
      the male constant exceeds the female one by 166 kcal. */
  lemma BmrSensitivity(weight: real, height: real, age: real, gender: Gender)
    ensures Bmr(weight, height, age, Male) == Bmr(weight, height, age, Female) + 166.0
    ensures Bmr(weight + 1.0, height, age, gender) == Bmr(weight, height, age, gender) + 10.0
    ensures Bmr(weight, height + 1.0, age, gender) == Bmr(weight, height, age, gender) + 6.25
    ensures Bmr(weight, height, age + 1.0, gender) == Bmr(weight, height, age, gender) - 5.0
  {
  }

  datatype CalcOutcome =
    | MissingFields            // a field failed to parse: the error alert, nothing changes
    | UnknownOption            // activity or goal id not in its table: silent return
    | Target(calories: int)    // the rounded daily target

  /** What `calculateBMR` computes from the parsed weight, height and age (`None` for NaN). */
  function Recommend(weight: Option<real>, height: Option<real>, age: Option<real>, gender: Gender,
                     activity: string, goal: string): (r: CalcOutcome)
    ensures r == MissingFields <==> weight.None? || height.None? || age.None?
    ensures r == UnknownOption <==>
              weight.Some? && height.Some? && age.Some?
              && (FindMultiplier(ActivityLevels, activity).None? || FindAdjustment(Goals, goal).None?)
  {
    if weight.None? || height.None? || age.None? then MissingFields
    else
      var bmr := Bmr(weight.value, height.value, age.value, gender);
      var m, adj := FindMultiplier(ActivityLevels, activity), FindAdjustment(Goals, goal);
      if m.None? || adj.None? then UnknownOption
      else Target(TargetCalories(bmr, m.value, adj.value))
  }

  /** `Math.round(bmr * multiplier * (1 + adjustment))`. */
  function TargetCalories(bmr: real, multiplier: real, adjustment: real): int
  {
    Round(bmr * multiplier * (1.0 + adjustment))
  }

  /** 70 kg, 175 cm, 30 years, male, moderately active, maintaining: 2556 kcal. */
  lemma RecommendExample()
    ensures Recommend(Some(70.0), Some(175.0), Some(30.0), Male, "moderate", "maintain") == Target(2556)
  {
    ActivityMultipliers();
    GoalAdjustments();
    var bmr := Bmr(70.0, 175.0, 30.0, Male);
    assert bmr == 1648.75;
    assert Recommend(Some(70.0), Some(175.0), Some(30.0), Male, "moderate", "maintain")
        == Target(TargetCalories(bmr, 1.55, 0.0));
    assert bmr * 1.55 * (1.0 + 0.0) == 2555.5625;
    assert Round(2555.5625) == 2556;
  }

  /** For a positive metabolic rate, a goal with a larger adjustment never recommends fewer calories;
      the table orders its goals lose, maintain, gain. */
  lemma GoalOrdering(weight: real, height: real, age: real, gender: Gender, activity: string, g1: string, g2: string)
    requires FindMultiplier(ActivityLevels, activity).Some?
    requires FindAdjustment(Goals, g1).Some? && FindAdjustment(Goals, g2).Some?
    requires FindAdjustment(Goals, g1).value <= FindAdjustment(Goals, g2).value
    requires Bmr(weight, height, age, gender) > 0.0
    ensures var w, h, a := Some(weight), Some(height), Some(age);
            Recommend(w, h, a, gender, activity, g1).calories <= Recommend(w, h, a, gender, activity, g2).calories
  {
    MultiplierPositive(activity);
    AdjustmentMonotone(Bmr(weight, height, age, gender), FindMultiplier(ActivityLevels, activity).value,
                       FindAdjustment(Goals, g1).value, FindAdjustment(Goals, g2).value);
  }

  /** On a positive energy expenditure a larger adjustment gives a target at least as large. */
  lemma AdjustmentMonotone(bmr: real, multiplier: real, adj1: real, adj2: real)
    requires bmr > 0.0 && multiplier > 0.0 && adj1 <= adj2
    ensures TargetCalories(bmr, multiplier, adj1) <= TargetCalories(bmr, multiplier, adj2)
  {
    var tdee := bmr * multiplier;
    PositiveProduct(bmr, multiplier);
    assert tdee * (1.0 + adj2) - tdee * (1.0 + adj1) == tdee * (adj2 - adj1);
    NonNegativeProduct(tdee, adj2 - adj1);
    RoundMonotone(tdee * (1.0 + adj1), tdee * (1.0 + adj2));
  }

  /** Every multiplier in the table is positive. */
  lemma MultiplierPositive(activity: string)
    requires FindMultiplier(ActivityLevels, activity).Some?
    ensures FindMultiplier(ActivityLevels, activity).value > 0.0
  {
  }

  lemma PositiveProduct(a: real, b: real)
    requires a > 0.0 && b > 0.0
    ensures a * b > 0.0
  {
  }

  // ---------------------------------------------------------------------------
  // The goal validator

  datatype GoalError =
    | CaloriesOutOfRange
    | ProteinOutOfRange
    | CarbsOutOfRange
    | FatOutOfRange
    | SharesDoNotSum

  /** A parsed field lies in `[lo, hi]`; NaN never does. */
  predicate InRange(x: Option<real>, lo: real, hi: real)
  {
    x.Some? && lo <= x.value <= hi
  }

  function Abs(x: real): (r: real)
    ensures r >= 0.0 && (r == x || r == -x)
  {
    if x < 0.0 then -x else x
  }

  /** The checks of `validateAndSave` on the four parsed fields, in order; the first failure is
      reported. */
  function ValidateGoals(calories: Option<real>, protein: Option<real>, carbs: Option<real>, fat: Option<real>)
    : (r: Result<NutritionGoals, GoalError>)
    ensures r == Err(CaloriesOutOfRange) <==> !InRange(calories, 800.0, 5000.0)
    ensures r == Err(ProteinOutOfRange) <==> InRange(calories, 800.0, 5000.0) && !InRange(protein, 10.0, 50.0)
    ensures r == Err(CarbsOutOfRange) <==>
              InRange(calories, 800.0, 5000.0) && InRange(protein, 10.0, 50.0) && !InRange(carbs, 20.0, 70.0)
    ensures r == Err(FatOutOfRange) <==>
              InRange(calories, 800.0, 5000.0) && InRange(protein, 10.0, 50.0) && InRange(carbs, 20.0, 70.0)
              && !InRange(fat, 15.0, 50.0)
    ensures r == Err(SharesDoNotSum) <==>
              InRange(calories, 800.0, 5000.0) && InRange(protein, 10.0, 50.0) && InRange(carbs, 20.0, 70.0)
              && InRange(fat, 15.0, 50.0) && Abs(protein.value + carbs.value + fat.value - 100.0) > 1.0
    ensures r.Ok? ==> r.value == NutritionGoals(calories.value, protein.value, carbs.value, fat.value)
    ensures r.Ok? ==>
              800.0 <= r.value.dailyCalories <= 5000.0 && 10.0 <= r.value.proteinPercentage <= 50.0
              && 20.0 <= r.value.carbsPercentage <= 70.0 && 15.0 <= r.value.fatPercentage <= 50.0
              && 99.0 <= r.value.proteinPercentage + r.value.carbsPercentage + r.value.fatPercentage <= 101.0
  {
    if !InRange(calories, 800.0, 5000.0) then Err(CaloriesOutOfRange)
    else if !InRange(protein, 10.0, 50.0) then Err(ProteinOutOfRange)
    else if !InRange(carbs, 20.0, 70.0) then Err(CarbsOutOfRange)
    else if !InRange(fat, 15.0, 50.0) then Err(FatOutOfRange)
    else if Abs(protein.value + carbs.value + fat.value - 100.0) > 1.0 then Err(SharesDoNotSum)
    else Ok(NutritionGoals(calories.value, protein.value, carbs.value, fat.value))
  }

  /** The default goals, typed back in, pass validation unchanged. */
  lemma DefaultGoalsValid()
    ensures ValidateGoals(Some(2000.0), Some(30.0), Some(40.0), Some(30.0)) == Ok(DefaultGoals)
  {
  }

  /** Accepted goals give gram targets whose energy is within 58.5 kcal of the calorie goal: 1 % for
      the tolerated share sum, 8.5 kcal for rounding. */
  lemma AcceptedGoalsTargetEnergy(calories: Option<real>, protein: Option<real>, carbs: Option<real>, fat: Option<real>)
    requires ValidateGoals(calories, protein, carbs, fat).Ok?
    ensures var g := ValidateGoals(calories, protein, carbs, fat).value;
            var t := TargetMacros(g);
            var k := g.dailyCalories;
            k - 50.0 - 8.5 < 4.0 * t.protein + 4.0 * t.carbs + 9.0 * t.fat <= k + 50.0 + 8.5
  {
    var g := ValidateGoals(calories, protein, carbs, fat).value;
    TargetEnergyNearShares(g);
    SharesEnergyBound(g.dailyCalories, g.proteinPercentage + g.carbsPercentage + g.fatPercentage);
  }

  /** With shares summing to within one point of 100, their energy is within 1 % of the goal. */
  lemma SharesEnergyBound(k: real, s: real)
    requires 800.0 <= k <= 5000.0 && 99.0 <= s <= 101.0
    ensures k - 50.0 <= k * s / 100.0 <= k + 50.0
  {
    var d := s - 100.0;
    assert k * s == k * 100.0 + k * d;
    NonNegativeProduct(k, 1.0 - d);
    NonNegativeProduct(k, 1.0 + d);
    assert k * (1.0 - d) == k - k * d;
    assert k * (1.0 + d) == k + k * d;
  }

  lemma NonNegativeProduct(a: real, b: real)
    requires a >= 0.0 && b >= 0.0
    ensures a * b >= 0.0
  {
  }

  /** `calculateMacroGrams()` on the parsed fields: the gram preview, NaN counted as 0. */
  function MacroGramsPreview(calories: Option<real>, protein: Option<real>, carbs: Option<real>, fat: Option<real>)
    : (int, int, int)
  {
    var kcal := OrZero(calories);
    (MacroGrams(kcal, OrZero(protein), 4.0), MacroGrams(kcal, OrZero(carbs), 4.0), MacroGrams(kcal, OrZero(fat), 9.0))
  }

  /** The preview shows the gram targets the nutrition engine computes once the goals are saved. */
  lemma PreviewMatchesTargets(calories: Option<real>, protein: Option<real>, carbs: Option<real>, fat: Option<real>)
    requires ValidateGoals(calories, protein, carbs, fat).Ok?
    ensures var t := TargetMacros(ValidateGoals(calories, protein, carbs, fat).value);
            var r := MacroGramsPreview(calories, protein, carbs, fat);
            r.0 as real == t.protein && r.1 as real == t.carbs && r.2 as real == t.fat
  {
    var g := ValidateGoals(calories, protein, carbs, fat).value;
    assert OrZero(calories) == g.dailyCalories && OrZero(protein) == g.proteinPercentage;
    assert OrZero(carbs) == g.carbsPercentage && OrZero(fat) == g.fatPercentage;
  }

  /** Unparseable calories count as 0, so every preview is 0 g. */
  lemma PreviewWithoutCalories(protein: Option<real>, carbs: Option<real>, fat: Option<real>)
    ensures MacroGramsPreview(None, protein, carbs, fat) == (0, 0, 0)
  {
    assert 0.0 * OrZero(protein) / 100.0 / 4.0 == 0.0;
    assert 0.0 * OrZero(carbs) / 100.0 / 4.0 == 0.0;
    assert 0.0 * OrZero(fat) / 100.0 / 9.0 == 0.0;
  }

  // ---------------------------------------------------------------------------
  // The screen's state

  class SettingsForm {
    var customCalories: string
    var proteinPercentage: string
    var carbsPercentage: string
    var fatPercentage: string
    var age: string
    var weight: string
    var height: string
    var gender: Gender
    var activityLevel: string
    var goal: string
    var showCalculator: bool

    /** The goal fields start from the current goals' text; the calculator starts empty,
        male, moderately active, maintaining, and hidden. */
    constructor (calories: string, protein: string, carbs: string, fat: string)
      ensures customCalories == calories && proteinPercentage == protein
      ensures carbsPercentage == carbs && fatPercentage == fat
      ensures age == "" && weight == "" && height == "" && gender == Male
      ensures activityLevel == "moderate" && goal == "maintain" && !showCalculator
    {
      customCalories, proteinPercentage, carbsPercentage, fatPercentage := calories, protein, carbs, fat;
      age, weight, height, gender := "", "", "", Male;
      activityLevel, goal, showCalculator := "moderate", "maintain", false;
    }

    /** `calculateBMR()`: on success the calorie field receives the rounded target as text and the
        calculator closes; otherwise nothing changes. */
    method CalculateBmr() returns (outcome: CalcOutcome)
      modifies this`customCalories, this`showCalculator
      ensures outcome == Recommend(ParseFloat(weight), ParseFloat(height), ParseFloat(age), gender, activityLevel, goal)
      ensures outcome.Target? ==> customCalories == IntToString(outcome.calories) && !showCalculator
      ensures !outcome.Target? ==> customCalories == old(customCalories) && showCalculator == old(showCalculator)
    {
      var w, h, a := ParseFloat(weight), ParseFloat(height), ParseFloat(age);
      if w.None? || h.None? || a.None? {
        return MissingFields;
      }
      var bmr := Bmr(w.value, h.value, a.value, gender);
      var activity := FindMultiplier(ActivityLevels, activityLevel);
      var selectedGoal := FindAdjustment(Goals, goal);
      if activity.None? || selectedGoal.None? {
        return UnknownOption;
      }
      var target := TargetCalories(bmr, activity.value, selectedGoal.value);
      customCalories := IntToString(target);
      showCalculator := false;
      outcome := Target(target);
    }

    /** `validateAndSave()`: the goals are replaced by the parsed values only when every check passes. */
    method ValidateAndSave(store: NutritionStore) returns (r: Result<NutritionGoals, GoalError>)
      requires store.Valid()
      modifies store
      ensures store.Valid()
      ensures r == ValidateGoals(ParseFloat(customCalories), ParseFloat(proteinPercentage),
                                 ParseFloat(carbsPercentage), ParseFloat(fatPercentage))
      ensures store.nutritionGoals == if r.Ok? then r.value else old(store.nutritionGoals)
      ensures store.foods == old(store.foods) && store.mealEntries == old(store.mealEntries)
      ensures store.currentDate == old(store.currentDate)
    {
      r := ValidateGoals(ParseFloat(customCalories), ParseFloat(proteinPercentage),
                         ParseFloat(carbsPercentage), ParseFloat(fatPercentage));
      if r.Ok? {
        store.UpdateNutritionGoals(r.value);
      }
    }
  }

  /** A calculated target lands in the calorie field as text that reads back as the same number,
      so saving validates exactly the calculated value. */
  lemma CalculatedTargetReadsBack(kcal: int)
    ensures ParseFloat(IntToString(kcal)) == Some(kcal as real)
    ensures 800 <= kcal <= 5000 ==> InRange(ParseFloat(IntToString(kcal)), 800.0, 5000.0)
  {
    IntToStringParses(kcal);
  }
}
