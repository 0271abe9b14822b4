# YourGainz core, modelled in Dafny

YourGainz is a mobile fitness tracker. This project models its core behaviour in Dafny and proves properties about that model:

- **Nutrition context:** the food catalog, the per-meal food diary of the current day, the nutrition goals and the daily progress computed from them.
- **Nutrition screens:**
  - the main screen (meal totals, macro bars, calorie colour);
  - the goal settings screen (the Mifflin–St Jeor calorie calculator, goal validation, gram preview);
  - the custom food form.
- **Workout side:**
  - live tracking of a routine (ticking off exercises and counting sets);
  - the session history list and detail views, and the editing of a finished session;
  - the routine builder and the exercise catalog filters;
  - the weight log with its chart and difference;
  - the profile form.

How the model is built:

- **State:** React state that a screen updates becomes the fields of a Dafny class. Each screen handler becomes a method whose `ensures` gives the new state in terms of a specification function. Render-time computations become functions.
- **Numbers:** JavaScript numbers are `real`.
  - `Math.round` is `Round`.
  - `parseFloat` and `Number` are modelled on a decimal grammar (module `JsNumber`).
  - Where the app can produce NaN or ±Infinity and the screens branch on it (completion percentages, the calorie percentage), the value is the `Percentage` datatype.
  - Where only a finite result matters, NaN is `None`.
- **Outside inputs:** fresh ids (`Date.now()`), the current date, the elapsed milliseconds of a session and the user's answers to confirmation dialogs are method parameters.

Modules, one per source file:

| module | models |
|---|---|
| `Wrappers`, `Seqs`, `Text`, `JsNumber`, `Sorting` | `Option`, filtering and subsequences, lower-casing and padding, JavaScript number parsing and rounding, an in-place sort by key |
| `NutritionTypes` | `src/types/nutrition.ts` |
| `NutritionContext` | `src/contexts/NutritionContext.tsx` |
| `NutritionMain`, `NutritionSettings`, `CreateFood` | the three nutrition screens |
| `WorkoutTypes`, `Durations` | the workout records, and the `MM:SS` durations shared by the workout screens |
| `RoutineTracking`, `EditRoutineHistory`, `RoutineHistoryList`, `RoutineHistoryDetail` | the session screens |
| `Routines`, `ExercisesList`, `Progress`, `EditProfile` | the routine builder, exercise catalog, weight log and profile screens |

## Model

| member | source | states |
|---|---|---|
| NutritionContext.FindFood | src/contexts/NutritionContext.tsx:159-161 | `foods.find` by id: no food exactly when no catalog entry has the id; otherwise a catalog food with that id |
| NutritionContext.ScaleMacros | src/contexts/NutritionContext.tsx:163-169 | the per-100 g macros scaled to the grams: calories a whole number within 0.5 kcal of the exact value; protein, carbs and fat each a whole number of tenths within 0.05 g of the exact value |
| NutritionContext.CalculateMacros | src/contexts/NutritionContext.tsx:159-170 | all zeros for an unknown food; otherwise the scaled macros of the first catalog food with that id |
| NutritionContext.ScaleExample | src/contexts/NutritionContext.tsx:163-169 | 150 g of a 165/31/0/3.6 food gives 248 kcal, 46.5 g, 0 g and 5.4 g |
| NutritionContext.ScalingIsNotAdditive | src/contexts/NutritionContext.tsx:165 | rounding per call means two half portions need not add up to the whole portion |
| NutritionContext.SearchFoods | src/contexts/NutritionContext.tsx:83-98 | the order-preserving sublist of foods in the given category (if any) whose lower-cased name contains the query; a blank query applies no name filter |
| NutritionContext.ByCategory | src/contexts/NutritionContext.tsx:86-88 | exactly the foods of the category, in catalog order; all foods without a category |
| NutritionContext.ByName | src/contexts/NutritionContext.tsx:90-95 | exactly the foods whose name contains the query ignoring case, in order; all foods for a blank query |
| NutritionContext.FavoriteFoods | src/contexts/NutritionContext.tsx:203 | exactly the favourite foods, in catalog order |
| NutritionContext.NewCustomFood | src/contexts/NutritionContext.tsx:100-106 | the draft's fields, the fresh id and `isCustom` set |
| NutritionContext.ToggledFavorite | src/contexts/NutritionContext.tsx:109-113 | same length; only `isFavorite` can change, and it flips exactly on the foods with the id |
| NutritionContext.ToggleFavoriteTwice | src/contexts/NutritionContext.tsx:109-113 | toggling the same id twice restores the catalog |
| NutritionContext.ToggleUnknownFavorite | src/contexts/NutritionContext.tsx:109-113 | toggling an unknown id leaves the catalog unchanged |
| NutritionContext.WithGrams | src/contexts/NutritionContext.tsx:150-152 | same length; only grams change, and only on entries with the id |
| NutritionContext.AddEntry | src/contexts/NutritionContext.tsx:127-131 | the entry is appended to its meal; the other four meals are unchanged |
| NutritionContext.RemoveEntry | src/contexts/NutritionContext.tsx:135-144 | every meal keeps exactly its entries with another id |
| NutritionContext.UpdateEntry | src/contexts/NutritionContext.tsx:146-157 | every meal's entries with the id get the new grams |
| NutritionContext.RemoveEntryEffect | src/contexts/NutritionContext.tsx:135-144 | after removal no entry has the id, each meal is a subsequence of what it was, and every other entry stays |
| NutritionContext.RemoveUnknownEntry | src/contexts/NutritionContext.tsx:135-144 | removing an id no entry has changes nothing |
| NutritionContext.AddThenRemoveRestores | src/contexts/NutritionContext.tsx:115-144 | adding an entry with a fresh id and then removing that id restores every meal |
| NutritionContext.UpdateEntryKeepsShape | src/contexts/NutritionContext.tsx:146-157 | meal lengths, ids, food ids and meal slots are unchanged; only grams move |
| NutritionContext.ConsumedAppend | src/contexts/NutritionContext.tsx:176-185 | the consumed totals over a concatenation are the sum of the totals of the parts |
| NutritionContext.ConsumedOfMissing | src/contexts/NutritionContext.tsx:177-178 | entries whose food is missing add nothing |
| NutritionContext.MacroGramsAt4 | src/contexts/NutritionContext.tsx:189-190 | protein and carbohydrate gram targets hold their energy share to within 2 kcal |
| NutritionContext.MacroGramsAt9 | src/contexts/NutritionContext.tsx:191 | the fat gram target holds its energy share to within 4.5 kcal |
| NutritionContext.TargetEnergyNearShares | src/contexts/NutritionContext.tsx:187-192 | the energy of the rounded gram targets is within 8.5 kcal of the goal scaled by the sum of the three shares |
| NutritionContext.TargetEnergyMatchesGoal | src/contexts/NutritionContext.tsx:187-192 | with shares summing to 100 %, the energy of the gram targets is within 8.5 kcal of the calorie goal |
| NutritionContext.DefaultTargets | src/contexts/NutritionContext.tsx:64-69 | the default goals give targets of 2000 kcal, 150 g, 200 g and 67 g |
| NutritionContext.AddThenRemoveRestoresProgress | src/contexts/NutritionContext.tsx:172-197 | adding an entry with a fresh id and removing it again leaves the daily progress unchanged |
| NutritionContext.NutritionStore.constructor | src/contexts/NutritionContext.tsx:45-69 | the seeded catalog, today's date, five empty meals and the default goals |
| NutritionContext.NutritionStore.SetCurrentDate | src/contexts/NutritionContext.tsx:72-81 | a changed date empties all five meals; nothing else changes |
| NutritionContext.NutritionStore.AddCustomFood | src/contexts/NutritionContext.tsx:100-107 | exactly one custom food with id `custom_<now>` is appended; nothing else changes |
| NutritionContext.NutritionStore.ToggleFavorite | src/contexts/NutritionContext.tsx:109-113 | the catalog becomes its toggled version; nothing else changes |
| NutritionContext.NutritionStore.AddFoodEntry | src/contexts/NutritionContext.tsx:115-133 | an entry with the current date is appended to its meal; nothing else changes |
| NutritionContext.NutritionStore.RemoveFoodEntry | src/contexts/NutritionContext.tsx:135-144 | the loop over the meal keys yields `RemoveEntry`; nothing else changes |
| NutritionContext.NutritionStore.UpdateFoodEntry | src/contexts/NutritionContext.tsx:146-157 | the loop over the meal keys yields `UpdateEntry`; nothing else changes |
| NutritionContext.NutritionStore.UpdateNutritionGoals | src/contexts/NutritionContext.tsx:199-201 | the goals are replaced; nothing else changes |
| NutritionContext.NutritionStore.GetDailyProgress | src/contexts/NutritionContext.tsx:172-197 | the accumulating loop yields the summed contributions of every entry, the gram targets, and the calorie percentage with JavaScript's NaN and infinities for a zero goal |
| NutritionSettings.FindMultiplier | src/components/NutritionSettingsScreen.tsx:112 | the multiplier of a level with that id; nothing exactly when no level has it |
| NutritionSettings.FindAdjustment | src/components/NutritionSettingsScreen.tsx:113 | the adjustment of a goal with that id; nothing exactly when no goal has it |
| NutritionSettings.ActivityMultipliers | src/components/NutritionSettingsScreen.tsx:22-53 | the five activity levels look up the multipliers 1.2, 1.375, 1.55, 1.725 and 1.9 |
| NutritionSettings.GoalAdjustments | src/components/NutritionSettingsScreen.tsx:55-74 | the three goals look up the adjustments -0.2, 0 and +0.15 |
| NutritionSettings.BmrSensitivity | src/components/NutritionSettingsScreen.tsx:104-110 | the Mifflin–St Jeor coefficients: +10 per kg, +6.25 per cm, -5 per year, male 166 kcal above female |
| NutritionSettings.Recommend | src/components/NutritionSettingsScreen.tsx:94-118 | a missing field exactly when one of weight, height or age is NaN; an unknown option exactly when the fields parse but the activity or goal id is unknown |
| NutritionSettings.RecommendExample | src/components/NutritionSettingsScreen.tsx:94-118 | 70 kg, 175 cm, 30 years, male, moderate, maintain gives 2556 kcal |
| NutritionSettings.GoalOrdering | src/components/NutritionSettingsScreen.tsx:116-117 | for a positive BMR a goal with a larger adjustment never recommends fewer calories |
| NutritionSettings.AdjustmentMonotone | src/components/NutritionSettingsScreen.tsx:116-117 | the rounded target is monotone in the adjustment |
| NutritionSettings.MultiplierPositive | src/components/NutritionSettingsScreen.tsx:22-53 | every activity multiplier is positive |
| NutritionSettings.ValidateGoals | src/components/NutritionSettingsScreen.tsx:132-170 | each error exactly when its check is the first to fail, in the order calories, protein, carbs, fat, share sum; success carries the parsed values, all within their ranges |
| NutritionSettings.DefaultGoalsValid | src/components/NutritionSettingsScreen.tsx:138-170 | the default goals pass validation unchanged |
| NutritionSettings.AcceptedGoalsTargetEnergy | src/components/NutritionSettingsScreen.tsx:158-170 | accepted goals give gram targets whose energy is within 58.5 kcal of the calorie goal |
| NutritionSettings.PreviewMatchesTargets | src/components/NutritionSettingsScreen.tsx:179-186 | for accepted goals the gram preview equals the engine's gram targets |
| NutritionSettings.PreviewWithoutCalories | src/components/NutritionSettingsScreen.tsx:180 | unparseable calories count as 0, so every preview is 0 g |
| NutritionSettings.SettingsForm.constructor | src/components/NutritionSettingsScreen.tsx:80-92 | the goal fields from the current goals; the calculator empty, male, moderate, maintain, hidden |
| NutritionSettings.SettingsForm.CalculateBmr | src/components/NutritionSettingsScreen.tsx:94-130 | the outcome is `Recommend` on the parsed fields; only a target writes the calorie field and closes the calculator |
| NutritionSettings.SettingsForm.ValidateAndSave | src/components/NutritionSettingsScreen.tsx:132-177 | the goals become the parsed values exactly when validation passes; otherwise they and the rest of the store are unchanged |
| NutritionSettings.CalculatedTargetReadsBack | src/components/NutritionSettingsScreen.tsx:120 | a calculated target written as text parses back to the same number |
| NutritionMain.SectionOrder | src/components/NutritionMainScreen.tsx:22-28 | the meal slots in `MEAL_NAMES` key order |
| NutritionMain.SectionsAreAllMeals | src/components/NutritionMainScreen.tsx:273 | the screen renders exactly the five meal slots, in the ledger's order |
| NutritionMain.CalculateMacrosIsContribution | src/components/NutritionMainScreen.tsx:160 | `calculateMacros` for an entry is what the entry adds to the daily totals |
| NutritionMain.MealCaloriesIsConsumed | src/components/NutritionMainScreen.tsx:159-162 | a meal's calorie total is the consumed calories over its entries |
| NutritionMain.SumOfMealsIsConsumed | src/components/NutritionMainScreen.tsx:159-162 | the meal totals over a list of slots add up to the consumed calories of those meals |
| NutritionMain.MealTotalsMatchDailyProgress | src/components/NutritionMainScreen.tsx:156-162 | the five meal totals add up to `getDailyProgress().consumed.calories` |
| NutritionMain.RenderedEntries | src/components/NutritionMainScreen.tsx:104-106 | exactly the entries whose food is in the catalog, in order |
| NutritionMain.HiddenEntriesAddNothing | src/components/NutritionMainScreen.tsx:104-106 | the entries that are not drawn do not change the meal total |
| NutritionMain.MacroBarPercent | src/components/NutritionMainScreen.tsx:75-77 | at most 100; 0 without a positive target; exactly 100 when the target is reached; otherwise the exact share |
| NutritionMain.DivisionBelowOne | src/components/NutritionMainScreen.tsx:76 | the share reaches 100 exactly when current reaches the target |
| NutritionMain.ProgressColorOf | src/components/NutritionMainScreen.tsx:202-206 | error below 80 or at -Infinity, orange above 120 or at Infinity, success from 80 to 120 or at NaN; the three are disjoint and exhaustive |
| NutritionMain.ZeroGoalColor | src/components/NutritionMainScreen.tsx:54 | with a zero calorie goal the colour is success with nothing eaten, orange with positive calories and error with negative ones |
| CreateFood.ValidateForm | src/components/CreateFoodScreen.tsx:63-95 | valid exactly when the name is not blank and the four amounts parse and are non-negative; each error exactly when its check is the first to fail |
| CreateFood.Accepted | src/components/CreateFoodScreen.tsx:100-106 | a kept row has a non-empty trimmed name and grams that parse to a positive number |
| CreateFood.ValidPortions | src/components/CreateFoodScreen.tsx:100-106 | exactly the accepted rows: every kept portion has a name and positive grams |
| CreateFood.ValidPortionsSingle | src/components/CreateFoodScreen.tsx:100-106 | one row gives its accepted portion, or nothing when it is not accepted |
| CreateFood.ValidPortionsAppend | src/components/CreateFoodScreen.tsx:100-106 | rows are kept in entry order, repeated rows included: the portions of two groups of rows are the first group's followed by the second's |
| CreateFood.BlankRowsIgnored | src/components/CreateFoodScreen.tsx:101 | rows left blank contribute nothing |
| CreateFood.Draft | src/components/CreateFoodScreen.tsx:108-119 | a trimmed name, the macros and category, not a favourite, and portions absent exactly when none survive |
| CreateFood.ParsedMacros | src/components/CreateFoodScreen.tsx:110-115 | the parsed amounts, each non-negative |
| CreateFood.SavedFoodWellFormed | src/components/CreateFoodScreen.tsx:97-119 | a food saved from a valid form has a non-blank trimmed name and non-negative macros |
| CreateFood.WithoutRow | src/components/CreateFoodScreen.tsx:53 | exactly the row at the index is removed, the others keep their order; an index naming no row changes nothing |
| CreateFood.CreateFoodForm.constructor | src/components/CreateFoodScreen.tsx:39-45 | empty fields, category "other" and one blank portion row |
| CreateFood.CreateFoodForm.AddPortion | src/components/CreateFoodScreen.tsx:47-49 | one blank row appended |
| CreateFood.CreateFoodForm.RemovePortion | src/components/CreateFoodScreen.tsx:51-55 | the list never drops below one row; otherwise the row at the index is removed |
| CreateFood.CreateFoodForm.UpdatePortion | src/components/CreateFoodScreen.tsx:57-61 | one field of one row is replaced, the rest unchanged |
| CreateFood.CreateFoodForm.Validate | src/components/CreateFoodScreen.tsx:63-95 | the guard chain yields `ValidateForm` on the parsed fields |
| CreateFood.CreateFoodForm.HandleSave | src/components/CreateFoodScreen.tsx:97-128 | a valid form appends exactly the drafted custom food; an invalid one changes nothing |
| NutritionTypes.EmptyMeals | src/contexts/NutritionContext.tsx:74-80 | all five meal slots are present and every one is empty |
| NutritionTypes.AllMealsListsEachOnce | src/types/nutrition.ts:32 | every meal slot appears in the slot list, and no slot appears twice |
| WorkoutTypes.CompletedCount | src/components/EditRoutineHistoryScreen.tsx:42 | at most the number of exercises; 0 exactly when none is completed; all exactly when every one is |
| WorkoutTypes.RoundedPercentage | src/components/EditRoutineHistoryScreen.tsx:43 | NaN exactly for 0 of 0, Infinity exactly for a positive count over 0, never -Infinity; otherwise the rounded share, between 0 and 100 for a count within the total, and 100 when they are equal |
| Durations.ElapsedTime | src/components/RoutineTrackingScreen.tsx:120-125 | digits, ':', two digits; the minutes read back as `ms / 60000`, the seconds as `ms % 60000 / 1000`, always below 60; five characters exactly below 100 minutes |
| Durations.ElapsedTimeFormat | src/components/EditRoutineHistoryScreen.tsx:35 | the clock text passes the `MM:SS` check exactly while the session is under 100 minutes |
| Durations.FormattedDurationSeconds | src/components/RoutineHistoryScreen.tsx:148-149 | a duration that passes the `MM:SS` check reads as minutes times 60 plus seconds |
| Durations.SplitDuration | src/components/RoutineHistoryScreen.tsx:148 | a well-formed duration splits at ':' into its minutes and seconds |
| Durations.ElapsedTimeSeconds | src/components/RoutineHistoryScreen.tsx:148-149 | the clock text reads back as the elapsed whole seconds |
| Durations.NoColonIsNaN | src/components/RoutineHistoryScreen.tsx:148-149 | a duration without ':' has no seconds part and reads as NaN |
| RoutineTracking.InitialStates | src/components/RoutineTrackingScreen.tsx:57-64 | one state per exercise, in order, not completed, no sets done |
| RoutineTracking.FindExercise | src/components/RoutineTrackingScreen.tsx:90 | the first exercise with the id; nothing exactly when no exercise has it |
| RoutineTracking.SetsOf | src/components/RoutineTrackingScreen.tsx:82 | the planned sets of the first exercise with the id, 0 when there is none |
| RoutineTracking.Toggled | src/components/RoutineTrackingScreen.tsx:75-87 | `completed` flips; completing fills every set, un-completing clears them; the counter stays within the sets |
| RoutineTracking.Incremented | src/components/RoutineTrackingScreen.tsx:89-104 | the counter becomes `min(old + 1, sets)`, completed exactly when `old + 1 >= sets`, and the range invariant is kept |
| RoutineTracking.Decremented | src/components/RoutineTrackingScreen.tsx:106-118 | the counter becomes `max(old - 1, 0)`, not completed, and the range invariant is kept for every set count |
| RoutineTracking.DecrementUndoesIncrement | src/components/RoutineTrackingScreen.tsx:89-118 | taking back a set just added restores an unfinished exercise |
| RoutineTracking.IncrementedTimes | src/components/RoutineTrackingScreen.tsx:89-104 | repeated presses keep the range invariant |
| RoutineTracking.IncrementsReachToggle | src/components/RoutineTrackingScreen.tsx:75-104 | counting a fresh exercise up `sets` times ends where ticking it off does |
| RoutineTracking.CountUp | src/components/RoutineTrackingScreen.tsx:89-104 | after `n <= sets` presses the counter is `n`, completed exactly at `sets` |
| RoutineTracking.CompletedExercisesCount | src/components/RoutineTrackingScreen.tsx:127-129 | at most the number of states; 0 exactly when none is completed; all exactly when every one is |
| RoutineTracking.ProgressPercentage | src/components/RoutineTrackingScreen.tsx:131-134 | 0 for an empty routine; otherwise the rounded share of completed exercises, within 0 to 100, and 100 when all are done |
| RoutineTracking.FinishPromptOf | src/components/RoutineTrackingScreen.tsx:136-182 | nothing done exactly at 0 completed, partly done exactly below the total, all done otherwise |
| RoutineTracking.RoutineTracker.constructor | src/components/RoutineTrackingScreen.tsx:56-64 | the initial states of the routine's exercises |
| RoutineTracking.RoutineTracker.ToggleExerciseComplete | src/components/RoutineTrackingScreen.tsx:75-87 | the matching states are toggled with the exercise's planned sets, and every counter stays within its sets |
| RoutineTracking.RoutineTracker.IncrementSet | src/components/RoutineTrackingScreen.tsx:89-104 | an id not in the routine changes nothing; otherwise the matching states are incremented, keeping the invariant |
| RoutineTracking.RoutineTracker.DecrementSet | src/components/RoutineTrackingScreen.tsx:106-118 | the matching states are decremented, keeping the invariant |
| RoutineTracking.RoutineTracker.HandleFinish | src/components/RoutineTrackingScreen.tsx:136-182 | the prompt follows the completed count; on all done every reported exercise has all its sets; the states and the clock text are reported |
| RoutineTracking.RoutineTracker.HandleGoBack | src/components/RoutineTrackingScreen.tsx:184-197 | confirmation is asked exactly when some exercise is completed |
| EditRoutineHistory.ToggledExercise | src/components/EditRoutineHistoryScreen.tsx:54-67 | only progress changes: `completed` flips, completing fills all sets, un-completing clears them |
| EditRoutineHistory.WithSets | src/components/EditRoutineHistoryScreen.tsx:69-82 | the count is clamped to [0, totalSets]; completed exactly when the unclamped request equals totalSets |
| EditRoutineHistory.WithSetsInRange | src/components/EditRoutineHistoryScreen.tsx:77-78 | within range, completed exactly when every set is done |
| EditRoutineHistory.PlusThenMinus | src/components/EditRoutineHistoryScreen.tsx:69-82 | the plus button followed by the minus button restores an unfinished exercise |
| EditRoutineHistory.Recomputed | src/components/EditRoutineHistoryScreen.tsx:41-49 | the completed count and rounded percentage are recomputed; every other field is copied |
| EditRoutineHistory.RecomputedIdempotent | src/components/EditRoutineHistoryScreen.tsx:41-49 | saving twice stores the same record |
| EditRoutineHistory.RecomputedFigures | src/components/EditRoutineHistoryScreen.tsx:41-49 | with the total equal to the number of exercises, the percentage is between 0 and 100, and 100 when all are ticked off |
| EditRoutineHistory.RecomputedWithoutTotal | src/components/EditRoutineHistoryScreen.tsx:43 | a zero total gives no number: NaN exactly when nothing is ticked off |
| EditRoutineHistory.HistoryEditor.constructor | src/components/EditRoutineHistoryScreen.tsx:28-30 | the edited copy and the temporary duration start from the record; the dialog is closed |
| EditRoutineHistory.HistoryEditor.HandleSave | src/components/EditRoutineHistoryScreen.tsx:32-52 | nothing is saved exactly when the duration fails `MM:SS`; otherwise the recomputed record is saved |
| EditRoutineHistory.HistoryEditor.ToggleExerciseCompletion | src/components/EditRoutineHistoryScreen.tsx:54-67 | the matching exercises are toggled; only progress and a well-formed duration ever differ from the original |
| EditRoutineHistory.HistoryEditor.UpdateExerciseSets | src/components/EditRoutineHistoryScreen.tsx:69-82 | the matching exercises get the clamped count, keeping the same invariant |
| EditRoutineHistory.HistoryEditor.HandleDurationSave | src/components/EditRoutineHistoryScreen.tsx:84-93 | a well-formed text replaces the duration and closes the dialog; anything else changes nothing |
| EditRoutineHistory.HistoryEditor.CancelDurationEdit | src/components/EditRoutineHistoryScreen.tsx:274-277 | the temporary text goes back to the stored duration and the dialog closes |
| RoutineHistoryList.CompletionIconOf | src/components/RoutineHistoryScreen.tsx:49-59 | done exactly at 100, mostly done from 75 (and at Infinity), half done from 50 to 75, not done below 50 or at NaN or -Infinity |
| RoutineHistoryList.NearlyCompleteShowsAsDone | src/components/RoutineHistoryScreen.tsx:50 | 199 of 200 rounds to 100 and shows the done icon |
| RoutineHistoryList.TotalSeconds | src/components/RoutineHistoryScreen.tsx:147-150 | a number exactly when every duration reads as one |
| RoutineHistoryList.FormattedTotal | src/components/RoutineHistoryScreen.tsx:147-150 | durations that passed the `MM:SS` check add up to a non-negative total |
| RoutineHistoryList.StatsOf | src/components/RoutineHistoryScreen.tsx:142-153 | absent exactly for an empty history; otherwise the session count; the number of sessions at exactly 100, which is 0 exactly when none is and the count exactly when all are; the completion rate `Math.round(completed / count * 100)`, within 0 to 100; and the rounded mean minutes exactly when every duration reads |
| RoutineHistoryList.SortNewestFirst | src/components/RoutineHistoryScreen.tsx:207-209 | the array is sorted newest first and is a permutation of what it was |
| RoutineHistoryDetail.OverallStatsOf | src/components/RoutineHistoryDetailScreen.tsx:119-125 | the completed count is the number of completed exercises; the planned and completed sets are the sums over every exercise; when each count stays within its sets, the completed sets lie between 0 and the planned sets |
| RoutineHistoryDetail.SumsAppend | src/components/RoutineHistoryDetailScreen.tsx:121-122 | both set sums add up over consecutive parts of a session |
| RoutineHistoryDetail.SumsSingle | src/components/RoutineHistoryDetailScreen.tsx:121-122 | one exercise contributes its own planned and completed sets |
| RoutineHistoryDetail.SetsBounded | src/components/RoutineHistoryDetailScreen.tsx:121-122 | per-exercise counts within their sets give totals within the planned total |
| RoutineHistoryDetail.AllSetsDone | src/components/RoutineHistoryDetailScreen.tsx:121-122 | when every exercise has all its sets done, the two totals are equal |
| RoutineHistoryDetail.ExerciseIconOf | src/components/RoutineHistoryDetailScreen.tsx:44-48 | the check icon exactly for a completed exercise |
| RoutineHistoryDetail.AnalysisOf | src/components/RoutineHistoryDetailScreen.tsx:206-218 | the card exactly below 100 (and at -Infinity), easing off exactly below 50 |
| RoutineHistoryDetail.FullSessionHasNoAnalysis | src/components/RoutineHistoryDetailScreen.tsx:206 | after saving an edit with every exercise ticked off, no card is shown |
| Sorting.SortByKey | src/components/RoutineHistoryScreen.tsx:207-209 | the array ends sorted by the key and is a permutation of what it was |
| Routines.FilteredRoutines | src/components/RoutinesScreen.tsx:85-97 | all routines for an empty query; otherwise exactly those whose name or description contains it ignoring case, in saved order |
| Routines.PickerExercises | src/components/RoutinesScreen.tsx:99-107 | the whole catalog for 'All'; otherwise exactly the exercises of that muscle group, in order |
| Routines.WithExercise | src/components/RoutinesScreen.tsx:143-159 | an already selected id leaves the selection unchanged; otherwise 3 sets of 10-12, no weight and 60 s rest are appended; ids stay distinct |
| Routines.WithoutExercise | src/components/RoutinesScreen.tsx:161-163 | exactly the selected exercises with another id, in order, each kept as often as it occurred; ids stay distinct |
| Routines.DistinctAfterFilter | src/components/RoutinesScreen.tsx:162 | filtering a selection with distinct ids keeps them distinct |
| Routines.AddThenRemoveExercise | src/components/RoutinesScreen.tsx:143-163 | picking an exercise not yet selected and removing it again restores the selection |
| Routines.MuscleGroupOf | src/components/RoutinesScreen.tsx:123-124 | never empty; 'Other' for an id not in the catalog |
| Routines.GroupsOf | src/components/RoutinesScreen.tsx:122-125 | one group per selected exercise, in order |
| Routines.NewRoutine | src/components/RoutinesScreen.tsx:119-132 | trimmed name, the default description when blank, exactly the selected exercises' groups with no repeats, 45 min, Intermediate, never performed, inactive, today's date |
| Routines.WithoutRoutine | src/components/RoutinesScreen.tsx:165-178 | exactly the routines with another id, in order, each kept as often as it occurred |
| Routines.DeleteUnknownRoutine | src/components/RoutinesScreen.tsx:174 | deleting an id no routine has changes nothing |
| Routines.ToggledActive | src/components/RoutinesScreen.tsx:180-186 | only `isActive` changes, and it flips exactly on the routines with the id |
| Routines.ToggleActiveTwice | src/components/RoutinesScreen.tsx:180-186 | toggling the same routine twice restores the list |
| Routines.RoutineBuilder.constructor | src/components/RoutinesScreen.tsx:73-83 | the saved routines, the catalog and an empty form |
| Routines.RoutineBuilder.CreateRoutine | src/components/RoutinesScreen.tsx:109-140 | a blank name, then an empty selection, is refused and nothing changes; otherwise exactly the new routine is appended and the form is cleared |
| Routines.RoutineBuilder.AddExerciseToRoutine | src/components/RoutinesScreen.tsx:143-159 | the selection becomes `WithExercise`, never holding an id twice |
| Routines.RoutineBuilder.RemoveExerciseFromRoutine | src/components/RoutinesScreen.tsx:161-163 | the selection becomes `WithoutExercise`, never holding an id twice |
| Routines.RoutineBuilder.DeleteRoutine | src/components/RoutinesScreen.tsx:165-178 | the list becomes `WithoutRoutine` |
| Routines.RoutineBuilder.ToggleRoutineActive | src/components/RoutinesScreen.tsx:180-186 | the list becomes `ToggledActive` |
| ExercisesList.DifficultyColor | src/components/ExercisesListScreen.tsx:32-43 | green, amber and red exactly for Beginner, Intermediate and Advanced; the secondary text colour exactly for anything else |
| ExercisesList.ByGroup | src/components/ExercisesListScreen.tsx:56-60 | no filter for 'All'; otherwise exactly the exercises of the group, in order |
| ExercisesList.ByQuery | src/components/ExercisesListScreen.tsx:63-69 | no filter for an empty query; otherwise exactly those whose name, description or group contains it ignoring case |
| ExercisesList.FilteredExercises | src/components/ExercisesListScreen.tsx:52-72 | exactly the catalog exercises passing both filters, in catalog order |
| ExercisesList.NoFilterListsAll | src/components/ExercisesListScreen.tsx:52-72 | 'All' with an empty query lists the whole catalog |
| ExercisesList.GroupChipIsExact | src/components/ExercisesListScreen.tsx:56-60 | a group chip never lists an exercise of another group |
| Progress.WeightCheckAsWritten | src/components/ProgressScreen.tsx:54-64 | invalid exactly for empty text or text `Number` cannot read; an accepted number lies in [20, 300]; what is accepted is `parseFloat`'s reading, which may be NaN |
| Progress.BlankWeightAccepted | src/components/ProgressScreen.tsx:54-64 | non-empty text of spaces passes both guards with a NaN weight |
| Progress.SpaceWeightAccepted | src/components/ProgressScreen.tsx:54-64 | the single space is accepted with a NaN weight |
| Progress.WeightCheck | src/components/ProgressScreen.tsx:54-64 | accepted exactly when the text reads as a number in [20, 300]; invalid exactly when either parser cannot read it; out of range otherwise |
| Progress.CorrectionRefusesOnlyNaN | src/components/ProgressScreen.tsx:54-64 | the corrected check differs from the written one only by refusing the NaN weight; blank text is always refused |
| Progress.DateString | src/components/ProgressScreen.tsx:66-69 | `YYYY-MM-DD` with the year's digits and the month and day padded to two digits |
| Progress.DateKeyOf | src/components/ProgressScreen.tsx:78-80 | the date string of a day reads back as its day number |
| Progress.DateKeyChronological | src/components/ProgressScreen.tsx:78-80 | the order on date strings is the calendar order, and equal keys mean the same day |
| Progress.SplitDate | src/components/ProgressScreen.tsx:135 | a date string splits at '-' into year, month and day |
| Progress.LabelOfDate | src/components/ProgressScreen.tsx:133-139 | the chart label of a day is its padded day, '/', its padded month |
| Progress.ChartOf | src/components/ProgressScreen.tsx:115-146 | a single 'Sin datos' point at 0 for an empty log; otherwise one `DD/MM` label and one weight per entry |
| Progress.ChartInDateOrder | src/components/ProgressScreen.tsx:128-139 | the chart of a log sorted by date runs left to right in date order |
| Progress.DifferenceOf | src/components/ProgressScreen.tsx:148-164 | nothing below two entries; otherwise a non-negative value, positive exactly when the last weight exceeds the first, neutral exactly when they are equal |
| Progress.DifferenceLeadsToLast | src/components/ProgressScreen.tsx:155-163 | the first weight moved by the signed value gives the last weight |
| Progress.WithoutEntry | src/components/ProgressScreen.tsx:96 | exactly the entries with another id, in order, each kept as often as it occurred |
| Progress.WeightLog.constructor | src/components/ProgressScreen.tsx:41-51 | an empty log, a closed dialog, an empty weight field and today picked |
| Progress.WeightLog.AddWeightEntry | src/components/ProgressScreen.tsx:54-85 | the handler with the corrected check `WeightCheck` from "## Findings": a refused weight changes nothing; an accepted one stores exactly one more entry with the picked day's date string, the log ends sorted by date, and the form is reset. Whitespace-only text is refused here, where the source stores a NaN weight |
| Progress.WeightLog.DeleteEntry | src/components/ProgressScreen.tsx:87-100 | the log becomes `WithoutEntry`, still well-formed |
| Progress.WeightLog.SortNewestFirst | src/components/ProgressScreen.tsx:270-271 | the log is sorted newest day first and is a permutation of what it was |
| Progress.WeightLog.CurrentWeight | src/components/ProgressScreen.tsx:190-192 | nothing for an empty log; otherwise the weight of an entry with the latest day |
| Progress.WeightLog.SortedByDate | src/components/ProgressScreen.tsx:128-130 | a permutation of the log in date order |
| Progress.WeightLog.GetChartData | src/components/ProgressScreen.tsx:115-146 | the chart of the log sorted by date |
| Progress.WeightLog.GetWeightDifference | src/components/ProgressScreen.tsx:148-164 | the difference over the log sorted by date, running from an earliest entry to a latest one |
| EditProfile.InitialForm | src/components/EditProfileScreen.tsx:24-42 | the given props, each absent one replaced by its default |
| EditProfile.WeightFromText | src/components/EditProfileScreen.tsx:146-147 | the parsed weight, or 0 when the text does not parse |
| EditProfile.WithWeightText | src/components/EditProfileScreen.tsx:145-148 | only the weight changes, to the parsed text |
| EditProfile.HandleSave | src/components/EditProfileScreen.tsx:44-64 | a blank name, then a blank email, then a weight at most 0 is refused in that order; otherwise the form is saved unchanged |
| EditProfile.UnreadableWeightNeverSaved | src/components/EditProfileScreen.tsx:146-147 | a weight text that does not parse is never saved, and with name and email filled in the refusal is for the weight |
| EditProfile.SavedWeightIsPositive | src/components/EditProfileScreen.tsx:54-57 | after editing the weight, saving succeeds exactly when name and email are filled in and the text reads as a positive number |
| EditProfile.DefaultsSave | src/components/EditProfileScreen.tsx:26-28 | with the default email and weight, saving succeeds exactly when the name is filled in |
| JsNumber.Round | src/contexts/NutritionContext.tsx:165 | `Math.round`: the integer within half of the value, halves going up |
| JsNumber.RoundTenth | src/contexts/NutritionContext.tsx:166 | `Math.round(x * 10) / 10` is a whole number of tenths within 0.05 of the value |
| JsNumber.RoundTenthUnique | src/contexts/NutritionContext.tsx:166 | any whole number of tenths within 0.05 of the value is `Math.round(x * 10) / 10`, so the two facts above determine it |
| JsNumber.PercentOf | src/contexts/NutritionContext.tsx:194 | NaN exactly for 0 over 0, Infinity exactly for a positive part over 0, -Infinity exactly for a negative part over 0; otherwise the rounded percentage |
| JsNumber.RoundedShare | src/components/RoutineTrackingScreen.tsx:133 | a count within a positive total rounds to a percentage in [0, 100], and to 100 when they are equal |
| JsNumber.ParseFloatSkipsSpace | src/components/NutritionSettingsScreen.tsx:95-97 | `parseFloat` reads the literal at the start of the text after its leading white space |
| JsNumber.ToNumberTrims | src/components/ProgressScreen.tsx:55 | `Number` reads the trimmed text: 0 when empty, otherwise only a literal filling it |
| JsNumber.BlankParses | src/components/ProgressScreen.tsx:55-60 | on blank text `Number` reads 0 while `parseFloat` reads NaN |
| JsNumber.OrZero | src/components/NutritionSettingsScreen.tsx:180 | `x \|\| 0` on a parsed number: the number, or 0 for NaN |
| JsNumber.ParseFloatRejects | src/components/CreateFoodScreen.tsx:69-72 | text whose first non-space character cannot start a number reads as NaN |
| JsNumber.IntToStringParses | src/components/NutritionSettingsScreen.tsx:120 | `parseFloat(n.toString())` gives back the integer |
| Text.ToLower | src/contexts/NutritionContext.tsx:91-93 | same length, each character lower-cased |
| Text.PadStart2 | src/components/RoutineTrackingScreen.tsx:124 | `padStart(2, '0')`: unchanged from two characters on, otherwise zeros in front up to two |
| Text.TwoDigitsValue | src/components/ProgressScreen.tsx:67-68 | the padded digits of a number read back as that number |
| Text.NatToStringRoundTrip | src/components/ProgressScreen.tsx:66 | the decimal digits of a number read back as that number |
| Seqs.FilterMultiplicity | src/contexts/NutritionContext.tsx:135-144 | `filter` keeps every copy of an element that passes and no copy of one that does not |
| Seqs.MapWhere | src/components/RoutineTrackingScreen.tsx:76-86 | the `map` that updates matching items: same length, the hit items stepped, all others unchanged |
| Seqs.MapWhereMissing | src/components/RoutineTrackingScreen.tsx:106-118 | an update that matches no item, such as a button for an id no state has, leaves the list as it was |
| Seqs.DedupProperties | src/components/RoutinesScreen.tsx:122 | `[...new Set(xs)]` holds exactly the elements of `xs`, each once |

## Left out

- Rendering, styling, navigation, and every screen not listed above. Modal visibility flags are modelled only where a handler sets them.
- `useState` setters called directly from text inputs (`setName`, `setTempDuration`, `onDateChange`, …): each only replaces one field.
- Timers, `Date`, `Date.now()` and `Math.random`: the values they yield are method parameters.
- `Alert` dialogs: a handler that asks before acting returns the prompt it shows (`HandleFinish`, `HandleGoBack`), and a confirmed deletion (`DeleteRoutine`, `DeleteEntry`) is modelled as the action taken on confirmation; cancelling changes nothing.
- The JSON seed data of the food and exercise catalogs: the catalog is a parameter of the constructors.
- Persistence and asynchronous effects: the source keeps state in memory only.
- JavaScript numbers: exponent (`1e3`), hexadecimal, `Infinity` literals and IEEE-754 rounding drift are not modelled. Numbers are exact reals, and `parseFloat`/`Number` accept the decimal grammar sign, digits, `.`, digits.
- Text.ToLower: lower-cases ASCII and Latin-1 capitals only, not the whole of Unicode's case mapping.
- Progress.DateKeyOf: the `new Date(date).getTime()` order is modelled through a day number read from `YYYY-MM-DD` text for years 1000–9999. Other text has key 0, and time zones are not modelled.
- Progress.WeightLog.AddWeightEntry: uses the corrected `WeightCheck` listed under "## Findings", so whitespace-only text is refused where the source stores an entry with a NaN weight. The weight bound of 20 to 300 kg that `Progress.WeightLog.Valid` keeps for every entry holds for this corrected handler only. The source as written is modelled by `Progress.WeightCheckAsWritten`.
- Progress.WeightLog.AddWeightEntry: the displayed date text (`toLocaleDateString`) is a parameter, because it depends on the device locale.
- RoutineHistoryList.SortNewestFirst: `completedAt` is an integer of epoch milliseconds instead of an ISO string read through `new Date`.
- Sorting.SortByKey: states sortedness and permutation but not stability, which JavaScript's `Array.prototype.sort` guarantees.
- Seqs.DedupProperties: states the elements and their distinctness but not that `new Set` keeps first-occurrence order.
- CreateFood.CreateFoodForm.UpdatePortion: requires an index of an existing row. The source only ever calls it from a rendered row, and on another index JavaScript would write through `undefined`.
- The planned `sets` of a routine exercise is a natural number: the routine builder always creates 3 sets and nothing edits them.
- NutritionMain.ProgressColorOf: the negative-zero percentage (a negative intake over a positive goal that rounds to `-0`) is the same as 0.
- RoutinesScreen's own copy of `getDifficultyColor` is the same table as `ExercisesList.DifficultyColor` and is not modelled twice.

## Findings

| source | as written | input that shows it | evidently intended | confidence | as-written member | corrected member |
|---|---|---|---|---|---|---|
| src/components/ProgressScreen.tsx:54-64 | the guard `!newWeight \|\| isNaN(Number(newWeight))` lets whitespace-only text through, because `Number(" ")` is 0. `parseFloat(" ")` is then NaN, and NaN fails both range comparisons, so a NaN weight is stored | `newWeight = " "` | refuse any text whose parsed weight is not a number, like other unreadable text | not executed | Progress.SpaceWeightAccepted | Progress.CorrectionRefusesOnlyNaN |
