/** The workout history records shared by the tracking, history and edit screens, and the
    completion percentage they all compute. */
module WorkoutTypes {
  import opened Wrappers
  import opened Seqs
  import opened JsNumber

  /** An exercise as a routine plans it. */
  datatype RoutineExercise = RoutineExercise(
    id: string,
    name: string,
    sets: nat,
    reps: string,
    weight: Option<string>,
    rest: string)

  /** One exercise of a finished session. */
  datatype CompletedExercise = CompletedExercise(
    id: string,
    name: string,
    completed: bool,
    completedSets: int,
    totalSets: int,
    reps: string,
    weight: Option<string>,
    rest: string)

  /** A finished session. `completedAt` is the instant of the ISO timestamp, in epoch milliseconds. */
  datatype RoutineHistory = RoutineHistory(
    id: string,
    routineId: string,
    routineName: string,
    routineDescription: string,
    completedAt: int,
    duration: string,
    completedExercises: int,
    totalExercises: int,
    exercises: seq<CompletedExercise>,
    completionPercentage: Percentage)

  /** The filter `ex => ex.completed`. */
  function IsDone(): CompletedExercise -> bool
  {
    (e: CompletedExercise) => e.completed
  }

  /** `exercises.filter(ex => ex.completed).length`. */
  function CompletedCount(exercises: seq<CompletedExercise>): (n: nat)
    ensures n <= |exercises|
    ensures n == 0 <==> forall i :: 0 <= i < |exercises| ==> !exercises[i].completed
    ensures n == |exercises| <==> forall i :: 0 <= i < |exercises| ==> exercises[i].completed
  {
    FilterCount(exercises, IsDone());
    |Filter(exercises, IsDone())|
  }

  /** The stored completion percentage `Math.round(count / total * 100)`: never -Infinity, since
      the count is never negative. */
  function RoundedPercentage(count: nat, total: int): (r: Percentage)
    ensures r == NotANumber <==> total == 0 && count == 0
    ensures r == Infinite <==> total == 0 && count > 0
    ensures r != NegativeInfinite
    ensures total != 0 ==> r == Pct(Percent(count as real, total as real).value)
    ensures 0 < total && count <= total ==> r.Pct? && 0 <= r.value <= 100
    ensures 0 < total && count == total ==> r == Pct(100)
  {
    if total == 0 then PercentOf(count as real, total as real)
    else
      RoundedShare(count, total);
      PercentOf(count as real, total as real)
  }
}
