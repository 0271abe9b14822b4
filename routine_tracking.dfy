/** The live workout screen: one tracking state per exercise of the routine, the set counters,
    the progress figures and the prompts on finishing or leaving. */
module RoutineTracking {
  import opened Wrappers
  import opened Seqs
  import opened JsNumber
  import opened Durations
  import opened WorkoutTypes

  datatype Routine = Routine(
    id: string,
    name: string,
    description: string,
    exercises: seq<RoutineExercise>,
    duration: string)

  /** How far the user got with one exercise. */
  datatype TrackingState = TrackingState(id: string, completed: bool, completedSets: int)

  /** The initial states: one per exercise, in the routine's order, nothing done yet. */
  function InitialStates(exercises: seq<RoutineExercise>): (r: seq<TrackingState>)
    ensures |r| == |exercises|
    ensures forall i :: 0 <= i < |r| ==> r[i] == TrackingState(exercises[i].id, false, 0)
  {
    seq(|exercises|, i requires 0 <= i < |exercises| => TrackingState(exercises[i].id, false, 0))
  }

  /** `routine.exercises.find(ex => ex.id === id)`, as the index of the first match. */
  function FindExercise(exercises: seq<RoutineExercise>, id: string): (r: Option<nat>)
    ensures r.None? <==> forall i :: 0 <= i < |exercises| ==> exercises[i].id != id
    ensures r.Some? ==> r.value < |exercises| && exercises[r.value].id == id
    ensures r.Some? ==> forall i :: 0 <= i < r.value ==> exercises[i].id != id
  {
    if exercises == [] then None
    else if exercises[0].id == id then Some(0)
    else match FindExercise(exercises[1..], id)
      case None => None
      case Some(k) => Some(k + 1)
  }

  /** `find(...)?.sets || 0`: the planned sets of the first exercise with that id, 0 if none. */
  function SetsOf(exercises: seq<RoutineExercise>, id: string): (n: nat)
    ensures FindExercise(exercises, id).None? ==> n == 0
    ensures FindExercise(exercises, id).Some? ==> n == exercises[FindExercise(exercises, id).value].sets
  {
    match FindExercise(exercises, id)
    case None => 0
    case Some(k) => exercises[k].sets
  }

  /** The tracking invariant: between 0 and `sets` sets done, and a completed exercise has all of them. */
  predicate WithinSets(st: TrackingState, sets: nat)
  {
    0 <= st.completedSets <= sets && (st.completed ==> st.completedSets == sets)
  }

  /** The toggle of one state: completing fills every set, un-completing clears them. */
  function Toggled(st: TrackingState, sets: nat): (r: TrackingState)
    ensures r.id == st.id && r.completed == !st.completed
    ensures WithinSets(r, sets)
    ensures !r.completed ==> r.completedSets == 0
  {
    st.(completed := !st.completed, completedSets := if !st.completed then sets else 0)
  }

  /** One more set done, never more than `sets`; the exercise counts as completed once the
      unclamped count reaches `sets`. */
  function Incremented(st: TrackingState, sets: nat): (r: TrackingState)
    ensures r.id == st.id
    ensures r.completedSets == Min(st.completedSets + 1, sets)
    ensures r.completed <==> st.completedSets + 1 >= sets
    ensures WithinSets(st, sets) ==> WithinSets(r, sets)
  {
    st.(completedSets := Min(st.completedSets + 1, sets), completed := st.completedSets + 1 >= sets)
  }

  /** One set fewer, never below 0; the exercise is no longer completed. */
  function Decremented(st: TrackingState): (r: TrackingState)
    ensures r.id == st.id && !r.completed
    ensures r.completedSets == Max(st.completedSets - 1, 0)
    ensures forall sets: nat :: WithinSets(st, sets) ==> WithinSets(r, sets)
  {
    st.(completedSets := Max(st.completedSets - 1, 0), completed := false)
  }

  function Min(a: int, b: int): int
  {
    if a <= b then a else b
  }

  function Max(a: int, b: int): int
  {
    if a >= b then a else b
  }

  /** Taking back a set that was just added restores a state that was not yet complete. */
  lemma DecrementUndoesIncrement(st: TrackingState, sets: nat)
    requires WithinSets(st, sets) && !st.completed && st.completedSets < sets
    ensures Decremented(Incremented(st, sets)) == st
  {
  }

  /** `n` presses of the add-set button. */
  function IncrementedTimes(st: TrackingState, sets: nat, n: nat): (r: TrackingState)
    ensures r.id == st.id
    ensures WithinSets(st, sets) ==> WithinSets(r, sets)
  {
    if n == 0 then st else Incremented(IncrementedTimes(st, sets, n - 1), sets)
  }

  /** Counting a fresh exercise up set by set ends where ticking it off does. */
  lemma {:induction false} IncrementsReachToggle(id: string, sets: nat)
    requires sets > 0
    ensures IncrementedTimes(TrackingState(id, false, 0), sets, sets) == Toggled(TrackingState(id, false, 0), sets)
  {
    CountUp(id, sets, sets);
  }

  lemma {:induction false} CountUp(id: string, sets: nat, n: nat)
    requires n <= sets
    ensures IncrementedTimes(TrackingState(id, false, 0), sets, n) == TrackingState(id, n > 0 && n == sets, n)
  {
    if n > 0 {
      CountUp(id, sets, n - 1);
    }
  }

  /** The states a button addresses: those whose id is `id`. */
  function StateOf(id: string): TrackingState -> bool
  {
    (st: TrackingState) => st.id == id
  }

  /** `exerciseStates.filter(state => state.completed).length`. */
  function CompletedExercisesCount(states: seq<TrackingState>): (n: nat)
    ensures n <= |states|
    ensures n == 0 <==> forall i :: 0 <= i < |states| ==> !states[i].completed
    ensures n == |states| <==> forall i :: 0 <= i < |states| ==> states[i].completed
  {
    FilterCount(states, IsCompleted());
    |Filter(states, IsCompleted())|
  }

  function IsCompleted(): TrackingState -> bool
  {
    (st: TrackingState) => st.completed
  }

  /** `getProgressPercentage()`: 0 for a routine without exercises, otherwise the rounded share of
      completed exercises. */
  function ProgressPercentage(states: seq<TrackingState>, total: nat): (r: int)
    ensures total == 0 ==> r == 0
    ensures total > 0 ==> Percent(CompletedExercisesCount(states) as real, total as real) == Some(r)
    ensures CompletedExercisesCount(states) <= total ==> 0 <= r <= 100
    ensures total > 0 && CompletedExercisesCount(states) == total ==> r == 100
  {
    var done := CompletedExercisesCount(states);
    if total == 0 then 0
    else
      RoundedShare(done, total);
      Round(done as real / total as real * 100.0)
  }

  /** The confirmation `handleFinishRoutine` shows before reporting the session. */
  datatype FinishPrompt = NothingCompleted | PartlyCompleted(completed: nat, total: nat) | AllCompleted

  function FinishPromptOf(completed: nat, total: nat): (r: FinishPrompt)
    ensures r == NothingCompleted <==> completed == 0
    ensures r.PartlyCompleted? <==> 0 < completed < total
    ensures r == AllCompleted <==> 0 < completed && total <= completed
    ensures r.PartlyCompleted? ==> r.completed == completed && r.total == total
  {
    if completed == 0 then NothingCompleted
    else if completed < total then PartlyCompleted(completed, total)
    else AllCompleted
  }

  /** The screen's state for one routine. */
  class RoutineTracker {
    const exercises: seq<RoutineExercise>
    var exerciseStates: seq<TrackingState>

    /** States line up with the routine's exercises and every counter stays within its sets. */
    ghost predicate Valid()
      reads this
    {
      |exerciseStates| == |exercises|
      && forall i :: 0 <= i < |exerciseStates| ==>
           exerciseStates[i].id == exercises[i].id
           && WithinSets(exerciseStates[i], SetsOf(exercises, exerciseStates[i].id))
    }

    /** The initialisation effect for `routine`. */
    constructor (routine: Routine)
      ensures Valid()
      ensures exercises == routine.exercises
      ensures exerciseStates == InitialStates(routine.exercises)
    {
      exercises := routine.exercises;
      exerciseStates := InitialStates(routine.exercises);
    }

    /** `toggleExerciseComplete`. */
    method ToggleExerciseComplete(exerciseId: string)
      requires Valid()
      modifies this`exerciseStates
      ensures Valid()
      ensures exerciseStates == MapWhere(old(exerciseStates), StateOf(exerciseId),
                                         st => Toggled(st, SetsOf(exercises, exerciseId)))
    {
      var sets := SetsOf(exercises, exerciseId);
      exerciseStates := MapWhere(exerciseStates, StateOf(exerciseId), st => Toggled(st, sets));
    }

    /** `incrementSet`: an id that is not in the routine changes nothing. */
    method IncrementSet(exerciseId: string)
      requires Valid()
      modifies this`exerciseStates
      ensures Valid()
      ensures FindExercise(exercises, exerciseId).None? ==> exerciseStates == old(exerciseStates)
      ensures FindExercise(exercises, exerciseId).Some? ==>
                exerciseStates == MapWhere(old(exerciseStates), StateOf(exerciseId),
                                           st => Incremented(st, SetsOf(exercises, exerciseId)))
    {
      var found := FindExercise(exercises, exerciseId);
      if found.None? {
        return;
      }
      var sets := exercises[found.value].sets;
      exerciseStates := MapWhere(exerciseStates, StateOf(exerciseId), st => Incremented(st, sets));
    }

    /** `decrementSet`. */
    method DecrementSet(exerciseId: string)
      requires Valid()
      modifies this`exerciseStates
      ensures Valid()
      ensures exerciseStates == MapWhere(old(exerciseStates), StateOf(exerciseId), Decremented)
    {
      exerciseStates := MapWhere(exerciseStates, StateOf(exerciseId), Decremented);
    }

    /** `handleFinishRoutine` after `elapsedMs` milliseconds: the prompt shown and, on confirming,
        what is reported. */
    method HandleFinish(elapsedMs: nat) returns (prompt: FinishPrompt, finished: seq<TrackingState>, time: string)
      requires Valid()
      ensures prompt == FinishPromptOf(CompletedExercisesCount(exerciseStates), |exercises|)
      ensures prompt == AllCompleted ==> forall i :: 0 <= i < |finished| ==>
                finished[i].completedSets == SetsOf(exercises, finished[i].id)
      ensures finished == exerciseStates && time == ElapsedTime(elapsedMs)
    {
      prompt := FinishPromptOf(CompletedExercisesCount(exerciseStates), |exercises|);
      finished, time := exerciseStates, ElapsedTime(elapsedMs);
    }

    /** `handleGoBack`: leaving asks for confirmation only when some exercise is completed. */
    method HandleGoBack() returns (needsConfirmation: bool)
      ensures needsConfirmation <==> exists i :: 0 <= i < |exerciseStates| && exerciseStates[i].completed
    {
      needsConfirmation := CompletedExercisesCount(exerciseStates) > 0;
    }
  }
}
