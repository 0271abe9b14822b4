/** Editing a finished session: ticking exercises on and off, adjusting their set counts, changing
    the duration, and saving with the counts recomputed. */
module EditRoutineHistory {
  import opened Wrappers
  import opened JsNumber
  import opened Durations
  import opened Seqs
  import opened WorkoutTypes

  /** The exercises an edit addresses: those whose id is `id`. */
  function HasId(id: string): CompletedExercise -> bool
  {
    (e: CompletedExercise) => e.id == id
  }

  /** An edit only touches the progress of an exercise: `completed` and `completedSets`. */
  predicate SameExercise(e: CompletedExercise, o: CompletedExercise)
  {
    e == o.(completed := e.completed, completedSets := e.completedSets)
  }

  /** The progress of an exercise stays within its sets. */
  predicate SetsInRange(e: CompletedExercise)
  {
    0 <= e.completedSets <= e.totalSets
  }

  /** `toggleExerciseCompletion` on one exercise. */
  function ToggledExercise(e: CompletedExercise): (r: CompletedExercise)
    ensures SameExercise(r, e) && r.completed == !e.completed
    ensures r.completed ==> r.completedSets == e.totalSets
    ensures !r.completed ==> r.completedSets == 0
    ensures e.totalSets >= 0 ==> SetsInRange(r)
  {
    e.(completed := !e.completed, completedSets := if !e.completed then e.totalSets else 0)
  }

  /** `updateExerciseSets(id, requested)` on one exercise: the count is clamped to [0, totalSets];
      the exercise is completed exactly when the request named the total. */
  function WithSets(e: CompletedExercise, requested: int): (r: CompletedExercise)
    ensures SameExercise(r, e)
    ensures e.totalSets >= 0 ==> SetsInRange(r)
    ensures 0 <= requested <= e.totalSets ==> r.completedSets == requested
    ensures requested < 0 ==> r.completedSets == 0
    ensures requested > e.totalSets >= 0 ==> r.completedSets == e.totalSets
    ensures r.completed <==> requested == e.totalSets
  {
    e.(completedSets := if requested < 0 then 0 else if requested > e.totalSets then Max(e.totalSets, 0) else requested,
       completed := requested == e.totalSets)
  }

  function Max(a: int, b: int): int
  {
    if a >= b then a else b
  }

  /** Within range, an exercise is completed exactly when all its sets are done. */
  lemma WithSetsInRange(e: CompletedExercise, requested: int)
    requires 0 <= requested <= e.totalSets
    ensures WithSets(e, requested).completed <==> WithSets(e, requested).completedSets == e.totalSets
  {
  }

  /** The minus button after the plus button gives back an unfinished exercise. */
  lemma PlusThenMinus(e: CompletedExercise)
    requires 0 <= e.completedSets < e.totalSets && !e.completed
    ensures WithSets(WithSets(e, e.completedSets + 1), e.completedSets) == e
  {
  }

  /** The saved record: `completedExercises` and `completionPercentage` recomputed, the rest copied. */
  function Recomputed(h: RoutineHistory): (r: RoutineHistory)
    ensures r.(completedExercises := h.completedExercises, completionPercentage := h.completionPercentage) == h
    ensures r.completedExercises == CompletedCount(h.exercises)
    ensures r.completionPercentage == RoundedPercentage(CompletedCount(h.exercises), h.totalExercises)
  {
    var done := CompletedCount(h.exercises);
    h.(completedExercises := done, completionPercentage := RoundedPercentage(done, h.totalExercises))
  }

  /** Saving twice in a row stores the same record. */
  lemma RecomputedIdempotent(h: RoutineHistory)
    ensures Recomputed(Recomputed(h)) == Recomputed(h)
  {
  }

  /** When the total is the number of exercises, the recomputed figures are consistent: the
      percentage lies in [0, 100], and it is 100 when every exercise is ticked off. */
  lemma RecomputedFigures(h: RoutineHistory)
    requires h.totalExercises == |h.exercises| > 0
    ensures var r := Recomputed(h);
            r.completionPercentage.Pct? && 0 <= r.completionPercentage.value <= 100
            && 0 <= r.completedExercises <= r.totalExercises
            && ((forall i :: 0 <= i < |h.exercises| ==> h.exercises[i].completed) ==> r.completionPercentage == Pct(100))
  {
  }

  /** A total of zero gives no number: NaN with nothing ticked off, Infinity otherwise. */
  lemma RecomputedWithoutTotal(h: RoutineHistory)
    requires h.totalExercises == 0
    ensures Recomputed(h).completionPercentage.Pct? == false
    ensures Recomputed(h).completionPercentage == NotANumber <==> forall i :: 0 <= i < |h.exercises| ==> !h.exercises[i].completed
  {
  }

  /** The edit screen's state. */
  class HistoryEditor {
    const original: RoutineHistory
    var editedHistory: RoutineHistory
    var tempDuration: string
    var showTimeModal: bool

    /** Only exercise progress and the duration ever change, and a changed duration is well-formed. */
    ghost predicate Valid()
      reads this
    {
      editedHistory == original.(exercises := editedHistory.exercises, duration := editedHistory.duration)
      && |editedHistory.exercises| == |original.exercises|
      && (forall i :: 0 <= i < |editedHistory.exercises| ==> SameExercise(editedHistory.exercises[i], original.exercises[i]))
      && (editedHistory.duration == original.duration || IsDurationFormat(editedHistory.duration))
    }

    /** The edit screen opened on `h`. */
    constructor (h: RoutineHistory)
      ensures Valid()
      ensures original == h && editedHistory == h && tempDuration == h.duration && !showTimeModal
    {
      original, editedHistory := h, h;
      tempDuration, showTimeModal := h.duration, false;
    }

    /** `handleSave`: nothing is saved unless the duration is well-formed; otherwise the record
        with recomputed figures is handed on. */
    method HandleSave() returns (saved: Option<RoutineHistory>)
      ensures saved.None? <==> !IsDurationFormat(editedHistory.duration)
      ensures saved.Some? ==> saved.value == Recomputed(editedHistory)
    {
      if !IsDurationFormat(editedHistory.duration) {
        return None;
      }
      var done := CompletedCount(editedHistory.exercises);
      saved := Some(editedHistory.(completedExercises := done,
                                   completionPercentage := RoundedPercentage(done, editedHistory.totalExercises)));
    }

    /** `toggleExerciseCompletion`. */
    method ToggleExerciseCompletion(exerciseId: string)
      requires Valid()
      modifies this`editedHistory
      ensures Valid()
      ensures editedHistory == old(editedHistory).(exercises := MapWhere(old(editedHistory).exercises, HasId(exerciseId), ToggledExercise))
    {
      editedHistory := editedHistory.(exercises := MapWhere(editedHistory.exercises, HasId(exerciseId), ToggledExercise));
    }

    /** `updateExerciseSets`. */
    method UpdateExerciseSets(exerciseId: string, completedSets: int)
      requires Valid()
      modifies this`editedHistory
      ensures Valid()
      ensures editedHistory == old(editedHistory).(exercises := MapWhere(old(editedHistory).exercises, HasId(exerciseId),
                                                                         e => WithSets(e, completedSets)))
    {
      editedHistory := editedHistory.(exercises := MapWhere(editedHistory.exercises, HasId(exerciseId),
                                                             e => WithSets(e, completedSets)));
    }

    /** `handleDurationSave`: a well-formed text replaces the duration and closes the dialog;
        anything else changes nothing. */
    method HandleDurationSave()
      requires Valid()
      modifies this`editedHistory, this`showTimeModal
      ensures Valid()
      ensures IsDurationFormat(tempDuration) ==> editedHistory == old(editedHistory).(duration := tempDuration) && !showTimeModal
      ensures !IsDurationFormat(tempDuration) ==> editedHistory == old(editedHistory) && showTimeModal == old(showTimeModal)
    {
      if !IsDurationFormat(tempDuration) {
        return;
      }
      editedHistory := editedHistory.(duration := tempDuration);
      showTimeModal := false;
    }

    /** The dialog's cancel button: the text goes back to the stored duration. */
    method CancelDurationEdit()
      requires Valid()
      modifies this`tempDuration, this`showTimeModal
      ensures Valid()
      ensures tempDuration == editedHistory.duration && !showTimeModal
    {
      tempDuration := editedHistory.duration;
      showTimeModal := false;
    }
  }
}
