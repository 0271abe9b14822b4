/** The routines screen: searching the saved routines, building a new one from catalog exercises,
    deleting routines and switching them on and off. */
module Routines {
  import opened Wrappers
  import opened Seqs
  import opened Text
  import opened WorkoutTypes
  import opened ExercisesList

  /** A saved routine. */
  datatype Routine = Routine(
    id: string,
    name: string,
    description: string,
    muscleGroups: seq<string>,
    exercises: seq<RoutineExercise>,
    duration: string,
    difficulty: string,
    lastPerformed: Option<string>,
    isActive: bool,
    createdDate: string)

  // ---------------------------------------------------------------------------
  // Searching

  /** An empty query matches everything; any other, as typed, must occur in the name or the
      description, ignoring case. */
  predicate RoutineMatches(r: Routine, query: string)
  {
    query == [] || ContainsIgnoringCase(r.name, query) || ContainsIgnoringCase(r.description, query)
  }

  function HasText(query: string): Routine -> bool
  {
    (r: Routine) => ContainsIgnoringCase(r.name, query) || ContainsIgnoringCase(r.description, query)
  }

  /** `filteredRoutines`: the matching routines in their saved order. */
  function FilteredRoutines(routines: seq<Routine>, query: string): (r: seq<Routine>)
    ensures forall x :: x in r <==> x in routines && RoutineMatches(x, query)
    ensures IsSubsequence(r, routines)
    ensures query == [] ==> r == routines
  {
    if query != [] then
      FilterMembershipAll(routines, HasText(query));
      FilterIsSubsequence(routines, HasText(query));
      Filter(routines, HasText(query))
    else
      SubsequenceReflexive(routines);
      routines
  }

  /** The exercise picker's `filteredExercises`: the catalog, narrowed to one muscle group unless
      'All' is chosen. */
  function PickerExercises(catalog: seq<Exercise>, muscleFilter: string): (r: seq<Exercise>)
    ensures forall e :: e in r <==> e in catalog && (muscleFilter == AllGroups || e.muscleGroup == muscleFilter)
    ensures IsSubsequence(r, catalog)
    ensures muscleFilter == AllGroups ==> r == catalog
  {
    ByGroup(catalog, muscleFilter)
  }

  // ---------------------------------------------------------------------------
  // Building a routine

  /** No two selected exercises share an id. */
  predicate DistinctIds(selected: seq<RoutineExercise>)
  {
    forall i, j :: 0 <= i < j < |selected| ==> selected[i].id != selected[j].id
  }

  predicate IsSelected(selected: seq<RoutineExercise>, id: string)
  {
    exists i :: 0 <= i < |selected| && selected[i].id == id
  }

  /** The picked exercise with the default plan: 3 sets of 10-12, no weight, 60 s rest. */
  function DefaultPlan(e: Exercise): RoutineExercise
  {
    RoutineExercise(e.id, e.name, 3, "10-12", None, "60s")
  }

  /** `addExerciseToRoutine`: an exercise already selected is not added again. */
  function WithExercise(selected: seq<RoutineExercise>, e: Exercise): (r: seq<RoutineExercise>)
    ensures IsSelected(selected, e.id) ==> r == selected
    ensures !IsSelected(selected, e.id) ==> r == selected + [DefaultPlan(e)]
    ensures DistinctIds(selected) ==> DistinctIds(r)
  {
    if IsSelected(selected, e.id) then selected else selected + [DefaultPlan(e)]
  }

  function NotExercise(id: string): RoutineExercise -> bool
  {
    (x: RoutineExercise) => x.id != id
  }

  /** `removeExerciseFromRoutine`: every selected exercise with that id goes, the rest keep their order. */
  function WithoutExercise(selected: seq<RoutineExercise>, id: string): (r: seq<RoutineExercise>)
    ensures forall x :: x in r <==> x in selected && x.id != id
    ensures IsSubsequence(r, selected)
    ensures forall x :: multiset(r)[x] == if x.id != id then multiset(selected)[x] else 0
    ensures DistinctIds(selected) ==> DistinctIds(r)
  {
    FilterMembershipAll(selected, NotExercise(id));
    FilterMultiplicityAll(selected, NotExercise(id));
    FilterIsSubsequence(selected, NotExercise(id));
    DistinctAfterFilter(selected, NotExercise(id));
    Filter(selected, NotExercise(id))
  }

  lemma {:induction false} DistinctAfterFilter(s: seq<RoutineExercise>, p: RoutineExercise -> bool)
    ensures DistinctIds(s) ==> DistinctIds(Filter(s, p))
  {
    if s != [] && DistinctIds(s) {
      DistinctAfterFilter(s[1..], p);
      FilterMembershipAll(s[1..], p);
      if p(s[0]) {
        var t := Filter(s[1..], p);
        forall j | 0 <= j < |t|
          ensures s[0].id != t[j].id
        {
          assert t[j] in s[1..];
        }
      }
    }
  }

  /** Picking an exercise and removing it again restores the selection. */
  lemma {:induction false} AddThenRemoveExercise(selected: seq<RoutineExercise>, e: Exercise)
    requires !IsSelected(selected, e.id)
    ensures WithoutExercise(WithExercise(selected, e), e.id) == selected
  {
    FilterAppend(selected, [DefaultPlan(e)], NotExercise(e.id));
    FilterKeepsAll(selected, NotExercise(e.id));
  }

  /** `exercisesData.find(e => e.id === id)?.muscleGroup || 'Other'`. */
  function MuscleGroupOf(catalog: seq<Exercise>, id: string): (g: string)
    ensures g != []
    ensures (forall i :: 0 <= i < |catalog| ==> catalog[i].id != id) ==> g == "Other"
  {
    if catalog == [] then "Other"
    else if catalog[0].id == id then (if catalog[0].muscleGroup == [] then "Other" else catalog[0].muscleGroup)
    else MuscleGroupOf(catalog[1..], id)
  }

  /** The groups of the selected exercises, in order of selection. */
  function GroupsOf(catalog: seq<Exercise>, selected: seq<RoutineExercise>): (r: seq<string>)
    ensures |r| == |selected|
    ensures forall i :: 0 <= i < |r| ==> r[i] == MuscleGroupOf(catalog, selected[i].id)
  {
    seq(|selected|, i requires 0 <= i < |selected| => MuscleGroupOf(catalog, selected[i].id))
  }

  /** The routine `createRoutine` builds from a valid form, with the fresh id and today's date. */
  function NewRoutine(name: string, description: string, selected: seq<RoutineExercise>,
                      catalog: seq<Exercise>, id: string, today: string): (r: Routine)
    ensures r.id == id && r.name == Trim(name) && r.exercises == selected && r.createdDate == today
    ensures r.description == if Trim(description) == [] then "Rutina personalizada" else Trim(description)
    ensures forall g :: g in r.muscleGroups <==> g in GroupsOf(catalog, selected)
    ensures NoDuplicates(r.muscleGroups)
    ensures r.duration == "45 min" && r.difficulty == "Intermediate"
    ensures r.lastPerformed.None? && !r.isActive
  {
    var groups := GroupsOf(catalog, selected);
    var summary := Trim(description);
    DedupProperties(groups);
    Routine(id, Trim(name), if summary == [] then "Rutina personalizada" else summary,
            Dedup(groups), selected, "45 min", "Intermediate", None, false, today)
  }

  // ---------------------------------------------------------------------------
  // The routine list

  function NotRoutine(id: string): Routine -> bool
  {
    (r: Routine) => r.id != id
  }

  /** `deleteRoutine` once confirmed: every routine with that id goes, the rest keep their order. */
  function WithoutRoutine(routines: seq<Routine>, id: string): (r: seq<Routine>)
    ensures forall x :: x in r <==> x in routines && x.id != id
    ensures IsSubsequence(r, routines)
    ensures forall x :: multiset(r)[x] == if x.id != id then multiset(routines)[x] else 0
  {
    FilterMembershipAll(routines, NotRoutine(id));
    FilterMultiplicityAll(routines, NotRoutine(id));
    FilterIsSubsequence(routines, NotRoutine(id));
    Filter(routines, NotRoutine(id))
  }

  /** Deleting an id no routine has changes nothing. */
  lemma DeleteUnknownRoutine(routines: seq<Routine>, id: string)
    requires forall i :: 0 <= i < |routines| ==> routines[i].id != id
    ensures WithoutRoutine(routines, id) == routines
  {
    FilterKeepsAll(routines, NotRoutine(id));
  }

  /** `toggleRoutineActive`: `isActive` flips on the routines with that id, nothing else changes. */
  function ToggledActive(routines: seq<Routine>, id: string): (r: seq<Routine>)
    ensures |r| == |routines|
    ensures forall i :: 0 <= i < |r| ==> r[i].(isActive := routines[i].isActive) == routines[i]
    ensures forall i :: 0 <= i < |r| ==> r[i].isActive == (if routines[i].id == id then !routines[i].isActive else routines[i].isActive)
  {
    seq(|routines|, i requires 0 <= i < |routines| =>
      if routines[i].id == id then routines[i].(isActive := !routines[i].isActive) else routines[i])
  }

  /** Toggling the same routine twice restores the list. */
  lemma ToggleActiveTwice(routines: seq<Routine>, id: string)
    ensures ToggledActive(ToggledActive(routines, id), id) == routines
  {
  }

  /** Why `createRoutine` refused the form. */
  datatype CreateError = NameRequired | NoExercises

  /** The routines screen's state. */
  class RoutineBuilder {
    const catalog: seq<Exercise>
    var routines: seq<Routine>
    var newRoutineName: string
    var newRoutineDescription: string
    var selectedExercises: seq<RoutineExercise>
    var showCreateModal: bool

    /** The selection never holds an exercise twice. */
    ghost predicate Valid()
      reads this
    {
      DistinctIds(selectedExercises)
    }

    /** The saved routines and the exercise catalog, an empty form. */
    constructor (saved: seq<Routine>, exercises: seq<Exercise>)
      ensures Valid()
      ensures catalog == exercises && routines == saved
      ensures newRoutineName == "" && newRoutineDescription == "" && selectedExercises == [] && !showCreateModal
    {
      catalog, routines := exercises, saved;
      newRoutineName, newRoutineDescription, selectedExercises := "", "", [];
      showCreateModal := false;
    }

    /** `createRoutine` at time `now` on day `today`: a blank name, then an empty selection, are
        refused with nothing changed; otherwise the new routine is appended and the form cleared. */
    method CreateRoutine(now: nat, today: string) returns (r: Result<Routine, CreateError>)
      requires Valid()
      modifies this`routines, this`newRoutineName, this`newRoutineDescription, this`selectedExercises,
               this`showCreateModal
      ensures Valid()
      ensures IsBlank(old(newRoutineName)) ==> r == Err(NameRequired)
      ensures !IsBlank(old(newRoutineName)) && old(selectedExercises) == [] ==> r == Err(NoExercises)
      ensures r.Err? ==> routines == old(routines) && newRoutineName == old(newRoutineName)
                           && newRoutineDescription == old(newRoutineDescription)
                           && selectedExercises == old(selectedExercises) && showCreateModal == old(showCreateModal)
      ensures r.Ok? <==> !IsBlank(old(newRoutineName)) && old(selectedExercises) != []
      ensures r.Ok? ==> r.value == NewRoutine(old(newRoutineName), old(newRoutineDescription), old(selectedExercises),
                                              catalog, NatToString(now), today)
      ensures r.Ok? ==> routines == old(routines) + [r.value]
                        && newRoutineName == "" && newRoutineDescription == "" && selectedExercises == []
                        && !showCreateModal
    {
      if IsBlank(newRoutineName) {
        return Err(NameRequired);
      }
      if |selectedExercises| == 0 {
        return Err(NoExercises);
      }
      r := Ok(NewRoutine(newRoutineName, newRoutineDescription, selectedExercises, catalog,
                         NatToString(now), today));
      routines := routines + [r.value];
      newRoutineName, newRoutineDescription, selectedExercises := "", "", [];
      showCreateModal := false;
    }

    /** `addExerciseToRoutine`. */
    method AddExerciseToRoutine(e: Exercise)
      requires Valid()
      modifies this`selectedExercises
      ensures Valid()
      ensures selectedExercises == WithExercise(old(selectedExercises), e)
    {
      selectedExercises := WithExercise(selectedExercises, e);
    }

    /** `removeExerciseFromRoutine`. */
    method RemoveExerciseFromRoutine(exerciseId: string)
      requires Valid()
      modifies this`selectedExercises
      ensures Valid()
      ensures selectedExercises == WithoutExercise(old(selectedExercises), exerciseId)
    {
      selectedExercises := WithoutExercise(selectedExercises, exerciseId);
    }

    /** `deleteRoutine`, once the user confirms. */
    method DeleteRoutine(routineId: string)
      modifies this`routines
      ensures routines == WithoutRoutine(old(routines), routineId)
    {
      routines := WithoutRoutine(routines, routineId);
    }

    /** `toggleRoutineActive`. */
    method ToggleRoutineActive(routineId: string)
      modifies this`routines
      ensures routines == ToggledActive(old(routines), routineId)
    {
      routines := ToggledActive(routines, routineId);
    }
  }
}
