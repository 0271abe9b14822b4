/** The exercise catalog screen: the muscle-group and text filters over the catalog, and the
    colour of a difficulty badge. */
module ExercisesList {
  import opened Seqs
  import opened Text

  /** A catalog exercise. */
  datatype Exercise = Exercise(
    id: string,
    name: string,
    description: string,
    muscleGroup: string,
    difficulty: string,
    equipment: string,
    additionalMuscles: seq<string>)

  /** The chip that switches the muscle-group filter off. */
  const AllGroups := "All"

  /** A badge colour: one of the three fixed colours, or the theme's secondary text colour. */
  datatype BadgeColor = Fixed(hex: string) | SecondaryText

  /** `getDifficultyColor(difficulty)`. */
  function DifficultyColor(difficulty: string): (r: BadgeColor)
    ensures difficulty == "Beginner" <==> r == Fixed("#22c55e")
    ensures difficulty == "Intermediate" <==> r == Fixed("#f59e0b")
    ensures difficulty == "Advanced" <==> r == Fixed("#ef4444")
    ensures r == SecondaryText <==> difficulty !in {"Beginner", "Intermediate", "Advanced"}
  {
    if difficulty == "Beginner" then Fixed("#22c55e")
    else if difficulty == "Intermediate" then Fixed("#f59e0b")
    else if difficulty == "Advanced" then Fixed("#ef4444")
    else SecondaryText
  }

  predicate InGroup(e: Exercise, group: string)
  {
    group == AllGroups || e.muscleGroup == group
  }

  /** An empty query matches everything; any other query, as typed, must occur in the name, the
      description or the muscle group, ignoring case. */
  predicate MatchesQuery(e: Exercise, query: string)
  {
    query == [] || ContainsIgnoringCase(e.name, query) || ContainsIgnoringCase(e.description, query)
    || ContainsIgnoringCase(e.muscleGroup, query)
  }

  function SameGroup(group: string): Exercise -> bool
  {
    (e: Exercise) => e.muscleGroup == group
  }

  function HasQuery(query: string): Exercise -> bool
  {
    (e: Exercise) => ContainsIgnoringCase(e.name, query) || ContainsIgnoringCase(e.description, query)
                     || ContainsIgnoringCase(e.muscleGroup, query)
  }

  /** The muscle-group step: no filter for 'All', otherwise the exact group. */
  function ByGroup(exercises: seq<Exercise>, group: string): (r: seq<Exercise>)
    ensures forall e :: e in r <==> e in exercises && InGroup(e, group)
    ensures IsSubsequence(r, exercises)
    ensures group == AllGroups ==> r == exercises
  {
    if group != AllGroups then
      FilterMembershipAll(exercises, SameGroup(group));
      FilterIsSubsequence(exercises, SameGroup(group));
      Filter(exercises, SameGroup(group))
    else
      SubsequenceReflexive(exercises);
      exercises
  }

  /** The text step: no filter for an empty query. */
  function ByQuery(exercises: seq<Exercise>, query: string): (r: seq<Exercise>)
    ensures forall e :: e in r <==> e in exercises && MatchesQuery(e, query)
    ensures IsSubsequence(r, exercises)
    ensures query == [] ==> r == exercises
  {
    if query != [] then
      FilterMembershipAll(exercises, HasQuery(query));
      FilterIsSubsequence(exercises, HasQuery(query));
      Filter(exercises, HasQuery(query))
    else
      SubsequenceReflexive(exercises);
      exercises
  }

  /** `filteredExercises`: the catalog order kept, both filters applied. */
  function FilteredExercises(exercises: seq<Exercise>, group: string, query: string): (r: seq<Exercise>)
    ensures forall e :: e in r <==> e in exercises && InGroup(e, group) && MatchesQuery(e, query)
    ensures IsSubsequence(r, exercises)
  {
    var byGroup := ByGroup(exercises, group);
    var byQuery := ByQuery(byGroup, query);
    SubsequenceTransitive(byQuery, byGroup, exercises);
    byQuery
  }

  /** With 'All' and an empty query the whole catalog is listed. */
  lemma NoFilterListsAll(exercises: seq<Exercise>)
    ensures FilteredExercises(exercises, AllGroups, "") == exercises
  {
  }

  /** A group chip never lists an exercise of another group. */
  lemma {:induction false} GroupChipIsExact(exercises: seq<Exercise>, group: string, query: string)
    requires group != AllGroups
    ensures forall i :: 0 <= i < |FilteredExercises(exercises, group, query)| ==>
              FilteredExercises(exercises, group, query)[i].muscleGroup == group
  {
    var r := FilteredExercises(exercises, group, query);
    forall i | 0 <= i < |r|
      ensures r[i].muscleGroup == group
    {
      assert r[i] in r;
    }
  }
}
