/** The detail view of one finished session: its overall counts, the icon per exercise and the
    performance note shown under an incomplete session. */
module RoutineHistoryDetail {
  import opened Wrappers
  import opened JsNumber
  import opened WorkoutTypes
  import opened EditRoutineHistory

  /** `reduce((acc, ex) => acc + ex.totalSets, 0)`. */
  function SumTotalSets(exercises: seq<CompletedExercise>): int
  {
    if exercises == [] then 0 else exercises[0].totalSets + SumTotalSets(exercises[1..])
  }

  /** `reduce((acc, ex) => acc + ex.completedSets, 0)`. */
  function SumCompletedSets(exercises: seq<CompletedExercise>): int
  {
    if exercises == [] then 0 else exercises[0].completedSets + SumCompletedSets(exercises[1..])
  }

  /** The figures of `getOverallStats()`. */
  datatype OverallStats = OverallStats(completedExercises: nat, totalSets: int, completedSets: int)

  /** `getOverallStats()`: completed exercises, planned sets and completed sets over the session. */
  function OverallStatsOf(exercises: seq<CompletedExercise>): (r: OverallStats)
    ensures r.completedExercises == CompletedCount(exercises) <= |exercises|
    ensures r.totalSets == SumTotalSets(exercises) && r.completedSets == SumCompletedSets(exercises)
    ensures (forall i :: 0 <= i < |exercises| ==> SetsInRange(exercises[i])) ==>
              0 <= r.completedSets <= r.totalSets
  {
    SetsBounded(exercises);
    OverallStats(CompletedCount(exercises), SumTotalSets(exercises), SumCompletedSets(exercises))
  }

  /** Both sums add up over consecutive parts of the session. */
  lemma {:induction false} SumsAppend(a: seq<CompletedExercise>, b: seq<CompletedExercise>)
    ensures SumTotalSets(a + b) == SumTotalSets(a) + SumTotalSets(b)
    ensures SumCompletedSets(a + b) == SumCompletedSets(a) + SumCompletedSets(b)
  {
    if a != [] {
      assert (a + b)[1..] == a[1..] + b;
      SumsAppend(a[1..], b);
    } else {
      assert a + b == b;
    }
  }

  /** A single exercise contributes its own planned and completed sets. */
  lemma SumsSingle(e: CompletedExercise)
    ensures SumTotalSets([e]) == e.totalSets && SumCompletedSets([e]) == e.completedSets
  {
    assert [e][1..] == [];
  }

  /** When every exercise keeps its count within its sets, so do the totals. */
  lemma {:induction false} SetsBounded(exercises: seq<CompletedExercise>)
    ensures (forall i :: 0 <= i < |exercises| ==> SetsInRange(exercises[i])) ==>
              0 <= SumCompletedSets(exercises) <= SumTotalSets(exercises)
  {
    if exercises != [] {
      SetsBounded(exercises[1..]);
      assert forall i :: 1 <= i < |exercises| ==> exercises[i] == exercises[1..][i - 1];
    }
  }

  /** A session whose exercises are all ticked off with every set done has completed every set. */
  lemma {:induction false} AllSetsDone(exercises: seq<CompletedExercise>)
    requires forall i :: 0 <= i < |exercises| ==> exercises[i].completedSets == exercises[i].totalSets
    ensures SumCompletedSets(exercises) == SumTotalSets(exercises)
  {
    if exercises != [] {
      AllSetsDone(exercises[1..]);
    }
  }

  /** The icon beside an exercise. */
  datatype ExerciseIcon = CheckIcon | CrossIcon

  function ExerciseIconOf(completed: bool): (r: ExerciseIcon)
    ensures r == CheckIcon <==> completed
  {
    if completed then CheckIcon else CrossIcon
  }

  /** The note of the performance card. */
  datatype AnalysisMessage = ReduceIntensity | KeepGoing

  /** The performance card: shown only below 100 % (NaN and Infinity fail `< 100`, -Infinity
      passes), advising to ease off below 50 %. */
  function AnalysisOf(p: Percentage): (r: Option<AnalysisMessage>)
    ensures r.Some? <==> p == NegativeInfinite || (p.Pct? && p.value < 100)
    ensures r == Some(ReduceIntensity) <==> p == NegativeInfinite || (p.Pct? && p.value < 50)
    ensures r == Some(KeepGoing) <==> p.Pct? && 50 <= p.value < 100
  {
    match p
    case Pct(v) => if v < 50 then Some(ReduceIntensity) else if v < 100 then Some(KeepGoing) else None
    case NegativeInfinite => Some(ReduceIntensity)
    case _ => None
  }

  /** After saving an edit in which every exercise was ticked off, the card is not shown. */
  lemma FullSessionHasNoAnalysis(h: RoutineHistory)
    requires h.totalExercises == |h.exercises| > 0
    requires forall i :: 0 <= i < |h.exercises| ==> h.exercises[i].completed
    ensures AnalysisOf(Recomputed(h).completionPercentage).None?
  {
    RecomputedFigures(h);
  }
}
