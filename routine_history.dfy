/** The history list: the icon of each session, the summary figures over all sessions and the
    newest-first order of the list. */
module RoutineHistoryList {
  import opened Wrappers
  import opened Seqs
  import opened JsNumber
  import opened Durations
  import opened WorkoutTypes
  import opened Sorting

  /** The icon a session card shows for its completion percentage. */
  datatype CompletionIcon = FullyDone | MostlyDone | HalfDone | NotDone

  /** `getCompletionIcon(percentage)`: exactly 100, at least 75, at least 50, anything else.
      Infinity passes the `>= 75` test; NaN and -Infinity fail every test. */
  function CompletionIconOf(p: Percentage): (r: CompletionIcon)
    ensures r == FullyDone <==> p == Pct(100)
    ensures r == MostlyDone <==> p == Infinite || (p.Pct? && p.value != 100 && p.value >= 75)
    ensures r == HalfDone <==> p.Pct? && 50 <= p.value < 75
    ensures r == NotDone <==> p == NotANumber || p == NegativeInfinite || (p.Pct? && p.value < 50)
  {
    match p
    case Pct(v) => if v == 100 then FullyDone else if v >= 75 then MostlyDone else if v >= 50 then HalfDone else NotDone
    case Infinite => MostlyDone
    case NotANumber => NotDone
    case NegativeInfinite => NotDone
  }

  /** With 200 or more exercises a session one short of complete rounds to 100 and shows as done. */
  lemma NearlyCompleteShowsAsDone()
    ensures RoundedPercentage(199, 200) == Pct(100)
    ensures CompletionIconOf(RoundedPercentage(199, 200)) == FullyDone
  {
    assert 199.0 / 200.0 * 100.0 == 99.5;
  }

  /** The filter `r => r.completionPercentage === 100`. */
  function IsPerfect(): RoutineHistory -> bool
  {
    (h: RoutineHistory) => h.completionPercentage == Pct(100)
  }

  /** The duration reduce: `acc + minutes * 60 + seconds` over every session; one unreadable
      duration makes the sum NaN. */
  function TotalSeconds(history: seq<RoutineHistory>): (r: Option<real>)
    ensures r.Some? <==> forall i :: 0 <= i < |history| ==> DurationSeconds(history[i].duration).Some?
  {
    if history == [] then Some(0.0)
    else match (DurationSeconds(history[0].duration), TotalSeconds(history[1..]))
      case (Some(d), Some(rest)) => Some(d + rest)
      case _ => None
  }

  /** Sessions whose durations all passed the edit screen's check add up to a non-negative total. */
  lemma {:induction false} FormattedTotal(history: seq<RoutineHistory>)
    requires forall i :: 0 <= i < |history| ==> IsDurationFormat(history[i].duration)
    ensures TotalSeconds(history).Some? && TotalSeconds(history).value >= 0.0
  {
    if history != [] {
      FormattedTotal(history[1..]);
      FormattedDurationSeconds(history[0].duration);
    }
  }

  /** The summary card. */
  datatype StatsOverview = StatsOverview(
    totalRoutines: nat,
    completedRoutines: nat,
    avgDuration: Option<int>,
    completionRate: int)

  /** `getStatsOverview()`: nothing for an empty history; otherwise the session count, the sessions
      at exactly 100 %, the rounded mean duration in minutes and the rounded share of completed
      sessions. */
  function StatsOf(history: seq<RoutineHistory>): (r: Option<StatsOverview>)
    ensures r.None? <==> history == []
    ensures r.Some? ==> r.value.totalRoutines == |history|
    ensures r.Some? ==> r.value.completedRoutines == |Filter(history, IsPerfect())| <= |history|
    ensures r.Some? ==> (r.value.completedRoutines == 0 <==>
                           forall i :: 0 <= i < |history| ==> history[i].completionPercentage != Pct(100))
    ensures r.Some? ==> (r.value.completedRoutines == |history| <==>
                           forall i :: 0 <= i < |history| ==> history[i].completionPercentage == Pct(100))
    ensures r.Some? ==> r.value.completionRate == Round(r.value.completedRoutines as real / |history| as real * 100.0)
    ensures r.Some? ==> 0 <= r.value.completionRate <= 100
    ensures r.Some? ==> (r.value.completionRate == 100 <== r.value.completedRoutines == |history|)
    ensures r.Some? ==> (r.value.avgDuration.Some? <==> TotalSeconds(history).Some?)
    ensures r.Some? && TotalSeconds(history).Some? ==>
              r.value.avgDuration == Some(Round(TotalSeconds(history).value / |history| as real / 60.0))
  {
    if history == [] then None
    else
      var total := |history|;
      var completed := |Filter(history, IsPerfect())|;
      FilterCount(history, IsPerfect());
      RoundedShare(completed, total);
      var seconds := TotalSeconds(history);
      var avg := if seconds.Some? then Some(Round(seconds.value / total as real / 60.0)) else None;
      Some(StatsOverview(total, completed, avg, Round(completed as real / total as real * 100.0)))
  }

  /** The list order: newest first. */
  predicate NewestFirst(s: seq<RoutineHistory>)
  {
    forall i, j :: 0 <= i < j < |s| ==> s[i].completedAt >= s[j].completedAt
  }

  /** The sort key of the list: the later the session, the smaller the key. */
  function NewestKey(): RoutineHistory -> int
  {
    (h: RoutineHistory) => -h.completedAt
  }

  /** `routineHistory.sort((a, b) => b.completedAt - a.completedAt)`, in place. */
  method SortNewestFirst(a: array<RoutineHistory>)
    modifies a
    ensures NewestFirst(a[..])
    ensures multiset(a[..]) == multiset(old(a[..]))
  {
    SortByKey(a, NewestKey());
  }
}
