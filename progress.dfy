/** The weight log of the progress screen: the weight check, the date string of an entry, the log
    kept in date order, the chart built from it and the change from the first to the last weigh-in. */
module Progress {
  import opened Wrappers
  import opened Seqs
  import opened Text
  import opened JsNumber
  import opened Sorting

  /** One weigh-in. */
  datatype WeightEntry = WeightEntry(id: string, weight: real, date: string, displayDate: string)

  /** The calendar day picked in the date picker. */
  datatype CalendarDate = CalendarDate(year: nat, month: nat, day: nat)

  /** A day the picker can produce: a four-digit year, a month and a day of the month. */
  predicate ValidDate(d: CalendarDate)
  {
    1000 <= d.year <= 9999 && 1 <= d.month <= 12 && 1 <= d.day <= 31
  }

  const MinWeight: real := 20.0
  const MaxWeight: real := 300.0

  // ---------------------------------------------------------------------------
  // The weight check

  /** Why a weigh-in was refused: not a number, or outside [20, 300] kg. */
  datatype WeightError = InvalidWeight | OutOfRange

  /** The guards of `addWeightEntry` as written: `!newWeight || isNaN(Number(newWeight))`, then the
      range test on `parseFloat(newWeight)`. A NaN from `parseFloat` (`None`) fails both
      comparisons and is let through. */
  function WeightCheckAsWritten(text: string): (r: Result<Option<real>, WeightError>)
    ensures r == Err(InvalidWeight) <==> text == [] || ToNumber(text).None?
    ensures r.Ok? ==> r.value == ParseFloat(text)
    ensures r.Ok? && r.value.Some? ==> MinWeight <= r.value.value <= MaxWeight
  {
    if text == [] || ToNumber(text).None? then Err(InvalidWeight)
    else match ParseFloat(text)
      case None => Ok(None)
      case Some(w) => if w < MinWeight || w > MaxWeight then Err(OutOfRange) else Ok(Some(w))
  }

  /** Text of spaces only is a number (0) to `Number` but NaN to `parseFloat`: the guards as
      written accept it without a weight. */
  lemma BlankWeightAccepted(text: string)
    requires text != [] && IsBlank(text)
    ensures WeightCheckAsWritten(text) == Ok(None)
  {
    BlankParses(text);
  }

  /** A single space is such a text. */
  lemma SpaceWeightAccepted()
    ensures WeightCheckAsWritten(" ") == Ok(None)
  {
    assert TrimStart(" ") == [] by { assert IsSpace(' '); }
    BlankWeightAccepted(" ");
  }

  /** The weight check with the evident intent: a text `parseFloat` cannot read is refused like
      any other invalid weight. */
  function WeightCheck(text: string): (r: Result<real, WeightError>)
    ensures r.Ok? ==> ParseFloat(text) == Some(r.value) && MinWeight <= r.value <= MaxWeight
    ensures r == Err(InvalidWeight) <==> text == [] || ToNumber(text).None? || ParseFloat(text).None?
    ensures r == Err(OutOfRange) <==>
              text != [] && ToNumber(text).Some? && ParseFloat(text).Some?
              && !(MinWeight <= ParseFloat(text).value <= MaxWeight)
  {
    if text == [] || ToNumber(text).None? || ParseFloat(text).None? then Err(InvalidWeight)
    else
      var w := ParseFloat(text).value;
      if w < MinWeight || w > MaxWeight then Err(OutOfRange) else Ok(w)
  }

  /** The correction changes one outcome only: the accepted NaN becomes a refusal. */
  lemma CorrectionRefusesOnlyNaN(text: string)
    ensures WeightCheckAsWritten(text) == Ok(None) ==> WeightCheck(text) == Err(InvalidWeight)
    ensures WeightCheckAsWritten(text).Err? ==> WeightCheck(text) == Err(WeightCheckAsWritten(text).error)
    ensures WeightCheck(text).Ok? ==> WeightCheckAsWritten(text) == Ok(Some(WeightCheck(text).value))
    ensures WeightCheckAsWritten(text).Ok? && WeightCheckAsWritten(text).value.Some? ==> WeightCheck(text).Ok?
    ensures IsBlank(text) ==> WeightCheck(text) == Err(InvalidWeight)
  {
    if IsBlank(text) {
      BlankParses(text);
    }
  }

  // ---------------------------------------------------------------------------
  // Dates

  /** A date string `YYYY-MM-DD`. */
  predicate IsDateString(s: string)
  {
    |s| == 10 && s[4] == '-' && s[7] == '-' && AllDigits(s[..4]) && AllDigits(s[5..7]) && AllDigits(s[8..])
  }

  /** A year from 1000 to 9999 is written with four digits. */
  lemma YearWidth(n: nat)
    ensures 1000 <= n <= 9999 ==> |NatToString(n)| == 4
  {
    if 1000 <= n <= 9999 {
      assert |NatToString(n / 100)| == 2;
      assert |NatToString(n / 10)| == 3;
    }
  }

  /** `${year}-${month}-${day}` with month and day padded to two digits. */
  function DateString(d: CalendarDate): (r: string)
    ensures ValidDate(d) ==> IsDateString(r)
    ensures ValidDate(d) ==> r[..4] == NatToString(d.year) && r[5..7] == TwoDigits(d.month) && r[8..] == TwoDigits(d.day)
  {
    YearWidth(d.year);
    NatToString(d.year) + "-" + TwoDigits(d.month) + "-" + TwoDigits(d.day)
  }

  /** The order `new Date(date).getTime()` gives to date strings, as a day number. */
  function DateKey(date: string): int
  {
    if IsDateString(date) then DigitsValue(date[..4]) * 10000 + DigitsValue(date[5..7]) * 100 + DigitsValue(date[8..])
    else 0
  }

  /** The day number of a picked day is read back from its date string. */
  lemma DateKeyOf(d: CalendarDate)
    requires ValidDate(d)
    ensures DateKey(DateString(d)) == d.year * 10000 + d.month * 100 + d.day
  {
    NatToStringRoundTrip(d.year);
    TwoDigitsValue(d.month);
    TwoDigitsValue(d.day);
  }

  /** The day number follows the calendar: year first, then month, then day. */
  lemma DateKeyChronological(d: CalendarDate, e: CalendarDate)
    requires ValidDate(d) && ValidDate(e)
    ensures DateKey(DateString(d)) < DateKey(DateString(e)) <==>
              d.year < e.year || (d.year == e.year && d.month < e.month)
              || (d.year == e.year && d.month == e.month && d.day < e.day)
    ensures DateKey(DateString(d)) == DateKey(DateString(e)) <==> d == e
  {
    DateKeyOf(d);
    DateKeyOf(e);
  }

  /** The sort key of `(a, b) => new Date(a.date).getTime() - new Date(b.date).getTime()`. */
  function ByDate(): WeightEntry -> int
  {
    (e: WeightEntry) => DateKey(e.date)
  }

  /** The sort key of the descending comparator used when rendering. */
  function ByDateDescending(): WeightEntry -> int
  {
    (e: WeightEntry) => -DateKey(e.date)
  }

  // ---------------------------------------------------------------------------
  // The chart

  /** `dateParts[i]`, which is `undefined` past the end. */
  function Part(parts: seq<string>, i: nat): string
  {
    if i < |parts| then parts[i] else "undefined"
  }

  /** A chart label: `${day}/${month}` from the parts of `date.split('-')`. */
  function Label(date: string): string
  {
    var parts := Split(date, '-');
    Part(parts, 2) + "/" + Part(parts, 1)
  }

  /** A date string splits into its year, month and day. */
  lemma {:induction false} SplitDate(s: string)
    requires IsDateString(s)
    ensures Split(s, '-') == [s[..4], s[5..7], s[8..]]
  {
    assert forall k :: 0 <= k < |s[..4]| ==> s[..4][k] != '-' by { assert AllDigits(s[..4]); }
    assert forall k :: 0 <= k < |s[5..7]| ==> s[5..7][k] != '-' by { assert AllDigits(s[5..7]); }
    assert forall k :: 0 <= k < |s[8..]| ==> s[8..][k] != '-' by { assert AllDigits(s[8..]); }
    assert s == s[..4] + ['-'] + s[5..];
    assert s[5..] == s[5..7] + ['-'] + s[8..];
    SplitAtFirst(s[..4], s[5..], '-');
    SplitAtFirst(s[5..7], s[8..], '-');
    SplitNoSeparator(s[8..], '-');
  }

  /** The label of a picked day is its padded day, a slash, and its padded month. */
  lemma LabelOfDate(d: CalendarDate)
    requires ValidDate(d)
    ensures Label(DateString(d)) == TwoDigits(d.day) + "/" + TwoDigits(d.month)
  {
    SplitDate(DateString(d));
  }

  /** What the line chart is given. */
  datatype ChartData = ChartData(labels: seq<string>, data: seq<real>)

  /** `getChartData()` over the log sorted by date: a single 'Sin datos' point at 0 for an empty
      log, otherwise one label and one weight per entry. */
  function ChartOf(sorted: seq<WeightEntry>): (r: ChartData)
    ensures sorted == [] ==> r == ChartData(["Sin datos"], [0.0])
    ensures sorted != [] ==> |r.labels| == |sorted| && |r.data| == |sorted|
    ensures sorted != [] ==> forall i :: 0 <= i < |sorted| && IsDateString(sorted[i].date) ==>
              r.labels[i] == sorted[i].date[8..] + "/" + sorted[i].date[5..7] && r.data[i] == sorted[i].weight
  {
    if sorted == [] then ChartData(["Sin datos"], [0.0])
    else
      SplitDates(sorted);
      ChartData(seq(|sorted|, i requires 0 <= i < |sorted| => Label(sorted[i].date)),
                seq(|sorted|, i requires 0 <= i < |sorted| => sorted[i].weight))
  }

  lemma SplitDates(s: seq<WeightEntry>)
    ensures forall i :: 0 <= i < |s| && IsDateString(s[i].date) ==> Split(s[i].date, '-') == [s[i].date[..4], s[i].date[5..7], s[i].date[8..]]
  {
    forall i | 0 <= i < |s| && IsDateString(s[i].date)
      ensures Split(s[i].date, '-') == [s[i].date[..4], s[i].date[5..7], s[i].date[8..]]
    {
      SplitDate(s[i].date);
    }
  }

  /** The chart of a log sorted by date runs left to right in date order. */
  lemma ChartInDateOrder(sorted: seq<WeightEntry>, i: int, j: int)
    requires Ascending(sorted, ByDate())
    requires 0 <= i < j < |sorted|
    requires IsDateString(sorted[i].date) && IsDateString(sorted[j].date)
    ensures ChartOf(sorted).labels[i] == sorted[i].date[8..] + "/" + sorted[i].date[5..7]
    ensures DateKey(sorted[i].date) <= DateKey(sorted[j].date)
  {
    assert ByDate()(sorted[i]) <= ByDate()(sorted[j]);
  }

  // ---------------------------------------------------------------------------
  // The change from the first to the last weigh-in

  /** The figures of `getWeightDifference()`. */
  datatype WeightChange = WeightChange(value: real, isPositive: bool, isNeutral: bool)

  /** `getWeightDifference()` over the log sorted by date: nothing below two entries, otherwise
      the size and direction of the change from the first weight to the last. */
  function DifferenceOf(sorted: seq<WeightEntry>): (r: Option<WeightChange>)
    ensures r.None? <==> |sorted| < 2
    ensures r.Some? ==> r.value.value >= 0.0
    ensures r.Some? ==> (r.value.isPositive <==> sorted[|sorted| - 1].weight > sorted[0].weight)
    ensures r.Some? ==> (r.value.isNeutral <==> sorted[|sorted| - 1].weight == sorted[0].weight)
  {
    if |sorted| < 2 then None
    else
      var difference := sorted[|sorted| - 1].weight - sorted[0].weight;
      Some(WeightChange(if difference < 0.0 then -difference else difference, difference > 0.0, difference == 0.0))
  }

  /** The shown change leads from the first weight to the last: up by the value when positive,
      down by it otherwise. */
  lemma DifferenceLeadsToLast(sorted: seq<WeightEntry>)
    requires |sorted| >= 2
    ensures var c := DifferenceOf(sorted).value;
            sorted[0].weight + (if c.isPositive then c.value else -c.value) == sorted[|sorted| - 1].weight
  {
  }

  /** The last element of a sequence in ascending order has the greatest key. */
  lemma LastIsGreatest<T>(s: seq<T>, key: T -> int)
    requires Ascending(s, key) && s != []
    ensures forall x :: x in s ==> key(x) <= key(s[|s| - 1])
  {
    forall x | x in s
      ensures key(x) <= key(s[|s| - 1])
    {
      var j :| 0 <= j < |s| && s[j] == x;
      if j < |s| - 1 {
        assert key(s[j]) <= key(s[|s| - 1]);
      }
    }
  }

  // ---------------------------------------------------------------------------
  // The log

  function NotEntry(id: string): WeightEntry -> bool
  {
    (e: WeightEntry) => e.id != id
  }

  /** `prev.filter(entry => entry.id !== id)`: every entry with that id goes, the rest keep their order. */
  function WithoutEntry(entries: seq<WeightEntry>, id: string): (r: seq<WeightEntry>)
    ensures forall e :: e in r <==> e in entries && e.id != id
    ensures IsSubsequence(r, entries)
    ensures forall e :: multiset(r)[e] == if e.id != id then multiset(entries)[e] else 0
  {
    FilterMembershipAll(entries, NotEntry(id));
    FilterMultiplicityAll(entries, NotEntry(id));
    FilterIsSubsequence(entries, NotEntry(id));
    Filter(entries, NotEntry(id))
  }

  /** An entry the screen can have stored: a checked weight and a date string. */
  predicate WellFormed(e: WeightEntry)
  {
    MinWeight <= e.weight <= MaxWeight && IsDateString(e.date)
  }

  /** The progress screen's state. */
  class WeightLog {
    var weightEntries: seq<WeightEntry>
    var showAddModal: bool
    var newWeight: string
    var selectedDate: CalendarDate

    /** The picked day is a real day, and every stored entry is well-formed. */
    ghost predicate Valid()
      reads this
    {
      ValidDate(selectedDate) && forall e :: e in weightEntries ==> WellFormed(e)
    }

    /** The screen opened on day `today`: an empty log. */
    constructor (today: CalendarDate)
      requires ValidDate(today)
      ensures Valid()
      ensures weightEntries == [] && !showAddModal && newWeight == "" && selectedDate == today
    {
      weightEntries, showAddModal := [], false;
      newWeight, selectedDate := "", today;
    }

    /** `addWeightEntry` at time `now` on day `today`, the locale rendering of the picked day being
        `displayDate`: a refused weight changes nothing; an accepted one is stored under the id
        `now` with the picked day's date string, the log is re-sorted by date, and the form is reset. */
    method AddWeightEntry(now: nat, today: CalendarDate, displayDate: string) returns (r: Result<WeightEntry, WeightError>)
      requires Valid() && ValidDate(today)
      modifies this`weightEntries, this`showAddModal, this`newWeight, this`selectedDate
      ensures Valid()
      ensures r.Err? <==> WeightCheck(old(newWeight)).Err?
      ensures r.Err? ==> r.error == WeightCheck(old(newWeight)).error
                         && weightEntries == old(weightEntries) && showAddModal == old(showAddModal)
                         && newWeight == old(newWeight) && selectedDate == old(selectedDate)
      ensures r.Ok? ==> r.value == WeightEntry(NatToString(now), WeightCheck(old(newWeight)).value,
                                               DateString(old(selectedDate)), displayDate)
      ensures r.Ok? ==> Ascending(weightEntries, ByDate())
                        && multiset(weightEntries) == multiset(old(weightEntries)) + multiset{r.value}
                        && newWeight == "" && selectedDate == today && !showAddModal
    {
      var checked := WeightCheck(newWeight);
      if checked.Err? {
        return Err(checked.error);
      }
      var entry := WeightEntry(NatToString(now), checked.value, DateString(selectedDate), displayDate);
      weightEntries := SortedByKey(weightEntries + [entry], ByDate());
      newWeight, selectedDate, showAddModal := "", today, false;
      r := Ok(entry);
    }

    /** `deleteEntry(id)`, once the user confirms. */
    method DeleteEntry(id: string)
      requires Valid()
      modifies this`weightEntries
      ensures Valid()
      ensures weightEntries == WithoutEntry(old(weightEntries), id)
    {
      weightEntries := WithoutEntry(weightEntries, id);
    }

    /** The in-place `weightEntries.sort(...)` of the render code: newest day first. */
    method SortNewestFirst()
      requires Valid()
      modifies this`weightEntries
      ensures Valid()
      ensures Ascending(weightEntries, ByDateDescending())
      ensures multiset(weightEntries) == multiset(old(weightEntries))
    {
      var a := new WeightEntry[|weightEntries|](i requires 0 <= i < |weightEntries| reads this => weightEntries[i]);
      assert a[..] == weightEntries;
      SortByKey(a, ByDateDescending());
      assert forall e :: e in a[..] ==> e in weightEntries by {
        assert forall e :: e in a[..] ==> e in multiset(weightEntries);
      }
      weightEntries := a[..];
    }

    /** The current-weight figure: the log sorted newest first, then the first weight, or nothing
        for an empty log. */
    method CurrentWeight() returns (latest: Option<real>)
      requires Valid()
      modifies this`weightEntries
      ensures Valid()
      ensures multiset(weightEntries) == multiset(old(weightEntries))
      ensures latest.None? <==> old(weightEntries) == []
      ensures latest.Some? ==> latest == Some(weightEntries[0].weight)
                               && forall e :: e in weightEntries ==> DateKey(e.date) <= DateKey(weightEntries[0].date)
    {
      SortNewestFirst();
      if |weightEntries| == 0 {
        return None;
      }
      FirstIsLeast(weightEntries, ByDateDescending());
      latest := Some(weightEntries[0].weight);
    }

    /** `[...weightEntries].sort(...)`: a copy of the log in date order. */
    method SortedByDate() returns (sorted: seq<WeightEntry>)
      ensures Ascending(sorted, ByDate())
      ensures multiset(sorted) == multiset(weightEntries)
    {
      sorted := SortedByKey(weightEntries, ByDate());
    }

    /** `getChartData()`, with the date-ordered copy of the log it charts. */
    method GetChartData() returns (chart: ChartData, sorted: seq<WeightEntry>)
      ensures Ascending(sorted, ByDate()) && multiset(sorted) == multiset(weightEntries)
      ensures chart == ChartOf(sorted)
    {
      sorted := SortedByDate();
      chart := ChartOf(sorted);
    }

    /** `getWeightDifference()`, with the date-ordered copy of the log it reads: the change runs
        from an earliest entry to a latest one. */
    method GetWeightDifference() returns (change: Option<WeightChange>, sorted: seq<WeightEntry>)
      ensures Ascending(sorted, ByDate()) && multiset(sorted) == multiset(weightEntries)
      ensures change == DifferenceOf(sorted)
      ensures change.Some? ==> forall e :: e in weightEntries ==>
                DateKey(sorted[0].date) <= DateKey(e.date) <= DateKey(sorted[|sorted| - 1].date)
    {
      sorted := SortedByDate();
      change := DifferenceOf(sorted);
      if change.Some? {
        FirstIsLeast(sorted, ByDate());
        LastIsGreatest(sorted, ByDate());
        assert forall e :: e in weightEntries ==> e in sorted by {
          assert forall e :: e in weightEntries ==> e in multiset(sorted);
        }
      }
    }
  }
}
