/** Session durations as text: the `MM:SS` clock the tracking screen shows, the `^\d{1,2}:\d{2}$`
    check of the edit screen and the `split(':').map(Number)` reading of the history screen. */
module Durations {
  import opened Wrappers
  import opened Text
  import opened JsNumber

  /** `getElapsedTime()` after `ms` milliseconds: whole minutes, ':', the seconds within the minute,
      each padded to two digits. */
  function ElapsedTime(ms: nat): (r: string)
    ensures |r| >= 5 && r[|r| - 3] == ':'
    ensures AllDigits(r[..|r| - 3]) && AllDigits(r[|r| - 2..])
    ensures DigitsValue(r[..|r| - 3]) == ms / 60000
    ensures DigitsValue(r[|r| - 2..]) == ms % 60000 / 1000 < 60
    ensures |r| == 5 <==> ms / 60000 < 100
  {
    var minutes, seconds := TwoDigits(ms / 60000), TwoDigits(ms % 60000 / 1000);
    TwoDigitsValue(ms / 60000);
    TwoDigitsValue(ms % 60000 / 1000);
    var r := minutes + ":" + seconds;
    assert r[..|r| - 3] == minutes;
    assert r[|r| - 2..] == seconds;
    r
  }

  /** `/^\d{1,2}:\d{2}$/.test(s)`: one or two digits, a colon, exactly two digits. */
  predicate IsDurationFormat(s: string)
  {
    4 <= |s| <= 5 && s[|s| - 3] == ':' && AllDigits(s[..|s| - 3]) && AllDigits(s[|s| - 2..])
  }

  /** `const [minutes, seconds] = d.split(':').map(Number); minutes * 60 + seconds`;
      a missing part or a part that is not a number gives NaN (`None`). */
  function DurationSeconds(d: string): Option<real>
  {
    var parts := Split(d, ':');
    if |parts| < 2 then None
    else match ToNumber(parts[0])
      case None => None
      case Some(m) =>
        match ToNumber(parts[1])
        case None => None
        case Some(s) => Some(m * 60.0 + s)
  }

  /** The clock shows a well-formed duration exactly while the session is under 100 minutes. */
  lemma ElapsedTimeFormat(ms: nat)
    ensures IsDurationFormat(ElapsedTime(ms)) <==> ms < 6000000
  {
    assert ms / 60000 < 100 <==> ms < 6000000;
  }

  /** A duration that passes the format check reads back as minutes times 60 plus seconds. */
  lemma FormattedDurationSeconds(d: string)
    requires IsDurationFormat(d)
    ensures DurationSeconds(d) == Some((DigitsValue(d[..|d| - 3]) * 60 + DigitsValue(d[|d| - 2..])) as real)
  {
    SplitDuration(d);
    DigitsParse(d[..|d| - 3]);
    DigitsParse(d[|d| - 2..]);
  }

  /** A well-formed duration splits into its minutes and its seconds. */
  lemma SplitDuration(d: string)
    requires IsDurationFormat(d)
    ensures Split(d, ':') == [d[..|d| - 3], d[|d| - 2..]]
  {
    var m, s := d[..|d| - 3], d[|d| - 2..];
    assert d == m + [':'] + s;
    assert ':' !in m by {
      assert forall k :: 0 <= k < |m| ==> IsDigit(m[k]);
    }
    assert ':' !in s by {
      assert forall k :: 0 <= k < |s| ==> IsDigit(s[k]);
    }
    SplitAtFirst(m, s, ':');
    SplitNoSeparator(s, ':');
  }

  /** Reading the clock back gives the elapsed whole seconds. */
  lemma ElapsedTimeSeconds(ms: nat)
    requires ms < 6000000
    ensures DurationSeconds(ElapsedTime(ms)) == Some((ms / 1000) as real)
  {
    ElapsedTimeFormat(ms);
    FormattedDurationSeconds(ElapsedTime(ms));
    assert ms / 60000 * 60 + ms % 60000 / 1000 == ms / 1000;
  }

  /** Text without a colon has no seconds part, so it reads as NaN. */
  lemma NoColonIsNaN(d: string)
    requires ':' !in d
    ensures DurationSeconds(d) == None
  {
    SplitNoSeparator(d, ':');
  }
}
