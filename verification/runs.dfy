/**
  Speedrun submissions and their run time as a single number of seconds.

  The submission instant is an integer (for instance Unix seconds): parsing the
  `timestamp` string in the Pacific time zone is done by a date library and is
  not part of this model.
 */
module Runs {

  /** A measured run time, hours, minutes and seconds as written in the data. */
  datatype Duration = Duration(hours: nat, minutes: nat, seconds: nat)

  /** One submission. `link` and `chosenItem` are display data only. */
  datatype Run = Run(runner: string, timestamp: int, time: Duration, link: string, chosenItem: string)

  /** The scalar by which runs are ranked, the run time in seconds; smaller
      is faster. */
  function RunToSeconds(run: Run): int {
    var Duration(hours, minutes, seconds) := run.time;
    hours * 3600 + minutes * 60 + seconds
  }

  /** The sort comparator: negative, zero or positive as `a` is faster than,
      as fast as, or slower than `b`. */
  function TimeAscending(a: Run, b: Run): (r: int)
    ensures r < 0 <==> RunToSeconds(a) < RunToSeconds(b)
    ensures r == 0 <==> RunToSeconds(a) == RunToSeconds(b)
    ensures r > 0 <==> RunToSeconds(a) > RunToSeconds(b)
  {
    RunToSeconds(a) - RunToSeconds(b)
  }

  /** Minutes and seconds below 60, as a clock shows them. */
  predicate Normalized(d: Duration) {
    d.minutes < 60 && d.seconds < 60
  }

  /** `a` reads as an earlier clock reading than `b`. */
  predicate ClockBefore(a: Duration, b: Duration) {
    || a.hours < b.hours
    || (a.hours == b.hours && a.minutes < b.minutes)
    || (a.hours == b.hours && a.minutes == b.minutes && a.seconds < b.seconds)
  }

  /** Within an hour, minutes and seconds contribute less than 3600. */
  lemma {:induction false} BelowAnHour(d: Duration)
    requires Normalized(d)
    ensures d.minutes * 60 + d.seconds < 3600
  {
    assert d.minutes * 60 <= 59 * 60;
  }

  /** For clock-normalised durations the seconds scalar orders runs exactly
      as the clock readings do, and equal scalars mean equal readings. */
  lemma {:induction false} SecondsOrderIsClockOrder(x: Run, y: Run)
    requires Normalized(x.time) && Normalized(y.time)
    ensures RunToSeconds(x) < RunToSeconds(y) <==> ClockBefore(x.time, y.time)
    ensures RunToSeconds(x) == RunToSeconds(y) <==> x.time == y.time
  {
    var a, b := x.time, y.time;
    BelowAnHour(a);
    BelowAnHour(b);
    if a.hours < b.hours {
      assert a.hours * 3600 + 3600 <= b.hours * 3600;
    } else if a.hours > b.hours {
      assert b.hours * 3600 + 3600 <= a.hours * 3600;
    } else if a.minutes < b.minutes {
      assert a.minutes * 60 + 60 <= b.minutes * 60;
    } else if a.minutes > b.minutes {
      assert b.minutes * 60 + 60 <= a.minutes * 60;
    }
  }
}
