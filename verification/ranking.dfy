/**
  The leaderboard: runs sorted by run time with a stable sort, then one run per
  runner, so each runner appears once with their fastest run, fastest first.
 */
module Ranking {
  import opened Runs
  import opened Sorting
  import opened Deduplication

  /** `[...runs].sort(timeAscending)`. */
  function SortByTime(runs: seq<Run>): (r: seq<Run>)
    ensures SortedBy(r, RunToSeconds)
    ensures multiset(r) == multiset(runs)
  {
    SortBy(runs, RunToSeconds)
  }

  /** Runners are the same in two lists holding the same runs. */
  lemma RunnersIncluded(a: seq<Run>, b: seq<Run>)
    requires multiset(a) <= multiset(b)
    ensures Runners(a) <= Runners(b)
  {
    forall name | name in Runners(a)
      ensures name in Runners(b)
    {
      var i :| 0 <= i < |a| && a[i].runner == name;
      assert a[i] in multiset(b);
      var j :| 0 <= j < |b| && b[j] == a[i];
    }
  }

  /** `deduplicate(runs.sort(timeAscending))`: one run per runner, and every
      runner of the input is on it. */
  function Leaderboard(runs: seq<Run>): (r: seq<Run>)
    ensures RunnersUnique(r)
    ensures Runners(r) == Runners(runs)
    ensures |r| <= |runs|
  {
    var sorted := SortByTime(runs);
    RunnersIncluded(sorted, runs);
    RunnersIncluded(runs, sorted);
    Dedup(sorted)
  }

  /** Every run on the leaderboard is one of the input runs. */
  lemma LeaderboardFromInput(runs: seq<Run>)
    ensures forall x :: x in Leaderboard(runs) ==> x in runs
  {
    var sorted := SortByTime(runs);
    var lb := Leaderboard(runs);
    DedupFirstOccurrences(sorted);
    forall x | x in lb
      ensures x in runs
    {
      var i :| 0 <= i < |lb| && lb[i] == x;
      assert x == sorted[FirstIndexOf(sorted, x.runner)];
      assert x in multiset(runs);
    }
  }

  /** The leaderboard is ordered fastest first, in the comparator's terms
      too. */
  lemma LeaderboardSorted(runs: seq<Run>)
    ensures forall i, j :: 0 <= i < j < |Leaderboard(runs)| ==>
              && RunToSeconds(Leaderboard(runs)[i]) <= RunToSeconds(Leaderboard(runs)[j])
              && TimeAscending(Leaderboard(runs)[i], Leaderboard(runs)[j]) <= 0
  {
    var sorted := SortByTime(runs);
    var lb := Leaderboard(runs);
    DedupFirstOccurrences(sorted);
    forall i, j | 0 <= i < j < |lb|
      ensures RunToSeconds(lb[i]) <= RunToSeconds(lb[j])
    {
      var fi := FirstIndexOf(sorted, lb[i].runner);
      var fj := FirstIndexOf(sorted, lb[j].runner);
      assert fi < fj;
      assert lb[i] == sorted[fi] && lb[j] == sorted[fj];
    }
  }

  /** One instance of `LeaderboardKeepsFastest`. */
  lemma KeepsFastestAt(runs: seq<Run>, i: nat, k: nat)
    requires i < |Leaderboard(runs)| && k < |runs| && runs[k].runner == Leaderboard(runs)[i].runner
    ensures RunToSeconds(Leaderboard(runs)[i]) <= RunToSeconds(runs[k])
  {
    var sorted := SortByTime(runs);
    var lb := Dedup(sorted);
    assert Leaderboard(runs) == lb;
    DedupAt(sorted, i);
    var x := lb[i];
    SortByHas(runs, RunToSeconds, k);
    var j :| 0 <= j < |sorted| && sorted[j] == runs[k];
    FirstIndexAtMost(sorted, x.runner, j);
    var f := FirstIndexOf(sorted, x.runner);
    if f < j {
      assert RunToSeconds(sorted[f]) <= RunToSeconds(sorted[j]);
    }
  }

  /** The run kept for a runner is at least as fast as every run of theirs,
      so every discarded run is no faster. */
  lemma LeaderboardKeepsFastest(runs: seq<Run>)
    ensures forall i, k ::
              (0 <= i < |Leaderboard(runs)| && 0 <= k < |runs| &&
               runs[k].runner == Leaderboard(runs)[i].runner) ==>
              RunToSeconds(Leaderboard(runs)[i]) <= RunToSeconds(runs[k])
  {
    forall i, k | 0 <= i < |Leaderboard(runs)| && 0 <= k < |runs| && runs[k].runner == Leaderboard(runs)[i].runner
      ensures RunToSeconds(Leaderboard(runs)[i]) <= RunToSeconds(runs[k])
    {
      KeepsFastestAt(runs, i, k);
    }
  }

  /** Ties: among a runner's runs with the winning time, the one listed
      first in the input is the one kept, since the sort is stable. */
  lemma LeaderboardTieBreak(runs: seq<Run>, i: nat)
    requires i < |Leaderboard(runs)|
    ensures var x := Leaderboard(runs)[i];
            var tied := WithKey(runs, RunToSeconds, RunToSeconds(x));
            x.runner in Runners(tied) && tied[FirstIndexOf(tied, x.runner)] == x
  {
    var sorted := SortByTime(runs);
    var lb := Leaderboard(runs);
    DedupFirstOccurrences(sorted);
    var x := lb[i];
    var m := RunToSeconds(x);
    var f := FirstIndexOf(sorted, x.runner);
    assert x == sorted[f];
    WithKeyAt(sorted, RunToSeconds, m, f);
    var w := WithKey(sorted, RunToSeconds, m);
    var g := |WithKey(sorted[..f], RunToSeconds, m)|;
    forall k | 0 <= k < g
      ensures w[k].runner != x.runner
    {
      assert w[k] in WithKey(sorted[..f], RunToSeconds, m);
      assert w[k] in sorted[..f];
    }
    FirstIndexUnique(w, x.runner, g);
    SortStable(runs, RunToSeconds, m);
  }

  /** A leaderboard row: the run and its place, counted from 1. */
  datatype Standing = Standing(run: Run, place: nat)

  /** The rows for `kept`, numbered from 1 in order. */
  function Numbered(kept: seq<Run>): (rows: seq<Standing>)
    ensures |rows| == |kept|
    ensures forall k :: 0 <= k < |rows| ==> rows[k] == Standing(kept[k], k + 1)
  {
    seq(|kept|, k requires 0 <= k < |kept| => Standing(kept[k], k + 1))
  }

  /** Numbering one more run gives it the next place. */
  lemma NumberedAppend(kept: seq<Run>, run: Run)
    ensures Numbered(kept + [run]) == Numbered(kept) + [Standing(run, |kept| + 1)]
  {
    var a := Numbered(kept + [run]);
    var b := Numbered(kept) + [Standing(run, |kept| + 1)];
    assert |a| == |b|;
    forall k | 0 <= k < |a|
      ensures a[k] == b[k]
    {
      if k < |kept| {
        assert (kept + [run])[k] == kept[k];
      }
    }
  }

  /** The leaderboard loop of the page: sort, skip runners already included,
      and number the kept runs 1, 2, 3, ... */
  method BuildLeaderboard(runs: seq<Run>) returns (board: seq<Standing>)
    ensures |board| == |Leaderboard(runs)|
    ensures forall i :: 0 <= i < |board| ==>
              board[i].run == Leaderboard(runs)[i] && board[i].place == i + 1
  {
    var sorted := SortByTime(runs);
    var included: set<string> := {};
    var place := 0;
    board := [];
    ghost var kept: seq<Run> := [];
    var i := 0;
    while i < |sorted|
      invariant 0 <= i <= |sorted|
      invariant kept == Dedup(sorted[..i])
      invariant included == Runners(kept)
      invariant place == |kept|
      invariant board == Numbered(kept)
    {
      var run := sorted[i];
      DedupStep(sorted, i);
      if run.runner !in included {
        RunnersAppend(kept, run);
        NumberedAppend(kept, run);
        included := included + {run.runner};
        place := place + 1;
        board := board + [Standing(run, place)];
        kept := kept + [run];
      }
      i := i + 1;
    }
    assert sorted[..i] == sorted;
  }

  /** The runs submitted strictly before `cutoff`, in list order. */
  function RunsBefore(runs: seq<Run>, cutoff: int): (r: seq<Run>)
    ensures forall x :: multiset(r)[x] == if x.timestamp < cutoff then multiset(runs)[x] else 0
    ensures |r| <= |runs|
  {
    if runs == [] then []
    else
      assert runs == [runs[0]] + runs[1..];
      (if runs[0].timestamp < cutoff then [runs[0]] else []) + RunsBefore(runs[1..], cutoff)
  }

  /** Filtering a non-empty list: its first run, if early enough, then the
      rest filtered. */
  lemma RunsBeforeCons(runs: seq<Run>, cutoff: int)
    requires runs != []
    ensures RunsBefore(runs, cutoff)
         == (if runs[0].timestamp < cutoff then [runs[0]] else []) + RunsBefore(runs[1..], cutoff)
  {
  }

  lemma ConcatAssoc<T>(x: seq<T>, y: seq<T>, z: seq<T>)
    ensures x + (y + z) == (x + y) + z
  {
  }

  /** The filter keeps list order: filtering two lists one after the other
      gives the filtered lists one after the other. */
  lemma {:induction false} RunsBeforeAppend(a: seq<Run>, b: seq<Run>, cutoff: int)
    ensures RunsBefore(a + b, cutoff) == RunsBefore(a, cutoff) + RunsBefore(b, cutoff)
  {
    if a == [] {
      assert a + b == b;
    } else {
      assert (a + b)[0] == a[0];
      assert (a + b)[1..] == a[1..] + b;
      RunsBeforeCons(a + b, cutoff);
      RunsBeforeCons(a, cutoff);
      RunsBeforeAppend(a[1..], b, cutoff);
      var head := if a[0].timestamp < cutoff then [a[0]] else [];
      ConcatAssoc(head, RunsBefore(a[1..], cutoff), RunsBefore(b, cutoff));
    }
  }

  /** The leaderboard as it stood at `cutoff`. */
  function DayBoard(runs: seq<Run>, cutoff: int): seq<Run> {
    Leaderboard(RunsBefore(runs, cutoff))
  }

  /** Membership in `RunsBefore`: the strict cutoff. */
  lemma RunsBeforeMembers(runs: seq<Run>, cutoff: int)
    ensures forall x :: x in RunsBefore(runs, cutoff) <==> x in runs && x.timestamp < cutoff
  {
    var before := RunsBefore(runs, cutoff);
    forall x
      ensures x in before <==> x in runs && x.timestamp < cutoff
    {
      assert x in before <==> multiset(before)[x] > 0;
      assert x in runs <==> multiset(runs)[x] > 0;
    }
  }

  /** The runners with a run strictly before `cutoff`. */
  function EarlyRunners(runs: seq<Run>, cutoff: int): set<string> {
    set k | 0 <= k < |runs| && runs[k].timestamp < cutoff :: runs[k].runner
  }

  /** The runners of `RunsBefore` are those who submitted before the
      cutoff. */
  lemma RunsBeforeRunners(runs: seq<Run>, cutoff: int)
    ensures Runners(RunsBefore(runs, cutoff)) == EarlyRunners(runs, cutoff)
  {
    var before := RunsBefore(runs, cutoff);
    RunsBeforeMembers(runs, cutoff);
    forall name | name in Runners(before)
      ensures name in EarlyRunners(runs, cutoff)
    {
      var i :| 0 <= i < |before| && before[i].runner == name;
      assert before[i] in before;
      var k :| 0 <= k < |runs| && runs[k] == before[i];
    }
    forall name | name in EarlyRunners(runs, cutoff)
      ensures name in Runners(before)
    {
      var k :| 0 <= k < |runs| && runs[k].timestamp < cutoff && runs[k].runner == name;
      assert runs[k] in runs;
      var i :| 0 <= i < |before| && before[i] == runs[k];
    }
  }

  /** A day's leaderboard counts exactly the runners who submitted strictly
      before the cutoff, each with a run submitted strictly before it. */
  lemma DayBoardBeforeCutoff(runs: seq<Run>, cutoff: int)
    ensures forall x :: x in DayBoard(runs, cutoff) ==> x in runs && x.timestamp < cutoff
    ensures Runners(DayBoard(runs, cutoff)) == EarlyRunners(runs, cutoff)
  {
    LeaderboardFromInput(RunsBefore(runs, cutoff));
    RunsBeforeMembers(runs, cutoff);
    RunsBeforeRunners(runs, cutoff);
  }
}
