/**
  The day loop of the page: every midnight from the competition start up to,
  but not including, today's midnight, the runs submitted strictly before that
  midnight are ranked and the top three are rewarded.

  Midnights are integer instants given by a strictly increasing function:
  `midnights(0)` is the competition start and `midnights(i + 1)` is the
  midnight after `midnights(i)`. How the page computes them (a date library
  stepping one calendar day at a time in the Pacific time zone) is not part of
  this model; `today` is the instant of today's midnight.
 */
module Simulation {
  import opened Runs
  import opened Deduplication
  import opened Ranking
  import opened Prizes
  import opened Accrual

  /** The day starts are strictly increasing. */
  ghost predicate Increasing(midnights: nat -> int) {
    forall i: nat :: midnights(i) < midnights(i + 1)
  }

  /** How many days the loop replays starting at day `i`: the midnights from
      `midnights(i)` on that come before `today`. */
  function DaysFrom(midnights: nat -> int, today: int, i: nat): (n: nat)
    requires Increasing(midnights)
    ensures forall k: nat :: i <= k < i + n ==> midnights(k) < today
    ensures today <= midnights(i + n)
    decreases today - midnights(i)
  {
    if midnights(i) < today then
      assert midnights(i) < midnights(i + 1);
      1 + DaysFrom(midnights, today, i + 1)
    else 0
  }

  /** The number of days the loop replays. */
  function DaysBefore(midnights: nat -> int, today: int): (n: nat)
    requires Increasing(midnights)
    ensures forall k: nat :: k < n ==> midnights(k) < today
    ensures today <= midnights(n)
  {
    DaysFrom(midnights, today, 0)
  }

  /** Later midnights are later instants. */
  lemma {:induction false} MidnightsOrdered(midnights: nat -> int, i: nat, j: nat)
    requires Increasing(midnights) && i <= j
    ensures midnights(i) <= midnights(j)
  {
    if i < j {
      MidnightsOrdered(midnights, i, j - 1);
      assert midnights(j - 1) < midnights(j);
    }
  }

  /** The day count is the one `n` with every earlier midnight before `today`
      and midnight `n` not. */
  lemma DaysBeforeIs(midnights: nat -> int, today: int, n: nat)
    requires Increasing(midnights)
    requires forall k: nat :: k < n ==> midnights(k) < today
    requires today <= midnights(n)
    ensures DaysBefore(midnights, today) == n
  {
    var d := DaysBefore(midnights, today);
    if d < n {
      assert false;
    }
    if n < d {
      assert false;
    }
  }

  /** A later `today` replays at least as many days. */
  lemma DaysBeforeGrows(midnights: nat -> int, today: int, later: int)
    requires Increasing(midnights) && today <= later
    ensures DaysBefore(midnights, today) <= DaysBefore(midnights, later)
  {
    var d := DaysBefore(midnights, today);
    var e := DaysBefore(midnights, later);
    if e < d {
      assert false;
    }
  }

  /** The runner names of a leaderboard, in order. */
  function BoardNames(board: seq<Run>): (names: seq<string>)
    ensures |names| == |board|
    ensures forall i :: 0 <= i < |board| ==> names[i] == board[i].runner
  {
    seq(|board|, i requires 0 <= i < |board| => board[i].runner)
  }

  /** The leaderboard of the day starting at `midnight`, by runner name:
      runs strictly before the midnight, sorted, one per runner. */
  function NightBoard(runs: seq<Run>, midnight: int): seq<string> {
    BoardNames(DayBoard(runs, midnight))
  }

  /** A night's leaderboard lists each runner at most once, so its three
      places go to three different runners. */
  lemma NightBoardDistinct(runs: seq<Run>, midnight: int)
    ensures DistinctNames(NightBoard(runs, midnight))
  {
    var board := DayBoard(runs, midnight);
    assert RunnersUnique(board);
  }

  /** No runner gets two places on one night. */
  lemma OnePlaceEachNight(runs: seq<Run>, midnight: int, name: string)
    ensures var g := NightGain(NightBoard(runs, midnight), name);
            g.firsts + g.seconds + g.thirds <= 1
  {
    NightBoardDistinct(runs, midnight);
    OnePlacePerNight(NightBoard(runs, midnight), name);
  }

  /** Each day's leaderboard, by day number. */
  function Boards(runs: seq<Run>, midnights: nat -> int): nat -> seq<string> {
    (day: nat) => NightBoard(runs, midnights(day))
  }

  /** `rewardsAccrued` once the day loop has run up to `today`. */
  function Simulate(runs: seq<Run>, midnights: nat -> int, today: int): Tally<string>
    requires Increasing(midnights)
  {
    AccrueNights(Schedule(Boards(runs, midnights), DaysBefore(midnights, today)))
  }

  /** The map has one entry per runner, and each runner's money is what
      their days on the podium are worth. */
  lemma SimulateWellFormed(runs: seq<Run>, midnights: nat -> int, today: int)
    requires Increasing(midnights)
    ensures NamesUnique(Simulate(runs, midnights, today))
    ensures AllBalanced(Simulate(runs, midnights, today))
  {
    AccrueNightsWellFormed(Schedule(Boards(runs, midnights), DaysBefore(midnights, today)));
  }

  /** Before the competition's first midnight has passed nothing is
      rewarded. */
  lemma NoRewardsBeforeStart(runs: seq<Run>, midnights: nat -> int, today: int)
    requires Increasing(midnights) && today <= midnights(0)
    ensures Simulate(runs, midnights, today) == []
  {
    DaysBeforeIs(midnights, today, 0);
  }

  /** Reaching the next midnight rewards exactly one more night: the one
      starting at midnight `n`, ranked on the runs strictly before it. */
  lemma SimulateNextDay(runs: seq<Run>, midnights: nat -> int, n: nat)
    requires Increasing(midnights)
    ensures Simulate(runs, midnights, midnights(n + 1))
         == RewardNight(Simulate(runs, midnights, midnights(n)), NightBoard(runs, midnights(n)))
  {
    forall k: nat | k < n
      ensures midnights(k) < midnights(n)
    {
      MidnightsOrdered(midnights, k + 1, n);
    }
    DaysBeforeIs(midnights, midnights(n), n);
    forall k: nat | k < n + 1
      ensures midnights(k) < midnights(n + 1)
    {
      MidnightsOrdered(midnights, k, n);
    }
    DaysBeforeIs(midnights, midnights(n + 1), n + 1);
    ScheduleNextDay(Boards(runs, midnights), n);
  }

  /** Waiting longer never takes rewards away: every runner in the map stays
      in it, and nobody's money or day counts go down. */
  lemma SimulateGrows(runs: seq<Run>, midnights: nat -> int, today: int, later: int)
    requires Increasing(midnights) && today <= later
    ensures Names(Simulate(runs, midnights, today)) <= Names(Simulate(runs, midnights, later))
    ensures forall name :: AtMost(Lookup(Simulate(runs, midnights, today), name),
                                  Lookup(Simulate(runs, midnights, later), name))
  {
    var d := DaysBefore(midnights, today);
    var e := DaysBefore(midnights, later);
    DaysBeforeGrows(midnights, today, later);
    SchedulePrefix(Boards(runs, midnights), e, d);
    AccrueNightsGrow(Schedule(Boards(runs, midnights), e), d);
  }

  /** With no runs, nobody is ever rewarded. */
  lemma NoRunsNoRewards(midnights: nat -> int, today: int)
    requires Increasing(midnights)
    ensures Simulate([], midnights, today) == []
  {
    forall d: nat
      ensures Boards([], midnights)(d) == []
    {
      assert |DayBoard([], midnights(d))| == 0;
    }
    QuietNights(Boards([], midnights), DaysBefore(midnights, today));
  }

  /** The loop's step: day `day`'s leaderboard rewarded on top of the
      first `day` days gives the first `day + 1` days. */
  lemma NightStep(runs: seq<Run>, midnights: nat -> int, day: nat)
    ensures AccrueNights(Schedule(Boards(runs, midnights), day + 1))
         == RewardNight(AccrueNights(Schedule(Boards(runs, midnights), day)),
                        BoardNames(Leaderboard(RunsBefore(runs, midnights(day)))))
  {
    ScheduleNextDay(Boards(runs, midnights), day);
  }

  /** `for (const place of [1, 2, 3])`: each place the leaderboard has goes
      to the runner holding it. The map gains exactly the podium, and each
      runner gains what their place that night is worth. */
  method RewardDay(tally: Tally<string>, board: seq<Run>) returns (rewards: Tally<string>)
    ensures rewards == RewardNight(tally, BoardNames(board))
    ensures Names(rewards) == Names(tally) + Podium(BoardNames(board))
    ensures forall name :: Lookup(rewards, name) == Plus(Lookup(tally, name), NightGain(BoardNames(board), name))
  {
    ghost var names := BoardNames(board);
    rewards := tally;
    var place := 1;
    while place <= 3
      invariant 1 <= place <= 4
      invariant rewards == AwardPlaces(tally, names, place - 1)
    {
      if |board| >= place {
        rewards := Accrue(rewards, board[place - 1].runner, place);
      }
      place := place + 1;
    }
    RewardNightNames(tally, names);
    forall name
      ensures Lookup(rewards, name) == Plus(Lookup(tally, name), NightGain(names, name))
    {
      RewardNightLookup(tally, names, name);
    }
  }

  /** The day loop as the page writes it: `virtualToday` steps from the
      competition start while it is before today; each day the runs strictly
      before it are sorted and deduplicated, and places 1, 2 and 3 go to the
      first three when they exist. */
  method SimulateDays(runs: seq<Run>, midnights: nat -> int, today: int) returns (rewards: Tally<string>)
    requires Increasing(midnights)
    ensures rewards == Simulate(runs, midnights, today)
    ensures NamesUnique(rewards) && AllBalanced(rewards)
  {
    rewards := [];
    var day: nat := 0;
    while midnights(day) < today
      invariant forall k: nat :: k < day ==> midnights(k) < today
      invariant rewards == AccrueNights(Schedule(Boards(runs, midnights), day))
      decreases today - midnights(day)
    {
      assert midnights(day) < midnights(day + 1);
      var before := RunsBefore(runs, midnights(day));
      var board := Leaderboard(before);
      NightStep(runs, midnights, day);
      rewards := RewardDay(rewards, board);
      day := day + 1;
    }
    DaysBeforeIs(midnights, today, day);
    AccrueNightsWellFormed(Schedule(Boards(runs, midnights), day));
  }
}
