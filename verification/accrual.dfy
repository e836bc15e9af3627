/**
  Replaying nights one after another into the rewards map, and the prize
  table's ordering (`topRewardedPlayers` in src/App.tsx).

  A night is given by the runner names on that night's leaderboard, in
  leaderboard order; which runs make that leaderboard is the business of the
  `Simulation` module.
 */
module Accrual {
  import opened Sorting
  import opened Prizes

  /** The rewards map after rewarding `nights` in order, starting empty. */
  function AccrueNights<Name(==,!new)>(nights: seq<seq<Name>>): Tally<Name> {
    if nights == [] then []
    else RewardNight(AccrueNights(nights[..|nights| - 1]), nights[|nights| - 1])
  }

  /** The replayed map has one entry per runner, each balanced. */
  lemma {:induction false} AccrueNightsWellFormed<Name(!new)>(nights: seq<seq<Name>>)
    ensures NamesUnique(AccrueNights(nights))
    ensures AllBalanced(AccrueNights(nights))
  {
    if nights != [] {
      AccrueNightsWellFormed(nights[..|nights| - 1]);
      RewardNightWellFormed(AccrueNights(nights[..|nights| - 1]), nights[|nights| - 1]);
    }
  }

  /** On how many of `nights` the runner `name` held place `p`. */
  function PlaceNights<Name(==)>(nights: seq<seq<Name>>, name: Name, p: Place): int {
    if nights == [] then 0
    else PlaceNights(nights[..|nights| - 1], name, p) + Indicator(HoldsPlace(nights[|nights| - 1], name, p))
  }

  /** What the nights pay in all: $0, $6, $8 or $9 each, by leaderboard size. */
  function Payout<Name>(nights: seq<seq<Name>>): int {
    if nights == [] then 0
    else
      Payout(nights[..|nights| - 1]) + Payday(|nights[|nights| - 1]|)
  }

  /** The reference sum: what `name` gains over `nights`, added up for that
      runner alone, with no map involved. */
  function Earned<Name(==)>(nights: seq<seq<Name>>, name: Name): Rewards {
    if nights == [] then NoRewards()
    else Plus(Earned(nights[..|nights| - 1], name), NightGain(nights[|nights| - 1], name))
  }

  /** Looking a runner up in the replayed map gives the reference sum; a
      runner never on a podium is absent and reads as no rewards. */
  lemma {:induction false} AccrueNightsEarned<Name(!new)>(nights: seq<seq<Name>>, name: Name)
    ensures Lookup(AccrueNights(nights), name) == Earned(nights, name)
  {
    if nights != [] {
      AccrueNightsEarned(nights[..|nights| - 1], name);
      RewardNightLookup(AccrueNights(nights[..|nights| - 1]), nights[|nights| - 1], name);
    }
  }

  /** The reference sum counts the nights on which each place was held. */
  lemma {:induction false} EarnedCounts<Name>(nights: seq<seq<Name>>, name: Name)
    ensures var r := Earned(nights, name);
            && r.firsts == PlaceNights(nights, name, 1)
            && r.seconds == PlaceNights(nights, name, 2)
            && r.thirds == PlaceNights(nights, name, 3)
  {
    if nights != [] {
      EarnedCounts(nights[..|nights| - 1], name);
    }
  }

  /** The money paid out over all runners is the sum of the nightly
      payouts. */
  lemma {:induction false} AccrueNightsTotal<Name(!new)>(nights: seq<seq<Name>>)
    ensures Total(AccrueNights(nights)) == Payout(nights)
  {
    if nights != [] {
      AccrueNightsTotal(nights[..|nights| - 1]);
      RewardNightTotal(AccrueNights(nights[..|nights| - 1]), nights[|nights| - 1]);
    }
  }

  /** The reference sum only grows as nights are added. */
  lemma {:induction false} EarnedGrows<Name>(nights: seq<seq<Name>>, k: nat, name: Name)
    requires k <= |nights|
    ensures AtMost(Earned(nights[..k], name), Earned(nights, name))
  {
    if k < |nights| {
      var m := |nights| - 1;
      assert nights[..m][..k] == nights[..k];
      EarnedGrows(nights[..m], k, name);
      NightGainGrows(Earned(nights[..m], name), nights[m], name);
      assert Earned(nights, name) == Plus(Earned(nights[..m], name), NightGain(nights[m], name));
    } else {
      assert nights[..k] == nights;
    }
  }

  /** One more night keeps every name already in the map. */
  lemma NamesGrowStep<Name(!new)>(nights: seq<seq<Name>>)
    requires nights != []
    ensures Names(AccrueNights(nights[..|nights| - 1])) <= Names(AccrueNights(nights))
  {
    RewardNightNames(AccrueNights(nights[..|nights| - 1]), nights[|nights| - 1]);
  }

  /** A runner in the map stays in it as nights are added. */
  lemma {:induction false} NameStays<Name(!new)>(nights: seq<seq<Name>>, k: nat, name: Name)
    requires k <= |nights| && name in Names(AccrueNights(nights[..k]))
    ensures name in Names(AccrueNights(nights))
  {
    if k < |nights| {
      var m := |nights| - 1;
      assert nights[..m][..k] == nights[..k];
      NameStays(nights[..m], k, name);
      NamesGrowStep(nights);
    } else {
      assert nights[..k] == nights;
    }
  }

  /** Names only accumulate as nights are added. */
  lemma NamesGrow<Name(!new)>(nights: seq<seq<Name>>, k: nat)
    requires k <= |nights|
    ensures Names(AccrueNights(nights[..k])) <= Names(AccrueNights(nights))
  {
    forall name | name in Names(AccrueNights(nights[..k]))
      ensures name in Names(AccrueNights(nights))
    {
      NameStays(nights, k, name);
    }
  }

  /** Rewarding more nights never takes anything away from anybody. */
  lemma AccrueNightsGrow<Name(!new)>(nights: seq<seq<Name>>, k: nat)
    requires k <= |nights|
    ensures Names(AccrueNights(nights[..k])) <= Names(AccrueNights(nights))
    ensures forall name :: AtMost(Lookup(AccrueNights(nights[..k]), name), Lookup(AccrueNights(nights), name))
  {
    NamesGrow(nights, k);
    forall name
      ensures AtMost(Lookup(AccrueNights(nights[..k]), name), Lookup(AccrueNights(nights), name))
    {
      AccrueNightsEarned(nights[..k], name);
      AccrueNightsEarned(nights, name);
      EarnedGrows(nights, k, name);
    }
  }

  /** The leaderboards of the first `n` days, in day order, given the
      leaderboard of each day. */
  function Schedule<Name>(board: nat -> seq<Name>, n: nat): (nights: seq<seq<Name>>)
    ensures |nights| == n
  {
    if n == 0 then [] else Schedule(board, n - 1) + [board(n - 1)]
  }

  /** The first `k` days of a longer schedule are the schedule of `k`
      days. */
  lemma {:induction false} SchedulePrefix<Name>(board: nat -> seq<Name>, n: nat, k: nat)
    requires k <= n
    ensures Schedule(board, n)[..k] == Schedule(board, k)
  {
    if k < n {
      var before := Schedule(board, n - 1);
      assert Schedule(board, n) == before + [board(n - 1)];
      assert (before + [board(n - 1)])[..k] == before[..k];
      SchedulePrefix(board, n - 1, k);
    } else {
      assert Schedule(board, n)[..k] == Schedule(board, n);
    }
  }

  /** Replaying one more day rewards that day's leaderboard on top of the
      map so far. */
  lemma ScheduleNextDay<Name(!new)>(board: nat -> seq<Name>, n: nat)
    ensures AccrueNights(Schedule(board, n + 1)) == RewardNight(AccrueNights(Schedule(board, n)), board(n))
  {
    assert Schedule(board, n + 1)[..n] == Schedule(board, n);
  }

  /** Days with empty leaderboards reward nobody. */
  lemma {:induction false} QuietNights<Name(!new)>(board: nat -> seq<Name>, n: nat)
    requires forall d: nat :: d < n ==> board(d) == []
    ensures AccrueNights(Schedule(board, n)) == []
  {
    if n > 0 {
      QuietNights(board, n - 1);
      ScheduleNextDay(board, n - 1);
      RewardNightEmpty(AccrueNights(Schedule(board, n - 1)), board(n - 1));
    }
  }

  /** The sort key of the prize table: more money first. */
  function ByDollars<Name>(e: Entry<Name>): int {
    -e.rewards.dollars
  }

  /** `[...rewardsAccrued.entries()].sort((a, b) => b[1].dollars - a[1].dollars)`. */
  function TopRewarded<Name>(t: Tally<Name>): (r: seq<Entry<Name>>)
    ensures multiset(r) == multiset(t)
    ensures forall i, j :: 0 <= i < j < |r| ==> r[i].rewards.dollars >= r[j].rewards.dollars
  {
    var r := SortBy(t, ByDollars);
    assert forall i, j :: 0 <= i < j < |r| ==> ByDollars(r[i]) <= ByDollars(r[j]);
    r
  }

  /** Runners with equal money stay in the order they entered the map. */
  lemma TopRewardedTies<Name>(t: Tally<Name>, dollars: int)
    ensures WithKey(TopRewarded(t), ByDollars, -dollars) == WithKey(t, ByDollars, -dollars)
  {
    SortStable(t, ByDollars, -dollars);
  }
}
