# Speedrun leaderboard and nightly rewards, in Dafny

This project models the ranking and reward logic of a small competition page
(`src/App.tsx`). Runners submit timed runs. The page does two things with them:

- It shows a leaderboard. The runs are sorted by run time with a stable sort,
  and each runner's first run in that order is kept. That is their fastest run,
  and ties go to the run listed first.
- It replays the competition one day at a time, from the competition start up
  to today's midnight. At each midnight it ranks the runs submitted strictly
  before that midnight. First place earns $6, second $2 and third $1, and each
  place counts one first-, second- or third-place day. Finally it lists the
  runners by money, most first.

The modules follow that pipeline:

- `runs.dfy` (`Runs`): runs, durations and the seconds scalar they are ranked
  by (`runToSeconds`, `timeAscending`).
- `sorting.dfy` (`Sorting`): the stable sort by an integer key, which both
  sorts in the page use. It is defined once, as an insertion sort, and proved
  sorted, a permutation and stable.
- `dedup.dfy` (`Deduplication`): `deduplicate`, as a function and as the loop
  the page writes.
- `ranking.dfy` (`Ranking`): the leaderboard (sort, then deduplicate), the
  page's numbered leaderboard loop, and the strict cutoff filter.
- `rewards.dfy` (`Prizes`): `accrueReward`, and one night's three places
  awarded to the rewards map.
- `accrual.dfy` (`Accrual`): many nights replayed in order, an independent
  per-runner reference sum, and the prize table's sort.
- `simulation.dfy` (`Simulation`): the day loop, driven by a strictly
  increasing sequence of midnights.
- `scenario.dfy` (`Scenario`): the worked example of the competition rules.
  Alice runs 2:00:00 on day one, and Bob and Carol run 1:30:00 and 1:45:00 on
  day two. After three days Alice has $7, Bob $6 and Carol $2.

The page keeps rewards in a JavaScript `Map`, whose entries iterate in
insertion order. The prize table is a stable sort of those entries, so runners
with equal money appear in the order they were first rewarded. The model
therefore represents the map as a list of entries with distinct runner names,
in insertion order (`Prizes.Tally`), not as an unordered Dafny `map`. Lookups of
absent runners read as a zero tally, which is how the page initialises a runner
on their first reward.

Time is modelled with integers. A run's submission instant is an `int`. The day
loop's midnights are a strictly increasing function `midnights: nat -> int`,
with `midnights(0)` the competition start. `today` is the instant of today's
midnight. How the page computes them is left to the date library (see Left out).

## Model

| member | source | states |
|---|---|---|
| Runs.TimeAscending | src/App.tsx:140-142 | The comparator is negative, zero or positive exactly when the first run is faster than, as fast as, or slower than the second. |
| Runs.SecondsOrderIsClockOrder | src/App.tsx:30-33 | For run times with minutes and seconds below 60, the seconds scalar `RunToSeconds` orders runs exactly as their clock readings do, and equal scalars mean equal readings. |
| Sorting.SortBy | src/App.tsx:185 | The stable sort's result is ordered by the key and is a permutation of its input. |
| Sorting.SortStable | src/App.tsx:185 | For every key value, the elements with that key keep their input order. |
| Deduplication.Dedup | src/App.tsx:144-155 | The result is no longer than the input, has each runner at most once, and has exactly the input's runners. |
| Deduplication.DedupFirstOccurrences | src/App.tsx:144-155 | The run kept for each runner is that runner's first run, and the kept runs are in the order of those first runs. |
| Deduplication.DedupOfUnique | src/App.tsx:144-155 | A list whose runners are already distinct is returned unchanged. |
| Deduplication.DedupIdempotent | src/App.tsx:144-155 | Deduplicating twice is the same as deduplicating once. |
| Deduplication.DedupKeepsFirstOccurrence | src/App.tsx:144-155 | Every runner of the input appears in the output with their first run. |
| Deduplication.DedupIsSubsequence | src/App.tsx:144-155 | The output is the input with some runs dropped, the rest in their original order. |
| Deduplication.Deduplicate | src/App.tsx:144-155 | The loop over a set of included runners computes the deduplicated list: distinct runners, every runner present, each with their first run. |
| Ranking.SortByTime | src/App.tsx:185 | Sorting the runs by time gives a permutation of them, ordered by run time in seconds. |
| Ranking.Leaderboard | src/App.tsx:185-200 | The leaderboard lists each runner at most once, lists every runner who has a run, and is no longer than the runs. |
| Ranking.LeaderboardFromInput | src/App.tsx:185-200 | Every run on the leaderboard is one of the submitted runs. |
| Ranking.LeaderboardSorted | src/App.tsx:185-200 | The leaderboard is ordered fastest first, also in terms of the comparator. |
| Ranking.LeaderboardKeepsFastest | src/App.tsx:185-200 | The run shown for a runner is no slower than any of that runner's runs. |
| Ranking.LeaderboardTieBreak | src/App.tsx:185-200 | Among a runner's runs tied at the winning time, the one listed first in the input is shown. |
| Ranking.BuildLeaderboard | src/App.tsx:184-200 | The page's loop numbers the leaderboard runs 1, 2, 3, ... in leaderboard order. |
| Ranking.RunsBefore | src/App.tsx:231 | The filter keeps every run submitted strictly before the cutoff, with its multiplicity, and drops every other run. |
| Ranking.RunsBeforeAppend | src/App.tsx:231 | The filter keeps list order: filtering two lists one after the other gives the two filtered lists one after the other. |
| Ranking.RunsBeforeRunners | src/App.tsx:231 | The runners left after filtering are exactly those with a run strictly before the cutoff. |
| Ranking.DayBoardBeforeCutoff | src/App.tsx:231-232 | A day's leaderboard (`DayBoard`) contains only runs from strictly before the cutoff, and includes every runner who submitted before it. |
| Prizes.Credit | src/App.tsx:209-223 | Crediting a place adds that place's prize, and a balanced tally stays balanced. |
| Prizes.AccrueNames | src/App.tsx:204-208 | Rewarding a runner (`Accrue`) adds that runner and nobody else to the map, keeps names distinct, and keeps every tally balanced. |
| Prizes.AccrueLookup | src/App.tsx:204-224 | The rewarded runner gains the place's prize, counting from zero if absent. Every other runner's tally is unchanged. |
| Prizes.AccrueTotal | src/App.tsx:204-224 | The money in the map grows by exactly the place's prize. |
| Prizes.AccrueOrder | src/App.tsx:204-208 | A new runner is appended with exactly one place's prize. An existing runner keeps their position in insertion order. |
| Prizes.RewardNightNames | src/App.tsx:233-237 | After one night the map has exactly its earlier runners plus the podium (leaderboard places 1 to 3 that exist). |
| Prizes.RewardNightWellFormed | src/App.tsx:233-237 | A night keeps runner names distinct and every tally balanced. |
| Prizes.RewardNightTotal | src/App.tsx:233-237 | A night pays out $0, $6, $8 or $9 in all, for a leaderboard of 0, 1, 2 or at least 3 runners. |
| Prizes.RewardNightEmpty | src/App.tsx:233-237 | A night with an empty leaderboard leaves the map unchanged. |
| Prizes.RewardNightLookup | src/App.tsx:233-237 | Over one night (`RewardNight`: the loop `AwardPlaces` of three `AwardPlace` steps), each runner gains exactly what their places that night are worth: indices 0, 1 and 2 hold places 1, 2 and 3. |
| Prizes.OnePlacePerNight | src/App.tsx:233-237 | On a leaderboard with distinct runners, nobody takes two places in one night. |
| Prizes.NightGainOfPlace | src/App.tsx:233-237 | On a leaderboard with distinct runners, the runner holding place 1, 2 or 3 gains exactly that place's prize (`NightGain`). |
| Prizes.NightGainOffPodium | src/App.tsx:233-237 | A runner outside the first three places gains nothing that night. |
| Accrual.AccrueNightsWellFormed | src/App.tsx:229-238 | After any number of nights replayed in order (`AccrueNights`), the map has distinct names and balanced tallies. |
| Accrual.AccrueNightsEarned | src/App.tsx:229-238 | Looking a runner up in the replayed map (`AccrueNights`) gives the reference sum of their nightly gains (`Earned`), which is computed without any map. |
| Accrual.EarnedCounts | src/App.tsx:233-237 | A runner's first-, second- and third-place day counts are the numbers of nights they held each place. |
| Accrual.AccrueNightsTotal | src/App.tsx:229-238 | The money in the map is the sum of the nightly payouts. |
| Accrual.EarnedGrows | src/App.tsx:229-238 | A runner's summed nightly gains never decrease as nights are added. |
| Accrual.AccrueNightsGrow | src/App.tsx:229-238 | Replaying more nights never removes a runner and never lowers anybody's money or day counts. |
| Accrual.QuietNights | src/App.tsx:229-238 | Nights whose leaderboards are all empty reward nobody. |
| Accrual.TopRewarded | src/App.tsx:240 | The prize table is a permutation of the map's entries, in non-increasing order of money. |
| Accrual.TopRewardedTies | src/App.tsx:240 | Runners with equal money keep the map's insertion order. |
| Simulation.DaysBefore | src/App.tsx:229 | The loop replays exactly the days whose midnight is before today. |
| Simulation.DaysBeforeIs | src/App.tsx:229 | That day count is the unique number with every earlier midnight before today and the next one not. |
| Simulation.NightBoardDistinct | src/App.tsx:231-235 | The runner names read off a night's leaderboard (`BoardNames`) are distinct, so its three places go to three different runners. |
| Simulation.OnePlaceEachNight | src/App.tsx:231-237 | On a real night's leaderboard nobody gains more than one place. |
| Simulation.SimulateWellFormed | src/App.tsx:228-238 | The map after the day loop has run up to today (`Simulate`) has distinct runners, each with a balanced tally. |
| Simulation.NoRewardsBeforeStart | src/App.tsx:228-229 | If today is not after the competition start, nothing is rewarded. |
| Simulation.SimulateNextDay | src/App.tsx:229-237 | Moving today forward one midnight, `Simulate` rewards exactly one more night, ranked on the runs strictly before that midnight. |
| Simulation.SimulateGrows | src/App.tsx:228-238 | `Simulate` with a later today never takes rewards away: every runner stays, and nobody's money or day counts go down. |
| Simulation.NoRunsNoRewards | src/App.tsx:228-238 | Without runs nobody is ever rewarded. |
| Simulation.RewardDay | src/App.tsx:233-237 | The loop over places 1, 2 and 3 adds exactly the podium runners to the map, and each runner gains exactly what their place that night is worth. |
| Simulation.SimulateDays | src/App.tsx:228-238 | The day loop as written computes the simulated map, which has distinct runners and balanced tallies. |
| Scenario.ScenarioNights | src/App.tsx:229-232 | In the worked example, the three nights' leaderboards are empty, then Alice, then Bob, Carol and Alice. |
| Scenario.ScenarioRewards | src/App.tsx:228-238 | In the worked example, after three days Alice has $7 (one first, one third), Bob $6 (one first) and Carol $2 (one second). |

## Left out

- The rendering of the page, with its tables and bars (`src/App.tsx:106-138`, `311-451`): it is display only.
- `CountDown` (`src/App.tsx:157-181`): a live clock display with no state the rewards depend on.
- The date library (`src/App.tsx:6`, `101-104`, `228-229`, `245`, `258`):
  - Parsing `timestamp` strings in the Pacific time zone and stepping one
    calendar day at a time are not modelled.
  - Submission instants are integers, and midnights are a strictly increasing
    `nat -> int` given as a parameter.
  - Daylight-saving days of 23 or 25 hours are covered by that abstraction
    rather than computed.
- The timeline chart (`src/App.tsx:242-309`): a projection of runs onto SVG coordinates, using floating point, and display only.
- The `events` log strings (`src/App.tsx:202`, `225`): text output only.
- `placeIcon` (`src/App.tsx:194-198`): a medal icon lookup for display.
- The `RUNS` data (`src/App.tsx:42-99`):
  - It is a fixed list of submissions.
  - The model is stated for every list of runs.
  - The worked example uses three runs of its own.
- The `default: throw` branch of the place switch: it cannot happen, because a place has type `Prizes.Place`, which is 1, 2 or 3.
- Runs.RunToSeconds: hours, minutes and seconds are `nat`. Negative or fractional components in the data are not modelled. JavaScript's floating-point arithmetic is exact on the small integers the data holds.
- Runs.SecondsOrderIsClockOrder: holds only for minutes and seconds below 60. The ranking itself needs no such bound and is stated for any durations.
- Simulation.Simulate: `today` is taken as an instant, and only its order against the midnights matters. The page compares two instants, each the start of a day in the Pacific time zone.
- Accrual.TopRewarded: the comparator is modelled as the stable sort by negated money, which gives the same order as `b.dollars - a.dollars` on integers.
