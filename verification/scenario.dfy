/**
  The worked example of the competition's rules: one runner (Alice) runs
  2:00:00 on the first day, two more (Bob and Carol) run 1:30:00 and 1:45:00
  on the second, and the day loop has replayed three days. Nobody has run
  before the first midnight, only Alice before the second, and all three
  before the third. The runners' names are parameters: any three different
  names give the same outcome.
 */
module Scenario {
  import opened Runs
  import opened Sorting
  import opened Deduplication
  import opened Ranking
  import opened Prizes
  import opened Accrual
  import opened Simulation

  const Day := 86400

  /** Midnight `i` days after the competition start, taken as instant 0. */
  function Midnight(i: nat): int {
    i * Day
  }

  function AliceRun(alice: string): Run {
    Run(alice, 3600, Duration(2, 0, 0), "", "")
  }

  function BobRun(bob: string): Run {
    Run(bob, Day + 3600, Duration(1, 30, 0), "", "")
  }

  function CarolRun(carol: string): Run {
    Run(carol, Day + 7200, Duration(1, 45, 0), "", "")
  }

  /** The submissions, in the order they were made. */
  function Submissions(alice: string, bob: string, carol: string): seq<Run> {
    [AliceRun(alice), BobRun(bob), CarolRun(carol)]
  }

  /** Three different runners. */
  predicate Distinct<Name(==)>(a: Name, b: Name, c: Name) {
    a != b && a != c && b != c
  }

  /** Filtering by cutoff, one run at a time. */
  lemma FilterSteps(alice: string, bob: string, carol: string, cutoff: int)
    ensures var a, b, c := AliceRun(alice), BobRun(bob), CarolRun(carol);
            && RunsBefore([c], cutoff) == (if c.timestamp < cutoff then [c] else [])
            && RunsBefore([b, c], cutoff) == (if b.timestamp < cutoff then [b] else []) + RunsBefore([c], cutoff)
            && RunsBefore([a, b, c], cutoff) == (if a.timestamp < cutoff then [a] else []) + RunsBefore([b, c], cutoff)
  {
    var a, b, c := AliceRun(alice), BobRun(bob), CarolRun(carol);
    assert [c][1..] == [];
    assert [b, c][1..] == [c];
    assert [a, b, c][1..] == [b, c];
  }

  /** The first night is ranked on no runs at all. */
  lemma FirstNightBoard(alice: string, bob: string, carol: string)
    ensures NightBoard(Submissions(alice, bob, carol), Midnight(0)) == []
  {
    FilterSteps(alice, bob, carol, 0);
    assert |Leaderboard([])| == 0;
  }

  lemma SecondNightRuns(alice: string, bob: string, carol: string)
    ensures RunsBefore(Submissions(alice, bob, carol), Day) == [AliceRun(alice)]
  {
    FilterSteps(alice, bob, carol, Day);
  }

  lemma LoneLeaderboard(a: Run)
    ensures Leaderboard([a]) == [a]
  {
    assert [a][1..] == [];
    assert SortByTime([a]) == [a];
    DedupOfUnique([a]);
  }

  /** The second night is ranked on Alice's run alone. */
  lemma SecondNightBoard(alice: string, bob: string, carol: string)
    ensures NightBoard(Submissions(alice, bob, carol), Midnight(1)) == [alice]
  {
    var a := AliceRun(alice);
    assert Midnight(1) == Day;
    SecondNightRuns(alice, bob, carol);
    LoneLeaderboard(a);
    NamesOfOne(a);
  }

  lemma NamesOfOne(a: Run)
    ensures BoardNames([a]) == [a.runner]
  {
  }

  /** Sorting Bob's and Carol's runs leaves them in place. */
  lemma SortBobCarol(bob: string, carol: string)
    ensures SortBy([BobRun(bob), CarolRun(carol)], RunToSeconds) == [BobRun(bob), CarolRun(carol)]
  {
    var b, c := BobRun(bob), CarolRun(carol);
    assert RunToSeconds(b) == 5400;
    assert RunToSeconds(c) == 6300;
    assert [b, c][1..] == [c];
    assert [c][1..] == [];
    assert SortBy([c], RunToSeconds) == [c];
  }

  /** Alice's run goes behind the two faster ones. */
  lemma InsertAlice(alice: string, bob: string, carol: string)
    ensures Insert(AliceRun(alice), [BobRun(bob), CarolRun(carol)], RunToSeconds)
         == [BobRun(bob), CarolRun(carol), AliceRun(alice)]
  {
    var a, b, c := AliceRun(alice), BobRun(bob), CarolRun(carol);
    assert RunToSeconds(a) == 7200;
    assert RunToSeconds(b) == 5400;
    assert RunToSeconds(c) == 6300;
    assert [b, c][1..] == [c];
    assert [c][1..] == [];
    assert Insert(a, [c], RunToSeconds) == [c] + Insert(a, [], RunToSeconds);
  }

  /** All three runs sorted: Bob, Carol, Alice. */
  lemma ScenarioSorted(alice: string, bob: string, carol: string)
    ensures SortByTime(Submissions(alice, bob, carol)) == [BobRun(bob), CarolRun(carol), AliceRun(alice)]
  {
    assert Submissions(alice, bob, carol)[1..] == [BobRun(bob), CarolRun(carol)];
    SortBobCarol(bob, carol);
    InsertAlice(alice, bob, carol);
  }

  lemma NamesOfThree(a: Run, b: Run, c: Run)
    ensures BoardNames([a, b, c]) == [a.runner, b.runner, c.runner]
  {
  }

  lemma ThirdNightRuns(alice: string, bob: string, carol: string)
    ensures RunsBefore(Submissions(alice, bob, carol), 2 * Day) == Submissions(alice, bob, carol)
  {
    FilterSteps(alice, bob, carol, 2 * Day);
  }

  lemma ThreeRunners(alice: string, bob: string, carol: string)
    requires Distinct(alice, bob, carol)
    ensures RunnersUnique([BobRun(bob), CarolRun(carol), AliceRun(alice)])
  {
  }

  lemma ThirdLeaderboard(alice: string, bob: string, carol: string)
    requires Distinct(alice, bob, carol)
    ensures Leaderboard(Submissions(alice, bob, carol)) == [BobRun(bob), CarolRun(carol), AliceRun(alice)]
  {
    ScenarioSorted(alice, bob, carol);
    ThreeRunners(alice, bob, carol);
    DedupOfUnique([BobRun(bob), CarolRun(carol), AliceRun(alice)]);
  }

  /** The third night is ranked on all three runs, fastest first. */
  lemma ThirdNightBoard(alice: string, bob: string, carol: string)
    requires Distinct(alice, bob, carol)
    ensures NightBoard(Submissions(alice, bob, carol), Midnight(2)) == [bob, carol, alice]
  {
    assert Midnight(2) == 2 * Day;
    ThirdNightRuns(alice, bob, carol);
    ThirdLeaderboard(alice, bob, carol);
    NamesOfThree(BobRun(bob), CarolRun(carol), AliceRun(alice));
  }

  /** Three days of a schedule, unfolded. */
  lemma ScheduleThree<Name>(board: nat -> seq<Name>)
    ensures Schedule(board, 3) == [board(0), board(1), board(2)]
  {
    assert Schedule(board, 1) == [board(0)];
    assert Schedule(board, 2) == [board(0), board(1)];
  }

  /** The nights' leaderboards as the loop sees them. */
  lemma ScenarioNights(alice: string, bob: string, carol: string)
    requires Distinct(alice, bob, carol)
    ensures Schedule(Boards(Submissions(alice, bob, carol), Midnight), 3) == [[], [alice], [bob, carol, alice]]
  {
    FirstNightBoard(alice, bob, carol);
    SecondNightBoard(alice, bob, carol);
    ThirdNightBoard(alice, bob, carol);
    ScheduleThree(Boards(Submissions(alice, bob, carol), Midnight));
  }

  /** Nobody gains on a night without runs. */
  lemma GainsOfNone<Name>(x: Name)
    ensures NightGain([], x) == Rewards(0, 0, 0, 0)
  {
  }

  /** On a night with one runner ranked, that runner takes first place. */
  lemma GainsOfOne<Name>(a: Name)
    ensures NightGain([a], a) == Rewards(6, 1, 0, 0)
  {
  }

  /** ... and nobody else gains anything. */
  lemma GainsOfOneOthers<Name>(a: Name, x: Name)
    requires x != a
    ensures NightGain([a], x) == Rewards(0, 0, 0, 0)
  {
  }

  /** Gains on a night with three different runners ranked. */
  lemma GainsOfThree<Name>(a: Name, b: Name, c: Name)
    requires a != b && a != c && b != c
    ensures NightGain([a, b, c], a) == Rewards(6, 1, 0, 0)
    ensures NightGain([a, b, c], b) == Rewards(2, 0, 1, 0)
    ensures NightGain([a, b, c], c) == Rewards(1, 0, 0, 1)
  {
  }

  /** The reference sum grows by one night at a time. */
  lemma EarnedSnoc<Name>(nights: seq<seq<Name>>, last: seq<Name>, name: Name)
    ensures Earned(nights + [last], name) == Plus(Earned(nights, name), NightGain(last, name))
  {
    assert (nights + [last])[..|nights|] == nights;
  }

  /** Nothing added to a tally leaves it as it was. */
  lemma PlusNothing(r: Rewards)
    ensures Plus(NoRewards(), r) == r
  {
  }

  /** The reference sum over three nights, unfolded. */
  lemma EarnedThree<Name>(a: seq<Name>, b: seq<Name>, c: seq<Name>, name: Name)
    ensures Earned([a, b, c], name) == Plus(Plus(NightGain(a, name), NightGain(b, name)), NightGain(c, name))
  {
    var ga := NightGain(a, name);
    assert Earned([a], name) == ga by {
      EarnedSnoc([], a, name);
      assert [] + [a] == [a];
      PlusNothing(ga);
    }
    EarnedSnoc([a], b, name);
    assert [a] + [b] == [a, b];
    EarnedSnoc([a, b], c, name);
    assert [a, b] + [c] == [a, b, c];
  }

  /** A first night with nobody ranked adds nothing to the reference sum. */
  lemma QuietFirstNight<Name>(b: seq<Name>, c: seq<Name>, name: Name)
    ensures Earned([[], b, c], name) == Plus(NightGain(b, name), NightGain(c, name))
  {
    EarnedThree([], b, c, name);
    GainsOfNone(name);
    PlusNothing(NightGain(b, name));
  }

  /** Alice: first on the second night, third on the third. */
  lemma AliceEarned<Name>(alice: Name, bob: Name, carol: Name)
    requires Distinct(alice, bob, carol)
    ensures Earned([[], [alice], [bob, carol, alice]], alice) == Rewards(7, 1, 0, 1)
  {
    QuietFirstNight([alice], [bob, carol, alice], alice);
    GainsOfOne(alice);
    GainsOfThree(bob, carol, alice);
  }

  /** Bob: first on the third night. */
  lemma BobEarned<Name>(alice: Name, bob: Name, carol: Name)
    requires Distinct(alice, bob, carol)
    ensures Earned([[], [alice], [bob, carol, alice]], bob) == Rewards(6, 1, 0, 0)
  {
    QuietFirstNight([alice], [bob, carol, alice], bob);
    GainsOfOneOthers(alice, bob);
    GainsOfThree(bob, carol, alice);
  }

  /** Carol: second on the third night. */
  lemma CarolEarned<Name>(alice: Name, bob: Name, carol: Name)
    requires Distinct(alice, bob, carol)
    ensures Earned([[], [alice], [bob, carol, alice]], carol) == Rewards(2, 0, 1, 0)
  {
    QuietFirstNight([alice], [bob, carol, alice], carol);
    GainsOfOneOthers(alice, carol);
    GainsOfThree(bob, carol, alice);
  }

  /** The loop replays three days. */
  lemma ScenarioDays()
    ensures Increasing(Midnight)
    ensures DaysBefore(Midnight, Midnight(3)) == 3
  {
    DaysBeforeIs(Midnight, Midnight(3), 3);
  }

  /** A runner's rewards after the three days are their reference sum over
      the three nights. */
  lemma ScenarioLookup(alice: string, bob: string, carol: string, name: string)
    requires Distinct(alice, bob, carol)
    ensures Increasing(Midnight)
    ensures Lookup(Simulate(Submissions(alice, bob, carol), Midnight, Midnight(3)), name)
         == Earned([[], [alice], [bob, carol, alice]], name)
  {
    ScenarioDays();
    ScenarioNights(alice, bob, carol);
    AccrueNightsEarned([[], [alice], [bob, carol, alice]], name);
  }

  /** After three days Alice has $7 (a first and a third), Bob $6 (a first)
      and Carol $2 (a second). */
  lemma ScenarioRewards(alice: string, bob: string, carol: string)
    requires Distinct(alice, bob, carol)
    ensures Increasing(Midnight)
    ensures Lookup(Simulate(Submissions(alice, bob, carol), Midnight, Midnight(3)), alice) == Rewards(7, 1, 0, 1)
    ensures Lookup(Simulate(Submissions(alice, bob, carol), Midnight, Midnight(3)), bob) == Rewards(6, 1, 0, 0)
    ensures Lookup(Simulate(Submissions(alice, bob, carol), Midnight, Midnight(3)), carol) == Rewards(2, 0, 1, 0)
  {
    ScenarioLookup(alice, bob, carol, alice);
    ScenarioLookup(alice, bob, carol, bob);
    ScenarioLookup(alice, bob, carol, carol);
    AliceEarned(alice, bob, carol);
    BobEarned(alice, bob, carol);
    CarolEarned(alice, bob, carol);
  }
}
