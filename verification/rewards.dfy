/**
  Nightly prize money: per-runner tallies and the crediting of one night's
  top three (`accrueReward` and the `for (const place of [1, 2, 3])` loop in
  src/App.tsx).

  The page keeps tallies in a JavaScript `Map`, whose entries iterate in
  insertion order; that order is visible because the prize table is a stable
  sort of those entries. The tally is therefore modelled as a list of entries
  in insertion order with distinct runner names.

  Runner names are a type parameter here: a night's outcome is given by the
  names on its leaderboard, in leaderboard order, and nothing in this module
  depends on what a name is made of.
 */
module Prizes {

  datatype Rewards = Rewards(dollars: int, firsts: int, seconds: int, thirds: int)

  /** The tally a runner starts from when first rewarded. */
  function NoRewards(): Rewards { Rewards(0, 0, 0, 0) }

  /** A podium place. The page's `default: throw` branch is unreachable
      because a place is always 1, 2 or 3. */
  type Place = p: int | 1 <= p <= 3 witness 1

  /** The prize schedule: $6 and one first-place day for 1st, $2 and one
      second-place day for 2nd, $1 and one third-place day for 3rd. */
  function Gain(p: Place): Rewards {
    if p == 1 then Rewards(6, 1, 0, 0)
    else if p == 2 then Rewards(2, 0, 1, 0)
    else Rewards(1, 0, 0, 1)
  }

  function Plus(a: Rewards, b: Rewards): Rewards {
    var Rewards(d, f, s, t) := a;
    var Rewards(d', f', s', t') := b;
    Rewards(d + d', f + f', s + s', t + t')
  }

  /** The money equals what the day counts are worth: $6 a first place,
      $2 a second and $1 a third, written `t + 2 * (s + 3 * f)`. */
  predicate Balanced(r: Rewards) {
    var Rewards(d, f, s, t) := r;
    d == t + 2 * (s + 3 * f)
  }

  /** `a` is no larger than `b` in money and in every day count. */
  predicate AtMost(a: Rewards, b: Rewards) {
    var Rewards(d, f, s, t) := a;
    var Rewards(d', f', s', t') := b;
    d <= d' && f <= f' && s <= s' && t <= t'
  }

  /** The `switch (place)` of `accrueReward`: one place's prize added to a
      tally. */
  function Credit(r: Rewards, p: Place): (c: Rewards)
    ensures c == Plus(r, Gain(p))
    ensures Balanced(r) ==> Balanced(c)
  {
    var Rewards(d, f, s, t) := r;
    if p == 1 then Rewards(d + 6, f + 1, s, t)
    else if p == 2 then Rewards(d + 2, f, s + 1, t)
    else Rewards(d + 1, f, s, t + 1)
  }

  /** One runner's entry of the rewards map. */
  datatype Entry<Name> = Entry(runner: Name, rewards: Rewards)

  /** The rewards map, in insertion order. */
  type Tally<Name> = seq<Entry<Name>>

  function Names<Name>(t: Tally<Name>): set<Name> {
    set i | 0 <= i < |t| :: t[i].runner
  }

  /** Map keys are distinct. */
  predicate NamesUnique<Name(==)>(t: Tally<Name>) {
    forall i, j :: 0 <= i < j < |t| ==> t[i].runner != t[j].runner
  }

  /** Every entry's money matches its day counts. */
  predicate AllBalanced<Name>(t: Tally<Name>) {
    forall i :: 0 <= i < |t| ==> Balanced(t[i].rewards)
  }

  /** The position of `name`'s entry (its first one). This is the map's
      lookup; `FirstIndexOf` is the same search over a list of runs. */
  function IndexOf<Name(==)>(t: Tally<Name>, name: Name): (i: nat)
    requires name in Names(t)
    ensures i < |t| && t[i].runner == name
    ensures forall k :: 0 <= k < i ==> t[k].runner != name
  {
    if t[0].runner == name then 0
    else
      assert name in Names(t[1..]) by {
        var j :| 0 <= j < |t| && t[j].runner == name;
        assert t[1..][j - 1].runner == name;
      }
      1 + IndexOf(t[1..], name)
  }

  /** The rewards of `name`; a runner absent from the map has none. */
  function Lookup<Name(==)>(t: Tally<Name>, name: Name): (r: Rewards)
    ensures AllBalanced(t) ==> Balanced(r)
  {
    if name in Names(t) then t[IndexOf(t, name)].rewards else NoRewards()
  }

  /** `t` and `u` hold the same runners at the same positions. */
  predicate SameLayout<Name(==)>(t: Tally<Name>, u: Tally<Name>) {
    |u| == |t| && forall i :: 0 <= i < |t| ==> u[i].runner == t[i].runner
  }

  /** Two tallies with the same runner at every position find every name at
      the same position. */
  lemma SameLayoutSameIndex<Name>(t: Tally<Name>, u: Tally<Name>, name: Name)
    requires SameLayout(t, u)
    ensures name in Names(t) <==> name in Names(u)
    ensures name in Names(t) ==> IndexOf(t, name) == IndexOf(u, name)
  {
    if name in Names(t) {
      var i := IndexOf(t, name);
      assert u[i].runner == name;
      var j := IndexOf(u, name);
      assert t[j].runner == name;
    }
    if name in Names(u) {
      var j := IndexOf(u, name);
      assert t[j].runner == name;
    }
  }

  /** Appending an entry leaves every earlier name where it was. */
  lemma AppendIndex<Name>(t: Tally<Name>, e: Entry<Name>, name: Name)
    ensures Names(t + [e]) == Names(t) + {e.runner}
    ensures name in Names(t) ==> IndexOf(t + [e], name) == IndexOf(t, name)
  {
    var u := t + [e];
    assert u[|t|].runner == e.runner;
    forall n | n in Names(u)
      ensures n in Names(t) + {e.runner}
    {
      var j :| 0 <= j < |u| && u[j].runner == n;
      if j < |t| {
        assert t[j].runner == n;
      }
    }
    forall n | n in Names(t)
      ensures n in Names(u)
    {
      var j :| 0 <= j < |t| && t[j].runner == n;
      assert u[j].runner == n;
    }
    if name in Names(t) {
      var i := IndexOf(t, name);
      assert u[i].runner == name;
      var j := IndexOf(u, name);
      assert forall k :: 0 <= k < i ==> u[k].runner == t[k].runner;
    }
  }

  /** The money paid out so far, over all runners. */
  function Total<Name>(t: Tally<Name>): int {
    if t == [] then 0 else t[0].rewards.dollars + Total(t[1..])
  }

  lemma {:induction false} TotalAppend<Name>(t: Tally<Name>, e: Entry<Name>)
    ensures Total(t + [e]) == Total(t) + e.rewards.dollars
  {
    if t != [] {
      assert (t + [e])[1..] == t[1..] + [e];
      TotalAppend(t[1..], e);
    }
  }

  lemma {:induction false} TotalUpdate<Name>(t: Tally<Name>, i: nat, e: Entry<Name>)
    requires i < |t|
    ensures Total(t[i := e]) + t[i].rewards.dollars == Total(t) + e.rewards.dollars
  {
    if i == 0 {
      assert t[i := e][1..] == t[1..];
    } else {
      assert t[i := e][1..] == t[1..][i - 1 := e];
      TotalUpdate(t[1..], i - 1, e);
    }
  }

  /** Crediting the entry of a runner already in the map. */
  lemma CreditExisting<Name(!new)>(t: Tally<Name>, name: Name, p: Place)
    requires name in Names(t)
    ensures var i := IndexOf(t, name);
            var u := t[i := Entry(name, Credit(t[i].rewards, p))];
            && SameLayout(t, u)
            && Names(u) == Names(t)
            && (NamesUnique(t) ==> NamesUnique(u))
            && (AllBalanced(t) ==> AllBalanced(u))
            && Lookup(u, name) == Plus(Lookup(t, name), Gain(p))
            && (forall other :: other != name ==> Lookup(u, other) == Lookup(t, other))
            && Total(u) == Total(t) + Gain(p).dollars
  {
    var i := IndexOf(t, name);
    var u := t[i := Entry(name, Credit(t[i].rewards, p))];
    TotalUpdate(t, i, u[i]);
    forall other
      ensures other in Names(t) <==> other in Names(u)
      ensures other in Names(t) ==> IndexOf(t, other) == IndexOf(u, other)
    {
      SameLayoutSameIndex(t, u, other);
    }
  }

  /** Looking up in a map with one more entry at the end. */
  lemma AppendLookup<Name(!new)>(t: Tally<Name>, e: Entry<Name>, other: Name)
    requires e.runner !in Names(t)
    ensures Lookup(t + [e], e.runner) == e.rewards
    ensures other != e.runner ==> Lookup(t + [e], other) == Lookup(t, other)
  {
    var u := t + [e];
    AppendIndex(t, e, other);
    AppendIndex(t, e, e.runner);
    assert u[|t|] == e;
    assert IndexOf(u, e.runner) == |t|;
  }

  /** A runner's first prize is exactly the place's prize, and balanced. */
  lemma FirstCredit(p: Place)
    ensures Credit(NoRewards(), p) == Gain(p)
    ensures Balanced(Gain(p))
  {
  }

  /** Appending a balanced entry keeps the map balanced. */
  lemma AppendBalanced<Name>(t: Tally<Name>, e: Entry<Name>)
    requires Balanced(e.rewards)
    ensures AllBalanced(t) ==> AllBalanced(t + [e])
  {
    assert forall i :: 0 <= i < |t| ==> (t + [e])[i] == t[i];
  }

  /** Adding a runner not yet in the map, at the end: the map gains that
      runner and stays keyed uniquely. */
  lemma CreditNewNames<Name(!new)>(t: Tally<Name>, e: Entry<Name>)
    requires e.runner !in Names(t)
    ensures Names(t + [e]) == Names(t) + {e.runner}
    ensures NamesUnique(t) ==> NamesUnique(t + [e])
  {
    AppendIndex(t, e, e.runner);
    assert forall i :: 0 <= i < |t| ==> t[i].runner in Names(t);
  }

  /** `accrueReward(day, name, p)`: a runner seen for the first time is added
      at the end of the map with a zero tally, then the place's prize is
      credited to the runner's entry. */
  function Accrue<Name(==)>(t: Tally<Name>, name: Name, p: Place): Tally<Name> {
    if name in Names(t) then
      var i := IndexOf(t, name);
      t[i := Entry(name, Credit(t[i].rewards, p))]
    else
      t + [Entry(name, Credit(NoRewards(), p))]
  }

  /** The map gains `name` and nobody else, stays keyed uniquely and stays
      balanced. */
  lemma AccrueNames<Name(!new)>(t: Tally<Name>, name: Name, p: Place)
    ensures Names(Accrue(t, name, p)) == Names(t) + {name}
    ensures NamesUnique(t) ==> NamesUnique(Accrue(t, name, p))
    ensures AllBalanced(t) ==> AllBalanced(Accrue(t, name, p))
  {
    if name in Names(t) {
      CreditExisting(t, name, p);
    } else {
      var e := Entry(name, Credit(NoRewards(), p));
      CreditNewNames(t, e);
      FirstCredit(p);
      AppendBalanced(t, e);
    }
  }

  /** `name` gains the place's prize; every other runner is left alone. */
  lemma AccrueLookup<Name(!new)>(t: Tally<Name>, name: Name, p: Place, other: Name)
    ensures Lookup(Accrue(t, name, p), other)
         == if other == name then Plus(Lookup(t, name), Gain(p)) else Lookup(t, other)
  {
    if name in Names(t) {
      CreditExisting(t, name, p);
    } else {
      AppendLookup(t, Entry(name, Credit(NoRewards(), p)), other);
    }
  }

  /** The money paid out grows by the place's prize. */
  lemma AccrueTotal<Name(!new)>(t: Tally<Name>, name: Name, p: Place)
    ensures Total(Accrue(t, name, p)) == Total(t) + Gain(p).dollars
  {
    if name in Names(t) {
      CreditExisting(t, name, p);
    } else {
      FirstCredit(p);
      TotalAppend(t, Entry(name, Credit(NoRewards(), p)));
    }
  }

  /** A new runner is appended with exactly the place's prize, which is why
      every tally starts from zero; an existing runner keeps their position,
      so the map's insertion order never changes. */
  lemma AccrueOrder<Name(!new)>(t: Tally<Name>, name: Name, p: Place)
    ensures name !in Names(t) ==> Accrue(t, name, p) == t + [Entry(name, Gain(p))]
    ensures name in Names(t) ==> SameLayout(t, Accrue(t, name, p))
  {
    if name in Names(t) {
      CreditExisting(t, name, p);
    } else {
      FirstCredit(p);
    }
  }

  /** One step of `for (const place of [1, 2, 3])`: credit place `p` when the
      leaderboard has at least `p` runners. */
  function AwardPlace<Name(==)>(t: Tally<Name>, board: seq<Name>, p: Place): Tally<Name> {
    if |board| >= p then Accrue(t, board[p - 1], p) else t
  }

  /** `name` is in place `p` of `board`. */
  predicate HoldsPlace<Name(==)>(board: seq<Name>, name: Name, p: Place) {
    |board| >= p && board[p - 1] == name
  }

  /** What `name` gains from place `p` on a night with leaderboard `board`. */
  function PlaceGain<Name(==)>(board: seq<Name>, name: Name, p: Place): Rewards {
    if HoldsPlace(board, name, p) then Gain(p) else NoRewards()
  }

  function Indicator(b: bool): int {
    if b then 1 else 0
  }

  /** What `name` gains on a night with leaderboard `board`, counted place by
      place: one day for each place held, and the money those days are worth. */
  function NightGain<Name(==)>(board: seq<Name>, name: Name): Rewards
  {
    var f := Indicator(HoldsPlace(board, name, 1));
    var s := Indicator(HoldsPlace(board, name, 2));
    var h := Indicator(HoldsPlace(board, name, 3));
    Rewards(h + 2 * (s + 3 * f), f, s, h)
  }

  /** A night never takes anything away: adding its gain to any tally
      gives a tally at least as large. */
  lemma NightGainGrows<Name>(r: Rewards, board: seq<Name>, name: Name)
    ensures AtMost(r, Plus(r, NightGain(board, name)))
  {
  }

  /** Nobody is listed twice on `board`. */
  predicate DistinctNames<Name(==)>(board: seq<Name>) {
    forall i, j :: 0 <= i < j < |board| ==> board[i] != board[j]
  }

  /** The runners in the first three places of `board`. */
  function Podium<Name>(board: seq<Name>): set<Name> {
    set k | 0 <= k < |board| && k < 3 :: board[k]
  }

  /** On a leaderboard with one entry per runner, the runner in place `p`
      gains exactly that place's prize. */
  lemma NightGainOfPlace<Name>(board: seq<Name>, name: Name, p: Place)
    requires DistinctNames(board)
    requires HoldsPlace(board, name, p)
    ensures NightGain(board, name) == Gain(p)
  {
  }

  /** A runner off the podium gains nothing. */
  lemma NightGainOffPodium<Name>(board: seq<Name>, name: Name)
    requires name !in Podium(board)
    ensures NightGain(board, name) == NoRewards()
  {
  }

  /** What a night pays out in all, by the length of its leaderboard. */
  function Payday(n: nat): int {
    if n == 0 then 0 else if n == 1 then 6 else if n == 2 then 8 else 9
  }

  /** One night: places 1, 2 and 3 go to leaderboard indices 0, 1 and 2 when
      they exist. */
  function RewardNight<Name(==)>(t: Tally<Name>, board: seq<Name>): Tally<Name> {
    AwardPlaces(t, board, 3)
  }

  /** The map after the first `k` turns of `for (const place of [1, 2, 3])`. */
  function AwardPlaces<Name(==)>(t: Tally<Name>, board: seq<Name>, k: nat): Tally<Name>
    requires k <= 3
  {
    if k == 0 then t else AwardPlace(AwardPlaces(t, board, k - 1), board, k)
  }

  /** A night is the three places awarded one after the other. */
  lemma RewardNightSteps<Name>(t: Tally<Name>, board: seq<Name>)
    ensures RewardNight(t, board) == AwardPlace(AwardPlace(AwardPlace(t, board, 1), board, 2), board, 3)
  {
    assert AwardPlaces(t, board, 1) == AwardPlace(t, board, 1);
    assert AwardPlaces(t, board, 2) == AwardPlace(AwardPlace(t, board, 1), board, 2);
  }

  /** Awarding a place adds its runner, if any, and keeps the map well
      formed. */
  lemma AwardPlaceNames<Name(!new)>(t: Tally<Name>, board: seq<Name>, p: Place)
    ensures Names(AwardPlace(t, board, p)) == Names(t) + (if |board| >= p then {board[p - 1]} else {})
    ensures NamesUnique(t) ==> NamesUnique(AwardPlace(t, board, p))
    ensures AllBalanced(t) ==> AllBalanced(AwardPlace(t, board, p))
  {
    if |board| >= p {
      AccrueNames(t, board[p - 1], p);
    }
  }

  /** The map gains exactly the podium runners. */
  lemma RewardNightNames<Name(!new)>(t: Tally<Name>, board: seq<Name>)
    ensures Names(RewardNight(t, board)) == Names(t) + Podium(board)
  {
    RewardNightSteps(t, board);
    var t1 := AwardPlace(t, board, 1);
    var t2 := AwardPlace(t1, board, 2);
    var t3 := AwardPlace(t2, board, 3);
    var a1 := if |board| >= 1 then {board[0]} else {};
    var a2 := if |board| >= 2 then {board[1]} else {};
    var a3 := if |board| >= 3 then {board[2]} else {};
    AwardPlaceNames(t, board, 1);
    AwardPlaceNames(t1, board, 2);
    AwardPlaceNames(t2, board, 3);
    PodiumByPlace(board);
    UnionOfSteps(Names(t), Names(t1), Names(t2), Names(t3), a1, a2, a3, Podium(board));
  }

  /** Three steps that each add a set add their union. */
  lemma UnionOfSteps<T>(n0: set<T>, n1: set<T>, n2: set<T>, n3: set<T>,
                        a1: set<T>, a2: set<T>, a3: set<T>, all: set<T>)
    requires n1 == n0 + a1 && n2 == n1 + a2 && n3 == n2 + a3
    requires all == a1 + a2 + a3
    ensures n3 == n0 + all
  {
  }

  /** A night keeps the map keyed uniquely and balanced. */
  lemma RewardNightWellFormed<Name(!new)>(t: Tally<Name>, board: seq<Name>)
    requires NamesUnique(t) && AllBalanced(t)
    ensures NamesUnique(RewardNight(t, board)) && AllBalanced(RewardNight(t, board))
  {
    RewardNightSteps(t, board);
    var t1 := AwardPlace(t, board, 1);
    var t2 := AwardPlace(t1, board, 2);
    AwardPlaceNames(t, board, 1);
    AwardPlaceNames(t1, board, 2);
    AwardPlaceNames(t2, board, 3);
  }

  /** The three places together pay $6, $8 or $9, or nothing on a night
      without runs. */
  lemma RewardNightTotal<Name(!new)>(t: Tally<Name>, board: seq<Name>)
    ensures Total(RewardNight(t, board)) == Total(t) + Payday(|board|)
  {
    RewardNightSteps(t, board);
    var t1 := AwardPlace(t, board, 1);
    var t2 := AwardPlace(t1, board, 2);
    if |board| >= 1 { AccrueTotal(t, board[0], 1); }
    if |board| >= 2 { AccrueTotal(t1, board[1], 2); }
    if |board| >= 3 { AccrueTotal(t2, board[2], 3); }
    assert Gain(1).dollars == 6 && Gain(2).dollars == 2 && Gain(3).dollars == 1;
  }

  /** A night without runs leaves the map as it was. */
  lemma RewardNightEmpty<Name(!new)>(t: Tally<Name>, board: seq<Name>)
    requires |board| == 0
    ensures RewardNight(t, board) == t
  {
    RewardNightSteps(t, board);
  }

  /** The podium, one place at a time. */
  lemma PodiumByPlace<Name>(board: seq<Name>)
    ensures Podium(board) == (if |board| >= 1 then {board[0]} else {})
                           + (if |board| >= 2 then {board[1]} else {})
                           + (if |board| >= 3 then {board[2]} else {})
  {
    var parts := (if |board| >= 1 then {board[0]} else {})
               + (if |board| >= 2 then {board[1]} else {})
               + (if |board| >= 3 then {board[2]} else {});
    forall x | x in Podium(board)
      ensures x in parts
    {
      var k :| 0 <= k < |board| && k < 3 && board[k] == x;
    }
  }

  /** Awarding one place changes one runner's tally by that place's gain. */
  lemma AwardPlaceLookup<Name(!new)>(t: Tally<Name>, board: seq<Name>, p: Place, name: Name)
    ensures Lookup(AwardPlace(t, board, p), name) == Plus(Lookup(t, name), PlaceGain(board, name, p))
  {
    var r := Lookup(t, name);
    assert Plus(r, NoRewards()) == r;
    if |board| >= p {
      AccrueLookup(t, board[p - 1], p, name);
    }
  }

  /** Each runner gains exactly what their places that night are worth. */
  lemma RewardNightLookup<Name(!new)>(t: Tally<Name>, board: seq<Name>, name: Name)
    ensures Lookup(RewardNight(t, board), name) == Plus(Lookup(t, name), NightGain(board, name))
  {
    RewardNightSteps(t, board);
    var t1 := AwardPlace(t, board, 1);
    var t2 := AwardPlace(t1, board, 2);
    AwardPlaceLookup(t, board, 1, name);
    AwardPlaceLookup(t1, board, 2, name);
    AwardPlaceLookup(t2, board, 3, name);
    NightGainByPlaces(Lookup(t, name), board, name);
  }

  /** Crediting the three places one after the other adds the night's gain. */
  lemma NightGainByPlaces<Name>(r: Rewards, board: seq<Name>, name: Name)
    ensures Plus(Plus(Plus(r, PlaceGain(board, name, 1)), PlaceGain(board, name, 2)), PlaceGain(board, name, 3))
         == Plus(r, NightGain(board, name))
  {
  }

  /** On a leaderboard with one run per runner nobody takes two places in a
      night. */
  lemma OnePlacePerNight<Name>(board: seq<Name>, name: Name)
    requires DistinctNames(board)
    ensures var g := NightGain(board, name); g.firsts + g.seconds + g.thirds <= 1
  {
  }
}
