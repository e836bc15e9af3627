/**
  Keeping one run per runner: the first one met in list order
  (`deduplicate` in src/App.tsx).
 */
module Deduplication {
  import opened Runs

  /** The runners that have at least one run in `s`. */
  function Runners(s: seq<Run>): set<string> {
    set i | 0 <= i < |s| :: s[i].runner
  }

  /** No runner occurs twice in `s`. */
  predicate RunnersUnique(s: seq<Run>) {
    forall i, j :: 0 <= i < j < |s| ==> s[i].runner != s[j].runner
  }

  /** The index of the first run of `name` in `s`. */
  function FirstIndexOf(s: seq<Run>, name: string): (i: nat)
    requires name in Runners(s)
    ensures i < |s| && s[i].runner == name
    ensures forall k :: 0 <= k < i ==> s[k].runner != name
  {
    if s[0].runner == name then 0
    else
      assert name in Runners(s[1..]) by {
        var j :| 0 <= j < |s| && s[j].runner == name;
        assert s[1..][j - 1].runner == name;
      }
      1 + FirstIndexOf(s[1..], name)
  }

  /** Any index holding the first run of `name` is `FirstIndexOf`. */
  lemma FirstIndexUnique(s: seq<Run>, name: string, i: nat)
    requires i < |s| && s[i].runner == name
    requires forall k :: 0 <= k < i ==> s[k].runner != name
    ensures name in Runners(s) && FirstIndexOf(s, name) == i
  {
    assert s[i].runner in Runners(s);
  }

  /** The first run of a runner comes no later than any run of theirs. */
  lemma FirstIndexAtMost(s: seq<Run>, name: string, j: nat)
    requires j < |s| && s[j].runner == name
    ensures name in Runners(s) && FirstIndexOf(s, name) <= j
  {
    assert s[j].runner in Runners(s);
  }

  lemma RunnersSnoc(s: seq<Run>)
    requires s != []
    ensures Runners(s) == Runners(s[..|s| - 1]) + {s[|s| - 1].runner}
  {
    var p := s[..|s| - 1];
    forall name | name in Runners(s)
      ensures name in Runners(p) + {s[|s| - 1].runner}
    {
      var j :| 0 <= j < |s| && s[j].runner == name;
      if j < |s| - 1 {
        assert p[j].runner == name;
      }
    }
    forall name | name in Runners(p)
      ensures name in Runners(s)
    {
      var j :| 0 <= j < |p| && p[j].runner == name;
      assert s[j].runner == name;
    }
  }

  /** Appending a run adds its runner. */
  lemma RunnersAppend(p: seq<Run>, x: Run)
    ensures Runners(p + [x]) == Runners(p) + {x.runner}
  {
    RunnersSnoc(p + [x]);
    assert (p + [x])[..|p|] == p;
  }

  /** `r` holds one run per runner of `s`, each the runner's first run in
      `s`, in the order of those first runs. */
  ghost predicate FirstOccurrences(s: seq<Run>, r: seq<Run>) {
    && RunnersUnique(r)
    && Runners(r) == Runners(s)
    && (forall i :: 0 <= i < |r| ==> r[i] == s[FirstIndexOf(s, r[i].runner)])
    && (forall i, j :: 0 <= i < j < |r| ==>
          FirstIndexOf(s, r[i].runner) < FirstIndexOf(s, r[j].runner))
  }

  /** The first run of a runner met in a prefix is their first run overall. */
  lemma FirstIndexInPrefix(s: seq<Run>, n: nat, name: string)
    requires n <= |s| && name in Runners(s[..n])
    ensures name in Runners(s) && FirstIndexOf(s, name) == FirstIndexOf(s[..n], name)
  {
    var f := FirstIndexOf(s[..n], name);
    FirstIndexUnique(s, name, f);
  }

  /** A run whose runner was already met is skipped. */
  lemma DedupSkip(s: seq<Run>, p: seq<Run>)
    requires s != [] && FirstOccurrences(s[..|s| - 1], p)
    requires s[|s| - 1].runner in Runners(p)
    ensures FirstOccurrences(s, p)
  {
    var n := |s| - 1;
    RunnersSnoc(s);
    forall i | 0 <= i < |p|
      ensures p[i].runner in Runners(s[..n])
      ensures FirstIndexOf(s, p[i].runner) == FirstIndexOf(s[..n], p[i].runner)
    {
      assert p[i].runner in Runners(p);
      FirstIndexInPrefix(s, n, p[i].runner);
    }
  }

  /** A run whose runner was not met yet is appended. */
  lemma DedupKeep(s: seq<Run>, p: seq<Run>)
    requires s != [] && FirstOccurrences(s[..|s| - 1], p)
    requires s[|s| - 1].runner !in Runners(p)
    ensures FirstOccurrences(s, p + [s[|s| - 1]])
  {
    var n := |s| - 1;
    var r := p + [s[n]];
    RunnersSnoc(s);
    RunnersSnoc(r);
    assert r[..|p|] == p;
    forall i | 0 <= i < |p|
      ensures p[i].runner in Runners(s[..n])
      ensures FirstIndexOf(s, p[i].runner) == FirstIndexOf(s[..n], p[i].runner)
      ensures p[i].runner != s[n].runner
    {
      assert p[i].runner in Runners(p);
      FirstIndexInPrefix(s, n, p[i].runner);
    }
    forall k | 0 <= k < n
      ensures s[k].runner != s[n].runner
    {
      assert s[..n][k].runner in Runners(s[..n]);
    }
    FirstIndexUnique(s, s[n].runner, n);
    assert RunnersUnique(r);
    assert Runners(r) == Runners(s);
  }

  /** One run per runner, kept in list order. Built from the front exactly
      like the loop over `runs`: a run is kept when its runner is not among
      those already kept. */
  function Dedup(s: seq<Run>): (r: seq<Run>)
    ensures |r| <= |s|
    ensures RunnersUnique(r)
    ensures Runners(r) == Runners(s)
  {
    if s == [] then []
    else
      var n := |s| - 1;
      var p := Dedup(s[..n]);
      RunnersSnoc(s);
      if s[n].runner in Runners(p) then
        p
      else
        RunnersSnoc(p + [s[n]]);
        assert (p + [s[n]])[..|p|] == p;
        assert forall i :: 0 <= i < |p| ==> p[i].runner in Runners(p);
        p + [s[n]]
  }

  /** The run kept for each runner is that runner's first run, and the kept
      runs appear in the order of those first runs. */
  lemma {:induction false} DedupFirstOccurrences(s: seq<Run>)
    ensures FirstOccurrences(s, Dedup(s))
  {
    if s != [] {
      var n := |s| - 1;
      var p := Dedup(s[..n]);
      DedupFirstOccurrences(s[..n]);
      if s[n].runner in Runners(p) {
        DedupSkip(s, p);
      } else {
        DedupKeep(s, p);
      }
    }
  }

  /** The run kept at index `i` is its runner's first run. */
  lemma DedupAt(s: seq<Run>, i: nat)
    requires i < |Dedup(s)|
    ensures Dedup(s)[i].runner in Runners(s)
    ensures Dedup(s)[i] == s[FirstIndexOf(s, Dedup(s)[i].runner)]
  {
    DedupFirstOccurrences(s);
  }

  /** One step of the loop: the next run is kept exactly when its runner has
      not been kept yet. */
  lemma DedupStep(s: seq<Run>, i: nat)
    requires i < |s|
    ensures Dedup(s[..i + 1]) == if s[i].runner in Runners(Dedup(s[..i])) then Dedup(s[..i])
                                 else Dedup(s[..i]) + [s[i]]
  {
    assert s[..i + 1][..i] == s[..i];
    assert s[..i + 1][i] == s[i];
  }

  /** A last run by a runner not met before is kept. */
  lemma DedupAppendNew(s: seq<Run>)
    requires s != [] && s[|s| - 1].runner !in Runners(s[..|s| - 1])
    ensures Dedup(s) == Dedup(s[..|s| - 1]) + [s[|s| - 1]]
  {
    var p := Dedup(s[..|s| - 1]);
    assert Runners(p) == Runners(s[..|s| - 1]);
  }

  /** Deduplicating a list whose runners are already unique changes nothing. */
  lemma {:induction false} DedupOfUnique(s: seq<Run>)
    requires RunnersUnique(s)
    ensures Dedup(s) == s
  {
    if s != [] {
      var n := |s| - 1;
      var p := s[..n];
      assert RunnersUnique(p);
      DedupOfUnique(p);
      assert forall j :: 0 <= j < |p| ==> p[j].runner != s[n].runner;
      DedupAppendNew(s);
      assert p + [s[n]] == s;
    }
  }

  /** Deduplication is idempotent. */
  lemma DedupIdempotent(s: seq<Run>)
    ensures Dedup(Dedup(s)) == Dedup(s)
  {
    DedupOfUnique(Dedup(s));
  }

  /** Every runner of `s` is kept, and kept as their first run in `s`. */
  lemma DedupKeepsFirstOccurrence(s: seq<Run>, name: string)
    requires name in Runners(s)
    ensures exists i :: 0 <= i < |Dedup(s)| && Dedup(s)[i] == s[FirstIndexOf(s, name)]
  {
    var r := Dedup(s);
    DedupFirstOccurrences(s);
    assert name in Runners(r);
    var i :| 0 <= i < |r| && r[i].runner == name;
    assert r[i] == s[FirstIndexOf(s, name)];
  }

  /** `a` is `b` with some elements dropped: there are strictly increasing
      indices of `b` that spell out `a`. */
  ghost predicate IsSubsequence(a: seq<Run>, b: seq<Run>) {
    exists idx: seq<nat> ::
      && |idx| == |a|
      && (forall i :: 0 <= i < |idx| ==> idx[i] < |b| && a[i] == b[idx[i]])
      && (forall i, j :: 0 <= i < j < |idx| ==> idx[i] < idx[j])
  }

  /** The output of `Dedup` is a subsequence of its input. */
  lemma DedupIsSubsequence(s: seq<Run>)
    ensures IsSubsequence(Dedup(s), s)
  {
    var r := Dedup(s);
    DedupFirstOccurrences(s);
    var idx := seq(|r|, i requires 0 <= i < |r| => FirstIndexOf(s, r[i].runner));
    assert forall i :: 0 <= i < |idx| ==> idx[i] < |s| && r[i] == s[idx[i]];
  }

  /** The loop of `deduplicate`: a set of runners already included and the
      list of kept runs. */
  method Deduplicate(runs: seq<Run>) returns (deduped: seq<Run>)
    ensures deduped == Dedup(runs)
    ensures RunnersUnique(deduped)
    ensures Runners(deduped) == Runners(runs)
    ensures FirstOccurrences(runs, deduped)
  {
    var included: set<string> := {};
    deduped := [];
    var i := 0;
    while i < |runs|
      invariant 0 <= i <= |runs|
      invariant deduped == Dedup(runs[..i])
      invariant included == Runners(deduped)
    {
      DedupStep(runs, i);
      if runs[i].runner in included {
        i := i + 1;
        continue;
      }
      RunnersAppend(deduped, runs[i]);
      included := included + {runs[i].runner};
      deduped := deduped + [runs[i]];
      i := i + 1;
    }
    assert runs[..i] == runs;
    DedupFirstOccurrences(runs);
  }
}
