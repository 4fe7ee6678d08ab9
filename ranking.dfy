/** The order of the leaderboard and the top-N selection the score collection is
    asked for: records of one event, by accuracy descending and then difference
    ascending, cut to the first N. */
module Ranking {
  import opened ScoreModel

  /** `a` may be listed ahead of `b`: higher accuracy, or the same accuracy and a
      difference no larger. */
  predicate RanksAtLeast(a: Score, b: Score) {
    a.accuracy > b.accuracy || (a.accuracy == b.accuracy && a.difference <= b.difference)
  }

  /** `a` must be listed ahead of `b`: higher accuracy, or the same accuracy and a
      strictly smaller difference. */
  predicate RanksAbove(a: Score, b: Score) {
    a.accuracy > b.accuracy || (a.accuracy == b.accuracy && a.difference < b.difference)
  }

  /** Every record ranks at least as high as every record after it. */
  predicate Sorted(s: seq<Score>) {
    forall i, j :: 0 <= i < j < |s| ==> RanksAtLeast(s[i], s[j])
  }

  /** The order is total and transitive, and "must be listed ahead" is exactly
      "not listed at least as high the other way round". */
  lemma OrderFacts(a: Score, b: Score, c: Score)
    ensures RanksAtLeast(a, b) || RanksAtLeast(b, a)
    ensures RanksAtLeast(a, b) && RanksAtLeast(b, c) ==> RanksAtLeast(a, c)
    ensures RanksAbove(a, b) <==> !RanksAtLeast(b, a)
  {
  }

  /** A sorted sequence is sorted pair by adjacent pair: each accuracy is higher than
      the next, or equal with a difference no larger. */
  lemma SortedAdjacent(s: seq<Score>, i: nat)
    requires Sorted(s) && i + 1 < |s|
    ensures s[i].accuracy > s[i + 1].accuracy ||
            (s[i].accuracy == s[i + 1].accuracy && s[i].difference <= s[i + 1].difference)
  {
  }

  /** Conversely, adjacent pairs in order make the whole sequence sorted. */
  lemma {:induction false} AdjacentSorted(s: seq<Score>)
    requires forall i :: 0 <= i < |s| - 1 ==> RanksAtLeast(s[i], s[i + 1])
    ensures Sorted(s)
    decreases |s|
  {
    if |s| > 1 {
      AdjacentSorted(s[1..]);
      forall j | 1 <= j < |s| ensures RanksAtLeast(s[0], s[j]) {
        assert s[j] == s[1..][j - 1];
        if j > 1 {
          assert RanksAtLeast(s[1..][0], s[1..][j - 1]);
        }
      }
    }
  }

  /** In a sorted sequence a record that must be listed ahead of another is. */
  lemma SortedPlacesBetterFirst(s: seq<Score>, i: nat, j: nat)
    requires Sorted(s) && i < |s| && j < |s|
    requires RanksAbove(s[i], s[j])
    ensures i < j
  {
  }

  /** `x` inserted into `s` ahead of the first record it ranks at least as high as. */
  function Insert(x: Score, s: seq<Score>): (r: seq<Score>)
    ensures multiset(r) == multiset(s) + multiset{x}
    decreases |s|
  {
    if s == [] || RanksAtLeast(x, s[0]) then [x] + s
    else
      assert s == [s[0]] + s[1..];
      [s[0]] + Insert(x, s[1..])
  }

  lemma {:induction false} InsertSorted(x: Score, s: seq<Score>)
    requires Sorted(s)
    ensures Sorted(Insert(x, s))
    decreases |s|
  {
    var r := Insert(x, s);
    if s == [] || RanksAtLeast(x, s[0]) {
      forall j | 1 <= j < |r| ensures RanksAtLeast(r[0], r[j]) {
        assert r[j] == s[j - 1];
        if j > 1 {
          assert RanksAtLeast(s[0], s[j - 1]);
        }
      }
    } else {
      var rest := Insert(x, s[1..]);
      assert Sorted(s[1..]) by {
        forall i, j | 0 <= i < j < |s| - 1 ensures RanksAtLeast(s[1..][i], s[1..][j]) {
          assert s[1..][i] == s[i + 1] && s[1..][j] == s[j + 1];
        }
      }
      InsertSorted(x, s[1..]);
      assert r == [s[0]] + rest;
      forall j | 0 <= j < |rest| ensures RanksAtLeast(s[0], rest[j]) {
        assert rest[j] in multiset(rest);
        assert rest[j] in multiset(s[1..]) + multiset{x};
        if rest[j] != x {
          assert rest[j] in s[1..];
          var k :| 0 <= k < |s[1..]| && s[1..][k] == rest[j];
          assert s[k + 1] == rest[j];
        }
      }
    }
  }

  /** `s` in leaderboard order, by insertion. Records that tie on both keys keep the
      order in which they were stored. */
  function Sort(s: seq<Score>): (r: seq<Score>)
    ensures multiset(r) == multiset(s)
    ensures |r| == |s|
    decreases |s|
  {
    if s == [] then []
    else
      assert s == [s[0]] + s[1..];
      Insert(s[0], Sort(s[1..]))
  }

  lemma {:induction false} SortSorted(s: seq<Score>)
    ensures Sorted(Sort(s))
    decreases |s|
  {
    if s != [] {
      SortSorted(s[1..]);
      InsertSorted(s[0], Sort(s[1..]));
    }
  }

  /** The records of `s` whose event is `e`, in stored order. */
  function ForEvent(s: seq<Score>, e: string): (r: seq<Score>)
    ensures |r| <= |s|
    ensures forall i :: 0 <= i < |r| ==> r[i].event == e
    decreases |s|
  {
    if s == [] then []
    else (if s[0].event == e then [s[0]] else []) + ForEvent(s[1..], e)
  }

  /** The event's records are exactly the stored ones of that event, with their
      multiplicities. */
  lemma {:induction false} ForEventCounts(s: seq<Score>, e: string)
    ensures forall x :: multiset(ForEvent(s, e))[x] == if x.event == e then multiset(s)[x] else 0
    decreases |s|
  {
    if s != [] {
      assert s == [s[0]] + s[1..];
      ForEventCounts(s[1..], e);
    }
  }

  /** Appending a record extends the event's records by it when it is of that event,
      and leaves them as they were otherwise. */
  lemma {:induction false} ForEventAppend(s: seq<Score>, x: Score, e: string)
    ensures ForEvent(s + [x], e) == ForEvent(s, e) + (if x.event == e then [x] else [])
    decreases |s|
  {
    if s == [] {
      assert [x][1..] == [];
    } else {
      assert (s + [x])[1..] == s[1..] + [x];
      ForEventAppend(s[1..], x, e);
    }
  }

  function Min(a: int, b: int): int {
    if a <= b then a else b
  }

  /** The first `k` records of a sorted sequence are sorted, are drawn from it, and no
      record left out must be listed ahead of one kept. */
  lemma SortedPrefix(ordered: seq<Score>, k: nat)
    requires Sorted(ordered) && k <= |ordered|
    ensures Sorted(ordered[..k])
    ensures multiset(ordered[..k]) <= multiset(ordered)
    ensures forall y, i :: y in multiset(ordered) - multiset(ordered[..k]) && 0 <= i < k ==>
      !RanksAbove(y, ordered[..k][i])
  {
    var top, left := ordered[..k], ordered[k..];
    assert ordered == top + left;
    assert multiset(ordered) == multiset(top) + multiset(left);
    forall y, i | y in multiset(ordered) - multiset(top) && 0 <= i < k
      ensures !RanksAbove(y, top[i])
    {
      assert y in multiset(left);
      var j :| 0 <= j < |left| && left[j] == y;
      assert ordered[i] == top[i] && ordered[k + j] == y;
    }
  }

  /** The first `n` records of event `e` in leaderboard order. */
  function TopScores(s: seq<Score>, e: string, n: nat): (top: seq<Score>)
    ensures |top| == Min(n, |ForEvent(s, e)|)
    ensures forall i :: 0 <= i < |top| ==> top[i].event == e
    ensures multiset(top) <= multiset(ForEvent(s, e))
    ensures |ForEvent(s, e)| <= n ==> multiset(top) == multiset(ForEvent(s, e))
    ensures Sorted(top)
    ensures forall y, i :: y in multiset(ForEvent(s, e)) - multiset(top) && 0 <= i < |top| ==>
      !RanksAbove(y, top[i])
  {
    var matching := ForEvent(s, e);
    var ordered := Sort(matching);
    var k := Min(n, |ordered|);
    SortSorted(matching);
    TopOfSorted(matching, ordered, e, k);
    ordered[..k]
  }

  /** The top of an event depends on the stored records only through that event's records. */
  lemma TopScoresOfSameRecords(s1: seq<Score>, s2: seq<Score>, e: string, n: nat)
    requires ForEvent(s1, e) == ForEvent(s2, e)
    ensures TopScores(s1, e, n) == TopScores(s2, e, n)
  {
  }

  /** The first `k` records of any sorted arrangement of the records of one event are
      of that event, drawn from them, sorted, and outrank everything left out. */
  lemma TopOfSorted(matching: seq<Score>, ordered: seq<Score>, e: string, k: nat)
    requires forall i :: 0 <= i < |matching| ==> matching[i].event == e
    requires multiset(ordered) == multiset(matching)
    requires Sorted(ordered) && k <= |ordered|
    ensures forall i :: 0 <= i < k ==> ordered[i].event == e
    ensures multiset(ordered[..k]) <= multiset(matching)
    ensures k == |matching| ==> multiset(ordered[..k]) == multiset(matching)
    ensures Sorted(ordered[..k])
    ensures forall y, i :: y in multiset(matching) - multiset(ordered[..k]) && 0 <= i < k ==>
      !RanksAbove(y, ordered[..k][i])
  {
    SortedPrefix(ordered, k);
    assert k == |ordered| ==> ordered[..k] == ordered;
    forall i | 0 <= i < k ensures ordered[i].event == e {
      assert ordered[i] in multiset(matching);
      var j :| 0 <= j < |matching| && matching[j] == ordered[i];
    }
  }
}
