/** The in-memory list logic of the scoreboard and the leaderboard kept by the
    game engine.  The lists themselves live in JSON files; reading and writing
    them is not part of this model, only what is done to the list in between. */
module Scores {

  /** One score record: when the game began, the score, the asteroids destroyed. */
  datatype Score = Score(date: int, score: real, asteroidsDestroyed: int)

  const LeaderboardSize: nat := 3

  ghost predicate SortedByScoreDescending(s: seq<Score>) {
    forall i, j :: 0 <= i < j < |s| ==> s[i].score >= s[j].score
  }

  /** Puts `x` in front of the first record of the sorted `t` whose score is not
      higher, that is, after every record scoring strictly more and before those
      with an equal score.  Since `SortByScoreDescending` inserts each record into
      the sorted rest of the list, records with equal scores keep their order. */
  function Insert(x: Score, t: seq<Score>): (r: seq<Score>)
    ensures multiset(r) == multiset(t) + multiset{x}
    ensures |r| == |t| + 1
  {
    if t == [] || x.score >= t[0].score then [x] + t
    else
      assert t == [t[0]] + t[1..];
      [t[0]] + Insert(x, t[1..])
  }

  /** `sortByDescending { it.score }`, a stable sort: records with equal scores keep
      their order. */
  function SortByScoreDescending(s: seq<Score>): (r: seq<Score>)
  {
    if s == [] then [] else Insert(s[0], SortByScoreDescending(s[1..]))
  }

  /** The leaderboard: the first three records after the sort, or all of them when
      there are at most three. */
  function Leaderboard(scoreboard: seq<Score>): seq<Score> {
    var sorted := SortByScoreDescending(scoreboard);
    if |sorted| > LeaderboardSize then sorted[..LeaderboardSize] else sorted
  }

  /** The record a new player adds to the scoreboard. */
  function AddCurrentScore(scoreboard: seq<Score>, now: int, score: real, explodedAsteroids: int): seq<Score> {
    scoreboard + [Score(now, score, explodedAsteroids)]
  }

  /** `lastScore.apply { score = ...; asteroidsDestroyed = explodedAsteroids + 1 }`:
      the last record gets the current score and one more than the exploded count. */
  function UpdateLastScore(scoreboard: seq<Score>, score: real, explodedAsteroids: int): seq<Score>
    requires |scoreboard| > 0
  {
    var last := scoreboard[|scoreboard| - 1];
    scoreboard[|scoreboard| - 1 := last.(score := score, asteroidsDestroyed := explodedAsteroids + 1)]
  }

  // ---------------------------------------------------------------------------
  // Properties

  lemma {:induction false} InsertKeepsSorted(x: Score, t: seq<Score>)
    requires SortedByScoreDescending(t)
    ensures SortedByScoreDescending(Insert(x, t))
  {
    if t != [] && x.score < t[0].score {
      InsertKeepsSorted(x, t[1..]);
      var rest := Insert(x, t[1..]);
      assert Insert(x, t) == [t[0]] + rest;
      InsertMembers(x, t[1..]);
      forall k | 0 <= k < |rest|
        ensures t[0].score >= rest[k].score
      {
        assert rest[k] in rest;
      }
    }
  }

  /** Every record of `Insert(x, t)` is `x` or a record of `t`. */
  lemma {:induction false} InsertMembers(x: Score, t: seq<Score>)
    ensures forall y :: y in Insert(x, t) ==> y == x || y in t
  {
    if t != [] && x.score < t[0].score {
      InsertMembers(x, t[1..]);
      assert Insert(x, t) == [t[0]] + Insert(x, t[1..]);
    }
  }

  /** The sort yields a non-increasing list holding exactly the records it was given. */
  lemma {:induction false} SortIsSortedPermutation(s: seq<Score>)
    ensures SortedByScoreDescending(SortByScoreDescending(s))
    ensures multiset(SortByScoreDescending(s)) == multiset(s)
  {
    if s != [] {
      var rest := SortByScoreDescending(s[1..]);
      SortIsSortedPermutation(s[1..]);
      InsertKeepsSorted(s[0], rest);
      assert SortByScoreDescending(s) == Insert(s[0], rest);
      assert s == [s[0]] + s[1..];
      assert multiset(s) == multiset(s[1..]) + multiset{s[0]};
    }
  }

  /** The leaderboard is the first `min(3, n)` records of the sorted scoreboard; it
      is non-increasing, it is drawn from the scoreboard, and no record left off it
      scores more than any record on it. */
  lemma {:induction false} LeaderboardIsTopThree(scoreboard: seq<Score>)
    ensures var n := if |scoreboard| < 3 then |scoreboard| else 3;
      && |Leaderboard(scoreboard)| == n
      && Leaderboard(scoreboard) == SortByScoreDescending(scoreboard)[..n]
    ensures SortedByScoreDescending(Leaderboard(scoreboard))
    ensures multiset(Leaderboard(scoreboard)) <= multiset(scoreboard)
    ensures forall x, i :: x in multiset(scoreboard) - multiset(Leaderboard(scoreboard)) && 0 <= i < |Leaderboard(scoreboard)|
              ==> Leaderboard(scoreboard)[i].score >= x.score
  {
    var sorted := SortByScoreDescending(scoreboard);
    SortIsSortedPermutation(scoreboard);
    var n := if |sorted| < 3 then |sorted| else 3;
    var top := Leaderboard(scoreboard);
    assert top == sorted[..n];
    PrefixOfSorted(sorted, n);
    forall x, i | x in multiset(scoreboard) - multiset(top) && 0 <= i < |top|
      ensures top[i].score >= x.score
    {
      assert x in multiset(sorted) - multiset(sorted[..n]);
    }
  }

  /** A prefix of a non-increasing list is non-increasing, and it scores at least
      as much as whatever is left of the list. */
  lemma {:induction false} PrefixOfSorted(sorted: seq<Score>, n: nat)
    requires SortedByScoreDescending(sorted)
    requires n <= |sorted|
    ensures SortedByScoreDescending(sorted[..n])
    ensures multiset(sorted[..n]) <= multiset(sorted)
    ensures forall x, i :: x in multiset(sorted) - multiset(sorted[..n]) && 0 <= i < n
              ==> sorted[..n][i].score >= x.score
  {
    var top := sorted[..n];
    assert sorted == top + sorted[n..];
    forall x, i | x in multiset(sorted) - multiset(top) && 0 <= i < n
      ensures top[i].score >= x.score
    {
      LeftOffScoresNoMore(sorted, n, x, i);
    }
  }

  /** A record of a non-increasing list that is not among its first `n` scores no
      more than any of them. */
  lemma LeftOffScoresNoMore(sorted: seq<Score>, n: nat, x: Score, i: int)
    requires SortedByScoreDescending(sorted)
    requires 0 <= i < n <= |sorted|
    requires x in multiset(sorted) - multiset(sorted[..n])
    ensures sorted[i].score >= x.score
  {
    var top, rest := sorted[..n], sorted[n..];
    assert sorted == top + rest;
    assert multiset(sorted) == multiset(top) + multiset(rest);
    assert x in rest;
    var j :| 0 <= j < |rest| && rest[j] == x;
    assert sorted[n + j] == x;
  }

  /** The first update of a game adds exactly one record at the end, holding the
      current score and exploded count. */
  lemma AddCurrentScoreAppendsOne(scoreboard: seq<Score>, now: int, score: real, exploded: int)
    ensures |AddCurrentScore(scoreboard, now, score, exploded)| == |scoreboard| + 1
    ensures AddCurrentScore(scoreboard, now, score, exploded)[..|scoreboard|] == scoreboard
    ensures AddCurrentScore(scoreboard, now, score, exploded)[|scoreboard|] == Score(now, score, exploded)
  {
  }

  /** Later updates keep the length and every record but the last, and keep the
      last record's date. */
  lemma UpdateLastScoreChangesOnlyLast(scoreboard: seq<Score>, score: real, exploded: int)
    requires |scoreboard| > 0
    ensures var r := UpdateLastScore(scoreboard, score, exploded);
      && |r| == |scoreboard|
      && r[..|r| - 1] == scoreboard[..|scoreboard| - 1]
      && r[|r| - 1] == Score(scoreboard[|scoreboard| - 1].date, score, exploded + 1)
  {
  }
}
