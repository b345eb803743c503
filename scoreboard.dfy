/** The top-five score table: the selection logic of update_top_scores,
    without the JSON file it is loaded from and saved to. */
module ScoreBoard {
  const TABLE_SIZE: int := 5

  datatype ScoreEntry = ScoreEntry(name: string, score: int)

  predicate SortedDesc(t: seq<ScoreEntry>) {
    forall i, j :: 0 <= i < j < |t| ==> t[i].score >= t[j].score
  }

  /** The lowest score in a non-empty table. */
  function MinScore(t: seq<ScoreEntry>): (m: int)
    requires |t| > 0
    ensures forall i :: 0 <= i < |t| ==> m <= t[i].score
    ensures exists i :: 0 <= i < |t| && t[i].score == m
  {
    if |t| == 1 then t[0].score
    else
      var m := MinScore(t[1..]);
      assert forall i :: 1 <= i < |t| ==> t[i] == t[1..][i - 1];
      if t[0].score < m then t[0].score else m
  }

  /** The test of line 101: room is left, or the score beats the lowest. */
  predicate Qualifies(t: seq<ScoreEntry>, score: int) {
    |t| < TABLE_SIZE || score > MinScore(t)
  }

  /** Places e after every entry that scores at least as much. */
  function InsertDesc(e: ScoreEntry, t: seq<ScoreEntry>): (r: seq<ScoreEntry>)
    ensures multiset(r) == multiset(t) + multiset{e}
    ensures |r| == |t| + 1
  {
    if t == [] then [e]
    else if t[0].score >= e.score then
      assert t == [t[0]] + t[1..];
      [t[0]] + InsertDesc(e, t[1..])
    else [e] + t
  }

  lemma {:induction false} InsertDescSorted(e: ScoreEntry, t: seq<ScoreEntry>)
    requires SortedDesc(t)
    ensures SortedDesc(InsertDesc(e, t))
  {
    if t != [] && t[0].score >= e.score {
      var rest := InsertDesc(e, t[1..]);
      InsertDescSorted(e, t[1..]);
      forall x | x in rest ensures x.score <= t[0].score {
        assert x in multiset(rest);
        if x != e {
          assert x in t[1..];
        }
      }
    }
  }

  /** The descending sort by score: entries are taken in order and
      each goes after the ones already placed that score at least as much,
      so equal scores keep their order, as Python's stable sort does. */
  function SortDesc(t: seq<ScoreEntry>): (r: seq<ScoreEntry>)
    ensures multiset(r) == multiset(t)
    ensures |r| == |t|
  {
    if t == [] then []
    else
      assert t == t[..|t| - 1] + [t[|t| - 1]];
      InsertDesc(t[|t| - 1], SortDesc(t[..|t| - 1]))
  }

  lemma {:induction false} SortDescSorted(t: seq<ScoreEntry>)
    ensures SortedDesc(SortDesc(t))
  {
    if t != [] {
      SortDescSorted(t[..|t| - 1]);
      InsertDescSorted(t[|t| - 1], SortDesc(t[..|t| - 1]));
    }
  }

  /** An entry that scores no more than all others goes last. */
  lemma {:induction false} InsertBelowAll(e: ScoreEntry, t: seq<ScoreEntry>)
    requires forall i :: 0 <= i < |t| ==> t[i].score >= e.score
    ensures InsertDesc(e, t) == t + [e]
  {
    if t != [] {
      InsertBelowAll(e, t[1..]);
      assert [t[0]] + (t[1..] + [e]) == t + [e];
    }
  }

  /** Sorting an already sorted table changes nothing. */
  lemma {:induction false} SortDescOfSorted(t: seq<ScoreEntry>)
    requires SortedDesc(t)
    ensures SortDesc(t) == t
  {
    if t != [] {
      var init := t[..|t| - 1];
      SortDescOfSorted(init);
      InsertBelowAll(t[|t| - 1], init);
      assert init + [t[|t| - 1]] == t;
    }
  }

  function Min(a: int, b: int): int { if a < b then a else b }

  /** update_top_scores(score) with the name the player typed: a qualifying
      entry is appended, the table re-sorted and cut to five. Reports
      whether the entry was inserted. */
  function UpdateTopScores(t: seq<ScoreEntry>, score: int, name: string): (r: (seq<ScoreEntry>, bool))
    ensures r.1 <==> Qualifies(t, score)
    ensures r.1 ==> SortedDesc(r.0) && |r.0| == Min(TABLE_SIZE, |t| + 1)
    ensures r.1 ==> multiset(r.0) <= multiset(t + [ScoreEntry(name, score)])
    ensures !r.1 ==> r.0 == t
  {
    if Qualifies(t, score) then
      var s := SortDesc(t + [ScoreEntry(name, score)]);
      SortDescSorted(t + [ScoreEntry(name, score)]);
      var kept := s[..Min(TABLE_SIZE, |s|)];
      assert s == kept + s[|kept|..];
      (kept, true)
    else (t, false)
  }

  /** For a sorted table (as the game writes it) the new entry simply goes
      after the entries scoring at least as much, and the table is cut. */
  lemma TopScoresOfSortedTable(t: seq<ScoreEntry>, score: int, name: string)
    requires SortedDesc(t) && Qualifies(t, score)
    ensures var s := InsertDesc(ScoreEntry(name, score), t);
      UpdateTopScores(t, score, name).0 == s[..Min(TABLE_SIZE, |s|)]
  {
    var e := ScoreEntry(name, score);
    var u := t + [e];
    assert u[..|u| - 1] == t;
    SortDescOfSorted(t);
  }

  /** An entry scoring more than the last of t lands within the first |t|
      places. */
  lemma {:induction false} InsertAboveLast(e: ScoreEntry, t: seq<ScoreEntry>)
    requires |t| > 0 && t[|t| - 1].score < e.score
    ensures e in InsertDesc(e, t)[..|t|]
  {
    if t[0].score >= e.score {
      assert |t| > 1;
      InsertAboveLast(e, t[1..]);
      assert InsertDesc(e, t)[..|t|] == [t[0]] + InsertDesc(e, t[1..])[..|t| - 1];
    } else {
      assert InsertDesc(e, t)[..|t|][0] == e;
    }
  }

  /** Reordering a table does not change its lowest score. */
  lemma MinScoreOfPermutation(a: seq<ScoreEntry>, b: seq<ScoreEntry>)
    requires |a| > 0 && multiset(a) == multiset(b)
    ensures |b| > 0 && MinScore(a) == MinScore(b)
  {
    assert a[0] in multiset(b);
    var i :| 0 <= i < |a| && a[i].score == MinScore(a);
    assert a[i] in multiset(b);
    var j :| 0 <= j < |b| && b[j].score == MinScore(b);
    assert b[j] in multiset(a);
  }

  /** A qualifying score always makes it into a table of at most five
      entries, whatever order the stored table is in. */
  lemma QualifyingEntryIsKept(t: seq<ScoreEntry>, score: int, name: string)
    requires |t| <= TABLE_SIZE && Qualifies(t, score)
    ensures ScoreEntry(name, score) in UpdateTopScores(t, score, name).0
  {
    var e := ScoreEntry(name, score);
    var u := t + [e];
    var s := SortDesc(t);
    SortDescSorted(t);
    assert u[..|u| - 1] == t;
    assert SortDesc(u) == InsertDesc(e, s);
    var ins := InsertDesc(e, s);
    assert UpdateTopScores(t, score, name).0 == ins[..Min(TABLE_SIZE, |ins|)];
    if |t| < TABLE_SIZE {
      assert ins[..Min(TABLE_SIZE, |ins|)] == ins;
      assert e in multiset(ins);
    } else {
      MinScoreOfPermutation(t, s);
      var i :| 0 <= i < |s| && s[i].score == MinScore(s);
      assert s[i].score >= s[|s| - 1].score;
      InsertAboveLast(e, s);
    }
  }

  /** Cutting to five drops only entries that score no more than every kept
      one. */
  lemma CutKeepsTheBest(t: seq<ScoreEntry>, score: int, name: string)
    requires Qualifies(t, score)
    ensures var r := UpdateTopScores(t, score, name).0;
      exists dropped: seq<ScoreEntry> ::
        multiset(r) + multiset(dropped) == multiset(t + [ScoreEntry(name, score)]) &&
        forall x, y :: x in r && y in dropped ==> x.score >= y.score
  {
    var u := t + [ScoreEntry(name, score)];
    var s := SortDesc(u);
    SortDescSorted(u);
    var r := UpdateTopScores(t, score, name).0;
    assert r == s[..|r|];
    var dropped := s[|r|..];
    assert s == r + dropped;
    forall x, y | x in r && y in dropped ensures x.score >= y.score {
      var i :| 0 <= i < |r| && r[i] == x;
      var j :| 0 <= j < |dropped| && dropped[j] == y;
      assert s[i] == x && s[|r| + j] == y;
    }
  }

  /** An empty store and a session ending on 12 give a one-entry table. */
  lemma FirstScoreFillsEmptyTable(name: string)
    ensures UpdateTopScores([], 12, name) == ([ScoreEntry(name, 12)], true)
  {
    var e := ScoreEntry(name, 12);
    var u: seq<ScoreEntry> := [] + [e];
    assert u == [e] && u[..0] == [];
    assert SortDesc(u) == InsertDesc(e, SortDesc([])) == [e];
    assert Qualifies([], 12);
    assert UpdateTopScores([], 12, name).0 == SortDesc(u)[..1] == [e];
    assert UpdateTopScores([], 12, name).1;
  }
}
