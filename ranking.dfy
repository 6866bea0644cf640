/**
 * Standings: a fold of the played matches into per-team tallies (three points
 * a win, a running score difference), a stable three-key sort, and the top
 * teams of every group.
 */
module Ranking {
  import opened Domain
  import opened Store

  /** A team's line in the standings; the display `name` and `tag` are not modelled. */
  datatype TeamScore = TeamScore(
    teamId: int,
    victories: int,
    defeats: int,
    draws: int,
    points: int,
    scoreDifference: int)

  function Zero(teamId: int): TeamScore
  {
    TeamScore(teamId, 0, 0, 0, 0, 0)
  }

  // ---------------------------------------------------------------------
  // The tally
  // ---------------------------------------------------------------------

  /** The scores map right after every registered team is set to zero, in registration order. */
  function Initial(teams: seq<int>): (s: map<int, TeamScore>)
    ensures forall t :: t in s <==> t in teams
    ensures forall t :: t in s ==> s[t] == Zero(t)
  {
    if teams == [] then map[]
    else Initial(teams[..|teams| - 1])[teams[|teams| - 1] := Zero(teams[|teams| - 1])]
  }

  /** A match the loop does not skip: it has a winner, both scores, and two teams the map knows. */
  predicate Counted(keys: set<int>, m: Match)
  {
    && Truthy(m.winner) && m.scoreA.Some? && m.scoreB.Some?
    && m.teamA.Some? && m.teamA.value in keys
    && m.teamB.Some? && m.teamB.value in keys
  }

  function AddVictory(s: map<int, TeamScore>, t: int): (r: map<int, TeamScore>)
    requires t in s
    ensures r.Keys == s.Keys
  {
    s[t := s[t].(victories := s[t].victories + 1)]
  }

  function AddDefeat(s: map<int, TeamScore>, t: int): (r: map<int, TeamScore>)
    requires t in s
    ensures r.Keys == s.Keys
  {
    s[t := s[t].(defeats := s[t].defeats + 1)]
  }

  function AddPoints(s: map<int, TeamScore>, t: int): (r: map<int, TeamScore>)
    requires t in s
    ensures r.Keys == s.Keys
  {
    s[t := s[t].(points := s[t].points + 3)]
  }

  function AddDifference(s: map<int, TeamScore>, t: int, d: int): (r: map<int, TeamScore>)
    requires t in s
    ensures r.Keys == s.Keys
  {
    s[t := s[t].(scoreDifference := s[t].scoreDifference + d)]
  }

  /** One pass of the `for (const match of tournament.matches)` body, updates in the order written. */
  function TallyMatch(s: map<int, TeamScore>, m: Match): (r: map<int, TeamScore>)
    ensures r.Keys == s.Keys
  {
    if !Counted(s.Keys, m) then s
    else
      var a, b := m.teamA.value, m.teamB.value;
      var s1 :=
        if m.winner == m.teamA then AddPoints(AddDefeat(AddVictory(s, a), b), a)
        else AddPoints(AddDefeat(AddVictory(s, b), a), b);
      var s2 := AddDifference(s1, a, m.scoreA.value - m.scoreB.value);
      AddDifference(s2, b, m.scoreB.value - m.scoreA.value)
  }

  /** The scores map after the first `|ms|` matches. */
  function Tally(s: map<int, TeamScore>, ms: seq<Match>): (r: map<int, TeamScore>)
    ensures r.Keys == s.Keys
  {
    if ms == [] then s else TallyMatch(Tally(s, ms[..|ms| - 1]), ms[|ms| - 1])
  }

  /** `Array.from(scores.values())` for a map filled in the order of `teams`. */
  function Standings(s: map<int, TeamScore>, teams: seq<int>): (xs: seq<TeamScore>)
    requires forall t :: t in teams ==> t in s
    ensures |xs| == |teams|
  {
    if teams == [] then []
    else
      var first := teams[0];
      assert first in teams;
      [s[first]] + Standings(s, teams[1..])
  }

  lemma {:induction false} StandingsAt(s: map<int, TeamScore>, teams: seq<int>, i: int)
    requires forall t :: t in teams ==> t in s
    requires 0 <= i < |teams|
    ensures Standings(s, teams)[i] == s[teams[i]]
  {
    if i > 0 {
      StandingsAt(s, teams[1..], i - 1);
    }
  }

  // ---------------------------------------------------------------------
  // The order of the standings
  // ---------------------------------------------------------------------

  /** The comparator handed to `sort`: negative when `a` ranks first. */
  function Compare(a: TeamScore, b: TeamScore): int
  {
    if b.points != a.points then b.points - a.points
    else if b.scoreDifference != a.scoreDifference then b.scoreDifference - a.scoreDifference
    else b.victories - a.victories
  }

  /** Ordered by points, then score difference, then victories, each from the highest. */
  predicate Sorted(xs: seq<TeamScore>)
  {
    forall i, j :: 0 <= i < j < |xs| ==> Compare(xs[i], xs[j]) <= 0
  }

  /** Places `x` ahead of the first entry it does not rank behind, so that ties keep their order. */
  function Insert(x: TeamScore, ys: seq<TeamScore>): (r: seq<TeamScore>)
    ensures |r| == |ys| + 1
  {
    if ys == [] then [x]
    else if Compare(x, ys[0]) <= 0 then [x] + ys
    else [ys[0]] + Insert(x, ys[1..])
  }

  /**
   * `Array.prototype.sort`, which is stable, with the ranking comparator: an
   * insertion sort, each entry going in front of the later entries it ties with.
   */
  function SortScores(xs: seq<TeamScore>): (r: seq<TeamScore>)
    ensures |r| == |xs|
  {
    if xs == [] then [] else Insert(xs[0], SortScores(xs[1..]))
  }

  lemma CompareTotal(a: TeamScore, b: TeamScore)
    ensures Compare(a, b) > 0 ==> Compare(b, a) < 0
  {}

  lemma CompareTransitive(a: TeamScore, b: TeamScore, c: TeamScore)
    requires Compare(a, b) <= 0 && Compare(b, c) <= 0
    ensures Compare(a, c) <= 0
  {}

  /** `a` ranks at least as high as every entry of `xs`. */
  predicate Leads(a: TeamScore, xs: seq<TeamScore>)
  {
    forall k :: 0 <= k < |xs| ==> Compare(a, xs[k]) <= 0
  }

  lemma HeadLeads(x: TeamScore, ys: seq<TeamScore>)
    requires Sorted(ys) && ys != [] && Compare(x, ys[0]) <= 0
    ensures Leads(x, ys)
  {
    forall k | 0 < k < |ys| ensures Compare(x, ys[k]) <= 0 {
      CompareTransitive(x, ys[0], ys[k]);
    }
  }

  lemma ConsSorted(a: TeamScore, xs: seq<TeamScore>)
    requires Leads(a, xs) && Sorted(xs)
    ensures Sorted([a] + xs)
  {
    var r := [a] + xs;
    forall i, j | 0 <= i < j < |r| ensures Compare(r[i], r[j]) <= 0 {
      if i > 0 {
        assert r[i] == xs[i - 1] && r[j] == xs[j - 1];
      }
    }
  }

  lemma {:induction false} InsertLeads(a: TeamScore, x: TeamScore, ys: seq<TeamScore>)
    requires Leads(a, ys) && Compare(a, x) <= 0
    ensures Leads(a, Insert(x, ys))
  {
    if ys != [] && Compare(x, ys[0]) > 0 {
      InsertLeads(a, x, ys[1..]);
    }
  }

  lemma {:induction false} InsertMultiset(x: TeamScore, ys: seq<TeamScore>)
    ensures multiset(Insert(x, ys)) == multiset(ys) + multiset{x}
  {
    if ys != [] {
      assert ys == [ys[0]] + ys[1..];
      if Compare(x, ys[0]) > 0 {
        InsertMultiset(x, ys[1..]);
      }
    }
  }

  lemma {:induction false} InsertSorted(x: TeamScore, ys: seq<TeamScore>)
    requires Sorted(ys)
    ensures Sorted(Insert(x, ys))
  {
    if ys != [] {
      if Compare(x, ys[0]) <= 0 {
        HeadLeads(x, ys);
        ConsSorted(x, ys);
      } else {
        var rest := ys[1..];
        assert Sorted(rest);
        InsertSorted(x, rest);
        assert Leads(ys[0], rest);
        CompareTotal(x, ys[0]);
        InsertLeads(ys[0], x, rest);
        ConsSorted(ys[0], Insert(x, rest));
      }
    }
  }

  /** The sort yields a permutation of its input in ranking order. */
  lemma {:induction false} SortScoresCorrect(xs: seq<TeamScore>)
    ensures Sorted(SortScores(xs)) && multiset(SortScores(xs)) == multiset(xs)
  {
    if xs != [] {
      SortScoresCorrect(xs[1..]);
      InsertSorted(xs[0], SortScores(xs[1..]));
      InsertMultiset(xs[0], SortScores(xs[1..]));
      assert xs == [xs[0]] + xs[1..];
    }
  }

  /** `ranking.map(t => t.teamId)`. */
  function IdsOf(xs: seq<TeamScore>): (ids: seq<int>)
    ensures |ids| == |xs|
  {
    if xs == [] then [] else [xs[0].teamId] + IdsOf(xs[1..])
  }

  lemma {:induction false} InsertIds(x: TeamScore, ys: seq<TeamScore>)
    ensures multiset(IdsOf(Insert(x, ys))) == multiset(IdsOf(ys)) + multiset{x.teamId}
  {
    if ys != [] && Compare(x, ys[0]) > 0 {
      InsertIds(x, ys[1..]);
    }
  }

  lemma {:induction false} SortIds(xs: seq<TeamScore>)
    ensures multiset(IdsOf(SortScores(xs))) == multiset(IdsOf(xs))
  {
    if xs != [] {
      SortIds(xs[1..]);
      InsertIds(xs[0], SortScores(xs[1..]));
    }
  }

  /** The sum of one counter over a list of entries. */
  function SumOf(xs: seq<TeamScore>, g: TeamScore -> int): int
  {
    if xs == [] then 0 else g(xs[0]) + SumOf(xs[1..], g)
  }

  lemma {:induction false} InsertSum(x: TeamScore, ys: seq<TeamScore>, g: TeamScore -> int)
    ensures SumOf(Insert(x, ys), g) == g(x) + SumOf(ys, g)
  {
    if ys != [] && Compare(x, ys[0]) > 0 {
      InsertSum(x, ys[1..], g);
      assert Insert(x, ys)[1..] == Insert(x, ys[1..]);
    }
  }

  lemma {:induction false} SortSum(xs: seq<TeamScore>, g: TeamScore -> int)
    ensures SumOf(SortScores(xs), g) == SumOf(xs, g)
  {
    if xs != [] {
      SortSum(xs[1..], g);
      InsertSum(xs[0], SortScores(xs[1..]), g);
    }
  }

  // ---------------------------------------------------------------------
  // The ranking
  // ---------------------------------------------------------------------

  /** What `calculateTournamentRanking` returns for a roster and the matches the query selected. */
  function RankingOf(teams: seq<int>, ms: seq<Match>): seq<TeamScore>
  {
    SortScores(Standings(Tally(Initial(teams), ms), teams))
  }

  /** The body of the match loop: skip the match, or credit the winner and move both score differences. */
  method RecordResult(scores: map<int, TeamScore>, m: Match) returns (updated: map<int, TeamScore>)
    ensures updated == TallyMatch(scores, m)
  {
    updated := scores;
    if !Truthy(m.winner) || m.scoreA.None? || m.scoreB.None? {
      return;
    }
    if m.teamA.None? || m.teamA.value !in updated || m.teamB.None? || m.teamB.value !in updated {
      return;
    }
    var a, b := m.teamA.value, m.teamB.value;
    if m.winner == m.teamA {
      updated := AddVictory(updated, a);
      updated := AddDefeat(updated, b);
      updated := AddPoints(updated, a);
    } else {
      updated := AddVictory(updated, b);
      updated := AddDefeat(updated, a);
      updated := AddPoints(updated, b);
    }
    updated := AddDifference(updated, a, m.scoreA.value - m.scoreB.value);
    updated := AddDifference(updated, b, m.scoreB.value - m.scoreA.value);
  }

  /** `tournament.teams.forEach(t => scores.set(t.teamId, ...))`: every team at zero. */
  method InitialScores(teams: seq<int>) returns (scores: map<int, TeamScore>)
    ensures scores == Initial(teams)
  {
    scores := map[];
    var k := 0;
    while k < |teams|
      invariant 0 <= k <= |teams|
      invariant scores == Initial(teams[..k])
    {
      assert teams[..k + 1][..k] == teams[..k];
      scores := scores[teams[k] := Zero(teams[k])];
      k := k + 1;
    }
    assert teams[..k] == teams;
  }

  /** `for (const match of tournament.matches)`: the tally of every match in turn. */
  method TallyResults(initial: map<int, TeamScore>, matches: seq<Match>) returns (scores: map<int, TeamScore>)
    ensures scores == Tally(initial, matches)
  {
    scores := initial;
    var i := 0;
    while i < |matches|
      invariant 0 <= i <= |matches|
      invariant scores == Tally(initial, matches[..i])
    {
      assert matches[..i + 1][..i] == matches[..i];
      scores := RecordResult(scores, matches[i]);
      i := i + 1;
    }
    assert matches[..i] == matches;
  }

  /**
   * `calculateTournamentRanking` past the query, for a roster without
   * repeats: zeroes, the tally, and the sort of the map's values.
   */
  method RankTeams(teams: seq<int>, matches: seq<Match>) returns (ranking: seq<TeamScore>)
    requires Distinct(teams)
    ensures ranking == RankingOf(teams, matches)
  {
    var initial := InitialScores(teams);
    var scores := TallyResults(initial, matches);
    ranking := SortScores(Standings(scores, teams));
  }

  // ---------------------------------------------------------------------
  // The tally in closed form
  // ---------------------------------------------------------------------

  /** What one match adds to team `t`'s victories. */
  function WinOf(keys: set<int>, t: int): Match -> int
  {
    m => if Counted(keys, m) && (if m.winner == m.teamA then m.teamA.value == t else m.teamB.value == t) then 1 else 0
  }

  /** What one match adds to team `t`'s defeats. */
  function LossOf(keys: set<int>, t: int): Match -> int
  {
    m => if Counted(keys, m) && (if m.winner == m.teamA then m.teamB.value == t else m.teamA.value == t) then 1 else 0
  }

  /** What one match adds to team `t`'s score difference. */
  function DiffOf(keys: set<int>, t: int): Match -> int
  {
    m => if !Counted(keys, m) then 0
         else ((if m.teamA.value == t then m.scoreA.value - m.scoreB.value else 0)
               + (if m.teamB.value == t then m.scoreB.value - m.scoreA.value else 0))
  }

  function SumBy(ms: seq<Match>, f: Match -> int): int
  {
    if ms == [] then 0 else SumBy(ms[..|ms| - 1], f) + f(ms[|ms| - 1])
  }

  function Bump(x: TeamScore, w: int, l: int, d: int): TeamScore
  {
    x.(victories := x.victories + w, defeats := x.defeats + l, points := x.points + 3 * w,
       scoreDifference := x.scoreDifference + d)
  }

  lemma TallyMatchAt(s: map<int, TeamScore>, m: Match, t: int)
    requires t in s
    ensures TallyMatch(s, m)[t] == Bump(s[t], WinOf(s.Keys, t)(m), LossOf(s.Keys, t)(m), DiffOf(s.Keys, t)(m))
  {}

  /** Each team's line is its starting line bumped by the sums over the counted matches. */
  lemma {:induction false} TallyAt(s: map<int, TeamScore>, ms: seq<Match>, t: int)
    requires t in s
    ensures Tally(s, ms)[t] == Bump(s[t], SumBy(ms, WinOf(s.Keys, t)), SumBy(ms, LossOf(s.Keys, t)), SumBy(ms, DiffOf(s.Keys, t)))
  {
    if ms != [] {
      var init := ms[..|ms| - 1];
      TallyAt(s, init, t);
      TallyMatchAt(Tally(s, init), ms[|ms| - 1], t);
    }
  }

  lemma {:induction false} SumByConcat(xs: seq<Match>, ys: seq<Match>, f: Match -> int)
    ensures SumBy(xs + ys, f) == SumBy(xs, f) + SumBy(ys, f)
    decreases |ys|
  {
    if ys == [] {
      assert xs + ys == xs;
    } else {
      var init := ys[..|ys| - 1];
      assert (xs + ys)[..|xs + ys| - 1] == xs + init;
      SumByConcat(xs, init, f);
    }
  }

  /** Taking one match out of a sum. */
  lemma SumByRemove(p: seq<Match>, x: Match, q: seq<Match>, f: Match -> int)
    ensures SumBy(p + [x] + q, f) == SumBy(p + q, f) + f(x)
  {
    SumByConcat(p + [x], q, f);
    SumByConcat(p, [x], f);
    SumByConcat(p, q, f);
    assert SumBy([x], f) == f(x) by {
      assert [x][..0] == [];
    }
  }

  lemma MultisetRemove(init: seq<Match>, x: Match, p: seq<Match>, q: seq<Match>)
    requires multiset(init + [x]) == multiset(p + [x] + q)
    ensures multiset(p + q) == multiset(init)
  {
    assert multiset(p + [x] + q) == multiset(p) + multiset{x} + multiset(q);
    assert multiset(p + q) == multiset(p) + multiset(q);
    assert multiset(init + [x]) == multiset(init) + multiset{x};
    var a, b := multiset(init), multiset(p + q);
    assert a == (a + multiset{x}) - multiset{x};
    assert b == (b + multiset{x}) - multiset{x};
  }

  /** A sum over matches depends only on which matches there are, not on their order. */
  lemma {:induction false} SumByPermutation(xs: seq<Match>, ys: seq<Match>, f: Match -> int)
    requires multiset(xs) == multiset(ys)
    ensures SumBy(xs, f) == SumBy(ys, f)
    decreases |xs|
  {
    if xs == [] {
      assert |ys| == |multiset(ys)| == 0;
    } else {
      var x := xs[|xs| - 1];
      var init := xs[..|xs| - 1];
      assert xs == init + [x];
      assert x in multiset(ys);
      var i :| 0 <= i < |ys| && ys[i] == x;
      var p, q := ys[..i], ys[i + 1..];
      assert ys == p + [x] + q;
      MultisetRemove(init, x, p, q);
      SumByPermutation(init, p + q, f);
      SumByRemove(p, x, q, f);
    }
  }

  /**
   * The tallies do not depend on the order in which the matches come: every
   * update only adds to a counter.
   */
  lemma TallyOrderIndependent(s: map<int, TeamScore>, xs: seq<Match>, ys: seq<Match>)
    requires multiset(xs) == multiset(ys)
    ensures Tally(s, xs) == Tally(s, ys)
  {
    forall t | t in s ensures Tally(s, xs)[t] == Tally(s, ys)[t] {
      TallyAt(s, xs, t);
      TallyAt(s, ys, t);
      SumByPermutation(xs, ys, WinOf(s.Keys, t));
      SumByPermutation(xs, ys, LossOf(s.Keys, t));
      SumByPermutation(xs, ys, DiffOf(s.Keys, t));
    }
  }

  /** The ranking depends on the selected matches only as a collection. */
  lemma RankingOrderIndependent(teams: seq<int>, xs: seq<Match>, ys: seq<Match>)
    requires multiset(xs) == multiset(ys)
    ensures RankingOf(teams, xs) == RankingOf(teams, ys)
  {
    TallyOrderIndependent(Initial(teams), xs, ys);
  }

  // ---------------------------------------------------------------------
  // Conservation: what one team gains another loses
  // ---------------------------------------------------------------------

  function Difference(x: TeamScore): int { x.scoreDifference }

  function Victories(x: TeamScore): int { x.victories }

  function Defeats(x: TeamScore): int { x.defeats }

  function Balance(x: TeamScore): int { x.victories - x.defeats }

  lemma {:induction false} StandingsUnchanged(s: map<int, TeamScore>, teams: seq<int>, k: int, v: TeamScore)
    requires forall t :: t in teams ==> t in s
    requires k !in teams
    ensures Standings(s[k := v], teams) == Standings(s, teams)
  {
    if teams != [] {
      StandingsUnchanged(s, teams[1..], k, v);
    }
  }

  /** Replacing one team's line changes a total over the roster by the difference of the two lines. */
  lemma {:induction false} SumUpdate(s: map<int, TeamScore>, teams: seq<int>, k: int, v: TeamScore, g: TeamScore -> int)
    requires forall t :: t in teams ==> t in s
    requires Distinct(teams) && k in teams
    ensures SumOf(Standings(s[k := v], teams), g) == SumOf(Standings(s, teams), g) - g(s[k]) + g(v)
  {
    var rest := teams[1..];
    assert Distinct(rest);
    if teams[0] == k {
      assert k !in rest by {
        forall i | 0 <= i < |rest| ensures rest[i] != k {
          assert rest[i] == teams[i + 1];
        }
      }
      StandingsUnchanged(s, rest, k, v);
    } else {
      assert k in rest;
      SumUpdate(s, rest, k, v, g);
    }
  }

  /** A counted match moves score difference from one team to the other: the roster total stays. */
  lemma TallyMatchKeepsDifference(s: map<int, TeamScore>, teams: seq<int>, m: Match)
    requires Distinct(teams) && forall t :: t in s <==> t in teams
    ensures SumOf(Standings(TallyMatch(s, m), teams), Difference) == SumOf(Standings(s, teams), Difference)
  {
    if Counted(s.Keys, m) {
      var a, b := m.teamA.value, m.teamB.value;
      var w, l := if m.winner == m.teamA then a else b, if m.winner == m.teamA then b else a;
      var s1 := AddVictory(s, w);
      var s2 := AddDefeat(s1, l);
      var s3 := AddPoints(s2, w);
      var s4 := AddDifference(s3, a, m.scoreA.value - m.scoreB.value);
      var s5 := AddDifference(s4, b, m.scoreB.value - m.scoreA.value);
      assert TallyMatch(s, m) == s5;
      SumUpdate(s, teams, w, s1[w], Difference);
      SumUpdate(s1, teams, l, s2[l], Difference);
      SumUpdate(s2, teams, w, s3[w], Difference);
      SumUpdate(s3, teams, a, s4[a], Difference);
      SumUpdate(s4, teams, b, s5[b], Difference);
    }
  }

  /** A counted match adds one victory and one defeat: the roster total of victories minus defeats stays. */
  lemma TallyMatchKeepsBalance(s: map<int, TeamScore>, teams: seq<int>, m: Match)
    requires Distinct(teams) && forall t :: t in s <==> t in teams
    ensures SumOf(Standings(TallyMatch(s, m), teams), Balance) == SumOf(Standings(s, teams), Balance)
  {
    if Counted(s.Keys, m) {
      var a, b := m.teamA.value, m.teamB.value;
      var w, l := if m.winner == m.teamA then a else b, if m.winner == m.teamA then b else a;
      var s1 := AddVictory(s, w);
      var s2 := AddDefeat(s1, l);
      var s3 := AddPoints(s2, w);
      var s4 := AddDifference(s3, a, m.scoreA.value - m.scoreB.value);
      var s5 := AddDifference(s4, b, m.scoreB.value - m.scoreA.value);
      assert TallyMatch(s, m) == s5;
      SumUpdate(s, teams, w, s1[w], Balance);
      SumUpdate(s1, teams, l, s2[l], Balance);
      SumUpdate(s2, teams, w, s3[w], Balance);
      SumUpdate(s3, teams, a, s4[a], Balance);
      SumUpdate(s4, teams, b, s5[b], Balance);
    }
  }

  lemma {:induction false} TallyConserves(s: map<int, TeamScore>, teams: seq<int>, ms: seq<Match>)
    requires Distinct(teams) && forall t :: t in s <==> t in teams
    ensures SumOf(Standings(Tally(s, ms), teams), Difference) == SumOf(Standings(s, teams), Difference)
    ensures SumOf(Standings(Tally(s, ms), teams), Balance) == SumOf(Standings(s, teams), Balance)
  {
    if ms != [] {
      TallyConserves(s, teams, ms[..|ms| - 1]);
      TallyMatchKeepsDifference(Tally(s, ms[..|ms| - 1]), teams, ms[|ms| - 1]);
      TallyMatchKeepsBalance(Tally(s, ms[..|ms| - 1]), teams, ms[|ms| - 1]);
    }
  }

  lemma {:induction false} ZeroSums(teams: seq<int>, s: map<int, TeamScore>)
    requires forall t :: t in teams ==> t in s && s[t] == Zero(t)
    ensures SumOf(Standings(s, teams), Difference) == 0 && SumOf(Standings(s, teams), Balance) == 0
  {
    if teams != [] {
      var first := teams[0];
      assert first in teams;
      ZeroSums(teams[1..], s);
      assert Standings(s, teams) == [s[first]] + Standings(s, teams[1..]);
    }
  }

  lemma {:induction false} SumBalance(xs: seq<TeamScore>)
    ensures SumOf(xs, Balance) == SumOf(xs, Victories) - SumOf(xs, Defeats)
  {
    if xs != [] {
      SumBalance(xs[1..]);
    }
  }

  /**
   * Over a whole ranking the score differences cancel out, and there are as
   * many victories as defeats.
   */
  lemma RankingBalanced(teams: seq<int>, ms: seq<Match>)
    requires Distinct(teams)
    ensures SumOf(RankingOf(teams, ms), Difference) == 0
    ensures SumOf(RankingOf(teams, ms), Victories) == SumOf(RankingOf(teams, ms), Defeats)
  {
    var s := Initial(teams);
    TallyConserves(s, teams, ms);
    ZeroSums(teams, s);
    var xs := Standings(Tally(s, ms), teams);
    SortSum(xs, Difference);
    SortSum(xs, Balance);
    SumBalance(RankingOf(teams, ms));
  }

  // ---------------------------------------------------------------------
  // The entries of a ranking
  // ---------------------------------------------------------------------

  lemma {:induction false} StandingsIds(s: map<int, TeamScore>, teams: seq<int>)
    requires forall t :: t in teams ==> t in s && s[t].teamId == t
    ensures IdsOf(Standings(s, teams)) == teams
  {
    if teams != [] {
      StandingsIds(s, teams[1..]);
      assert teams == [teams[0]] + teams[1..];
    }
  }

  /** The tally never changes the team a line belongs to. */
  lemma TallyKeepsIds(teams: seq<int>, ms: seq<Match>, t: int)
    requires t in teams
    ensures Tally(Initial(teams), ms)[t].teamId == t
  {
    TallyAt(Initial(teams), ms, t);
  }

  /**
   * A ranking is in ranking order and has one line per registered team: its
   * ids are a reordering of the roster.
   */
  lemma RankingShape(teams: seq<int>, ms: seq<Match>)
    ensures Sorted(RankingOf(teams, ms))
    ensures |RankingOf(teams, ms)| == |teams|
    ensures multiset(IdsOf(RankingOf(teams, ms))) == multiset(teams)
  {
    var s := Tally(Initial(teams), ms);
    var xs := Standings(s, teams);
    SortScoresCorrect(xs);
    forall t | t in teams ensures t in s && s[t].teamId == t {
      TallyKeepsIds(teams, ms, t);
    }
    StandingsIds(s, teams);
    SortIds(xs);
  }

  /**
   * Every line of a ranking is its team's totals over the counted matches:
   * victories, defeats and score difference add up match by match, points
   * are three a victory, and draws stay at zero.
   */
  lemma RankingEntries(teams: seq<int>, ms: seq<Match>, x: TeamScore)
    requires x in RankingOf(teams, ms)
    ensures x.teamId in teams
    ensures var keys := set t | t in teams;
      && x.victories == SumBy(ms, WinOf(keys, x.teamId))
      && x.defeats == SumBy(ms, LossOf(keys, x.teamId))
      && x.scoreDifference == SumBy(ms, DiffOf(keys, x.teamId))
      && x.points == 3 * x.victories && x.draws == 0
  {
    var s0 := Initial(teams);
    var s := Tally(s0, ms);
    var xs := Standings(s, teams);
    SortScoresCorrect(xs);
    assert x in multiset(xs);
    var i :| 0 <= i < |xs| && xs[i] == x;
    StandingsAt(s, teams, i);
    var t := teams[i];
    TallyAt(s0, ms, t);
    assert s0.Keys == set t | t in teams;
  }

  /** The first line of a ranking ranks at least as high as every other line. */
  lemma RankingLeader(teams: seq<int>, ms: seq<Match>, j: int)
    requires 0 <= j < |RankingOf(teams, ms)|
    ensures Compare(RankingOf(teams, ms)[0], RankingOf(teams, ms)[j]) <= 0
  {
    RankingShape(teams, ms);
  }

  // ---------------------------------------------------------------------
  // Against the store
  // ---------------------------------------------------------------------

  /**
   * The matches the query selects: the tournament's played matches, and only
   * those of the named group when a name is given (`groupName || undefined`,
   * so an empty name selects every group).
   */
  function RankedMatches(ms: seq<Match>, tournamentId: int, groupName: Option<string>): (r: seq<Match>)
    ensures |r| <= |ms|
  {
    if ms == [] then []
    else
      var m := ms[|ms| - 1];
      RankedMatches(ms[..|ms| - 1], tournamentId, groupName)
      + (if Selected(m, tournamentId, groupName) then [m] else [])
  }

  predicate Selected(m: Match, tournamentId: int, groupName: Option<string>)
  {
    m.tournamentId == tournamentId && m.played && (groupName.Some? && groupName.value != "" ==> m.groupName == groupName)
  }

  /** The query keeps exactly the selected matches. */
  lemma {:induction false} RankedMatchesSelect(ms: seq<Match>, tournamentId: int, groupName: Option<string>)
    ensures forall m :: m in RankedMatches(ms, tournamentId, groupName) <==> m in ms && Selected(m, tournamentId, groupName)
  {
    if ms != [] {
      var init := ms[..|ms| - 1];
      RankedMatchesSelect(init, tournamentId, groupName);
      assert ms == init + [ms[|ms| - 1]];
    }
  }

  /** `calculateTournamentRanking`: the ranking of the tournament, or of one of its groups. */
  method CalculateTournamentRanking(db: Database, tournamentId: int, groupName: Option<string>)
    returns (r: Result<seq<TeamScore>>)
    requires db.Valid()
    ensures tournamentId !in db.tournaments ==> r == Err(TournamentNotFound)
    ensures tournamentId in db.tournaments ==>
      r == Ok(RankingOf(TeamsOf(db.registrations, tournamentId), RankedMatches(db.matches, tournamentId, groupName)))
  {
    if tournamentId !in db.tournaments {
      return Err(TournamentNotFound);
    }
    var teams := TeamsOf(db.registrations, tournamentId);
    TeamsOfWellFormed(db.registrations, tournamentId);
    var ranking := RankTeams(teams, RankedMatches(db.matches, tournamentId, groupName));
    return Ok(ranking);
  }

  // ---------------------------------------------------------------------
  // Qualification from the groups
  // ---------------------------------------------------------------------

  /**
   * The distinct `groupName` values of the tournament's group-stage matches,
   * in order of first appearance (a null name included).
   */
  function GroupNames(ms: seq<Match>, tournamentId: int): (names: seq<Option<string>>)
    ensures |names| <= |ms|
  {
    if ms == [] then []
    else
      var m := ms[|ms| - 1];
      var init := GroupNames(ms[..|ms| - 1], tournamentId);
      init + (if m.tournamentId == tournamentId && m.stage == GroupStage && m.groupName !in init then [m.groupName] else [])
  }

  /** The names are those of the tournament's group-stage matches, each once. */
  lemma {:induction false} GroupNamesExact(ms: seq<Match>, tournamentId: int)
    ensures forall n :: n in GroupNames(ms, tournamentId) <==>
      exists i :: 0 <= i < |ms| && ms[i].tournamentId == tournamentId && ms[i].stage == GroupStage && ms[i].groupName == n
    ensures forall i, j :: 0 <= i < j < |GroupNames(ms, tournamentId)| ==> GroupNames(ms, tournamentId)[i] != GroupNames(ms, tournamentId)[j]
  {
    if ms != [] {
      var init := ms[..|ms| - 1];
      GroupNamesExact(init, tournamentId);
      forall n ensures n in GroupNames(init, tournamentId) <==>
        exists i :: 0 <= i < |init| && init[i].tournamentId == tournamentId && init[i].stage == GroupStage && init[i].groupName == n
      {
      }
      forall n | exists i :: 0 <= i < |ms| && ms[i].tournamentId == tournamentId && ms[i].stage == GroupStage && ms[i].groupName == n
        ensures n in GroupNames(ms, tournamentId)
      {
        var i :| 0 <= i < |ms| && ms[i].tournamentId == tournamentId && ms[i].stage == GroupStage && ms[i].groupName == n;
        if i < |ms| - 1 {
          assert init[i] == ms[i];
        }
      }
      forall n | n in GroupNames(ms, tournamentId)
        ensures exists i :: 0 <= i < |ms| && ms[i].tournamentId == tournamentId && ms[i].stage == GroupStage && ms[i].groupName == n
      {
        if n in GroupNames(init, tournamentId) {
          var i :| 0 <= i < |init| && init[i].tournamentId == tournamentId && init[i].stage == GroupStage && init[i].groupName == n;
          assert ms[i] == init[i];
        } else {
          assert ms[|ms| - 1].groupName == n;
        }
      }
    }
  }

  /** `array.slice(0, n)` on an array of `len` elements: where the slice ends. */
  function SliceEnd(len: int, n: int): (e: int)
    requires len >= 0
    ensures 0 <= e <= len
  {
    if n < 0 then (if len + n < 0 then 0 else len + n) else if n < len then n else len
  }

  /** `ranking.slice(0, teamsPerGroup).map(t => t.teamId)`. */
  function TopTeams(ranking: seq<TeamScore>, teamsPerGroup: int): seq<int>
  {
    IdsOf(ranking[..SliceEnd(|ranking|, teamsPerGroup)])
  }

  /** What one group contributes: nothing for an unnamed group, else the top of its ranking. */
  function GroupQualifiers(regs: seq<Registration>, ms: seq<Match>, tournamentId: int,
                           name: Option<string>, teamsPerGroup: int): seq<int>
  {
    if name.None? || name.value == "" then []
    else TopTeams(RankingOf(TeamsOf(regs, tournamentId), RankedMatches(ms, tournamentId, name)), teamsPerGroup)
  }

  /** The qualified teams of the groups `names`, group after group. */
  function QualifiedFrom(regs: seq<Registration>, ms: seq<Match>, tournamentId: int,
                         names: seq<Option<string>>, teamsPerGroup: int): seq<int>
  {
    if names == [] then []
    else
      QualifiedFrom(regs, ms, tournamentId, names[..|names| - 1], teamsPerGroup)
      + GroupQualifiers(regs, ms, tournamentId, names[|names| - 1], teamsPerGroup)
  }

  /** `getQualifiedTeamsFromGroups`: the first `teamsPerGroup` of every named group's ranking, group after group. */
  method GetQualifiedTeamsFromGroups(db: Database, tournamentId: int, teamsPerGroup: int) returns (qualifiedTeams: seq<int>)
    requires db.Valid()
    ensures qualifiedTeams == QualifiedFrom(db.registrations, db.matches, tournamentId, GroupNames(db.matches, tournamentId), teamsPerGroup)
  {
    var groups := GroupNames(db.matches, tournamentId);
    qualifiedTeams := [];
    var i := 0;
    while i < |groups|
      invariant 0 <= i <= |groups|
      invariant qualifiedTeams == QualifiedFrom(db.registrations, db.matches, tournamentId, groups[..i], teamsPerGroup)
    {
      assert groups[..i + 1][..i] == groups[..i];
      var topTeams := QualifyGroup(db, tournamentId, groups[i], teamsPerGroup);
      qualifiedTeams := qualifiedTeams + topTeams;
      i := i + 1;
    }
    assert groups[..i] == groups;
  }

  /** The loop body: skip an unnamed group, else take the top of the group's ranking. */
  method QualifyGroup(db: Database, tournamentId: int, groupName: Option<string>, teamsPerGroup: int)
    returns (topTeams: seq<int>)
    requires db.Valid() && groupName in GroupNames(db.matches, tournamentId)
    ensures topTeams == GroupQualifiers(db.registrations, db.matches, tournamentId, groupName, teamsPerGroup)
  {
    if groupName.None? || groupName.value == "" {
      return [];
    }
    GroupNameKnown(db, tournamentId, groupName);
    var ranking := CalculateTournamentRanking(db, tournamentId, groupName);
    topTeams := TopTeams(ranking.value, teamsPerGroup);
  }

  /** A group name comes from a stored match, so its tournament exists. */
  lemma GroupNameKnown(db: Database, tournamentId: int, name: Option<string>)
    requires db.Valid() && name in GroupNames(db.matches, tournamentId)
    ensures tournamentId in db.tournaments
  {
    GroupNamesExact(db.matches, tournamentId);
    var i :| 0 <= i < |db.matches| && db.matches[i].tournamentId == tournamentId && db.matches[i].stage == GroupStage
             && db.matches[i].groupName == name;
  }

  lemma {:induction false} IdsOfRegistered(xs: seq<TeamScore>, teams: seq<int>, k: int)
    requires multiset(IdsOf(xs)) == multiset(teams) && 0 <= k <= |xs|
    ensures forall t :: t in IdsOf(xs[..k]) ==> t in teams
  {
    forall t | t in IdsOf(xs[..k]) ensures t in teams {
      IdsPrefix(xs, k, t);
      assert t in multiset(IdsOf(xs));
    }
  }

  lemma {:induction false} IdsPrefix(xs: seq<TeamScore>, k: int, t: int)
    requires 0 <= k <= |xs| && t in IdsOf(xs[..k])
    ensures t in IdsOf(xs)
  {
    if k > 0 {
      if xs[0].teamId != t {
        assert xs[..k][1..] == xs[1..][..k - 1];
        IdsPrefix(xs[1..], k - 1, t);
      }
    }
  }

  /**
   * Qualification yields at most `teamsPerGroup` teams per group, all of them
   * registered for the tournament.
   */
  lemma {:induction false} QualifiedShape(regs: seq<Registration>, ms: seq<Match>, tournamentId: int,
                                          names: seq<Option<string>>, teamsPerGroup: int)
    requires teamsPerGroup >= 0
    ensures |QualifiedFrom(regs, ms, tournamentId, names, teamsPerGroup)| <= |names| * teamsPerGroup
    ensures forall t :: t in QualifiedFrom(regs, ms, tournamentId, names, teamsPerGroup) ==> Registration(tournamentId, t) in regs
  {
    if names != [] {
      var init := names[..|names| - 1];
      var name := names[|names| - 1];
      QualifiedShape(regs, ms, tournamentId, init, teamsPerGroup);
      assert QualifiedFrom(regs, ms, tournamentId, names, teamsPerGroup)
          == QualifiedFrom(regs, ms, tournamentId, init, teamsPerGroup) + GroupQualifiers(regs, ms, tournamentId, name, teamsPerGroup);
      assert (|names| - 1) * teamsPerGroup + teamsPerGroup == |names| * teamsPerGroup;
      if !(name.None? || name.value == "") {
        var teams := TeamsOf(regs, tournamentId);
        var ranking := RankingOf(teams, RankedMatches(ms, tournamentId, name));
        RankingShape(teams, RankedMatches(ms, tournamentId, name));
        IdsOfRegistered(ranking, teams, SliceEnd(|ranking|, teamsPerGroup));
      }
    }
  }
}
