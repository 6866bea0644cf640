/**
 * The first-round generators of the double-elimination and Swiss formats.
 * Both work on the shuffled roster and write round 1 in one batch; neither
 * creates placeholders or bracket edges.
 */
module Formats {
  import opened Domain
  import opened Store
  import opened BracketMath
  import opened Elimination
  import opened EliminationProps
  import opened RoundRobinCounts

  // ---------------------------------------------------------------------
  // Double elimination
  // ---------------------------------------------------------------------

  /** The bracket of a double elimination: at least 4, and a power of two. */
  function DoubleEliminationSize(n: int): (bs: int)
    ensures IsPowerOfTwo(bs) && bs >= 4 && bs >= n
  {
    assert IsPowerOfTwo(4);
    BracketSize(n, 4)
  }

  /** Round 1 of the winners bracket: the full pairs for the pairing order `shuffled`. */
  function DoubleEliminationRows(tournamentId: int, shuffled: seq<int>): seq<Match>
  {
    var bs := DoubleEliminationSize(|shuffled|);
    FirstRoundRows(tournamentId, shuffled, bs, bs / 2, 1, DoubleEliminationStage, Winners)
  }

  /**
   * The loops of `generateDoubleElimination`. `shuffled` stands for the
   * random in-place sort of the roster. Fewer than four teams are refused.
   */
  method PlanDoubleElimination(tournamentId: int, teamIds: seq<int>, shuffled: seq<int>) returns (r: Result<seq<Match>>)
    requires multiset(shuffled) == multiset(teamIds)
    ensures |teamIds| < 4 ==> r == Err(InvalidConfiguration)
    ensures |teamIds| >= 4 ==> r == Ok(DoubleEliminationRows(tournamentId, shuffled))
  {
    var numTeams := |teamIds|;
    if numTeams < 4 {
      return Err(InvalidConfiguration);
    }
    assert |shuffled| == numTeams by {
      assert |multiset(shuffled)| == |multiset(teamIds)|;
    }
    assert IsPowerOfTwo(4);
    var bracketSize := ComputeBracketSize(numTeams, 4);
    var matchesToCreate: seq<Match> := [];
    var i := 0;
    while i < bracketSize / 2
      invariant 0 <= i <= bracketSize / 2
      invariant matchesToCreate == FirstRoundRows(tournamentId, shuffled, bracketSize, i, 1, DoubleEliminationStage, Winners)
    {
      var teamAId := Entry(shuffled, i);
      var teamBId := Entry(shuffled, bracketSize - 1 - i);
      FirstRoundRowsStep(tournamentId, shuffled, bracketSize, i, 1, DoubleEliminationStage, Winners);
      if Truthy(teamAId) && Truthy(teamBId) {
        matchesToCreate := matchesToCreate
          + [Scheduled(tournamentId, teamAId.value, teamBId.value, 1, DoubleEliminationStage, None, Some(Winners))];
      }
      i := i + 1;
    }
    return Ok(matchesToCreate);
  }

  /** Every first-round row belongs to the tournament and is an unplayed match of the given round, stage and bracket. */
  lemma {:induction false} FirstRoundRowsTagged(tournamentId: int, pairing: seq<int>, bs: int, k: int, round: int,
                                                stage: Stage, bracket: BracketTag)
    ensures forall j :: 0 <= j < |FirstRoundRows(tournamentId, pairing, bs, k, round, stage, bracket)| ==>
      && FirstRoundRows(tournamentId, pairing, bs, k, round, stage, bracket)[j].tournamentId == tournamentId
      && FirstRoundRows(tournamentId, pairing, bs, k, round, stage, bracket)[j].round == round
      && FirstRoundRows(tournamentId, pairing, bs, k, round, stage, bracket)[j].stage == stage
      && FirstRoundRows(tournamentId, pairing, bs, k, round, stage, bracket)[j].bracket == Some(bracket)
      && !FirstRoundRows(tournamentId, pairing, bs, k, round, stage, bracket)[j].played
  {
    if k > 0 {
      FirstRoundRowsTagged(tournamentId, pairing, bs, k - 1, round, stage, bracket);
      var prev := FirstRoundRows(tournamentId, pairing, bs, k - 1, round, stage, bracket);
      var rows := FirstRoundRows(tournamentId, pairing, bs, k, round, stage, bracket);
      assert forall j :: 0 <= j < |prev| ==> rows[j] == prev[j];
    }
  }

  /** `generateDoubleElimination`: plans round 1 and writes it with `createMany`. */
  method GenerateDoubleElimination(db: Database, tournamentId: int, teamIds: seq<int>, shuffled: seq<int>)
    returns (r: Result<int>)
    requires db.Valid() && tournamentId in db.tournaments && multiset(shuffled) == multiset(teamIds)
    modifies db
    ensures db.Valid()
    ensures db.edges == old(db.edges) && db.tournaments == old(db.tournaments) && db.registrations == old(db.registrations)
    ensures |teamIds| < 4 ==> r == Err(InvalidConfiguration) && db.matches == old(db.matches)
    ensures |teamIds| >= 4 ==>
      && db.matches == old(db.matches) + DoubleEliminationRows(tournamentId, shuffled)
      && r == Ok(|DoubleEliminationRows(tournamentId, shuffled)|)
  {
    var plan := PlanDoubleElimination(tournamentId, teamIds, shuffled);
    if plan.Err? {
      return Err(plan.error);
    }
    var bs := DoubleEliminationSize(|shuffled|);
    FirstRoundRowsTagged(tournamentId, shuffled, bs, bs / 2, 1, DoubleEliminationStage, Winners);
    var count := db.CreateMatches(plan.value);
    return Ok(count);
  }

  /**
   * With `n` distinct positive entrants, double elimination writes `n - bs / 2`
   * matches, and every entrant plays exactly one of them except the first
   * `bs - n` of the shuffled order, who get no match (and, with no
   * placeholders in this format, no seat either).
   */
  lemma DoubleEliminationShape(tournamentId: int, teamIds: seq<int>, shuffled: seq<int>, t: int)
    requires AllPositive(teamIds) && Distinct(teamIds) && multiset(shuffled) == multiset(teamIds) && |teamIds| >= 4
    requires 0 <= t < |teamIds|
    ensures |shuffled| == |teamIds|
    ensures var bs := DoubleEliminationSize(|teamIds|);
      && |DoubleEliminationRows(tournamentId, shuffled)| == |teamIds| - bs / 2
      && AppearancesIn(DoubleEliminationRows(tournamentId, shuffled), shuffled[t], 1) == if t < bs - |teamIds| then 0 else 1
  {
    assert |shuffled| == |teamIds| by {
      assert |multiset(shuffled)| == |multiset(teamIds)|;
    }
    PermutationKeepsPositive(teamIds, shuffled);
    PermutationKeepsDistinct(teamIds, shuffled);
    var bs := DoubleEliminationSize(|teamIds|);
    assert IsPowerOfTwo(4);
    BracketSizeBounds(|teamIds|, 4);
    PowerOfTwoDivisible(bs);
    FullPairsCount(shuffled, bs, bs / 2);
    FirstRoundOnce(tournamentId, shuffled, bs, 1, DoubleEliminationStage, Winners, t);
  }

  // ---------------------------------------------------------------------
  // Swiss
  // ---------------------------------------------------------------------

  /** The first `k` Swiss pairings: entrant `2j` against entrant `2j + 1`. */
  function SwissRows(tournamentId: int, teams: seq<int>, k: int): (rows: seq<Match>)
    requires 0 <= k && 2 * k <= |teams|
    ensures |rows| == k
  {
    if k == 0 then []
    else
      var last := Scheduled(tournamentId, teams[2 * k - 2], teams[2 * k - 1], 1, SwissStage, None, None);
      SwissRows(tournamentId, teams, k - 1) + [last]
  }

  /**
   * The loop of `generateSwissFirstRound`. `shuffled` stands for the random
   * in-place sort. Fewer than four teams, or an odd number, are refused.
   */
  method PlanSwissFirstRound(tournamentId: int, teamIds: seq<int>, shuffled: seq<int>) returns (r: Result<seq<Match>>)
    requires multiset(shuffled) == multiset(teamIds)
    ensures |teamIds| < 4 || |teamIds| % 2 != 0 ==> r == Err(InvalidConfiguration)
    ensures |teamIds| >= 4 && |teamIds| % 2 == 0 ==> r == Ok(SwissRows(tournamentId, shuffled, |shuffled| / 2))
  {
    var numTeams := |teamIds|;
    if numTeams < 4 || numTeams % 2 != 0 {
      return Err(InvalidConfiguration);
    }
    assert |shuffled| == numTeams by {
      assert |multiset(shuffled)| == |multiset(teamIds)|;
    }
    var matchesToCreate: seq<Match> := [];
    var i := 0;
    while i < |shuffled|
      invariant 0 <= i <= |shuffled| && i % 2 == 0
      invariant matchesToCreate == SwissRows(tournamentId, shuffled, i / 2)
    {
      matchesToCreate := matchesToCreate + [Scheduled(tournamentId, shuffled[i], shuffled[i + 1], 1, SwissStage, None, None)];
      i := i + 2;
    }
    return Ok(matchesToCreate);
  }

  /** Every Swiss row belongs to the tournament and is an unplayed round-1 match of the Swiss stage. */
  lemma {:induction false} SwissRowsTagged(tournamentId: int, teams: seq<int>, k: int)
    requires 0 <= k && 2 * k <= |teams|
    ensures forall j :: 0 <= j < k ==>
      && SwissRows(tournamentId, teams, k)[j].tournamentId == tournamentId
      && SwissRows(tournamentId, teams, k)[j].round == 1
      && SwissRows(tournamentId, teams, k)[j].stage == SwissStage
      && !SwissRows(tournamentId, teams, k)[j].played
  {
    if k > 0 {
      SwissRowsTagged(tournamentId, teams, k - 1);
      var prev := SwissRows(tournamentId, teams, k - 1);
      var rows := SwissRows(tournamentId, teams, k);
      assert forall j :: 0 <= j < k - 1 ==> rows[j] == prev[j];
    }
  }

  /** `generateSwissFirstRound`: plans round 1 and writes it with `createMany`. */
  method GenerateSwissFirstRound(db: Database, tournamentId: int, teamIds: seq<int>, shuffled: seq<int>)
    returns (r: Result<int>)
    requires db.Valid() && tournamentId in db.tournaments && multiset(shuffled) == multiset(teamIds)
    modifies db
    ensures db.Valid()
    ensures db.edges == old(db.edges) && db.tournaments == old(db.tournaments) && db.registrations == old(db.registrations)
    ensures |teamIds| < 4 || |teamIds| % 2 != 0 ==> r == Err(InvalidConfiguration) && db.matches == old(db.matches)
    ensures |teamIds| >= 4 && |teamIds| % 2 == 0 ==>
      && db.matches == old(db.matches) + SwissRows(tournamentId, shuffled, |shuffled| / 2)
      && r == Ok(|teamIds| / 2)
  {
    var plan := PlanSwissFirstRound(tournamentId, teamIds, shuffled);
    if plan.Err? {
      return Err(plan.error);
    }
    assert |shuffled| == |teamIds| by {
      assert |multiset(shuffled)| == |multiset(teamIds)|;
    }
    SwissRowsTagged(tournamentId, shuffled, |shuffled| / 2);
    var count := db.CreateMatches(plan.value);
    return Ok(count);
  }

  /** With distinct entrants, the first `k` Swiss pairings involve `x` once if it is among the first `2k` entrants. */
  lemma {:induction false} SwissPrefixOnce(tournamentId: int, teams: seq<int>, k: int, x: int)
    requires Distinct(teams) && 0 <= k && 2 * k <= |teams|
    ensures AppearancesIn(SwissRows(tournamentId, teams, k), x, 1) == if x in teams[..2 * k] then 1 else 0
  {
    if k > 0 {
      SwissPrefixOnce(tournamentId, teams, k - 1, x);
      var prev := SwissRows(tournamentId, teams, k - 1);
      var last := Scheduled(tournamentId, teams[2 * k - 2], teams[2 * k - 1], 1, SwissStage, None, None);
      AppearancesConcat(prev, [last], x, 1);
      AppearancesSingle([last], x, 1);
      PairPrefixStep(teams, k, x);
    }
  }

  /** Growing the prefix by one pair adds exactly that pair, whose entrants are new. */
  lemma PairPrefixStep(teams: seq<int>, k: int, x: int)
    requires Distinct(teams) && 1 <= k && 2 * k <= |teams|
    ensures x in teams[..2 * k] <==> x in teams[..2 * k - 2] || x == teams[2 * k - 2] || x == teams[2 * k - 1]
    ensures x in teams[..2 * k - 2] ==> x != teams[2 * k - 2] && x != teams[2 * k - 1]
    ensures teams[2 * k - 2] != teams[2 * k - 1]
  {
    assert teams[..2 * k] == teams[..2 * k - 2] + [teams[2 * k - 2], teams[2 * k - 1]];
    if x in teams[..2 * k - 2] {
      var m :| 0 <= m < 2 * k - 2 && teams[..2 * k - 2][m] == x;
      assert teams[m] == x;
    }
  }

  /** With distinct entrants, the Swiss first round has every entrant in exactly one match and no one else. */
  lemma SwissOnce(tournamentId: int, teams: seq<int>, x: int)
    requires Distinct(teams) && |teams| % 2 == 0
    ensures AppearancesIn(SwissRows(tournamentId, teams, |teams| / 2), x, 1) == if x in teams then 1 else 0
  {
    SwissPrefixOnce(tournamentId, teams, |teams| / 2, x);
    assert teams[..|teams|] == teams;
  }
}
