/**
 * The group stage of `generateGroupStageAndElimination`: the shuffled roster
 * is dealt round-robin into `numGroups` groups, and inside every group each
 * team meets each later team once, all in round 1 and tagged with the group's
 * name `Grupo A`, `Grupo B`, ...
 */
module GroupPhase {
  import opened Domain
  import opened Store

  // ---------------------------------------------------------------------
  // Dealing the roster into groups
  // ---------------------------------------------------------------------

  /** The members of group `k` among the first `n` entrants: those whose index is `k` modulo `g`, in order. */
  function GroupOf(teams: seq<int>, g: int, k: int, n: int): (grp: seq<int>)
    requires g >= 1 && 0 <= n <= |teams|
    ensures |grp| <= n
  {
    if n == 0 then []
    else GroupOf(teams, g, k, n - 1) + (if (n - 1) % g == k then [teams[n - 1]] else [])
  }

  /** All groups after the whole roster is dealt. */
  function Groups(teams: seq<int>, g: int): (groups: seq<seq<int>>)
    requires g >= 1
    ensures |groups| == g && forall k :: 0 <= k < g ==> groups[k] == GroupOf(teams, g, k, |teams|)
  {
    seq(g, k requires 0 <= k < g => GroupOf(teams, g, k, |teams|))
  }

  /** `shuffledTeams.forEach((teamId, index) => groups[index % numGroups].push(teamId))`. */
  method DealIntoGroups(shuffled: seq<int>, numGroups: int) returns (groups: seq<seq<int>>)
    requires numGroups >= 1
    ensures groups == Groups(shuffled, numGroups)
  {
    groups := seq(numGroups, _ => []);
    var index := 0;
    while index < |shuffled|
      invariant 0 <= index <= |shuffled| && |groups| == numGroups
      invariant forall k :: 0 <= k < numGroups ==> groups[k] == GroupOf(shuffled, numGroups, k, index)
    {
      var k := index % numGroups;
      groups := groups[k := groups[k] + [shuffled[index]]];
      index := index + 1;
    }
  }

  lemma MulNonneg(a: int, b: int)
    requires a >= 0 && b >= 0
    ensures a * b >= 0
  {}

  lemma MulAwayFromZero(d: int, g: int)
    requires g >= 1
    ensures d >= 1 ==> d * g >= g
    ensures d <= -1 ==> d * g <= -g
  {
    if d >= 1 {
      MulNonneg(d - 1, g);
      assert d * g == (d - 1) * g + g;
    } else if d <= -1 {
      MulNonneg(-d - 1, g);
      assert d * g == -((-d - 1) * g) - g;
    }
  }

  /** Euclidean division has one quotient and one remainder. */
  lemma DivModUnique(x: int, g: int, q: int, r: int)
    requires g >= 1 && 0 <= r < g && x == q * g + r
    ensures x / g == q && x % g == r
  {
    var d := q - x / g;
    assert d * g == x % g - r;
    MulAwayFromZero(d, g);
  }

  lemma MulBelow(m: int, q: int, g: int, k: int)
    requires 0 <= m < q && 0 <= k < g
    ensures 0 <= m * g + k < q * g
  {
    MulNonneg(m, g);
    MulNonneg(q - m - 1, g);
    assert q * g == m * g + g + (q - m - 1) * g;
  }

  /** Inside a block of `g` entrants starting at a multiple of `g`, group `k` gains only entrant `base + k`. */
  lemma {:induction false} GroupBlock(teams: seq<int>, g: int, k: int, q: int, j: int)
    requires g >= 1 && 0 <= k < g && q >= 0 && 0 <= j <= g && q * g + j <= |teams|
    ensures GroupOf(teams, g, k, q * g + j)
         == GroupOf(teams, g, k, q * g) + (if k < j then [teams[q * g + k]] else [])
  {
    if j > 0 {
      GroupBlock(teams, g, k, q, j - 1);
      DivModUnique(q * g + j - 1, g, q, j - 1);
    }
  }

  /**
   * After `q` whole blocks, group `k` holds `q` entrants, the `m`-th of them
   * being entrant `m * g + k`.
   */
  lemma {:induction false} GroupBlocks(teams: seq<int>, g: int, k: int, q: int)
    requires g >= 1 && 0 <= k < g && q >= 0 && q * g <= |teams|
    ensures |GroupOf(teams, g, k, q * g)| == q
    ensures forall m :: 0 <= m < q ==> 0 <= m * g + k < |teams| && GroupOf(teams, g, k, q * g)[m] == teams[m * g + k]
  {
    if q > 0 {
      assert (q - 1) * g + g == q * g;
      GroupBlocks(teams, g, k, q - 1);
      GroupBlock(teams, g, k, q - 1, g);
      var prev := GroupOf(teams, g, k, (q - 1) * g);
      var grp := GroupOf(teams, g, k, q * g);
      assert grp == prev + [teams[(q - 1) * g + k]];
      forall m | 0 <= m < q ensures 0 <= m * g + k < |teams| && grp[m] == teams[m * g + k] {
        MulBelow(m, q, g, k);
      }
    }
  }

  /**
   * With `g` dividing the roster size, every group gets `n / g` entrants and
   * the `m`-th member of group `k` is entrant `m * g + k`; so entrant `t`
   * lands in group `t % g` at place `t / g`.
   */
  lemma GroupMembers(teams: seq<int>, g: int, k: int)
    requires g >= 1 && 0 <= k < g && |teams| % g == 0
    ensures |Groups(teams, g)[k]| == |teams| / g
    ensures forall m :: 0 <= m < |teams| / g ==> 0 <= m * g + k < |teams| && Groups(teams, g)[k][m] == teams[m * g + k]
  {
    assert (|teams| / g) * g == |teams|;
    GroupBlocks(teams, g, k, |teams| / g);
  }

  // ---------------------------------------------------------------------
  // The matches of one group
  // ---------------------------------------------------------------------

  /** The code unit `String.fromCharCode` yields, with a lone surrogate shown as the replacement character. */
  function GroupLetter(groupIndex: int): char
    requires groupIndex >= 0
  {
    var code := (65 + groupIndex) % 0x1_0000;
    if code < 0xD800 || code >= 0xE000 then code as char else '�'
  }

  function GroupName(groupIndex: int): string
    requires groupIndex >= 0
  {
    "Grupo " + [GroupLetter(groupIndex)]
  }

  /** The first 26 groups are "Grupo A" to "Grupo Z", so no two of them share a name. */
  lemma GroupNameSpelled(j: int, k: int)
    requires 0 <= j < k < 26
    ensures GroupName(j) == "Grupo " + ["ABCDEFGHIJKLMNOPQRSTUVWXYZ"[j]]
    ensures GroupName(k) == "Grupo " + ["ABCDEFGHIJKLMNOPQRSTUVWXYZ"[k]]
    ensures GroupName(j) != GroupName(k)
  {
    assert GroupName(j)[6] != GroupName(k)[6];
  }

  function GroupMatch(tournamentId: int, a: int, b: int, groupName: string): Match
  {
    Scheduled(tournamentId, a, b, 1, GroupStage, Some(groupName), None)
  }

  /** The inner loop's matches so far: member `i` against members `i + 1`, ..., `j - 1`. */
  function InnerRows(tournamentId: int, grp: seq<int>, groupName: string, i: int, j: int): (rows: seq<Match>)
    requires 0 <= i && j <= |grp|
    ensures |rows| == if j <= i + 1 then 0 else j - i - 1
    decreases j
  {
    if j <= i + 1 then []
    else InnerRows(tournamentId, grp, groupName, i, j - 1) + [GroupMatch(tournamentId, grp[i], grp[j - 1], groupName)]
  }

  /** The outer loop's matches so far: every pair whose first member is below `i`. */
  function OuterRows(tournamentId: int, grp: seq<int>, groupName: string, i: int): seq<Match>
    requires 0 <= i <= |grp|
  {
    if i == 0 then []
    else OuterRows(tournamentId, grp, groupName, i - 1) + InnerRows(tournamentId, grp, groupName, i - 1, |grp|)
  }

  /** The two nested loops over one group, appending to `matchesToCreate`. */
  method PairGroup(tournamentId: int, groupTeams: seq<int>, groupName: string, matchesToCreate: seq<Match>)
    returns (matches: seq<Match>)
    ensures matches == matchesToCreate + OuterRows(tournamentId, groupTeams, groupName, |groupTeams|)
  {
    matches := matchesToCreate;
    var i := 0;
    while i < |groupTeams|
      invariant 0 <= i <= |groupTeams|
      invariant matches == matchesToCreate + OuterRows(tournamentId, groupTeams, groupName, i)
    {
      var j := i + 1;
      while j < |groupTeams|
        invariant i + 1 <= j <= |groupTeams|
        invariant matches == matchesToCreate + OuterRows(tournamentId, groupTeams, groupName, i)
                             + InnerRows(tournamentId, groupTeams, groupName, i, j)
      {
        matches := matches + [GroupMatch(tournamentId, groupTeams[i], groupTeams[j], groupName)];
        j := j + 1;
      }
      i := i + 1;
    }
  }

  /** A group of `s` teams plays `s * (s - 1) / 2` matches. */
  lemma {:induction false} OuterRowsCount(tournamentId: int, grp: seq<int>, groupName: string, i: int)
    requires 0 <= i <= |grp|
    ensures 2 * |OuterRows(tournamentId, grp, groupName, i)| == i * (2 * |grp| - i - 1)
  {
    if i > 0 {
      OuterRowsCount(tournamentId, grp, groupName, i - 1);
      OuterStep(i, |grp|);
    }
  }

  lemma OuterStep(i: int, s: int)
    ensures i * (2 * s - i - 1) == (i - 1) * (2 * s - i) + 2 * (s - i)
  {}

  lemma GroupRowsCount(tournamentId: int, grp: seq<int>, groupName: string)
    ensures |OuterRows(tournamentId, grp, groupName, |grp|)| == |grp| * (|grp| - 1) / 2
  {
    OuterRowsCount(tournamentId, grp, groupName, |grp|);
  }

  lemma {:induction false} InnerRowsAt(tournamentId: int, grp: seq<int>, groupName: string, i: int, j: int, b: int)
    requires 0 <= i < b < j <= |grp|
    ensures InnerRows(tournamentId, grp, groupName, i, j)[b - i - 1] == GroupMatch(tournamentId, grp[i], grp[b], groupName)
    decreases j
  {
    if b < j - 1 {
      InnerRowsAt(tournamentId, grp, groupName, i, j - 1, b);
    }
  }

  /** Members `a < b` of a group meet in one of its matches. */
  lemma {:induction false} PairPlayed(tournamentId: int, grp: seq<int>, groupName: string, i: int, a: int, b: int)
    requires 0 <= a < b < |grp| && a < i <= |grp|
    ensures GroupMatch(tournamentId, grp[a], grp[b], groupName) in OuterRows(tournamentId, grp, groupName, i)
  {
    if a == i - 1 {
      InnerRowsAt(tournamentId, grp, groupName, a, |grp|, b);
      var inner := InnerRows(tournamentId, grp, groupName, a, |grp|);
      assert inner[b - a - 1] in inner;
      assert OuterRows(tournamentId, grp, groupName, i) == OuterRows(tournamentId, grp, groupName, a) + inner;
    } else {
      PairPlayed(tournamentId, grp, groupName, i - 1, a, b);
      assert OuterRows(tournamentId, grp, groupName, i)
          == OuterRows(tournamentId, grp, groupName, i - 1) + InnerRows(tournamentId, grp, groupName, i - 1, |grp|);
    }
  }

  /** Every match of the inner loop is member `i` against a later member of the group. */
  lemma {:induction false} InnerRowsSound(tournamentId: int, grp: seq<int>, groupName: string, i: int, j: int)
    requires 0 <= i && j <= |grp|
    ensures forall m :: m in InnerRows(tournamentId, grp, groupName, i, j) ==>
      exists b :: i < b < j && m == GroupMatch(tournamentId, grp[i], grp[b], groupName)
    decreases j
  {
    if j > i + 1 {
      InnerRowsSound(tournamentId, grp, groupName, i, j - 1);
      var last := GroupMatch(tournamentId, grp[i], grp[j - 1], groupName);
      assert InnerRows(tournamentId, grp, groupName, i, j) == InnerRows(tournamentId, grp, groupName, i, j - 1) + [last];
    }
  }

  /** Every match of a group is a pair of its members `a < b`, and nothing else. */
  lemma {:induction false} GroupRowsSound(tournamentId: int, grp: seq<int>, groupName: string, i: int)
    requires 0 <= i <= |grp|
    ensures forall m :: m in OuterRows(tournamentId, grp, groupName, i) ==>
      exists a, b :: 0 <= a < b < |grp| && m == GroupMatch(tournamentId, grp[a], grp[b], groupName)
  {
    if i > 0 {
      GroupRowsSound(tournamentId, grp, groupName, i - 1);
      InnerRowsSound(tournamentId, grp, groupName, i - 1, |grp|);
    }
  }

  // ---------------------------------------------------------------------
  // The whole stage
  // ---------------------------------------------------------------------

  /** The matches of groups `0 .. gi - 1`, in order. */
  function StageRows(tournamentId: int, groups: seq<seq<int>>, gi: int): seq<Match>
    requires 0 <= gi <= |groups|
  {
    if gi == 0 then []
    else StageRows(tournamentId, groups, gi - 1)
         + OuterRows(tournamentId, groups[gi - 1], GroupName(gi - 1), |groups[gi - 1]|)
  }

  /** The group-stage rows for the shuffled roster. */
  function GroupStageRows(tournamentId: int, shuffled: seq<int>, numGroups: int): seq<Match>
    requires numGroups >= 1
  {
    StageRows(tournamentId, Groups(shuffled, numGroups), numGroups)
  }

  /**
   * The loops of `generateGroupStageAndElimination` (which, despite its name,
   * writes only the group stage). Fewer than two teams per group, or a roster
   * the groups do not divide, are refused.
   */
  method PlanGroupStage(tournamentId: int, teamIds: seq<int>, shuffled: seq<int>, numGroups: int)
    returns (r: Result<seq<Match>>)
    requires numGroups >= 1 && multiset(shuffled) == multiset(teamIds)
    ensures |teamIds| < numGroups * 2 || |teamIds| % numGroups != 0 ==> r == Err(InvalidConfiguration)
    ensures |teamIds| >= numGroups * 2 && |teamIds| % numGroups == 0 ==>
      r == Ok(GroupStageRows(tournamentId, shuffled, numGroups))
  {
    var numTeams := |teamIds|;
    if numTeams < numGroups * 2 || numTeams % numGroups != 0 {
      return Err(InvalidConfiguration);
    }
    var groups := DealIntoGroups(shuffled, numGroups);
    var matchesToCreate := PairAllGroups(tournamentId, groups);
    return Ok(matchesToCreate);
  }

  /** `for (let groupIndex = 0; groupIndex < numGroups; groupIndex++)`: every group's pairings, named after its index. */
  method PairAllGroups(tournamentId: int, groups: seq<seq<int>>) returns (matchesToCreate: seq<Match>)
    ensures matchesToCreate == StageRows(tournamentId, groups, |groups|)
  {
    matchesToCreate := [];
    var groupIndex := 0;
    while groupIndex < |groups|
      invariant 0 <= groupIndex <= |groups|
      invariant matchesToCreate == StageRows(tournamentId, groups, groupIndex)
    {
      var groupTeams := groups[groupIndex];
      var groupName := GroupName(groupIndex);
      matchesToCreate := PairGroup(tournamentId, groupTeams, groupName, matchesToCreate);
      groupIndex := groupIndex + 1;
    }
  }

  lemma {:induction false} StageRowsTagged(tournamentId: int, groups: seq<seq<int>>, gi: int)
    requires 0 <= gi <= |groups|
    ensures forall m :: m in StageRows(tournamentId, groups, gi) ==>
      && m.tournamentId == tournamentId && m.round == 1 && m.stage == GroupStage && !m.played
      && exists k :: 0 <= k < gi && m.groupName == Some(GroupName(k))
  {
    if gi > 0 {
      StageRowsTagged(tournamentId, groups, gi - 1);
      var grp := groups[gi - 1];
      GroupRowsSound(tournamentId, grp, GroupName(gi - 1), |grp|);
    }
  }

  /** `generateGroupStageAndElimination`: plans the group stage and writes it with `createMany`. */
  method GenerateGroupStage(db: Database, tournamentId: int, teamIds: seq<int>, shuffled: seq<int>, numGroups: int)
    returns (r: Result<int>)
    requires db.Valid() && tournamentId in db.tournaments && multiset(shuffled) == multiset(teamIds)
    requires numGroups >= 1
    modifies db
    ensures db.Valid()
    ensures db.edges == old(db.edges) && db.tournaments == old(db.tournaments) && db.registrations == old(db.registrations)
    ensures |teamIds| < numGroups * 2 || |teamIds| % numGroups != 0 ==>
      r == Err(InvalidConfiguration) && db.matches == old(db.matches)
    ensures |teamIds| >= numGroups * 2 && |teamIds| % numGroups == 0 ==>
      && db.matches == old(db.matches) + GroupStageRows(tournamentId, shuffled, numGroups)
      && r == Ok(|GroupStageRows(tournamentId, shuffled, numGroups)|)
  {
    var plan := PlanGroupStage(tournamentId, teamIds, shuffled, numGroups);
    if plan.Err? {
      return Err(plan.error);
    }
    var rows := GroupStageRows(tournamentId, shuffled, numGroups);
    StageRowsTagged(tournamentId, Groups(shuffled, numGroups), numGroups);
    assert forall i :: 0 <= i < |rows| ==> rows[i] in rows;
    var count := db.CreateMatches(plan.value);
    return Ok(count);
  }

  /** Groups of `c` matches each make `gi * c` matches in all. */
  lemma {:induction false} StageRowsCount(tournamentId: int, groups: seq<seq<int>>, gi: int, c: int)
    requires 0 <= gi <= |groups|
    requires forall k :: 0 <= k < |groups| ==> |OuterRows(tournamentId, groups[k], GroupName(k), |groups[k]|)| == c
    ensures |StageRows(tournamentId, groups, gi)| == gi * c
  {
    if gi > 0 {
      StageRowsCount(tournamentId, groups, gi - 1, c);
      assert (gi - 1) * c + c == gi * c;
    }
  }

  /**
   * For a valid roster of `n = g * s` teams, the `g` groups of `s` meet in
   * `g * (s * (s - 1) / 2)` matches; and members `a` and `b` of group `k`,
   * entrants `a * g + k` and `b * g + k`, meet in one of them.
   */
  lemma GroupStageShape(tournamentId: int, shuffled: seq<int>, numGroups: int, k: int, a: int, b: int)
    requires numGroups >= 1 && |shuffled| % numGroups == 0
    requires 0 <= k < numGroups && 0 <= a < b < |shuffled| / numGroups
    ensures var s := |shuffled| / numGroups;
      |GroupStageRows(tournamentId, shuffled, numGroups)| == numGroups * (s * (s - 1) / 2)
    ensures 0 <= a * numGroups + k < |shuffled| && 0 <= b * numGroups + k < |shuffled|
    ensures GroupMatch(tournamentId, shuffled[a * numGroups + k], shuffled[b * numGroups + k], GroupName(k))
            in GroupStageRows(tournamentId, shuffled, numGroups)
  {
    var groups := Groups(shuffled, numGroups);
    var s := |shuffled| / numGroups;
    forall j | 0 <= j < numGroups
      ensures |OuterRows(tournamentId, groups[j], GroupName(j), |groups[j]|)| == s * (s - 1) / 2
    {
      GroupMembers(shuffled, numGroups, j);
      GroupRowsCount(tournamentId, groups[j], GroupName(j));
    }
    StageRowsCount(tournamentId, groups, numGroups, s * (s - 1) / 2);
    GroupMembers(shuffled, numGroups, k);
    PairPlayed(tournamentId, groups[k], GroupName(k), |groups[k]|, a, b);
    StageRowsContain(tournamentId, groups, numGroups, k);
  }

  /** The stage holds every match of every group before `gi`. */
  lemma {:induction false} StageRowsContain(tournamentId: int, groups: seq<seq<int>>, gi: int, k: int)
    requires 0 <= k < gi <= |groups|
    ensures forall m :: m in OuterRows(tournamentId, groups[k], GroupName(k), |groups[k]|) ==>
      m in StageRows(tournamentId, groups, gi)
  {
    if k < gi - 1 {
      StageRowsContain(tournamentId, groups, gi - 1, k);
    }
  }
}
