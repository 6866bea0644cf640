/**
 * Round-robin schedules by the circle method: the first entrant of the circle
 * stays put, the others rotate one place per round, and each round pairs the
 * fixed entrant with the head of the rotation and the rest mirror-wise. An
 * odd roster is padded with the bye sentinel 0, and a pairing with the
 * sentinel is dropped.
 */
module RoundRobin {
  import opened Domain
  import opened Store

  /** The circle: the roster, padded with the bye sentinel 0 when its size is odd. */
  function Padded(teams: seq<int>): (t: seq<int>)
    ensures |t| % 2 == 0 && |teams| <= |t| <= |teams| + 1
  {
    if |teams| % 2 != 0 then teams + [0] else teams
  }

  /** The rotating entrants after `s` rotations, each moving the last entry to the front. */
  function Rotated(r: seq<int>, s: int): (rot: seq<int>)
    requires 0 <= s <= |r|
    ensures |rot| == |r|
  {
    r[|r| - s..] + r[..|r| - s]
  }

  function RoundRobinMatch(tournamentId: int, a: int, b: int, round: int): Match
  {
    Scheduled(tournamentId, a, b, round, RoundRobinStage, None, None)
  }

  /** The fixed entrant against the head of the rotation, unless either is the sentinel. */
  function FixedPairing(tournamentId: int, fixed: int, rot: seq<int>, round: int): seq<Match>
    requires |rot| >= 1
  {
    if fixed != 0 && rot[0] != 0 then [RoundRobinMatch(tournamentId, fixed, rot[0], round)] else []
  }

  /** The `i`-th mirror pairing, `rot[i]` against `rot[|rot| - i]`, unless either is the sentinel. */
  function MirrorPairing(tournamentId: int, rot: seq<int>, i: int, round: int): seq<Match>
    requires 1 <= i < |rot|
  {
    if rot[i] != 0 && rot[|rot| - i] != 0 then [RoundRobinMatch(tournamentId, rot[i], rot[|rot| - i], round)] else []
  }

  /** The mirror pairings 1 .. i-1 of one round, in order. */
  function MirrorPairings(tournamentId: int, rot: seq<int>, i: int, round: int): seq<Match>
    requires 1 <= i <= |rot|
    decreases i
  {
    if i == 1 then []
    else MirrorPairings(tournamentId, rot, i - 1, round) + MirrorPairing(tournamentId, rot, i - 1, round)
  }

  /** One round: the fixed pairing, then the mirror pairings of the rotating list `rot`. */
  function RoundOf(tournamentId: int, fixed: int, rot: seq<int>, round: int): seq<Match>
    requires |rot| >= 1
  {
    FixedPairing(tournamentId, fixed, rot, round) + MirrorPairings(tournamentId, rot, (|rot| + 1) / 2, round)
  }

  /** The round of circle `t` played after `s` rotations; its number is `s + 1`. */
  function Round(tournamentId: int, t: seq<int>, s: int): seq<Match>
    requires |t| >= 2 && 0 <= s < |t| - 1
  {
    RoundOf(tournamentId, t[0], Rotated(t[1..], s), s + 1)
  }

  /** The first `k` rounds of circle `t`, in order. */
  function Rounds(tournamentId: int, t: seq<int>, k: int): seq<Match>
    requires |t| >= 2 && 0 <= k <= |t| - 1
  {
    if k == 0 then [] else Rounds(tournamentId, t, k - 1) + Round(tournamentId, t, k - 1)
  }

  /** The whole schedule of a roster: one round per rotation, padded size minus one rounds. */
  function Schedule(tournamentId: int, teams: seq<int>): seq<Match>
    requires |teams| >= 2
  {
    var t := Padded(teams);
    Rounds(tournamentId, t, |t| - 1)
  }

  /** Moving the last entry of the `s`-th rotation to the front gives the next rotation. */
  lemma RotateOnce(r: seq<int>, s: int, current: seq<int>)
    requires 0 <= s < |r| && current == Rotated(r, s)
    ensures |current| == |r|
    ensures [current[|r| - 1]] + current[..|r| - 1] == Rotated(r, s + 1)
  {
    var m := |r|;
    assert current[m - 1] == r[m - s - 1];
    assert current[..m - 1] == r[m - s..] + r[..m - s - 1];
    assert r[m - s - 1..] == [r[m - s - 1]] + r[m - s..];
  }

  /** A single rotating entry is left where it is. */
  lemma RotateSingle(r: seq<int>, current: seq<int>)
    requires |r| == 1 && current == Rotated(r, 0)
    ensures current == Rotated(r, 1)
  {
  }

  lemma RoundsStep(tournamentId: int, t: seq<int>, k: int)
    requires |t| >= 2 && 0 <= k < |t| - 1
    ensures Rounds(tournamentId, t, k + 1) == Rounds(tournamentId, t, k) + RoundOf(tournamentId, t[0], Rotated(t[1..], k), k + 1)
  {
  }

  /** Appending the round of the `k`-th rotation to the first `k` rounds gives the first `k + 1`. */
  lemma RoundsExtend(tournamentId: int, t: seq<int>, k: int, matches: seq<Match>, fixed: int, rot: seq<int>)
    requires |t| >= 2 && 0 <= k < |t| - 1
    requires matches == Rounds(tournamentId, t, k) && fixed == t[0] && rot == Rotated(t[1..], k)
    ensures |rot| >= 1
    ensures matches + RoundOf(tournamentId, fixed, rot, k + 1) == Rounds(tournamentId, t, k + 1)
  {
    RoundsStep(tournamentId, t, k);
  }

  /** `n / 2` pinned down linearly. */
  lemma HalfBounds(n: int)
    requires n >= 0
    ensures 2 * (n / 2) <= n <= 2 * (n / 2) + 1
  {
  }

  lemma AppendAssociates(a: seq<Match>, b: seq<Match>, c: seq<Match>)
    ensures (a + b) + c == a + (b + c)
  {
  }

  /**
   * The body of `generateRoundRobin`'s round loop: appends the fixed pairing
   * and the mirror pairings of one round to `matchesToCreate`.
   */
  method PlanRound(tournamentId: int, matchesToCreate: seq<Match>, fixedTeam: int, rotatingTeams: seq<int>,
                   round: int) returns (result: seq<Match>)
    requires |rotatingTeams| >= 1
    ensures result == matchesToCreate + RoundOf(tournamentId, fixedTeam, rotatingTeams, round)
  {
    var numTeamsPadded := |rotatingTeams| + 1;
    HalfBounds(numTeamsPadded);
    result := matchesToCreate;
    if fixedTeam != 0 && rotatingTeams[0] != 0 {
      result := result + [RoundRobinMatch(tournamentId, fixedTeam, rotatingTeams[0], round)];
    }
    ghost var start := result;
    assert start == matchesToCreate + FixedPairing(tournamentId, fixedTeam, rotatingTeams, round);
    assert start + MirrorPairings(tournamentId, rotatingTeams, 1, round) == start;
    var i := 1;
    while i < numTeamsPadded / 2
      invariant 1 <= i <= numTeamsPadded / 2
      invariant result == start + MirrorPairings(tournamentId, rotatingTeams, i, round)
    {
      var teamAId := rotatingTeams[i];
      var teamBId := rotatingTeams[numTeamsPadded - 1 - i];
      ghost var done := MirrorPairings(tournamentId, rotatingTeams, i, round);
      ghost var pairing := MirrorPairing(tournamentId, rotatingTeams, i, round);
      if teamAId != 0 && teamBId != 0 {
        result := result + [RoundRobinMatch(tournamentId, teamAId, teamBId, round)];
      }
      assert result == (start + done) + pairing;
      AppendAssociates(start, done, pairing);
      i := i + 1;
    }
    AppendAssociates(matchesToCreate, FixedPairing(tournamentId, fixedTeam, rotatingTeams, round),
                     MirrorPairings(tournamentId, rotatingTeams, numTeamsPadded / 2, round));
  }

  /** An odd roster gets the bye sentinel 0 appended. */
  method PadRoster(teamIds: seq<int>) returns (teams: seq<int>)
    ensures teams == Padded(teamIds)
  {
    teams := teamIds;
    var hasBye := |teamIds| % 2 != 0;
    if hasBye {
      teams := teams + [0];
    }
  }

  /**
   * `generateRoundRobin`'s loops: rejects fewer than 2 teams, pads an odd
   * roster with 0, and collects the circle-method pairings round by round.
   */
  method PlanRoundRobin(tournamentId: int, teamIds: seq<int>) returns (r: Result<seq<Match>>)
    ensures |teamIds| < 2 ==> r == Err(InvalidConfiguration)
    ensures |teamIds| >= 2 ==> r == Ok(Schedule(tournamentId, teamIds))
  {
    var numTeams := |teamIds|;
    if numTeams < 2 {
      return Err(InvalidConfiguration);
    }
    var teams := PadRoster(teamIds);
    var matchesToCreate := PlanCircle(tournamentId, teams);
    return Ok(matchesToCreate);
  }

  /** `rotatingTeams.unshift(rotatingTeams.pop())`. */
  method RotateRight(rotatingTeams: seq<int>) returns (next: seq<int>)
    requires |rotatingTeams| >= 1
    ensures next == [rotatingTeams[|rotatingTeams| - 1]] + rotatingTeams[..|rotatingTeams| - 1]
  {
    var lastTeam := rotatingTeams[|rotatingTeams| - 1];
    next := rotatingTeams[..|rotatingTeams| - 1];
    next := [lastTeam] + next;
  }

  /** One pass of `generateRoundRobin`'s round loop: plays round `k + 1`, then rotates the circle. */
  method PlayRound(tournamentId: int, teams: seq<int>, k: int, matchesToCreate: seq<Match>, fixedTeam: int,
                   rotatingTeams: seq<int>) returns (matches: seq<Match>, next: seq<int>)
    requires |teams| >= 2 && 0 <= k < |teams| - 1 && fixedTeam == teams[0]
    requires matchesToCreate == Rounds(tournamentId, teams, k) && rotatingTeams == Rotated(teams[1..], k)
    ensures matches == Rounds(tournamentId, teams, k + 1) && next == Rotated(teams[1..], k + 1)
  {
    var numTeamsPadded := |teams|;
    RoundsExtend(tournamentId, teams, k, matchesToCreate, fixedTeam, rotatingTeams);
    matches := PlanRound(tournamentId, matchesToCreate, fixedTeam, rotatingTeams, k + 1);
    if numTeamsPadded > 2 {
      RotateOnce(teams[1..], k, rotatingTeams);
      next := RotateRight(rotatingTeams);
    } else {
      RotateSingle(teams[1..], rotatingTeams);
      next := rotatingTeams;
    }
  }

  /** The round loop of `generateRoundRobin` over the padded circle `teams`. */
  method PlanCircle(tournamentId: int, teams: seq<int>) returns (matchesToCreate: seq<Match>)
    requires |teams| >= 2
    ensures matchesToCreate == Rounds(tournamentId, teams, |teams| - 1)
  {
    var numTeamsPadded := |teams|;
    var numRounds := numTeamsPadded - 1;
    matchesToCreate := [];
    var fixedTeam := teams[0];
    var rotatingTeams := teams[1..];
    var round := 1;
    while round <= numRounds
      invariant 1 <= round <= numRounds + 1
      invariant matchesToCreate == Rounds(tournamentId, teams, round - 1) && rotatingTeams == Rotated(teams[1..], round - 1)
    {
      matchesToCreate, rotatingTeams := PlayRound(tournamentId, teams, round - 1, matchesToCreate, fixedTeam, rotatingTeams);
      round := round + 1;
    }
  }

  /** `generateRoundRobin`: plans the schedule and writes it in one batch. */
  method GenerateRoundRobin(db: Database, tournamentId: int, teamIds: seq<int>) returns (r: Result<int>)
    requires db.Valid() && tournamentId in db.tournaments
    modifies db
    ensures db.Valid()
    ensures db.edges == old(db.edges) && db.tournaments == old(db.tournaments)
    ensures db.registrations == old(db.registrations)
    ensures |teamIds| < 2 ==> r == Err(InvalidConfiguration) && db.matches == old(db.matches)
    ensures |teamIds| >= 2 ==>
      && db.matches == old(db.matches) + Schedule(tournamentId, teamIds)
      && r == Ok(|Schedule(tournamentId, teamIds)|)
  {
    var plan := PlanRoundRobin(tournamentId, teamIds);
    if plan.Err? {
      return Err(plan.error);
    }
    ScheduleBelongsTo(tournamentId, teamIds);
    var count := db.CreateMatches(plan.value);
    return Ok(count);
  }

  // ---------------------------------------------------------------------
  // Positions on the circle
  // ---------------------------------------------------------------------

  /** Where entry `a` of a rotating list of length `m` sits after `s` rotations. */
  function Slot(m: int, a: int, s: int): int
  {
    if a + s < m then a + s else a + s - m
  }

  /** Which entry of a rotating list of length `m` sits at position `k` after `s` rotations. */
  function Origin(m: int, k: int, s: int): int
  {
    if k < s then m - s + k else k - s
  }

  lemma RotatedAt(r: seq<int>, s: int, k: int)
    requires 0 <= s <= |r| && 0 <= k < |r|
    ensures 0 <= Origin(|r|, k, s) < |r| && Rotated(r, s)[k] == r[Origin(|r|, k, s)]
  {
  }

  lemma SlotOrigin(m: int, a: int, k: int, s: int)
    requires 0 <= s < m && 0 <= a < m && 0 <= k < m
    ensures 0 <= Slot(m, a, s) < m
    ensures Origin(m, k, s) == a <==> Slot(m, a, s) == k
  {
  }

  /** The entries of a distinct list sit at distinct positions, whatever the rotation. */
  lemma RotatedMatchesEntry(r: seq<int>, s: int, k: int, a: int)
    requires Distinct(r) && 0 <= s < |r| && 0 <= k < |r| && 0 <= a < |r|
    ensures Rotated(r, s)[k] == r[a] <==> k == Slot(|r|, a, s)
  {
    RotatedAt(r, s, k);
    SlotOrigin(|r|, a, k, s);
    var o := Origin(|r|, k, s);
    if o < a {
      assert r[o] != r[a];
    } else if a < o {
      assert r[a] != r[o];
    }
  }

  lemma RotatedIsFromList(r: seq<int>, s: int, k: int)
    requires 0 <= s <= |r| && 0 <= k < |r|
    ensures Rotated(r, s)[k] in r
  {
    RotatedAt(r, s, k);
  }

  lemma RotatedDistinct(r: seq<int>, s: int)
    requires Distinct(r) && 0 <= s < |r|
    ensures Distinct(Rotated(r, s))
  {
    var rot := Rotated(r, s);
    forall i, j | 0 <= i < j < |rot| ensures rot[i] != rot[j] {
      RotatedAt(r, s, i);
      RotatedMatchesEntry(r, s, j, Origin(|r|, i, s));
      SlotOrigin(|r|, Origin(|r|, i, s), i, s);
    }
  }

  /**
   * A well-formed circle: even, at least two entries, distinct, and only the
   * last entry may be the sentinel.
   */
  ghost predicate ProperCircle(t: seq<int>)
  {
    && |t| >= 2 && |t| % 2 == 0 && Distinct(t)
    && forall k :: 0 <= k < |t| - 1 ==> t[k] != 0
  }

  /** The padded circle of a roster of distinct positive ids is proper and extends the roster. */
  lemma PaddedWellFormed(teams: seq<int>)
    requires |teams| >= 2 && AllPositive(teams) && Distinct(teams)
    ensures ProperCircle(Padded(teams))
    ensures forall k :: 0 <= k < |teams| ==> Padded(teams)[k] == teams[k]
  {
  }

  lemma TailAt(t: seq<int>, k: int)
    requires 1 <= k < |t|
    ensures |t[1..]| == |t| - 1 && t[1..][k - 1] == t[k]
  {
  }

  /** The rotating part of a proper circle: distinct, the fixed entrant not among it. */
  lemma CircleParts(t: seq<int>)
    requires ProperCircle(t)
    ensures Distinct(t[1..]) && t[0] !in t[1..] && t[0] != 0
  {
  }

  // ---------------------------------------------------------------------
  // Each pair meets exactly once
  // ---------------------------------------------------------------------

  predicate Meets(m: Match, x: int, y: int)
  {
    (m.teamA == Some(x) && m.teamB == Some(y)) || (m.teamA == Some(y) && m.teamB == Some(x))
  }

  /** How many matches of `ms` are between `x` and `y`, in either order. */
  function CountMeets(ms: seq<Match>, x: int, y: int): nat
  {
    if ms == [] then 0
    else CountMeets(ms[..|ms| - 1], x, y) + (if Meets(ms[|ms| - 1], x, y) then 1 else 0)
  }

  lemma {:induction false} CountMeetsConcat(a: seq<Match>, b: seq<Match>, x: int, y: int)
    ensures CountMeets(a + b, x, y) == CountMeets(a, x, y) + CountMeets(b, x, y)
    decreases |b|
  {
    if b != [] {
      assert (a + b)[..|a + b| - 1] == a + b[..|b| - 1];
      CountMeetsConcat(a, b[..|b| - 1], x, y);
    } else {
      assert a + b == a;
    }
  }

  lemma {:induction false} MeetsSymmetric(ms: seq<Match>, x: int, y: int)
    ensures CountMeets(ms, x, y) == CountMeets(ms, y, x)
    decreases |ms|
  {
    if ms != [] {
      MeetsSymmetric(ms[..|ms| - 1], x, y);
    }
  }

  lemma CountMeetsSingle(ms: seq<Match>, x: int, y: int)
    requires |ms| <= 1
    ensures CountMeets(ms, x, y) == if ms != [] && Meets(ms[0], x, y) then 1 else 0
  {
    if ms != [] {
      assert ms[..0] == [];
    }
  }

  function Min(a: int, b: int): int
  {
    if a <= b then a else b
  }

  /** `x` sits at position `k` of `rot` and nowhere else; `k < 0` means nowhere at all. */
  ghost predicate OnlyAt(rot: seq<int>, x: int, k: int)
  {
    -1 <= k < |rot| && forall j :: 0 <= j < |rot| ==> (rot[j] == x <==> j == k)
  }

  /** After `s` rotations entry `a` of a list of distinct ids sits at `Slot(|r|, a, s)` only. */
  lemma RotatedOnlyAt(r: seq<int>, s: int, a: int)
    requires Distinct(r) && 0 <= s < |r| && 0 <= a < |r|
    ensures 0 <= Slot(|r|, a, s) < |r|
    ensures OnlyAt(Rotated(r, s), r[a], Slot(|r|, a, s))
  {
    forall k | 0 <= k < |r| ensures Rotated(r, s)[k] == r[a] <==> k == Slot(|r|, a, s) {
      RotatedMatchesEntry(r, s, k, a);
    }
  }

  /** Mirror pairing `i` meets `x` (only at `ka`) and `y` (only at `kb`) exactly when those are its two positions. */
  lemma MirrorPairingMeets(tournamentId: int, rot: seq<int>, i: int, round: int, x: int, y: int, ka: int, kb: int)
    requires 1 <= i && 2 * i < |rot|
    requires OnlyAt(rot, x, ka) && OnlyAt(rot, y, kb) && 0 <= ka && 0 <= kb && x != y && x != 0 && y != 0
    ensures CountMeets(MirrorPairing(tournamentId, rot, i, round), x, y) == if ka + kb == |rot| && Min(ka, kb) == i then 1 else 0
  {
    var m := |rot|;
    assert rot[i] == x <==> i == ka;
    assert rot[i] == y <==> i == kb;
    assert rot[m - i] == x <==> m - i == ka;
    assert rot[m - i] == y <==> m - i == kb;
    CountMeetsSingle(MirrorPairing(tournamentId, rot, i, round), x, y);
  }

  lemma {:induction false} MirrorPairingsMeet(tournamentId: int, rot: seq<int>, i: int, round: int, x: int, y: int, ka: int, kb: int)
    requires 1 <= i && 2 * (i - 1) < |rot|
    requires OnlyAt(rot, x, ka) && OnlyAt(rot, y, kb) && 0 <= ka && 0 <= kb && x != y && x != 0 && y != 0
    ensures CountMeets(MirrorPairings(tournamentId, rot, i, round), x, y) == if ka + kb == |rot| && Min(ka, kb) < i then 1 else 0
    decreases i
  {
    if i > 1 {
      var done := MirrorPairings(tournamentId, rot, i - 1, round);
      var pairing := MirrorPairing(tournamentId, rot, i - 1, round);
      MirrorPairingsMeet(tournamentId, rot, i - 1, round, x, y, ka, kb);
      MirrorPairingMeets(tournamentId, rot, i - 1, round, x, y, ka, kb);
      CountMeetsConcat(done, pairing, x, y);
    }
  }

  /** The fixed entrant never takes part in a mirror pairing. */
  lemma {:induction false} MirrorPairingsMissFixed(tournamentId: int, rot: seq<int>, i: int, round: int, fixed: int, y: int)
    requires 1 <= i <= |rot| && fixed !in rot
    ensures CountMeets(MirrorPairings(tournamentId, rot, i, round), fixed, y) == 0
    decreases i
  {
    if i > 1 {
      MirrorPairingsMissFixed(tournamentId, rot, i - 1, round, fixed, y);
      CountMeetsSingle(MirrorPairing(tournamentId, rot, i - 1, round), fixed, y);
      CountMeetsConcat(MirrorPairings(tournamentId, rot, i - 1, round), MirrorPairing(tournamentId, rot, i - 1, round), fixed, y);
    }
  }

  /** The fixed entrant meets `y` (only at `kb`) exactly when `y` heads the rotation. */
  lemma RoundOfMeetsFixed(tournamentId: int, fixed: int, rot: seq<int>, round: int, y: int, kb: int)
    requires |rot| >= 1 && fixed !in rot && fixed != 0
    requires OnlyAt(rot, y, kb) && 0 <= kb && y != 0
    ensures CountMeets(RoundOf(tournamentId, fixed, rot, round), fixed, y) == if kb == 0 then 1 else 0
  {
    var fixedPart := FixedPairing(tournamentId, fixed, rot, round);
    var mirror := MirrorPairings(tournamentId, rot, (|rot| + 1) / 2, round);
    CountMeetsConcat(fixedPart, mirror, fixed, y);
    MirrorPairingsMissFixed(tournamentId, rot, (|rot| + 1) / 2, round, fixed, y);
    CountMeetsSingle(fixedPart, fixed, y);
    assert rot[0] == y <==> kb == 0;
  }

  /** Two different positions in range. */
  lemma SlotsDiffer(m: int, a: int, b: int, s: int)
    requires 0 <= a < b < m && 0 <= s < m
    ensures Slot(m, a, s) != Slot(m, b, s)
  {
  }

  /** Half of an odd length, rounded up, is exact on its successor. */
  lemma HalfOfOdd(m: int)
    requires m % 2 == 1
    ensures 2 * ((m + 1) / 2) == m + 1
  {
  }

  /** Of two different positions adding up to the odd length, the smaller is a mirror index. */
  lemma MirrorIndexBelowHalf(m: int, x: int, y: int)
    requires m % 2 == 1 && 0 <= x < m && 0 <= y < m && x != y && x + y == m
    ensures 1 <= Min(x, y) < (m + 1) / 2
  {
  }

  /** A round's meetings are those of its fixed pairing plus those of its mirror pairings. */
  lemma RoundOfCount(tournamentId: int, fixed: int, rot: seq<int>, round: int, x: int, y: int)
    requires |rot| >= 1
    ensures CountMeets(RoundOf(tournamentId, fixed, rot, round), x, y)
      == CountMeets(FixedPairing(tournamentId, fixed, rot, round), x, y)
       + CountMeets(MirrorPairings(tournamentId, rot, (|rot| + 1) / 2, round), x, y)
  {
    CountMeetsConcat(FixedPairing(tournamentId, fixed, rot, round), MirrorPairings(tournamentId, rot, (|rot| + 1) / 2, round), x, y);
  }

  lemma FixedPairingMisses(tournamentId: int, fixed: int, rot: seq<int>, round: int, x: int, y: int)
    requires |rot| >= 1 && fixed != x && fixed != y
    ensures CountMeets(FixedPairing(tournamentId, fixed, rot, round), x, y) == 0
  {
    CountMeetsSingle(FixedPairing(tournamentId, fixed, rot, round), x, y);
  }

  /** All mirror pairings of a round together meet `x` and `y` exactly when their positions add up to the length. */
  lemma MirrorHalfMeets(tournamentId: int, rot: seq<int>, round: int, x: int, y: int, ka: int, kb: int)
    requires |rot| % 2 == 1
    requires OnlyAt(rot, x, ka) && OnlyAt(rot, y, kb) && 0 <= ka && 0 <= kb && x != y && x != 0 && y != 0
    ensures CountMeets(MirrorPairings(tournamentId, rot, (|rot| + 1) / 2, round), x, y) == if ka + kb == |rot| then 1 else 0
  {
    HalfOfOdd(|rot|);
    if ka + kb == |rot| {
      MirrorIndexBelowHalf(|rot|, ka, kb);
    }
    MirrorPairingsMeet(tournamentId, rot, (|rot| + 1) / 2, round, x, y, ka, kb);
  }

  /** Two rotating entrants (only at `ka` and `kb`) meet exactly when their positions add up to the length. */
  lemma RoundOfMeetsRotating(tournamentId: int, fixed: int, rot: seq<int>, round: int, x: int, y: int, ka: int, kb: int)
    requires |rot| % 2 == 1 && fixed !in rot
    requires OnlyAt(rot, x, ka) && OnlyAt(rot, y, kb) && 0 <= ka && 0 <= kb && x != y && x != 0 && y != 0
    ensures CountMeets(RoundOf(tournamentId, fixed, rot, round), x, y) == if ka + kb == |rot| then 1 else 0
  {
    RoundOfCount(tournamentId, fixed, rot, round, x, y);
    assert rot[ka] == x && rot[kb] == y;
    FixedPairingMisses(tournamentId, fixed, rot, round, x, y);
    MirrorHalfMeets(tournamentId, rot, round, x, y, ka, kb);
  }

  /** Circle entry `q > 0` sits at `Slot(|t| - 1, q - 1, s)` only after `s` rotations. */
  lemma CirclePosition(t: seq<int>, s: int, q: int)
    requires ProperCircle(t) && 0 <= s < |t| - 1 && 0 < q < |t|
    ensures 0 <= Slot(|t| - 1, q - 1, s) < |t| - 1
    ensures OnlyAt(Rotated(t[1..], s), t[q], Slot(|t| - 1, q - 1, s))
  {
    CircleParts(t);
    TailAt(t, q);
    RotatedOnlyAt(t[1..], s, q - 1);
  }

  /** A circle without the sentinel has none in any rotation. */
  lemma CircleWithoutSentinel(t: seq<int>, s: int)
    requires ProperCircle(t) && 0 <= s < |t| - 1 && t[|t| - 1] != 0
    ensures OnlyAt(Rotated(t[1..], s), 0, -1)
  {
    forall k | 0 <= k < |t| - 1 ensures Rotated(t[1..], s)[k] != 0 {
      RotatedIsFromList(t[1..], s, k);
    }
  }

  /** No rotation of the circle holds its fixed entrant. */
  lemma RotationWithoutFixed(t: seq<int>, s: int)
    requires ProperCircle(t) && 0 <= s < |t| - 1
    ensures t[0] !in Rotated(t[1..], s)
  {
    CircleParts(t);
    forall k | 0 <= k < |t| - 1 ensures Rotated(t[1..], s)[k] != t[0] {
      RotatedIsFromList(t[1..], s, k);
    }
  }

  /** In the round after `s` rotations the fixed entrant meets circle entry `q` iff `q` sits at the head. */
  lemma RoundMeetsFixed(tournamentId: int, t: seq<int>, s: int, q: int)
    requires ProperCircle(t) && 0 <= s < |t| - 1
    requires 0 < q < |t| && t[q] != 0
    ensures CountMeets(Round(tournamentId, t, s), t[0], t[q]) == if Slot(|t| - 1, q - 1, s) == 0 then 1 else 0
  {
    CircleParts(t);
    CirclePosition(t, s, q);
    RoundOfMeetsFixed(tournamentId, t[0], Rotated(t[1..], s), s + 1, t[q], Slot(|t| - 1, q - 1, s));
  }

  /** In the round after `s` rotations entries `0 < p < q` meet iff their positions add up to `|t| - 1`. */
  lemma RoundMeetsRotating(tournamentId: int, t: seq<int>, s: int, p: int, q: int)
    requires ProperCircle(t) && 0 <= s < |t| - 1
    requires 0 < p < q < |t| && t[q] != 0
    ensures CountMeets(Round(tournamentId, t, s), t[p], t[q])
      == if Slot(|t| - 1, p - 1, s) + Slot(|t| - 1, q - 1, s) == |t| - 1 then 1 else 0
  {
    CircleParts(t);
    OddRotation(|t|);
    CirclePosition(t, s, p);
    CirclePosition(t, s, q);
    SlotsDiffer(|t| - 1, p - 1, q - 1, s);
    RoundOfMeetsRotating(tournamentId, t[0], Rotated(t[1..], s), s + 1, t[p], t[q],
                         Slot(|t| - 1, p - 1, s), Slot(|t| - 1, q - 1, s));
  }

  /** The round (as a rotation count) in which circle entries `p < q` meet. */
  function MeetShift(m: int, p: int, q: int): int
  {
    if p == 0 then (if q == 1 then 0 else m - (q - 1))
    else
      var c := (p - 1) + (q - 1);
      if c % 2 == 0 then m - c / 2
      else if c <= m then (m - c) / 2
      else (3 * m - c) / 2
  }

  /** The fixed entrant (`p == 0`) meets circle entry `q` after exactly one number of rotations. */
  lemma MeetShiftFixed(m: int, p: int, q: int, s: int)
    requires m >= 1 && p == 0 && 0 < q <= m && 0 <= s < m
    ensures 0 <= MeetShift(m, p, q) < m
    ensures Slot(m, q - 1, s) == 0 <==> s == MeetShift(m, p, q)
  {
  }

  /**
   * With an odd number `m` of rotating entrants, the positions of entries
   * `0 < p < q` add up to `m` after exactly one number of rotations.
   */
  lemma MeetShiftRotating(m: int, p: int, q: int, s: int)
    requires m >= 1 && m % 2 == 1 && 0 < p < q <= m && 0 <= s < m
    ensures 0 <= MeetShift(m, p, q) < m
    ensures Slot(m, p - 1, s) + Slot(m, q - 1, s) == m <==> s == MeetShift(m, p, q)
  {
  }

  /** An even circle leaves an odd number of rotating entrants. */
  lemma OddRotation(n: int)
    requires n % 2 == 0
    ensures (n - 1) % 2 == 1
  {
  }

  lemma RoundMeetsAtShiftFixed(tournamentId: int, t: seq<int>, s: int, p: int, q: int)
    requires ProperCircle(t) && 0 <= s < |t| - 1
    requires p == 0 && 0 < q < |t| && t[q] != 0
    ensures 0 <= MeetShift(|t| - 1, p, q) < |t| - 1
    ensures CountMeets(Round(tournamentId, t, s), t[p], t[q]) == if s == MeetShift(|t| - 1, p, q) then 1 else 0
  {
    RoundMeetsFixed(tournamentId, t, s, q);
    MeetShiftFixed(|t| - 1, p, q, s);
  }

  lemma RoundMeetsAtShiftRotating(tournamentId: int, t: seq<int>, s: int, p: int, q: int)
    requires ProperCircle(t) && 0 <= s < |t| - 1
    requires 0 < p < q < |t| && t[q] != 0
    ensures 0 <= MeetShift(|t| - 1, p, q) < |t| - 1
    ensures CountMeets(Round(tournamentId, t, s), t[p], t[q]) == if s == MeetShift(|t| - 1, p, q) then 1 else 0
  {
    OddRotation(|t|);
    RoundMeetsRotating(tournamentId, t, s, p, q);
    MeetShiftRotating(|t| - 1, p, q, s);
  }

  /** The round after `s` rotations holds the meeting of circle entries `p < q` exactly when `s` is their shift. */
  lemma RoundMeetsAtShift(tournamentId: int, t: seq<int>, s: int, p: int, q: int)
    requires ProperCircle(t) && 0 <= s < |t| - 1
    requires 0 <= p < q < |t| && t[q] != 0
    ensures 0 <= MeetShift(|t| - 1, p, q) < |t| - 1
    ensures CountMeets(Round(tournamentId, t, s), t[p], t[q]) == if s == MeetShift(|t| - 1, p, q) then 1 else 0
  {
    if p == 0 {
      RoundMeetsAtShiftFixed(tournamentId, t, s, p, q);
    } else {
      RoundMeetsAtShiftRotating(tournamentId, t, s, p, q);
    }
  }

  /**
   * When the rounds of a circle hold the meeting of `x` and `y` exactly at
   * rotation count `shift`, the first `k` rounds hold it once if `shift < k`.
   */
  lemma {:induction false} RoundsMeetUpTo(tournamentId: int, t: seq<int>, k: int, x: int, y: int, shift: int)
    requires |t| >= 2 && 0 <= k <= |t| - 1 && 0 <= shift
    requires forall s :: 0 <= s < |t| - 1 ==> CountMeets(Round(tournamentId, t, s), x, y) == if s == shift then 1 else 0
    ensures CountMeets(Rounds(tournamentId, t, k), x, y) == if shift < k then 1 else 0
  {
    if k > 0 {
      RoundsMeetUpTo(tournamentId, t, k - 1, x, y, shift);
      CountMeetsConcat(Rounds(tournamentId, t, k - 1), Round(tournamentId, t, k - 1), x, y);
    }
  }

  /** Every two teams of the roster (at positions `i < j`) meet exactly once in the schedule. */
  lemma ScheduleMeetsEveryPairOnce(tournamentId: int, teams: seq<int>, i: int, j: int)
    requires |teams| >= 2 && AllPositive(teams) && Distinct(teams)
    requires 0 <= i < j < |teams|
    ensures CountMeets(Schedule(tournamentId, teams), teams[i], teams[j]) == 1
  {
    var t := Padded(teams);
    PaddedWellFormed(teams);
    var shift := MeetShift(|t| - 1, i, j);
    forall s | 0 <= s < |t| - 1
      ensures CountMeets(Round(tournamentId, t, s), t[i], t[j]) == if s == shift then 1 else 0
    {
      RoundMeetsAtShift(tournamentId, t, s, i, j);
    }
    RoundMeetsAtShift(tournamentId, t, 0, i, j);
    RoundsMeetUpTo(tournamentId, t, |t| - 1, t[i], t[j], shift);
  }

  // ---------------------------------------------------------------------
  // Shape of the schedule
  // ---------------------------------------------------------------------

  /** A round-robin row of `tournamentId` between two different, real teams of `pool`. */
  ghost predicate ProperMatch(m: Match, tournamentId: int, pool: seq<int>)
  {
    && m.teamA.Some? && m.teamB.Some?
    && m.teamA.value in pool && m.teamB.value in pool
    && m.teamA.value != 0 && m.teamB.value != 0 && m.teamA.value != m.teamB.value
    && m == RoundRobinMatch(tournamentId, m.teamA.value, m.teamB.value, m.round)
  }

  ghost predicate AllProper(ms: seq<Match>, tournamentId: int, pool: seq<int>, lo: int, hi: int)
  {
    forall j :: 0 <= j < |ms| ==> ProperMatch(ms[j], tournamentId, pool) && lo <= ms[j].round <= hi
  }

  lemma AllProperConcat(a: seq<Match>, b: seq<Match>, tournamentId: int, pool: seq<int>, lo: int, hi: int)
    requires AllProper(a, tournamentId, pool, lo, hi) && AllProper(b, tournamentId, pool, lo, hi)
    ensures AllProper(a + b, tournamentId, pool, lo, hi)
  {
    forall j | 0 <= j < |a + b| ensures ProperMatch((a + b)[j], tournamentId, pool) && lo <= (a + b)[j].round <= hi {
      if j >= |a| {
        assert (a + b)[j] == b[j - |a|];
      }
    }
  }

  lemma AllProperWiden(ms: seq<Match>, tournamentId: int, pool: seq<int>, lo: int, hi: int, lo2: int, hi2: int)
    requires AllProper(ms, tournamentId, pool, lo, hi) && lo2 <= lo && hi <= hi2
    ensures AllProper(ms, tournamentId, pool, lo2, hi2)
  {
  }

  lemma {:induction false} MirrorPairingsProper(tournamentId: int, rot: seq<int>, i: int, round: int, pool: seq<int>)
    requires Distinct(rot) && |rot| % 2 == 1 && 1 <= i && 2 * (i - 1) < |rot|
    requires forall k :: 0 <= k < |rot| ==> rot[k] in pool
    ensures AllProper(MirrorPairings(tournamentId, rot, i, round), tournamentId, pool, round, round)
    decreases i
  {
    if i > 1 {
      MirrorPairingsProper(tournamentId, rot, i - 1, round, pool);
      var j := i - 1;
      assert rot[j] != rot[|rot| - j];
      AllProperConcat(MirrorPairings(tournamentId, rot, j, round), MirrorPairing(tournamentId, rot, j, round),
                      tournamentId, pool, round, round);
    }
  }

  lemma FixedPairingProper(tournamentId: int, fixed: int, rot: seq<int>, round: int, pool: seq<int>)
    requires |rot| >= 1 && rot[0] != fixed && fixed in pool && rot[0] in pool
    ensures AllProper(FixedPairing(tournamentId, fixed, rot, round), tournamentId, pool, round, round)
  {
  }

  /** A round over a distinct rotation of odd length, with a fixed entrant outside it, pairs proper rows only. */
  lemma RoundOfProper(tournamentId: int, fixed: int, rot: seq<int>, round: int, pool: seq<int>)
    requires Distinct(rot) && |rot| % 2 == 1 && fixed !in rot && fixed in pool
    requires forall k :: 0 <= k < |rot| ==> rot[k] in pool
    ensures AllProper(RoundOf(tournamentId, fixed, rot, round), tournamentId, pool, round, round)
  {
    var m := |rot|;
    HalfOfOdd(m);
    MirrorPairingsProper(tournamentId, rot, (m + 1) / 2, round, pool);
    FixedPairingProper(tournamentId, fixed, rot, round, pool);
    AllProperConcat(FixedPairing(tournamentId, fixed, rot, round), MirrorPairings(tournamentId, rot, (m + 1) / 2, round),
                    tournamentId, pool, round, round);
  }

  lemma RoundProper(tournamentId: int, t: seq<int>, s: int)
    requires ProperCircle(t) && 0 <= s < |t| - 1
    ensures AllProper(Round(tournamentId, t, s), tournamentId, t, s + 1, s + 1)
  {
    var r := t[1..];
    CircleParts(t);
    OddRotation(|t|);
    RotatedDistinct(r, s);
    var rot := Rotated(r, s);
    forall k | 0 <= k < |rot| ensures rot[k] in t && rot[k] != t[0] {
      RotatedIsFromList(r, s, k);
    }
    RoundOfProper(tournamentId, t[0], rot, s + 1, t);
  }

  lemma {:induction false} RoundsProper(tournamentId: int, t: seq<int>, k: int)
    requires ProperCircle(t) && 0 <= k <= |t| - 1
    ensures AllProper(Rounds(tournamentId, t, k), tournamentId, t, 1, k)
  {
    if k > 0 {
      RoundsProper(tournamentId, t, k - 1);
      RoundProper(tournamentId, t, k - 1);
      AllProperWiden(Rounds(tournamentId, t, k - 1), tournamentId, t, 1, k - 1, 1, k);
      AllProperWiden(Round(tournamentId, t, k - 1), tournamentId, t, k, k, 1, k);
      AllProperConcat(Rounds(tournamentId, t, k - 1), Round(tournamentId, t, k - 1), tournamentId, t, 1, k);
    }
  }

  /**
   * Every scheduled match belongs to the tournament, is a fresh round-robin
   * row (scores 0, no winner, not played) between two different teams of the
   * roster, the bye sentinel never among them, in a round between 1 and the
   * padded size minus one.
   */
  lemma ScheduleWellFormed(tournamentId: int, teams: seq<int>)
    requires |teams| >= 2 && AllPositive(teams) && Distinct(teams)
    ensures forall j :: 0 <= j < |Schedule(tournamentId, teams)| ==>
      var m := Schedule(tournamentId, teams)[j];
      && m.teamA.Some? && m.teamB.Some?
      && m.teamA.value in teams && m.teamB.value in teams && m.teamA.value != m.teamB.value
      && m == Scheduled(tournamentId, m.teamA.value, m.teamB.value, m.round, RoundRobinStage, None, None)
      && 1 <= m.round <= |Padded(teams)| - 1
  {
    PaddedWellFormed(teams);
    var t := Padded(teams);
    RoundsProper(tournamentId, t, |t| - 1);
    var ms := Rounds(tournamentId, t, |t| - 1);
    forall j | 0 <= j < |ms| ensures ms[j].teamA.value in teams && ms[j].teamB.value in teams {
      assert ProperMatch(ms[j], tournamentId, t);
      PaddedMember(teams, ms[j].teamA.value);
      PaddedMember(teams, ms[j].teamB.value);
    }
  }

  lemma PaddedMember(teams: seq<int>, x: int)
    requires x in Padded(teams) && x != 0
    ensures x in teams
  {
  }

  /** Only the tournament's own id is written into the rows, whatever the roster. */
  lemma ScheduleBelongsTo(tournamentId: int, teams: seq<int>)
    requires |teams| >= 2
    ensures RowsOf(Schedule(tournamentId, teams), tournamentId)
  {
    var t := Padded(teams);
    RoundsBelongTo(tournamentId, t, |t| - 1);
  }

  ghost predicate RowsOf(ms: seq<Match>, tournamentId: int)
  {
    forall j :: 0 <= j < |ms| ==> ms[j].tournamentId == tournamentId
  }

  lemma RowsOfConcat(a: seq<Match>, b: seq<Match>, tournamentId: int)
    requires RowsOf(a, tournamentId) && RowsOf(b, tournamentId)
    ensures RowsOf(a + b, tournamentId)
  {
    forall j | 0 <= j < |a + b| ensures (a + b)[j].tournamentId == tournamentId {
      if j >= |a| {
        assert (a + b)[j] == b[j - |a|];
      }
    }
  }

  lemma {:induction false} RoundsBelongTo(tournamentId: int, t: seq<int>, k: int)
    requires |t| >= 2 && 0 <= k <= |t| - 1
    ensures RowsOf(Rounds(tournamentId, t, k), tournamentId)
  {
    if k > 0 {
      RoundsBelongTo(tournamentId, t, k - 1);
      RoundBelongsTo(tournamentId, t, k - 1);
      RowsOfConcat(Rounds(tournamentId, t, k - 1), Round(tournamentId, t, k - 1), tournamentId);
    }
  }

  lemma RoundBelongsTo(tournamentId: int, t: seq<int>, s: int)
    requires |t| >= 2 && 0 <= s < |t| - 1
    ensures RowsOf(Round(tournamentId, t, s), tournamentId)
  {
    RoundOfBelongsTo(tournamentId, t[0], Rotated(t[1..], s), s + 1);
  }

  lemma RoundOfBelongsTo(tournamentId: int, fixed: int, rot: seq<int>, round: int)
    requires |rot| >= 1
    ensures RowsOf(RoundOf(tournamentId, fixed, rot, round), tournamentId)
  {
    HalfBounds(|rot| + 1);
    MirrorPairingsBelongTo(tournamentId, rot, (|rot| + 1) / 2, round);
    RowsOfConcat(FixedPairing(tournamentId, fixed, rot, round), MirrorPairings(tournamentId, rot, (|rot| + 1) / 2, round), tournamentId);
  }

  lemma {:induction false} MirrorPairingsBelongTo(tournamentId: int, rot: seq<int>, i: int, round: int)
    requires 1 <= i <= |rot|
    ensures RowsOf(MirrorPairings(tournamentId, rot, i, round), tournamentId)
    decreases i
  {
    if i > 1 {
      MirrorPairingsBelongTo(tournamentId, rot, i - 1, round);
      RowsOfConcat(MirrorPairings(tournamentId, rot, i - 1, round), MirrorPairing(tournamentId, rot, i - 1, round), tournamentId);
    }
  }
}
