/**
 * Counting properties of the round-robin schedule: how many matches each
 * round and the whole schedule hold, and that no team plays twice in a round.
 */
module RoundRobinCounts {
  import opened Domain
  import opened RoundRobin

  /** Mirror pairings 1 .. i-1 of a rotation whose only sentinel sits at `z` (none when `z < 0`). */
  lemma {:induction false} MirrorPairingsSize(tournamentId: int, rot: seq<int>, i: int, round: int, z: int)
    requires |rot| % 2 == 1 && 1 <= i && 2 * (i - 1) < |rot| && OnlyAt(rot, 0, z)
    ensures |MirrorPairings(tournamentId, rot, i, round)| == (i - 1) - (if 1 <= z && Min(z, |rot| - z) < i then 1 else 0)
    decreases i
  {
    if i > 1 {
      MirrorPairingsSize(tournamentId, rot, i - 1, round, z);
      var j := i - 1;
      assert rot[j] == 0 <==> j == z;
      assert rot[|rot| - j] == 0 <==> |rot| - j == z;
    }
  }

  /** One round over a rotation whose only sentinel sits at `z` (none when `z < 0`) and a real fixed entrant. */
  lemma RoundOfSize(tournamentId: int, fixed: int, rot: seq<int>, round: int, z: int)
    requires |rot| % 2 == 1 && fixed != 0 && OnlyAt(rot, 0, z)
    ensures |RoundOf(tournamentId, fixed, rot, round)| == (|rot| + 1) / 2 - (if 0 <= z then 1 else 0)
  {
    var m := |rot|;
    HalfOfOdd(m);
    var fixedPart := FixedPairing(tournamentId, fixed, rot, round);
    var mirror := MirrorPairings(tournamentId, rot, (m + 1) / 2, round);
    MirrorPairingsSize(tournamentId, rot, (m + 1) / 2, round, z);
    if 1 <= z {
      MirrorIndexBelowHalf(m, z, m - z);
      assert rot[0] != 0;
    } else if z < 0 {
      assert rot[0] != 0;
    }
    assert |fixedPart| == if z == 0 then 0 else 1;
  }

  /** A roster of `n` teams plays `n / 2` (rounded down) matches in every round; the odd one out has the bye. */
  lemma RoundSize(tournamentId: int, t: seq<int>, s: int)
    requires ProperCircle(t) && 0 <= s < |t| - 1
    ensures |Round(tournamentId, t, s)| == |t| / 2 - (if t[|t| - 1] == 0 then 1 else 0)
  {
    var rot := Rotated(t[1..], s);
    var z;
    if t[|t| - 1] == 0 {
      CirclePosition(t, s, |t| - 1);
      z := Slot(|t| - 1, |t| - 2, s);
    } else {
      CircleWithoutSentinel(t, s);
      z := -1;
    }
    OddRotation(|t|);
    RoundOfSize(tournamentId, t[0], rot, s + 1, z);
  }

  lemma {:induction false} RoundsSize(tournamentId: int, t: seq<int>, k: int, perRound: int)
    requires ProperCircle(t) && 0 <= k <= |t| - 1
    requires perRound == |t| / 2 - (if t[|t| - 1] == 0 then 1 else 0)
    ensures |Rounds(tournamentId, t, k)| == k * perRound
  {
    if k > 0 {
      RoundsSize(tournamentId, t, k - 1, perRound);
      RoundSize(tournamentId, t, k - 1);
      assert k * perRound == (k - 1) * perRound + perRound;
    }
  }

  /** Every round of the schedule of `n` teams has `n / 2` matches, rounded down. */
  lemma ScheduleRoundSize(tournamentId: int, teams: seq<int>, s: int)
    requires |teams| >= 2 && AllPositive(teams) && Distinct(teams)
    requires 0 <= s < |Padded(teams)| - 1
    ensures |Round(tournamentId, Padded(teams), s)| == |teams| / 2
  {
    PaddedWellFormed(teams);
    RoundSize(tournamentId, Padded(teams), s);
  }

  lemma PairCount(n: int, len: int, perRound: int)
    requires n >= 2
    requires (n % 2 == 0 && len == n && perRound == len / 2) || (n % 2 == 1 && len == n + 1 && perRound == len / 2 - 1)
    ensures (len - 1) * perRound == n * (n - 1) / 2
  {
    var h := n / 2;
    if n % 2 == 0 {
      assert n == 2 * h && perRound == h;
      assert n * (n - 1) == 2 * (h * (n - 1));
    } else {
      assert n == 2 * h + 1 && perRound == h;
      assert n * (n - 1) == 2 * (n * h);
    }
  }

  /** A schedule of `n` teams has `n (n - 1) / 2` matches: one per pair. */
  lemma ScheduleSize(tournamentId: int, teams: seq<int>)
    requires |teams| >= 2 && AllPositive(teams) && Distinct(teams)
    ensures |Schedule(tournamentId, teams)| == |teams| * (|teams| - 1) / 2
  {
    var t := Padded(teams);
    var n := |teams|;
    PaddedWellFormed(teams);
    var perRound := |t| / 2 - (if t[|t| - 1] == 0 then 1 else 0);
    RoundsSize(tournamentId, t, |t| - 1, perRound);
    if n % 2 == 0 {
      assert |t| == n && t[|t| - 1] != 0;
    } else {
      assert |t| == n + 1 && t[|t| - 1] == 0;
    }
    PairCount(n, |t|, perRound);
  }

  // ---------------------------------------------------------------------
  // Nobody plays twice in a round
  // ---------------------------------------------------------------------

  predicate Involves(m: Match, x: int)
  {
    m.teamA == Some(x) || m.teamB == Some(x)
  }

  /** How many matches of `ms` in round `round` involve team `x`. */
  function AppearancesIn(ms: seq<Match>, x: int, round: int): nat
  {
    if ms == [] then 0
    else AppearancesIn(ms[..|ms| - 1], x, round) + (if ms[|ms| - 1].round == round && Involves(ms[|ms| - 1], x) then 1 else 0)
  }

  lemma {:induction false} AppearancesConcat(a: seq<Match>, b: seq<Match>, x: int, round: int)
    ensures AppearancesIn(a + b, x, round) == AppearancesIn(a, x, round) + AppearancesIn(b, x, round)
    decreases |b|
  {
    if b != [] {
      assert (a + b)[..|a + b| - 1] == a + b[..|b| - 1];
      AppearancesConcat(a, b[..|b| - 1], x, round);
    } else {
      assert a + b == a;
    }
  }

  lemma AppearancesSingle(ms: seq<Match>, x: int, round: int)
    requires |ms| <= 1
    ensures AppearancesIn(ms, x, round) == if ms != [] && ms[0].round == round && Involves(ms[0], x) then 1 else 0
  {
    if ms != [] {
      assert ms[..0] == [];
    }
  }

  lemma {:induction false} AppearancesOtherRound(ms: seq<Match>, x: int, round: int)
    requires forall j :: 0 <= j < |ms| ==> ms[j].round != round
    ensures AppearancesIn(ms, x, round) == 0
    decreases |ms|
  {
    if ms != [] {
      AppearancesOtherRound(ms[..|ms| - 1], x, round);
    }
  }

  /** Team `x`, found at position `k` of the rotation (or nowhere when `k < 0`), is in at most one mirror pairing. */
  lemma {:induction false} MirrorPairingsAppearances(tournamentId: int, rot: seq<int>, i: int, round: int, x: int, k: int)
    requires |rot| % 2 == 1 && 1 <= i && 2 * (i - 1) < |rot| && OnlyAt(rot, x, k)
    ensures AppearancesIn(MirrorPairings(tournamentId, rot, i, round), x, round)
      <= if 1 <= k && Min(k, |rot| - k) < i then 1 else 0
    decreases i
  {
    if i > 1 {
      var j := i - 1;
      MirrorPairingsAppearances(tournamentId, rot, j, round, x, k);
      AppearancesSingle(MirrorPairing(tournamentId, rot, j, round), x, round);
      AppearancesConcat(MirrorPairings(tournamentId, rot, j, round), MirrorPairing(tournamentId, rot, j, round), x, round);
      assert rot[j] == x <==> j == k;
      assert rot[|rot| - j] == x <==> |rot| - j == k;
    }
  }

  /** The position of `x` in `xs`, or -1. */
  function IndexOf(xs: seq<int>, x: int): (k: int)
    ensures -1 <= k < |xs|
    ensures 0 <= k ==> xs[k] == x
    ensures k < 0 ==> x !in xs
  {
    if xs == [] then -1
    else if xs[|xs| - 1] == x then |xs| - 1
    else IndexOf(xs[..|xs| - 1], x)
  }

  lemma RoundOfOnce(tournamentId: int, fixed: int, rot: seq<int>, round: int, x: int, k: int)
    requires |rot| % 2 == 1 && OnlyAt(rot, x, k) && (x == fixed ==> k < 0)
    ensures AppearancesIn(RoundOf(tournamentId, fixed, rot, round), x, round) <= 1
  {
    var m := |rot|;
    HalfOfOdd(m);
    var fixedPart := FixedPairing(tournamentId, fixed, rot, round);
    var mirror := MirrorPairings(tournamentId, rot, (m + 1) / 2, round);
    AppearancesConcat(fixedPart, mirror, x, round);
    AppearancesSingle(fixedPart, x, round);
    MirrorPairingsAppearances(tournamentId, rot, (m + 1) / 2, round, x, k);
  }

  /** In a list of distinct ids, `x` sits at `IndexOf(xs, x)` only. */
  lemma IndexOfOnly(xs: seq<int>, x: int)
    requires Distinct(xs)
    ensures OnlyAt(xs, x, IndexOf(xs, x))
  {
    var k := IndexOf(xs, x);
    forall j | 0 <= j < |xs| ensures xs[j] == x <==> j == k {
      if 0 <= k && j != k {
        assert xs[j] != xs[k];
      }
    }
  }

  lemma RoundOnce(tournamentId: int, t: seq<int>, s: int, x: int)
    requires ProperCircle(t) && 0 <= s < |t| - 1
    ensures AppearancesIn(Round(tournamentId, t, s), x, s + 1) <= 1
  {
    CircleParts(t);
    RotatedDistinct(t[1..], s);
    var rot := Rotated(t[1..], s);
    IndexOfOnly(rot, x);
    RotationWithoutFixed(t, s);
    OddRotation(|t|);
    RoundOfOnce(tournamentId, t[0], rot, s + 1, x, IndexOf(rot, x));
  }

  /** A round holds no match of another round. */
  lemma RoundOtherRound(tournamentId: int, t: seq<int>, s: int, x: int, round: int)
    requires ProperCircle(t) && 0 <= s < |t| - 1 && round != s + 1
    ensures AppearancesIn(Round(tournamentId, t, s), x, round) == 0
  {
    RoundBelongsToRound(tournamentId, t, s);
    AppearancesOtherRound(Round(tournamentId, t, s), x, round);
  }

  lemma RoundBelongsToRound(tournamentId: int, t: seq<int>, s: int)
    requires ProperCircle(t) && 0 <= s < |t| - 1
    ensures forall j :: 0 <= j < |Round(tournamentId, t, s)| ==> Round(tournamentId, t, s)[j].round == s + 1
  {
    RoundProper(tournamentId, t, s);
  }

  /** When only the round after `shift` rotations can hold `x`, and at most once, so can the first `k` rounds. */
  lemma {:induction false} RoundsAppearUpTo(tournamentId: int, t: seq<int>, k: int, x: int, round: int, shift: int)
    requires |t| >= 2 && 0 <= k <= |t| - 1
    requires forall s :: 0 <= s < |t| - 1 ==>
      AppearancesIn(Round(tournamentId, t, s), x, round) <= if s == shift then 1 else 0
    ensures AppearancesIn(Rounds(tournamentId, t, k), x, round) <= if 0 <= shift < k then 1 else 0
  {
    if k > 0 {
      RoundsAppearUpTo(tournamentId, t, k - 1, x, round, shift);
      AppearancesConcat(Rounds(tournamentId, t, k - 1), Round(tournamentId, t, k - 1), x, round);
    }
  }

  /** No team is scheduled twice in the same round. */
  lemma ScheduleOncePerRound(tournamentId: int, teams: seq<int>, x: int, round: int)
    requires |teams| >= 2 && AllPositive(teams) && Distinct(teams)
    ensures AppearancesIn(Schedule(tournamentId, teams), x, round) <= 1
  {
    PaddedWellFormed(teams);
    CircleOncePerRound(tournamentId, Padded(teams), x, round);
  }

  lemma CircleOncePerRound(tournamentId: int, t: seq<int>, x: int, round: int)
    requires ProperCircle(t)
    ensures AppearancesIn(Rounds(tournamentId, t, |t| - 1), x, round) <= 1
  {
    EachRoundAppearances(tournamentId, t, x, round);
    RoundsAppearUpTo(tournamentId, t, |t| - 1, x, round, round - 1);
  }

  lemma EachRoundAppearances(tournamentId: int, t: seq<int>, x: int, round: int)
    requires ProperCircle(t)
    ensures forall s :: 0 <= s < |t| - 1 ==>
      AppearancesIn(Round(tournamentId, t, s), x, round) <= if s == round - 1 then 1 else 0
  {
    forall s | 0 <= s < |t| - 1
      ensures AppearancesIn(Round(tournamentId, t, s), x, round) <= if s == round - 1 then 1 else 0
    {
      RoundAppearances(tournamentId, t, s, x, round);
    }
  }

  lemma RoundAppearances(tournamentId: int, t: seq<int>, s: int, x: int, round: int)
    requires ProperCircle(t) && 0 <= s < |t| - 1
    ensures AppearancesIn(Round(tournamentId, t, s), x, round) <= if s == round - 1 then 1 else 0
  {
    if s + 1 == round {
      RoundOnce(tournamentId, t, s, x);
    } else {
      RoundOtherRound(tournamentId, t, s, x, round);
    }
  }
}
