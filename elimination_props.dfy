/**
 * What an elimination bracket built by `generateEliminationPhase` amounts to:
 * the count it reports, which entrants get a bye, where the byes are seated,
 * and how the WINNER edges tie the first two levels together.
 */
module EliminationProps {
  import opened Domain
  import opened BracketMath
  import opened Elimination
  import opened RoundRobinCounts

  // ---------------------------------------------------------------------
  // Pairs, byes and the reported count
  // ---------------------------------------------------------------------

  /**
   * With `n` positive entrants in a bracket of `bs` (n <= bs < 2n), pair `i`
   * of the first round is full exactly when `i >= bs - n`; below that it is a
   * bye for entrant `i`.
   */
  lemma PairShape(pairing: seq<int>, bs: int, i: int)
    requires AllPositive(pairing) && |pairing| <= bs < 2 * |pairing| && 0 <= i < bs / 2
    ensures FullPair(pairing, bs, i) <==> i >= bs - |pairing|
    ensures Advancing(pairing, bs, i) == if i < bs - |pairing| then Some(pairing[i]) else None
  {
    assert i < |pairing| && 0 <= bs - 1 - i;
  }

  /** Every entrant is placed: a bye below `bs - n`, otherwise exactly one full pair holds it. */
  lemma EntrantPlaced(pairing: seq<int>, bs: int, t: int)
    requires AllPositive(pairing) && |pairing| <= bs < 2 * |pairing| && bs % 2 == 0 && 0 <= t < |pairing|
    ensures t < bs - |pairing| ==> t < bs / 2 && !FullPair(pairing, bs, t) && Advancing(pairing, bs, t) == Some(pairing[t])
    ensures bs - |pairing| <= t < bs / 2 ==> FullPair(pairing, bs, t)
    ensures bs / 2 <= t ==> 0 <= bs - 1 - t < bs / 2 && FullPair(pairing, bs, bs - 1 - t)
  {
    if t < bs / 2 {
      PairShape(pairing, bs, t);
    } else {
      PairShape(pairing, bs, bs - 1 - t);
    }
  }

  /** Of the first `k` pairs, those at or after `bs - n` are full. */
  lemma {:induction false} FullPairsCount(pairing: seq<int>, bs: int, k: int)
    requires AllPositive(pairing) && |pairing| <= bs < 2 * |pairing| && 0 <= k <= bs / 2
    ensures FullPairs(pairing, bs, k) == if k <= bs - |pairing| then 0 else k - (bs - |pairing|)
  {
    if k > 0 {
      FullPairsCount(pairing, bs, k - 1);
      PairShape(pairing, bs, k - 1);
    }
  }

  /**
   * The count `generateEliminationPhase` returns, placeholders plus
   * first-round matches, is one match fewer than there are entrants.
   */
  lemma MatchCount(teamIds: seq<int>, shuffled: seq<int>, initialRound: int, stage: Stage)
    requires AllPositive(teamIds) && multiset(shuffled) == multiset(teamIds) && |teamIds| >= 2
    ensures var bs := BracketSize(|teamIds|, 2);
      PlaceholderCount(bs) + FullPairs(TeamsForPairing(teamIds, shuffled, initialRound, stage), bs, bs / 2) == |teamIds| - 1
  {
    assert IsPowerOfTwo(2);
    var bs := BracketSize(|teamIds|, 2);
    BracketSizeBounds(|teamIds|, 2);
    PowerOfTwoDivisible(bs);
    assert |shuffled| == |teamIds| by {
      assert |multiset(shuffled)| == |multiset(teamIds)|;
    }
    PermutationKeepsPositive(teamIds, shuffled);
    FullPairsCount(TeamsForPairing(teamIds, shuffled, initialRound, stage), bs, bs / 2);
  }

  /** So a built bracket reports, and appends, `n - 1` matches. */
  lemma BuiltCount(before: seq<Match>, beforeEdges: seq<BracketPosition>, matches: seq<Match>,
                   edges: seq<BracketPosition>, tournamentId: int, teamIds: seq<int>, shuffled: seq<int>,
                   initialRound: int, stage: Stage, bracket: BracketTag, count: int)
    requires AllPositive(teamIds) && multiset(shuffled) == multiset(teamIds) && |teamIds| >= 2
    requires EliminationBuilt(before, beforeEdges, matches, edges, tournamentId,
                              TeamsForPairing(teamIds, shuffled, initialRound, stage),
                              BracketSize(|teamIds|, 2), initialRound, stage, bracket, count)
    ensures count == |teamIds| - 1 && |matches| == |before| + |teamIds| - 1
  {
    MatchCount(teamIds, shuffled, initialRound, stage);
  }

  /** The pair that entrant `t` belongs to: `t` itself in the first half, `bs - 1 - t` in the second. */
  function PairOf(bs: int, t: int): int
  {
    if t < bs / 2 then t else bs - 1 - t
  }

  /**
   * With distinct entrants, the first-round matches of the first `k` pairs
   * involve entrant `t` once when its pair is among them and full, and
   * otherwise not at all.
   */
  lemma {:induction false} FirstRoundAppearances(tournamentId: int, pairing: seq<int>, bs: int, k: int, round: int,
                                                 stage: Stage, bracket: BracketTag, t: int)
    requires Distinct(pairing) && bs % 2 == 0 && 0 <= k <= bs / 2 && 0 <= t < |pairing| <= bs
    ensures AppearancesIn(FirstRoundRows(tournamentId, pairing, bs, k, round, stage, bracket), pairing[t], round)
         == if PairOf(bs, t) < k && FullPair(pairing, bs, PairOf(bs, t)) then 1 else 0
  {
    if k > 0 {
      FirstRoundAppearances(tournamentId, pairing, bs, k - 1, round, stage, bracket, t);
      var prev := FirstRoundRows(tournamentId, pairing, bs, k - 1, round, stage, bracket);
      var i := k - 1;
      if FullPair(pairing, bs, i) {
        var last := FirstRoundMatch(tournamentId, pairing, bs, i, round, stage, bracket);
        assert FirstRoundRows(tournamentId, pairing, bs, k, round, stage, bracket) == prev + [last];
        AppearancesConcat(prev, [last], pairing[t], round);
        AppearancesSingle([last], pairing[t], round);
        PairInvolves(tournamentId, pairing, bs, i, round, stage, bracket, t);
      } else {
        assert FirstRoundRows(tournamentId, pairing, bs, k, round, stage, bracket) == prev;
      }
    }
  }

  /** The match of full pair `i` involves entrant `t` exactly when `t` belongs to pair `i`. */
  lemma PairInvolves(tournamentId: int, pairing: seq<int>, bs: int, i: int, round: int, stage: Stage, bracket: BracketTag,
                     t: int)
    requires Distinct(pairing) && bs % 2 == 0 && 0 <= i < bs / 2 && 0 <= t < |pairing| && FullPair(pairing, bs, i)
    ensures Involves(FirstRoundMatch(tournamentId, pairing, bs, i, round, stage, bracket), pairing[t]) <==> PairOf(bs, t) == i
  {
    assert pairing[i] == pairing[t] <==> i == t;
    assert pairing[bs - 1 - i] == pairing[t] <==> bs - 1 - i == t;
  }

  /**
   * In a whole first round every one of `n` distinct positive entrants plays
   * exactly one match, except the first `bs - n`, who play none (their bye).
   */
  lemma FirstRoundOnce(tournamentId: int, pairing: seq<int>, bs: int, round: int, stage: Stage, bracket: BracketTag,
                       t: int)
    requires Distinct(pairing) && AllPositive(pairing) && |pairing| <= bs < 2 * |pairing| && bs % 2 == 0
    requires 0 <= t < |pairing|
    ensures AppearancesIn(FirstRoundRows(tournamentId, pairing, bs, bs / 2, round, stage, bracket), pairing[t], round)
         == if t < bs - |pairing| then 0 else 1
  {
    FirstRoundAppearances(tournamentId, pairing, bs, bs / 2, round, stage, bracket, t);
    EntrantPlaced(pairing, bs, t);
  }

  // ---------------------------------------------------------------------
  // The placeholders
  // ---------------------------------------------------------------------

  /**
   * Once every pair is handled, placeholder `p` (entry `q` of the reversed
   * ids) holds in slot A the bye of entrant `2q` and in slot B that of entrant
   * `2q + 1`, when those entrants got a bye, and is otherwise still empty.
   */
  lemma PlaceholderSeats(tournamentId: int, initialRound: int, bs: int, stage: Stage, bracket: BracketTag,
                         pairing: seq<int>, p: int)
    requires AllPositive(pairing) && |pairing| <= bs < 2 * |pairing| && IsPowerOfTwo(bs)
    requires 0 <= p < PlaceholderCount(bs)
    ensures var q := PlaceholderCount(bs) - 1 - p;
      var row := PlaceholderRows(tournamentId, initialRound, bs, stage, bracket, pairing, bs / 2)[p];
      && row.teamA == (if 2 * q < bs - |pairing| then Some(pairing[2 * q]) else None)
      && row.teamB == (if 2 * q + 1 < bs - |pairing| then Some(pairing[2 * q + 1]) else None)
      && row.tournamentId == tournamentId && row.bracket == Some(bracket) && row.stage == stage
      && row.scoreA == None && row.scoreB == None && row.winner == None && !row.played
  {
    var q := PlaceholderCount(bs) - 1 - p;
    RowsAt(tournamentId, initialRound, bs, stage, bracket, pairing, bs / 2, p);
    if 2 * q < bs / 2 {
      PairShape(pairing, bs, 2 * q);
    }
    if 2 * q + 1 < bs / 2 {
      PairShape(pairing, bs, 2 * q + 1);
    }
  }

  lemma QuotientBelowTwice(p: int, d: int)
    requires d > 0 && 0 <= p < 2 * d
    ensures p / d == if p < d then 0 else 1
  {
    if p >= d {
      assert p - d < d;
      assert (p - d) / d == 0;
      assert p / d == (p - d) / d + 1;
    }
  }

  /**
   * The round formula of the placeholders yields only two values: the first
   * `bs / 4` placeholders get the last round, all later ones the round
   * before it.
   */
  lemma PlaceholderRoundsTwoLevels(initialRound: int, bs: int, p: int)
    requires IsPowerOfTwo(bs) && bs >= 4 && 0 <= p < PlaceholderCount(bs)
    ensures PlaceholderRound(initialRound, bs, p)
         == if p < bs / 4 then initialRound + Log2(bs) - 1 else initialRound + Log2(bs) - 2
  {
    PowerOfTwoDivisible(bs);
    QuotientBelowTwice(p, bs / 4);
  }

  // ---------------------------------------------------------------------
  // The WINNER edges
  // ---------------------------------------------------------------------

  /** The pair an edge into the reversed ids stands for: slot A of entry `q` is pair `2q`, slot B pair `2q + 1`. */
  function FedPair(e: BracketPosition, base: int, count: int): int
  {
    2 * (base + count - 1 - e.matchId) + (if e.slotType == TeamASlot then 0 else 1)
  }

  /**
   * Edge `j` carries the winner of the `j`-th first-round match, into the
   * slot of a full pair below `k`, and the pairs rise strictly along the list.
   */
  ghost predicate FeedsInOrder(edges: seq<BracketPosition>, tournamentId: int, pairing: seq<int>, bs: int, base: int,
                               count: int, firstId: int, k: int)
  {
    && (forall j :: 0 <= j < |edges| ==>
          && edges[j].tournamentId == tournamentId && edges[j].sourceMatchId == firstId + j
          && edges[j].sourceOutcome == WinnerOutcome
          && 0 <= FedPair(edges[j], base, count) < k && FullPair(pairing, bs, FedPair(edges[j], base, count)))
    && (forall j1, j2 :: 0 <= j1 < j2 < |edges| ==> FedPair(edges[j1], base, count) < FedPair(edges[j2], base, count))
  }

  /**
   * From a bracket of 4 on, every full pair among the first `k` gets exactly
   * one edge, numbered by the order its match was created in.
   */
  lemma {:induction false} FirstRoundEdgesShape(tournamentId: int, pairing: seq<int>, bs: int, k: int, targets: seq<int>,
                                                base: int, firstId: int)
    requires IsPowerOfTwo(bs) && bs >= 4 && 0 <= k <= bs / 2 && base >= 1
    requires ReversedIds(targets, base, PlaceholderCount(bs))
    ensures |FirstRoundEdges(tournamentId, pairing, bs, k, targets, firstId)| == FullPairs(pairing, bs, k)
    ensures FeedsInOrder(FirstRoundEdges(tournamentId, pairing, bs, k, targets, firstId), tournamentId, pairing, bs,
                         base, PlaceholderCount(bs), firstId, k)
  {
    if k > 0 {
      var i := k - 1;
      var nf := PlaceholderCount(bs);
      FirstRoundEdgesShape(tournamentId, pairing, bs, i, targets, base, firstId);
      var prev := FirstRoundEdges(tournamentId, pairing, bs, i, targets, firstId);
      var es := FirstRoundEdges(tournamentId, pairing, bs, k, targets, firstId);
      PowerOfTwoDivisible(bs);
      assert i / 2 < nf;
      var next := Entry(targets, i / 2);
      assert next == Some(base + nf - 1 - i / 2);
      if FullPair(pairing, bs, i) {
        var e := BracketPosition(tournamentId, next.value, SlotOf(i), firstId + FullPairs(pairing, bs, i), WinnerOutcome);
        assert es == prev + [e];
        assert FedPair(e, base, nf) == i;
        FeedsAppend(prev, e, tournamentId, pairing, bs, base, nf, firstId, i);
      } else {
        assert es == prev;
        FeedsWiden(prev, tournamentId, pairing, bs, base, nf, firstId, i);
      }
    }
  }

  lemma FeedsAppend(prev: seq<BracketPosition>, e: BracketPosition, tournamentId: int, pairing: seq<int>, bs: int,
                    base: int, count: int, firstId: int, i: int)
    requires FeedsInOrder(prev, tournamentId, pairing, bs, base, count, firstId, i)
    requires e.tournamentId == tournamentId && e.sourceMatchId == firstId + |prev| && e.sourceOutcome == WinnerOutcome
    requires FedPair(e, base, count) == i && FullPair(pairing, bs, i)
    ensures FeedsInOrder(prev + [e], tournamentId, pairing, bs, base, count, firstId, i + 1)
  {
    var es := prev + [e];
    forall j | 0 <= j < |es|
      ensures es[j].sourceMatchId == firstId + j && 0 <= FedPair(es[j], base, count) < i + 1
    {
      if j < |prev| {
        assert es[j] == prev[j];
      }
    }
    forall j1, j2 | 0 <= j1 < j2 < |es| ensures FedPair(es[j1], base, count) < FedPair(es[j2], base, count) {
      assert es[j1] == prev[j1];
      if j2 < |prev| {
        assert es[j2] == prev[j2];
      }
    }
  }

  lemma FeedsWiden(prev: seq<BracketPosition>, tournamentId: int, pairing: seq<int>, bs: int,
                   base: int, count: int, firstId: int, i: int)
    requires FeedsInOrder(prev, tournamentId, pairing, bs, base, count, firstId, i)
    ensures FeedsInOrder(prev, tournamentId, pairing, bs, base, count, firstId, i + 1)
  {
  }

  /** No placeholder slot is fed by two first-round matches. */
  lemma FirstRoundSlotsDistinct(tournamentId: int, pairing: seq<int>, bs: int, targets: seq<int>, base: int, firstId: int)
    requires IsPowerOfTwo(bs) && bs >= 4 && base >= 1 && ReversedIds(targets, base, PlaceholderCount(bs))
    ensures var es := FirstRoundEdges(tournamentId, pairing, bs, bs / 2, targets, firstId);
      forall j1, j2 :: 0 <= j1 < j2 < |es| ==> es[j1].matchId != es[j2].matchId || es[j1].slotType != es[j2].slotType
  {
    FirstRoundEdgesShape(tournamentId, pairing, bs, bs / 2, targets, base, firstId);
  }

  /** The first `k` semifinal passes of a bracket of 8 or more each add one edge into entry `bs / 4`. */
  lemma {:induction false} SemifinalPrefix(tournamentId: int, targets: seq<int>, bs: int, base: int, k: int)
    requires IsPowerOfTwo(bs) && bs >= 8 && base >= 1 && ReversedIds(targets, base, PlaceholderCount(bs))
    requires 0 <= k <= bs / 4
    ensures |SemifinalEdges(tournamentId, targets, bs, k)| == k
    ensures forall j :: 0 <= j < k ==> SemifinalEdges(tournamentId, targets, bs, k)[j]
                                       == BracketPosition(tournamentId, targets[bs / 4], SlotOf(j), targets[j], WinnerOutcome)
  {
    if k > 0 {
      SemifinalPrefix(tournamentId, targets, bs, base, k - 1);
      PowerOfTwoDivisible(bs);
      var prev := SemifinalEdges(tournamentId, targets, bs, k - 1);
      var es := SemifinalEdges(tournamentId, targets, bs, k);
      assert Entry(targets, k - 1) == Some(targets[k - 1]) && targets[k - 1] >= 1;
      assert Entry(targets, bs / 4) == Some(targets[bs / 4]) && targets[bs / 4] >= 1;
      assert es == prev + [BracketPosition(tournamentId, targets[bs / 4], SlotOf(k - 1), targets[k - 1], WinnerOutcome)];
      SemifinalAppend(prev, tournamentId, targets, bs, k - 1);
    }
  }

  lemma SemifinalAppend(prev: seq<BracketPosition>, tournamentId: int, targets: seq<int>, bs: int, k: int)
    requires 0 <= k < |targets| && 0 <= bs / 4 < |targets| && |prev| == k
    requires forall j :: 0 <= j < k ==>
      prev[j] == BracketPosition(tournamentId, targets[bs / 4], SlotOf(j), targets[j], WinnerOutcome)
    ensures var es := prev + [BracketPosition(tournamentId, targets[bs / 4], SlotOf(k), targets[k], WinnerOutcome)];
      forall j :: 0 <= j < k + 1 ==>
        es[j] == BracketPosition(tournamentId, targets[bs / 4], SlotOf(j), targets[j], WinnerOutcome)
  {
    var es := prev + [BracketPosition(tournamentId, targets[bs / 4], SlotOf(k), targets[k], WinnerOutcome)];
    forall j | 0 <= j < k + 1
      ensures es[j] == BracketPosition(tournamentId, targets[bs / 4], SlotOf(j), targets[j], WinnerOutcome)
    {
      if j < k {
        assert es[j] == prev[j];
      }
    }
  }

  /**
   * The semifinal loop links nothing in a bracket of 2 or 4; from 8 on it
   * links each of the first `bs / 4` reversed ids into entry `bs / 4`, so a
   * bracket of 16 or more sends four or more winners into the same match.
   */
  lemma SemifinalShape(tournamentId: int, targets: seq<int>, bs: int, base: int)
    requires IsPowerOfTwo(bs) && bs >= 2 && base >= 1 && ReversedIds(targets, base, PlaceholderCount(bs))
    ensures bs <= 4 ==> SemifinalEdges(tournamentId, targets, bs, SemifinalPasses(bs)) == []
    ensures bs >= 8 ==> |SemifinalEdges(tournamentId, targets, bs, SemifinalPasses(bs))| == bs / 4
    ensures bs >= 8 ==> forall j :: 0 <= j < bs / 4 ==>
      SemifinalEdges(tournamentId, targets, bs, SemifinalPasses(bs))[j]
        == BracketPosition(tournamentId, targets[bs / 4], SlotOf(j), targets[j], WinnerOutcome)
  {
    PowerOfTwoDivisible(bs);
    if bs >= 8 {
      assert SemifinalPasses(bs) == bs / 4;
      SemifinalPrefix(tournamentId, targets, bs, base, bs / 4);
    } else if bs == 4 {
      assert SemifinalPasses(bs) == 1 && Entry(targets, 1) == None;
      assert SemifinalEdges(tournamentId, targets, bs, 0) == [];
    } else {
      assert bs == 2 by {
        assert bs != 3 && bs != 5 && bs != 6 && bs != 7;
      }
      assert SemifinalPasses(bs) == 1 && Entry(targets, 0) == None;
      assert SemifinalEdges(tournamentId, targets, bs, 0) == [];
    }
  }
}
