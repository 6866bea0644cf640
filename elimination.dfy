/**
 * Single-elimination brackets: the empty placeholder matches of the later
 * rounds, the first-round pairings of entry `i` against entry
 * `bracketSize - 1 - i`, byes written straight into the parent placeholder,
 * and the WINNER edges of the first two levels.
 */
module Elimination {
  import opened Domain
  import opened Store
  import opened BracketMath

  // ---------------------------------------------------------------------
  // The bracket as the generator lays it out
  // ---------------------------------------------------------------------

  /** `totalMatchesToCreate - numMatchesInFirstRound`: the placeholders of the later rounds. */
  function PlaceholderCount(bracketSize: int): (count: int)
    ensures bracketSize >= 1 ==> count >= 0
  {
    (bracketSize - 1) - bracketSize / 2
  }

  /** `initialRound + maxRounds - 1 - Math.floor(i / (bracketSize / 4))` for placeholder `i`. */
  function PlaceholderRound(initialRound: int, bracketSize: int, i: int): int
    requires IsPowerOfTwo(bracketSize) && bracketSize >= 4 && i >= 0
  {
    initialRound + Log2(bracketSize) - 1 - i / (bracketSize / 4)
  }

  /** `i % 2 === 0 ? 'TEAM_A_SLOT' : 'TEAM_B_SLOT'`. */
  function SlotOf(i: int): SlotType
  {
    if i % 2 == 0 then TeamASlot else TeamBSlot
  }

  /** `Array.prototype.reverse`. */
  function Reverse(s: seq<int>): (r: seq<int>)
    ensures |r| == |s|
    ensures forall j :: 0 <= j < |s| ==> r[j] == s[|s| - 1 - j]
  {
    if s == [] then [] else [s[|s| - 1]] + Reverse(s[..|s| - 1])
  }

  /** First-round pair `i` has both its teams. */
  predicate FullPair(pairing: seq<int>, bracketSize: int, i: int)
  {
    Truthy(Entry(pairing, i)) && Truthy(Entry(pairing, bracketSize - 1 - i))
  }

  /** `teamAId || teamBId` of a pair with exactly one team: the team that gets the bye. */
  function Advancing(pairing: seq<int>, bracketSize: int, i: int): Option<int>
  {
    var a := Entry(pairing, i);
    var b := Entry(pairing, bracketSize - 1 - i);
    if Truthy(a) && Truthy(b) then None
    else if Truthy(a) then a
    else if Truthy(b) then b
    else None
  }

  /** The team written into a placeholder slot by pair `i` once the first `k` pairs are done. */
  function Seat(pairing: seq<int>, bracketSize: int, i: int, k: int): Option<int>
  {
    if 0 <= i < k then Advancing(pairing, bracketSize, i) else None
  }

  /** An empty placeholder row. */
  function Placeholder(tournamentId: int, round: int, stage: Stage, bracket: BracketTag): Match
  {
    Match(tournamentId, None, None, None, None, round, stage, None, Some(bracket), None, false)
  }

  /**
   * Placeholder `p` once the first `k` pairs are done. Reversed, it is entry
   * `q` of `futureMatchIds`, the parent of pairs `2q` (slot A) and `2q + 1`
   * (slot B).
   */
  function PlaceholderRow(tournamentId: int, initialRound: int, bracketSize: int, stage: Stage, bracket: BracketTag,
                          pairing: seq<int>, p: int, k: int): Match
    requires IsPowerOfTwo(bracketSize) && 0 <= p < PlaceholderCount(bracketSize)
  {
    var q := PlaceholderCount(bracketSize) - 1 - p;
    Placeholder(tournamentId, PlaceholderRound(initialRound, bracketSize, p), stage, bracket)
      .(teamA := Seat(pairing, bracketSize, 2 * q, k), teamB := Seat(pairing, bracketSize, 2 * q + 1, k))
  }

  /** The first `n` placeholders once the first `k` pairs are done, in creation order. */
  function PlaceholderPrefix(tournamentId: int, initialRound: int, bracketSize: int, stage: Stage, bracket: BracketTag,
                             pairing: seq<int>, k: int, n: int): (rows: seq<Match>)
    requires IsPowerOfTwo(bracketSize) && 0 <= n <= PlaceholderCount(bracketSize)
    ensures |rows| == n
  {
    if n == 0 then []
    else
      var last := PlaceholderRow(tournamentId, initialRound, bracketSize, stage, bracket, pairing, n - 1, k);
      PlaceholderPrefix(tournamentId, initialRound, bracketSize, stage, bracket, pairing, k, n - 1) + [last]
  }

  /** Every placeholder once the first `k` pairs are done. */
  function PlaceholderRows(tournamentId: int, initialRound: int, bracketSize: int, stage: Stage, bracket: BracketTag,
                           pairing: seq<int>, k: int): (rows: seq<Match>)
    requires IsPowerOfTwo(bracketSize)
    ensures |rows| == PlaceholderCount(bracketSize)
  {
    PlaceholderPrefix(tournamentId, initialRound, bracketSize, stage, bracket, pairing, k, PlaceholderCount(bracketSize))
  }

  /** The first-round match of a full pair. */
  function FirstRoundMatch(tournamentId: int, pairing: seq<int>, bracketSize: int, i: int, round: int,
                           stage: Stage, bracket: BracketTag): Match
    requires FullPair(pairing, bracketSize, i)
  {
    Scheduled(tournamentId, pairing[i], pairing[bracketSize - 1 - i], round, stage, None, Some(bracket))
  }

  /** How many of the first `k` pairs are full. */
  function FullPairs(pairing: seq<int>, bracketSize: int, k: int): nat
  {
    if k <= 0 then 0
    else FullPairs(pairing, bracketSize, k - 1) + (if FullPair(pairing, bracketSize, k - 1) then 1 else 0)
  }

  /** The first-round matches of the first `k` pairs, in creation order. */
  function FirstRoundRows(tournamentId: int, pairing: seq<int>, bracketSize: int, k: int, round: int,
                         stage: Stage, bracket: BracketTag): (rows: seq<Match>)
    ensures |rows| == FullPairs(pairing, bracketSize, k)
  {
    if k <= 0 then []
    else
      var last := if FullPair(pairing, bracketSize, k - 1)
        then [FirstRoundMatch(tournamentId, pairing, bracketSize, k - 1, round, stage, bracket)] else [];
      FirstRoundRows(tournamentId, pairing, bracketSize, k - 1, round, stage, bracket) + last
  }

  /**
   * The WINNER edges of the first `k` pairs: the match of a full pair `i`,
   * whose id is `firstId` plus the full pairs before it, feeds slot
   * `SlotOf(i)` of target `i / 2`, when that target exists.
   */
  function FirstRoundEdges(tournamentId: int, pairing: seq<int>, bracketSize: int, k: int, targets: seq<int>,
                           firstId: int): seq<BracketPosition>
  {
    if k <= 0 then []
    else
      var i := k - 1;
      var next := Entry(targets, i / 2);
      FirstRoundEdges(tournamentId, pairing, bracketSize, i, targets, firstId)
        + (if FullPair(pairing, bracketSize, i) && Truthy(next)
           then [BracketPosition(tournamentId, next.value, SlotOf(i), firstId + FullPairs(pairing, bracketSize, i), WinnerOutcome)]
           else [])
  }

  /**
   * The edges of the first `k` passes of the semifinal loop: target `i`
   * feeds slot `SlotOf(i)` of target `bracketSize / 4`, when both exist.
   * (For a bracket of 2 the source reads index 0.5, which is `undefined`
   * just as index 0 of the then empty list is.)
   */
  function SemifinalEdges(tournamentId: int, targets: seq<int>, bracketSize: int, k: int): seq<BracketPosition>
  {
    if k <= 0 then []
    else
      var semi := Entry(targets, k - 1);
      var final := Entry(targets, bracketSize / 4);
      SemifinalEdges(tournamentId, targets, bracketSize, k - 1)
        + (if Truthy(semi) && Truthy(final)
           then [BracketPosition(tournamentId, final.value, SlotOf(k - 1), semi.value, WinnerOutcome)]
           else [])
  }

  /** The passes of `for (let i = 0; i < bracketSize / 4; i++)`, with `/` the real division. */
  function SemifinalPasses(bracketSize: int): int
  {
    if bracketSize <= 0 then 0 else (bracketSize + 3) / 4
  }

  /** `futureMatchIds` after the reversal, when the placeholders got ids `base`, `base + 1`, ... */
  ghost predicate ReversedIds(targets: seq<int>, base: int, count: int)
  {
    |targets| == count && forall j :: 0 <= j < count ==> targets[j] == base + count - 1 - j
  }

  // ---------------------------------------------------------------------
  // The generator
  // ---------------------------------------------------------------------

  /** Before any pair is handled a placeholder has neither team. */
  lemma FreshRow(tournamentId: int, initialRound: int, bracketSize: int, stage: Stage, bracket: BracketTag,
                 pairing: seq<int>, p: int)
    requires IsPowerOfTwo(bracketSize) && 0 <= p < PlaceholderCount(bracketSize)
    ensures PlaceholderRow(tournamentId, initialRound, bracketSize, stage, bracket, pairing, p, 0)
         == Placeholder(tournamentId, PlaceholderRound(initialRound, bracketSize, p), stage, bracket)
  {
  }

  /** The ids `base`, ..., `base + n - 1`, in the order the store hands them out. */
  function IdRange(base: int, n: nat): (r: seq<int>)
    ensures |r| == n && forall j :: 0 <= j < n ==> r[j] == base + j
  {
    if n == 0 then [] else IdRange(base, n - 1) + [base + n - 1]
  }

  /** The first loop of `generateEliminationPhase`: one empty placeholder per later-round match. */
  method CreatePlaceholders(db: Database, tournamentId: int, bracketSize: int, initialRound: int, stage: Stage,
                            bracket: BracketTag, ghost pairing: seq<int>) returns (futureMatchIds: seq<int>)
    requires db.Valid() && tournamentId in db.tournaments && IsPowerOfTwo(bracketSize) && bracketSize >= 2
    modifies db
    ensures db.Valid()
    ensures db.matches == old(db.matches) + PlaceholderRows(tournamentId, initialRound, bracketSize, stage, bracket, pairing, 0)
    ensures futureMatchIds == IdRange(|old(db.matches)| + 1, PlaceholderCount(bracketSize))
    ensures db.edges == old(db.edges) && db.tournaments == old(db.tournaments) && db.registrations == old(db.registrations)
  {
    var numFutureMatches := PlaceholderCount(bracketSize);
    futureMatchIds := [];
    var i := 0;
    while i < numFutureMatches
      invariant 0 <= i <= numFutureMatches && db.Valid()
      invariant && db.matches == old(db.matches) + PlaceholderPrefix(tournamentId, initialRound, bracketSize, stage, bracket, pairing, 0, i)
                && futureMatchIds == IdRange(|old(db.matches)| + 1, i)
      invariant db.edges == old(db.edges) && db.tournaments == old(db.tournaments) && db.registrations == old(db.registrations)
    {
      futureMatchIds := AddPlaceholder(db, tournamentId, bracketSize, initialRound, stage, bracket, pairing, old(db.matches),
                                       i, futureMatchIds);
      i := i + 1;
    }
  }

  /** One pass of the first loop: placeholder `i`, in round `PlaceholderRound(initialRound, bracketSize, i)`. */
  method AddPlaceholder(db: Database, tournamentId: int, bracketSize: int, initialRound: int, stage: Stage,
                        bracket: BracketTag, ghost pairing: seq<int>, ghost before: seq<Match>, i: int,
                        futureMatchIds: seq<int>) returns (futureMatchIds': seq<int>)
    requires db.Valid() && tournamentId in db.tournaments && IsPowerOfTwo(bracketSize) && 0 <= i < PlaceholderCount(bracketSize)
    requires db.matches == before + PlaceholderPrefix(tournamentId, initialRound, bracketSize, stage, bracket, pairing, 0, i)
    requires futureMatchIds == IdRange(|before| + 1, i)
    modifies db
    ensures db.Valid()
    ensures db.matches == before + PlaceholderPrefix(tournamentId, initialRound, bracketSize, stage, bracket, pairing, 0, i + 1)
    ensures futureMatchIds' == IdRange(|before| + 1, i + 1)
    ensures db.edges == old(db.edges) && db.tournaments == old(db.tournaments) && db.registrations == old(db.registrations)
  {
    var maxRounds := Log2(bracketSize);
    var round := initialRound + maxRounds - 1 - i / (bracketSize / 4);
    FreshRow(tournamentId, initialRound, bracketSize, stage, bracket, pairing, i);
    var newId := db.CreateMatch(Placeholder(tournamentId, round, stage, bracket));
    futureMatchIds' := futureMatchIds + [newId];
  }

  lemma {:induction false} PrefixAt(tournamentId: int, initialRound: int, bracketSize: int, stage: Stage, bracket: BracketTag,
                                    pairing: seq<int>, k: int, n: int, p: int)
    requires IsPowerOfTwo(bracketSize) && 0 <= p < n <= PlaceholderCount(bracketSize)
    ensures PlaceholderPrefix(tournamentId, initialRound, bracketSize, stage, bracket, pairing, k, n)[p]
         == PlaceholderRow(tournamentId, initialRound, bracketSize, stage, bracket, pairing, p, k)
  {
    if p < n - 1 {
      PrefixAt(tournamentId, initialRound, bracketSize, stage, bracket, pairing, k, n - 1, p);
    }
  }

  lemma RowsAt(tournamentId: int, initialRound: int, bracketSize: int, stage: Stage, bracket: BracketTag,
               pairing: seq<int>, k: int, p: int)
    requires IsPowerOfTwo(bracketSize) && 0 <= p < PlaceholderCount(bracketSize)
    ensures PlaceholderRows(tournamentId, initialRound, bracketSize, stage, bracket, pairing, k)[p]
         == PlaceholderRow(tournamentId, initialRound, bracketSize, stage, bracket, pairing, p, k)
  {
    PrefixAt(tournamentId, initialRound, bracketSize, stage, bracket, pairing, k, PlaceholderCount(bracketSize), p);
  }

  /** Pair `i` belongs to parent `i / 2`: it is child `2q` or `2q + 1` of `q` exactly when `q == i / 2`. */
  lemma HalfIndex(i: int, q: int)
    requires 0 <= i && 0 <= q
    ensures (2 * q == i || 2 * q + 1 == i) <==> q == i / 2
  {
  }

  /** Pair `i` changes only the slot `SlotOf(i)` of its parent, and only to the team it advances. */
  lemma RowStep(tournamentId: int, initialRound: int, bracketSize: int, stage: Stage, bracket: BracketTag,
                pairing: seq<int>, p: int, i: int)
    requires IsPowerOfTwo(bracketSize) && 0 <= p < PlaceholderCount(bracketSize) && 0 <= i
    ensures var row := PlaceholderRow(tournamentId, initialRound, bracketSize, stage, bracket, pairing, p, i);
      var seat := Advancing(pairing, bracketSize, i);
      PlaceholderRow(tournamentId, initialRound, bracketSize, stage, bracket, pairing, p, i + 1)
        == if PlaceholderCount(bracketSize) - 1 - p != i / 2 then row
           else if i % 2 == 0 then row.(teamA := seat) else row.(teamB := seat)
  {
    var q := PlaceholderCount(bracketSize) - 1 - p;
    HalfIndex(i, q);
    var a := Seat(pairing, bracketSize, 2 * q, i);
    var b := Seat(pairing, bracketSize, 2 * q + 1, i);
    var seat := Advancing(pairing, bracketSize, i);
    var a' := Seat(pairing, bracketSize, 2 * q, i + 1);
    var b' := Seat(pairing, bracketSize, 2 * q + 1, i + 1);
    var row := PlaceholderRow(tournamentId, initialRound, bracketSize, stage, bracket, pairing, p, i);
    var row' := PlaceholderRow(tournamentId, initialRound, bracketSize, stage, bracket, pairing, p, i + 1);
    if q != i / 2 {
      assert a' == a && b' == b;
      assert row' == row;
    } else if i % 2 == 0 {
      assert a' == seat && b' == b;
      assert row' == row.(teamA := seat);
    } else {
      assert a' == a && b' == seat;
      assert row' == row.(teamB := seat);
    }
  }

  /** A pair that writes no bye, or has no parent, leaves every placeholder as it was. */
  lemma PlaceholdersKept(tournamentId: int, initialRound: int, bracketSize: int, stage: Stage, bracket: BracketTag,
                         pairing: seq<int>, i: int)
    requires IsPowerOfTwo(bracketSize) && bracketSize >= 2 && 0 <= i
    requires Advancing(pairing, bracketSize, i).None? || i / 2 >= PlaceholderCount(bracketSize)
    ensures PlaceholderRows(tournamentId, initialRound, bracketSize, stage, bracket, pairing, i + 1)
         == PlaceholderRows(tournamentId, initialRound, bracketSize, stage, bracket, pairing, i)
  {
    var before := PlaceholderRows(tournamentId, initialRound, bracketSize, stage, bracket, pairing, i);
    var after := PlaceholderRows(tournamentId, initialRound, bracketSize, stage, bracket, pairing, i + 1);
    forall p | 0 <= p < |before| ensures after[p] == before[p] {
      RowsAt(tournamentId, initialRound, bracketSize, stage, bracket, pairing, i, p);
      RowsAt(tournamentId, initialRound, bracketSize, stage, bracket, pairing, i + 1, p);
      RowStep(tournamentId, initialRound, bracketSize, stage, bracket, pairing, p, i);
    }
  }

  /** A bye of pair `i` fills slot `SlotOf(i)` of placeholder `PlaceholderCount - 1 - i / 2`, and nothing else. */
  lemma PlaceholdersBye(tournamentId: int, initialRound: int, bracketSize: int, stage: Stage, bracket: BracketTag,
                        pairing: seq<int>, i: int)
    requires IsPowerOfTwo(bracketSize) && bracketSize >= 2 && 0 <= i && i / 2 < PlaceholderCount(bracketSize)
    ensures var before := PlaceholderRows(tournamentId, initialRound, bracketSize, stage, bracket, pairing, i);
      var p := PlaceholderCount(bracketSize) - 1 - i / 2;
      var seat := Advancing(pairing, bracketSize, i);
      PlaceholderRows(tournamentId, initialRound, bracketSize, stage, bracket, pairing, i + 1)
        == before[p := if i % 2 == 0 then before[p].(teamA := seat) else before[p].(teamB := seat)]
  {
    var before := PlaceholderRows(tournamentId, initialRound, bracketSize, stage, bracket, pairing, i);
    var after := PlaceholderRows(tournamentId, initialRound, bracketSize, stage, bracket, pairing, i + 1);
    var p := PlaceholderCount(bracketSize) - 1 - i / 2;
    var seat := Advancing(pairing, bracketSize, i);
    var filled := if i % 2 == 0 then before[p].(teamA := seat) else before[p].(teamB := seat);
    forall p' | 0 <= p' < |before| ensures after[p'] == before[p := filled][p'] {
      RowsAt(tournamentId, initialRound, bracketSize, stage, bracket, pairing, i, p');
      RowsAt(tournamentId, initialRound, bracketSize, stage, bracket, pairing, i + 1, p');
      RowStep(tournamentId, initialRound, bracketSize, stage, bracket, pairing, p', i);
    }
  }

  /** Overwriting a row of the middle part of a concatenation. */
  lemma UpdateMiddle(prefix: seq<Match>, middle: seq<Match>, suffix: seq<Match>, p: int, m: Match)
    requires 0 <= p < |middle|
    ensures (prefix + middle + suffix)[|prefix| + p := m] == prefix + middle[p := m] + suffix
  {
  }

  /** The first `i` pairs have been handled: the rows, edges and count they produce. */
  ghost predicate PairedUpTo(matches: seq<Match>, tournamentId: int, teamsForPairing: seq<int>, bracketSize: int, initialRound: int,
                             stage: Stage, bracket: BracketTag, futureMatchIds: seq<int>, prefix: seq<Match>, i: int,
                             bracketPositions: seq<BracketPosition>, created: int)
    requires IsPowerOfTwo(bracketSize)
  {
    && matches == prefix
      + PlaceholderRows(tournamentId, initialRound, bracketSize, stage, bracket, teamsForPairing, i)
      + FirstRoundRows(tournamentId, teamsForPairing, bracketSize, i, initialRound, stage, bracket)
    && bracketPositions == FirstRoundEdges(tournamentId, teamsForPairing, bracketSize, i, futureMatchIds,
                                           |prefix| + PlaceholderCount(bracketSize) + 1)
    && created == FullPairs(teamsForPairing, bracketSize, i)
  }

  lemma FullPairsStep(pairing: seq<int>, bracketSize: int, i: int)
    requires 0 <= i
    ensures FullPairs(pairing, bracketSize, i + 1)
         == FullPairs(pairing, bracketSize, i) + (if FullPair(pairing, bracketSize, i) then 1 else 0)
  {
  }

  lemma FirstRoundRowsStep(tournamentId: int, pairing: seq<int>, bracketSize: int, i: int, round: int, stage: Stage,
                           bracket: BracketTag)
    requires 0 <= i
    ensures FirstRoundRows(tournamentId, pairing, bracketSize, i + 1, round, stage, bracket)
         == FirstRoundRows(tournamentId, pairing, bracketSize, i, round, stage, bracket)
            + (if FullPair(pairing, bracketSize, i) then [FirstRoundMatch(tournamentId, pairing, bracketSize, i, round, stage, bracket)] else [])
  {
  }

  lemma FirstRoundEdgesStep(tournamentId: int, pairing: seq<int>, bracketSize: int, i: int, targets: seq<int>, firstId: int)
    requires 0 <= i
    ensures var next := Entry(targets, i / 2);
      FirstRoundEdges(tournamentId, pairing, bracketSize, i + 1, targets, firstId)
        == FirstRoundEdges(tournamentId, pairing, bracketSize, i, targets, firstId)
           + (if FullPair(pairing, bracketSize, i) && Truthy(next)
              then [BracketPosition(tournamentId, next.value, SlotOf(i), firstId + FullPairs(pairing, bracketSize, i), WinnerOutcome)]
              else [])
  {
  }

  /** A full pair appends its match, and its edge when it has a parent. */
  lemma FullStep(matches: seq<Match>, tournamentId: int, pairing: seq<int>, bracketSize: int, initialRound: int,
                 stage: Stage, bracket: BracketTag, targets: seq<int>, prefix: seq<Match>, i: int,
                 positions: seq<BracketPosition>, created: int)
    requires IsPowerOfTwo(bracketSize) && bracketSize >= 2 && 0 <= i && FullPair(pairing, bracketSize, i)
    requires PairedUpTo(matches, tournamentId, pairing, bracketSize, initialRound, stage, bracket, targets, prefix,
                        i, positions, created)
    ensures var next := Entry(targets, i / 2);
      PairedUpTo(matches + [FirstRoundMatch(tournamentId, pairing, bracketSize, i, initialRound, stage, bracket)],
                 tournamentId, pairing, bracketSize, initialRound, stage, bracket, targets, prefix, i + 1,
                 positions + (if Truthy(next) then [BracketPosition(tournamentId, next.value, SlotOf(i), |matches| + 1, WinnerOutcome)] else []),
                 created + 1)
  {
    PlaceholdersKept(tournamentId, initialRound, bracketSize, stage, bracket, pairing, i);
    FullPairsStep(pairing, bracketSize, i);
    FirstRoundRowsStep(tournamentId, pairing, bracketSize, i, initialRound, stage, bracket);
    FirstRoundEdgesStep(tournamentId, pairing, bracketSize, i, targets, |prefix| + PlaceholderCount(bracketSize) + 1);
  }

  /** The parent of a pair is a stored placeholder of this tournament. */
  lemma ByeTarget(matches: seq<Match>, tournamentId: int, pairing: seq<int>, bracketSize: int, initialRound: int,
                  stage: Stage, bracket: BracketTag, targets: seq<int>, prefix: seq<Match>, i: int,
                  positions: seq<BracketPosition>, created: int)
    requires IsPowerOfTwo(bracketSize) && bracketSize >= 2 && 0 <= i
    requires ReversedIds(targets, |prefix| + 1, PlaceholderCount(bracketSize)) && Truthy(Entry(targets, i / 2))
    requires PairedUpTo(matches, tournamentId, pairing, bracketSize, initialRound, stage, bracket, targets, prefix,
                        i, positions, created)
    ensures 1 <= targets[i / 2] <= |matches| && matches[targets[i / 2] - 1].tournamentId == tournamentId
  {
    var p := PlaceholderCount(bracketSize) - 1 - i / 2;
    var rows := PlaceholderRows(tournamentId, initialRound, bracketSize, stage, bracket, pairing, i);
    assert targets[i / 2] - 1 == |prefix| + p;
    assert matches[targets[i / 2] - 1] == rows[p];
    RowsAt(tournamentId, initialRound, bracketSize, stage, bracket, pairing, i, p);
  }

  /** A bye overwrites one slot of the parent placeholder. */
  lemma ByeStep(matches: seq<Match>, tournamentId: int, pairing: seq<int>, bracketSize: int, initialRound: int,
                stage: Stage, bracket: BracketTag, targets: seq<int>, prefix: seq<Match>, i: int,
                positions: seq<BracketPosition>, created: int)
    requires IsPowerOfTwo(bracketSize) && bracketSize >= 2 && 0 <= i && !FullPair(pairing, bracketSize, i)
    requires ReversedIds(targets, |prefix| + 1, PlaceholderCount(bracketSize)) && Truthy(Entry(targets, i / 2))
    requires PairedUpTo(matches, tournamentId, pairing, bracketSize, initialRound, stage, bracket, targets, prefix,
                        i, positions, created)
    requires 1 <= targets[i / 2] <= |matches|
    ensures var id := targets[i / 2];
      var target := matches[id - 1];
      var seat := Advancing(pairing, bracketSize, i);
      PairedUpTo(matches[id - 1 := if i % 2 == 0 then target.(teamA := seat) else target.(teamB := seat)],
                 tournamentId, pairing, bracketSize, initialRound, stage, bracket, targets, prefix, i + 1, positions, created)
  {
    var nf := PlaceholderCount(bracketSize);
    var rows := PlaceholderRows(tournamentId, initialRound, bracketSize, stage, bracket, pairing, i);
    var done := FirstRoundRows(tournamentId, pairing, bracketSize, i, initialRound, stage, bracket);
    var p := nf - 1 - i / 2;
    var id := targets[i / 2];
    assert id - 1 == |prefix| + p;
    assert matches[id - 1] == rows[p];
    var seat := Advancing(pairing, bracketSize, i);
    var filled := if i % 2 == 0 then rows[p].(teamA := seat) else rows[p].(teamB := seat);
    PlaceholdersBye(tournamentId, initialRound, bracketSize, stage, bracket, pairing, i);
    UpdateMiddle(prefix, rows, done, p, filled);
    FullPairsStep(pairing, bracketSize, i);
    FirstRoundRowsStep(tournamentId, pairing, bracketSize, i, initialRound, stage, bracket);
    FirstRoundEdgesStep(tournamentId, pairing, bracketSize, i, targets, |prefix| + nf + 1);
  }

  /** A pair that neither plays nor writes a bye leaves everything as it was. */
  lemma SkipStep(matches: seq<Match>, tournamentId: int, pairing: seq<int>, bracketSize: int, initialRound: int,
                 stage: Stage, bracket: BracketTag, targets: seq<int>, prefix: seq<Match>, i: int,
                 positions: seq<BracketPosition>, created: int)
    requires IsPowerOfTwo(bracketSize) && bracketSize >= 2 && 0 <= i && !FullPair(pairing, bracketSize, i)
    requires Advancing(pairing, bracketSize, i).None? || i / 2 >= PlaceholderCount(bracketSize)
    requires PairedUpTo(matches, tournamentId, pairing, bracketSize, initialRound, stage, bracket, targets, prefix,
                        i, positions, created)
    ensures PairedUpTo(matches, tournamentId, pairing, bracketSize, initialRound, stage, bracket, targets, prefix,
                       i + 1, positions, created)
  {
    PlaceholdersKept(tournamentId, initialRound, bracketSize, stage, bracket, pairing, i);
    FullPairsStep(pairing, bracketSize, i);
    FirstRoundRowsStep(tournamentId, pairing, bracketSize, i, initialRound, stage, bracket);
    FirstRoundEdgesStep(tournamentId, pairing, bracketSize, i, targets, |prefix| + PlaceholderCount(bracketSize) + 1);
  }

  /** A full pair: its match is created, and linked to the parent placeholder when there is one. */
  method PairFull(db: Database, tournamentId: int, teamsForPairing: seq<int>, bracketSize: int, initialRound: int,
                 stage: Stage, bracket: BracketTag, futureMatchIds: seq<int>, ghost prefix: seq<Match>, i: int,
                 bracketPositions: seq<BracketPosition>, created: int)
    returns (bracketPositions': seq<BracketPosition>, created': int)
    requires db.Valid() && tournamentId in db.tournaments && IsPowerOfTwo(bracketSize) && bracketSize >= 2 && 0 <= i
    requires FullPair(teamsForPairing, bracketSize, i)
    requires PairedUpTo(db.matches, tournamentId, teamsForPairing, bracketSize, initialRound, stage, bracket, futureMatchIds, prefix,
                        i, bracketPositions, created)
    modifies db
    ensures db.Valid()
    ensures PairedUpTo(db.matches, tournamentId, teamsForPairing, bracketSize, initialRound, stage, bracket, futureMatchIds, prefix,
                       i + 1, bracketPositions', created')
    ensures db.edges == old(db.edges) && db.tournaments == old(db.tournaments) && db.registrations == old(db.registrations)
  {
    FullStep(db.matches, tournamentId, teamsForPairing, bracketSize, initialRound, stage, bracket, futureMatchIds, prefix, i,
             bracketPositions, created);
    var teamAId := teamsForPairing[i];
    var teamBId := teamsForPairing[bracketSize - 1 - i];
    var matchRodada := db.CreateMatch(Scheduled(tournamentId, teamAId, teamBId, initialRound, stage, None, Some(bracket)));
    created' := created + 1;
    bracketPositions' := bracketPositions;
    var nextMatchId := Entry(futureMatchIds, i / 2);
    if Truthy(nextMatchId) {
      bracketPositions' := bracketPositions' + [BracketPosition(tournamentId, nextMatchId.value, SlotOf(i), matchRodada, WinnerOutcome)];
    }
  }

  /** A partial pair with a parent: its lone team takes slot `SlotOf(i)` of that placeholder. */
  method PairBye(db: Database, tournamentId: int, teamsForPairing: seq<int>, bracketSize: int, initialRound: int,
                 stage: Stage, bracket: BracketTag, futureMatchIds: seq<int>, ghost prefix: seq<Match>, i: int,
                 bracketPositions: seq<BracketPosition>, created: int)
    returns (bracketPositions': seq<BracketPosition>, created': int)
    requires db.Valid() && tournamentId in db.tournaments && IsPowerOfTwo(bracketSize) && bracketSize >= 2 && 0 <= i
    requires ReversedIds(futureMatchIds, |prefix| + 1, PlaceholderCount(bracketSize))
    requires !FullPair(teamsForPairing, bracketSize, i) && Truthy(Entry(futureMatchIds, i / 2))
    requires PairedUpTo(db.matches, tournamentId, teamsForPairing, bracketSize, initialRound, stage, bracket, futureMatchIds, prefix,
                        i, bracketPositions, created)
    modifies db
    ensures db.Valid()
    ensures PairedUpTo(db.matches, tournamentId, teamsForPairing, bracketSize, initialRound, stage, bracket, futureMatchIds, prefix,
                       i + 1, bracketPositions', created')
    ensures db.edges == old(db.edges) && db.tournaments == old(db.tournaments) && db.registrations == old(db.registrations)
  {
    ByeTarget(db.matches, tournamentId, teamsForPairing, bracketSize, initialRound, stage, bracket, futureMatchIds, prefix, i,
              bracketPositions, created);
    ByeStep(db.matches, tournamentId, teamsForPairing, bracketSize, initialRound, stage, bracket, futureMatchIds, prefix, i,
            bracketPositions, created);
    var advancingTeam := Advancing(teamsForPairing, bracketSize, i);
    var nextMatchId := futureMatchIds[i / 2];
    var target := db.matches[nextMatchId - 1];
    var updated := if i % 2 == 0 then target.(teamA := advancingTeam) else target.(teamB := advancingTeam);
    db.UpdateMatch(nextMatchId, updated);
    bracketPositions', created' := bracketPositions, created;
  }

  /** One pass of the second loop of `generateEliminationPhase`, for pair `i`. */
  method PairOne(db: Database, tournamentId: int, teamsForPairing: seq<int>, bracketSize: int, initialRound: int,
                 stage: Stage, bracket: BracketTag, futureMatchIds: seq<int>, ghost prefix: seq<Match>, i: int,
                 bracketPositions: seq<BracketPosition>, created: int)
    returns (bracketPositions': seq<BracketPosition>, created': int)
    requires db.Valid() && tournamentId in db.tournaments && IsPowerOfTwo(bracketSize) && bracketSize >= 2 && 0 <= i
    requires ReversedIds(futureMatchIds, |prefix| + 1, PlaceholderCount(bracketSize))
    requires PairedUpTo(db.matches, tournamentId, teamsForPairing, bracketSize, initialRound, stage, bracket, futureMatchIds, prefix,
                        i, bracketPositions, created)
    modifies db
    ensures db.Valid()
    ensures PairedUpTo(db.matches, tournamentId, teamsForPairing, bracketSize, initialRound, stage, bracket, futureMatchIds, prefix,
                       i + 1, bracketPositions', created')
    ensures db.edges == old(db.edges) && db.tournaments == old(db.tournaments) && db.registrations == old(db.registrations)
  {
    var teamAId := Entry(teamsForPairing, i);
    var teamBId := Entry(teamsForPairing, bracketSize - 1 - i);
    var nextMatchId := Entry(futureMatchIds, i / 2);
    if Truthy(teamAId) && Truthy(teamBId) {
      bracketPositions', created' := PairFull(db, tournamentId, teamsForPairing, bracketSize, initialRound, stage, bracket,
                                              futureMatchIds, prefix, i, bracketPositions, created);
    } else if (Truthy(teamAId) || Truthy(teamBId)) && Truthy(nextMatchId) {
      bracketPositions', created' := PairBye(db, tournamentId, teamsForPairing, bracketSize, initialRound, stage, bracket,
                                             futureMatchIds, prefix, i, bracketPositions, created);
    } else {
      SkipStep(db.matches, tournamentId, teamsForPairing, bracketSize, initialRound, stage, bracket, futureMatchIds, prefix, i,
               bracketPositions, created);
      bracketPositions', created' := bracketPositions, created;
    }
  }

  /**
   * The second loop of `generateEliminationPhase`: pairs entry `i` with entry
   * `bracketSize - 1 - i`, creates the match of a full pair and its WINNER
   * edge into reversed placeholder `i / 2`, and writes the lone team of a
   * partial pair into that placeholder's slot instead.
   */
  method PairFirstRound(db: Database, tournamentId: int, teamsForPairing: seq<int>, bracketSize: int, initialRound: int,
                        stage: Stage, bracket: BracketTag, futureMatchIds: seq<int>, ghost prefix: seq<Match>)
    returns (bracketPositions: seq<BracketPosition>, created: int)
    requires db.Valid() && tournamentId in db.tournaments && IsPowerOfTwo(bracketSize) && bracketSize >= 2
    requires db.matches == prefix + PlaceholderRows(tournamentId, initialRound, bracketSize, stage, bracket, teamsForPairing, 0)
    requires ReversedIds(futureMatchIds, |prefix| + 1, PlaceholderCount(bracketSize))
    modifies db
    ensures db.Valid()
    ensures PairedUpTo(db.matches, tournamentId, teamsForPairing, bracketSize, initialRound, stage, bracket, futureMatchIds, prefix,
                       bracketSize / 2, bracketPositions, created)
    ensures db.edges == old(db.edges) && db.tournaments == old(db.tournaments) && db.registrations == old(db.registrations)
  {
    var numMatchesInFirstRound := bracketSize / 2;
    bracketPositions := [];
    created := 0;
    var i := 0;
    while i < numMatchesInFirstRound
      invariant 0 <= i <= numMatchesInFirstRound && db.Valid()
      invariant PairedUpTo(db.matches, tournamentId, teamsForPairing, bracketSize, initialRound, stage, bracket, futureMatchIds, prefix,
                           i, bracketPositions, created)
      invariant db.edges == old(db.edges) && db.tournaments == old(db.tournaments) && db.registrations == old(db.registrations)
    {
      bracketPositions, created := PairOne(db, tournamentId, teamsForPairing, bracketSize, initialRound, stage, bracket,
                                           futureMatchIds, prefix, i, bracketPositions, created);
      i := i + 1;
    }
  }

  /**
   * The third loop of `generateEliminationPhase`: target `i` feeds slot
   * `SlotOf(i)` of target `bracketSize / 4`, for every `i` below the real
   * quotient `bracketSize / 4`.
   */
  method LinkSemifinals(tournamentId: int, futureMatchIds: seq<int>, bracketSize: int)
    returns (bracketPositions: seq<BracketPosition>)
    ensures bracketPositions == SemifinalEdges(tournamentId, futureMatchIds, bracketSize, SemifinalPasses(bracketSize))
  {
    var finalMatchIndex := bracketSize / 4;
    bracketPositions := [];
    var i := 0;
    while 4 * i < bracketSize
      invariant 0 <= i && (bracketSize <= 0 ==> i == 0) && (bracketSize > 0 ==> 4 * (i - 1) < bracketSize)
      invariant bracketPositions == SemifinalEdges(tournamentId, futureMatchIds, bracketSize, i)
      decreases bracketSize - 4 * i
    {
      var semiFinalMatchId := Entry(futureMatchIds, i);
      var finalMatchId := Entry(futureMatchIds, finalMatchIndex);
      if Truthy(semiFinalMatchId) && Truthy(finalMatchId) {
        bracketPositions := bracketPositions
          + [BracketPosition(tournamentId, finalMatchId.value, SlotOf(i), semiFinalMatchId.value, WinnerOutcome)];
      }
      i := i + 1;
    }
  }

  /** The ids `base + count - 1`, ..., `base`: the placeholder ids after `reverse()`. */
  function ReversedRange(base: int, count: nat): (r: seq<int>)
    ensures ReversedIds(r, base, count)
  {
    if count == 0 then [] else [base + count - 1] + ReversedRange(base, count - 1)
  }

  /** `reverse()` turns the ids in creation order into the reversed range. */
  lemma ReverseIdRange(base: int, count: nat)
    ensures Reverse(IdRange(base, count)) == ReversedRange(base, count)
  {
    var r := Reverse(IdRange(base, count));
    assert ReversedIds(r, base, count);
  }

  /** The pairing order: shuffled only for a round-1 single-elimination bracket. */
  function TeamsForPairing(teamIds: seq<int>, shuffled: seq<int>, initialRound: int, stage: Stage): seq<int>
  {
    if initialRound == 1 && stage == SingleEliminationStage then shuffled else teamIds
  }

  /**
   * What `generateEliminationPhase` leaves behind for a bracket of
   * `bracketSize`: the placeholders (with the byes written in) and then the
   * first-round matches appended to `before`, the first-round and semifinal
   * edges appended to `beforeEdges`, and the count it returns.
   */
  ghost predicate EliminationBuilt(before: seq<Match>, beforeEdges: seq<BracketPosition>, matches: seq<Match>,
                                   edges: seq<BracketPosition>, tournamentId: int, pairing: seq<int>, bracketSize: int,
                                   initialRound: int, stage: Stage, bracket: BracketTag, count: int)
    requires IsPowerOfTwo(bracketSize)
  {
    var nf := PlaceholderCount(bracketSize);
    var targets := ReversedRange(|before| + 1, nf);
    && count == nf + FullPairs(pairing, bracketSize, bracketSize / 2)
    && matches == before + PlaceholderRows(tournamentId, initialRound, bracketSize, stage, bracket, pairing, bracketSize / 2)
                  + FirstRoundRows(tournamentId, pairing, bracketSize, bracketSize / 2, initialRound, stage, bracket)
    && edges == beforeEdges + FirstRoundEdges(tournamentId, pairing, bracketSize, bracketSize / 2, targets, |before| + nf + 1)
                + SemifinalEdges(tournamentId, targets, bracketSize, SemifinalPasses(bracketSize))
  }

  /** The placeholders, and their ids in the reversed order the first-round loop reads them in. */
  method CreateTargets(db: Database, tournamentId: int, bracketSize: int, initialRound: int, stage: Stage,
                       bracket: BracketTag, ghost pairing: seq<int>) returns (futureMatchIds: seq<int>)
    requires db.Valid() && tournamentId in db.tournaments && IsPowerOfTwo(bracketSize) && bracketSize >= 2
    modifies db
    ensures db.Valid()
    ensures db.matches == old(db.matches) + PlaceholderRows(tournamentId, initialRound, bracketSize, stage, bracket, pairing, 0)
    ensures futureMatchIds == ReversedRange(|old(db.matches)| + 1, PlaceholderCount(bracketSize))
    ensures db.edges == old(db.edges) && db.tournaments == old(db.tournaments) && db.registrations == old(db.registrations)
  {
    futureMatchIds := CreatePlaceholders(db, tournamentId, bracketSize, initialRound, stage, bracket, pairing);
    futureMatchIds := Reverse(futureMatchIds);
    ReverseIdRange(|old(db.matches)| + 1, PlaceholderCount(bracketSize));
  }

  /** The three loops of `generateEliminationPhase` and the edge batch, for a bracket of `bracketSize`. */
  method BuildBracket(db: Database, tournamentId: int, teamsForPairing: seq<int>, bracketSize: int, initialRound: int,
                      stage: Stage, bracket: BracketTag) returns (count: int)
    requires db.Valid() && tournamentId in db.tournaments && IsPowerOfTwo(bracketSize) && bracketSize >= 2
    modifies db
    ensures db.Valid() && db.tournaments == old(db.tournaments) && db.registrations == old(db.registrations)
    ensures EliminationBuilt(old(db.matches), old(db.edges), db.matches, db.edges, tournamentId, teamsForPairing,
                             bracketSize, initialRound, stage, bracket, count)
  {
    ghost var before := db.matches;
    var futureMatchIds := CreateTargets(db, tournamentId, bracketSize, initialRound, stage, bracket, teamsForPairing);
    var firstRound, created := PairFirstRound(db, tournamentId, teamsForPairing, bracketSize, initialRound, stage, bracket,
                                              futureMatchIds, before);
    var semifinals := LinkSemifinals(tournamentId, futureMatchIds, bracketSize);
    ghost var matches := db.matches;
    BracketEdgesInRange(before, matches, tournamentId, teamsForPairing, bracketSize, futureMatchIds, firstRound, semifinals);
    BracketBuilt(before, old(db.edges), matches, tournamentId, teamsForPairing, bracketSize, initialRound, stage, bracket,
                 futureMatchIds, firstRound, semifinals, created);
    db.CreateEdges(firstRound + semifinals);
    count := |futureMatchIds| + created;
  }

  /** The reversed placeholder ids lie between 1 and any bound at or past the last of them. */
  lemma TargetsInRange(targets: seq<int>, base: int, count: nat, bound: int)
    requires targets == ReversedRange(base, count) && base >= 1 && base + count - 1 <= bound
    ensures forall j :: 0 <= j < |targets| ==> 1 <= targets[j] <= bound
  {
    assert ReversedIds(targets, base, count);
  }

  /** Every edge the three loops collect points at a placeholder, so at a stored match. */
  lemma BracketEdgesInRange(before: seq<Match>, matches: seq<Match>, tournamentId: int, pairing: seq<int>,
                            bracketSize: int, targets: seq<int>, firstRound: seq<BracketPosition>,
                            semifinals: seq<BracketPosition>)
    requires IsPowerOfTwo(bracketSize) && bracketSize >= 2
    requires targets == ReversedRange(|before| + 1, PlaceholderCount(bracketSize))
    requires |matches| >= |before| + PlaceholderCount(bracketSize)
    requires firstRound == FirstRoundEdges(tournamentId, pairing, bracketSize, bracketSize / 2, targets,
                                           |before| + PlaceholderCount(bracketSize) + 1)
    requires semifinals == SemifinalEdges(tournamentId, targets, bracketSize, SemifinalPasses(bracketSize))
    ensures var es := firstRound + semifinals; forall j :: 0 <= j < |es| ==> 1 <= es[j].matchId <= |matches|
  {
    TargetsInRange(targets, |before| + 1, PlaceholderCount(bracketSize), |matches|);
    EdgesIntoPlaceholders(semifinals, tournamentId, pairing, bracketSize, targets, 1, |matches|,
                          |before| + PlaceholderCount(bracketSize) + 1);
  }

  /** The state after the three loops, once the edges are stored, is the bracket `EliminationBuilt` describes. */
  lemma BracketBuilt(before: seq<Match>, beforeEdges: seq<BracketPosition>, matches: seq<Match>, tournamentId: int,
                     pairing: seq<int>, bracketSize: int, initialRound: int, stage: Stage, bracket: BracketTag,
                     targets: seq<int>, firstRound: seq<BracketPosition>, semifinals: seq<BracketPosition>, created: int)
    requires IsPowerOfTwo(bracketSize) && bracketSize >= 2
    requires targets == ReversedRange(|before| + 1, PlaceholderCount(bracketSize))
    requires PairedUpTo(matches, tournamentId, pairing, bracketSize, initialRound, stage, bracket, targets, before,
                        bracketSize / 2, firstRound, created)
    requires semifinals == SemifinalEdges(tournamentId, targets, bracketSize, SemifinalPasses(bracketSize))
    ensures EliminationBuilt(before, beforeEdges, matches, beforeEdges + (firstRound + semifinals), tournamentId, pairing,
                             bracketSize, initialRound, stage, bracket, |targets| + created)
  {
    assert beforeEdges + (firstRound + semifinals) == beforeEdges + firstRound + semifinals;
  }

  /**
   * `generateEliminationPhase`. `shuffled` stands for the in-place random sort
   * of `teamIds`, which is used for a round-1 single-elimination bracket.
   * Fewer than two teams are refused before anything is written.
   */
  method GenerateEliminationPhase(db: Database, tournamentId: int, teamIds: seq<int>, shuffled: seq<int>,
                                  initialRound: int, stage: Stage, bracket: BracketTag) returns (r: Result<int>)
    requires db.Valid() && tournamentId in db.tournaments && multiset(shuffled) == multiset(teamIds)
    modifies db
    ensures db.Valid() && db.tournaments == old(db.tournaments) && db.registrations == old(db.registrations)
    ensures |teamIds| < 2 ==> r == Err(InvalidConfiguration) && db.matches == old(db.matches) && db.edges == old(db.edges)
    ensures |teamIds| >= 2 ==> r.Ok? && EliminationBuilt(old(db.matches), old(db.edges), db.matches, db.edges, tournamentId,
                                                         TeamsForPairing(teamIds, shuffled, initialRound, stage),
                                                         BracketSize(|teamIds|, 2), initialRound, stage, bracket, r.value)
  {
    var numTeams := |teamIds|;
    if numTeams < 2 {
      return Err(InvalidConfiguration);
    }
    var bracketSize := ComputeBracketSize(numTeams, 2);
    var teamsForPairing := TeamsForPairing(teamIds, shuffled, initialRound, stage);
    var count := BuildBracket(db, tournamentId, teamsForPairing, bracketSize, initialRound, stage, bracket);
    r := Ok(count);
  }

  /** `generateSingleElimination`: the phase from round 0, with the entrants in the order given. */
  method GenerateSingleElimination(db: Database, tournamentId: int, teamIds: seq<int>) returns (r: Result<int>)
    requires db.Valid() && tournamentId in db.tournaments
    modifies db
    ensures db.Valid() && db.tournaments == old(db.tournaments) && db.registrations == old(db.registrations)
    ensures |teamIds| < 2 ==> r == Err(InvalidConfiguration) && db.matches == old(db.matches) && db.edges == old(db.edges)
    ensures |teamIds| >= 2 ==> r.Ok? && EliminationBuilt(old(db.matches), old(db.edges), db.matches, db.edges, tournamentId,
                                                         teamIds, BracketSize(|teamIds|, 2), 0, SingleEliminationStage,
                                                         Main, r.value)
  {
    r := GenerateEliminationPhase(db, tournamentId, teamIds, teamIds, 0, SingleEliminationStage, Main);
  }

  /** `createNextBracketMatch`: a fresh match of the two teams one round after `round`. */
  method CreateNextBracketMatch(db: Database, tournamentId: int, round: int, teamAId: int, teamBId: int, stage: Stage,
                                bracket: BracketTag) returns (id: int)
    requires db.Valid() && tournamentId in db.tournaments
    modifies db
    ensures db.Valid()
    ensures db.matches == old(db.matches) + [Scheduled(tournamentId, teamAId, teamBId, round + 1, stage, None, Some(bracket))]
    ensures id == |db.matches|
    ensures db.edges == old(db.edges) && db.tournaments == old(db.tournaments) && db.registrations == old(db.registrations)
  {
    id := db.CreateMatch(Scheduled(tournamentId, teamAId, teamBId, round + 1, stage, None, Some(bracket)));
  }

  /** Every edge of the bracket points at one of `targets`, so into their range. */
  lemma EdgesIntoPlaceholders(semifinals: seq<BracketPosition>, tournamentId: int, pairing: seq<int>, bracketSize: int,
                              targets: seq<int>, lo: int, hi: int, firstId: int)
    requires forall j :: 0 <= j < |targets| ==> lo <= targets[j] <= hi
    requires semifinals == SemifinalEdges(tournamentId, targets, bracketSize, SemifinalPasses(bracketSize))
    ensures var es := FirstRoundEdges(tournamentId, pairing, bracketSize, bracketSize / 2, targets, firstId) + semifinals;
      forall j :: 0 <= j < |es| ==> lo <= es[j].matchId <= hi
  {
    FirstRoundEdgesTargets(tournamentId, pairing, bracketSize, bracketSize / 2, targets, lo, hi, firstId);
    SemifinalEdgesTargets(tournamentId, targets, bracketSize, SemifinalPasses(bracketSize), lo, hi);
  }

  lemma {:induction false} FirstRoundEdgesTargets(tournamentId: int, pairing: seq<int>, bracketSize: int, k: int,
                                                  targets: seq<int>, lo: int, hi: int, firstId: int)
    requires forall j :: 0 <= j < |targets| ==> lo <= targets[j] <= hi
    ensures forall j :: 0 <= j < |FirstRoundEdges(tournamentId, pairing, bracketSize, k, targets, firstId)|
                     ==> lo <= FirstRoundEdges(tournamentId, pairing, bracketSize, k, targets, firstId)[j].matchId <= hi
  {
    if k > 0 {
      FirstRoundEdgesTargets(tournamentId, pairing, bracketSize, k - 1, targets, lo, hi, firstId);
      var prev := FirstRoundEdges(tournamentId, pairing, bracketSize, k - 1, targets, firstId);
      var es := FirstRoundEdges(tournamentId, pairing, bracketSize, k, targets, firstId);
      var next := Entry(targets, (k - 1) / 2);
      if FullPair(pairing, bracketSize, k - 1) && Truthy(next) {
        assert lo <= next.value <= hi;
        assert es == prev + [es[|prev|]] && es[|prev|].matchId == next.value;
        forall j | 0 <= j < |es| ensures lo <= es[j].matchId <= hi {
          if j < |prev| {
            assert es[j] == prev[j];
          }
        }
      } else {
        assert es == prev;
      }
    }
  }

  lemma {:induction false} SemifinalEdgesTargets(tournamentId: int, targets: seq<int>, bracketSize: int, k: int, lo: int, hi: int)
    requires forall j :: 0 <= j < |targets| ==> lo <= targets[j] <= hi
    ensures forall j :: 0 <= j < |SemifinalEdges(tournamentId, targets, bracketSize, k)|
                     ==> lo <= SemifinalEdges(tournamentId, targets, bracketSize, k)[j].matchId <= hi
  {
    if k > 0 {
      SemifinalEdgesTargets(tournamentId, targets, bracketSize, k - 1, lo, hi);
      var prev := SemifinalEdges(tournamentId, targets, bracketSize, k - 1);
      var es := SemifinalEdges(tournamentId, targets, bracketSize, k);
      var final := Entry(targets, bracketSize / 4);
      if Truthy(Entry(targets, k - 1)) && Truthy(final) {
        assert lo <= final.value <= hi;
        assert es == prev + [es[|prev|]] && es[|prev|].matchId == final.value;
        forall j | 0 <= j < |es| ensures lo <= es[j].matchId <= hi {
          if j < |prev| {
            assert es[j] == prev[j];
          }
        }
      } else {
        assert es == prev;
      }
    }
  }
}
