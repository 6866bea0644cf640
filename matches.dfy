/**
 * Result submission and bracket progression: recording a result, pushing the
 * winner and the loser along the match's outgoing edges, and the checks that
 * crown a champion or start the playoffs.
 */
module Matches {
  import opened Domain
  import opened Store
  import opened BracketMath
  import Elimination
  import EliminationProps
  import Ranking
  import Tournaments

  /**
   * The winner string of a result: `'A'`, `'B'`, or any other string, which
   * the request body validation lets through because it only checks that
   * the value is a string.
   */
  datatype Side = SideA | SideB | Unnamed

  // ---------------------------------------------------------------------
  // The recorded result
  // ---------------------------------------------------------------------

  /** The seat the named side occupies, possibly empty; no seat for any other string. */
  function WinnerOf(m: Match, side: Side): Option<int>
  {
    match side
    case SideA => m.teamA
    case SideB => m.teamB
    case Unnamed => None
  }

  /** `match.teamAId! + match.teamBId! - winnerId`, an absent seat counting as 0. */
  function LoserOf(m: Match, winnerId: int): int
  {
    OrZero(m.teamA) + OrZero(m.teamB) - winnerId
  }

  /** The row after `prisma.match.update`: scores, winner and the played flag. */
  function Recorded(m: Match, scoreA: int, scoreB: int, winnerId: int): (r: Match)
    ensures r.teamA == m.teamA && r.teamB == m.teamB && r.round == m.round && r.stage == m.stage
    ensures r.groupName == m.groupName && r.bracket == m.bracket && r.tournamentId == m.tournamentId
    ensures r.scoreA == Some(scoreA) && r.scoreB == Some(scoreB) && r.winner == Some(winnerId) && r.played
  {
    m.(scoreA := Some(scoreA), scoreB := Some(scoreB), winner := Some(winnerId), played := true)
  }

  /**
   * The winner is the named side's team, and with both seats taken the
   * computed loser is the other team; with the other seat empty it is 0,
   * which no edge will carry forward.
   */
  lemma LoserIsOther(m: Match, side: Side)
    requires Truthy(WinnerOf(m, side))
    ensures var w := WinnerOf(m, side).value;
      && side != Unnamed
      && (side == SideA ==> m.teamA == Some(w))
      && (side == SideB ==> m.teamB == Some(w))
      && (m.teamA.Some? && m.teamB.Some? ==> LoserOf(m, w) == if side == SideA then m.teamB.value else m.teamA.value)
      && (side == SideA && m.teamB.None? ==> LoserOf(m, w) == 0)
      && (side == SideB && m.teamA.None? ==> LoserOf(m, w) == 0)
  {}

  // ---------------------------------------------------------------------
  // Filling the next matches
  // ---------------------------------------------------------------------

  /** `slotsToFill`: the edges whose source is match `id`, in the order they were stored. */
  function OutgoingEdges(edges: seq<BracketPosition>, id: int): (slots: seq<BracketPosition>)
    ensures |slots| <= |edges|
    ensures forall j :: 0 <= j < |slots| ==> slots[j].sourceMatchId == id && slots[j] in edges
  {
    if edges == [] then []
    else
      var e := edges[|edges| - 1];
      var init := OutgoingEdges(edges[..|edges| - 1], id);
      assert forall j :: 0 <= j < |init| ==> init[j] in edges;
      init + (if e.sourceMatchId == id then [e] else [])
  }

  function Seat(m: Match, slot: SlotType): Option<int>
  {
    if slot == TeamASlot then m.teamA else m.teamB
  }

  /** `fillBracketSlot`'s update: the team goes into the named seat. */
  function FillSlot(m: Match, slot: SlotType, teamId: int): Match
  {
    if slot == TeamASlot then m.(teamA := Some(teamId)) else m.(teamB := Some(teamId))
  }

  /** The team an edge carries: the winner along a WINNER edge, the loser along a LOSER edge. */
  function Carried(e: BracketPosition, winnerId: int, loserId: int): int
  {
    if e.sourceOutcome == WinnerOutcome then winnerId else loserId
  }

  predicate TargetsIn(slots: seq<BracketPosition>, n: int)
  {
    forall j :: 0 <= j < |slots| ==> 1 <= slots[j].matchId <= n
  }

  /** The match rows after the loop over `slots`; a carried id of 0 is skipped. */
  function Advanced(ms: seq<Match>, slots: seq<BracketPosition>, winnerId: int, loserId: int): (r: seq<Match>)
    requires TargetsIn(slots, |ms|)
    ensures |r| == |ms|
  {
    if slots == [] then ms
    else
      var prev := Advanced(ms, slots[..|slots| - 1], winnerId, loserId);
      var e := slots[|slots| - 1];
      var team := Carried(e, winnerId, loserId);
      if team != 0 then prev[e.matchId - 1 := FillSlot(prev[e.matchId - 1], e.slotType, team)] else prev
  }

  /** Two rows that differ at most in their seats. */
  predicate SameButSeats(x: Match, y: Match)
  {
    && x.tournamentId == y.tournamentId && x.scoreA == y.scoreA && x.scoreB == y.scoreB
    && x.round == y.round && x.stage == y.stage && x.groupName == y.groupName
    && x.bracket == y.bracket && x.winner == y.winner && x.played == y.played
  }

  /** Does some edge of `slots` put a team into seat `slot` of match `t`? */
  predicate Fills(slots: seq<BracketPosition>, winnerId: int, loserId: int, t: int, slot: SlotType)
  {
    exists j :: 0 <= j < |slots| && slots[j].matchId == t && slots[j].slotType == slot && Carried(slots[j], winnerId, loserId) != 0
  }

  /** Advancing only ever changes seats, and only those an edge fills. */
  lemma {:induction false} AdvancedFrame(ms: seq<Match>, slots: seq<BracketPosition>, winnerId: int, loserId: int, k: int)
    requires TargetsIn(slots, |ms|) && 0 <= k < |ms|
    ensures SameButSeats(Advanced(ms, slots, winnerId, loserId)[k], ms[k])
    ensures !Fills(slots, winnerId, loserId, k + 1, TeamASlot) ==> Advanced(ms, slots, winnerId, loserId)[k].teamA == ms[k].teamA
    ensures !Fills(slots, winnerId, loserId, k + 1, TeamBSlot) ==> Advanced(ms, slots, winnerId, loserId)[k].teamB == ms[k].teamB
  {
    if slots != [] {
      var init := slots[..|slots| - 1];
      AdvancedFrame(ms, init, winnerId, loserId, k);
      var e := slots[|slots| - 1];
      if !Fills(slots, winnerId, loserId, k + 1, TeamASlot) {
        assert !Fills(init, winnerId, loserId, k + 1, TeamASlot) by {
          forall j | 0 <= j < |init| ensures !(init[j].matchId == k + 1 && init[j].slotType == TeamASlot && Carried(init[j], winnerId, loserId) != 0) {
            assert init[j] == slots[j];
          }
        }
        assert !(e.matchId == k + 1 && e.slotType == TeamASlot && Carried(e, winnerId, loserId) != 0) by {
          assert slots[|slots| - 1] == e;
        }
      }
      if !Fills(slots, winnerId, loserId, k + 1, TeamBSlot) {
        assert !Fills(init, winnerId, loserId, k + 1, TeamBSlot) by {
          forall j | 0 <= j < |init| ensures !(init[j].matchId == k + 1 && init[j].slotType == TeamBSlot && Carried(init[j], winnerId, loserId) != 0) {
            assert init[j] == slots[j];
          }
        }
        assert !(e.matchId == k + 1 && e.slotType == TeamBSlot && Carried(e, winnerId, loserId) != 0) by {
          assert slots[|slots| - 1] == e;
        }
      }
    }
  }

  /**
   * An edge that alone targets its seat leaves the team it carries there
   * (when it carries one).
   */
  lemma {:induction false} AdvancedSeat(ms: seq<Match>, slots: seq<BracketPosition>, winnerId: int, loserId: int, j: int)
    requires TargetsIn(slots, |ms|) && 0 <= j < |slots|
    requires Carried(slots[j], winnerId, loserId) != 0
    requires forall i :: 0 <= i < |slots| && i != j ==> slots[i].matchId != slots[j].matchId || slots[i].slotType != slots[j].slotType
    ensures 1 <= slots[j].matchId <= |ms|
    ensures Seat(Advanced(ms, slots, winnerId, loserId)[slots[j].matchId - 1], slots[j].slotType) == Some(Carried(slots[j], winnerId, loserId))
  {
    var init := slots[..|slots| - 1];
    var e := slots[j];
    if j < |slots| - 1 {
      forall i | 0 <= i < |init| && i != j ensures init[i].matchId != init[j].matchId || init[i].slotType != init[j].slotType {
        assert init[i] == slots[i];
      }
      AdvancedSeat(ms, init, winnerId, loserId, j);
      assert init[j] == e;
      var last := slots[|slots| - 1];
      assert last.matchId != e.matchId || last.slotType != e.slotType;
    }
  }

  /** `fillBracketSlot`: one seat of one stored match. */
  method FillBracketSlot(db: Database, targetMatchId: int, slotType: SlotType, teamId: int)
    requires db.Valid() && 1 <= targetMatchId <= |db.matches|
    modifies db
    ensures db.Valid()
    ensures db.matches == old(db.matches)[targetMatchId - 1 := FillSlot(old(db.matches)[targetMatchId - 1], slotType, teamId)]
    ensures db.edges == old(db.edges) && db.tournaments == old(db.tournaments) && db.registrations == old(db.registrations)
  {
    db.UpdateMatch(targetMatchId, FillSlot(db.matches[targetMatchId - 1], slotType, teamId));
  }

  /** The loop of `advanceBracket` over `slotsToFill`. */
  method FillSlots(db: Database, slotsToFill: seq<BracketPosition>, winnerId: int, loserId: int)
    requires db.Valid() && TargetsIn(slotsToFill, |db.matches|)
    modifies db
    ensures db.Valid()
    ensures db.matches == Advanced(old(db.matches), slotsToFill, winnerId, loserId)
    ensures db.edges == old(db.edges) && db.tournaments == old(db.tournaments) && db.registrations == old(db.registrations)
  {
    var i := 0;
    while i < |slotsToFill|
      invariant 0 <= i <= |slotsToFill| && db.Valid()
      invariant db.matches == Advanced(old(db.matches), slotsToFill[..i], winnerId, loserId)
      invariant db.edges == old(db.edges) && db.tournaments == old(db.tournaments) && db.registrations == old(db.registrations)
    {
      assert slotsToFill[..i + 1][..i] == slotsToFill[..i];
      var slotToFill := slotsToFill[i];
      var advancingTeamId := Carried(slotToFill, winnerId, loserId);
      if advancingTeamId != 0 {
        FillBracketSlot(db, slotToFill.matchId, slotToFill.slotType, advancingTeamId);
      }
      i := i + 1;
    }
    assert slotsToFill[..i] == slotsToFill;
  }

  // ---------------------------------------------------------------------
  // The completion checks
  // ---------------------------------------------------------------------

  /** `prisma.match.count` of the tournament's unplayed matches, of every stage or only of the group stage. */
  function Pending(ms: seq<Match>, tournamentId: int, groupStageOnly: bool): nat
  {
    if ms == [] then 0
    else
      var m := ms[|ms| - 1];
      Pending(ms[..|ms| - 1], tournamentId, groupStageOnly)
      + (if m.tournamentId == tournamentId && !m.played && (groupStageOnly ==> m.stage == GroupStage) then 1 else 0)
  }

  /** No count is zero while a counted match is unplayed. */
  lemma {:induction false} PendingZero(ms: seq<Match>, tournamentId: int, groupStageOnly: bool)
    ensures Pending(ms, tournamentId, groupStageOnly) == 0 <==>
      forall k :: 0 <= k < |ms| && ms[k].tournamentId == tournamentId && (groupStageOnly ==> ms[k].stage == GroupStage) ==> ms[k].played
  {
    if ms != [] {
      var init := ms[..|ms| - 1];
      PendingZero(init, tournamentId, groupStageOnly);
      assert forall k :: 0 <= k < |init| ==> init[k] == ms[k];
    }
  }

  /** The tournament map with `winnerId` crowned, as `setChampion` writes it. */
  function Crowned(tournaments: map<int, Tournament>, tournamentId: int, winnerId: int): map<int, Tournament>
    requires tournamentId in tournaments
  {
    tournaments[tournamentId := tournaments[tournamentId].(champion := Some(winnerId), status := Ended)]
  }

  /** A match that ends its tournament: no outgoing edge, in a stage that crowns a champion. */
  predicate Terminal(slots: seq<BracketPosition>, stage: Stage)
  {
    |slots| == 0 && (stage == SingleEliminationStage || stage == DoubleEliminationStage || stage == Playoffs)
  }

  /** `checkIfTournamentEnded`. */
  method CheckIfTournamentEnded(db: Database, tournamentId: int, stage: Stage, slotsToFill: seq<BracketPosition>, winnerId: int)
    requires db.Valid() && tournamentId in db.tournaments
    modifies db
    ensures db.Valid()
    ensures db.matches == old(db.matches) && db.edges == old(db.edges) && db.registrations == old(db.registrations)
    ensures db.tournaments == if Terminal(slotsToFill, stage) then Crowned(old(db.tournaments), tournamentId, winnerId) else old(db.tournaments)
  {
    if |slotsToFill| == 0 {
      if stage == SingleEliminationStage || stage == DoubleEliminationStage || stage == Playoffs {
        var _ := Tournaments.SetChampion(db, tournamentId, winnerId);
      }
    }
  }

  /** What the round-robin completion check leaves in the tournament map. */
  function RoundRobinOutcome(tournaments: map<int, Tournament>, regs: seq<Registration>, ms: seq<Match>, tournamentId: int)
    : map<int, Tournament>
    requires tournamentId in tournaments
  {
    var ranking := Ranking.RankingOf(TeamsOf(regs, tournamentId), Ranking.RankedMatches(ms, tournamentId, None));
    if Pending(ms, tournamentId, false) == 0 && |ranking| > 0 then Crowned(tournaments, tournamentId, ranking[0].teamId)
    else tournaments
  }

  /** `checkRoundRobinCompletion`: once nothing is unplayed, the leader of the ranking is crowned. */
  method CheckRoundRobinCompletion(db: Database, tournamentId: int)
    requires db.Valid() && tournamentId in db.tournaments
    modifies db
    ensures db.Valid()
    ensures db.matches == old(db.matches) && db.edges == old(db.edges) && db.registrations == old(db.registrations)
    ensures db.tournaments == RoundRobinOutcome(old(db.tournaments), old(db.registrations), old(db.matches), tournamentId)
  {
    var pendingMatches := Pending(db.matches, tournamentId, false);
    if pendingMatches == 0 {
      var ranking := Ranking.CalculateTournamentRanking(db, tournamentId, None);
      if |ranking.value| > 0 {
        var championId := ranking.value[0].teamId;
        var _ := Tournaments.SetChampion(db, tournamentId, championId);
      }
    }
  }

  /** The teams `checkGroupStageCompletion` sends to the playoffs: the top two of every group. */
  function PlayoffTeams(regs: seq<Registration>, ms: seq<Match>, tournamentId: int): seq<int>
  {
    Ranking.QualifiedFrom(regs, ms, tournamentId, Ranking.GroupNames(ms, tournamentId), 2)
  }

  /** What the group-stage completion check leaves in the match and edge tables. */
  ghost predicate GroupStageChecked(regs: seq<Registration>, before: seq<Match>, beforeEdges: seq<BracketPosition>,
                                    matches: seq<Match>, edges: seq<BracketPosition>, tournamentId: int)
  {
    var qualified := PlayoffTeams(regs, before, tournamentId);
    if Pending(before, tournamentId, true) != 0 || |qualified| < 2 then matches == before && edges == beforeEdges
    else exists count :: Elimination.EliminationBuilt(before, beforeEdges, matches, edges, tournamentId, qualified,
                                                      BracketSize(|qualified|, 2), 1, Playoffs, Main, count)
  }

  /**
   * `checkGroupStageCompletion`: when no group-stage match is unplayed, the
   * top two of every group go into a playoff bracket, provided there are at
   * least two of them. Nothing records that the playoffs exist already.
   */
  method CheckGroupStageCompletion(db: Database, tournamentId: int)
    requires db.Valid() && tournamentId in db.tournaments
    modifies db
    ensures db.Valid() && db.tournaments == old(db.tournaments) && db.registrations == old(db.registrations)
    ensures GroupStageChecked(old(db.registrations), old(db.matches), old(db.edges), db.matches, db.edges, tournamentId)
  {
    var pendingGroupMatches := Pending(db.matches, tournamentId, true);
    if pendingGroupMatches == 0 {
      var qualifiedTeams := Ranking.GetQualifiedTeamsFromGroups(db, tournamentId, 2);
      if |qualifiedTeams| >= 2 {
        var r := Elimination.GenerateEliminationPhase(db, tournamentId, qualifiedTeams, qualifiedTeams, 1, Playoffs, Main);
      }
    }
  }

  /**
   * Once no group-stage match is pending and two teams qualify, the check
   * appends a whole playoff bracket, `|qualified| - 1` matches. Nothing in the
   * premises mentions playoffs generated before: every later result of the
   * tournament appends another bracket.
   */
  lemma PlayoffsRegenerated(regs: seq<Registration>, before: seq<Match>, beforeEdges: seq<BracketPosition>,
                            matches: seq<Match>, edges: seq<BracketPosition>, tournamentId: int)
    requires PositiveTeams(regs)
    requires Pending(before, tournamentId, true) == 0 && |PlayoffTeams(regs, before, tournamentId)| >= 2
    requires GroupStageChecked(regs, before, beforeEdges, matches, edges, tournamentId)
    ensures |matches| == |before| + |PlayoffTeams(regs, before, tournamentId)| - 1
    ensures matches[..|before|] == before
  {
    var qualified := PlayoffTeams(regs, before, tournamentId);
    Ranking.QualifiedShape(regs, before, tournamentId, Ranking.GroupNames(before, tournamentId), 2);
    forall i | 0 <= i < |qualified| ensures qualified[i] > 0 {
      assert qualified[i] in qualified;
      var j :| 0 <= j < |regs| && regs[j] == Registration(tournamentId, qualified[i]);
    }
    var count :| Elimination.EliminationBuilt(before, beforeEdges, matches, edges, tournamentId, qualified,
                                              BracketSize(|qualified|, 2), 1, Playoffs, Main, count);
    assert Elimination.TeamsForPairing(qualified, qualified, 1, Playoffs) == qualified;
    EliminationProps.BuiltCount(before, beforeEdges, matches, edges, tournamentId, qualified, qualified, 1, Playoffs, Main, count);
  }

  /** `advanceBracket`: fill the next matches, then run the group-stage check in a group-stage tournament. */
  method AdvanceBracket(db: Database, tournamentId: int, format: Format, slotsToFill: seq<BracketPosition>,
                        winnerId: int, loserId: int)
    requires db.Valid() && tournamentId in db.tournaments && TargetsIn(slotsToFill, |db.matches|)
    modifies db
    ensures db.Valid() && db.tournaments == old(db.tournaments) && db.registrations == old(db.registrations)
    ensures format != GroupStageElimination ==>
      db.matches == Advanced(old(db.matches), slotsToFill, winnerId, loserId) && db.edges == old(db.edges)
    ensures format == GroupStageElimination ==>
      GroupStageChecked(old(db.registrations), Advanced(old(db.matches), slotsToFill, winnerId, loserId), old(db.edges),
                        db.matches, db.edges, tournamentId)
  {
    FillSlots(db, slotsToFill, winnerId, loserId);
    if format == GroupStageElimination {
      CheckGroupStageCompletion(db, tournamentId);
    }
  }

  // ---------------------------------------------------------------------
  // Submitting a result
  // ---------------------------------------------------------------------

  lemma OutgoingInRange(db: Database, id: int)
    requires db.Valid()
    ensures TargetsIn(OutgoingEdges(db.edges, id), |db.matches|)
  {
    var slots := OutgoingEdges(db.edges, id);
    forall j | 0 <= j < |slots| ensures 1 <= slots[j].matchId <= |db.matches| {
      var e := slots[j];
      assert e in db.edges;
      var i :| 0 <= i < |db.edges| && db.edges[i] == e;
    }
  }

  /** What follows the write of the result, by the tournament's format. */
  ghost predicate Progressed(tournaments: map<int, Tournament>, regs: seq<Registration>, recorded: seq<Match>,
                             edges: seq<BracketPosition>, m: Match, matchId: int, winnerId: int,
                             tournaments': map<int, Tournament>, matches': seq<Match>, edges': seq<BracketPosition>)
    requires m.tournamentId in tournaments
    requires TargetsIn(OutgoingEdges(edges, matchId), |recorded|)
  {
    var tid := m.tournamentId;
    var format := tournaments[tid].format;
    var slots := OutgoingEdges(edges, matchId);
    var advanced := Advanced(recorded, slots, winnerId, LoserOf(m, winnerId));
    if format == RoundRobin then
      matches' == recorded && edges' == edges && tournaments' == RoundRobinOutcome(tournaments, regs, recorded, tid)
    else
      && tournaments' == (if Terminal(slots, m.stage) then Crowned(tournaments, tid, winnerId) else tournaments)
      && (format != GroupStageElimination ==> matches' == advanced && edges' == edges)
      && (format == GroupStageElimination ==>
            GroupStageChecked(regs, advanced, edges, matches', edges', tid))
  }

  /** The format-dependent tail of `updateResult`, after the result is written. */
  method AfterResult(db: Database, m: Match, matchId: int, winnerId: int)
    requires db.Valid() && m.tournamentId in db.tournaments
    modifies db
    ensures db.Valid() && db.registrations == old(db.registrations)
    ensures TargetsIn(OutgoingEdges(old(db.edges), matchId), |old(db.matches)|)
    ensures Progressed(old(db.tournaments), old(db.registrations), old(db.matches), old(db.edges), m, matchId, winnerId,
                       db.tournaments, db.matches, db.edges)
  {
    var tid := m.tournamentId;
    var format := db.tournaments[tid].format;
    var slotsToFill := OutgoingEdges(db.edges, matchId);
    OutgoingInRange(db, matchId);
    if format != RoundRobin {
      CheckIfTournamentEnded(db, tid, m.stage, slotsToFill, winnerId);
      AdvanceBracket(db, tid, format, slotsToFill, winnerId, LoserOf(m, winnerId));
    }
    if format == RoundRobin {
      CheckRoundRobinCompletion(db, tid);
    }
  }

  /**
   * `updateResult`: a missing match, an already-played match and an empty
   * winning seat are refused before anything is written; otherwise the
   * result is recorded and the format's progression runs.
   */
  method UpdateResult(db: Database, matchId: int, scoreA: int, scoreB: int, winner: Side) returns (r: Result<Match>)
    requires db.Valid() && scoreA >= 0 && scoreB >= 0
    modifies db
    ensures db.Valid() && db.registrations == old(db.registrations)
    ensures !(1 <= matchId <= |old(db.matches)|) ==> r == Err(MatchNotFound) && unchanged(db)
    ensures 1 <= matchId <= |old(db.matches)| && old(db.matches)[matchId - 1].played ==>
      r == Err(MatchAlreadyPlayed) && unchanged(db)
    ensures 1 <= matchId <= |old(db.matches)| && !old(db.matches)[matchId - 1].played
            && !Truthy(WinnerOf(old(db.matches)[matchId - 1], winner)) ==>
      r == Err(NoWinner) && unchanged(db)
    ensures 1 <= matchId <= |old(db.matches)| && !old(db.matches)[matchId - 1].played
            && Truthy(WinnerOf(old(db.matches)[matchId - 1], winner)) ==>
      var m := old(db.matches)[matchId - 1];
      var winnerId := WinnerOf(m, winner).value;
      var recorded := old(db.matches)[matchId - 1 := Recorded(m, scoreA, scoreB, winnerId)];
      && r == Ok(Recorded(m, scoreA, scoreB, winnerId))
      && m.tournamentId in old(db.tournaments)
      && TargetsIn(OutgoingEdges(old(db.edges), matchId), |recorded|)
      && Progressed(old(db.tournaments), old(db.registrations), recorded, old(db.edges), m, matchId, winnerId,
                    db.tournaments, db.matches, db.edges)
  {
    if !(1 <= matchId <= |db.matches|) {
      return Err(MatchNotFound);
    }
    var m := db.matches[matchId - 1];
    if m.played {
      return Err(MatchAlreadyPlayed);
    }
    var winnerSeat := WinnerOf(m, winner);
    if !Truthy(winnerSeat) {
      return Err(NoWinner);
    }
    var winnerId := winnerSeat.value;
    var updatedMatch := Recorded(m, scoreA, scoreB, winnerId);
    db.UpdateMatch(matchId, updatedMatch);
    AfterResult(db, m, matchId, winnerId);
    return Ok(updatedMatch);
  }

  /**
   * The round-robin champion ranks at least as high as every team of the
   * tournament's ranking.
   */
  lemma RoundRobinChampionLeads(tournaments: map<int, Tournament>, regs: seq<Registration>, ms: seq<Match>,
                                tournamentId: int, j: int)
    requires tournamentId in tournaments
    requires Pending(ms, tournamentId, false) == 0
    requires 0 <= j < |Ranking.RankingOf(TeamsOf(regs, tournamentId), Ranking.RankedMatches(ms, tournamentId, None))|
    ensures var ranking := Ranking.RankingOf(TeamsOf(regs, tournamentId), Ranking.RankedMatches(ms, tournamentId, None));
      && RoundRobinOutcome(tournaments, regs, ms, tournamentId)[tournamentId].champion == Some(ranking[0].teamId)
      && RoundRobinOutcome(tournaments, regs, ms, tournamentId)[tournamentId].status == Ended
      && Ranking.Compare(ranking[0], ranking[j]) <= 0
  {
    Ranking.RankingLeader(TeamsOf(regs, tournamentId), Ranking.RankedMatches(ms, tournamentId, None), j);
  }
}
