/**
 * The tournament lifecycle: registering teams, starting a tournament by
 * generating its schedule for the configured format, and crowning a champion.
 */
module Tournaments {
  import opened Domain
  import opened Store
  import opened BracketMath
  import Elimination
  import RoundRobin
  import Formats
  import GroupPhase

  // ---------------------------------------------------------------------
  // Registration
  // ---------------------------------------------------------------------

  /**
   * `validateTeamCanRegistrate` on a snapshot of the store: the tournament
   * must exist, have room, and not list the team yet.
   */
  function RegistrationCheck(tournaments: map<int, Tournament>, regs: seq<Registration>, tournamentId: int, teamId: int): (c: Check)
    ensures c == Pass <==>
      tournamentId in tournaments && |TeamsOf(regs, tournamentId)| < tournaments[tournamentId].maxTeams
      && Registration(tournamentId, teamId) !in regs
    ensures tournamentId !in tournaments ==> c == Fail(TournamentNotFound)
    ensures tournamentId in tournaments && |TeamsOf(regs, tournamentId)| >= tournaments[tournamentId].maxTeams ==>
      c == Fail(TournamentFull)
    ensures tournamentId in tournaments && |TeamsOf(regs, tournamentId)| < tournaments[tournamentId].maxTeams
            && Registration(tournamentId, teamId) in regs ==>
      c == Fail(TeamAlreadyRegistered)
  {
    if tournamentId !in tournaments then Fail(TournamentNotFound)
    else if |TeamsOf(regs, tournamentId)| >= tournaments[tournamentId].maxTeams then Fail(TournamentFull)
    else if teamId in TeamsOf(regs, tournamentId) then Fail(TeamAlreadyRegistered)
    else Pass
  }

  /**
   * `registerTeam` as written: the validator is started but not awaited, so
   * its verdict never stops the insert; only the association's foreign key
   * and its unique key can.
   */
  method RegisterTeam(db: Database, tournamentId: int, teamId: int) returns (r: Result<Registration>)
    requires db.Valid() && teamId > 0
    modifies db
    ensures db.Valid()
    ensures db.matches == old(db.matches) && db.edges == old(db.edges) && db.tournaments == old(db.tournaments)
    ensures tournamentId !in old(db.tournaments) ==> r == Err(TournamentNotFound) && db.registrations == old(db.registrations)
    ensures tournamentId in old(db.tournaments) && Registration(tournamentId, teamId) in old(db.registrations) ==>
      r == Err(TeamAlreadyRegistered) && db.registrations == old(db.registrations)
    ensures tournamentId in old(db.tournaments) && Registration(tournamentId, teamId) !in old(db.registrations) ==>
      r == Ok(Registration(tournamentId, teamId)) && db.registrations == old(db.registrations) + [Registration(tournamentId, teamId)]
  {
    if tournamentId !in db.tournaments {
      return Err(TournamentNotFound);
    }
    var inserted := db.InsertRegistration(Registration(tournamentId, teamId));
    if !inserted {
      return Err(TeamAlreadyRegistered);
    }
    return Ok(Registration(tournamentId, teamId));
  }

  /** No tournament lists more teams than it allows. */
  ghost predicate WithinCapacity(tournaments: map<int, Tournament>, regs: seq<Registration>)
  {
    forall id :: id in tournaments ==> |TeamsOf(regs, id)| <= tournaments[id].maxTeams
  }

  lemma {:induction false} TeamsOfAppend(regs: seq<Registration>, r: Registration, id: int)
    ensures TeamsOf(regs + [r], id) == TeamsOf(regs, id) + (if r.tournamentId == id then [r.teamId] else [])
  {
    assert (regs + [r])[..|regs + [r]| - 1] == regs;
  }

  /**
   * A full tournament still takes a registration: with two teams listed and
   * room for two, the validator fails but the third team is inserted.
   */
  lemma RegisterTeamOverfills()
    ensures var tournaments := map[1 := Tournament(SingleElimination, Pending, 2, None)];
      var regs := [Registration(1, 1), Registration(1, 2)];
      && RegistrationCheck(tournaments, regs, 1, 3) == Fail(TournamentFull)
      && Registration(1, 3) !in regs
      && |TeamsOf(regs + [Registration(1, 3)], 1)| > tournaments[1].maxTeams
  {
    var regs := [Registration(1, 1), Registration(1, 2)];
    assert regs[..1] == [Registration(1, 1)];
    assert TeamsOf(regs, 1) == [1, 2];
    TeamsOfAppend(regs, Registration(1, 3), 1);
  }

  /**
   * `registerTeam` with the validator awaited: a failed check stops the
   * insert, so no tournament ever lists more teams than it allows.
   */
  method RegisterTeamChecked(db: Database, tournamentId: int, teamId: int) returns (r: Result<Registration>)
    requires db.Valid() && teamId > 0
    requires WithinCapacity(db.tournaments, db.registrations)
    modifies db
    ensures db.Valid() && WithinCapacity(db.tournaments, db.registrations)
    ensures db.matches == old(db.matches) && db.edges == old(db.edges) && db.tournaments == old(db.tournaments)
    ensures var c := RegistrationCheck(old(db.tournaments), old(db.registrations), tournamentId, teamId);
      && (c.Fail? ==> r == Err(c.error) && db.registrations == old(db.registrations))
      && (c == Pass ==> r == Ok(Registration(tournamentId, teamId))
                        && db.registrations == old(db.registrations) + [Registration(tournamentId, teamId)])
  {
    var check := RegistrationCheck(db.tournaments, db.registrations, tournamentId, teamId);
    if check.Fail? {
      return Err(check.error);
    }
    var regs := db.registrations;
    var inserted := db.InsertRegistration(Registration(tournamentId, teamId));
    forall id | id in db.tournaments ensures |TeamsOf(db.registrations, id)| <= db.tournaments[id].maxTeams {
      TeamsOfAppend(regs, Registration(tournamentId, teamId), id);
    }
    return Ok(Registration(tournamentId, teamId));
  }

  // ---------------------------------------------------------------------
  // Starting a tournament
  // ---------------------------------------------------------------------

  /** The formats `generateMatches` has a generator for; Swiss falls to the `default` branch. */
  predicate Dispatched(format: Format)
  {
    format != Swiss
  }

  /**
   * The effect of the format's generator on the store, for roster `teams`
   * and the shuffled roster `shuffled`: the result and the match and edge
   * tables it leaves.
   */
  ghost predicate Generated(format: Format, before: seq<Match>, beforeEdges: seq<BracketPosition>,
                            matches: seq<Match>, edges: seq<BracketPosition>,
                            tournamentId: int, teams: seq<int>, shuffled: seq<int>, r: Result<int>)
  {
    match format
    case SingleElimination =>
      if |teams| < 2 then r == Err(InvalidConfiguration) && matches == before && edges == beforeEdges
      else r.Ok? && Elimination.EliminationBuilt(before, beforeEdges, matches, edges, tournamentId, teams,
                                                 BracketSize(|teams|, 2), 0, SingleEliminationStage, Main, r.value)
    case RoundRobin =>
      edges == beforeEdges &&
      if |teams| < 2 then r == Err(InvalidConfiguration) && matches == before
      else matches == before + RoundRobin.Schedule(tournamentId, teams) && r == Ok(|RoundRobin.Schedule(tournamentId, teams)|)
    case DoubleElimination =>
      edges == beforeEdges &&
      if |teams| < 4 then r == Err(InvalidConfiguration) && matches == before
      else matches == before + Formats.DoubleEliminationRows(tournamentId, shuffled)
           && r == Ok(|Formats.DoubleEliminationRows(tournamentId, shuffled)|)
    case GroupStageElimination =>
      edges == beforeEdges &&
      if |teams| < 8 || |teams| % 4 != 0 then r == Err(InvalidConfiguration) && matches == before
      else matches == before + GroupPhase.GroupStageRows(tournamentId, shuffled, 4)
           && r == Ok(|GroupPhase.GroupStageRows(tournamentId, shuffled, 4)|)
    case Swiss => false
  }

  /** The switch of `generateMatches`: runs the generator of a dispatched format. */
  method RunGenerator(db: Database, tournamentId: int, format: Format, teamIds: seq<int>, shuffled: seq<int>)
    returns (r: Result<int>)
    requires db.Valid() && tournamentId in db.tournaments && Dispatched(format)
    requires multiset(shuffled) == multiset(teamIds)
    modifies db
    ensures db.Valid() && db.tournaments == old(db.tournaments) && db.registrations == old(db.registrations)
    ensures Generated(format, old(db.matches), old(db.edges), db.matches, db.edges, tournamentId, teamIds, shuffled, r)
  {
    match format
    case SingleElimination =>
      r := Elimination.GenerateSingleElimination(db, tournamentId, teamIds);
    case RoundRobin =>
      r := RoundRobin.GenerateRoundRobin(db, tournamentId, teamIds);
    case DoubleElimination =>
      r := Formats.GenerateDoubleElimination(db, tournamentId, teamIds, shuffled);
    case GroupStageElimination =>
      r := GroupPhase.GenerateGroupStage(db, tournamentId, teamIds, shuffled, 4);
  }

  /**
   * `generateMatches` as written. The generator's promise is not awaited, so
   * the status moves to IN_PROGRESS even when the generator rejects; the
   * rejection is still what the call returns.
   */
  method GenerateMatches(db: Database, tournamentId: int, shuffled: seq<int>) returns (r: Result<int>)
    requires db.Valid() && multiset(shuffled) == multiset(TeamsOf(db.registrations, tournamentId))
    modifies db
    ensures db.Valid() && db.registrations == old(db.registrations)
    ensures tournamentId !in old(db.tournaments) ==>
      r == Err(TournamentNotFound) && db.tournaments == old(db.tournaments)
      && db.matches == old(db.matches) && db.edges == old(db.edges)
    ensures tournamentId in old(db.tournaments) && old(db.tournaments)[tournamentId].status != Pending ==>
      r == Err(TournamentAlreadyStarted) && db.tournaments == old(db.tournaments)
      && db.matches == old(db.matches) && db.edges == old(db.edges)
    ensures tournamentId in old(db.tournaments) && old(db.tournaments)[tournamentId].status == Pending
            && !Dispatched(old(db.tournaments)[tournamentId].format) ==>
      r == Err(UnsupportedFormat) && db.tournaments == old(db.tournaments)
      && db.matches == old(db.matches) && db.edges == old(db.edges)
    ensures tournamentId in old(db.tournaments) && old(db.tournaments)[tournamentId].status == Pending
            && Dispatched(old(db.tournaments)[tournamentId].format) ==>
      && db.tournaments == old(db.tournaments)[tournamentId := old(db.tournaments)[tournamentId].(status := InProgress)]
      && Generated(old(db.tournaments)[tournamentId].format, old(db.matches), old(db.edges), db.matches, db.edges,
                   tournamentId, TeamsOf(old(db.registrations), tournamentId), shuffled, r)
  {
    if tournamentId !in db.tournaments {
      return Err(TournamentNotFound);
    }
    var tournament := db.tournaments[tournamentId];
    if tournament.status != Pending {
      return Err(TournamentAlreadyStarted);
    }
    if !Dispatched(tournament.format) {
      return Err(UnsupportedFormat);
    }
    var teamIds := TeamsOf(db.registrations, tournamentId);
    r := RunGenerator(db, tournamentId, tournament.format, teamIds, shuffled);
    db.UpdateTournament(tournamentId, tournament.(status := InProgress));
  }

  /**
   * A round-robin tournament with a single team: the generator rejects, yet
   * the tournament is left IN_PROGRESS without a match, and it can no longer
   * be started.
   */
  method GenerateMatchesStrands() returns (r: Result<int>, status: Status, matchCount: int, retry: Result<int>)
    ensures r == Err(InvalidConfiguration) && status == InProgress && matchCount == 0
    ensures retry == Err(TournamentAlreadyStarted)
  {
    var db := new Database(map[1 := Tournament(RoundRobin, Pending, 8, None)]);
    var inserted := db.InsertRegistration(Registration(1, 7));
    assert db.registrations == [Registration(1, 7)];
    assert TeamsOf(db.registrations, 1) == [7];
    r := GenerateMatches(db, 1, [7]);
    status := db.tournaments[1].status;
    matchCount := |db.matches|;
    retry := GenerateMatches(db, 1, [7]);
  }

  /**
   * `generateMatches` with the generator awaited: the status moves to
   * IN_PROGRESS only once the schedule is written, so a rejected start leaves
   * the tournament PENDING and can be retried.
   */
  method GenerateMatchesChecked(db: Database, tournamentId: int, shuffled: seq<int>) returns (r: Result<int>)
    requires db.Valid() && multiset(shuffled) == multiset(TeamsOf(db.registrations, tournamentId))
    modifies db
    ensures db.Valid() && db.registrations == old(db.registrations)
    ensures r.Err? ==> db.tournaments == old(db.tournaments)
    ensures r.Ok? ==>
      && tournamentId in old(db.tournaments) && old(db.tournaments)[tournamentId].status == Pending
      && db.tournaments == old(db.tournaments)[tournamentId := old(db.tournaments)[tournamentId].(status := InProgress)]
      && Generated(old(db.tournaments)[tournamentId].format, old(db.matches), old(db.edges), db.matches, db.edges,
                   tournamentId, TeamsOf(old(db.registrations), tournamentId), shuffled, r)
    ensures tournamentId !in old(db.tournaments) ==> r == Err(TournamentNotFound)
    ensures tournamentId in old(db.tournaments) && old(db.tournaments)[tournamentId].status != Pending ==>
      r == Err(TournamentAlreadyStarted)
  {
    if tournamentId !in db.tournaments {
      return Err(TournamentNotFound);
    }
    var tournament := db.tournaments[tournamentId];
    if tournament.status != Pending {
      return Err(TournamentAlreadyStarted);
    }
    if !Dispatched(tournament.format) {
      return Err(UnsupportedFormat);
    }
    var teamIds := TeamsOf(db.registrations, tournamentId);
    r := RunGenerator(db, tournamentId, tournament.format, teamIds, shuffled);
    if r.Ok? {
      db.UpdateTournament(tournamentId, tournament.(status := InProgress));
    }
  }

  // ---------------------------------------------------------------------
  // The champion
  // ---------------------------------------------------------------------

  /** `setChampion`: records the champion and ends the tournament, touching nothing else. */
  method SetChampion(db: Database, tournamentId: int, championId: int) returns (r: Result<Tournament>)
    requires db.Valid()
    modifies db
    ensures db.Valid()
    ensures db.matches == old(db.matches) && db.edges == old(db.edges) && db.registrations == old(db.registrations)
    ensures tournamentId !in old(db.tournaments) ==> r == Err(TournamentNotFound) && db.tournaments == old(db.tournaments)
    ensures tournamentId in old(db.tournaments) ==>
      var t := old(db.tournaments)[tournamentId].(champion := Some(championId), status := Ended);
      r == Ok(t) && db.tournaments == old(db.tournaments)[tournamentId := t]
  {
    if tournamentId !in db.tournaments {
      return Err(TournamentNotFound);
    }
    var t := db.tournaments[tournamentId].(champion := Some(championId), status := Ended);
    db.UpdateTournament(tournamentId, t);
    return Ok(t);
  }
}
