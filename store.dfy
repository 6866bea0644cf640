/**
 * The persistence layer the services talk to, as an in-memory store. Match
 * ids are handed out in creation order starting at 1, so the match with id k
 * is `matches[k - 1]`.
 */
module Store {
  import opened Domain

  /** The ids of the teams registered for `tournamentId`, in registration order. */
  function TeamsOf(regs: seq<Registration>, tournamentId: int): (teams: seq<int>)
    ensures |teams| <= |regs|
    ensures forall t :: t in teams <==> Registration(tournamentId, t) in regs
  {
    if regs == [] then []
    else
      var last := regs[|regs| - 1];
      TeamsOf(regs[..|regs| - 1], tournamentId) + (if last.tournamentId == tournamentId then [last.teamId] else [])
  }

  ghost predicate UniqueRegistrations(regs: seq<Registration>)
  {
    forall i, j :: 0 <= i < j < |regs| ==> regs[i] != regs[j]
  }

  ghost predicate PositiveTeams(regs: seq<Registration>)
  {
    forall i :: 0 <= i < |regs| ==> regs[i].teamId > 0
  }

  /** With unique, positive registrations every tournament's roster is a list of distinct positive ids. */
  lemma {:induction false} TeamsOfWellFormed(regs: seq<Registration>, tournamentId: int)
    requires UniqueRegistrations(regs) && PositiveTeams(regs)
    ensures Distinct(TeamsOf(regs, tournamentId)) && AllPositive(TeamsOf(regs, tournamentId))
  {
    if regs != [] {
      var init := regs[..|regs| - 1];
      assert UniqueRegistrations(init) && PositiveTeams(init);
      TeamsOfWellFormed(init, tournamentId);
    }
  }

  class Database {
    var matches: seq<Match>
    var edges: seq<BracketPosition>
    var tournaments: map<int, Tournament>
    var registrations: seq<Registration>

    /**
     * The referential integrity the database schema guarantees and the
     * services rely on: every match belongs to an existing tournament, every
     * edge points at an existing match, and registrations are unique pairs of
     * a tournament and a positive team id.
     */
    ghost predicate Valid()
      reads this
    {
      && (forall i :: 0 <= i < |matches| ==> matches[i].tournamentId in tournaments)
      && (forall i :: 0 <= i < |edges| ==> 1 <= edges[i].matchId <= |matches|)
      && UniqueRegistrations(registrations)
      && PositiveTeams(registrations)
    }

    constructor (initialTournaments: map<int, Tournament>)
      ensures Valid()
      ensures matches == [] && edges == [] && registrations == []
      ensures tournaments == initialTournaments
    {
      matches, edges, registrations := [], [], [];
      tournaments := initialTournaments;
    }

    /** `prisma.match.create`: stores `m` under the next id. */
    method CreateMatch(m: Match) returns (id: int)
      requires Valid() && m.tournamentId in tournaments
      modifies this
      ensures Valid()
      ensures matches == old(matches) + [m] && id == |matches|
      ensures edges == old(edges) && tournaments == old(tournaments) && registrations == old(registrations)
    {
      matches := matches + [m];
      id := |matches|;
    }

    /** `prisma.match.createMany`: stores `ms` in order and returns how many rows were written. */
    method CreateMatches(ms: seq<Match>) returns (count: int)
      requires Valid()
      requires forall i :: 0 <= i < |ms| ==> ms[i].tournamentId in tournaments
      modifies this
      ensures Valid()
      ensures matches == old(matches) + ms && count == |ms|
      ensures edges == old(edges) && tournaments == old(tournaments) && registrations == old(registrations)
    {
      matches := matches + ms;
      count := |ms|;
    }

    /** `prisma.match.update`: replaces the row with id `id`. */
    method UpdateMatch(id: int, m: Match)
      requires Valid() && 1 <= id <= |matches| && m.tournamentId in tournaments
      modifies this
      ensures Valid()
      ensures matches == old(matches)[id - 1 := m]
      ensures edges == old(edges) && tournaments == old(tournaments) && registrations == old(registrations)
    {
      matches := matches[id - 1 := m];
    }

    /** `prisma.bracketPosition.createMany`. */
    method CreateEdges(es: seq<BracketPosition>)
      requires Valid()
      requires forall i :: 0 <= i < |es| ==> 1 <= es[i].matchId <= |matches|
      modifies this
      ensures Valid()
      ensures edges == old(edges) + es
      ensures matches == old(matches) && tournaments == old(tournaments) && registrations == old(registrations)
    {
      edges := edges + es;
    }

    /** `prisma.tournament.update`. */
    method UpdateTournament(id: int, t: Tournament)
      requires Valid() && id in tournaments
      modifies this
      ensures Valid()
      ensures tournaments == old(tournaments)[id := t]
      ensures matches == old(matches) && edges == old(edges) && registrations == old(registrations)
    {
      tournaments := tournaments[id := t];
    }

    /** `prisma.tournamentOnTeams.create`, subject to the pair's unique key. */
    method InsertRegistration(r: Registration) returns (inserted: bool)
      requires Valid() && r.teamId > 0
      modifies this
      ensures Valid()
      ensures inserted == (r !in old(registrations))
      ensures registrations == if inserted then old(registrations) + [r] else old(registrations)
      ensures matches == old(matches) && edges == old(edges) && tournaments == old(tournaments)
    {
      inserted := r !in registrations;
      if inserted {
        registrations := registrations + [r];
      }
    }
  }
}
