/**
 * Entities of the tournament engine (tournaments, matches, bracket positions,
 * registrations) and the small wrappers every other module shares.
 */
module Domain {

  datatype Option<T> = None | Some(value: T)

  /** The exceptions the services throw, one constructor per distinct cause. */
  datatype Error =
    | TournamentNotFound
    | MatchNotFound
    | MatchAlreadyPlayed
    | NoWinner                 // the chosen side has no team seated
    | InvalidConfiguration     // the entrant count does not fit the format
    | TournamentAlreadyStarted
    | UnsupportedFormat
    | TournamentFull
    | TeamAlreadyRegistered

  datatype Result<T> = Ok(value: T) | Err(error: Error)

  /** The verdict of a validation that produces no value. */
  datatype Check = Pass | Fail(error: Error)

  datatype Format = SingleElimination | DoubleElimination | RoundRobin | Swiss | GroupStageElimination

  datatype Status = Pending | InProgress | Ended

  /** The stage tags the generators write into `Match.stage`. */
  datatype Stage =
    | SingleEliminationStage
    | DoubleEliminationStage
    | RoundRobinStage
    | SwissStage
    | GroupStage
    | Playoffs

  datatype BracketTag = Winners | Losers | Main

  datatype SlotType = TeamASlot | TeamBSlot

  datatype SourceOutcome = WinnerOutcome | LoserOutcome

  /**
   * A match row. A missing team, score or winner is `None` (a database null);
   * the match's id is its position in the store, see `Store.Database`.
   */
  datatype Match = Match(
    tournamentId: int,
    teamA: Option<int>,
    teamB: Option<int>,
    scoreA: Option<int>,
    scoreB: Option<int>,
    round: int,
    stage: Stage,
    groupName: Option<string>,
    bracket: Option<BracketTag>,
    winner: Option<int>,
    played: bool)

  /** A directed bracket edge: the outcome of `sourceMatchId` fills `slotType` of `matchId`. */
  datatype BracketPosition = BracketPosition(
    tournamentId: int,
    matchId: int,
    slotType: SlotType,
    sourceMatchId: int,
    sourceOutcome: SourceOutcome)

  datatype Tournament = Tournament(format: Format, status: Status, maxTeams: int, champion: Option<int>)

  /** One row of the tournament/team association. */
  datatype Registration = Registration(tournamentId: int, teamId: int)

  /** A playable match as the batch generators write it: both teams seated, scores at zero. */
  function Scheduled(tournamentId: int, a: int, b: int, round: int, stage: Stage,
                     groupName: Option<string>, bracket: Option<BracketTag>): Match
  {
    Match(tournamentId, Some(a), Some(b), Some(0), Some(0), round, stage, groupName, bracket, None, false)
  }

  /** JavaScript truthiness of an optional numeric id: present and not 0. */
  predicate Truthy(o: Option<int>)
  {
    o.Some? && o.value != 0
  }

  /** `xs[i]` in JavaScript, which is `undefined` outside the array. */
  function Entry(xs: seq<int>, i: int): (r: Option<int>)
    ensures r.Some? <==> 0 <= i < |xs|
    ensures r.Some? ==> r.value == xs[i]
  {
    if 0 <= i < |xs| then Some(xs[i]) else None
  }

  /** `x!` of a nullable number used in arithmetic: JavaScript turns `null` into 0. */
  function OrZero(o: Option<int>): int
  {
    if o.Some? then o.value else 0
  }

  predicate AllPositive(xs: seq<int>)
  {
    forall i :: 0 <= i < |xs| ==> xs[i] > 0
  }

  predicate Distinct(xs: seq<int>)
  {
    forall i, j :: 0 <= i < j < |xs| ==> xs[i] != xs[j]
  }

  /** A reordering of positive ids keeps them positive. */
  lemma PermutationKeepsPositive(xs: seq<int>, ys: seq<int>)
    requires AllPositive(xs) && multiset(xs) == multiset(ys)
    ensures AllPositive(ys)
  {
    forall i | 0 <= i < |ys| ensures ys[i] > 0 {
      assert ys[i] in multiset(ys);
      assert ys[i] in xs;
    }
  }

  /** Distinct ids occur at most once each. */
  lemma {:induction false} DistinctOnce(xs: seq<int>, x: int)
    requires Distinct(xs)
    ensures multiset(xs)[x] <= 1
  {
    if xs != [] {
      var init := xs[..|xs| - 1];
      assert xs == init + [xs[|xs| - 1]];
      assert Distinct(init);
      DistinctOnce(init, x);
      if x == xs[|xs| - 1] {
        assert x !in init by {
          forall i | 0 <= i < |init| ensures init[i] != x {
            assert init[i] == xs[i];
          }
        }
      }
    }
  }

  /** A reordering of distinct ids keeps them distinct. */
  lemma PermutationKeepsDistinct(xs: seq<int>, ys: seq<int>)
    requires Distinct(xs) && multiset(xs) == multiset(ys)
    ensures Distinct(ys)
  {
    forall i, j | 0 <= i < j < |ys| ensures ys[i] != ys[j] {
      if ys[i] == ys[j] {
        assert ys == ys[..j] + ys[j..];
        assert ys[i] in ys[..j] && ys[j] in ys[j..];
        assert multiset(ys)[ys[i]] == multiset(ys[..j])[ys[i]] + multiset(ys[j..])[ys[i]];
        DistinctOnce(xs, ys[i]);
      }
    }
  }
}
