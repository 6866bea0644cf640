# Tournament engine of esports-tournament-hub, in Dafny

This project models the bracket engine of the esports-tournament-hub backend and proves properties of the model. The engine has four parts:

- the schedule generators for each tournament format;
- result submission and bracket progression;
- the tournament lifecycle;
- the standings calculation that the completion checks rely on.

The database is an in-memory store, the class `Store.Database`, with four tables:

- `matches`: a sequence where match id `k` is at index `k - 1` and ids are handed out in order;
- `edges`: the bracket positions;
- `tournaments`: a map from id to record;
- `registrations`: the tournament/team associations.

`Store.Database.Valid` is the referential integrity the schema enforces:

- every match belongs to an existing tournament;
- every edge points at a stored match;
- registrations are unique, with positive team ids.

Every service is a module whose methods take the store and state the whole new state.

Modules in file order:

| file | module | models |
|---|---|---|
| domain.dfy | `Domain` | matches, edges, tournaments, registrations; JavaScript truthiness and `null` arithmetic |
| store.dfy | `Store` | the store and the Prisma operations the services use |
| bracket_math.dfy | `BracketMath` | bracket size by doubling, and `Math.log2` on powers of two |
| elimination.dfy | `Elimination` | `generateEliminationPhase`, `generateSingleElimination`, `createNextBracketMatch` |
| elimination_props.dfy | `EliminationProps` | what a built bracket contains: count, byes, seats, edges, rounds |
| round_robin.dfy, round_robin_counts.dfy | `RoundRobin`, `RoundRobinCounts` | `generateRoundRobin` (circle method) and its counting properties |
| formats.dfy | `Formats` | `generateDoubleElimination`, `generateSwissFirstRound` |
| group_stage.dfy | `GroupPhase` | `generateGroupStageAndElimination` |
| ranking.dfy | `Ranking` | `calculateTournamentRanking`, `getQualifiedTeamsFromGroups` |
| tournaments.dfy | `Tournaments` | `validateTeamCanRegistrate`, `registerTeam`, `generateMatches`, `setChampion` |
| matches.dfy | `Matches` | `updateResult`, `advanceBracket`, `fillBracketSlot` and the three completion checks |

Modelling choices:

- **Shuffles.** Every `sort(() => 0.5 - Math.random())` is an explicit `shuffled` parameter. The caller must pass a permutation: `multiset(shuffled) == multiset(teamIds)`.
- **Absent values.** A database `null` is `None`.
- **`x!` in arithmetic.** `match.teamAId! + match.teamBId!` counts an absent seat as 0 (`Domain.OrZero`).
- **Truthiness.** A test such as `if (teamAId && teamBId)` holds only for ids that are present and not 0 (`Domain.Truthy`).
- **The bye sentinel.** Team ids are positive, so 0 can serve as the round-robin bye.
- **Order of effects.** The source runs its steps through promises. The model runs them in that order, one after another.

## Model

| member | source | states |
|---|---|---|
| BracketMath.ComputeBracketSize | src/matches/matches-generator.service.ts:158-159 | the doubling loop stops at the smallest power of two that is at least the entrant count and at least the starting size |
| BracketMath.BracketSizeFromIsSmallest | src/matches/matches-generator.service.ts:158-159 | doubling from a power of two reaches a power of two covering `n`, and no smaller power of two covers `n` |
| BracketMath.BracketSizeBounds | src/matches/matches-generator.service.ts:158-159 | with at least `minimum` entrants the bracket is below twice the entrant count |
| BracketMath.Log2 | src/matches/matches-generator.service.ts:181 | `Math.log2` of a power of two is the exact integer `k` with `2^k` equal to it |
| Store.TeamsOf | src/tournaments/tournaments.service.ts:133-140 | a team is on a tournament's roster exactly when the association row exists |
| Store.TeamsOfWellFormed | src/tournaments/tournaments.service.ts:53-58 | with unique (tournament, team) rows of positive teams, every roster is a list of distinct positive ids |
| Store.Database.CreateMatches | src/matches/matches-generator.service.ts:114 | `createMany` appends the rows in order and reports how many it wrote; nothing else changes |
| Store.Database.UpdateMatch | src/matches/matches.service.ts:78-92 | `update` replaces one stored row; nothing else changes |
| Store.Database.InsertRegistration | src/tournaments/tournaments.service.ts:53-58 | the association is stored only when the pair is new (the unique key) |
| Elimination.CreatePlaceholders | src/matches/matches-generator.service.ts:171-196 | the first loop stores `bracketSize/2 - 1` empty placeholders, each in the round the source's formula gives, with consecutive ids |
| Elimination.ReverseIdRange | src/matches/matches-generator.service.ts:198 | `futureMatchIds.reverse()` turns the creation order into the descending id range |
| Elimination.PairFirstRound | src/matches/matches-generator.service.ts:203-253 | the second loop pairs entry `i` with entry `bracketSize-1-i`. A full pair gets a match and one WINNER edge into slot A (even `i`) or B (odd `i`) of reversed placeholder `i/2`; a lone team is written straight into that slot |
| Elimination.LinkSemifinals | src/matches/matches-generator.service.ts:255-271 | the third loop builds the WINNER edges from the first `bracketSize/4` reversed placeholders into entry `bracketSize/4`, skipping missing ids |
| Elimination.BuildBracket | src/matches/matches-generator.service.ts:171-277 | the three loops and the edge batch leave exactly the bracket `EliminationBuilt` describes |
| Elimination.GenerateEliminationPhase | src/matches/matches-generator.service.ts:145-280 | fewer than 2 teams are rejected with nothing written; otherwise the bracket is built from the pairing order (shuffled only for a round-1 single elimination) and its match count is returned |
| Elimination.GenerateSingleElimination | src/matches/matches-generator.service.ts:282-293 | delegates with initial round 0, so the entrants keep the order given |
| Elimination.CreateNextBracketMatch | src/matches/matches-generator.service.ts:20-42 | appends one playable match of the two teams in round `round + 1` and returns its id |
| EliminationProps.PairShape | src/matches/matches-generator.service.ts:203-240 | with `n` positive entrants, pair `i` is full exactly when `i >= bracketSize - n`; below that, entrant `i` has the bye |
| EliminationProps.EntrantPlaced | src/matches/matches-generator.service.ts:203-251 | every entrant either has a bye or sits in a full pair |
| EliminationProps.FullPairsCount | src/matches/matches-generator.service.ts:212 | the number of playable first-round matches is `n - bracketSize/2` |
| EliminationProps.MatchCount | src/matches/matches-generator.service.ts:279 | placeholders plus playable first-round matches make `n - 1` |
| EliminationProps.BuiltCount | src/matches/matches-generator.service.ts:173-279 | a built bracket returns `n - 1` and appends `n - 1` matches |
| EliminationProps.FirstRoundOnce | src/matches/matches-generator.service.ts:203-239 | an entrant with a bye plays no first-round match; every other entrant plays exactly one |
| EliminationProps.PlaceholderSeats | src/matches/matches-generator.service.ts:240-251 | each placeholder ends with exactly the bye teams of its two child pairs in slots A and B, no scores, no winner, unplayed |
| EliminationProps.PlaceholderRoundsTwoLevels | src/matches/matches-generator.service.ts:180-188 | the round formula yields only two values: `initialRound + log2 - 1` for the first `bracketSize/4` placeholders and one less for the rest (an 8-slot bracket gets 3, 3, 2) |
| EliminationProps.FirstRoundEdgesShape | src/matches/matches-generator.service.ts:228-238 | one edge per playable first-round match, in creation order, each from that match into the slot of its parent pair |
| EliminationProps.FirstRoundSlotsDistinct | src/matches/matches-generator.service.ts:228-238 | no placeholder slot is fed by two first-round edges |
| EliminationProps.SemifinalShape | src/matches/matches-generator.service.ts:258-274 | brackets of 2 or 4 get no semifinal edges; larger ones get `bracketSize/4` WINNER edges into reversed placeholder `bracketSize/4`, alternating slots A and B |
| RoundRobin.PadRoster | src/matches/matches-generator.service.ts:58-63 | an odd roster gets the sentinel 0 appended |
| RoundRobin.PlanRound | src/matches/matches-generator.service.ts:75-105 | one pass of the round loop appends the fixed pairing and the mirror pairings of the round, skipping any with the sentinel |
| RoundRobin.RotateRight | src/matches/matches-generator.service.ts:108-110 | `unshift(pop())` moves the last rotating entry to the front |
| RoundRobin.PlayRound | src/matches/matches-generator.service.ts:73-111 | after pass `k`, the matches are the first `k + 1` rounds and the rotation is the `(k + 1)`-th |
| RoundRobin.PlanCircle | src/matches/matches-generator.service.ts:73-111 | the round loop produces `padded - 1` rounds, round `s + 1` being the pairing after `s` rotations |
| RoundRobin.PlanRoundRobin | src/matches/matches-generator.service.ts:49-111 | fewer than 2 teams are rejected; otherwise the result is the circle schedule |
| RoundRobin.GenerateRoundRobin | src/matches/matches-generator.service.ts:49-114 | on rejection nothing is written; otherwise the schedule is appended and its length returned |
| RoundRobin.ScheduleMeetsEveryPairOnce | src/matches/matches-generator.service.ts:68-111 | with distinct positive ids, every two teams of the roster meet exactly once |
| RoundRobin.ScheduleWellFormed | src/matches/matches-generator.service.ts:68-111 | every match is between two different real roster teams (never the sentinel), is unplayed with zero scores, and has a round in `1 .. padded - 1` |
| RoundRobin.ScheduleBelongsTo | src/matches/matches-generator.service.ts:79-98 | every row carries the tournament's id |
| RoundRobinCounts.ScheduleSize | src/matches/matches-generator.service.ts:68-111 | the schedule of `n` teams has `n(n-1)/2` matches |
| RoundRobinCounts.ScheduleRoundSize | src/matches/matches-generator.service.ts:73-105 | every round has `n/2` matches, rounded down |
| RoundRobinCounts.ScheduleOncePerRound | src/matches/matches-generator.service.ts:73-105 | no team plays twice in one round |
| Formats.DoubleEliminationSize | src/matches/matches-generator.service.ts:310-313 | the double-elimination bracket is a power of two, at least 4 and at least `n` |
| Formats.PlanDoubleElimination | src/matches/matches-generator.service.ts:300-335 | fewer than 4 teams are rejected; otherwise the round-1 WINNERS matches of the full pairs of the shuffled order |
| Formats.GenerateDoubleElimination | src/matches/matches-generator.service.ts:300-337 | the planned rows are appended and counted; no placeholders and no edges are written |
| Formats.DoubleEliminationShape | src/matches/matches-generator.service.ts:318-335 | `n - bracketSize/2` matches; entrants `t < bracketSize - n` of the shuffled order play none (their bye is dropped), the others exactly one |
| Formats.FirstRoundRowsTagged | src/matches/matches-generator.service.ts:323-333 | every row is an unplayed round-1 match of the tournament, stage and bracket |
| Formats.PlanSwissFirstRound | src/matches/matches-generator.service.ts:340-367 | fewer than 4 teams or an odd count are rejected; otherwise consecutive shuffled entries are paired |
| Formats.GenerateSwissFirstRound | src/matches/matches-generator.service.ts:340-369 | the `n/2` pairings are appended and counted |
| Formats.SwissRowsTagged | src/matches/matches-generator.service.ts:357-366 | every Swiss row is an unplayed round-1 SWISS_STAGE match of the tournament |
| Formats.SwissOnce | src/matches/matches-generator.service.ts:356-367 | with distinct entrants, each plays exactly one first-round match and no one else plays |
| GroupPhase.Groups | src/matches/matches-generator.service.ts:390-394 | there are `numGroups` groups, group `k` holding the entries at indices congruent to `k` |
| GroupPhase.DealIntoGroups | src/matches/matches-generator.service.ts:390-394 | the `forEach` pushes entry `index` into group `index % numGroups` |
| GroupPhase.GroupMembers | src/matches/matches-generator.service.ts:387-394 | with `n` divisible by `g`, group `k` has `n/g` members, its `m`-th being entry `m*g + k` |
| GroupPhase.GroupNameSpelled | src/matches/matches-generator.service.ts:400 | the first 26 groups are named "Grupo A" to "Grupo Z", all different |
| GroupPhase.PairGroup | src/matches/matches-generator.service.ts:402-417 | the nested loops append member `i` against each member `j > i`, in order |
| GroupPhase.GroupRowsCount | src/matches/matches-generator.service.ts:402-417 | a group of `s` teams plays `s(s-1)/2` matches |
| GroupPhase.PairPlayed | src/matches/matches-generator.service.ts:402-417 | every pair `a < b` of a group gets its match |
| GroupPhase.GroupRowsSound | src/matches/matches-generator.service.ts:402-417 | every match of a group is between members `a < b` of that group |
| GroupPhase.StageRowsTagged | src/matches/matches-generator.service.ts:404-415 | every row is an unplayed round-1 GROUP_STAGE match of the tournament, named after one of the groups |
| GroupPhase.PlanGroupStage | src/matches/matches-generator.service.ts:377-418 | fewer than `2g` teams, or a count not divisible by `g`, are rejected; otherwise the pairs of every group, group by group |
| GroupPhase.GenerateGroupStage | src/matches/matches-generator.service.ts:372-420 | on rejection nothing is written; otherwise the rows are appended and counted |
| GroupPhase.GroupStageShape | src/matches/matches-generator.service.ts:387-418 | the stage has `g * (s(s-1)/2)` matches with `s = n/g`, and includes the match of entries `a*g + k` and `b*g + k` in group `k` |
| Ranking.Initial | src/ranking/ranking.service.ts:37-51 | every registered team, and no other, starts at zero |
| Ranking.InitialScores | src/ranking/ranking.service.ts:37-51 | the `forEach` builds that initial map |
| Ranking.TallyMatch | src/ranking/ranking.service.ts:54-73 | one match changes no key of the score map |
| Ranking.RecordResult | src/ranking/ranking.service.ts:55-72 | one pass of the match loop is the tally of that match |
| Ranking.TallyResults | src/ranking/ranking.service.ts:54-73 | the match loop is the tally of the matches in order |
| Ranking.TallyAt | src/ranking/ranking.service.ts:54-73 | a team's victories, defeats and score difference are the sums over the counted matches: a victory when it is the winner, a defeat when its opponent is, ±(scoreA − scoreB) by side |
| Ranking.TallyOrderIndependent | src/ranking/ranking.service.ts:54-73 | the tallies do not depend on the order of the matches |
| Ranking.RankingOrderIndependent | src/ranking/ranking.service.ts:54-83 | nor does the ranking |
| Ranking.TallyConserves | src/ranking/ranking.service.ts:62-72 | the tally leaves the total score difference and victories minus defeats unchanged |
| Ranking.RankingBalanced | src/ranking/ranking.service.ts:62-72 | in the ranking the score differences add up to 0, and victories to defeats |
| Ranking.CompareTotal | src/ranking/ranking.service.ts:76-83 | the comparator is antisymmetric |
| Ranking.CompareTransitive | src/ranking/ranking.service.ts:76-83 | the comparator is transitive |
| Ranking.InsertSorted | src/ranking/ranking.service.ts:76-83 | inserting into a sorted list keeps it sorted |
| Ranking.SortScoresCorrect | src/ranking/ranking.service.ts:76-83 | the sort orders by points, then score difference, then victories, all descending, and is a permutation |
| Ranking.SortIds | src/ranking/ranking.service.ts:76-83 | sorting keeps the multiset of team ids |
| Ranking.SortSum | src/ranking/ranking.service.ts:76-83 | sorting keeps every column sum |
| Ranking.StandingsAt | src/ranking/ranking.service.ts:76 | `Array.from(scores.values())` lists the teams in roster order: the line of roster entry `i` is at index `i` |
| Ranking.RankTeams | src/ranking/ranking.service.ts:37-83 | the initialisation, the match loop and the sort compute the ranking |
| Ranking.RankingShape | src/ranking/ranking.service.ts:37-83 | the ranking is sorted, has one entry per registered team, and its ids are the roster |
| Ranking.RankingEntries | src/ranking/ranking.service.ts:40-72 | each entry is a registered team, with its match sums, `points == 3 * victories` and no draws |
| Ranking.RankingLeader | src/ranking/ranking.service.ts:76-83 | the first entry ranks at least as high as every other |
| Ranking.RankedMatchesSelect | src/ranking/ranking.service.ts:23-28 | a match counts exactly when it is the tournament's, played, and (when a non-empty group name is given) in that group |
| Ranking.CalculateTournamentRanking | src/ranking/ranking.service.ts:15-84 | a NotFound error for a missing tournament; otherwise the ranking of its roster over the selected matches |
| Ranking.GroupNamesExact | src/ranking/ranking.service.ts:96-100 | the distinct, in-order set of group names of the tournament's GROUP_STAGE matches |
| Ranking.SliceEnd | src/ranking/ranking.service.ts:109 | the end index `slice(0, n)` uses, negative `n` counting from the end |
| Ranking.QualifyGroup | src/ranking/ranking.service.ts:105-110 | one pass of the group loop: nothing for a null name, else the top ids of that group's ranking |
| Ranking.GetQualifiedTeamsFromGroups | src/ranking/ranking.service.ts:92-114 | the group loop concatenates each named group's top teams, group by group |
| Ranking.QualifiedShape | src/ranking/ranking.service.ts:92-114 | with `teamsPerGroup >= 0`, at most groups × `teamsPerGroup` ids, each a registered team |
| Tournaments.RegistrationCheck | src/tournaments/tournaments.service.ts:128-150 | rejects a missing tournament, then a full one (`teams.length >= maxTeams`), then a team already on the roster, each with its own verdict; passes exactly when none applies |
| Tournaments.RegisterTeam | src/tournaments/tournaments.service.ts:51-59 | the association is inserted without waiting for the check; only the foreign key and the unique key can refuse it |
| Tournaments.TeamsOfAppend | src/tournaments/tournaments.service.ts:53-58 | a new association extends exactly its own tournament's roster |
| Tournaments.RegisterTeamOverfills | src/tournaments/tournaments.service.ts:51-59 | a full tournament (2 of 2) still takes a third team |
| Tournaments.RegisterTeamChecked | src/tournaments/tournaments.service.ts:128-150 | registration that obeys the check keeps every roster within `maxTeams` |
| Tournaments.RunGenerator | src/tournaments/tournaments.service.ts:89-116 | each supported format runs its own generator, the group stage with 4 groups |
| Tournaments.GenerateMatches | src/tournaments/tournaments.service.ts:71-124 | errors for a missing tournament, a non-PENDING status and an unsupported format (SWISS) leave everything unchanged; otherwise the generator runs and the status becomes IN_PROGRESS whatever the generator returned |
| Tournaments.GenerateMatchesStrands | src/tournaments/tournaments.service.ts:89-123 | a one-team round robin fails, writes no match, and is left IN_PROGRESS, so a retry is refused as started |
| Tournaments.GenerateMatchesChecked | src/tournaments/tournaments.service.ts:71-124 | with the status set only after a successful generator, a failure leaves the tournaments unchanged |
| Tournaments.SetChampion | src/tournaments/tournaments.service.ts:161-180 | NotFound for a missing tournament; otherwise only the champion and the ENDED status change |
| Matches.Recorded | src/matches/matches.service.ts:78-92 | the result write sets scores, winner and `played` and keeps every other field |
| Matches.LoserIsOther | src/matches/matches.service.ts:65-76 | a present winner comes only from `'A'` or `'B'` and is that side's team; with both seats taken the computed loser is the other team; with the other seat empty it is 0 |
| Matches.OutgoingEdges | src/matches/matches.service.ts:51-53 | `slotsToFill` holds only stored edges whose source is this match |
| Matches.FillBracketSlot | src/matches/matches.service.ts:129-151 | a team goes into the target's A or B seat, and only that row changes |
| Matches.FillSlots | src/matches/matches.service.ts:112-123 | the loop over `slotsToFill` computes `Advanced`: each edge carries the winner (WINNER) or loser (LOSER) into its slot, skipping a carried 0 |
| Matches.AdvancedFrame | src/matches/matches.service.ts:112-151 | advancing never changes anything but seats, and leaves untouched every seat no edge fills with a team |
| Matches.AdvancedSeat | src/matches/matches.service.ts:112-151 | an edge that alone targets its seat leaves the team it carries there |
| Matches.PendingZero | src/matches/matches.service.ts:154-156 | the unplayed count is zero exactly when every counted match is played |
| Matches.CheckIfTournamentEnded | src/matches/matches.service.ts:176-195 | a match with no outgoing edge in stage SINGLE_ELIMINATION, DOUBLE_ELIMINATION or PLAYOFFS crowns its winner and ends the tournament; otherwise nothing changes |
| Matches.CheckRoundRobinCompletion | src/matches/matches.service.ts:197-215 | once no match of the tournament is unplayed and the ranking is non-empty, the first-ranked team is crowned; edges and matches never change |
| Matches.CheckGroupStageCompletion | src/matches/matches.service.ts:153-174 | once no GROUP_STAGE match is unplayed, the top 2 of every group qualify, and if at least 2 do, an elimination phase (round 1, PLAYOFFS, MAIN) is built from them |
| Matches.PlayoffsRegenerated | src/matches/matches.service.ts:124-126 | every such check appends a new bracket of one match fewer than there are qualified teams, even when the playoffs already exist |
| Matches.AdvanceBracket | src/matches/matches.service.ts:106-127 | fills the slots, then runs the group-stage check in a GROUP_STAGE_ELIMINATION tournament only |
| Matches.AfterResult | src/matches/matches.service.ts:94-101 | round robin: only the completion check, edges untouched; other formats: the champion check, then advancing |
| Matches.UpdateResult | src/matches/matches.service.ts:46-104 | a missing match, a played match, and a winner that is an empty seat or neither `'A'` nor `'B'` are refused with nothing written; otherwise the result is recorded and the format's progression follows |
| Matches.RoundRobinChampionLeads | src/matches/matches.service.ts:202-209 | the crowned round-robin champion ranks at least as high as every team |

## Left out

- **I/O and framework.** The Prisma client, transactions, HTTP controllers, guards, logging (`console.log`) and asynchrony are left out. Effects run in program order, and an unhandled rejection of a promise nobody awaits is not modelled.
- **Random shuffles.** Each `Math.random` sort is a permutation parameter; the model proves only that the entrants are preserved.
- **Fields.** `mapId`, team names and tags are not modelled, nor are the `name` and `tag` fields of `TeamScore`.
- **Placeholder scores.** The placeholders the elimination generator creates carry no scores in the model (`None`); their database default is not part of these files.
- **`slotsToFill`.** It is taken as the edges whose source is the match, in storage order. The Prisma schema that declares the relation is not part of this model.
- **Group order.** The order in which `findMany` with `distinct` returns group names is taken as the order of first appearance.
- **Deep brackets.** Brackets of 16 or more are not proved to form a tree. The source links only the first two levels, and the model states exactly those edges.
- **`createMatchAndBracketSlots`.** This private helper of the generator is never called, so it is not modelled.
- **`unregisterTeam`** and the other CRUD operations of the services are not modelled.
- GroupPhase.GroupLetter: `String.fromCharCode` of a lone surrogate is shown as U+FFFD, because a Dafny `char` cannot hold a surrogate. Only group indices of 55231 or more reach it.
- GroupPhase.GenerateGroupStage: requires `numGroups >= 1`. Its only caller passes 4, and the source would divide by zero for 0.
- Ranking.RankTeams: requires a distinct roster, which the (tournament, team) unique key guarantees.
- Ranking.SortScoresCorrect: the insertion sort keeps equal entries in roster order, like `Array.prototype.sort`, which is stable. No separate lemma states the stability.
- Tournaments.RegisterTeam: requires `teamId > 0`, which stands in for the team foreign key. The team table is not modelled. The path parameter is parsed by `ParseIntPipe`, which admits 0 and negative numbers; in the source such an id, like any id of a team that does not exist, fails the insert.
- **Roster order.** The roster query `tournament.teams` has no `orderBy`; the model takes its order as registration order (`Store.TeamsOf`). That order decides the single-elimination seeding, the round-robin schedule and, through the stable sort, who wins ties in a ranking: the round-robin champion and the group qualifiers.

## Findings

| source | as written | input that shows it | evidently intended | confidence | as-written member | corrected member |
|---|---|---|---|---|---|---|
| src/tournaments/tournaments.service.ts:51-59 | `registerTeam` calls `validateTeamCanRegistrate` without `await`, so the insert goes ahead even when the check fails | tournament with `maxTeams` 2, teams 1 and 2 registered, register team 3 | refuse the registration when the check fails, so rosters stay within `maxTeams` | not executed | Tournaments.RegisterTeam, Tournaments.RegisterTeamOverfills | Tournaments.RegisterTeamChecked |
| src/tournaments/tournaments.service.ts:89-123 | the generator's promise is not awaited before the status update, so a rejected generation still leaves the tournament IN_PROGRESS | ROUND_ROBIN tournament with one registered team | set IN_PROGRESS only after a successful generation, so a failed start can be retried | not executed | Tournaments.GenerateMatches, Tournaments.GenerateMatchesStrands | Tournaments.GenerateMatchesChecked |
