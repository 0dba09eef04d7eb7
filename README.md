# leaguepass-ranker: the watchability engine, in Dafny

leaguepass-ranker ranks a day's NBA games by how worth watching they are. This
project models the engine behind that ranking:

- the per-game excitement score, built from the betting spread, the two
  teams' combined winning percentage and the star power of their healthy
  stars;
- how the engine fuses its data sources:
  - the star sheet (star scores and team rosters);
  - the advanced team-statistics table;
  - the betting-odds feed, whose full team names are mapped to abbreviations
    by a fixed table;
  - the injury report, whose messy player texts are matched against the
    tracked stars;
  - the game header, whose status text carries an Eastern tip-off time;
- the offline refresher that builds the cached NBA data:
  - team entries;
  - per-team rosters sorted by fantasy points per game;
  - the list of active players;
  - the timestamp.

Each fetch is a parameter of the model. The model takes the fetched value
(an `Option`, `None` standing for a failed fetch) and proves what the engine
does with it:

- the defaults at every missing input;
- which error paths give empty results;
- which duplicate wins;
- each result's bounds;
- the sortedness, permutation and stability of each roster;
- how failures are isolated between the sections of the cached data.

Modules, one per source file, plus two shared ones:

- `Wrappers`: `Option`.
- `Text`: Python's substring test, ASCII case folding, the whitespace class
  of `str.isspace` and `str.strip()`.
- `Collections`: the generic shapes the sources use:
  - `dict(zip(...))` and assignment in a loop, where the last write wins;
  - "append to a list under a key, creating it first";
  - a total-length measure over such groupings;
  - an elementwise map.
- `Config` (config.py): the team-name table.
- `Odds` (odds.py): the spread adapter.
- `Ranker` (ranker.py): star data, team statistics, star score, excitement
  score, injuries, the tip-off clock and schedule enrichment.
- `UpdateData` (update_data.py): the data refresher.

The score is `max(0, 20 - |spread|) + 30 * winPct + min(40, 1.5 * stars)`.
The model proves that this score lies in [0, 90] when the win percentages
lie in [0, 1] and no star value is negative. Pace is averaged and reported
but does not enter the score.

## Model

| member | source | states |
|---|---|---|
| Text.Strip | update_data.py:88 | the result is a slice of the input which has only whitespace before and after it; it is empty or starts and ends with a non-space character |
| Text.ContainsTransitive | ranker.py:68 | a substring of a substring of a text is a substring of the text |
| Collections.DictOf | ranker.py:27 | a dictionary built from key/value pairs has exactly the pairs' keys and no more entries than pairs |
| Collections.DictOfStep | update_data.py:31-37 | assigning one more pair updates exactly that key to its value |
| Collections.DictOfLastWins | ranker.py:27 | for a key that does not occur again later, the dictionary holds that pair's value |
| Collections.Grouped | ranker.py:28-32 | the keys of a grouping are exactly the keys that occur in the pairs |
| Collections.ValuesOf | update_data.py:62-68 | definition: the values filed under one key, in input order (never more than the pairs); GroupedValues shows that each group is exactly this list |
| Collections.SetDefaultAppend | ranker.py:31-32 | the list under the key gets the value appended, starting from an empty list for a new key; the other keys are unchanged |
| Collections.GroupedStep | update_data.py:62-68 | grouping one more pair appends its value to its key's list |
| Collections.GroupedValues | ranker.py:28-32 | a key's list is exactly its pairs' values in input order, and a key with no pairs has no list |
| Collections.ValuesOfMember | ranker.py:28-32 | every value in a key's list comes from a pair with that key |
| Collections.GroupedTotal | update_data.py:62-68 | the lists of a grouping hold exactly as many values as there were pairs |
| Collections.TotalLengthRemove | update_data.py:62-68 | the total length of a grouping is one key's list length plus the total length of the rest |
| Collections.TotalLengthSameLengths | update_data.py:71-72 | replacing every list by one of the same length keeps the total length |
| Collections.MapSeqSnoc | update_data.py:87-88 | mapping one more element appends its image |
| Config.TeamNameMapFacts | config.py:18-29 | the table `Config.TeamNameMap` has 30 entries, no two names share an abbreviation and every abbreviation is three upper-case letters |
| Config.UnknownIsNoCode | config.py:18-29 | `UNK` is not an abbreviation in the table |
| Config.TeamNameMapLakers | config.py:23 | the Lakers map to `LAL` |
| Config.TeamNameMapWarriors | config.py:22 | the Warriors map to `GSW` |
| Odds.SpreadTable | odds.py:45-53 | the spread dictionary is keyed only by abbreviations of the name table and has at most one entry per outcome |
| Odds.ReadOutcomes | odds.py:34-43 | definition: the outcomes of a game's first bookmaker's first market, none when either list is empty; its properties are in ProcessedOutcomesSnoc, OnlyFirstMarketRead and SkippedGameContributesNothing |
| Odds.Mapped | odds.py:50-52 | definition: an outcome is used when its name maps to a non-empty abbreviation, the `if abbr:` test; MappedIffKnownName reduces it to name membership |
| Odds.PointOf | odds.py:47 | definition: the outcome's point, 0 when it has none; SpreadTableSnoc and SpreadTableLastWins state the spread it gives |
| Odds.ProcessedOutcomesSnoc | odds.py:32-43 | one more game adds exactly the outcomes of its first bookmaker's first market |
| Odds.ProcessedOutcomesAppend | odds.py:32-43 | the outcomes read from two runs of games are the two runs' outcomes concatenated |
| Odds.SpreadTableSnoc | odds.py:45-53 | an outcome whose name is in the table sets that abbreviation's spread to its point, 0 when it has none; any other outcome changes nothing |
| Odds.SpreadTableLastWins | odds.py:50-53 | the last mapped outcome for a team decides its spread |
| Odds.SpreadTableKeys | odds.py:45-53 | an abbreviation has a spread exactly when some outcome's name maps to it |
| Odds.MappedIffKnownName | odds.py:50-52 | an outcome is used exactly when its name is in the table, because every abbreviation is non-empty |
| Odds.SpreadKeysAreCodes | odds.py:50-53 | every spread key is an abbreviation of the table and so a three-letter code |
| Odds.WriteSpreads | odds.py:45-53 | the outcome loop extends the dictionary as if those outcomes followed the ones already read |
| Odds.GetBettingSpreadsWith | odds.py:9-55 | a placeholder key or a non-200 status gives no spreads; otherwise the spreads are the table built from the first market of each game's first bookmaker |
| Odds.OnlyFirstMarketRead | odds.py:34-43 | bookmakers after the first and markets after the first never affect the spreads |
| Odds.ProcessedSameReads | odds.py:34-43 | games whose first bookmaker's first markets agree yield the same outcomes |
| Odds.SkippedGameContributesNothing | odds.py:34-41 | a game with no bookmakers, or whose first bookmaker has no markets, is skipped |
| Odds.GetBettingSpreads | odds.py:4-55 | the adapter with the configured name table: empty on a placeholder key or a failed request, otherwise the spread table |
| Odds.NoSpreadForUnknown | odds.py:50-53 | no spread is ever filed under `UNK` |
| Ranker.LoadStarData | ranker.py:22-35 | a missing or unreadable sheet gives two empty maps; otherwise star power is the player-to-score dictionary and each team lists its players in row order |
| Ranker.TeamStarsInRowOrder | ranker.py:28-32 | a team's star list is exactly the players of its rows in row order, and a team has no list exactly when no row names it |
| Ranker.RosterPlayersAreStars | ranker.py:27-32 | every player on a team list has a star score |
| Ranker.GetTeamStats | ranker.py:111-120 | a failed fetch gives no statistics; otherwise the ids are exactly the table's team ids |
| Ranker.TeamStatsLastRow | ranker.py:117-118 | the last row of a team decides its win percentage and its pace |
| Ranker.StarTotal | ranker.py:124-129 | definition: the sum over a team's listed stars of each star's value, an injured star or one without a value counting 0; GetStarScore and the StarTotal lemmas state its properties |
| Ranker.GetStarScore | ranker.py:122-129 | the star score sums the star values of the team's listed stars that are not injured, 0 for a star without a value; an unlisted team scores 0 |
| Ranker.StarTotalNonNegative | ranker.py:126-128 | with non-negative star values the star score is not negative |
| Ranker.StarTotalAntitone | ranker.py:127 | more injuries never raise a star score |
| Ranker.StarTotalUnknownStar | ranker.py:128 | marking a player without a star value as injured does not change a star score |
| Ranker.StarTotalIgnoresOthers | ranker.py:126-127 | marking a player the team does not list as injured does not change its star score |
| Ranker.Abs | ranker.py:132 | the absolute value is not negative and is the input or its negation |
| Ranker.SpreadScore | ranker.py:132 | the spread part lies in [0, 20], is 20 minus the absolute spread when that is under 20, is 0 exactly when the spread is 20 points or more either way, and is at least 20 minus the absolute spread |
| Ranker.QualityScore | ranker.py:133 | for a win percentage in [0, 1] the quality part lies in [0, 30] |
| Ranker.StarFactor | ranker.py:134 | the star part is 40 or 1.5 times the star score, and at most both |
| Ranker.ExcitementScore | ranker.py:131-136 | the score is at most 60 plus 30 times the win percentage, and lies in [0, 90] for a win percentage in [0, 1] and a non-negative star score |
| Ranker.SpreadScoreSymmetric | ranker.py:132 | a spread and its negation score alike |
| Ranker.ExcitementMonotone | ranker.py:131-135 | a closer spread, a better combined record and more star power never lower the score |
| Ranker.IsBadStatus | ranker.py:67-68 | definition: a status qualifies when it is present and contains one of the four phrases, ignoring case; BadStatusIsOutOrDoubtful reduces it to "out" or "doubtful" |
| Ranker.FlaggedPlayers | ranker.py:64-71 | definition: the player texts of the qualifying rows, in row order; FlaggedPlayersIff characterises it |
| Ranker.BadStatusIsOutOrDoubtful | ranker.py:67-68 | a status qualifies exactly when it contains "out" or "doubtful", ignoring case |
| Ranker.BadStatusNamesOutOrDoubtful | ranker.py:67-68 | each of the four phrases contains "out" or "doubtful" |
| Ranker.LongPhrasesContainOut | ranker.py:67 | the two long phrases contain "out" |
| Ranker.FlaggedPlayersIff | ranker.py:64-71 | a player text is collected exactly when some row of the combined tables carries it with a qualifying status |
| Ranker.InjuredStars | ranker.py:74-84 | only tracked stars are reported injured |
| Ranker.GetInjuredPlayers | ranker.py:44-91 | a failed request or a page without tables gives no injuries; otherwise the stars whose name occurs in a collected player text, which are all tracked stars |
| Ranker.MatchStars | ranker.py:74-84 | the outer loop collects exactly the tracked stars mentioned in some collected text |
| Ranker.IsMentioned | ranker.py:80-84 | the inner loop, stopping at the first hit, finds a text containing the star exactly when there is one |
| Ranker.InjuredPlayersIff | ranker.py:64-84 | a star is injured exactly when it is tracked and some qualifying row's player text contains its name |
| Ranker.InjuredStarReported | ranker.py:74-84 | an injured star is tracked and reported by some qualifying row |
| Ranker.ReportedStarInjured | ranker.py:74-84 | a tracked star that a qualifying row reports is injured |
| Ranker.MentionedAt | ranker.py:81-82 | a collected text containing the star is a mention |
| Ranker.NotMentionedStep | ranker.py:80-81 | a text that does not contain the star adds no mention |
| Ranker.InjuredStarsStep | ranker.py:77-84 | checking one more star adds it exactly when it is mentioned |
| Ranker.DigitRun | ranker.py:100 | the greedy run of digits at a position is maximal |
| Ranker.SpaceRun | ranker.py:100 | the greedy run of whitespace at a position is maximal |
| Ranker.MatchAt | ranker.py:100 | definition: the match of the time pattern at one position, read off the greedy runs; MatchAtComplete and MatchAtSound show that it is exactly the pattern |
| Ranker.DigitRunExact | ranker.py:100 | a maximal run of digits is the greedy run |
| Ranker.SpaceRunExact | ranker.py:100 | a maximal run of whitespace is the greedy run |
| Ranker.MatchAtComplete | ranker.py:100 | wherever digits, a colon, digits, whitespace and am/pm (any case) occur, the match at that position reads those groups |
| Ranker.MatchAtFromRuns | ranker.py:100 | the greedy runs and the am/pm letters give the match at a position |
| Ranker.MatchAtSound | ranker.py:100 | every match found at a position is such a pattern, with those groups |
| Ranker.SearchFrom | ranker.py:100-101 | the search returns the match at the leftmost matching position from its start, or none when no position matches |
| Ranker.SearchStep | ranker.py:100 | a position with no match can be skipped |
| Ranker.SearchClock | ranker.py:100-101 | the time search returns the leftmost match in the text, or none when there is none |
| Ranker.SearchFindsLeftmost | ranker.py:100 | a match with no match before it is what the search returns |
| Ranker.To24Hour | ranker.py:104-105 | for a 12-hour clock hour the 24-hour value is at most 23, is at least 12 exactly for pm, and agrees modulo 12 |
| Ranker.To24HourInjective | ranker.py:104-105 | different 12-hour times give different 24-hour hours |
| Ranker.ConvertEtString | ranker.py:98-107 | an empty or "Final" status, or one with no time in it, is passed through; a converted time has an hour of at most 23 and a minute of at most 59 |
| Ranker.ConvertLeftmostMatch | ranker.py:99-107 | the leftmost time in the text is converted to the 24-hour clock, or is an error when strptime rejects it |
| Ranker.NoColonPassesThrough | ranker.py:100-101 | a status without a colon is passed through |
| Ranker.ConvertAtStart | ranker.py:99-107 | a time at the start of the status is the one converted |
| Ranker.OneDigitValue | ranker.py:103 | a one-digit group reads as that digit |
| Ranker.TwoDigitValue | ranker.py:103 | a two-digit group reads as its decimal value |
| Ranker.EveningPattern | ranker.py:100 | "7:30 pm ET" contains the time pattern at its start, with groups 7, 30 and pm |
| Ranker.ConvertEveningExample | ranker.py:98-107 | "7:30 pm ET" converts to 19:30 |
| Ranker.MidnightPattern | ranker.py:100 | "12:05 AM" contains the time pattern at its start, with groups 12, 5 and am |
| Ranker.ConvertMidnightExample | ranker.py:98-107 | "12:05 AM" converts to 00:05 |
| Ranker.OutOfRangePattern | ranker.py:100 | "13:00 pm" contains the time pattern at its start, with groups 13, 0 and pm |
| Ranker.ConvertOutOfRangeExample | ranker.py:104-107 | "13:00 pm" becomes hour 25, which strptime rejects |
| Ranker.ConvertFinalExample | ranker.py:99 | a final score status is passed through |
| Ranker.NoFirstLetter | ranker.py:99-100 | a text without the needle's first letter does not contain the needle |
| Ranker.AbbrOf | ranker.py:154-155 | definition: a team id's abbreviation, `UNK` when the team list lacks it; used by the default lemmas below |
| Ranker.StatsOf | ranker.py:157-158 | definition: a team id's statistics, a .500 record at pace 100 when there are none |
| Ranker.SpreadOf | ranker.py:160 | definition: the home team's spread, 10 when there is none |
| Ranker.RecordWith | ranker.py:152-177 | definition: the record of one game for a given converted time; UnknownTeamsGetDefaults, UnknownAwayTeamDefaults, GameScoreInRange and SwapHomeAndAway state its properties |
| Ranker.Collect | ranker.py:151-178 | definition: the records in order up to the first clock failure; CollectShape characterises it |
| Ranker.CollectStep | ranker.py:151-178 | one more game either extends the records or, if its time fails, ends the run with its position |
| Ranker.CollectNext | ranker.py:170-178 | a game whose time converts appends its record |
| Ranker.CollectStop | ranker.py:171 | a game whose time fails ends the whole call with its position |
| Ranker.CollectFailureSticks | ranker.py:171 | once a time has failed, later games change nothing |
| Ranker.CollectClean | ranker.py:151-178 | without a failure every record is kept, in order |
| Ranker.CollectFirstFailure | ranker.py:171 | the first failing game is the one reported |
| Ranker.FirstFailure | ranker.py:151-171 | if some game fails there is a first one |
| Ranker.CollectShape | ranker.py:151-180 | the run succeeds exactly when no time fails, and then holds every record in order; otherwise it reports the first failure |
| Ranker.Records | ranker.py:151-178 | one record per game row |
| Ranker.RecordsAt | ranker.py:151-178 | each record is the one built from its own row |
| Ranker.EnrichShape | ranker.py:151-180 | the schedule holds one record per game in order exactly when no status time fails; otherwise it names the first failing row |
| Ranker.ScoreGame | ranker.py:152-178 | the loop body builds a game's record with the defaults, averages, star scores and score of the enrichment |
| Ranker.EnrichRows | ranker.py:148-180 | the loop appends each game's record in order and ends at the first time that fails |
| Ranker.GetScheduleWithStats | ranker.py:138-180 | no games give an empty schedule; otherwise the games are enriched with the fetched statistics, spreads and injuries |
| Ranker.UnknownTeamsGetDefaults | ranker.py:154-168 | two unknown teams make `UNK @ UNK`, with a 10-point spread, a .500 record, pace 100, no stars and a score of 25 |
| Ranker.UnknownAwayTeamDefaults | ranker.py:154-166 | an unknown away team alone gives the matchup `UNK @ home`, counts as a .500 team at pace 100 in the averages and adds no stars; the home side and the spread are looked up as for a known team |
| Ranker.UnknownHomeTeamDefaultSpread | ranker.py:154-160 | an unknown home team always gets the 10-point default spread |
| Ranker.GameScoreInRange | ranker.py:157-168 | with win percentages in [0, 1] and non-negative star values, the combined record lies in [0, 1], the stars are not negative and the score lies in [0, 90] |
| Ranker.SwapHomeAndAway | ranker.py:152-172 | exchanging home and away keeps the stars, record and pace, and mirrors the matchup |
| UpdateData.BuildTeamData | update_data.py:30-37 | the team loop builds the dictionary of those pairs |
| UpdateData.TeamDataKeys | update_data.py:30-37 | an abbreviation has an entry exactly when some row has it, with no more entries than rows |
| UpdateData.TeamDataLastRowWins | update_data.py:32-37 | the last row of a team decides its entry |
| UpdateData.FantasyPoints | update_data.py:57-58 | definition: the fantasy-point formula; FantasyPointsWeights and FantasyPointsMonotone state its weights and monotonicity |
| UpdateData.FantasyPointsMonotone | update_data.py:57-58 | better counting stats and fewer turnovers never lower the fantasy points |
| UpdateData.FantasyPointsWeights | update_data.py:57-58 | each category counts with its weight: points 1, rebounds 1.2, assists 1.5, steals and blocks 3, turnovers -1 |
| UpdateData.GamesDivisor | update_data.py:59 | the divisor is the games played when positive and 1 otherwise |
| UpdateData.PerGame | update_data.py:59-67 | before rounding, the per-game value times the games played gives the fantasy points, and a player without games keeps the full total |
| UpdateData.RoundTenth | update_data.py:67 | the rounded value is within 0.05 of the input and a whole number of tenths, and a value exactly halfway between two tenths goes to the even one |
| UpdateData.EntryOf | update_data.py:65-68 | definition: a row's roster entry, its name and its per-game fantasy points rounded to a tenth, which is the key the roster is sorted on |
| UpdateData.Insert | update_data.py:72 | inserting adds exactly the one entry |
| UpdateData.SortByFpDesc | update_data.py:72 | the sorted roster is a permutation of the roster |
| UpdateData.InsertSorted | update_data.py:72 | inserting into a descending roster keeps it descending |
| UpdateData.SortByFpDescSorted | update_data.py:72 | the sorted roster is in descending order of fantasy points |
| UpdateData.WithFp | update_data.py:72 | the entries with a given value form a subsequence |
| UpdateData.InsertWithFp | update_data.py:72 | an insertion goes before the entries with its value |
| UpdateData.SortByFpDescStable | update_data.py:72 | entries with equal fantasy points keep their relative order, as Python's stable sort does |
| UpdateData.RoundedTiesKeepRowOrder | update_data.py:67-72 | two players with 10.01 and 10.04 points per game both round to 10.0, so the sort keeps them in row order |
| UpdateData.SortedRosters | update_data.py:71-72 | sorting the rosters keeps the teams |
| UpdateData.SortRosters | update_data.py:71-72 | the loop over the teams sorts every roster |
| UpdateData.BuildPlayerData | update_data.py:53-72 | the player loop groups the rounded per-game entries by team and sorts each roster on the rounded value |
| UpdateData.PlayersKeys | update_data.py:62-63 | a team has a roster exactly when some player row names it |
| UpdateData.PlayersRoster | update_data.py:62-72 | each roster is sorted in descending order of the rounded per-game value and is a stable permutation of the team's rows' entries |
| UpdateData.PlayerOnOwnTeam | update_data.py:62-68 | every roster entry comes from a row of that team |
| UpdateData.PlayersTotal | update_data.py:53-72 | the rosters together hold exactly one entry per player row |
| UpdateData.ActiveOfSnoc | update_data.py:86-88 | one more lineup box appends its stripped titles |
| UpdateData.ActiveOf | update_data.py:85-88 | definition: every box's titles, stripped, in page order; ActiveCount, ActiveFromTitles and ActiveNamesTrimmed state its properties |
| UpdateData.BuildActivePlayers | update_data.py:85-88 | the loops collect every box's titles, stripped, in page order |
| UpdateData.AppendStripped | update_data.py:87-88 | the inner loop appends a box's titles, stripped, in order |
| UpdateData.ActiveCount | update_data.py:85-88 | there is one active name per title |
| UpdateData.ActiveFromTitles | update_data.py:86-88 | every active name is the stripped text of some title |
| UpdateData.ActiveNamesTrimmed | update_data.py:88 | no active name has outer whitespace |
| UpdateData.FetchLiveNbaStats | update_data.py:16-97 | the data map holds each section as fetched, each failed section as empty, and the timestamp |
| UpdateData.NbaData | update_data.py:19-97 | definition: the four-section data map, each failed section empty; NbaDataKeys and the failure-isolation lemmas state its properties |
| UpdateData.NbaDataKeys | update_data.py:19-97 | the data map has exactly the keys teams, players, active_players and last_updated |
| UpdateData.TeamsFailureIsolated | update_data.py:40-42 | a failed team fetch empties the teams section and nothing else |
| UpdateData.PlayersFailureIsolated | update_data.py:76-78 | a failed player fetch empties the players section and nothing else |
| UpdateData.ActiveFailureIsolated | update_data.py:92-94 | a failed lineup fetch empties the active players and nothing else |

## Left out

- Rounding for display: `round(total, 1)` in the score and the rounded pace and winning percentage (ranker.py:136,176-177) are kept as exact values. Nothing in the model orders or compares these rounded values.
- UpdateData.RoundTenth rounds the exact per-game quotient to a tenth, with ties to even. Python rounds the binary floating-point quotient, so a value within floating-point error of a half-tenth may round the other way.
- Floating point in general: statistics, spreads and star scores are `real`. NaN, infinities and JSON `null` points are not modelled. A missing outcome point is 0.
- Ranker.ConvertEtString: the model stops at the parsed 24-hour Eastern hour and minute. It does not model the timezone conversion to IST or the display format (`localize`, `astimezone`, `strftime`), which need a time-zone database. strptime's rejection of an hour above 23 or a minute above 59 is kept, as `ParseError`.
- Ranker.DigitRun: it accepts only ASCII digits, whereas Python's `\d` also matches other Unicode decimal digits.
- Ranker.IsBadStatus: case folding is ASCII only. No other character folds onto a letter of "out" or "doubtful" under Python's case-insensitive matching, so this is exact for the four phrases.
- I/O becomes parameters:
  - the HTTP requests, the HTML parsing of the injury and lineup pages, the Excel read and the NBA statistics endpoints each become an `Option` or sequence input;
  - the file-existence test is the `None` case of the star sheet;
  - every caught exception is the `None` case of its fetch;
  - the clock read for the timestamp is a string parameter;
  - the JSON file write is the returned map.
- `get_team_lookup` (ranker.py:94-96) reads a static team list and becomes the `teamAbbr` parameter. The odds key read from the application's secrets (config.py:9-15) becomes the `apiKey` parameter.
- The module globals `STAR_POWER` and `TEAM_STARS` (ranker.py:38-41) are parameters. The model does not capture the source's undefined-name error when the sheet is missing or empty.
- Exceptions that happen partway through a loop, such as a missing column or a non-numeric cell, are not modelled. Inputs arrive as typed rows.
- Ranker.ConvertEtString: it does not take the target date. Python's strptime also fails, for every row with a clock time, when the target date is not a valid `YYYY-MM-DD` date (ranker.py:106-107); the model assumes a valid date.
- Odds.GetBettingSpreadsWith: it does not model the exceptions the source leaves uncaught: a failed request (odds.py:23), a body that is not JSON (odds.py:29), or an outcome without a `name` (odds.py:46). The response arrives decoded, and each outcome has a name.
- Odds.GetBettingSpreads: the same uncaught request and decoding errors are not modelled, so it always returns a table. In the source such an error propagates out of get_schedule_with_stats (ranker.py:145).
- Ranker.GetScheduleWithStats: it does not model uncaught failures of the scoreboard fetch (ranker.py:140-141) or of the odds fetch (ranker.py:145), which end the source's call. The game rows and the odds response arrive as inputs.
- Ranker.EnrichRows models the uncaught strptime error as the `ClockFailure` result that ends the call.
- UpdateData.SortRosters visits the teams in an unspecified order, not Python's dictionary insertion order. The result does not depend on the order.
- UpdateData.SortByFpDesc is a stable insertion sort standing in for Python's `list.sort(key=..., reverse=True)`. It sorts on the same rounded key. Its result is proved descending, a permutation of the input and stable for equal keys, and a stable sort's result is fixed by those three properties.
- Config.TeamNameMap is the table written as the union of five disjoint alphabetical groups, so that its facts can be proved group by group.
- Helper methods split the loop bodies of the source: ScoreGame (which builds step by step the record RecordWith defines), IsMentioned, WriteSpreads, AppendStripped and SetDefaultAppend. Each states exactly what its part of the loop does.
- The Streamlit dashboard (app.py) is not part of this model.
- The progress and warning `print` calls are not modelled.
