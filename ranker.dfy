/**
 * The watchability ranker: star data loaded from the spreadsheet, team
 * statistics, star scores net of injuries, the excitement score, the
 * 12-hour clock parse and the per-game enrichment of the schedule.
 */
module Ranker {
  import opened Wrappers
  import opened Text
  import opened Collections
  import Odds

  // ---------------------------------------------------------------------
  // Star data (the spreadsheet of tracked players)
  // ---------------------------------------------------------------------

  /** One row of the star sheet: the `Player`, `Team` and `Score` columns. */
  datatype StarRow = StarRow(player: string, team: string, score: real)

  /** The (player, score) pairs zipped into the star-power dict. */
  function ScorePairs(rows: seq<StarRow>): seq<(string, real)>
  {
    seq(|rows|, i requires 0 <= i < |rows| => (rows[i].player, rows[i].score))
  }

  /** The (team, player) pairs the roster loop files, in row order. */
  function RosterPairs(rows: seq<StarRow>): seq<(string, string)>
  {
    seq(|rows|, i requires 0 <= i < |rows| => (rows[i].team, rows[i].player))
  }

  /** Loads the star sheet. `None` stands for a missing file or a sheet that
      cannot be read; both give two empty maps. Otherwise the star-power map
      takes each player's score (a later row for the same player wins) and
      each team lists its players in row order. */
  method LoadStarData(sheet: Option<seq<StarRow>>)
    returns (starPower: map<string, real>, teamStars: map<string, seq<string>>)
    ensures sheet.None? ==> starPower == map[] && teamStars == map[]
    ensures sheet.Some? ==> starPower == DictOf(ScorePairs(sheet.value))
    ensures sheet.Some? ==> teamStars == Grouped(RosterPairs(sheet.value))
  {
    if sheet.None? {
      return map[], map[];
    }
    var rows := sheet.value;
    starPower := DictOf(ScorePairs(rows));
    ghost var pairs := RosterPairs(rows);
    teamStars := map[];
    var i := 0;
    while i < |rows|
      invariant 0 <= i <= |rows|
      invariant teamStars == Grouped(pairs[..i])
    {
      GroupedStep(pairs, i);
      assert pairs[i] == (rows[i].team, rows[i].player);
      teamStars := SetDefaultAppend(teamStars, rows[i].team, rows[i].player);
      i := i + 1;
    }
    assert pairs[..i] == pairs;
  }

  /** Each team lists exactly the players of its rows, in row order; a team
      without rows lists nobody. */
  lemma TeamStarsInRowOrder(rows: seq<StarRow>, team: string)
    ensures team in Grouped(RosterPairs(rows)) ==>
      Grouped(RosterPairs(rows))[team] == ValuesOf(RosterPairs(rows), team)
    ensures team !in Grouped(RosterPairs(rows)) <==> forall i :: 0 <= i < |rows| ==> rows[i].team != team
  {
    GroupedValues(RosterPairs(rows), team);
    if team !in Grouped(RosterPairs(rows)) {
      forall i | 0 <= i < |rows| ensures rows[i].team != team {
        assert RosterPairs(rows)[i].0 == rows[i].team;
      }
    }
  }

  /** Every player a team lists is a key of the star-power map. */
  lemma RosterPlayersAreStars(rows: seq<StarRow>, team: string, player: string)
    requires team in Grouped(RosterPairs(rows)) && player in Grouped(RosterPairs(rows))[team]
    ensures player in DictOf(ScorePairs(rows))
  {
    GroupedValues(RosterPairs(rows), team);
    ValuesOfMember(RosterPairs(rows), team, player);
    var i :| 0 <= i < |rows| && RosterPairs(rows)[i] == (team, player);
    assert ScorePairs(rows)[i].0 == player;
  }

  // ---------------------------------------------------------------------
  // Team statistics
  // ---------------------------------------------------------------------

  /** One row of the advanced team-statistics table. */
  datatype TeamStatsRow = TeamStatsRow(teamId: int, wPct: real, pace: real, ePace: real)

  /** The table, with whether it carries a `PACE` and an `E_PACE` column. */
  datatype TeamStatsTable = TeamStatsTable(hasPace: bool, hasEPace: bool, rows: seq<TeamStatsRow>)

  /** A team's win percentage and pace. */
  datatype TeamStats = TeamStats(winPct: real, pace: real)

  /** The pace of a row: the `PACE` column if the table has one, else
      `E_PACE` if it has that, else 0. */
  function RowPace(table: TeamStatsTable, row: TeamStatsRow): real {
    if table.hasPace then row.pace
    else if table.hasEPace then row.ePace
    else 0.0
  }

  function StatsPairs(table: TeamStatsTable): seq<(int, TeamStats)>
  {
    seq(|table.rows|, i requires 0 <= i < |table.rows| =>
      (table.rows[i].teamId, TeamStats(table.rows[i].wPct, RowPace(table, table.rows[i]))))
  }

  /** The statistics the ranker can look up by team id; none when the
      table could not be fetched. */
  function TeamStatsOf(table: Option<TeamStatsTable>): map<int, TeamStats> {
    if table.None? then map[] else DictOf(StatsPairs(table.value))
  }

  /** Builds the team-id map row by row; a fetch failure gives no entries. */
  method GetTeamStats(table: Option<TeamStatsTable>) returns (stats: map<int, TeamStats>)
    ensures stats == TeamStatsOf(table)
    ensures table.None? ==> stats == map[]
    ensures table.Some? ==> stats.Keys == set j | 0 <= j < |table.value.rows| :: table.value.rows[j].teamId
  {
    if table.None? {
      return map[];
    }
    var t := table.value;
    ghost var pairs := StatsPairs(t);
    stats := map[];
    var i := 0;
    while i < |t.rows|
      invariant 0 <= i <= |t.rows|
      invariant stats == DictOf(pairs[..i])
    {
      DictOfStep(pairs, i);
      var row := t.rows[i];
      assert pairs[i] == (row.teamId, TeamStats(row.wPct, RowPace(t, row)));
      stats := stats[row.teamId := TeamStats(row.wPct, RowPace(t, row))];
      i := i + 1;
    }
    assert pairs[..i] == pairs;
    assert |pairs| == |t.rows| && forall j :: 0 <= j < |pairs| ==> pairs[j].0 == t.rows[j].teamId;
    assert KeysOf(pairs) == set j | 0 <= j < |t.rows| :: t.rows[j].teamId;
  }

  /** A team's entry comes from its last row: that row's win percentage and
      the pace fallback applied to it. */
  lemma TeamStatsLastRow(table: TeamStatsTable, i: nat)
    requires i < |table.rows|
    requires forall j :: i < j < |table.rows| ==> table.rows[j].teamId != table.rows[i].teamId
    ensures table.rows[i].teamId in TeamStatsOf(Some(table))
    ensures TeamStatsOf(Some(table))[table.rows[i].teamId].winPct == table.rows[i].wPct
    ensures TeamStatsOf(Some(table))[table.rows[i].teamId].pace ==
      if table.hasPace then table.rows[i].pace
      else if table.hasEPace then table.rows[i].ePace
      else 0.0
  {
    DictOfLastWins(StatsPairs(table), i);
  }

  // ---------------------------------------------------------------------
  // Star score
  // ---------------------------------------------------------------------

  /** A star's value: its score in the star-power map, 0 when it has none. */
  function StarValue(starPower: map<string, real>, star: string): real {
    if star in starPower then starPower[star] else 0.0
  }

  /** The stars a team lists; none for a team that is not in the sheet. */
  function TeamStarList(teamStars: map<string, seq<string>>, team: string): seq<string> {
    if team in teamStars then teamStars[team] else []
  }

  /** The summed value of the listed stars that are not injured. */
  function StarTotal(stars: seq<string>, starPower: map<string, real>, injured: set<string>): real
    decreases |stars|
  {
    if stars == [] then 0.0
    else
      var last := stars[|stars| - 1];
      StarTotal(stars[..|stars| - 1], starPower, injured)
      + (if last in injured then 0.0 else StarValue(starPower, last))
  }

  /** The star-power values are all non-negative. */
  ghost predicate NonNegativePower(starPower: map<string, real>) {
    forall s :: s in starPower ==> starPower[s] >= 0.0
  }

  /** Sums the values of a team's healthy stars, the loop skipping each
      injured one. */
  method GetStarScore(team: string, injured: set<string>,
                      teamStars: map<string, seq<string>>, starPower: map<string, real>)
    returns (total: real)
    ensures total == StarTotal(TeamStarList(teamStars, team), starPower, injured)
    ensures team !in teamStars ==> total == 0.0
  {
    var stars := TeamStarList(teamStars, team);
    total := 0.0;
    var i := 0;
    while i < |stars|
      invariant 0 <= i <= |stars|
      invariant total == StarTotal(stars[..i], starPower, injured)
    {
      assert stars[..i + 1][..i] == stars[..i];
      var star := stars[i];
      if star in injured {
        i := i + 1;
        continue;
      }
      total := total + StarValue(starPower, star);
      i := i + 1;
    }
    assert stars[..i] == stars;
  }

  /** With non-negative star values the star score is non-negative. */
  lemma {:induction false} StarTotalNonNegative(stars: seq<string>, starPower: map<string, real>, injured: set<string>)
    requires NonNegativePower(starPower)
    ensures StarTotal(stars, starPower, injured) >= 0.0
    decreases |stars|
  {
    if stars != [] {
      StarTotalNonNegative(stars[..|stars| - 1], starPower, injured);
    }
  }

  /** Marking more players injured never raises the star score, when star
      values are non-negative. */
  lemma {:induction false} StarTotalAntitone(stars: seq<string>, starPower: map<string, real>,
                                             injured: set<string>, injured': set<string>)
    requires NonNegativePower(starPower) && injured <= injured'
    ensures StarTotal(stars, starPower, injured') <= StarTotal(stars, starPower, injured)
    decreases |stars|
  {
    if stars != [] {
      StarTotalAntitone(stars[..|stars| - 1], starPower, injured, injured');
    }
  }

  /** A star missing from the star-power map contributes nothing: counting
      it as injured leaves the score unchanged. */
  lemma {:induction false} StarTotalUnknownStar(stars: seq<string>, starPower: map<string, real>,
                                                injured: set<string>, star: string)
    requires star !in starPower
    ensures StarTotal(stars, starPower, injured + {star}) == StarTotal(stars, starPower, injured)
    decreases |stars|
  {
    if stars != [] {
      StarTotalUnknownStar(stars[..|stars| - 1], starPower, injured, star);
    }
  }

  /** Only stars on the team's list matter: an injury elsewhere changes nothing. */
  lemma {:induction false} StarTotalIgnoresOthers(stars: seq<string>, starPower: map<string, real>,
                                                  injured: set<string>, star: string)
    requires forall i :: 0 <= i < |stars| ==> stars[i] != star
    ensures StarTotal(stars, starPower, injured + {star}) == StarTotal(stars, starPower, injured)
    decreases |stars|
  {
    if stars != [] {
      StarTotalIgnoresOthers(stars[..|stars| - 1], starPower, injured, star);
    }
  }

  // ---------------------------------------------------------------------
  // Excitement score
  // ---------------------------------------------------------------------

  function Abs(x: real): (r: real)
    ensures r >= 0.0 && (r == x || r == -x)
  {
    if x < 0.0 then -x else x
  }

  /** The closeness term: 20 for a pick'em, falling by one per point of
      spread, never negative. */
  function SpreadScore(spread: real): (r: real)
    ensures 0.0 <= r <= 20.0
    ensures r == 0.0 <==> Abs(spread) >= 20.0
    ensures Abs(spread) < 20.0 ==> r == 20.0 - Abs(spread)
    ensures r + Abs(spread) >= 20.0
  {
    if 20.0 - Abs(spread) > 0.0 then 20.0 - Abs(spread) else 0.0
  }

  /** The quality term: thirty points per unit of combined win percentage. */
  function QualityScore(combinedWinPct: real): (r: real)
    ensures 0.0 <= combinedWinPct <= 1.0 ==> 0.0 <= r <= 30.0
  {
    combinedWinPct * 30.0
  }

  /** The star term: one and a half points per star point, capped at 40. */
  function StarFactor(starScore: real): (r: real)
    ensures r <= 40.0 && r <= starScore * 1.5
    ensures r == 40.0 || r == starScore * 1.5
  {
    if 40.0 < starScore * 1.5 then 40.0 else starScore * 1.5
  }

  /** The excitement score before rounding to one decimal place. */
  function ExcitementScore(spread: real, combinedWinPct: real, starScore: real): (r: real)
    ensures r <= 60.0 + combinedWinPct * 30.0
    ensures 0.0 <= combinedWinPct <= 1.0 && starScore >= 0.0 ==> 0.0 <= r <= 90.0
  {
    SpreadScore(spread) + QualityScore(combinedWinPct) + StarFactor(starScore)
  }

  /** The spread term depends only on the size of the spread. */
  lemma SpreadScoreSymmetric(spread: real)
    ensures SpreadScore(spread) == SpreadScore(-spread)
  {
  }

  /** A closer game, better teams and more stars never lower the score. */
  lemma ExcitementMonotone(spread: real, spread': real, winPct: real, winPct': real,
                           stars: real, stars': real)
    requires Abs(spread) <= Abs(spread') && winPct >= winPct' && stars >= stars'
    ensures ExcitementScore(spread, winPct, stars) >= ExcitementScore(spread', winPct', stars')
  {
  }

  // ---------------------------------------------------------------------
  // Injury report
  // ---------------------------------------------------------------------

  /** A row of an injury table: the `Player` text (which may run a short and
      a full name together) and the `Injury Status`, `None` when missing. */
  datatype InjuryRow = InjuryRow(player: string, status: Option<string>)

  /** The scraped report: `None` when the page cannot be fetched or read,
      otherwise the tables found on it. */
  type InjuryReport = Option<seq<seq<InjuryRow>>>

  /** The phrases that mark a player as unavailable. */
  const BadStatuses: seq<string> := ["Out", "Doubtful", "Expected to be out", "Out for the season"]

  /** A status qualifies when it contains one of the phrases, ignoring case;
      a missing status never does. */
  predicate IsBadStatus(status: Option<string>) {
    status.Some? && exists k :: 0 <= k < |BadStatuses| && ContainsIgnoreCase(status.value, BadStatuses[k])
  }

  /** The four phrases come down to two words: a status qualifies exactly
      when it contains "out" or "doubtful", ignoring case. */
  lemma BadStatusIsOutOrDoubtful(status: string)
    ensures IsBadStatus(Some(status)) <==>
      ContainsIgnoreCase(status, "out") || ContainsIgnoreCase(status, "doubtful")
  {
    if IsBadStatus(Some(status)) {
      BadStatusNamesOutOrDoubtful(status);
    }
    if ContainsIgnoreCase(status, "out") {
      LowerOut();
      assert ContainsIgnoreCase(status, BadStatuses[0]);
    }
    if ContainsIgnoreCase(status, "doubtful") {
      LowerDoubtful();
      assert ContainsIgnoreCase(status, BadStatuses[1]);
    }
  }

  lemma BadStatusNamesOutOrDoubtful(status: string)
    requires IsBadStatus(Some(status))
    ensures ContainsIgnoreCase(status, "out") || ContainsIgnoreCase(status, "doubtful")
  {
    var k :| 0 <= k < |BadStatuses| && ContainsIgnoreCase(status, BadStatuses[k]);
    LowerOut();
    if k == 1 {
      LowerDoubtful();
    } else if k == 0 {
      assert BadStatuses[0] == "Out";
    } else if k == 2 {
      LowerExpectedToBeOut();
      LongPhrasesContainOut();
      ContainsTransitive(Lower(status), "expected to be out", "out");
    } else {
      LowerOutForTheSeason();
      LongPhrasesContainOut();
      ContainsTransitive(Lower(status), "out for the season", "out");
    }
  }

  /** The lower-cased longer phrases contain "out". */
  lemma LongPhrasesContainOut()
    ensures Contains("expected to be out", "out") && Contains("out for the season", "out")
  {
    assert OccursAt("out", "expected to be out", 15);
    assert OccursAt("out", "out for the season", 0);
  }

  /** Lower-casing the vocabulary (and the two words it comes down to). */
  lemma LowerOut()
    ensures Lower("Out") == "out" && Lower("out") == "out"
  {
  }

  lemma LowerDoubtful()
    ensures Lower("Doubtful") == "doubtful" && Lower("doubtful") == "doubtful"
  {
  }

  lemma LowerExpectedToBeOut()
    ensures Lower("Expected to be out") == "expected to be out"
  {
  }

  lemma LowerOutForTheSeason()
    ensures Lower("Out for the season") == "out for the season"
  {
  }

  /** All tables of the page, one after another. */
  function Concat(tables: seq<seq<InjuryRow>>): seq<InjuryRow>
    decreases |tables|
  {
    if tables == [] then [] else Concat(tables[..|tables| - 1]) + tables[|tables| - 1]
  }

  /** The player texts of the qualifying rows, in row order. */
  function FlaggedPlayers(rows: seq<InjuryRow>): seq<string>
    decreases |rows|
  {
    if rows == [] then []
    else
      var last := rows[|rows| - 1];
      FlaggedPlayers(rows[..|rows| - 1]) + (if IsBadStatus(last.status) then [last.player] else [])
  }

  /** A player text is flagged exactly when some qualifying row carries it. */
  lemma {:induction false} FlaggedPlayersIff(rows: seq<InjuryRow>, text: string)
    ensures text in FlaggedPlayers(rows) <==>
      exists i :: 0 <= i < |rows| && rows[i].player == text && IsBadStatus(rows[i].status)
    decreases |rows|
  {
    if rows != [] {
      var init := rows[..|rows| - 1];
      FlaggedPlayersIff(init, text);
      assert forall i :: 0 <= i < |init| ==> init[i] == rows[i];
    }
  }

  /** The tracked stars whose name occurs inside some flagged player text. */
  function InjuredStars(stars: set<string>, flagged: seq<string>): (r: set<string>)
    ensures r <= stars
  {
    set s | s in stars && Mentioned(flagged, s)
  }

  /** Some flagged player text contains `star`. */
  predicate Mentioned(flagged: seq<string>, star: string) {
    exists m :: m in flagged && Contains(m, star)
  }

  /** What the injury scraper returns for a report. */
  function InjuredPlayersOf(report: InjuryReport, starPower: map<string, real>): set<string> {
    if report.None? || report.value == [] then {}
    else InjuredStars(starPower.Keys, FlaggedPlayers(Concat(report.value)))
  }

  /** Cross-references the report against the tracked stars. A missing
      report, or one without tables, gives no injuries; otherwise the
      qualifying rows' player texts are matched against the star names. */
  method GetInjuredPlayers(report: InjuryReport, starPower: map<string, real>)
    returns (injured: set<string>)
    ensures injured == InjuredPlayersOf(report, starPower)
    ensures injured <= starPower.Keys
  {
    if report.None? || report.value == [] {
      return {};
    }
    var messy := FlaggedPlayers(Concat(report.value));
    injured := MatchStars(starPower.Keys, messy);
  }

  /** Decides star by star whether it is injured. */
  method MatchStars(stars: set<string>, messy: seq<string>) returns (injured: set<string>)
    ensures injured == InjuredStars(stars, messy)
  {
    injured := {};
    var remaining := stars;
    ghost var done: set<string> := {};
    while remaining != {}
      invariant remaining <= stars && done == stars - remaining
      invariant injured == InjuredStars(done, messy)
      decreases |remaining|
    {
      var star :| star in remaining;
      var found := IsMentioned(star, messy);
      InjuredStarsStep(done, messy, star);
      if found {
        injured := injured + {star};
      }
      remaining := remaining - {star};
      done := done + {star};
    }
    assert done == stars;
  }

  /** Scans the flagged player texts and stops at the first that contains
      the star's name. */
  method IsMentioned(star: string, messy: seq<string>) returns (found: bool)
    ensures found <==> Mentioned(messy, star)
  {
    var j := 0;
    while j < |messy|
      invariant 0 <= j <= |messy|
      invariant !Mentioned(messy[..j], star)
    {
      if Contains(messy[j], star) {
        MentionedAt(messy, j, star);
        return true;
      }
      NotMentionedStep(messy, j, star);
      j := j + 1;
    }
    assert messy[..j] == messy;
    return false;
  }

  /** A star is reported injured exactly when it is tracked and its name
      occurs inside the player text of some qualifying row of the report. */
  lemma InjuredPlayersIff(tables: seq<seq<InjuryRow>>, starPower: map<string, real>, star: string)
    requires tables != []
    ensures star in InjuredPlayersOf(Some(tables), starPower) ==>
      (star in starPower && exists i :: 0 <= i < |Concat(tables)| && ReportsInjured(Concat(tables)[i], star))
    ensures (star in starPower && exists i :: 0 <= i < |Concat(tables)| && ReportsInjured(Concat(tables)[i], star))
      ==> star in InjuredPlayersOf(Some(tables), starPower)
  {
    var rows := Concat(tables);
    assert InjuredPlayersOf(Some(tables), starPower) == InjuredStars(starPower.Keys, FlaggedPlayers(rows));
    if star in InjuredPlayersOf(Some(tables), starPower) {
      InjuredStarReported(rows, starPower, star);
      assert star in starPower && exists i :: 0 <= i < |rows| && ReportsInjured(rows[i], star);
    }
    if star in starPower && exists i :: 0 <= i < |rows| && ReportsInjured(rows[i], star) {
      var i :| 0 <= i < |rows| && ReportsInjured(rows[i], star);
      ReportedStarInjured(rows, starPower, i, star);
    }
  }

  lemma InjuredStarReported(rows: seq<InjuryRow>, starPower: map<string, real>, star: string)
    requires star in InjuredStars(starPower.Keys, FlaggedPlayers(rows))
    ensures star in starPower
    ensures exists i :: 0 <= i < |rows| && ReportsInjured(rows[i], star)
  {
    var flagged := FlaggedPlayers(rows);
    assert star in starPower && Mentioned(flagged, star);
    var m :| m in flagged && Contains(m, star);
    FlaggedPlayersIff(rows, m);
    var i :| 0 <= i < |rows| && rows[i].player == m && IsBadStatus(rows[i].status);
    assert ReportsInjured(rows[i], star);
  }

  lemma ReportedStarInjured(rows: seq<InjuryRow>, starPower: map<string, real>, i: nat, star: string)
    requires star in starPower && i < |rows| && ReportsInjured(rows[i], star)
    ensures star in InjuredStars(starPower.Keys, FlaggedPlayers(rows))
  {
    FlaggedPlayersIff(rows, rows[i].player);
    assert Mentioned(FlaggedPlayers(rows), star) by {
      assert rows[i].player in FlaggedPlayers(rows);
    }
  }

  /** A row reports a star injured: its status qualifies and its player text
      contains the star's name. */
  predicate ReportsInjured(row: InjuryRow, star: string) {
    IsBadStatus(row.status) && Contains(row.player, star)
  }

  lemma MentionedAt(flagged: seq<string>, j: nat, star: string)
    requires j < |flagged| && Contains(flagged[j], star)
    ensures Mentioned(flagged, star)
  {
    assert flagged[j] in flagged;
  }

  lemma NotMentionedStep(flagged: seq<string>, j: nat, star: string)
    requires j < |flagged| && !Mentioned(flagged[..j], star) && !Contains(flagged[j], star)
    ensures !Mentioned(flagged[..j + 1], star)
  {
    assert flagged[..j + 1] == flagged[..j] + [flagged[j]];
  }

  /** Deciding one more star adds it exactly when a flagged text names it. */
  lemma InjuredStarsStep(done: set<string>, flagged: seq<string>, star: string)
    ensures InjuredStars(done + {star}, flagged) ==
      InjuredStars(done, flagged) + (if Mentioned(flagged, star) then {star} else {})
  {
  }

  // ---------------------------------------------------------------------
  // Game clock: `h:mm am|pm` searched anywhere in the status text
  // ---------------------------------------------------------------------

  /** The length of the run of digits starting at `i` (what a greedy `\d+`
      takes there). */
  function DigitRun(s: string, i: nat): (n: nat)
    requires i <= |s|
    ensures i + n <= |s|
    ensures forall k :: i <= k < i + n ==> IsDigit(s[k])
    ensures i + n == |s| || !IsDigit(s[i + n])
    decreases |s| - i
  {
    if i < |s| && IsDigit(s[i]) then 1 + DigitRun(s, i + 1) else 0
  }

  /** The length of the run of whitespace starting at `i` (what a greedy
      `\s+` takes there). */
  function SpaceRun(s: string, i: nat): (n: nat)
    requires i <= |s|
    ensures i + n <= |s|
    ensures forall k :: i <= k < i + n ==> IsSpace(s[k])
    ensures i + n == |s| || !IsSpace(s[i + n])
    decreases |s| - i
  {
    if i < |s| && IsSpace(s[i]) then 1 + SpaceRun(s, i + 1) else 0
  }

  /** What `int()` makes of a run of decimal digits. */
  function DecimalValue(ds: string): nat
    decreases |ds|
  {
    if ds == [] then 0
    else DecimalValue(ds[..|ds| - 1]) * 10 + (ds[|ds| - 1] as int - '0' as int) % 10
  }

  predicate IsAmPmLetter(c: char) {
    c == 'a' || c == 'A' || c == 'p' || c == 'P'
  }

  predicate IsMLetter(c: char) {
    c == 'm' || c == 'M'
  }

  /** The three groups of a match: hour, minute and whether it says pm. */
  datatype ClockMatch = ClockMatch(hour: nat, minute: nat, pm: bool)

  /** The match of `(\d+):(\d+)\s+(am|pm)`, case-insensitive, starting at
      `i`, if there is one. Every part is a greedy run that backtracking
      cannot shorten (the next part never starts with a digit or a space),
      so the match at a position is unique. */
  function MatchAt(s: string, i: nat): Option<ClockMatch>
    requires i <= |s|
  {
    var a := DigitRun(s, i);
    if a == 0 || i + a >= |s| || s[i + a] != ':' then None
    else
      var b := DigitRun(s, i + a + 1);
      if b == 0 then None
      else
        var c := SpaceRun(s, i + a + 1 + b);
        if c == 0 then None else AmPmAfter(s, i, a, b, c)
  }

  /** The end of a match whose runs have been measured: am or pm, in either
      case, right after the spaces. */
  function AmPmAfter(s: string, i: nat, a: nat, b: nat, c: nat): Option<ClockMatch>
    requires i + a + 1 + b + c <= |s|
  {
    var p := i + a + 1 + b + c;
    if p + 2 > |s| || !IsAmPmLetter(s[p]) || !IsMLetter(s[p + 1]) then None
    else Some(Groups(s, i, a, b, c))
  }

  /** The pattern read literally: it matches at `i` with an hour of `a`
      digits, a minute of `b` digits and `c` spaces before am/pm. */
  ghost predicate PatternAt(s: string, i: nat, a: nat, b: nat, c: nat) {
    var j := i + a + 1;
    var p := j + b + c;
    1 <= a && 1 <= b && 1 <= c && p + 2 <= |s|
    && (forall k :: i <= k < i + a ==> IsDigit(s[k]))
    && s[i + a] == ':'
    && (forall k :: j <= k < j + b ==> IsDigit(s[k]))
    && (forall k :: j + b <= k < p ==> IsSpace(s[k]))
    && IsAmPmLetter(s[p]) && IsMLetter(s[p + 1])
  }

  /** The groups that a pattern match with these lengths captures. */
  function Groups(s: string, i: nat, a: nat, b: nat, c: nat): ClockMatch
    requires i + a + 1 + b + c + 2 <= |s|
  {
    var j := i + a + 1;
    var p := j + b + c;
    ClockMatch(DecimalValue(s[i..i + a]), DecimalValue(s[j..j + b]), s[p] == 'p' || s[p] == 'P')
  }

  lemma {:induction false} DigitRunExact(s: string, i: nat, a: nat)
    requires i + a <= |s|
    requires forall k :: i <= k < i + a ==> IsDigit(s[k])
    requires i + a == |s| || !IsDigit(s[i + a])
    ensures DigitRun(s, i) == a
    decreases a
  {
    if a > 0 {
      DigitRunExact(s, i + 1, a - 1);
    }
  }

  lemma {:induction false} SpaceRunExact(s: string, i: nat, c: nat)
    requires i + c <= |s|
    requires forall k :: i <= k < i + c ==> IsSpace(s[k])
    requires i + c == |s| || !IsSpace(s[i + c])
    ensures SpaceRun(s, i) == c
    decreases c
  {
    if c > 0 {
      SpaceRunExact(s, i + 1, c - 1);
    }
  }

  lemma SpaceIsNoDigit(c: char)
    requires IsSpace(c)
    ensures !IsDigit(c)
  {
  }

  lemma AmPmIsNoSpace(c: char)
    requires IsAmPmLetter(c)
    ensures !IsSpace(c)
  {
  }

  /** Whatever lengths the pattern matches with, the scanner finds that
      match and captures the same groups. */
  lemma MatchAtComplete(s: string, i: nat, a: nat, b: nat, c: nat)
    requires PatternAt(s, i, a, b, c)
    ensures MatchAt(s, i) == Some(Groups(s, i, a, b, c))
  {
    var j := i + a + 1;
    var p := j + b + c;
    DigitRunExact(s, i, a);
    SpaceIsNoDigit(s[j + b]);
    DigitRunExact(s, j, b);
    AmPmIsNoSpace(s[p]);
    SpaceRunExact(s, j + b, c);
    MatchAtFromRuns(s, i, a, b, c);
  }

  /** Once the three runs are measured, the scanner's answer is the am/pm
      check after them. */
  lemma MatchAtFromRuns(s: string, i: nat, a: nat, b: nat, c: nat)
    requires i + a + 1 + b + c + 2 <= |s|
    requires DigitRun(s, i) == a && 1 <= a && s[i + a] == ':'
    requires DigitRun(s, i + a + 1) == b && 1 <= b
    requires SpaceRun(s, i + a + 1 + b) == c && 1 <= c
    requires IsAmPmLetter(s[i + a + 1 + b + c]) && IsMLetter(s[i + a + 1 + b + c + 1])
    ensures MatchAt(s, i) == Some(Groups(s, i, a, b, c))
  {
    assert AmPmAfter(s, i, a, b, c) == Some(Groups(s, i, a, b, c));
  }

  /** Every match the scanner reports is a match of the pattern. */
  lemma MatchAtSound(s: string, i: nat)
    requires i <= |s| && MatchAt(s, i).Some?
    ensures exists a, b, c :: PatternAt(s, i, a, b, c) && MatchAt(s, i) == Some(Groups(s, i, a, b, c))
  {
    var a := DigitRun(s, i);
    assert 1 <= a && i + a < |s| && s[i + a] == ':';
    var b := DigitRun(s, i + a + 1);
    assert 1 <= b;
    var c := SpaceRun(s, i + a + 1 + b);
    assert 1 <= c;
    var p := i + a + 1 + b + c;
    assert p + 2 <= |s| && IsAmPmLetter(s[p]) && IsMLetter(s[p + 1]);
    assert MatchAt(s, i) == Some(Groups(s, i, a, b, c));
    assert PatternAt(s, i, a, b, c);
  }

  /** No match starts at a position in `[i, j)`. */
  ghost predicate NoMatchIn(s: string, i: nat, j: nat)
    requires j <= |s|
  {
    forall k :: i <= k < j ==> MatchAt(s, k).None?
  }

  /** `re.search` from position `i` on: the leftmost match at or after `i`. */
  function SearchFrom(s: string, i: nat): (r: Option<ClockMatch>)
    requires i <= |s|
    ensures r.Some? ==> exists j :: i <= j < |s| && MatchAt(s, j) == r && NoMatchIn(s, i, j)
    ensures r.None? ==> NoMatchIn(s, i, |s|)
    decreases |s| - i
  {
    if i == |s| then None
    else
      var here := MatchAt(s, i);
      if here.Some? then
        assert NoMatchIn(s, i, i);
        here
      else
        var r := SearchFrom(s, i + 1);
        SearchStep(s, i, r);
        r
  }

  /** A position without a match extends the match-free stretch after it. */
  lemma SearchStep(s: string, i: nat, r: Option<ClockMatch>)
    requires i < |s| && MatchAt(s, i).None?
    requires r.Some? ==> exists j :: i + 1 <= j < |s| && MatchAt(s, j) == r && NoMatchIn(s, i + 1, j)
    requires r.None? ==> NoMatchIn(s, i + 1, |s|)
    ensures r.Some? ==> exists j :: i <= j < |s| && MatchAt(s, j) == r && NoMatchIn(s, i, j)
    ensures r.None? ==> NoMatchIn(s, i, |s|)
  {
    if r.Some? {
      var j :| i + 1 <= j < |s| && MatchAt(s, j) == r && NoMatchIn(s, i + 1, j);
      assert NoMatchIn(s, i, j);
    }
  }

  /** `re.search`: the leftmost match in `s`. */
  function SearchClock(s: string): (r: Option<ClockMatch>)
    ensures r.Some? ==> exists j :: 0 <= j < |s| && MatchAt(s, j) == r && NoMatchIn(s, 0, j)
    ensures r.None? ==> NoMatchIn(s, 0, |s|)
  {
    SearchFrom(s, 0)
  }

  /** The 12-hour reading of an hour: pm adds twelve except to 12, and
      12 am is hour 0. */
  function To24Hour(hour: nat, pm: bool): (h: nat)
    ensures 1 <= hour <= 12 ==> h <= 23 && (h >= 12 <==> pm) && h % 12 == hour % 12
  {
    if pm && hour != 12 then hour + 12
    else if !pm && hour == 12 then 0
    else hour
  }

  /** Distinct clock readings give distinct hours. */
  lemma To24HourInjective(hour: nat, pm: bool, hour': nat, pm': bool)
    requires 1 <= hour <= 12 && 1 <= hour' <= 12
    requires To24Hour(hour, pm) == To24Hour(hour', pm')
    ensures hour == hour' && pm == pm'
  {
  }

  /** The game time read from the status text: passed through unchanged,
      an Eastern clock time, or the parse failure `strptime` raises for an
      hour past 23 or a minute past 59. */
  datatype ClockTime = PassThrough(text: string) | Eastern(hour: nat, minute: nat) | ParseError

  /** The clock part of the time conversion, up to the Eastern wall-clock
      time that is then shifted to Indian time. */
  function ConvertEtString(timeStr: string): (r: ClockTime)
    ensures timeStr == [] || Contains(timeStr, "Final") ==> r == PassThrough(timeStr)
    ensures NoMatchIn(timeStr, 0, |timeStr|) ==> r == PassThrough(timeStr)
    ensures r.PassThrough? ==> r.text == timeStr
    ensures r.Eastern? ==> r.hour <= 23 && r.minute <= 59
  {
    if timeStr == [] || Contains(timeStr, "Final") then PassThrough(timeStr)
    else
      match SearchClock(timeStr)
      case None => PassThrough(timeStr)
      case Some(m) =>
        var h := To24Hour(m.hour, m.pm);
        if h <= 23 && m.minute <= 59 then Eastern(h, m.minute) else ParseError
  }

  /** The result of the leftmost match decides the conversion. */
  lemma ConvertLeftmostMatch(timeStr: string, j: nat, m: ClockMatch)
    requires timeStr != [] && !Contains(timeStr, "Final")
    requires j < |timeStr| && MatchAt(timeStr, j) == Some(m)
    requires NoMatchIn(timeStr, 0, j)
    ensures ConvertEtString(timeStr) ==
      if To24Hour(m.hour, m.pm) <= 23 && m.minute <= 59 then Eastern(To24Hour(m.hour, m.pm), m.minute)
      else ParseError
  {
    SearchFindsLeftmost(timeStr, j, m);
  }

  /** The search reports the match at the first position that has one. */
  lemma SearchFindsLeftmost(s: string, j: nat, m: ClockMatch)
    requires j < |s| && MatchAt(s, j) == Some(m) && NoMatchIn(s, 0, j)
    ensures SearchClock(s) == Some(m)
  {
    var r := SearchClock(s);
    if r.None? {
      assert false;
    } else {
      var j' :| 0 <= j' < |s| && MatchAt(s, j') == r && NoMatchIn(s, 0, j');
      if j' != j {
        assert false;
      }
    }
  }

  /** Text without a colon never holds a clock time and passes through. */
  lemma NoColonPassesThrough(timeStr: string)
    requires forall k :: 0 <= k < |timeStr| ==> timeStr[k] != ':'
    ensures ConvertEtString(timeStr) == PassThrough(timeStr)
  {
    forall k | 0 <= k < |timeStr| ensures MatchAt(timeStr, k).None? {
    }
    assert NoMatchIn(timeStr, 0, |timeStr|);
  }

  /** A text whose clock time starts it converts by that time. */
  lemma ConvertAtStart(t: string, a: nat, b: nat, c: nat, m: ClockMatch)
    requires PatternAt(t, 0, a, b, c) && Groups(t, 0, a, b, c) == m
    requires !Contains(t, "Final")
    ensures ConvertEtString(t) ==
      if To24Hour(m.hour, m.pm) <= 23 && m.minute <= 59 then Eastern(To24Hour(m.hour, m.pm), m.minute)
      else ParseError
  {
    MatchAtComplete(t, 0, a, b, c);
    ConvertLeftmostMatch(t, 0, m);
  }

  /** The value of a one-digit numeral. */
  lemma OneDigitValue(ds: string)
    requires |ds| == 1
    ensures DecimalValue(ds) == (ds[0] as int - '0' as int) % 10
  {
    assert ds[..0] == [];
  }

  /** The value of a two-digit numeral. */
  lemma TwoDigitValue(ds: string)
    requires |ds| == 2
    ensures DecimalValue(ds) == ((ds[0] as int - '0' as int) % 10) * 10 + (ds[1] as int - '0' as int) % 10
  {
    var init := ds[..1];
    assert init[0] == ds[0];
    OneDigitValue(init);
  }

  lemma EveningPattern()
    ensures PatternAt("7:30 pm ET", 0, 1, 2, 1)
    ensures Groups("7:30 pm ET", 0, 1, 2, 1) == ClockMatch(7, 30, true)
  {
    var t := "7:30 pm ET";
    OneDigitValue(t[0..1]);
    TwoDigitValue(t[2..4]);
  }

  /** An evening tip-off: "7:30 pm ET" reads as 19:30 Eastern. */
  lemma ConvertEveningExample()
    ensures ConvertEtString("7:30 pm ET") == Eastern(19, 30)
  {
    EveningPattern();
    NoFirstLetter("7:30 pm ET", "Final");
    ConvertAtStart("7:30 pm ET", 1, 2, 1, ClockMatch(7, 30, true));
  }

  lemma MidnightPattern()
    ensures PatternAt("12:05 AM", 0, 2, 2, 1)
    ensures Groups("12:05 AM", 0, 2, 2, 1) == ClockMatch(12, 5, false)
  {
    var t := "12:05 AM";
    TwoDigitValue(t[0..2]);
    TwoDigitValue(t[3..5]);
  }

  /** Midnight: "12:05 AM" reads as 0:05 Eastern. */
  lemma ConvertMidnightExample()
    ensures ConvertEtString("12:05 AM") == Eastern(0, 5)
  {
    MidnightPattern();
    NoFirstLetter("12:05 AM", "Final");
    ConvertAtStart("12:05 AM", 2, 2, 1, ClockMatch(12, 5, false));
  }

  lemma OutOfRangePattern()
    ensures PatternAt("13:00 pm", 0, 2, 2, 1)
    ensures Groups("13:00 pm", 0, 2, 2, 1) == ClockMatch(13, 0, true)
  {
    var t := "13:00 pm";
    TwoDigitValue(t[0..2]);
    TwoDigitValue(t[3..5]);
  }

  /** "13:00 pm" becomes hour 25, which `strptime` rejects. */
  lemma ConvertOutOfRangeExample()
    ensures ConvertEtString("13:00 pm") == ParseError
  {
    OutOfRangePattern();
    NoFirstLetter("13:00 pm", "Final");
    ConvertAtStart("13:00 pm", 2, 2, 1, ClockMatch(13, 0, true));
  }

  /** A finished game's status passes through. */
  lemma ConvertFinalExample()
    ensures ConvertEtString("Final/OT") == PassThrough("Final/OT")
  {
    assert OccursAt("Final", "Final/OT", 0);
  }

  /** A text without the first letter of `needle` does not contain it. */
  lemma NoFirstLetter(hay: string, needle: string)
    requires needle != [] && forall k :: 0 <= k < |hay| ==> hay[k] != needle[0]
    ensures !Contains(hay, needle)
  {
    forall i | 0 <= i <= |hay| - |needle| ensures !OccursAt(needle, hay, i) {
      assert hay[i..i + |needle|][0] == hay[i];
    }
  }

  // ---------------------------------------------------------------------
  // Schedule enrichment
  // ---------------------------------------------------------------------

  /** A row of the day's game header: the two team ids and the status
      text that carries the tip-off time. */
  datatype GameRow = GameRow(homeTeamId: int, visitorTeamId: int, statusText: string)

  /** One enriched game. `score`, `pace` and `winPct` are the values before
      they are rounded for display. */
  datatype GameRecord = GameRecord(time: ClockTime, matchup: string, spread: real,
                                   stars: real, score: real, pace: real, winPct: real)

  /** The enriched schedule, or the row whose time `strptime` rejected
      (the error ends the whole call). */
  datatype Schedule = Games(records: seq<GameRecord>) | ClockFailure(row: nat)

  /** Everything the per-game loop looks up. */
  datatype Lookups = Lookups(teamAbbr: map<int, string>, stats: map<int, TeamStats>,
                             spreads: map<string, real>, injured: set<string>,
                             teamStars: map<string, seq<string>>, starPower: map<string, real>)

  /** A team's abbreviation, `UNK` for an id the team list does not know. */
  function AbbrOf(teamAbbr: map<int, string>, id: int): string {
    if id in teamAbbr then teamAbbr[id] else "UNK"
  }

  /** A team's statistics, a .500 record at pace 100 when it has none. */
  function StatsOf(stats: map<int, TeamStats>, id: int): TeamStats {
    if id in stats then stats[id] else TeamStats(0.5, 100.0)
  }

  /** The spread of a game, by its home team; 10 when there is none. */
  function SpreadOf(spreads: map<string, real>, home: string): real {
    if home in spreads then spreads[home] else 10.0
  }

  /** The record the loop appends for one game, with the tip-off time
      `time` already converted. */
  function RecordWith(time: ClockTime, row: GameRow, lk: Lookups): GameRecord {
    var home := AbbrOf(lk.teamAbbr, row.homeTeamId);
    var away := AbbrOf(lk.teamAbbr, row.visitorTeamId);
    var h := StatsOf(lk.stats, row.homeTeamId);
    var a := StatsOf(lk.stats, row.visitorTeamId);
    var spread := SpreadOf(lk.spreads, home);
    var winPct := (h.winPct + a.winPct) / 2.0;
    var pace := (h.pace + a.pace) / 2.0;
    var stars := StarTotal(TeamStarList(lk.teamStars, home), lk.starPower, lk.injured)
               + StarTotal(TeamStarList(lk.teamStars, away), lk.starPower, lk.injured);
    GameRecord(time, away + " @ " + home, spread, stars,
               ExcitementScore(spread, winPct, stars), pace, winPct)
  }

  /** The record the loop appends for one game. */
  function GameRecordFor(row: GameRow, lk: Lookups): GameRecord {
    RecordWith(ConvertEtString(row.statusText), row, lk)
  }

  /** The records of a list of games, stopping at the first one whose time
      failed to parse: `ClockFailure(k)` names that record's position. */
  function Collect(recs: seq<GameRecord>): Schedule
    decreases |recs|
  {
    if recs == [] then Games([])
    else
      match Collect(recs[..|recs| - 1])
      case ClockFailure(r) => ClockFailure(r)
      case Games(rs) =>
        if recs[|recs| - 1].time.ParseError? then ClockFailure(|recs| - 1)
        else Games(rs + [recs[|recs| - 1]])
  }

  lemma CollectStep(recs: seq<GameRecord>, i: nat)
    requires i < |recs|
    ensures Collect(recs[..i + 1]) ==
      match Collect(recs[..i])
      case ClockFailure(r) => ClockFailure(r)
      case Games(rs) => if recs[i].time.ParseError? then ClockFailure(i) else Games(rs + [recs[i]])
  {
    assert recs[..i + 1][..i] == recs[..i];
  }

  /** A record whose time parsed is appended to what was kept so far. */
  lemma CollectNext(recs: seq<GameRecord>, i: nat, kept: seq<GameRecord>)
    requires i < |recs| && Collect(recs[..i]) == Games(kept) && !recs[i].time.ParseError?
    ensures Collect(recs[..i + 1]) == Games(kept + [recs[i]])
  {
    CollectStep(recs, i);
  }

  /** The first record whose time failed decides the whole result. */
  lemma CollectStop(recs: seq<GameRecord>, i: nat, kept: seq<GameRecord>)
    requires i < |recs| && Collect(recs[..i]) == Games(kept) && recs[i].time.ParseError?
    ensures Collect(recs) == ClockFailure(i)
  {
    CollectStep(recs, i);
    CollectFailureSticks(recs, i + 1);
  }

  /** Once a record fails, the records after it change nothing. */
  lemma {:induction false} CollectFailureSticks(recs: seq<GameRecord>, n: nat)
    requires n <= |recs| && Collect(recs[..n]).ClockFailure?
    ensures Collect(recs) == Collect(recs[..n])
    decreases |recs| - n
  {
    if n < |recs| {
      CollectStep(recs, n);
      CollectFailureSticks(recs, n + 1);
    } else {
      assert recs[..n] == recs;
    }
  }

  /** No record before position `n` failed to parse its time. */
  ghost predicate CleanBefore(recs: seq<GameRecord>, n: int) {
    forall i :: 0 <= i < n && i < |recs| ==> !recs[i].time.ParseError?
  }

  /** Without a failed time every record of a prefix is kept, in order. */
  lemma {:induction false} CollectClean(recs: seq<GameRecord>, k: nat)
    requires k <= |recs| && CleanBefore(recs, k)
    ensures Collect(recs[..k]) == Games(recs[..k])
    decreases k
  {
    if k > 0 {
      CollectClean(recs, k - 1);
      CollectStep(recs, k - 1);
      assert recs[..k - 1] + [recs[k - 1]] == recs[..k];
    }
  }

  /** The first record whose time failed is the one reported. */
  lemma CollectFirstFailure(recs: seq<GameRecord>, k: nat)
    requires k < |recs| && recs[k].time.ParseError? && CleanBefore(recs, k)
    ensures Collect(recs) == ClockFailure(k)
  {
    CollectClean(recs, k);
    CollectStep(recs, k);
    CollectFailureSticks(recs, k + 1);
  }

  /** A failed record has a first failed record at or before it. */
  lemma {:induction false} FirstFailure(recs: seq<GameRecord>, i: nat)
    requires i < |recs| && recs[i].time.ParseError?
    ensures exists k :: 0 <= k <= i && recs[k].time.ParseError? && CleanBefore(recs, k)
    decreases i
  {
    if !CleanBefore(recs, i) {
      var j :| 0 <= j < i && recs[j].time.ParseError?;
      FirstFailure(recs, j);
    }
  }

  /** Without a clock failure every record is kept, in order; otherwise the
      failure names the first record whose time failed. */
  lemma CollectShape(recs: seq<GameRecord>)
    ensures Collect(recs).Games? <==> forall i :: 0 <= i < |recs| ==> !recs[i].time.ParseError?
    ensures Collect(recs).Games? ==> Collect(recs).records == recs
    ensures Collect(recs).ClockFailure? ==>
      Collect(recs).row < |recs| && recs[Collect(recs).row].time.ParseError? &&
      forall i :: 0 <= i < Collect(recs).row ==> !recs[i].time.ParseError?
  {
    if CleanBefore(recs, |recs|) {
      CollectClean(recs, |recs|);
      assert recs[..|recs|] == recs;
    } else {
      var i :| 0 <= i < |recs| && recs[i].time.ParseError?;
      FirstFailure(recs, i);
      var k :| 0 <= k <= i && recs[k].time.ParseError? && CleanBefore(recs, k);
      CollectFirstFailure(recs, k);
    }
  }

  /** The record of each game row, in row order. */
  function Records(games: seq<GameRow>, lk: Lookups): (recs: seq<GameRecord>)
    ensures |recs| == |games|
  {
    seq(|games|, i requires 0 <= i < |games| => GameRecordFor(games[i], lk))
  }

  /** Record `i` is the record of row `i`. */
  lemma RecordsAt(games: seq<GameRow>, lk: Lookups, i: nat)
    requires i < |games|
    ensures Records(games, lk)[i] == GameRecordFor(games[i], lk)
  {
  }

  /** The loop over the game rows: one record per row, the whole call
      failing at the first row whose time cannot be parsed. */
  function Enrich(games: seq<GameRow>, lk: Lookups): Schedule {
    Collect(Records(games, lk))
  }

  /** Without clock failures there is one record per game row, in row
      order; otherwise the failure names the first row whose time fails. */
  lemma EnrichShape(games: seq<GameRow>, lk: Lookups)
    ensures Enrich(games, lk).Games? <==>
      forall i :: 0 <= i < |games| ==> !ConvertEtString(games[i].statusText).ParseError?
    ensures Enrich(games, lk).Games? ==>
      |Enrich(games, lk).records| == |games| &&
      forall i :: 0 <= i < |games| ==> Enrich(games, lk).records[i] == GameRecordFor(games[i], lk)
    ensures Enrich(games, lk).ClockFailure? ==>
      Enrich(games, lk).row < |games| && ConvertEtString(games[Enrich(games, lk).row].statusText).ParseError? &&
      forall i :: 0 <= i < Enrich(games, lk).row ==> !ConvertEtString(games[i].statusText).ParseError?
  {
    var recs := Records(games, lk);
    CollectShape(recs);
    forall i | 0 <= i < |games|
      ensures recs[i] == GameRecordFor(games[i], lk)
      ensures recs[i].time == ConvertEtString(games[i].statusText)
    {
      RecordsAt(games, lk, i);
    }
  }

  /** The lookups the enrichment uses, from the fetched inputs. */
  function LookupsFor(teamTable: Option<TeamStatsTable>, apiKey: string, odds: Odds.OddsResponse,
                      report: InjuryReport, teamAbbr: map<int, string>,
                      starPower: map<string, real>, teamStars: map<string, seq<string>>): Lookups {
    Lookups(teamAbbr, TeamStatsOf(teamTable), Odds.SpreadsFor(apiKey, odds),
            InjuredPlayersOf(report, starPower), teamStars, starPower)
  }

  /** The body of the per-game loop: looks up both teams, the home team's
      spread and the star scores (through the star-score method, as the
      loop calls it), and converts the tip-off time. It computes, step by
      step, the record that `GameRecordFor` defines; its contract is that
      the two agree. */
  method ScoreGame(row: GameRow, teamAbbr: map<int, string>, stats: map<int, TeamStats>,
                   spreads: map<string, real>, injured: set<string>,
                   teamStars: map<string, seq<string>>, starPower: map<string, real>)
    returns (rec: GameRecord)
    ensures rec == GameRecordFor(row, Lookups(teamAbbr, stats, spreads, injured, teamStars, starPower))
  {
    var home := AbbrOf(teamAbbr, row.homeTeamId);
    var away := AbbrOf(teamAbbr, row.visitorTeamId);
    var h := StatsOf(stats, row.homeTeamId);
    var a := StatsOf(stats, row.visitorTeamId);
    var spread := SpreadOf(spreads, home);
    var winPct := (h.winPct + a.winPct) / 2.0;
    var pace := (h.pace + a.pace) / 2.0;
    var hStars := GetStarScore(home, injured, teamStars, starPower);
    var aStars := GetStarScore(away, injured, teamStars, starPower);
    var stars := hStars + aStars;
    var score := ExcitementScore(spread, winPct, stars);
    var time := ConvertEtString(row.statusText);
    rec := GameRecord(time, away + " @ " + home, spread, stars, score, pace, winPct);
  }

  /** The enriched schedule for the day's game rows. An empty schedule
      returns at once; otherwise the statistics, spreads and injuries are
      fetched once and each row becomes one record. */
  method GetScheduleWithStats(games: seq<GameRow>, teamTable: Option<TeamStatsTable>,
                              apiKey: string, odds: Odds.OddsResponse, report: InjuryReport,
                              teamAbbr: map<int, string>, starPower: map<string, real>,
                              teamStars: map<string, seq<string>>)
    returns (schedule: Schedule)
    ensures schedule == Enrich(games, LookupsFor(teamTable, apiKey, odds, report, teamAbbr, starPower, teamStars))
    ensures games == [] ==> schedule == Games([])
  {
    if games == [] {
      return Games([]);
    }
    var stats := GetTeamStats(teamTable);
    var spreads := Odds.GetBettingSpreads(apiKey, odds);
    var injured := GetInjuredPlayers(report, starPower);
    schedule := EnrichRows(games, teamAbbr, stats, spreads, injured, teamStars, starPower);
  }

  /** The per-game loop: one record per row, stopping at the first row whose
      time `strptime` rejects. */
  method EnrichRows(games: seq<GameRow>, teamAbbr: map<int, string>, stats: map<int, TeamStats>,
                    spreads: map<string, real>, injured: set<string>,
                    teamStars: map<string, seq<string>>, starPower: map<string, real>)
    returns (schedule: Schedule)
    ensures schedule == Enrich(games, Lookups(teamAbbr, stats, spreads, injured, teamStars, starPower))
  {
    ghost var lk := Lookups(teamAbbr, stats, spreads, injured, teamStars, starPower);
    ghost var recs := Records(games, lk);
    var enriched: seq<GameRecord> := [];
    var i := 0;
    while i < |games|
      invariant 0 <= i <= |games|
      invariant Collect(recs[..i]) == Games(enriched)
    {
      RecordsAt(games, lk, i);
      var rec := ScoreGame(games[i], teamAbbr, stats, spreads, injured, teamStars, starPower);
      if rec.time.ParseError? {
        CollectStop(recs, i, enriched);
        return ClockFailure(i);
      }
      CollectNext(recs, i, enriched);
      enriched := enriched + [rec];
      i := i + 1;
    }
    assert recs[..i] == recs;
    schedule := Games(enriched);
  }

  /** A game between two teams the lookups know nothing about is scored
      with every default, whatever its time: a 10-point spread, a .500
      record, pace 100 and no stars, for a score of 25. */
  lemma UnknownTeamsGetDefaults(time: ClockTime, row: GameRow, lk: Lookups)
    requires row.homeTeamId !in lk.teamAbbr && row.visitorTeamId !in lk.teamAbbr
    requires row.homeTeamId !in lk.stats && row.visitorTeamId !in lk.stats
    requires "UNK" !in lk.spreads && "UNK" !in lk.teamStars
    ensures RecordWith(time, row, lk).matchup == "UNK @ UNK"
    ensures RecordWith(time, row, lk).spread == 10.0
    ensures RecordWith(time, row, lk).winPct == 0.5 && RecordWith(time, row, lk).pace == 100.0
    ensures RecordWith(time, row, lk).stars == 0.0
    ensures RecordWith(time, row, lk).score == 25.0
  {
    assert AbbrOf(lk.teamAbbr, row.homeTeamId) == "UNK" && AbbrOf(lk.teamAbbr, row.visitorTeamId) == "UNK";
    assert StatsOf(lk.stats, row.homeTeamId) == TeamStats(0.5, 100.0);
    assert StatsOf(lk.stats, row.visitorTeamId) == TeamStats(0.5, 100.0);
    assert TeamStarList(lk.teamStars, "UNK") == [];
    assert StarTotal([], lk.starPower, lk.injured) == 0.0;
    assert SpreadScore(10.0) == 10.0 && QualityScore(0.5) == 15.0 && StarFactor(0.0) == 0.0;
  }

  /** A game whose away team the lookups know nothing about takes the
      defaults for that side only: the matchup starts with `UNK`, the
      away side counts as a .500 team at pace 100 and adds no stars. */
  lemma UnknownAwayTeamDefaults(time: ClockTime, row: GameRow, lk: Lookups)
    requires row.visitorTeamId !in lk.teamAbbr && row.visitorTeamId !in lk.stats
    requires "UNK" !in lk.teamStars
    ensures var home := AbbrOf(lk.teamAbbr, row.homeTeamId);
            var h := StatsOf(lk.stats, row.homeTeamId);
            var r := RecordWith(time, row, lk);
            r.matchup == "UNK @ " + home
            && r.winPct == (h.winPct + 0.5) / 2.0 && r.pace == (h.pace + 100.0) / 2.0
            && r.spread == SpreadOf(lk.spreads, home)
            && r.stars == StarTotal(TeamStarList(lk.teamStars, home), lk.starPower, lk.injured)
  {
    assert TeamStarList(lk.teamStars, "UNK") == [];
  }

  /** The odds adapter never files a spread under `UNK`, so a game whose
      home team is unknown always gets the default spread. */
  lemma UnknownHomeTeamDefaultSpread(apiKey: string, odds: Odds.OddsResponse, time: ClockTime, row: GameRow, lk: Lookups)
    requires lk.spreads == Odds.SpreadsFor(apiKey, odds)
    requires row.homeTeamId !in lk.teamAbbr
    ensures RecordWith(time, row, lk).spread == 10.0
  {
    Odds.NoSpreadForUnknown(apiKey, odds);
  }

  /** With win percentages in [0, 1] and no negative star power, a game
      scores between 0 and 90, its combined record stays in [0, 1] and its
      star total is not negative. */
  lemma GameScoreInRange(time: ClockTime, row: GameRow, lk: Lookups)
    requires forall id :: id in lk.stats ==> 0.0 <= lk.stats[id].winPct <= 1.0
    requires NonNegativePower(lk.starPower)
    ensures 0.0 <= RecordWith(time, row, lk).winPct <= 1.0
    ensures RecordWith(time, row, lk).stars >= 0.0
    ensures 0.0 <= RecordWith(time, row, lk).score <= 90.0
  {
    var home := AbbrOf(lk.teamAbbr, row.homeTeamId);
    var away := AbbrOf(lk.teamAbbr, row.visitorTeamId);
    StarTotalNonNegative(TeamStarList(lk.teamStars, home), lk.starPower, lk.injured);
    StarTotalNonNegative(TeamStarList(lk.teamStars, away), lk.starPower, lk.injured);
  }

  /** Swapping home and away leaves the star total, the combined record
      and the pace unchanged and mirrors the matchup. */
  lemma SwapHomeAndAway(time: ClockTime, row: GameRow, lk: Lookups)
    ensures var r := RecordWith(time, row, lk);
            var s := RecordWith(time, GameRow(row.visitorTeamId, row.homeTeamId, row.statusText), lk);
            s.stars == r.stars && s.winPct == r.winPct && s.pace == r.pace
            && r.matchup == AbbrOf(lk.teamAbbr, row.visitorTeamId) + " @ " + AbbrOf(lk.teamAbbr, row.homeTeamId)
            && s.matchup == AbbrOf(lk.teamAbbr, row.homeTeamId) + " @ " + AbbrOf(lk.teamAbbr, row.visitorTeamId)
  {
  }
}
