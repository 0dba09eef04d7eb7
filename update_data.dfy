/**
 * The offline data refresh: team statistics keyed by abbreviation, per-game
 * fantasy points grouped into per-team rosters sorted best first, the
 * stripped names of the listed starters, and a timestamp, each section
 * falling back to an empty value when its fetch fails.
 */
module UpdateData {
  import opened Wrappers
  import opened Text
  import opened Collections

  // ---------------------------------------------------------------------
  // Team statistics
  // ---------------------------------------------------------------------

  /** A row of the team statistics table. */
  datatype TeamRow = TeamRow(abbr: string, eNetRating: real, ePace: real, wPct: real)

  /** What is stored for a team: `net_rating`, `pace` and `w_pct`. */
  datatype TeamEntry = TeamEntry(netRating: real, pace: real, wPct: real)

  function TeamEntryOf(row: TeamRow): TeamEntry {
    TeamEntry(row.eNetRating, row.ePace, row.wPct)
  }

  /** The assignments the loop makes, in row order. */
  function TeamPairs(rows: seq<TeamRow>): seq<(string, TeamEntry)>
  {
    seq(|rows|, i requires 0 <= i < |rows| => (rows[i].abbr, TeamEntryOf(rows[i])))
  }

  /** The team map the loop leaves behind. */
  function TeamDataOf(rows: seq<TeamRow>): map<string, TeamEntry> {
    DictOf(TeamPairs(rows))
  }

  /** `team_data[abbr] = {...}` for every row in turn. */
  method BuildTeamData(rows: seq<TeamRow>) returns (teamData: map<string, TeamEntry>)
    ensures teamData == TeamDataOf(rows)
  {
    ghost var pairs := TeamPairs(rows);
    teamData := map[];
    var i := 0;
    while i < |rows|
      invariant 0 <= i <= |rows|
      invariant teamData == DictOf(pairs[..i])
    {
      DictOfStep(pairs, i);
      teamData := teamData[rows[i].abbr := TeamEntryOf(rows[i])];
      i := i + 1;
    }
    assert pairs[..i] == pairs;
  }

  /** The map is keyed by exactly the abbreviations of the rows, and has no
      more entries than there are rows. */
  lemma TeamDataKeys(rows: seq<TeamRow>, abbr: string)
    ensures abbr in TeamDataOf(rows) <==> exists i :: 0 <= i < |rows| && rows[i].abbr == abbr
    ensures |TeamDataOf(rows)| <= |rows|
  {
    var pairs := TeamPairs(rows);
    if abbr in TeamDataOf(rows) {
      var i :| 0 <= i < |pairs| && pairs[i].0 == abbr;
      assert rows[i].abbr == abbr;
    }
    if exists i :: 0 <= i < |rows| && rows[i].abbr == abbr {
      var i :| 0 <= i < |rows| && rows[i].abbr == abbr;
      assert pairs[i].0 == abbr;
    }
  }

  /** A team's entry comes from its last row: a later row with the same
      abbreviation overwrites an earlier one. */
  lemma TeamDataLastRowWins(rows: seq<TeamRow>, i: nat)
    requires i < |rows|
    requires forall j :: i < j < |rows| ==> rows[j].abbr != rows[i].abbr
    ensures rows[i].abbr in TeamDataOf(rows)
    ensures TeamDataOf(rows)[rows[i].abbr] == TeamEntry(rows[i].eNetRating, rows[i].ePace, rows[i].wPct)
  {
    var pairs := TeamPairs(rows);
    forall j | i < j < |pairs| ensures pairs[j].0 != pairs[i].0 {
      assert rows[j].abbr != rows[i].abbr;
    }
    DictOfLastWins(pairs, i);
  }

  // ---------------------------------------------------------------------
  // Player fantasy points
  // ---------------------------------------------------------------------

  /** A row of the player statistics table: season totals and games played. */
  datatype PlayerRow = PlayerRow(name: string, team: string, pts: real, reb: real, ast: real,
                                 stl: real, blk: real, tov: real, gp: int)

  /** The fantasy-points formula over a player's totals. */
  function FantasyPoints(r: PlayerRow): real {
    r.pts + r.reb * 1.2 + r.ast * 1.5 + r.stl * 3.0 + r.blk * 3.0 - r.tov
  }

  /** More of any counting stat, or fewer turnovers, never lowers the
      fantasy points. */
  lemma FantasyPointsMonotone(r: PlayerRow, r': PlayerRow)
    requires r.pts <= r'.pts && r.reb <= r'.reb && r.ast <= r'.ast
    requires r.stl <= r'.stl && r.blk <= r'.blk && r'.tov <= r.tov
    ensures FantasyPoints(r) <= FantasyPoints(r')
  {
  }

  /** Each stat's weight: one point, 1.2 per rebound, 1.5 per assist, 3 per
      steal or block, minus one per turnover. */
  lemma FantasyPointsWeights(r: PlayerRow, d: real)
    ensures FantasyPoints(r.(pts := r.pts + d)) == FantasyPoints(r) + d
    ensures FantasyPoints(r.(reb := r.reb + d)) == FantasyPoints(r) + 1.2 * d
    ensures FantasyPoints(r.(ast := r.ast + d)) == FantasyPoints(r) + 1.5 * d
    ensures FantasyPoints(r.(stl := r.stl + d)) == FantasyPoints(r) + 3.0 * d
    ensures FantasyPoints(r.(blk := r.blk + d)) == FantasyPoints(r) + 3.0 * d
    ensures FantasyPoints(r.(tov := r.tov + d)) == FantasyPoints(r) - d
  {
  }

  /** The games-played guard: the games played when positive, otherwise 1,
      so the division that follows is always defined. */
  function GamesDivisor(gp: int): (d: int)
    ensures d >= 1
    ensures gp >= 1 ==> d == gp
    ensures gp < 1 ==> d == 1
  {
    if gp > 0 then gp else 1
  }

  /** A player's fantasy points per game, before rounding. */
  function PerGame(r: PlayerRow): (fp: real)
    ensures r.gp >= 1 ==> fp * r.gp as real == FantasyPoints(r)
    ensures r.gp < 1 ==> fp == FantasyPoints(r)
  {
    FantasyPoints(r) / GamesDivisor(r.gp) as real
  }

  /** `round(x, 1)` on the exact value: the nearest multiple of 0.1, a
      tie going to the even multiple. */
  function RoundTenth(x: real): (r: real)
    ensures -0.05 <= r - x <= 0.05
    ensures (r * 10.0).Floor as real == r * 10.0
    ensures x * 10.0 - (x * 10.0).Floor as real == 0.5 ==> (r * 10.0).Floor % 2 == 0
  {
    var n := (x * 10.0).Floor;
    var frac := x * 10.0 - n as real;
    var k := if frac > 0.5 || (frac == 0.5 && n % 2 != 0) then n + 1 else n;
    k as real / 10.0
  }

  /** The `{'name', 'fp'}` record appended to a roster: the per-game value
      rounded to a tenth, which is also the key the roster is sorted on. */
  datatype PlayerEntry = PlayerEntry(name: string, fp: real)

  function EntryOf(r: PlayerRow): PlayerEntry {
    PlayerEntry(r.name, RoundTenth(PerGame(r)))
  }

  /** The appends the loop makes, in row order: each row's entry under its
      team. */
  function PlayerPairs(rows: seq<PlayerRow>): seq<(string, PlayerEntry)>
  {
    seq(|rows|, i requires 0 <= i < |rows| => (rows[i].team, EntryOf(rows[i])))
  }

  // ---------------------------------------------------------------------
  // The roster sort: `list.sort(key=fp, reverse=True)`, stable, best first
  // ---------------------------------------------------------------------

  predicate SortedDesc(s: seq<PlayerEntry>) {
    forall i, j :: 0 <= i < j < |s| ==> s[i].fp >= s[j].fp
  }

  /** `x` placed before the first entry whose fp is not above its own. */
  function Insert(x: PlayerEntry, s: seq<PlayerEntry>): (r: seq<PlayerEntry>)
    ensures |r| == |s| + 1
    ensures multiset(r) == multiset(s) + multiset{x}
    decreases |s|
  {
    if s == [] || s[0].fp <= x.fp then [x] + s
    else
      assert s == [s[0]] + s[1..];
      [s[0]] + Insert(x, s[1..])
  }

  /** The entries in descending fp order; entries with equal fp keep their
      relative order. */
  function SortByFpDesc(xs: seq<PlayerEntry>): (r: seq<PlayerEntry>)
    ensures |r| == |xs|
    ensures multiset(r) == multiset(xs)
    decreases |xs|
  {
    if xs == [] then []
    else
      assert xs == [xs[0]] + xs[1..];
      Insert(xs[0], SortByFpDesc(xs[1..]))
  }

  lemma {:induction false} InsertSorted(x: PlayerEntry, s: seq<PlayerEntry>)
    requires SortedDesc(s)
    ensures SortedDesc(Insert(x, s))
    decreases |s|
  {
    if s == [] || s[0].fp <= x.fp {
      var r := [x] + s;
      forall i, j | 0 <= i < j < |r| ensures r[i].fp >= r[j].fp {
        if i == 0 {
          assert r[j] == s[j - 1];
          assert s[0].fp >= s[j - 1].fp || j == 1;
        } else {
          assert r[i] == s[i - 1] && r[j] == s[j - 1];
        }
      }
    } else {
      var t := s[1..];
      assert SortedDesc(t) by {
        forall i, j | 0 <= i < j < |t| ensures t[i].fp >= t[j].fp {
          assert t[i] == s[i + 1] && t[j] == s[j + 1];
        }
      }
      InsertSorted(x, t);
      var rest := Insert(x, t);
      var r := [s[0]] + rest;
      forall i, j | 0 <= i < j < |r| ensures r[i].fp >= r[j].fp {
        if i == 0 {
          var y := rest[j - 1];
          assert y in multiset(rest);
          assert y in multiset(t) || y == x;
          if y in multiset(t) {
            var k :| 0 <= k < |t| && t[k] == y;
            assert s[k + 1] == y;
          }
        } else {
          assert r[i] == rest[i - 1] && r[j] == rest[j - 1];
        }
      }
    }
  }

  /** Every roster comes out in non-increasing fp order. */
  lemma {:induction false} SortByFpDescSorted(xs: seq<PlayerEntry>)
    ensures SortedDesc(SortByFpDesc(xs))
    decreases |xs|
  {
    if xs != [] {
      SortByFpDescSorted(xs[1..]);
      InsertSorted(xs[0], SortByFpDesc(xs[1..]));
    }
  }

  /** The entries of `s` whose fp is `v`, in order. */
  function WithFp(s: seq<PlayerEntry>, v: real): (r: seq<PlayerEntry>)
    ensures |r| <= |s|
    decreases |s|
  {
    if s == [] then []
    else (if s[0].fp == v then [s[0]] else []) + WithFp(s[1..], v)
  }

  lemma {:induction false} InsertWithFp(x: PlayerEntry, s: seq<PlayerEntry>, v: real)
    ensures WithFp(Insert(x, s), v) == (if x.fp == v then [x] else []) + WithFp(s, v)
    decreases |s|
  {
    if s == [] || s[0].fp <= x.fp {
      assert ([x] + s)[1..] == s;
    } else {
      var t := s[1..];
      var rest := Insert(x, t);
      InsertWithFp(x, t, v);
      var r := [s[0]] + rest;
      assert r[0] == s[0] && r[1..] == rest;
      var head := if s[0].fp == v then [s[0]] else [];
      assert WithFp(r, v) == head + WithFp(rest, v);
      assert WithFp(s, v) == head + WithFp(t, v);
      if x.fp == v {
        assert head == [];
      }
    }
  }

  /** The sort is stable: for every fp value, the entries carrying it appear
      in the same order before and after sorting. */
  lemma {:induction false} SortByFpDescStable(xs: seq<PlayerEntry>, v: real)
    ensures WithFp(SortByFpDesc(xs), v) == WithFp(xs, v)
    decreases |xs|
  {
    if xs != [] {
      SortByFpDescStable(xs[1..], v);
      InsertWithFp(xs[0], SortByFpDesc(xs[1..]), v);
    }
  }

  /** Every list of `g` sorted best first. */
  function SortedRosters(g: map<string, seq<PlayerEntry>>): (r: map<string, seq<PlayerEntry>>)
    ensures r.Keys == g.Keys
  {
    map t | t in g :: SortByFpDesc(g[t])
  }

  /** `for t in player_data: player_data[t].sort(...)`. Each list is sorted
      independently, so the order the teams are visited in does not matter. */
  method SortRosters(g: map<string, seq<PlayerEntry>>) returns (sorted: map<string, seq<PlayerEntry>>)
    ensures sorted == SortedRosters(g)
  {
    sorted := g;
    var todo := g.Keys;
    while todo != {}
      invariant todo <= g.Keys && sorted.Keys == g.Keys
      invariant forall t :: t in g ==> sorted[t] == if t in todo then g[t] else SortByFpDesc(g[t])
      decreases |todo|
    {
      var t :| t in todo;
      sorted := sorted[t := SortByFpDesc(sorted[t])];
      todo := todo - {t};
    }
    assert sorted == SortedRosters(g);
  }

  // ---------------------------------------------------------------------
  // The player section
  // ---------------------------------------------------------------------

  /** The rosters the player loop and the sort leave behind. */
  function PlayersOf(rows: seq<PlayerRow>): map<string, seq<PlayerEntry>> {
    SortedRosters(Grouped(PlayerPairs(rows)))
  }

  /** The player loop: each row's per-game entry is appended to its team's
      list, then every list is sorted. */
  method BuildPlayerData(rows: seq<PlayerRow>) returns (playerData: map<string, seq<PlayerEntry>>)
    ensures playerData == PlayersOf(rows)
  {
    ghost var pairs := PlayerPairs(rows);
    var grouped: map<string, seq<PlayerEntry>> := map[];
    var i := 0;
    while i < |rows|
      invariant 0 <= i <= |rows|
      invariant grouped == Grouped(pairs[..i])
    {
      GroupedStep(pairs, i);
      var fp := FantasyPoints(rows[i]);
      var gp := if rows[i].gp > 0 then rows[i].gp else 1;
      grouped := SetDefaultAppend(grouped, rows[i].team, PlayerEntry(rows[i].name, RoundTenth(fp / gp as real)));
      i := i + 1;
    }
    assert pairs[..i] == pairs;
    playerData := SortRosters(grouped);
  }

  /** Per-game values of 10.01 and 10.04 both round to 10.0, so the sort
      keeps the two players in row order. */
  lemma RoundedTiesKeepRowOrder()
    ensures var a := PlayerEntry("A", RoundTenth(10.01));
            var b := PlayerEntry("B", RoundTenth(10.04));
            SortByFpDesc([a, b]) == [a, b]
  {
    RoundTenthDown(10.01, 100);
    RoundTenthDown(10.04, 100);
    var a := PlayerEntry("A", 10.0);
    var b := PlayerEntry("B", 10.0);
    assert [a, b][1..] == [b];
    assert SortByFpDesc([b]) == Insert(b, []) == [b];
  }

  /** A value less than halfway above the tenth `n / 10` rounds down to it. */
  lemma RoundTenthDown(x: real, n: int)
    requires n as real <= x * 10.0 < n as real + 0.5
    ensures RoundTenth(x) == n as real / 10.0
  {
    assert (x * 10.0).Floor == n;
  }

  /** A team has a roster exactly when some row names it. */
  lemma PlayersKeys(rows: seq<PlayerRow>, team: string)
    ensures team in PlayersOf(rows) <==> exists i :: 0 <= i < |rows| && rows[i].team == team
  {
    var pairs := PlayerPairs(rows);
    if team in PlayersOf(rows) {
      var i :| 0 <= i < |pairs| && pairs[i].0 == team;
      assert rows[i].team == team;
    }
    if exists i :: 0 <= i < |rows| && rows[i].team == team {
      var i :| 0 <= i < |rows| && rows[i].team == team;
      assert pairs[i].0 == team;
    }
  }

  /** Each team's roster is sorted best first, holds exactly the entries of
      that team's rows, and lists players with equal fp in row order. */
  lemma PlayersRoster(rows: seq<PlayerRow>, team: string, v: real)
    requires team in PlayersOf(rows)
    ensures SortedDesc(PlayersOf(rows)[team])
    ensures multiset(PlayersOf(rows)[team]) == multiset(ValuesOf(PlayerPairs(rows), team))
    ensures WithFp(PlayersOf(rows)[team], v) == WithFp(ValuesOf(PlayerPairs(rows), team), v)
  {
    var pairs := PlayerPairs(rows);
    GroupedValues(pairs, team);
    var appended := Grouped(pairs)[team];
    SortByFpDescSorted(appended);
    SortByFpDescStable(appended, v);
  }

  /** Every roster entry is the entry of a row of that team. */
  lemma PlayerOnOwnTeam(rows: seq<PlayerRow>, team: string, e: PlayerEntry)
    requires team in PlayersOf(rows) && e in PlayersOf(rows)[team]
    ensures exists i :: 0 <= i < |rows| && rows[i].team == team && e == EntryOf(rows[i])
  {
    var pairs := PlayerPairs(rows);
    PlayersRoster(rows, team, e.fp);
    assert e in multiset(PlayersOf(rows)[team]);
    assert e in ValuesOf(pairs, team);
    ValuesOfMember(pairs, team, e);
    var i :| 0 <= i < |pairs| && pairs[i] == (team, e);
    assert rows[i].team == team && e == EntryOf(rows[i]);
  }

  /** Every row is filed in exactly one roster: the rosters together hold
      one entry per row. */
  lemma {:induction false} PlayersTotal(rows: seq<PlayerRow>)
    ensures TotalLength(PlayersOf(rows)) == |rows|
  {
    var g := Grouped(PlayerPairs(rows));
    GroupedTotal(PlayerPairs(rows));
    TotalLengthSameLengths(g, PlayersOf(rows));
  }

  // ---------------------------------------------------------------------
  // Listed starters
  // ---------------------------------------------------------------------

  /** Each title with surrounding whitespace removed. */
  function StripAll(titles: seq<string>): seq<string> {
    MapSeq(Strip, titles)
  }

  /** The names collected from the lineup boxes, box by box, in order. */
  function ActiveOf(boxes: seq<seq<string>>): seq<string>
    decreases |boxes|
  {
    if boxes == [] then []
    else ActiveOf(boxes[..|boxes| - 1]) + StripAll(boxes[|boxes| - 1])
  }

  /** The number of titled links across all boxes. */
  function TitleCount(boxes: seq<seq<string>>): nat
    decreases |boxes|
  {
    if boxes == [] then 0
    else TitleCount(boxes[..|boxes| - 1]) + |boxes[|boxes| - 1]|
  }

  lemma ActiveOfSnoc(boxes: seq<seq<string>>, i: nat)
    requires i < |boxes|
    ensures ActiveOf(boxes[..i + 1]) == ActiveOf(boxes[..i]) + StripAll(boxes[i])
  {
    assert boxes[..i + 1][..i] == boxes[..i];
  }

  /** Appends the stripped title of every titled link of every box. */
  method BuildActivePlayers(boxes: seq<seq<string>>) returns (active: seq<string>)
    ensures active == ActiveOf(boxes)
  {
    active := [];
    var i := 0;
    while i < |boxes|
      invariant 0 <= i <= |boxes|
      invariant active == ActiveOf(boxes[..i])
    {
      ActiveOfSnoc(boxes, i);
      active := AppendStripped(active, boxes[i]);
      i := i + 1;
    }
    assert boxes[..i] == boxes;
  }

  /** The inner loop over one box's titled links. */
  method AppendStripped(active: seq<string>, titles: seq<string>) returns (active': seq<string>)
    ensures active' == active + StripAll(titles)
  {
    active' := active;
    var j := 0;
    while j < |titles|
      invariant 0 <= j <= |titles|
      invariant active' == active + StripAll(titles[..j])
    {
      MapSeqSnoc(Strip, titles, j);
      active' := active' + [Strip(titles[j])];
      j := j + 1;
    }
    assert titles[..j] == titles;
  }

  /** One name per titled link. */
  lemma {:induction false} ActiveCount(boxes: seq<seq<string>>)
    ensures |ActiveOf(boxes)| == TitleCount(boxes)
    decreases |boxes|
  {
    if boxes != [] {
      ActiveCount(boxes[..|boxes| - 1]);
    }
  }

  /** Each name is the stripped title of a link of some box. */
  lemma {:induction false} ActiveFromTitles(boxes: seq<seq<string>>, k: nat)
    requires k < |ActiveOf(boxes)|
    ensures exists i, j :: 0 <= i < |boxes| && 0 <= j < |boxes[i]| && ActiveOf(boxes)[k] == Strip(boxes[i][j])
    decreases |boxes|
  {
    var n := |boxes| - 1;
    var init := boxes[..n];
    var prev := ActiveOf(init);
    if k < |prev| {
      ActiveFromTitles(init, k);
      var i, j :| 0 <= i < |init| && 0 <= j < |init[i]| && prev[k] == Strip(init[i][j]);
      assert init[i] == boxes[i];
      assert ActiveOf(boxes)[k] == prev[k];
    } else {
      var j := k - |prev|;
      assert ActiveOf(boxes)[k] == StripAll(boxes[n])[j];
    }
  }

  /** No listed name has whitespace at either end. */
  lemma ActiveNamesTrimmed(boxes: seq<seq<string>>, k: nat)
    requires k < |ActiveOf(boxes)|
    ensures ActiveOf(boxes)[k] == [] ||
      (!IsSpace(ActiveOf(boxes)[k][0]) && !IsSpace(ActiveOf(boxes)[k][|ActiveOf(boxes)[k]| - 1]))
  {
    ActiveFromTitles(boxes, k);
  }

  // ---------------------------------------------------------------------
  // The refresh: four sections, each with its own fallback
  // ---------------------------------------------------------------------

  /** The value stored under one key of the saved record. */
  datatype Section =
    | TeamsSection(teams: map<string, TeamEntry>)
    | PlayersSection(players: map<string, seq<PlayerEntry>>)
    | ActiveSection(names: seq<string>)
    | Stamp(text: string)

  const TeamsKey := "teams"
  const PlayersKey := "players"
  const ActiveKey := "active_players"
  const UpdatedKey := "last_updated"

  /** The record a refresh saves. A fetch that raised is `None`; its section
      is then empty. `now` is the formatted current time. */
  function NbaData(teamRows: Option<seq<TeamRow>>, playerRows: Option<seq<PlayerRow>>,
                   boxes: Option<seq<seq<string>>>, now: string): map<string, Section> {
    map[TeamsKey := TeamsSection(if teamRows.Some? then TeamDataOf(teamRows.value) else map[]),
        PlayersKey := PlayersSection(if playerRows.Some? then PlayersOf(playerRows.value) else map[]),
        ActiveKey := ActiveSection(if boxes.Some? then ActiveOf(boxes.value) else []),
        UpdatedKey := Stamp(now)]
  }

  /** Fills the record section by section. */
  method FetchLiveNbaStats(teamRows: Option<seq<TeamRow>>, playerRows: Option<seq<PlayerRow>>,
                           boxes: Option<seq<seq<string>>>, now: string)
    returns (data: map<string, Section>)
    ensures data == NbaData(teamRows, playerRows, boxes, now)
  {
    data := map[];
    if teamRows.Some? {
      var teamData := BuildTeamData(teamRows.value);
      data := data[TeamsKey := TeamsSection(teamData)];
    } else {
      data := data[TeamsKey := TeamsSection(map[])];
    }
    if playerRows.Some? {
      var playerData := BuildPlayerData(playerRows.value);
      data := data[PlayersKey := PlayersSection(playerData)];
    } else {
      data := data[PlayersKey := PlayersSection(map[])];
    }
    if boxes.Some? {
      var active := BuildActivePlayers(boxes.value);
      data := data[ActiveKey := ActiveSection(active)];
    } else {
      data := data[ActiveKey := ActiveSection([])];
    }
    data := data[UpdatedKey := Stamp(now)];
  }

  /** The saved record always has the four keys and no other. */
  lemma NbaDataKeys(teamRows: Option<seq<TeamRow>>, playerRows: Option<seq<PlayerRow>>,
                    boxes: Option<seq<seq<string>>>, now: string)
    ensures NbaData(teamRows, playerRows, boxes, now).Keys == {"teams", "players", "active_players", "last_updated"}
  {
  }

  /** A failed team fetch empties the team section and nothing else. */
  lemma TeamsFailureIsolated(teamRows: Option<seq<TeamRow>>, playerRows: Option<seq<PlayerRow>>,
                             boxes: Option<seq<seq<string>>>, now: string)
    ensures NbaData(None, playerRows, boxes, now) ==
      NbaData(teamRows, playerRows, boxes, now)["teams" := TeamsSection(map[])]
  {
  }

  /** A failed player fetch empties the player section and nothing else. */
  lemma PlayersFailureIsolated(teamRows: Option<seq<TeamRow>>, playerRows: Option<seq<PlayerRow>>,
                               boxes: Option<seq<seq<string>>>, now: string)
    ensures NbaData(teamRows, None, boxes, now) ==
      NbaData(teamRows, playerRows, boxes, now)["players" := PlayersSection(map[])]
  {
  }

  /** A failed lineup fetch empties the starter list and nothing else. */
  lemma ActiveFailureIsolated(teamRows: Option<seq<TeamRow>>, playerRows: Option<seq<PlayerRow>>,
                              boxes: Option<seq<seq<string>>>, now: string)
    ensures NbaData(teamRows, playerRows, None, now) ==
      NbaData(teamRows, playerRows, boxes, now)["active_players" := ActiveSection([])]
  {
  }
}
