/**
 * The fixed table that maps the full team names used by the betting-odds feed
 * to the three-letter abbreviations the rest of the ranker keys on.
 */
module Config {

  /** Full team name (as the odds feed spells it) to NBA abbreviation: the
      thirty entries of the table in their order, written as the union of
      five alphabetical groups (no name occurs in two of them, so the order
      of the unions does not matter) so that facts about it can be proved
      group by group. */
  const TeamNameMap: map<string, string> := (TeamsAToC + TeamsDToI + TeamsLToM) + (TeamsNToP + TeamsSToW)

  const TeamsAToC: map<string, string> := map[
    "Atlanta Hawks" := "ATL",
    "Boston Celtics" := "BOS",
    "Brooklyn Nets" := "BKN",
    "Charlotte Hornets" := "CHA",
    "Chicago Bulls" := "CHI",
    "Cleveland Cavaliers" := "CLE"
  ]

  const TeamsDToI: map<string, string> := map[
    "Dallas Mavericks" := "DAL",
    "Denver Nuggets" := "DEN",
    "Detroit Pistons" := "DET",
    "Golden State Warriors" := "GSW",
    "Houston Rockets" := "HOU",
    "Indiana Pacers" := "IND"
  ]

  const TeamsLToM: map<string, string> := map[
    "Los Angeles Clippers" := "LAC",
    "Los Angeles Lakers" := "LAL",
    "Memphis Grizzlies" := "MEM",
    "Miami Heat" := "MIA",
    "Milwaukee Bucks" := "MIL",
    "Minnesota Timberwolves" := "MIN"
  ]

  const TeamsNToP: map<string, string> := map[
    "New Orleans Pelicans" := "NOP",
    "New York Knicks" := "NYK",
    "Oklahoma City Thunder" := "OKC",
    "Orlando Magic" := "ORL",
    "Philadelphia 76ers" := "PHI",
    "Phoenix Suns" := "PHX",
    "Portland Trail Blazers" := "POR"
  ]

  const TeamsSToW: map<string, string> := map[
    "Sacramento Kings" := "SAC",
    "San Antonio Spurs" := "SAS",
    "Toronto Raptors" := "TOR",
    "Utah Jazz" := "UTA",
    "Washington Wizards" := "WAS"
  ]

  /** An abbreviation is three upper-case ASCII letters. */
  predicate IsTeamCode(code: string) {
    |code| == 3 && forall i :: 0 <= i < 3 ==> 'A' <= code[i] <= 'Z'
  }

  /** Distinct keys have distinct values. */
  ghost predicate Injective(m: map<string, string>) {
    forall a, b :: a in m && b in m && a != b ==> m[a] != m[b]
  }

  /** Every value is a team code. */
  ghost predicate AllCodes(m: map<string, string>) {
    forall name :: name in m ==> IsTeamCode(m[name])
  }

  /** Every value is a team code other than the placeholder `UNK`, and every
      name and every code starts with a letter between `lo` and `hi`. */
  ghost predicate Shaped(m: map<string, string>, lo: char, hi: char) {
    forall name :: name in m ==>
      IsTeamCode(m[name]) && |name| > 0 && lo <= name[0] <= hi && lo <= m[name][0] <= hi && m[name] != "UNK"
  }

  /** A block of the table: one-to-one and shaped. */
  ghost predicate Block(m: map<string, string>, lo: char, hi: char) {
    Injective(m) && Shaped(m, lo, hi)
  }

  /** Names, and codes, of blocks with disjoint letter ranges never meet. */
  lemma Apart(x: map<string, string>, y: map<string, string>, lo: char, mid: char, mid': char, hi: char)
    requires Block(x, lo, mid) && Block(y, mid', hi) && lo <= mid < mid' <= hi
    ensures x.Keys !! y.Keys
    ensures forall a, b :: a in x && b in y ==> x[a] != y[b]
  {
    forall k | k in x ensures k !in y {
      assert k[0] <= mid;
    }
    forall a, b | a in x && b in y ensures x[a] != y[b] {
      assert x[a][0] <= mid < mid' <= y[b][0];
    }
  }

  /** Two blocks whose letter ranges do not overlap glue into one block, as
      large as both together, in which the first keeps its entries. */
  lemma Glue(x: map<string, string>, y: map<string, string>, lo: char, mid: char, mid': char, hi: char)
    requires Block(x, lo, mid) && Block(y, mid', hi) && lo <= mid < mid' <= hi
    ensures Block(x + y, lo, hi) && |x + y| == |x| + |y|
    ensures forall name :: name in x ==> (x + y)[name] == x[name]
  {
    Apart(x, y, lo, mid, mid', hi);
    var u := x + y;
    assert u.Keys == x.Keys + y.Keys;
    forall k | k in x ensures u[k] == x[k] {
      assert k !in y;
    }
    forall a, b | a in u && b in u && a != b ensures u[a] != u[b] {
      if a in y && b in y {
      } else if a in y {
        assert u[b] == x[b];
      } else if b in y {
        assert u[a] == x[a];
      } else {
        assert u[a] == x[a] && u[b] == x[b];
      }
    }
    forall k | k in u
      ensures IsTeamCode(u[k]) && |k| > 0 && lo <= k[0] <= hi && lo <= u[k][0] <= hi && u[k] != "UNK"
    {
      if k !in y {
        assert u[k] == x[k];
      }
    }
  }

  lemma TeamsAToCSize()
    ensures |TeamsAToC| == 6
  {
  }

  lemma TeamsAToCInjective()
    ensures Injective(TeamsAToC)
  {
  }

  lemma TeamsAToCShaped()
    ensures forall name :: name in TeamsAToC ==>
      IsTeamCode(TeamsAToC[name]) && |name| > 0 && 'A' <= name[0] <= 'C' && 'A' <= TeamsAToC[name][0] <= 'C'
      && TeamsAToC[name] != "UNK"
  {
  }

  lemma TeamsDToISize()
    ensures |TeamsDToI| == 6
  {
  }

  lemma TeamsDToIInjective()
    ensures Injective(TeamsDToI)
  {
  }

  lemma TeamsDToIShaped()
    ensures forall name :: name in TeamsDToI ==>
      IsTeamCode(TeamsDToI[name]) && |name| > 0 && 'D' <= name[0] <= 'I' && 'D' <= TeamsDToI[name][0] <= 'I'
      && TeamsDToI[name] != "UNK"
  {
  }

  lemma TeamsLToMSize()
    ensures |TeamsLToM| == 6
  {
  }

  lemma TeamsLToMInjective()
    ensures Injective(TeamsLToM)
  {
  }

  lemma TeamsLToMShaped()
    ensures forall name :: name in TeamsLToM ==>
      IsTeamCode(TeamsLToM[name]) && |name| > 0 && 'L' <= name[0] <= 'M' && 'L' <= TeamsLToM[name][0] <= 'M'
      && TeamsLToM[name] != "UNK"
  {
  }

  lemma TeamsNToPSize()
    ensures |TeamsNToP| == 7
  {
  }

  lemma TeamsNToPInjective()
    ensures Injective(TeamsNToP)
  {
  }

  lemma TeamsNToPShaped()
    ensures forall name :: name in TeamsNToP ==>
      IsTeamCode(TeamsNToP[name]) && |name| > 0 && 'N' <= name[0] <= 'P' && 'N' <= TeamsNToP[name][0] <= 'P'
      && TeamsNToP[name] != "UNK"
  {
  }

  lemma TeamsSToWSize()
    ensures |TeamsSToW| == 5
  {
  }

  lemma TeamsSToWInjective()
    ensures Injective(TeamsSToW)
  {
  }

  lemma TeamsSToWShaped()
    ensures forall name :: name in TeamsSToW ==>
      IsTeamCode(TeamsSToW[name]) && |name| > 0 && 'S' <= name[0] <= 'W' && 'S' <= TeamsSToW[name][0] <= 'W'
      && TeamsSToW[name] != "UNK"
  {
  }

  /** Five blocks over increasing letter ranges glue into one block over
      all the letters, as large as all five together, in which every group
      keeps its entries. */
  lemma FiveBlocks(a: map<string, string>, b: map<string, string>, c: map<string, string>,
                   d: map<string, string>, e: map<string, string>)
    requires Block(a, 'A', 'C') && Block(b, 'D', 'I') && Block(c, 'L', 'M')
    requires Block(d, 'N', 'P') && Block(e, 'S', 'W')
    ensures Block((a + b + c) + (d + e), 'A', 'W')
    ensures |(a + b + c) + (d + e)| == |a| + |b| + |c| + |d| + |e|
  {
    Glue(a, b, 'A', 'C', 'D', 'I');
    Glue(a + b, c, 'A', 'I', 'L', 'M');
    Glue(d, e, 'N', 'P', 'S', 'W');
    Glue(a + b + c, d + e, 'A', 'M', 'N', 'W');
  }

  lemma TeamsAToCBlock()
    ensures Block(TeamsAToC, 'A', 'C') && |TeamsAToC| == 6
  {
    TeamsAToCSize();
    TeamsAToCInjective();
    TeamsAToCShaped();
  }

  lemma TeamsDToIBlock()
    ensures Block(TeamsDToI, 'D', 'I') && |TeamsDToI| == 6
  {
    TeamsDToISize();
    TeamsDToIInjective();
    TeamsDToIShaped();
  }

  lemma TeamsLToMBlock()
    ensures Block(TeamsLToM, 'L', 'M') && |TeamsLToM| == 6
  {
    TeamsLToMSize();
    TeamsLToMInjective();
    TeamsLToMShaped();
  }

  lemma TeamsNToPBlock()
    ensures Block(TeamsNToP, 'N', 'P') && |TeamsNToP| == 7
  {
    TeamsNToPSize();
    TeamsNToPInjective();
    TeamsNToPShaped();
  }

  lemma TeamsSToWBlock()
    ensures Block(TeamsSToW, 'S', 'W') && |TeamsSToW| == 5
  {
    TeamsSToWSize();
    TeamsSToWInjective();
    TeamsSToWShaped();
  }

  /** Each of the five groups is a block over its own letters. */
  lemma GroupBlocks()
    ensures Block(TeamsAToC, 'A', 'C') && Block(TeamsDToI, 'D', 'I') && Block(TeamsLToM, 'L', 'M')
    ensures Block(TeamsNToP, 'N', 'P') && Block(TeamsSToW, 'S', 'W')
    ensures |TeamsAToC| == 6 && |TeamsDToI| == 6 && |TeamsLToM| == 6 && |TeamsNToP| == 7 && |TeamsSToW| == 5
  {
    TeamsAToCBlock();
    TeamsDToIBlock();
    TeamsLToMBlock();
    TeamsNToPBlock();
    TeamsSToWBlock();
  }

  /** The whole table is one block from A to W. */
  lemma TeamNameMapBlock()
    ensures Block(TeamNameMap, 'A', 'W') && |TeamNameMap| == 30
  {
    GroupBlocks();
    FiveBlocks(TeamsAToC, TeamsDToI, TeamsLToM, TeamsNToP, TeamsSToW);
  }

  /** The table covers thirty franchises, no two team names share an
      abbreviation, and every abbreviation is a three-letter upper-case code. */
  lemma TeamNameMapFacts()
    ensures |TeamNameMap| == 30
    ensures Injective(TeamNameMap)
    ensures forall name :: name in TeamNameMap ==> IsTeamCode(TeamNameMap[name])
  {
    TeamNameMapBlock();
  }

  /** The placeholder `UNK` that stands for an unknown team is no team's
      abbreviation. */
  lemma UnknownIsNoCode()
    ensures "UNK" !in TeamNameMap.Values
  {
    TeamNameMapBlock();
  }

  /** A name of the third group that the last two groups do not carry keeps
      the third group's code in the table. */
  lemma PickThird(a: map<string, string>, b: map<string, string>, c: map<string, string>,
                  d: map<string, string>, e: map<string, string>, name: string)
    requires name in c && name !in d && name !in e
    ensures name in (a + b + c) + (d + e) && ((a + b + c) + (d + e))[name] == c[name]
  {
  }

  /** A name of the second group that the last three groups do not carry
      keeps the second group's code in the table. */
  lemma PickSecond(a: map<string, string>, b: map<string, string>, c: map<string, string>,
                   d: map<string, string>, e: map<string, string>, name: string)
    requires name in b && name !in c && name !in d && name !in e
    ensures name in (a + b + c) + (d + e) && ((a + b + c) + (d + e))[name] == b[name]
  {
  }

  lemma LakersInGroup()
    ensures "Los Angeles Lakers" in TeamsLToM && TeamsLToM["Los Angeles Lakers"] == "LAL"
    ensures "Los Angeles Lakers" !in TeamsNToP && "Los Angeles Lakers" !in TeamsSToW
  {
  }

  lemma WarriorsInGroup()
    ensures "Golden State Warriors" in TeamsDToI && TeamsDToI["Golden State Warriors"] == "GSW"
    ensures "Golden State Warriors" !in TeamsLToM
    ensures "Golden State Warriors" !in TeamsNToP && "Golden State Warriors" !in TeamsSToW
  {
  }

  /** The two entries the odds feed's documented example relies on. */
  lemma TeamNameMapLakers()
    ensures TeamNameMap["Los Angeles Lakers"] == "LAL"
  {
    LakersInGroup();
    PickThird(TeamsAToC, TeamsDToI, TeamsLToM, TeamsNToP, TeamsSToW, "Los Angeles Lakers");
  }

  lemma TeamNameMapWarriors()
    ensures TeamNameMap["Golden State Warriors"] == "GSW"
  {
    WarriorsInGroup();
    PickSecond(TeamsAToC, TeamsDToI, TeamsLToM, TeamsNToP, TeamsSToW, "Golden State Warriors");
  }
}
