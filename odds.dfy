/**
 * The betting-odds adapter: turns the odds service's JSON answer into a map
 * from team abbreviation to point spread.
 */
module Odds {
  import opened Wrappers
  import opened Text
  import Config

  /** One entry of a market: a team name and its point spread (`point` may be
      missing). */
  datatype Outcome = Outcome(name: string, point: Option<real>)

  /** A market; a missing `outcomes` key is an empty list. */
  datatype Market = Market(outcomes: seq<Outcome>)

  /** A bookmaker; a missing `markets` key is an empty list. */
  datatype Bookmaker = Bookmaker(markets: seq<Market>)

  /** A game of the JSON answer; a missing `bookmakers` key is an empty list. */
  datatype OddsGame = OddsGame(bookmakers: seq<Bookmaker>)

  /** What the odds service answers: an HTTP status and, when it succeeds,
      the decoded list of games. */
  datatype OddsResponse = OddsResponse(statusCode: int, games: seq<OddsGame>)

  /** A key that still holds the placeholder text was never filled in. */
  predicate IsPlaceholderKey(apiKey: string) {
    Contains(apiKey, "PASTE_YOUR")
  }

  /** The outcomes of a game that are read: those of the first market of the
      first bookmaker; none when either list is empty. */
  function ReadOutcomes(g: OddsGame): seq<Outcome> {
    if g.bookmakers == [] then []
    else if g.bookmakers[0].markets == [] then []
    else g.bookmakers[0].markets[0].outcomes
  }

  /** All outcomes read, game after game, in the order they are processed. */
  function ProcessedOutcomes(games: seq<OddsGame>): seq<Outcome>
    decreases |games|
  {
    if games == [] then []
    else ProcessedOutcomes(games[..|games| - 1]) + ReadOutcomes(games[|games| - 1])
  }

  lemma ProcessedOutcomesSnoc(games: seq<OddsGame>, i: nat)
    requires i < |games|
    ensures ProcessedOutcomes(games[..i + 1]) == ProcessedOutcomes(games[..i]) + ReadOutcomes(games[i])
  {
    assert games[..i + 1][..i] == games[..i];
  }

  /** Processing two lists of games one after the other reads the outcomes of
      the first, then those of the second. */
  lemma {:induction false} ProcessedOutcomesAppend(a: seq<OddsGame>, b: seq<OddsGame>)
    ensures ProcessedOutcomes(a + b) == ProcessedOutcomes(a) + ProcessedOutcomes(b)
    decreases |b|
  {
    if b != [] {
      var b0 := b[..|b| - 1];
      assert (a + b)[..|a + b| - 1] == a + b0;
      assert (a + b)[|a + b| - 1] == b[|b| - 1];
      ProcessedOutcomesAppend(a, b0);
      var x, y, z := ProcessedOutcomes(a), ProcessedOutcomes(b0), ReadOutcomes(b[|b| - 1]);
      assert ProcessedOutcomes(a + b) == (x + y) + z;
      assert ProcessedOutcomes(b) == y + z;
      assert (x + y) + z == x + (y + z);
    } else {
      assert a + b == a;
    }
  }

  /** An outcome counts when its team name maps to a non-empty abbreviation
      in the name table (the lookup result must be truthy). */
  predicate Mapped(names: map<string, string>, o: Outcome) {
    o.name in names && names[o.name] != ""
  }

  /** The spread an outcome records: its `point`, or 0 when that is missing. */
  function PointOf(o: Outcome): real {
    o.point.GetOr(0.0)
  }

  /** The map the outcome loop leaves behind, writing each mapped outcome's
      spread under its team's abbreviation (a later write overwrites). */
  function SpreadTable(names: map<string, string>, outcomes: seq<Outcome>): (d: map<string, real>)
    ensures d.Keys <= names.Values
    ensures |d| <= |outcomes|
    decreases |outcomes|
  {
    if outcomes == [] then map[]
    else
      var d0 := SpreadTable(names, outcomes[..|outcomes| - 1]);
      var o := outcomes[|outcomes| - 1];
      if Mapped(names, o) then
        var d := d0[names[o.name] := PointOf(o)];
        assert d.Keys == d0.Keys + {names[o.name]};
        d
      else d0
  }

  /** One more outcome writes its spread, if it is mapped, over the table so far. */
  lemma SpreadTableSnoc(names: map<string, string>, outcomes: seq<Outcome>, o: Outcome)
    ensures SpreadTable(names, outcomes + [o]) ==
      if Mapped(names, o) then SpreadTable(names, outcomes)[names[o.name] := PointOf(o)]
      else SpreadTable(names, outcomes)
  {
    assert (outcomes + [o])[..|outcomes|] == outcomes;
  }

  /** A team's entry holds the spread of the last outcome that named it. */
  lemma {:induction false} SpreadTableLastWins(names: map<string, string>, outcomes: seq<Outcome>, i: nat)
    requires i < |outcomes| && Mapped(names, outcomes[i])
    requires forall j :: i < j < |outcomes| && Mapped(names, outcomes[j]) ==>
      names[outcomes[j].name] != names[outcomes[i].name]
    ensures names[outcomes[i].name] in SpreadTable(names, outcomes)
    ensures SpreadTable(names, outcomes)[names[outcomes[i].name]] == PointOf(outcomes[i])
    decreases |outcomes|
  {
    if i < |outcomes| - 1 {
      var init := outcomes[..|outcomes| - 1];
      assert forall j :: i < j < |init| ==> init[j] == outcomes[j];
      SpreadTableLastWins(names, init, i);
    }
  }

  /** An abbreviation has an entry exactly when some outcome maps to it. */
  lemma {:induction false} SpreadTableKeys(names: map<string, string>, outcomes: seq<Outcome>, abbr: string)
    ensures abbr in SpreadTable(names, outcomes) <==>
      exists i :: 0 <= i < |outcomes| && Mapped(names, outcomes[i]) && names[outcomes[i].name] == abbr
    decreases |outcomes|
  {
    if outcomes != [] {
      var init := outcomes[..|outcomes| - 1];
      SpreadTableKeys(names, init, abbr);
      assert forall i :: 0 <= i < |init| ==> init[i] == outcomes[i];
    }
  }

  /** Every value of the name table is a non-empty code, so the truthiness
      test never drops an outcome whose name is in the table. */
  lemma MappedIffKnownName(o: Outcome)
    ensures Mapped(Config.TeamNameMap, o) <==> o.name in Config.TeamNameMap
  {
    Config.TeamNameMapFacts();
  }

  /** With the configured table, every key of a spread map is one of the
      thirty three-letter team codes. */
  lemma SpreadKeysAreCodes(outcomes: seq<Outcome>, abbr: string)
    requires abbr in SpreadTable(Config.TeamNameMap, outcomes)
    ensures abbr in Config.TeamNameMap.Values && Config.IsTeamCode(abbr)
  {
    Config.TeamNameMapFacts();
  }

  /** The inner loop of the adapter: writes the spread of every mapped
      outcome of one market over the table built so far from `before`. */
  method WriteSpreads(names: map<string, string>, spreads: map<string, real>, outcomes: seq<Outcome>,
                      ghost before: seq<Outcome>)
    returns (result: map<string, real>)
    requires spreads == SpreadTable(names, before)
    ensures result == SpreadTable(names, before + outcomes)
  {
    result := spreads;
    assert before + outcomes[..0] == before;
    var j := 0;
    while j < |outcomes|
      invariant 0 <= j <= |outcomes|
      invariant result == SpreadTable(names, before + outcomes[..j])
    {
      SpreadTableSnoc(names, before + outcomes[..j], outcomes[j]);
      assert before + outcomes[..j + 1] == before + outcomes[..j] + [outcomes[j]];
      var outcome := outcomes[j];
      var spread := PointOf(outcome);
      if Mapped(names, outcome) {
        result := result[names[outcome.name] := spread];
      }
      j := j + 1;
    }
    assert outcomes[..j] == outcomes;
  }

  /** The spreads read from the odds service, written as the adapter's loop
      computes them over a given name table: a placeholder key or a non-200
      status gives no spreads; otherwise each game contributes the outcomes of
      its first bookmaker's first market, if it has both. */
  method GetBettingSpreadsWith(names: map<string, string>, apiKey: string, response: OddsResponse) returns (spreads: map<string, real>)
    ensures IsPlaceholderKey(apiKey) || response.statusCode != 200 ==> spreads == map[]
    ensures !IsPlaceholderKey(apiKey) && response.statusCode == 200 ==>
      spreads == SpreadTable(names, ProcessedOutcomes(response.games))
  {
    if IsPlaceholderKey(apiKey) {
      return map[];
    }
    if response.statusCode != 200 {
      return map[];
    }
    var games := response.games;
    spreads := map[];
    var i := 0;
    while i < |games|
      invariant 0 <= i <= |games|
      invariant spreads == SpreadTable(names, ProcessedOutcomes(games[..i]))
    {
      ProcessedOutcomesSnoc(games, i);
      var bookmakers := games[i].bookmakers;
      if bookmakers == [] {
        assert ReadOutcomes(games[i]) == [];
        assert ProcessedOutcomes(games[..i + 1]) == ProcessedOutcomes(games[..i]);
        i := i + 1;
        continue;
      }
      var markets := bookmakers[0].markets;
      if markets == [] {
        assert ReadOutcomes(games[i]) == [];
        assert ProcessedOutcomes(games[..i + 1]) == ProcessedOutcomes(games[..i]);
        i := i + 1;
        continue;
      }
      var outcomes := markets[0].outcomes;
      assert ReadOutcomes(games[i]) == outcomes;
      spreads := WriteSpreads(names, spreads, outcomes, ProcessedOutcomes(games[..i]));
      i := i + 1;
    }
    assert games[..i] == games;
  }

  /** Only the first bookmaker's first market is read: games that agree on it
      give the same spreads, whatever their other bookmakers and markets say. */
  lemma {:induction false} OnlyFirstMarketRead(names: map<string, string>, games: seq<OddsGame>, games': seq<OddsGame>)
    requires |games| == |games'|
    requires forall i :: 0 <= i < |games| ==> ReadOutcomes(games[i]) == ReadOutcomes(games'[i])
    ensures SpreadTable(names, ProcessedOutcomes(games)) == SpreadTable(names, ProcessedOutcomes(games'))
  {
    ProcessedSameReads(games, games');
  }

  lemma {:induction false} ProcessedSameReads(games: seq<OddsGame>, games': seq<OddsGame>)
    requires |games| == |games'|
    requires forall i :: 0 <= i < |games| ==> ReadOutcomes(games[i]) == ReadOutcomes(games'[i])
    ensures ProcessedOutcomes(games) == ProcessedOutcomes(games')
    decreases |games|
  {
    if games != [] {
      var n := |games| - 1;
      ProcessedSameReads(games[..n], games'[..n]);
    }
  }

  /** A game with no bookmakers, or whose first bookmaker has no markets,
      contributes nothing wherever it stands in the list. */
  lemma SkippedGameContributesNothing(names: map<string, string>, before: seq<OddsGame>, g: OddsGame, after: seq<OddsGame>)
    requires g.bookmakers == [] || g.bookmakers[0].markets == []
    ensures SpreadTable(names, ProcessedOutcomes(before + [g] + after)) == SpreadTable(names, ProcessedOutcomes(before + after))
  {
    ProcessedOutcomesAppend(before + [g], after);
    ProcessedOutcomesAppend(before, [g]);
    ProcessedOutcomesAppend(before, after);
    assert [g][..0] == [];
    assert ProcessedOutcomes([g]) == ProcessedOutcomes([]) + ReadOutcomes(g) == [];
    assert ProcessedOutcomes(before + [g]) == ProcessedOutcomes(before);
  }

  /** What the adapter returns with the configured team-name table. */
  function SpreadsFor(apiKey: string, response: OddsResponse): map<string, real> {
    if IsPlaceholderKey(apiKey) || response.statusCode != 200 then map[]
    else SpreadTable(Config.TeamNameMap, ProcessedOutcomes(response.games))
  }

  /** The adapter with the configured team-name table. */
  method GetBettingSpreads(apiKey: string, response: OddsResponse) returns (spreads: map<string, real>)
    ensures IsPlaceholderKey(apiKey) || response.statusCode != 200 ==> spreads == map[]
    ensures !IsPlaceholderKey(apiKey) && response.statusCode == 200 ==>
      spreads == SpreadTable(Config.TeamNameMap, ProcessedOutcomes(response.games))
    ensures spreads == SpreadsFor(apiKey, response)
  {
    spreads := GetBettingSpreadsWith(Config.TeamNameMap, apiKey, response);
  }

  /** No spread is ever filed under the placeholder `UNK`. */
  lemma NoSpreadForUnknown(apiKey: string, response: OddsResponse)
    ensures "UNK" !in SpreadsFor(apiKey, response)
  {
    Config.UnknownIsNoCode();
  }
}
