/** MMM-NFLDivisionsGrid: the eight NFL divisions as a grid of small
    standings tables (logo, wins, losses). The module keeps the standings
    ESPN returned, keyed by division name, and draws one table per division
    of its configured layout. */
module NflDivisionsGrid {
  import opened Util

  // ---------------------------------------------------------------------------
  // ESPN's standings answer

  datatype Stat = Stat(name: string, value: Option<int>)
  datatype ApiTeam = ApiTeam(displayName: string, shortDisplayName: Option<string>, abbreviation: string, logos: seq<string>)
  datatype ApiEntry = ApiEntry(team: ApiTeam, stats: seq<Stat>)
  datatype Division = Division(name: string, entries: seq<ApiEntry>)
  datatype Conference = Conference(children: Option<seq<Division>>)
  datatype StandingsAnswer = StandingsAnswer(children: Option<seq<Conference>>)

  /** One processed standings row. `logo` is the href of the team's first
      ESPN logo, which the logo lookup needs (see `LogoUrl`). */
  datatype TeamRow = TeamRow(displayName: string, shortDisplayName: Option<string>, abbreviation: string,
                             wins: int, losses: int, ties: int, logo: Option<string>)

  /** `entry.stats.find(stat => stat.name === name)?.value || 0` */
  function StatValue(stats: seq<Stat>, name: string): (v: int)
    ensures (forall s :: s in stats ==> s.name != name) ==> v == 0
    ensures forall k :: 0 <= k < |stats| && stats[k].name == name && (forall j :: 0 <= j < k ==> stats[j].name != name) ==>
              v == (if stats[k].value.Some? then stats[k].value.value else 0)
  {
    if stats == [] then 0
    else if stats[0].name == name then (if stats[0].value.Some? then stats[0].value.value else 0)
    else StatValue(stats[1..], name)
  }

  function MapEntry(e: ApiEntry): (r: TeamRow)
    ensures r.displayName == e.team.displayName && r.shortDisplayName == e.team.shortDisplayName
    ensures r.abbreviation == e.team.abbreviation
    ensures r.logo.Some? <==> e.team.logos != []
    ensures (forall s :: s in e.stats ==> s.name != "wins") ==> r.wins == 0
    ensures (forall s :: s in e.stats ==> s.name != "losses") ==> r.losses == 0
    ensures (forall s :: s in e.stats ==> s.name != "ties") ==> r.ties == 0
  {
    TeamRow(e.team.displayName, e.team.shortDisplayName, e.team.abbreviation,
            StatValue(e.stats, "wins"), StatValue(e.stats, "losses"), StatValue(e.stats, "ties"),
            if e.team.logos != [] then Some(e.team.logos[0]) else None)
  }

  /** `division.standings.entries.map(...)`: one row per entry, in API order. */
  function MapEntries(entries: seq<ApiEntry>): (r: seq<TeamRow>)
    ensures |r| == |entries| && forall i :: 0 <= i < |r| ==> r[i] == MapEntry(entries[i])
  {
    if entries == [] then [] else [MapEntry(entries[0])] + MapEntries(entries[1..])
  }

  /** A row's record without any stats is 0-0-0. */
  lemma MissingStatsAreZero(e: ApiEntry)
    requires e.stats == []
    ensures MapEntry(e).wins == 0 && MapEntry(e).losses == 0 && MapEntry(e).ties == 0
  {
  }

  // ---------------------------------------------------------------------------
  // Standings by division

  function ChildrenOf(c: Conference): seq<Division> {
    if c.children.Some? then c.children.value else []
  }

  /** The divisions of all conferences, conference by conference. */
  function Flatten(confs: seq<Conference>): seq<Division> {
    if confs == [] then [] else Flatten(confs[..|confs| - 1]) + ChildrenOf(confs[|confs| - 1])
  }

  function DivisionsOf(data: StandingsAnswer): seq<Division> {
    if data.children.Some? then Flatten(data.children.value) else []
  }

  /** The dictionary the divisions fill in order: a later division of the
      same name replaces an earlier one. */
  function Fill(divs: seq<Division>): map<string, seq<TeamRow>> {
    if divs == [] then map[]
    else
      var last := divs[|divs| - 1];
      Fill(divs[..|divs| - 1])[last.name := MapEntries(last.entries)]
  }

  lemma FillSnoc(divs: seq<Division>, d: Division)
    ensures Fill(divs + [d]) == Fill(divs)[d.name := MapEntries(d.entries)]
  {
    assert (divs + [d])[..|divs|] == divs;
  }

  /** One more division of a conference adds its entry to the dictionary. */
  lemma FillStep(before: seq<Division>, divs: seq<Division>, j: int)
    requires 0 <= j < |divs|
    ensures Fill(before + divs[..j + 1]) == Fill(before + divs[..j])[divs[j].name := MapEntries(divs[j].entries)]
  {
    var done := before + divs[..j];
    FillSnoc(done, divs[j]);
    assert divs[..j + 1] == divs[..j] + [divs[j]];
    assert done + [divs[j]] == before + divs[..j + 1];
  }

  lemma FlattenSnoc(confs: seq<Conference>, i: int)
    requires 0 <= i < |confs|
    ensures Flatten(confs[..i + 1]) == Flatten(confs[..i]) + ChildrenOf(confs[i])
  {
    assert confs[..i + 1][..i] == confs[..i];
  }

  /** The keys are exactly the names of the divisions. */
  lemma {:induction false} FillKeys(divs: seq<Division>)
    ensures Fill(divs).Keys == set d | d in divs :: d.name
  {
    if divs != [] {
      var init := divs[..|divs| - 1];
      FillKeys(init);
      assert divs == init + [divs[|divs| - 1]];
    }
  }

  /** Each key holds the rows of the last division with that name, in API
      order. */
  lemma {:induction false} FillLast(divs: seq<Division>, k: int)
    requires 0 <= k < |divs|
    requires forall j :: k < j < |divs| ==> divs[j].name != divs[k].name
    ensures divs[k].name in Fill(divs) && Fill(divs)[divs[k].name] == MapEntries(divs[k].entries)
  {
    var init := divs[..|divs| - 1];
    if k < |divs| - 1 {
      FillLast(init, k);
    }
  }

  // ---------------------------------------------------------------------------
  // Headers, names and logos

  /** `s.replace(pattern, "")` with a string pattern: only the first
      occurrence goes. */
  function RemoveFirst(s: string, pattern: string): (r: string)
    ensures IndexOf(s, pattern) < 0 ==> r == s
    ensures IndexOf(s, pattern) >= 0 && pattern != [] ==> |r| == |s| - |pattern|
    ensures IndexOf(s, pattern) >= 0 && pattern != [] ==>
              var k := IndexOf(s, pattern);
              k <= |r| && s == r[..k] + pattern + r[k..] && !Contains(r[..k], pattern)
  {
    var k := IndexOf(s, pattern);
    if k < 0 then s
    else
      if pattern != [] then
        PrefixBeforeMatch(s, pattern, k);
        assert s[k..][..|pattern|] == pattern;
        assert s == s[..k] + s[k..][..|pattern|] + s[k + |pattern|..];
        s[..k] + s[k + |pattern|..]
      else s[..k] + s[k + |pattern|..]
  }

  /** The header of a division table: the name without "AFC " and "NFC ". */
  function Header(name: string): string {
    RemoveFirst(RemoveFirst(name, "AFC "), "NFC ")
  }

  /** A pattern that does not occur after a four-letter prefix and does
      not begin inside it does not occur at all. */
  lemma NoMatchBehindPrefix(name: string, pattern: string)
    requires |name| >= 4 && |pattern| == 4
    requires forall k :: 0 <= k < 4 ==> name[k] != pattern[0]
    requires !Contains(name[4..], pattern)
    ensures IndexOf(name, pattern) < 0
  {
    forall j | 0 <= j <= |name|
      ensures !StartsWith(name[j..], pattern)
    {
      if j >= 4 {
        IndexOfFirst(name[4..], pattern, j - 4);
        assert name[4..][j - 4..] == name[j..];
      }
    }
  }

  /** A name that starts with the conference loses exactly that prefix. */
  lemma {:induction false} HeaderStripsPrefix(name: string, conference: string)
    requires conference == "AFC " || conference == "NFC "
    requires StartsWith(name, conference)
    requires !Contains(name[4..], "AFC ") && !Contains(name[4..], "NFC ")
    ensures Header(name) == name[4..]
  {
    assert name == conference + name[4..];
    if conference == "AFC " {
      assert IndexOf(name, "AFC ") == 0;
      assert RemoveFirst(name, "AFC ") == name[4..];
    } else {
      assert name[..4] == "NFC ";
      NoMatchBehindPrefix(name, "AFC ");
      assert IndexOf(name, "NFC ") == 0;
    }
  }

  datatype NameStyle = Abbreviation | Full | Short

  /** `getTeamName`: "short" and any unknown style take the short name,
      falling back to the display name when it is missing or empty. */
  function TeamName(style: NameStyle, team: TeamRow): (r: string)
    ensures style == Abbreviation ==> r == team.abbreviation
    ensures style == Full ==> r == team.displayName
    ensures style == Short && team.shortDisplayName.Some? && team.shortDisplayName.value != "" ==> r == team.shortDisplayName.value
    ensures style == Short && (team.shortDisplayName.None? || team.shortDisplayName == Some("")) ==> r == team.displayName
  {
    match style
    case Abbreviation => team.abbreviation
    case Full => team.displayName
    case Short => if team.shortDisplayName.Some? && team.shortDisplayName.value != "" then team.shortDisplayName.value else team.displayName
  }

  const LocalLogoDir := "modules/MMM-MyStandings/logos/NFL/"

  datatype Lookup = Url(href: string) | TypeError

  /** `getTeamLogoUrl` as written: the rows built by `processStandingsData`
      have no `team` field, so `team.team.logos` throws whenever local logos
      are off. */
  function LogoUrlAsWritten(useLocalLogos: bool, team: TeamRow): (r: Lookup)
    ensures useLocalLogos ==> r == Url(LocalLogoDir + team.abbreviation + ".svg")
    ensures !useLocalLogos ==> r == TypeError
  {
    if useLocalLogos then Url(LocalLogoDir + team.abbreviation + ".svg") else TypeError
  }

  /** With local logos off no table can be drawn: the first row throws. */
  lemma RemoteLogosAlwaysThrow(team: TeamRow)
    ensures LogoUrlAsWritten(false, team).TypeError?
  {
  }

  /** The lookup as evidently intended: the team's first ESPN logo, kept in
      the row, and the local file when the team has none. */
  function LogoUrl(useLocalLogos: bool, team: TeamRow): (r: string)
    ensures useLocalLogos || team.logo.None? ==> r == LocalLogoDir + team.abbreviation + ".svg"
    ensures !useLocalLogos && team.logo.Some? ==> r == team.logo.value
    ensures useLocalLogos ==> LogoUrlAsWritten(useLocalLogos, team) == Url(r)
  {
    if !useLocalLogos && team.logo.Some? then team.logo.value else LocalLogoDir + team.abbreviation + ".svg"
  }

  /** The intended lookup hands out the logo the ESPN answer gave first. */
  lemma LogoFromAnswer(e: ApiEntry)
    requires e.team.logos != []
    ensures LogoUrl(false, MapEntry(e)) == e.team.logos[0]
  {
  }

  // ---------------------------------------------------------------------------
  // Tables

  /** Which logo lookup the tables use: the code's, or the intended one. */
  datatype LogoSource = AsWritten | Intended

  function Logo(src: LogoSource, useLocalLogos: bool, t: TeamRow): (r: Lookup)
    ensures src == Intended ==> r == Url(LogoUrl(useLocalLogos, t))
    ensures src == AsWritten ==> r == LogoUrlAsWritten(useLocalLogos, t)
  {
    match src
    case AsWritten => LogoUrlAsWritten(useLocalLogos, t)
    case Intended => Url(LogoUrl(useLocalLogos, t))
  }

  datatype Cells = Cells(logo: Option<string>, wins: int, losses: int)
  datatype Table = Table(header: string, rows: seq<Cells>)

  /** One team row: the logo when logos are shown, then wins and losses;
      `None` when the logo lookup throws. */
  function RowCells(src: LogoSource, showLogos: bool, useLocalLogos: bool, t: TeamRow): (r: Option<Cells>)
    ensures r.None? <==> showLogos && Logo(src, useLocalLogos, t).TypeError?
    ensures r.Some? ==> r.value.wins == t.wins && r.value.losses == t.losses
    ensures r.Some? ==> (r.value.logo.Some? <==> showLogos)
    ensures r.Some? && showLogos ==> Logo(src, useLocalLogos, t) == Url(r.value.logo.value)
  {
    if !showLogos then Some(Cells(None, t.wins, t.losses))
    else match Logo(src, useLocalLogos, t)
      case Url(href) => Some(Cells(Some(href), t.wins, t.losses))
      case TypeError => None
  }

  /** The rows of a table, in standings order; the first throwing row throws
      for the whole table. */
  function AllCells(src: LogoSource, showLogos: bool, useLocalLogos: bool, ts: seq<TeamRow>): (r: Option<seq<Cells>>)
    ensures r.None? <==> exists i :: 0 <= i < |ts| && RowCells(src, showLogos, useLocalLogos, ts[i]).None?
    ensures r.Some? ==> |r.value| == |ts| && forall i :: 0 <= i < |ts| ==> RowCells(src, showLogos, useLocalLogos, ts[i]) == Some(r.value[i])
  {
    if ts == [] then Some([])
    else
      var head := RowCells(src, showLogos, useLocalLogos, ts[0]);
      var tail := AllCells(src, showLogos, useLocalLogos, ts[1..]);
      if head.None? || tail.None? then None else Some([head.value] + tail.value)
  }

  /** `createDivisionTable`: team rows only when the division has standings;
      `None` when drawing a row throws. */
  function DivisionTable(src: LogoSource, showLogos: bool, useLocalLogos: bool, name: string, standings: Option<seq<TeamRow>>): (t: Option<Table>)
    ensures t.None? <==> standings.Some? && AllCells(src, showLogos, useLocalLogos, standings.value).None?
    ensures t.Some? ==> t.value.header == Header(name)
    ensures t.Some? ==> (t.value.rows != [] <==> standings.Some? && standings.value != [])
    ensures t.Some? && standings.Some? ==> |t.value.rows| == |standings.value|
    ensures t.Some? && standings.Some? ==>
              forall j :: 0 <= j < |standings.value| ==>
                RowCells(src, showLogos, useLocalLogos, standings.value[j]) == Some(t.value.rows[j])
  {
    if standings.None? || standings.value == [] then Some(Table(Header(name), []))
    else
      var cells := AllCells(src, showLogos, useLocalLogos, standings.value);
      if cells.None? then None else Some(Table(Header(name), cells.value))
  }

  /** With the code's lookup, a table throws exactly when logos are shown from
      ESPN and the division has a team. */
  lemma DivisionTableThrows(showLogos: bool, useLocalLogos: bool, name: string, standings: Option<seq<TeamRow>>)
    ensures DivisionTable(AsWritten, showLogos, useLocalLogos, name, standings).None? <==>
            showLogos && !useLocalLogos && standings.Some? && standings.value != []
  {
    if showLogos && !useLocalLogos && standings.Some? && standings.value != [] {
      assert RowCells(AsWritten, showLogos, useLocalLogos, standings.value[0]).None?;
    }
  }

  /** The intended lookup never throws, and with local logos, or without
      logos, the code draws the same table. */
  lemma DivisionTableIntended(showLogos: bool, useLocalLogos: bool, name: string, standings: Option<seq<TeamRow>>)
    ensures DivisionTable(Intended, showLogos, useLocalLogos, name, standings).Some?
    ensures useLocalLogos || !showLogos ==>
              DivisionTable(AsWritten, showLogos, useLocalLogos, name, standings) ==
              DivisionTable(Intended, showLogos, useLocalLogos, name, standings)
  {
    if standings.Some? {
      AllCellsAgree(showLogos, useLocalLogos, standings.value);
    }
  }

  lemma {:induction false} AllCellsAgree(showLogos: bool, useLocalLogos: bool, ts: seq<TeamRow>)
    ensures AllCells(Intended, showLogos, useLocalLogos, ts).Some?
    ensures useLocalLogos || !showLogos ==>
              AllCells(AsWritten, showLogos, useLocalLogos, ts) == AllCells(Intended, showLogos, useLocalLogos, ts)
  {
    if ts != [] {
      AllCellsAgree(showLogos, useLocalLogos, ts[1..]);
    }
  }

  // ---------------------------------------------------------------------------
  // The module

  const StandingsUrl := "http://site.web.api.espn.com/apis/v2/sports/football/nfl/standings?level=3&sort=winpercent:desc,playoffseed:asc"

  /** `Thrown`: drawing a table raised a TypeError, so `getDom` fails. */
  datatype View = Loading | Grid(afc: seq<Table>, nfc: seq<Table>) | Thrown

  /** The inner loop of `processStandingsData`: one conference's divisions
      go into the dictionary in order. */
  method FillDivisions(m0: map<string, seq<TeamRow>>, before: seq<Division>, divs: seq<Division>)
    returns (m: map<string, seq<TeamRow>>)
    requires m0 == Fill(before)
    ensures m == Fill(before + divs)
  {
    m := m0;
    var j := 0;
    ghost var done := before;
    assert before + divs[..0] == before;
    while j < |divs|
      invariant 0 <= j <= |divs|
      invariant done == before + divs[..j]
      invariant m == Fill(done)
    {
      FillStep(before, divs, j);
      var rows := MapEntries(divs[j].entries);
      m := m[divs[j].name := rows];
      done := before + divs[..j + 1];
      j := j + 1;
    }
    assert divs[..|divs|] == divs;
  }

  /** The dictionary `processStandingsData` builds: conference by
      conference, division by division; a conference without children adds
      nothing. */
  method FillStandings(data: StandingsAnswer) returns (m: map<string, seq<TeamRow>>)
    ensures m == Fill(DivisionsOf(data))
  {
    m := map[];
    if data.children.Some? {
      var confs := data.children.value;
      var i := 0;
      while i < |confs|
        invariant 0 <= i <= |confs|
        invariant m == Fill(Flatten(confs[..i]))
      {
        if confs[i].children.Some? {
          m := FillDivisions(m, Flatten(confs[..i]), confs[i].children.value);
        }
        FlattenSnoc(confs, i);
        assert Flatten(confs[..i]) + [] == Flatten(confs[..i]);
        i := i + 1;
      }
      assert confs[..|confs|] == confs;
    }
  }

  /** The division of `name` in the standings, if any. */
  function StandingsOf(standings: map<string, seq<TeamRow>>, name: string): Option<seq<TeamRow>> {
    if name in standings then Some(standings[name]) else None
  }

  /** The tables of one conference row, in configured order; a division the
      standings do not name gets a table without rows. `None` when one of
      them throws. */
  function Tables(src: LogoSource, showLogos: bool, useLocalLogos: bool, standings: map<string, seq<TeamRow>>, names: seq<string>): (r: Option<seq<Table>>)
    ensures r.None? <==> exists i :: 0 <= i < |names| && DivisionTable(src, showLogos, useLocalLogos, names[i], StandingsOf(standings, names[i])).None?
    ensures r.Some? ==> |r.value| == |names|
    ensures r.Some? ==> forall i :: 0 <= i < |names| ==>
              DivisionTable(src, showLogos, useLocalLogos, names[i], StandingsOf(standings, names[i])) == Some(r.value[i])
  {
    if names == [] then Some([])
    else
      var head := DivisionTable(src, showLogos, useLocalLogos, names[0], StandingsOf(standings, names[0]));
      var tail := Tables(src, showLogos, useLocalLogos, standings, names[1..]);
      if head.None? then None
      else if tail.None? then
        assert exists i :: 0 <= i < |names| && DivisionTable(src, showLogos, useLocalLogos, names[i], StandingsOf(standings, names[i])).None? by {
          var i :| 0 <= i < |names[1..]| && DivisionTable(src, showLogos, useLocalLogos, names[1..][i], StandingsOf(standings, names[1..][i])).None?;
          assert names[1..][i] == names[i + 1];
        }
        None
      else
        assert forall i :: 1 <= i < |names| ==> names[1..][i - 1] == names[i];
        Some([head.value] + tail.value)
  }

  /** With the code's lookup and ESPN logos shown, the row of tables throws
      exactly when one configured division has a team; the intended lookup
      always draws them. */
  lemma {:induction false} TablesThrow(showLogos: bool, useLocalLogos: bool, standings: map<string, seq<TeamRow>>, names: seq<string>)
    ensures Tables(AsWritten, showLogos, useLocalLogos, standings, names).None? <==>
            showLogos && !useLocalLogos && exists i :: 0 <= i < |names| && names[i] in standings && standings[names[i]] != []
    ensures Tables(Intended, showLogos, useLocalLogos, standings, names).Some?
  {
    forall i | 0 <= i < |names|
      ensures DivisionTable(Intended, showLogos, useLocalLogos, names[i], StandingsOf(standings, names[i])).Some?
      ensures DivisionTable(AsWritten, showLogos, useLocalLogos, names[i], StandingsOf(standings, names[i])).None? <==>
              showLogos && !useLocalLogos && names[i] in standings && standings[names[i]] != []
    {
      DivisionTableIntended(showLogos, useLocalLogos, names[i], StandingsOf(standings, names[i]));
      DivisionTableThrows(showLogos, useLocalLogos, names[i], StandingsOf(standings, names[i]));
    }
  }

  /** With local logos, or without logos, both lookups draw the same tables. */
  lemma {:induction false} TablesAgree(showLogos: bool, useLocalLogos: bool, standings: map<string, seq<TeamRow>>, names: seq<string>)
    requires useLocalLogos || !showLogos
    ensures Tables(AsWritten, showLogos, useLocalLogos, standings, names) == Tables(Intended, showLogos, useLocalLogos, standings, names)
  {
    if names != [] {
      DivisionTableIntended(showLogos, useLocalLogos, names[0], StandingsOf(standings, names[0]));
      TablesAgree(showLogos, useLocalLogos, standings, names[1..]);
    }
  }

  /** Every team of every configured division that has standings is drawn,
      in standings order, with its record and, when logos are shown, the
      intended logo: the team's first ESPN logo when local logos are off. */
  predicate ShowsIntendedLogos(showLogos: bool, useLocalLogos: bool, standings: map<string, seq<TeamRow>>,
                               names: seq<string>, tables: seq<Table>)
  {
    |tables| == |names| &&
    forall i :: 0 <= i < |names| && names[i] in standings ==>
      |tables[i].rows| == |standings[names[i]]| &&
      forall j :: 0 <= j < |tables[i].rows| ==>
        var t := standings[names[i]][j];
        tables[i].rows[j] == Cells(if showLogos then Some(LogoUrl(useLocalLogos, t)) else None, t.wins, t.losses)
  }

  /** The intended tables show each team's intended logo and record. */
  lemma IntendedTablesShowLogos(showLogos: bool, useLocalLogos: bool, standings: map<string, seq<TeamRow>>,
                                names: seq<string>, tables: seq<Table>)
    requires |tables| == |names|
    requires forall i :: 0 <= i < |names| ==>
               DivisionTable(Intended, showLogos, useLocalLogos, names[i], StandingsOf(standings, names[i])) == Some(tables[i])
    ensures ShowsIntendedLogos(showLogos, useLocalLogos, standings, names, tables)
  {
    forall i | 0 <= i < |names| && names[i] in standings
      ensures |tables[i].rows| == |standings[names[i]]|
      ensures forall j :: 0 <= j < |tables[i].rows| ==>
                tables[i].rows[j] == Cells(if showLogos then Some(LogoUrl(useLocalLogos, standings[names[i]][j])) else None,
                                           standings[names[i]][j].wins, standings[names[i]][j].losses)
    {
      var ts := standings[names[i]];
      assert DivisionTable(Intended, showLogos, useLocalLogos, names[i], Some(ts)) == Some(tables[i]);
      forall j | 0 <= j < |tables[i].rows|
        ensures tables[i].rows[j] == Cells(if showLogos then Some(LogoUrl(useLocalLogos, ts[j])) else None, ts[j].wins, ts[j].losses)
      {
        assert RowCells(Intended, showLogos, useLocalLogos, ts[j]) == Some(tables[i].rows[j]);
      }
    }
  }

  /** A drawn intended page shows the intended logos in both conferences. */
  lemma IntendedGridShowsLogos(showLogos: bool, useLocalLogos: bool, standings: map<string, seq<TeamRow>>,
                               afc: seq<string>, nfc: seq<string>, v: View)
    requires v.Grid? ==> |v.afc| == |afc| && |v.nfc| == |nfc|
    requires v.Grid? ==> forall i :: 0 <= i < |afc| ==>
               DivisionTable(Intended, showLogos, useLocalLogos, afc[i], StandingsOf(standings, afc[i])) == Some(v.afc[i])
    requires v.Grid? ==> forall i :: 0 <= i < |nfc| ==>
               DivisionTable(Intended, showLogos, useLocalLogos, nfc[i], StandingsOf(standings, nfc[i])) == Some(v.nfc[i])
    ensures v.Grid? ==> ShowsIntendedLogos(showLogos, useLocalLogos, standings, afc, v.afc) &&
                        ShowsIntendedLogos(showLogos, useLocalLogos, standings, nfc, v.nfc)
  {
    if v.Grid? {
      IntendedTablesShowLogos(showLogos, useLocalLogos, standings, afc, v.afc);
      IntendedTablesShowLogos(showLogos, useLocalLogos, standings, nfc, v.nfc);
    }
  }

  class DivisionsGrid {
    var standingsData: Option<map<string, seq<TeamRow>>>
    var loaded: bool
    /** The `GET_STANDINGS_DATA` requests sent so far. */
    var requests: seq<string>

    /** `start`: no data yet, and a first request. */
    constructor()
      ensures standingsData.None? && !loaded && requests == [StandingsUrl]
    {
      standingsData := None;
      loaded := false;
      requests := [StandingsUrl];
    }

    /** `getData(clearAll)`: only `true` clears the standings first. */
    method GetData(clearAll: bool)
      modifies this
      ensures requests == old(requests) + [StandingsUrl]
      ensures clearAll ==> standingsData == Some(map[]) && !loaded
      ensures !clearAll ==> standingsData == old(standingsData) && loaded == old(loaded)
    {
      if clearAll {
        standingsData := Some(map[]);
        loaded := false;
      }
      requests := requests + [StandingsUrl];
    }

    /** `processStandingsData`: the standings are replaced by the divisions of
        this answer, whatever was there before. */
    method ProcessStandingsData(data: StandingsAnswer)
      modifies this
      ensures standingsData == Some(Fill(DivisionsOf(data)))
      ensures loaded == old(loaded) && requests == old(requests)
    {
      var m := FillStandings(data);
      standingsData := Some(m);
    }

    /** `socketNotificationReceived`: a `STANDINGS_DATA_RESULT` replaces the
        standings and marks the module loaded. */
    method StandingsDataResult(data: StandingsAnswer)
      modifies this
      ensures standingsData == Some(Fill(DivisionsOf(data))) && loaded
      ensures requests == old(requests)
    {
      ProcessStandingsData(data);
      loaded := true;
    }

    /** The page drawn with the logo lookup `src`. */
    function ViewWith(src: LogoSource, showLogos: bool, useLocalLogos: bool, afc: seq<string>, nfc: seq<string>): (v: View)
      reads this
      ensures v == Loading <==> !loaded || standingsData.None?
      ensures v.Grid? ==> |v.afc| == |afc| && |v.nfc| == |nfc|
      ensures v.Grid? ==>
                standingsData.Some? &&
                (forall i :: 0 <= i < |afc| ==>
                   DivisionTable(src, showLogos, useLocalLogos, afc[i], StandingsOf(standingsData.value, afc[i])) == Some(v.afc[i])) &&
                (forall i :: 0 <= i < |nfc| ==>
                   DivisionTable(src, showLogos, useLocalLogos, nfc[i], StandingsOf(standingsData.value, nfc[i])) == Some(v.nfc[i]))
      ensures v == Thrown <==> (loaded && standingsData.Some? &&
                                (Tables(src, showLogos, useLocalLogos, standingsData.value, afc).None? ||
                                 Tables(src, showLogos, useLocalLogos, standingsData.value, nfc).None?))
    {
      if !loaded || standingsData.None? then Loading
      else
        var a := Tables(src, showLogos, useLocalLogos, standingsData.value, afc);
        var n := Tables(src, showLogos, useLocalLogos, standingsData.value, nfc);
        if a.None? || n.None? then Thrown else Grid(a.value, n.value)
    }

    /** `getDom` as written: loading until a result came in; an emptied
        dictionary still draws the empty tables; a table that shows an ESPN
        logo throws. */
    function View(showLogos: bool, useLocalLogos: bool, afc: seq<string>, nfc: seq<string>): (v: View)
      reads this
      ensures v == Loading <==> !loaded || standingsData.None?
      ensures v == Thrown <==> (loaded && standingsData.Some? && showLogos && !useLocalLogos &&
                                ((exists i :: 0 <= i < |afc| && afc[i] in standingsData.value && standingsData.value[afc[i]] != []) ||
                                 (exists i :: 0 <= i < |nfc| && nfc[i] in standingsData.value && standingsData.value[nfc[i]] != [])))
      ensures v.Grid? ==> |v.afc| == |afc| && |v.nfc| == |nfc|
      ensures v == ViewWith(AsWritten, showLogos, useLocalLogos, afc, nfc)
    {
      if loaded && standingsData.Some? then
        TablesThrow(showLogos, useLocalLogos, standingsData.value, afc);
        TablesThrow(showLogos, useLocalLogos, standingsData.value, nfc);
        ViewWith(AsWritten, showLogos, useLocalLogos, afc, nfc)
      else ViewWith(AsWritten, showLogos, useLocalLogos, afc, nfc)
    }

    /** The page as evidently intended: never throws once loaded. */
    function IntendedView(showLogos: bool, useLocalLogos: bool, afc: seq<string>, nfc: seq<string>): (v: View)
      reads this
      ensures v == Loading <==> !loaded || standingsData.None?
      ensures v != Thrown
      ensures v.Grid? ==> |v.afc| == |afc| && |v.nfc| == |nfc|
      ensures useLocalLogos || !showLogos ==> v == View(showLogos, useLocalLogos, afc, nfc)
      ensures v == ViewWith(Intended, showLogos, useLocalLogos, afc, nfc)
      ensures v.Grid? ==>
                standingsData.Some? &&
                ShowsIntendedLogos(showLogos, useLocalLogos, standingsData.value, afc, v.afc) &&
                ShowsIntendedLogos(showLogos, useLocalLogos, standingsData.value, nfc, v.nfc)
    {
      if loaded && standingsData.Some? then
        TablesThrow(showLogos, useLocalLogos, standingsData.value, afc);
        TablesThrow(showLogos, useLocalLogos, standingsData.value, nfc);
        var v := ViewWith(Intended, showLogos, useLocalLogos, afc, nfc);
        IntendedGridShowsLogos(showLogos, useLocalLogos, standingsData.value, afc, nfc, v);
        if useLocalLogos || !showLogos then
          TablesAgree(showLogos, useLocalLogos, standingsData.value, afc);
          TablesAgree(showLogos, useLocalLogos, standingsData.value, nfc);
          v
        else v
      else ViewWith(Intended, showLogos, useLocalLogos, afc, nfc)
    }
  }
}
