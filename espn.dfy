/** The ESPN scoreboard adapter shared by the NFL widgets (MMM-NFLMinimal's
    `espn.js`): it maps each event of ESPN's scoreboard answer to a flat
    score entry and orders the entries by kick-off time. The answer's JSON
    is modelled by datatypes whose optional fields are `Option`s, so every
    `?.` of the source is a test for `None`. */
module Espn {
  import opened Util

  // ---------------------------------------------------------------------------
  // ESPN's answer

  datatype StatusType = StatusType(state: Option<string>, name: Option<string>)
  datatype EventStatus = EventStatus(statusType: Option<StatusType>, period: Option<int>, displayClock: Option<string>)
  datatype Team = Team(abbreviation: Option<string>, logo: Option<string>)
  datatype Competitor = Competitor(id: Option<string>, team: Option<Team>, score: Option<string>)
  datatype Situation = Situation(possession: Option<string>, isRedZone: Option<bool>, shortDownDistanceText: Option<string>)
  datatype Competition = Competition(situation: Option<Situation>, competitors: Option<seq<Competitor>>)

  /** One event; `date` is the kick-off time as a number (see README). */
  datatype Event = Event(date: int, status: Option<EventStatus>, competition: Option<Competition>)

  /** The values the status can take in JavaScript: a string, the period
      number, or `undefined` when the period is missing. */
  datatype JsValue = Undefined | Str(s: string) | Num(n: int)

  // ---------------------------------------------------------------------------
  // Status

  /** `getPostGameStatus`: a period past the fourth means overtime; a missing
      period compares false. */
  function PostGameStatus(period: Option<int>): (r: JsValue)
    ensures r == Str("final-overtime") <==> period.Some? && period.value > 4
    ensures r == Str("final") <==> !(period.Some? && period.value > 4)
  {
    if period.Some? && period.value > 4 then Str("final-overtime") else Str("final")
  }

  /** `getInGameStatus`: "overtime" past the fourth period, otherwise the
      period itself (possibly `undefined`). */
  function InGameStatus(period: Option<int>): (r: JsValue)
    ensures period.Some? && period.value > 4 <==> r == Str("overtime")
    ensures period.None? <==> r == Undefined
    ensures period.Some? && period.value <= 4 <==> r.Num?
    ensures r.Num? ==> period == Some(r.n)
  {
    if period.None? then Undefined
    else if period.value > 4 then Str("overtime")
    else Num(period.value)
  }

  function State(status: Option<EventStatus>): Option<string> {
    if status.Some? && status.value.statusType.Some? then status.value.statusType.value.state else None
  }

  function TypeName(status: Option<EventStatus>): Option<string> {
    if status.Some? && status.value.statusType.Some? then status.value.statusType.value.name else None
  }

  function Period(status: Option<EventStatus>): Option<int> {
    if status.Some? then status.value.period else None
  }

  /** `getGameStatus`; a missing status is the default `{}`. */
  function GameStatus(status: Option<EventStatus>): (r: JsValue)
    ensures State(status) == Some("pre") ==> r == Str("pregame")
    ensures State(status) != Some("pre") && TypeName(status) == Some("STATUS_HALFTIME") ==> r == Str("halftime")
    ensures State(status) != Some("pre") && TypeName(status) != Some("STATUS_HALFTIME") && State(status) == Some("post") ==>
              r == PostGameStatus(Period(status))
    ensures State(status) !in {Some("pre"), Some("post")} && TypeName(status) != Some("STATUS_HALFTIME") ==>
              r == InGameStatus(Period(status))
  {
    if State(status) == Some("pre") then Str("pregame")
    else if TypeName(status) == Some("STATUS_HALFTIME") then Str("halftime")
    else if State(status) == Some("post") then PostGameStatus(Period(status))
    else InGameStatus(Period(status))
  }

  /** Every status is one of the seven strings, a period number of at most 4,
      or `undefined`. */
  lemma GameStatusValues(status: Option<EventStatus>)
    ensures var r := GameStatus(status);
            r in {Str("pregame"), Str("halftime"), Str("final"), Str("final-overtime"), Str("overtime"), Undefined} ||
            (r.Num? && r.n <= 4)
  {
  }

  // ---------------------------------------------------------------------------
  // Teams

  /** `teamNameMapping`: ESPN abbreviations the widgets spell differently. */
  function MappedName(abbreviation: string): Option<string> {
    if abbreviation == "LAR" then Some("LA")
    else if abbreviation == "WSH" then Some("WAS")
    else None
  }

  /** `getTeamName`: the mapped name if there is one, else the abbreviation
      (which may itself be missing). */
  function TeamName(competitor: Option<Competitor>): (r: Option<string>)
    ensures var abbr := if competitor.Some? && competitor.value.team.Some? then competitor.value.team.value.abbreviation else None;
            (abbr == Some("LAR") ==> r == Some("LA")) &&
            (abbr == Some("WSH") ==> r == Some("WAS")) &&
            (abbr != Some("LAR") && abbr != Some("WSH") ==> r == abbr)
  {
    var abbr := if competitor.Some? && competitor.value.team.Some? then competitor.value.team.value.abbreviation else None;
    if abbr.Some? && MappedName(abbr.value).Some? then MappedName(abbr.value) else abbr
  }

  // ---------------------------------------------------------------------------
  // Score entries

  /** `ongoing && displayClock`: `false` when the game is not ongoing,
      otherwise the clock (possibly missing). */
  datatype RemainingTime = NotOngoing | Clock(display: Option<string>)

  datatype Entry = Entry(
    timestamp: int,
    status: JsValue,
    remainingTime: RemainingTime,
    ballPossession: Option<string>,
    inRedZone: Option<bool>,
    downDistance: Option<string>,
    homeTeam: Option<string>,
    homeScore: Option<string>,
    homeLogo: Option<string>,
    awayTeam: Option<string>,
    awayScore: Option<string>,
    awayLogo: Option<string>)

  function Competitors(event: Event): Option<seq<Competitor>> {
    if event.competition.Some? then event.competition.value.competitors else None
  }

  function SituationOf(event: Event): Option<Situation> {
    if event.competition.Some? then event.competition.value.situation else None
  }

  /** `competitors?.[i]`: missing when the list is missing or too short. */
  function CompetitorAt(event: Event, i: nat): Option<Competitor> {
    var cs := Competitors(event);
    if cs.Some? && i < |cs.value| then Some(cs.value[i]) else None
  }

  /** `competitors?.find(c => c.id === id)`: the first competitor whose id
      equals `id`; a missing id matches a competitor without one. */
  function FindCompetitor(cs: seq<Competitor>, id: Option<string>): (r: Option<Competitor>)
    ensures r.Some? ==> r.value in cs && r.value.id == id
    ensures r.Some? ==> exists i :: 0 <= i < |cs| && cs[i] == r.value && forall j :: 0 <= j < i ==> cs[j].id != id
    ensures r.None? <==> forall c :: c in cs ==> c.id != id
  {
    if cs == [] then None
    else if cs[0].id == id then Some(cs[0])
    else FindCompetitor(cs[1..], id)
  }

  function PossessionId(event: Event): Option<string> {
    var sit := SituationOf(event);
    if sit.Some? then sit.value.possession else None
  }

  function PossessionTeam(event: Event): (r: Option<Competitor>)
    ensures r.Some? ==> Competitors(event).Some? && r.value in Competitors(event).value && r.value.id == PossessionId(event)
  {
    var cs := Competitors(event);
    if cs.Some? then FindCompetitor(cs.value, PossessionId(event)) else None
  }

  function ScoreOf(c: Option<Competitor>): Option<string> {
    if c.Some? then c.value.score else None
  }

  function LogoOf(c: Option<Competitor>): Option<string> {
    if c.Some? && c.value.team.Some? then c.value.team.value.logo else None
  }

  /** `mapEventEntry` */
  function MapEventEntry(event: Event): (e: Entry)
    ensures e.timestamp == event.date
    ensures e.status == GameStatus(event.status)
    ensures e.remainingTime.Clock? <==> State(event.status) != Some("pre") && State(event.status) != Some("post")
    ensures e.homeTeam == TeamName(CompetitorAt(event, 0)) && e.homeScore == ScoreOf(CompetitorAt(event, 0))
    ensures e.awayTeam == TeamName(CompetitorAt(event, 1)) && e.awayScore == ScoreOf(CompetitorAt(event, 1))
    ensures e.ballPossession == TeamName(PossessionTeam(event))
  {
    var ongoing := State(event.status) != Some("pre") && State(event.status) != Some("post");
    var sit := SituationOf(event);
    var home := CompetitorAt(event, 0);
    var away := CompetitorAt(event, 1);
    Entry(
      event.date,
      GameStatus(event.status),
      if ongoing then Clock(if event.status.Some? then event.status.value.displayClock else None) else NotOngoing,
      TeamName(PossessionTeam(event)),
      if sit.Some? then sit.value.isRedZone else None,
      if sit.Some? then sit.value.shortDownDistanceText else None,
      TeamName(home), ScoreOf(home), LogoOf(home),
      TeamName(away), ScoreOf(away), LogoOf(away))
  }

  /** The possession marker names a team of this game: one of the two
      competitors when the game has exactly those two. */
  lemma PossessionIsPlaying(event: Event)
    requires Competitors(event).Some? && |Competitors(event).value| == 2
    requires MapEventEntry(event).ballPossession.Some?
    ensures var e := MapEventEntry(event);
            e.ballPossession == e.homeTeam || e.ballPossession == e.awayTeam
  {
    var cs := Competitors(event).value;
    var c := PossessionTeam(event).value;
    assert c == cs[0] || c == cs[1];
  }

  // ---------------------------------------------------------------------------
  // Scoreboard

  /** `seasonStageMapping[season.type]` */
  function Stage(seasonType: Option<int>): (r: Option<string>)
    ensures r.Some? <==> seasonType.Some? && 1 <= seasonType.value <= 4
    ensures r.Some? ==> r.value == ["PRE", "REG", "POST", "OFF"][seasonType.value - 1]
  {
    if seasonType == Some(1) then Some("PRE")
    else if seasonType == Some(2) then Some("REG")
    else if seasonType == Some(3) then Some("POST")
    else if seasonType == Some(4) then Some("OFF")
    else None
  }

  function MapEvents(events: seq<Event>): (r: seq<Entry>)
    ensures |r| == |events| && forall i :: 0 <= i < |events| ==> r[i] == MapEventEntry(events[i])
  {
    if events == [] then [] else [MapEventEntry(events[0])] + MapEvents(events[1..])
  }

  function Timestamp(e: Entry): int { e.timestamp }

  /** The `scores` of `getData`: the mapped events ordered by timestamp; the
      comparator returns 0 for equal timestamps, so those keep their order. */
  function Scores(events: seq<Event>): (r: seq<Entry>)
    ensures multiset(r) == multiset(MapEvents(events)) && |r| == |events|
    ensures SortedBy(r, Timestamp)
  {
    SortByPerm(MapEvents(events), Timestamp);
    SortBySorted(MapEvents(events), Timestamp);
    assert |multiset(SortBy(MapEvents(events), Timestamp))| == |MapEvents(events)|;
    SortBy(MapEvents(events), Timestamp)
  }

  /** The scores are a permutation of the mapped events, ascending by time,
      and events with equal timestamps stay in answer order. */
  lemma ScoresSorted(events: seq<Event>)
    ensures multiset(Scores(events)) == multiset(MapEvents(events))
    ensures SortedBy(Scores(events), Timestamp)
    ensures forall t :: WithKey(Scores(events), Timestamp, t) == WithKey(MapEvents(events), Timestamp, t)
  {
    forall t ensures WithKey(Scores(events), Timestamp, t) == WithKey(MapEvents(events), Timestamp, t) {
      SortByStable(MapEvents(events), Timestamp, t);
    }
  }
}
