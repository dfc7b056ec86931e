/** The MMM-AllGamesLive node helper: it turns ESPN score entries into the
    games the scoreboard grid draws (status UPCOMING, LIVE or FINAL with a
    quarter label and a kick-off time), and in preview mode sends a fixed
    mix of sample games instead of asking ESPN. */
module AllGamesLiveHelper {
  import opened Util
  import Espn

  // ---------------------------------------------------------------------------
  // Status

  datatype GameState = Upcoming | Live | Final

  datatype Mapped = Mapped(status: GameState, quarter: string)

  /** A JavaScript value is falsy: `undefined`, "" or 0. */
  predicate Falsy(v: Espn.JsValue) {
    v.Undefined? || v == Espn.Str("") || v == Espn.Num(0)
  }

  const QuarterNames: seq<string> := ["", "1ST", "2ND", "3RD", "4TH"]

  /** `mapStatus`. A number indexes the quarter names; a number without a
      name (or with the empty name at 0, which the falsy test has already
      taken) is written out with "TH". A string that matches none of the
      four cases is not a number either and falls through to LIVE. */
  function MapStatus(v: Espn.JsValue): (m: Mapped)
    ensures Falsy(v) ==> m == Mapped(Upcoming, "")
    ensures v.Str? && StartsWith(v.s, "final") ==> m == Mapped(Final, "")
    ensures m.status == Final <==> v.Str? && StartsWith(v.s, "final")
    ensures m.status == Upcoming <==> Falsy(v) || v == Espn.Str("pregame")
    ensures v == Espn.Str("pregame") ==> m == Mapped(Upcoming, "")
    ensures v == Espn.Str("halftime") ==> m == Mapped(Live, "HALF")
    ensures v == Espn.Str("overtime") ==> m == Mapped(Live, "OT")
    ensures v.Num? && 1 <= v.n <= 4 ==> m == Mapped(Live, QuarterNames[v.n])
    ensures v.Num? && !(0 <= v.n <= 4) ==> m == Mapped(Live, IntToString(v.n) + "TH")
    ensures v.Str? && v.s !in ["", "pregame", "halftime", "overtime"] && !StartsWith(v.s, "final") ==> m == Mapped(Live, "")
  {
    if Falsy(v) then Mapped(Upcoming, "")
    else match v
      case Str(s) =>
        if StartsWith(s, "final") then
          assert s[0] == 'f';
          Mapped(Final, "")
        else if s == "pregame" then Mapped(Upcoming, "")
        else if s == "halftime" then Mapped(Live, "HALF")
        else if s == "overtime" then Mapped(Live, "OT")
        else Mapped(Live, "")
      case Num(n) =>
        var ord := if 0 <= n < |QuarterNames| && QuarterNames[n] != "" then QuarterNames[n] else IntToString(n) + "TH";
        Mapped(Live, ord)
  }

  /** Every status ESPN's adapter can produce maps as the grid expects:
      "final…" to FINAL, "pregame" and a missing period to UPCOMING, and
      everything else to LIVE with a label naming the quarter. */
  lemma AdapterStatuses(status: Option<Espn.EventStatus>)
    ensures var v := Espn.GameStatus(status);
            var m := MapStatus(v);
            (Espn.State(status) == Some("pre") ==> m == Mapped(Upcoming, "")) &&
            (v == Espn.Str("halftime") ==> m == Mapped(Live, "HALF")) &&
            (Espn.State(status) == Some("post") && Espn.TypeName(status) != Some("STATUS_HALFTIME") ==> m.status == Final) &&
            (v.Num? && v.n >= 1 ==> m.status == Live && m.quarter in QuarterNames[1..])
  {
    var v := Espn.GameStatus(status);
    if Espn.State(status) == Some("post") && Espn.TypeName(status) != Some("STATUS_HALFTIME") {
      assert v == Espn.Str("final") || v == Espn.Str("final-overtime");
    }
    Espn.GameStatusValues(status);
  }

  // ---------------------------------------------------------------------------
  // Kick-off time

  /** A kick-off time broken down in the mirror's local time zone. */
  datatype LocalTime = LocalTime(weekday: nat, hours: nat, minutes: nat)

  predicate ValidTime(t: LocalTime) { t.weekday < 7 && t.hours < 24 && t.minutes < 60 }

  const Days: seq<string> := ["SUN", "MON", "TUE", "WED", "THU", "FRI", "SAT"]

  /** `${m}`.padStart(2, '0') */
  function Pad2(m: nat): (r: string)
    requires m < 100
    ensures |r| == 2 && forall i :: 0 <= i < 2 ==> IsDigit(r[i])
    ensures ParseDigits(r) == m
  {
    if m < 10 then
      var r := ['0', DigitChar(m)];
      assert r[..1] == ['0'];
      assert ParseDigits(['0']) == 0 by { assert ['0'][..0] == []; }
      r
    else
      var r := [DigitChar(m / 10), DigitChar(m % 10)];
      assert r[..1] == [DigitChar(m / 10)];
      r
  }

  /** The hour on a 12-hour clock: 0 and 12 are both shown as 12. */
  function Hour12(hours: nat): (h: nat)
    requires hours < 24
    ensures 1 <= h <= 12
  {
    if hours % 12 == 0 then 12 else hours % 12
  }

  /** `formatGameTime`; a missing time is falsy and gives "". */
  function FormatGameTime(ts: Option<LocalTime>): (r: string)
    requires ts.Some? ==> ValidTime(ts.value)
    ensures ts.None? <==> r == ""
  {
    if ts.None? then ""
    else
      var t := ts.value;
      Days[t.weekday] + " " + NatToString(Hour12(t.hours)) + ":" + Pad2(t.minutes) + (if t.hours >= 12 then "PM" else "AM")
  }

  /** Reading the 12-hour clock back: the hour and the AM/PM marker determine
      the 24-hour hour. */
  function Hour24(h12: nat, pm: bool): nat {
    (if h12 == 12 then 0 else h12) + (if pm then 12 else 0)
  }

  /** The formatted time ends in PM exactly from noon on, and the 12-hour
      hour, the marker and the two-digit minutes read back to the time. */
  lemma {:induction false} GameTimeRoundTrip(t: LocalTime)
    requires ValidTime(t)
    ensures EndsWith(FormatGameTime(Some(t)), "PM") <==> t.hours >= 12
    ensures Hour24(Hour12(t.hours), t.hours >= 12) == t.hours
    ensures ParseDigits(Pad2(t.minutes)) == t.minutes
  {
    var r := FormatGameTime(Some(t));
    var front := Days[t.weekday] + " " + NatToString(Hour12(t.hours)) + ":" + Pad2(t.minutes);
    var marker := if t.hours >= 12 then "PM" else "AM";
    assert r == front + marker;
    assert r[|r| - 2..] == marker;
    HourRoundTrip(t.hours);
  }

  /** The 12-hour hour and the marker give back the 24-hour hour. */
  lemma HourRoundTrip(hours: nat)
    requires hours < 24
    ensures Hour24(Hour12(hours), hours >= 12) == hours
  {
    if hours >= 12 {
      assert hours % 12 == hours - 12;
    } else {
      assert hours % 12 == hours;
    }
  }

  /** Reads a kick-off line "DAY H:MMAM" back into the local time it shows;
      `None` for any other text. */
  function ReadGameTime(s: string): Option<LocalTime> {
    var c := Find(s, ':');
    if c < 5 || |s| != c + 5 then None
    else if !(forall i :: 4 <= i < c ==> IsDigit(s[i])) || !IsDigit(s[c + 1]) || !IsDigit(s[c + 2]) then None
    else
      var day := Find(Days, s[..3]);
      var marker := s[c + 3..];
      if day < 0 || s[3] != ' ' || (marker != "AM" && marker != "PM") then None
      else
        assert s[c + 1..c + 3][0] == s[c + 1] && s[c + 1..c + 3][1] == s[c + 2];
        Some(LocalTime(day, Hour24(ParseDigits(s[4..c]), marker == "PM"), ParseDigits(s[c + 1..c + 3])))
  }

  /** Each day name has three letters and names its own weekday. */
  lemma DayName(w: nat)
    requires w < 7
    ensures |Days[w]| == 3 && ':' !in Days[w] && Find(Days, Days[w]) == w
  {
    assert forall i, j :: 0 <= i < j < 7 ==> Days[i] != Days[j];
  }

  /** The first colon of a kick-off line follows the hour. */
  lemma ColonAfterHour(d: string, h: string, rest: string)
    requires |d| == 3 && ':' !in d && forall i :: 0 <= i < |h| ==> IsDigit(h[i])
    ensures Find(d + " " + h + ":" + rest, ':') == 4 + |h|
  {
    var s := d + " " + h + ":" + rest;
    assert s[4 + |h|] == ':';
    assert forall j :: 0 <= j < 3 ==> s[j] == d[j];
    assert forall j :: 4 <= j < 4 + |h| ==> s[j] == h[j - 4];
  }

  /** A line made of a day name, hour digits, a colon, two minute digits and
      a marker reads back as that day, hour and minute. */
  lemma ReadParts(d: string, h: string, m: string, marker: string)
    requires |d| == 3 && ':' !in d && Find(Days, d) >= 0
    requires |h| >= 1 && forall i :: 0 <= i < |h| ==> IsDigit(h[i])
    requires |m| == 2 && forall i :: 0 <= i < 2 ==> IsDigit(m[i])
    requires marker == "AM" || marker == "PM"
    ensures ReadGameTime(d + " " + h + ":" + m + marker) ==
            Some(LocalTime(Find(Days, d), Hour24(ParseDigits(h), marker == "PM"), ParseDigits(m)))
  {
    var s := d + " " + h + ":" + m + marker;
    var c := 4 + |h|;
    ColonAfterHour(d, h, m + marker);
    assert s == d + " " + h + ":" + (m + marker);
    assert |s| == c + 5;
    assert s[..3] == d;
    assert s[3] == ' ';
    assert s[4..c] == h;
    assert s[c + 1..c + 3] == m;
    assert s[c + 3..] == marker;
    assert Find(s, ':') == c;
    assert forall i :: 4 <= i < c ==> IsDigit(s[i]);
    assert IsDigit(s[c + 1]) && IsDigit(s[c + 2]);
    assert Find(Days, s[..3]) >= 0;
    assert s[c + 3..] == "AM" || s[c + 3..] == "PM";
    assert ReadGameTime(s) == Some(LocalTime(Find(Days, d), Hour24(ParseDigits(h), marker == "PM"), ParseDigits(m)));
  }

  /** The day, the hour and the minutes can be read back from the formatted
      kick-off time. */
  lemma GameTimeReadsBack(t: LocalTime)
    requires ValidTime(t)
    ensures ReadGameTime(FormatGameTime(Some(t))) == Some(t)
  {
    var h := NatToString(Hour12(t.hours));
    var marker := if t.hours >= 12 then "PM" else "AM";
    DayName(t.weekday);
    ReadParts(Days[t.weekday], h, Pad2(t.minutes), marker);
    ParseNatToString(Hour12(t.hours));
    HourRoundTrip(t.hours);
  }

  /** Midnight is "12 … AM" and noon "12 … PM". */
  lemma MidnightAndNoon()
    ensures FormatGameTime(Some(LocalTime(0, 0, 5))) == "SUN 12:05AM"
    ensures FormatGameTime(Some(LocalTime(1, 12, 30))) == "MON 12:30PM"
  {
  }

  // ---------------------------------------------------------------------------
  // Games

  datatype Game = Game(
    awayTeam: Option<string>,
    homeTeam: Option<string>,
    awayScore: Option<nat>,
    homeScore: Option<nat>,
    awayLogo: string,
    homeLogo: string,
    status: GameState,
    clock: Option<string>,
    quarter: string,
    gameTime: Option<string>,
    downDistance: Option<string>,
    ballPossession: Option<string>,
    inRedZone: bool)

  /** `Number(score ?? 0)` for ESPN's score strings, which are strings of
      digits: such a string reads as its value ("" as 0); any other string is
      outside the model and gives `None`. */
  function ScoreNumber(score: Option<string>): (r: Option<nat>)
    ensures score.None? ==> r == Some(0)
    ensures score.Some? && (forall i :: 0 <= i < |score.value| ==> IsDigit(score.value[i])) <==> score.Some? && r.Some?
    ensures score.Some? && r.Some? ==> r.value == ParseDigits(score.value)
  {
    if score.None? then Some(0)
    else if forall i :: 0 <= i < |score.value| ==> IsDigit(score.value[i]) then Some(ParseDigits(score.value))
    else None
  }

  /** `x || ""` and `x || null` for an optional string. */
  function OrEmpty(s: Option<string>): string { if s.Some? then s.value else "" }
  function OrNull(s: Option<string>): (r: Option<string>)
    ensures r.Some? <==> s.Some? && s.value != ""
  {
    if s.Some? && s.value != "" then s else None
  }

  /** `s.remainingTime || null`: `false` and a missing or empty clock give null. */
  function ClockOf(t: Espn.RemainingTime): (r: Option<string>)
    ensures r.Some? ==> t.Clock? && t.display == r && r.value != ""
  {
    if t.Clock? then OrNull(t.display) else None
  }

  /** The per-game mapping of `fetchAndBroadcast`; `local` gives the local
      time of a kick-off timestamp. */
  function MapGame(s: Espn.Entry, local: int -> LocalTime): (g: Game)
    requires ValidTime(local(s.timestamp))
    ensures g.status == MapStatus(s.status).status && g.quarter == MapStatus(s.status).quarter
    ensures g.gameTime.Some? <==> g.status == Upcoming
    ensures g.homeScore == ScoreNumber(s.homeScore) && g.awayScore == ScoreNumber(s.awayScore)
    ensures g.inRedZone <==> s.inRedZone == Some(true)
    ensures g.clock.Some? ==> s.remainingTime.Clock?
  {
    var m := MapStatus(s.status);
    Game(
      s.awayTeam, s.homeTeam,
      ScoreNumber(s.awayScore), ScoreNumber(s.homeScore),
      OrEmpty(s.awayLogo), OrEmpty(s.homeLogo),
      m.status,
      ClockOf(s.remainingTime),
      m.quarter,
      if m.status == Upcoming then Some(FormatGameTime(Some(local(s.timestamp)))) else None,
      OrNull(s.downDistance),
      OrNull(s.ballPossession),
      s.inRedZone == Some(true))
  }

  /** An upcoming game always shows a non-empty kick-off time, and a game the
      adapter saw before kick-off has no clock. */
  lemma UpcomingHasTime(s: Espn.Entry, local: int -> LocalTime)
    requires ValidTime(local(s.timestamp))
    ensures MapGame(s, local).status == Upcoming ==> MapGame(s, local).gameTime.Some? && MapGame(s, local).gameTime.value != ""
    ensures s.remainingTime.NotOngoing? ==> MapGame(s, local).clock.None?
  {
  }

  function MapGames(scores: seq<Espn.Entry>, local: int -> LocalTime): (r: seq<Game>)
    requires forall i :: 0 <= i < |scores| ==> ValidTime(local(scores[i].timestamp))
    ensures |r| == |scores| && forall i :: 0 <= i < |r| ==> r[i] == MapGame(scores[i], local)
  {
    if scores == [] then [] else [MapGame(scores[0], local)] + MapGames(scores[1..], local)
  }

  // ---------------------------------------------------------------------------
  // Preview mode

  function Sample(away: string, home: string, awayScore: nat, homeScore: nat, status: GameState,
                  clock: Option<string>, quarter: string, gameTime: Option<string>,
                  downDistance: Option<string>, possession: Option<string>): Game
  {
    Game(Some(away), Some(home), Some(awayScore), Some(homeScore), "", "", status, clock, quarter,
         gameTime, downDistance, possession, false)
  }

  /** The six sample games of `sendDevMixed`: two final, two live, two
      upcoming (logos and records are not modelled). */
  const DevSamples: seq<Game> := [
    Sample("Kansas City Chiefs", "New York Giants", 22, 32, Final, None, "", None, None, None),
    Sample("Buffalo Bills", "Miami Dolphins", 31, 14, Final, None, "", None, None, None),
    Sample("Detroit Lions", "Baltimore Ravens", 38, 30, Live, Some("0:27"), "4TH", None, Some("1st & 10"), Some("Detroit Lions")),
    Sample("San Francisco 49ers", "Seattle Seahawks", 17, 10, Live, Some("8:42"), "1ST", None, Some("1st & 10"), Some("San Francisco 49ers")),
    Sample("Philadelphia Eagles", "Dallas Cowboys", 0, 0, Upcoming, None, "", Some("SUN 4:25PM"), None, None),
    Sample("Green Bay Packers", "Minnesota Vikings", 0, 0, Upcoming, None, "", Some("MON 8:15PM"), None, None)
  ]

  const DevRows := 16

  /** `Array.from({ length: n }, (_, i) => games[i % games.length])` */
  function Cycle(samples: seq<Game>, n: nat): (r: seq<Game>)
    requires samples != []
    ensures |r| == n
  {
    seq(n, i requires 0 <= i < n => samples[i % |samples|])
  }

  /** Filling rows by cycling shows row i as sample i mod the sample count,
      shows nothing else, and, with at least as many rows as samples, shows
      every sample. */
  lemma CycleCovers(samples: seq<Game>, n: nat)
    requires samples != []
    ensures forall i :: 0 <= i < n ==> Cycle(samples, n)[i] == samples[i % |samples|]
    ensures forall g :: g in Cycle(samples, n) ==> g in samples
    ensures n >= |samples| ==> forall g :: g in samples ==> g in Cycle(samples, n)
  {
    CycleWithin(samples, n);
    if n >= |samples| {
      CycleHasAll(samples, n);
    }
  }

  /** Every row of a cycle is one of the samples. */
  lemma CycleWithin(samples: seq<Game>, n: nat)
    requires samples != []
    ensures forall g :: g in Cycle(samples, n) ==> g in samples
  {
    var r := Cycle(samples, n);
    forall g | g in r ensures g in samples {
      var i :| 0 <= i < n && r[i] == g;
      var k := i % |samples|;
      assert r[i] == samples[k];
    }
  }

  /** The first rows of a long enough cycle are the samples themselves. */
  lemma CycleHasAll(samples: seq<Game>, n: nat)
    requires samples != [] && n >= |samples|
    ensures forall g :: g in samples ==> g in Cycle(samples, n)
  {
    var r := Cycle(samples, n);
    forall g | g in samples ensures g in r {
      var j :| 0 <= j < |samples| && samples[j] == g;
      assert j % |samples| == j;
      assert r[j] == g;
    }
  }

  /** The rows of the preview: 16 rows cycling through the six samples. */
  function DevMixed(): (r: seq<Game>)
    ensures |r| == DevRows
  {
    Cycle(DevSamples, DevRows)
  }

  // ---------------------------------------------------------------------------
  // The helper

  datatype SocketNote = AgliveConfig(devPreview: Option<bool>) | AgliveGetGames

  class Helper {
    var devPreview: bool
    /** The `AGLIVE_GAMES_DATA` payloads sent so far. */
    var sent: seq<seq<Game>>

    /** `start`: preview mode is off. */
    constructor()
      ensures !devPreview && sent == []
    {
      devPreview := false;
      sent := [];
    }

    /** `fetchAndBroadcast`: `scores` is what ESPN's adapter returned, or
        `None` when the request failed (which only logs). Missing scores
        count as an empty list. */
    method FetchAndBroadcast(scores: Option<Option<seq<Espn.Entry>>>, local: int -> LocalTime)
      requires scores.Some? && scores.value.Some? ==>
                 forall i :: 0 <= i < |scores.value.value| ==> ValidTime(local(scores.value.value[i].timestamp))
      modifies this
      ensures devPreview == old(devPreview)
      ensures scores.None? ==> sent == old(sent)
      ensures scores.Some? ==>
                sent == old(sent) + [if scores.value.Some? then MapGames(scores.value.value, local) else []]
    {
      if scores.Some? {
        var games := if scores.value.Some? then MapGames(scores.value.value, local) else [];
        sent := sent + [games];
      }
    }

    /** `socketNotificationReceived`: `AGLIVE_CONFIG` sets preview mode from a
        truthy `devPreview`; `AGLIVE_GET_GAMES` sends the samples in preview
        mode and fetches otherwise. */
    method SocketNotificationReceived(note: SocketNote, scores: Option<Option<seq<Espn.Entry>>>, local: int -> LocalTime)
      requires scores.Some? && scores.value.Some? ==>
                 forall i :: 0 <= i < |scores.value.value| ==> ValidTime(local(scores.value.value[i].timestamp))
      modifies this
      ensures note.AgliveConfig? ==> devPreview == (note.devPreview == Some(true)) && sent == old(sent)
      ensures note.AgliveGetGames? && devPreview ==> sent == old(sent) + [DevMixed()]
      ensures note.AgliveGetGames? && !devPreview && scores.Some? ==>
                sent == old(sent) + [if scores.value.Some? then MapGames(scores.value.value, local) else []]
      ensures note.AgliveGetGames? && !devPreview && scores.None? ==> sent == old(sent)
      ensures note.AgliveGetGames? ==> devPreview == old(devPreview)
    {
      match note
      case AgliveConfig(p) =>
        devPreview := p == Some(true);
      case AgliveGetGames =>
        if devPreview {
          sent := sent + [DevMixed()];
        } else {
          FetchAndBroadcast(scores, local);
        }
    }
  }
}
