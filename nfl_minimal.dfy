/** MMM-NFLMinimal: a two-column list of NFL games (logos, scores, the
    possession dot and the clock or kick-off time). The model covers the
    choice of games (the teams in focus, the bye-week list), the even split
    into columns and the rules that decide what one game row shows. */
module NflMinimal {
  import opened Util
  import Espn

  // ---------------------------------------------------------------------------
  // Games in focus

  predicate Involves(g: Espn.Entry, team: string) {
    g.homeTeam == Some(team) || g.awayTeam == Some(team)
  }

  /** `findTeamInScores`: the first game `team` plays in. */
  function FindTeamInScores(scores: seq<Espn.Entry>, team: string): (r: Option<Espn.Entry>)
    ensures r.Some? ==> r.value in scores && Involves(r.value, team)
    ensures r.Some? ==>
              exists i :: 0 <= i < |scores| && scores[i] == r.value && forall j :: 0 <= j < i ==> !Involves(scores[j], team)
    ensures r.None? <==> forall g :: g in scores ==> !Involves(g, team)
  {
    if scores == [] then None
    else if Involves(scores[0], team) then Some(scores[0])
    else FindTeamInScores(scores[1..], team)
  }

  predicate InFocus(g: Espn.Entry, focus: seq<string>) {
    (g.homeTeam.Some? && g.homeTeam.value in focus) || (g.awayTeam.Some? && g.awayTeam.value in focus)
  }

  function FilterFocus(scores: seq<Espn.Entry>, focus: seq<string>): (r: seq<Espn.Entry>)
    ensures |r| <= |scores|
    ensures forall g :: g in r <==> g in scores && InFocus(g, focus)
  {
    if scores == [] then []
    else (if InFocus(scores[0], focus) then [scores[0]] else []) + FilterFocus(scores[1..], focus)
  }

  /** A single game is kept exactly when one of its teams is in focus. */
  lemma FilterFocusSingle(g: Espn.Entry, focus: seq<string>)
    ensures FilterFocus([g], focus) == if InFocus(g, focus) then [g] else []
  {
    assert [g][1..] == [];
  }

  /** Filtering distributes over concatenation, so the games kept keep their
      order. */
  lemma {:induction false} FilterFocusConcat(a: seq<Espn.Entry>, b: seq<Espn.Entry>, focus: seq<string>)
    ensures FilterFocus(a + b, focus) == FilterFocus(a, focus) + FilterFocus(b, focus)
  {
    if a == [] {
      assert a + b == b;
    } else {
      assert (a + b)[0] == a[0];
      assert (a + b)[1..] == a[1..] + b;
      FilterFocusConcat(a[1..], b, focus);
    }
  }

  /** `getFilteredScores`. `focus_on` is `None` when it is not an array
      (it defaults to `false`), `scores` is `None` before the first update. */
  function FilteredScores(focusOn: Option<seq<string>>, scores: Option<seq<Espn.Entry>>): (r: Option<seq<Espn.Entry>>)
    ensures focusOn.None? || scores.None? ==> r == scores
    ensures focusOn.Some? && scores.Some? ==>
              r.Some? && forall g :: g in r.value <==> g in scores.value && InFocus(g, focusOn.value)
    ensures focusOn.Some? && scores.Some? ==> r == Some(FilterFocus(scores.value, focusOn.value))
  {
    if focusOn.None? || scores.None? then scores
    else Some(FilterFocus(scores.value, focusOn.value))
  }

  function ByeTeams(focus: seq<string>, scores: seq<Espn.Entry>): (r: seq<string>)
    ensures |r| <= |focus|
    ensures forall t :: t in r <==> t in focus && FindTeamInScores(scores, t).None?
  {
    if focus == [] then []
    else (if FindTeamInScores(scores, focus[0]).None? then [focus[0]] else []) + ByeTeams(focus[1..], scores)
  }

  /** `getFocusedTeamsWithByeWeeks` */
  function FocusedTeamsWithByeWeeks(focusOn: Option<seq<string>>, scores: Option<seq<Espn.Entry>>): (r: seq<string>)
    ensures focusOn.None? || scores.None? ==> r == []
    ensures focusOn.Some? && scores.Some? ==>
              forall t :: t in r <==> t in focusOn.value && forall g :: g in scores.value ==> !Involves(g, t)
  {
    if focusOn.None? || scores.None? then [] else ByeTeams(focusOn.value, scores.value)
  }

  /** Every team in focus either has a game in the filtered list or is on
      the bye list, never both. */
  lemma FocusTeamsAccounted(focus: seq<string>, scores: seq<Espn.Entry>, t: string)
    requires t in focus
    ensures var shown := FilteredScores(Some(focus), Some(scores)).value;
            var bye := FocusedTeamsWithByeWeeks(Some(focus), Some(scores));
            t in bye <==> forall g :: g in shown ==> !Involves(g, t)
  {
    var shown := FilteredScores(Some(focus), Some(scores)).value;
    if t !in FocusedTeamsWithByeWeeks(Some(focus), Some(scores)) {
      var g := FindTeamInScores(scores, t).value;
      assert InFocus(g, focus);
      assert g in shown;
    }
  }

  // ---------------------------------------------------------------------------
  // Columns

  /** An odd number of games loses its last game. */
  function EvenGames(games: seq<Espn.Entry>): (r: seq<Espn.Entry>)
    ensures |r| % 2 == 0
    ensures |r| <= |games| && r == games[..|r|] && |games| - |r| <= 1
  {
    if |games| % 2 != 0 then games[..|games| - 1] else games
  }

  /** The two columns: `Math.ceil(n / 2)` games on the left, the rest on
      the right. They have the same length and together are the games in
      order, without the last one when their number was odd. */
  function Columns(games: seq<Espn.Entry>): (r: (seq<Espn.Entry>, seq<Espn.Entry>))
    ensures r.0 + r.1 == EvenGames(games)
    ensures |r.0| == |r.1| && |r.0| == |games| / 2
  {
    var even := EvenGames(games);
    var half := (|even| + 1) / 2;
    assert even[..half] + even[half..] == even;
    (even[..half], even[half..])
  }

  // ---------------------------------------------------------------------------
  // Comparing scores

  /** JavaScript's `a < b` on two strings: code-unit by code-unit, a proper
      prefix being smaller. */
  predicate JsStringLess(a: string, b: string) {
    if a == [] then b != []
    else if b == [] then false
    else if a[0] != b[0] then a[0] < b[0]
    else JsStringLess(a[1..], b[1..])
  }

  /** `a < b` on the scores of a game; ESPN sends scores as strings, and a
      missing score compares false either way. */
  predicate ScoreLessAsWritten(a: Option<string>, b: Option<string>) {
    a.Some? && b.Some? && JsStringLess(a.value, b.value)
  }

  datatype Result = AwayWon | HomeWon | Tie

  /** The outcome the final-score colours show, as written: the scores are
      compared as strings. */
  function OutcomeAsWritten(awayScore: Option<string>, homeScore: Option<string>): (o: Result)
    ensures o == HomeWon <==> ScoreLessAsWritten(awayScore, homeScore)
    ensures o == AwayWon <==> !ScoreLessAsWritten(awayScore, homeScore) && ScoreLessAsWritten(homeScore, awayScore)
  {
    if ScoreLessAsWritten(awayScore, homeScore) then HomeWon
    else if ScoreLessAsWritten(homeScore, awayScore) then AwayWon
    else Tie
  }

  /** A final of 7 (away) to 21 (home) is coloured as an away win, because
      "7" sorts after "21". */
  lemma StringComparisonMisranks()
    ensures OutcomeAsWritten(Some("7"), Some("21")) == AwayWon
  {
    assert JsStringLess("21", "7");
    assert !JsStringLess("7", "21");
  }

  predicate DigitString(s: string) {
    forall i :: 0 <= i < |s| ==> IsDigit(s[i])
  }

  /** A score as a number: a string of digits, read as decimal. */
  function ScoreValue(s: Option<string>): (r: Option<nat>)
    ensures r.Some? <==> s.Some? && DigitString(s.value)
  {
    if s.Some? && DigitString(s.value) then Some(ParseDigits(s.value)) else None
  }

  /** The outcome compared by value, as evidently intended: the lower score
      loses and equal scores tie. */
  function Outcome(awayScore: Option<string>, homeScore: Option<string>): (o: Result)
    ensures var a := ScoreValue(awayScore); var h := ScoreValue(homeScore);
            a.Some? && h.Some? ==>
              (o == HomeWon <==> a.value < h.value) &&
              (o == AwayWon <==> h.value < a.value) &&
              (o == Tie <==> a.value == h.value)
  {
    var a := ScoreValue(awayScore);
    var h := ScoreValue(homeScore);
    if a.Some? && h.Some? && a.value < h.value then HomeWon
    else if a.Some? && h.Some? && h.value < a.value then AwayWon
    else Tie
  }

  function Pow10(n: nat): (p: nat)
    ensures p >= 1
  {
    if n == 0 then 1 else 10 * Pow10(n - 1)
  }

  function DigitValue(c: char): int { c as int - '0' as int }

  lemma {:induction false} ParseDigitsBound(s: string)
    requires DigitString(s)
    ensures ParseDigits(s) < Pow10(|s|)
  {
    if s != [] {
      ParseDigitsBound(s[..|s| - 1]);
    }
  }

  /** Reading digits from the front: the first digit weighs 10^(n-1). */
  lemma {:induction false} ParseDigitsFront(s: string)
    requires DigitString(s) && s != []
    ensures ParseDigits(s) == DigitValue(s[0]) * Pow10(|s| - 1) + ParseDigits(s[1..])
  {
    var n := |s|;
    if n == 1 {
      assert s[..0] == [] && s[1..] == [];
    } else {
      var init := s[..n - 1];
      var tail := s[1..];
      ParseDigitsFront(init);
      assert init[1..] == tail[..n - 2];
      assert init[0] == s[0] && tail[n - 2] == s[n - 1];
      assert ParseDigits(s) == ParseDigits(init) * 10 + DigitValue(s[n - 1]);
      assert ParseDigits(tail) == ParseDigits(init[1..]) * 10 + DigitValue(s[n - 1]);
      ShiftDigit(DigitValue(s[0]), Pow10(n - 2), ParseDigits(init[1..]), DigitValue(s[n - 1]));
    }
  }

  /** Appending a digit multiplies the weight of the leading one by ten. */
  lemma ShiftDigit(d: int, w: int, mid: int, last: int)
    ensures (d * w + mid) * 10 + last == d * (10 * w) + (mid * 10 + last)
  {
  }

  /** Of two digit strings of the same length, the one with the smaller
      first digit has the smaller value. */
  lemma SmallerFirstDigit(a: string, b: string)
    requires DigitString(a) && DigitString(b) && |a| == |b| && a != []
    requires a[0] < b[0]
    ensures ParseDigits(a) < ParseDigits(b)
  {
    ParseDigitsFront(a);
    ParseDigitsFront(b);
    ParseDigitsBound(a[1..]);
    LowerLeadingTerm(DigitValue(a[0]), DigitValue(b[0]), Pow10(|a| - 1), ParseDigits(a[1..]), ParseDigits(b[1..]));
  }

  lemma LowerLeadingTerm(da: int, db: int, w: int, ra: int, rb: int)
    requires da < db && 0 <= ra < w && 0 <= rb
    ensures da * w + ra < db * w + rb
  {
    var k := db - da;
    assert (k - 1) * w >= 0 by { NonNegativeProduct(k - 1, w); }
    calc {
      db * w + rb;
    >= db * w;
    == da * w + k * w;
    == da * w + (k - 1) * w + w;
    >= da * w + w;
    >  da * w + ra;
    }
  }

  lemma NonNegativeProduct(x: int, y: int)
    requires x >= 0 && y >= 0
    ensures x * y >= 0
  {
  }

  /** On two digit strings of the same length, the string comparison is the
      numeric one. */
  lemma {:induction false} SameLengthDigits(a: string, b: string)
    requires DigitString(a) && DigitString(b) && |a| == |b|
    ensures JsStringLess(a, b) <==> ParseDigits(a) < ParseDigits(b)
  {
    if a != [] {
      if a[0] == b[0] {
        SameLengthDigits(a[1..], b[1..]);
        ParseDigitsFront(a);
        ParseDigitsFront(b);
      } else if a[0] < b[0] {
        SmallerFirstDigit(a, b);
      } else {
        SmallerFirstDigit(b, a);
      }
    }
  }

  /** The string comparison gives the intended outcome whenever both scores
      have the same number of digits. */
  lemma AsWrittenAgreesOnEqualWidth(awayScore: string, homeScore: string)
    requires DigitString(awayScore) && DigitString(homeScore) && |awayScore| == |homeScore|
    ensures OutcomeAsWritten(Some(awayScore), Some(homeScore)) == Outcome(Some(awayScore), Some(homeScore))
  {
    SameLengthDigits(awayScore, homeScore);
    SameLengthDigits(homeScore, awayScore);
  }

  // ---------------------------------------------------------------------------
  // One game row

  datatype Config = Config(showPossession: bool, showDownDistance: bool)

  /** The class a side's score and logo get in a final game. */
  datatype SideClass = NoResult | Losing | Winning

  datatype Dot = NoDot | Dot(redZone: bool)

  datatype Center =
    | FinalScore(outcome: Result)
    | LiveClock(clock: string, downDistance: Option<string>)
    | KickOff(hour: nat, pm: bool)

  datatype Row = Row(
    awayScoreHidden: bool, homeScoreHidden: bool,
    awayClass: SideClass, homeClass: SideClass,
    awayDot: Dot, homeDot: Dot,
    center: Center)

  predicate IsFinal(status: Espn.JsValue) {
    status in {Espn.Str("FINAL"), Espn.Str("final"), Espn.Str("final-overtime")}
  }

  predicate Truthy(s: Option<string>) { s.Some? && s.value != "" }

  /** The clock, when it is truthy: `false` and an empty clock are not. */
  function LiveClockOf(t: Espn.RemainingTime): Option<string> {
    if t.Clock? && Truthy(t.display) then t.display else None
  }

  /** The hour on the kick-off line: 13-23 lose 12, 0 becomes 12. */
  function DisplayHour(hour: nat): (h: nat)
    requires hour < 24
    ensures 1 <= h <= 12
  {
    if hour > 12 then hour - 12 else if hour == 0 then 12 else hour
  }

  /** The kick-off hour and the am/pm marker determine the hour of the day. */
  lemma DisplayHourRoundTrip(hour: nat)
    requires hour < 24
    ensures (if DisplayHour(hour) == 12 then 0 else DisplayHour(hour)) + (if hour >= 12 then 12 else 0) == hour
  {
  }

  function PossessionDot(cfg: Config, g: Espn.Entry, team: Option<string>): Dot {
    if cfg.showPossession && g.ballPossession == team then Dot(g.inRedZone == Some(true)) else NoDot
  }

  /** A game row whose final-score colours follow `outcome`. */
  function RowFor(cfg: Config, g: Espn.Entry, hour: nat, outcome: Result): (r: Row)
    requires hour < 24
    ensures r.awayScoreHidden == r.homeScoreHidden
    ensures IsFinal(g.status) ==> r.awayScoreHidden && r.center == FinalScore(outcome)
    ensures IsFinal(g.status) ==> (r.awayClass == Winning <==> outcome == AwayWon) && (r.homeClass == Winning <==> outcome == HomeWon)
    ensures IsFinal(g.status) ==> (r.awayClass == Losing <==> outcome == HomeWon) && (r.homeClass == Losing <==> outcome == AwayWon)
    ensures !IsFinal(g.status) ==> r.awayClass == NoResult && r.homeClass == NoResult
    ensures r.awayDot.Dot? <==> cfg.showPossession && g.ballPossession == g.awayTeam
    ensures r.homeDot.Dot? <==> cfg.showPossession && g.ballPossession == g.homeTeam
    ensures r.center.LiveClock? <==> !IsFinal(g.status) && LiveClockOf(g.remainingTime).Some? && g.status != Espn.Str("pregame")
    ensures r.center.KickOff? ==> r.center.hour == DisplayHour(hour) && (r.center.pm <==> hour >= 12)
  {
    var hidden := g.status == Espn.Str("pregame") ||
                  (!Truthy(g.awayScore) && !Truthy(g.homeScore) && LiveClockOf(g.remainingTime).None?) ||
                  IsFinal(g.status);
    var awayClass := if !IsFinal(g.status) then NoResult else if outcome == HomeWon then Losing else if outcome == AwayWon then Winning else NoResult;
    var homeClass := if !IsFinal(g.status) then NoResult else if outcome == AwayWon then Losing else if outcome == HomeWon then Winning else NoResult;
    var clock := LiveClockOf(g.remainingTime);
    var center :=
      if IsFinal(g.status) then FinalScore(outcome)
      else if clock.Some? && g.status != Espn.Str("pregame") then
        LiveClock(clock.value,
                  if cfg.showDownDistance && Truthy(g.downDistance) && Truthy(g.ballPossession) then g.downDistance else None)
      else KickOff(DisplayHour(hour), hour >= 12);
    Row(hidden, hidden, awayClass, homeClass,
        PossessionDot(cfg, g, g.awayTeam), PossessionDot(cfg, g, g.homeTeam), center)
  }

  /** `createGameRow` as written; `hour` is the local hour of the kick-off.
      In a final game a side is coloured winning when the other side's score
      string sorts below its own. */
  function GameRow(cfg: Config, g: Espn.Entry, hour: nat): (r: Row)
    requires hour < 24
    ensures IsFinal(g.status) ==> r.center == FinalScore(OutcomeAsWritten(g.awayScore, g.homeScore))
    ensures IsFinal(g.status) ==> (r.homeClass == Winning <==> ScoreLessAsWritten(g.awayScore, g.homeScore))
    ensures IsFinal(g.status) ==> (r.awayClass == Winning <==> !ScoreLessAsWritten(g.awayScore, g.homeScore) && ScoreLessAsWritten(g.homeScore, g.awayScore))
    ensures r == RowFor(cfg, g, hour, OutcomeAsWritten(g.awayScore, g.homeScore))
  {
    RowFor(cfg, g, hour, OutcomeAsWritten(g.awayScore, g.homeScore))
  }

  /** The row as evidently intended: the colours compare the scores by value. */
  function GameRowIntended(cfg: Config, g: Espn.Entry, hour: nat): (r: Row)
    requires hour < 24
    ensures var a := ScoreValue(g.awayScore); var h := ScoreValue(g.homeScore);
            IsFinal(g.status) && a.Some? && h.Some? ==>
              (r.homeClass == Winning <==> a.value < h.value) &&
              (r.awayClass == Winning <==> h.value < a.value)
    ensures r == RowFor(cfg, g, hour, Outcome(g.awayScore, g.homeScore))
  {
    RowFor(cfg, g, hour, Outcome(g.awayScore, g.homeScore))
  }

  /** The final game 7 (away) to 21 (home) is drawn with the away side winning
      as written, and with the home side winning as intended. */
  lemma GameRowMisranks(cfg: Config, g: Espn.Entry, hour: nat)
    requires hour < 24 && IsFinal(g.status) && g.awayScore == Some("7") && g.homeScore == Some("21")
    ensures GameRow(cfg, g, hour).awayClass == Winning && GameRow(cfg, g, hour).homeClass == Losing
    ensures GameRowIntended(cfg, g, hour).homeClass == Winning && GameRowIntended(cfg, g, hour).awayClass == Losing
  {
    StringComparisonMisranks();
    assert ScoreValue(g.awayScore) == Some(7) && ScoreValue(g.homeScore) == Some(21);
  }

  /** The two rows agree when both scores are digit strings of one width. */
  lemma GameRowAgreesOnEqualWidth(cfg: Config, g: Espn.Entry, hour: nat)
    requires hour < 24 && g.awayScore.Some? && g.homeScore.Some?
    requires DigitString(g.awayScore.value) && DigitString(g.homeScore.value)
    requires |g.awayScore.value| == |g.homeScore.value|
    ensures GameRow(cfg, g, hour) == GameRowIntended(cfg, g, hour)
  {
    AsWrittenAgreesOnEqualWidth(g.awayScore.value, g.homeScore.value);
  }

  /** In a final game at most one side is marked, and it is marked losing
      exactly when the other is marked winning; a tie marks neither. */
  lemma FinalClassesConsistent(cfg: Config, g: Espn.Entry, hour: nat)
    requires hour < 24 && IsFinal(g.status)
    ensures var r := GameRow(cfg, g, hour);
            (r.awayClass == Losing <==> r.homeClass == Winning) &&
            (r.homeClass == Losing <==> r.awayClass == Winning) &&
            (r.center == FinalScore(Tie) <==> r.awayClass == NoResult && r.homeClass == NoResult)
  {
  }

  /** Between two different teams the possession dot is on one side at most. */
  lemma OneDotAtMost(cfg: Config, g: Espn.Entry, hour: nat)
    requires hour < 24 && g.awayTeam != g.homeTeam
    ensures !(GameRow(cfg, g, hour).awayDot.Dot? && GameRow(cfg, g, hour).homeDot.Dot?)
  {
  }

  // ---------------------------------------------------------------------------
  // The widget

  datatype View = Loading | Grid(left: seq<Row>, right: seq<Row>)

  function Rows(cfg: Config, games: seq<Espn.Entry>, hourOf: int -> nat): (r: seq<Row>)
    requires forall i :: 0 <= i < |games| ==> hourOf(games[i].timestamp) < 24
    ensures |r| == |games|
    ensures forall i :: 0 <= i < |games| ==> r[i] == GameRow(cfg, games[i], hourOf(games[i].timestamp))
  {
    if games == [] then [] else [GameRow(cfg, games[0], hourOf(games[0].timestamp))] + Rows(cfg, games[1..], hourOf)
  }

  /** `getDom`: "Loading" without scores; otherwise the games in focus, cut
      to an even number, in two columns. */
  function GetDom(cfg: Config, focusOn: Option<seq<string>>, scores: Option<seq<Espn.Entry>>, hourOf: int -> nat): (d: View)
    requires forall h :: hourOf(h) < 24
    ensures d == Loading <==> scores.None? || scores.value == []
    ensures d.Grid? ==> |d.left| == |d.right| &&
                        2 * |d.left| <= |FilteredScores(focusOn, scores).value|
    ensures d.Grid? ==>
              var games := FilteredScores(focusOn, scores).value;
              |d.left| == |games| / 2 && |d.right| == |d.left| &&
              (forall i :: 0 <= i < |d.left| ==> d.left[i] == GameRow(cfg, games[i], hourOf(games[i].timestamp))) &&
              (forall i :: 0 <= i < |d.right| ==>
                 d.right[i] == GameRow(cfg, games[|d.left| + i], hourOf(games[|d.left| + i].timestamp)))
  {
    if scores.None? || scores.value == [] then Loading
    else
      var games := FilteredScores(focusOn, scores).value;
      var (left, right) := Columns(games);
      Grid(Rows(cfg, left, hourOf), Rows(cfg, right, hourOf))
  }
}
