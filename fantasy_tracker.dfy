/** MMM-FantasyTracker: shows the live matchup of an ESPN fantasy-football
    league. The module keeps the last matchup (or error) the node helper
    sent and renders it through a set of small helpers: ordinal standings,
    team initials, shortened player names, the starting lineup in position
    order, live/to-play counts, a projected win probability and the CSS
    colour class of a professional team. Points are modelled as integers in
    a fixed unit (the source's decimal points rounded to that unit). */
module FantasyTracker {
  import opened Util

  // ---------------------------------------------------------------------------
  // Ordinal standings

  const Suffixes: seq<string> := ["th", "st", "nd", "rd"]

  /** `getOrdinalStanding`: a standing of 0 or none at all is falsy and shows
      "?". The suffix index is `(v - 20) % 10` with JavaScript's truncating
      remainder; a negative or too large index reads `undefined` and falls
      back to `suffix[v]` and then to "th". */
  function OrdinalStanding(standing: Option<int>): (r: string)
    ensures standing.None? || standing == Some(0) <==> r == "?"
    ensures standing.Some? && standing.value != 0 ==>
              StartsWith(r, IntToString(standing.value)) &&
              r[|IntToString(standing.value)|..] in Suffixes
  {
    if standing.None? || standing.value == 0 then "?"
    else
      var num := standing.value;
      var suffix := OrdinalSuffix(JsRem(num, 100));
      assert (IntToString(num) + suffix)[|IntToString(num)|..] == suffix;
      assert IntToString(num) + suffix != "?" by {
        if num < 0 { assert (IntToString(num) + suffix)[0] == '-'; }
        else { assert |suffix| == 2; }
      }
      IntToString(num) + suffix
  }

  /** The suffix for `v`, the standing's remainder by 100. */
  function OrdinalSuffix(v: int): (r: string)
    ensures r in Suffixes
  {
    var a := JsRem(v - 20, 10);
    if 0 <= a < 4 then Suffixes[a] else if 0 <= v < 4 then Suffixes[v] else Suffixes[0]
  }

  /** The English rule for ordinals: 11, 12 and 13 take "th"; otherwise the
      last digit decides (1 "st", 2 "nd", 3 "rd", anything else "th"). */
  function EnglishSuffix(n: nat): string {
    if 11 <= n % 100 <= 13 then "th"
    else if n % 10 == 1 then "st"
    else if n % 10 == 2 then "nd"
    else if n % 10 == 3 then "rd"
    else "th"
  }

  lemma LastDigit(n: nat)
    ensures n % 100 % 10 == n % 10
    ensures n % 100 >= 20 ==> (n % 100 - 20) % 10 == n % 10
  {
    var q := n / 100;
    assert n == 100 * q + n % 100;
    assert n == 10 * (10 * q) + n % 100;
  }

  /** For every positive standing the source's index arithmetic agrees with
      the English rule (so 1st, 2nd, 3rd, 11th, 12th, 13th, 21st, 101st). */
  lemma OrdinalIsEnglish(n: int)
    requires n > 0
    ensures OrdinalStanding(Some(n)) == IntToString(n) + EnglishSuffix(n)
  {
    SuffixIsEnglish(n);
  }

  /** The suffix arithmetic on the remainder by 100 is the English rule. */
  lemma SuffixIsEnglish(n: nat)
    ensures OrdinalSuffix(JsRem(n, 100)) == EnglishSuffix(n)
  {
    var v := n % 100;
    assert JsRem(n, 100) == v;
    LastDigit(n);
    if v >= 20 {
      assert JsRem(v - 20, 10) == n % 10;
    } else {
      SuffixBelowTwenty(v);
    }
  }

  /** Below 20 the index is negative except at 0 and 10, so 1, 2 and 3
      take their own suffix and the rest, the teens included, "th". */
  lemma SuffixBelowTwenty(v: nat)
    requires v < 20
    ensures OrdinalSuffix(v) == (if v == 1 then "st" else if v == 2 then "nd" else if v == 3 then "rd" else "th")
  {
    var a := JsRem(v - 20, 10);
    assert a == -((20 - v) % 10);
  }

  /** A negative standing always takes "th": both indexes are out of range. */
  lemma NegativeStanding(n: int)
    requires n < 0
    ensures OrdinalStanding(Some(n)) == IntToString(n) + "th"
  {
    var v := JsRem(n, 100);
    var a := JsRem(v - 20, 10);
    assert v <= 0;
    assert a <= 0;
  }

  // ---------------------------------------------------------------------------
  // Team initials

  /** The pieces of a split that are not empty, in order. */
  function NonEmpty(pieces: seq<string>): (r: seq<string>)
    ensures |r| <= |pieces|
    ensures forall i :: 0 <= i < |r| ==> r[i] != [] && r[i] in pieces
    ensures forall w :: w in r <==> w in pieces && w != []
  {
    if pieces == [] then []
    else (if pieces[0] != [] then [pieces[0]] else []) + NonEmpty(pieces[1..])
  }

  /** A single piece is kept exactly when it is not empty. */
  lemma NonEmptySingle(x: string)
    ensures NonEmpty([x]) == if x != [] then [x] else []
  {
    assert [x][1..] == [];
  }

  /** Filtering distributes over concatenation, so the words kept keep their
      order. */
  lemma {:induction false} NonEmptyConcat(a: seq<string>, b: seq<string>)
    ensures NonEmpty(a + b) == NonEmpty(a) + NonEmpty(b)
  {
    if a == [] {
      assert a + b == b;
    } else {
      assert (a + b)[0] == a[0];
      assert (a + b)[1..] == a[1..] + b;
      NonEmptyConcat(a[1..], b);
    }
  }

  /** `teamName.split(' ').filter(word => word.length > 0)` */
  function NameWords(name: string): (r: seq<string>)
    ensures forall i :: 0 <= i < |r| ==> r[i] != [] && !Contains(r[i], " ")
  {
    var pieces := Split(name, " ");
    assert forall w :: w in pieces ==> !Contains(w, " ");
    NonEmpty(pieces)
  }

  const Football := "\U{1F3C8}"

  /** `getTeamInitials` */
  function TeamInitials(teamName: string): (r: string)
    ensures |NameWords(teamName)| >= 2 ==>
              r == [UpperChar(NameWords(teamName)[0][0]), UpperChar(NameWords(teamName)[1][0])]
    ensures |NameWords(teamName)| == 1 ==>
              var w := NameWords(teamName)[0];
              1 <= |r| <= 2 && r == Upper(w[..Min(2, |w|)])
    ensures NameWords(teamName) == [] ==> r == Football
  {
    var words := NameWords(teamName);
    if |words| >= 2 then [UpperChar(words[0][0]), UpperChar(words[1][0])]
    else if |words| == 1 then
      var w := words[0];
      Upper(w[..Min(2, |w|)])
    else Football
  }

  // ---------------------------------------------------------------------------
  // Player names

  const DstSuffix := " D/ST"

  /** `name.replace(/ D\/ST$/, '')`: only a suffix at the very end is removed. */
  function StripDst(name: string): (r: string)
    ensures EndsWith(name, DstSuffix) ==> r + DstSuffix == name
    ensures !EndsWith(name, DstSuffix) ==> r == name
  {
    if EndsWith(name, DstSuffix) then
      assert name == name[..|name| - 5] + name[|name| - 5..];
      name[..|name| - 5]
    else name
  }

  /** `formatPlayerName`. `parts[0][0]` of an empty first part (a name that
      starts with a space) is `undefined`, which the template literal writes
      out as the word. */
  function FormatPlayerName(name: string): (r: string)
    ensures |StripDst(name)| <= 13 ==> r == StripDst(name)
    ensures |StripDst(name)| > 13 && !Contains(StripDst(name), " ") ==> r == StripDst(name)[..10] + "..."
  {
    var clean := StripDst(name);
    var parts := Split(clean, " ");
    if |clean| <= 13 then clean
    else if |parts| >= 2 && |clean| <= 18 then
      (if parts[0] == [] then "undefined" else [parts[0][0]]) + ". " + Join(parts[1..], " ")
    else if |parts| >= 2 then parts[|parts| - 1]
    else if |clean| > 12 then clean[..10] + "..."
    else clean
  }

  /** The first piece of a split is the text before the first separator and
      the other pieces join back to the text after it. */
  lemma SplitFirst(s: string, k: int)
    requires k == IndexOf(s, " ") && k >= 0
    ensures Split(s, " ")[0] == s[..k]
    ensures Join(Split(s, " ")[1..], " ") == s[k + 1..]
  {
    var rest := Split(s[k + 1..], " ");
    assert Split(s, " ") == [s[..k]] + rest;
    assert Split(s, " ")[1..] == rest;
    JoinSplit(s[k + 1..], " ");
  }

  /** With no space at all the split has a single piece. */
  lemma SplitNoSpace(s: string)
    requires IndexOf(s, " ") < 0
    ensures Split(s, " ") == [s]
  {
  }

  /** The last piece of a split is a suffix of the text. */
  lemma {:induction false} JoinEndsWithLast(parts: seq<string>, sep: string)
    requires |parts| >= 1
    ensures EndsWith(Join(parts, sep), parts[|parts| - 1])
  {
    if |parts| > 1 {
      JoinEndsWithLast(parts[1..], sep);
      var tail := Join(parts[1..], sep);
      var whole := parts[0] + sep + tail;
      assert whole[|whole| - |tail|..] == tail;
    }
  }

  /** Names that fit in 13 characters are shown whole (without " D/ST"). */
  lemma ShortNameKept(name: string)
    requires |StripDst(name)| <= 13
    ensures FormatPlayerName(name) == StripDst(name)
  {
  }

  /** A medium multi-word name becomes the first initial, ". " and the text
      after the first space, and is never longer than the name plus one. */
  lemma MediumNameInitial(name: string)
    requires var clean := StripDst(name);
             13 < |clean| <= 18 && IndexOf(clean, " ") > 0
    ensures var clean := StripDst(name);
            var k := IndexOf(clean, " ");
            FormatPlayerName(name) == [clean[0]] + ". " + clean[k + 1..] &&
            |FormatPlayerName(name)| <= |clean| + 1
  {
    var clean := StripDst(name);
    SplitFirst(clean, IndexOf(clean, " "));
  }

  /** A long multi-word name becomes its last word, which ends the name and
      contains no space. */
  lemma LongNameLastWord(name: string)
    requires var clean := StripDst(name);
             |clean| > 18 && IndexOf(clean, " ") >= 0
    ensures var clean := StripDst(name);
            var r := FormatPlayerName(name);
            EndsWith(clean, r) && !Contains(r, " ")
  {
    var clean := StripDst(name);
    var parts := Split(clean, " ");
    assert |parts| >= 2;
    assert FormatPlayerName(name) == parts[|parts| - 1];
    JoinSplit(clean, " ");
    JoinEndsWithLast(parts, " ");
  }

  /** A long single word is cut to ten characters and an ellipsis. */
  lemma LongSingleWordTruncated(name: string)
    requires var clean := StripDst(name);
             |clean| > 13 && IndexOf(clean, " ") < 0
    ensures var r := FormatPlayerName(name);
            |r| == 13 && r == StripDst(name)[..10] + "..."
  {
    SplitNoSpace(StripDst(name));
  }

  // ---------------------------------------------------------------------------
  // Lineup

  /** One player of a lineup as the node helper reports it. `gamePlayed` is
      the percentage of the player's game that has been played. */
  datatype Player = Player(name: string, slot: string, proTeam: string, gamePlayed: int,
                           points: int, projected: Option<int>)

  const PositionOrder: seq<string> := ["QB", "RB", "WR", "TE", "RB/WR/TE", "D/ST", "K"]

  predicate IsStarter(p: Player) { p.slot != "BE" && p.slot != "IR" }

  /** `lineup.filter(...)`: bench and injured-reserve slots are dropped. */
  function Starters(lineup: seq<Player>): (r: seq<Player>)
    ensures |r| <= |lineup|
    ensures forall i :: 0 <= i < |r| ==> IsStarter(r[i])
    ensures forall p :: p in r <==> p in lineup && IsStarter(p)
  {
    if lineup == [] then []
    else (if IsStarter(lineup[0]) then [lineup[0]] else []) + Starters(lineup[1..])
  }

  /** A single player is kept exactly when the slot is a starting one. */
  lemma StartersSingle(p: Player)
    ensures Starters([p]) == if IsStarter(p) then [p] else []
  {
    assert [p][1..] == [];
  }

  /** Filtering distributes over concatenation, so the starters keep their
      lineup order. */
  lemma {:induction false} StartersConcat(a: seq<Player>, b: seq<Player>)
    ensures Starters(a + b) == Starters(a) + Starters(b)
  {
    if a == [] {
      assert a + b == b;
    } else {
      assert (a + b)[0] == a[0];
      assert (a + b)[1..] == a[1..] + b;
      StartersConcat(a[1..], b);
    }
  }

  /** The sort key: the slot's place in `positionOrder`, 999 when absent. */
  function SlotRank(p: Player): (k: int)
    ensures 0 <= k < |PositionOrder| <==> p.slot in PositionOrder
    ensures p.slot !in PositionOrder ==> k == 999
  {
    var i := Find(PositionOrder, p.slot);
    if i == -1 then 999 else i
  }

  /** The players `getPlayerRows` renders, in rendering order. */
  function PlayerRows(lineup: seq<Player>): (r: seq<Player>)
    ensures multiset(r) == multiset(Starters(lineup))
    ensures SortedBy(r, SlotRank)
  {
    SortByPerm(Starters(lineup), SlotRank);
    SortBySorted(Starters(lineup), SlotRank);
    SortBy(Starters(lineup), SlotRank)
  }

  /** The rows are exactly the starters, in position order, with players of
      the same slot (and all unknown slots, last) in lineup order. */
  lemma PlayerRowsOrdered(lineup: seq<Player>)
    ensures multiset(PlayerRows(lineup)) == multiset(Starters(lineup))
    ensures forall p :: p in PlayerRows(lineup) ==> IsStarter(p)
    ensures SortedBy(PlayerRows(lineup), SlotRank)
    ensures forall k :: WithKey(PlayerRows(lineup), SlotRank, k) == WithKey(Starters(lineup), SlotRank, k)
  {
    var s := Starters(lineup);
    forall k ensures WithKey(PlayerRows(lineup), SlotRank, k) == WithKey(s, SlotRank, k) {
      SortByStable(s, SlotRank, k);
    }
    forall p | p in PlayerRows(lineup) ensures IsStarter(p) {
      assert p in multiset(PlayerRows(lineup));
    }
  }

  /** A player in a known slot is rendered before every unknown slot. */
  lemma KnownSlotsFirst(lineup: seq<Player>, i: int, j: int)
    requires 0 <= i < |PlayerRows(lineup)| && 0 <= j < |PlayerRows(lineup)|
    requires PlayerRows(lineup)[i].slot in PositionOrder
    requires PlayerRows(lineup)[j].slot !in PositionOrder
    ensures i < j
  {
    PlayerRowsOrdered(lineup);
  }

  // ---------------------------------------------------------------------------
  // Game state of a player

  predicate GameComplete(p: Player) { p.gamePlayed == 100 }
  predicate GameLive(p: Player) { p.gamePlayed > 0 && p.gamePlayed < 100 }
  predicate HasRealPoints(p: Player) { p.points > 0 }

  datatype Status = Complete | Live | GameTime

  /** `getPlayerStatus`: completion first, then a live game or real points. */
  function PlayerStatus(p: Player): (s: Status)
    ensures s == Complete <==> GameComplete(p)
    ensures s == Live <==> !GameComplete(p) && (GameLive(p) || HasRealPoints(p))
    ensures s == GameTime <==> !GameComplete(p) && !GameLive(p) && !HasRealPoints(p)
  {
    if GameComplete(p) then Complete
    else if GameLive(p) || HasRealPoints(p) then Live
    else GameTime
  }

  datatype Score = Actual(points: int) | Projected(points: int)

  /** `getPlayerScore`: `projected_points || 0` when the projection is missing. */
  function PlayerScore(p: Player): (s: Score)
    ensures s.Actual? <==> GameComplete(p) || HasRealPoints(p)
    ensures s.Actual? ==> s.points == p.points
    ensures s.Projected? ==> s.points == (if p.projected.Some? then p.projected.value else 0)
  {
    if GameComplete(p) || HasRealPoints(p) then Actual(p.points)
    else Projected(if p.projected.Some? then p.projected.value else 0)
  }

  /** A player still waiting for kick-off always shows a projection, and a
      player showing actual points is never waiting; a live game without
      points yet is the one case that is live and projected. */
  lemma StatusAndScore(p: Player)
    ensures PlayerStatus(p) == GameTime ==> PlayerScore(p).Projected?
    ensures PlayerScore(p).Actual? ==> PlayerStatus(p) != GameTime
    ensures PlayerStatus(p) == Live && PlayerScore(p).Projected? <==> GameLive(p) && !HasRealPoints(p)
  {
  }

  // ---------------------------------------------------------------------------
  // Team statistics

  function CountInPlay(s: seq<Player>): (n: nat)
    ensures n <= |s|
  {
    if s == [] then 0 else (if GameLive(s[0]) || HasRealPoints(s[0]) then 1 else 0) + CountInPlay(s[1..])
  }

  function CountToPlay(s: seq<Player>): (n: nat)
    ensures n <= |s|
  {
    if s == [] then 0
    else (if !GameComplete(s[0]) && !GameLive(s[0]) && !HasRealPoints(s[0]) then 1 else 0) + CountToPlay(s[1..])
  }

  /** Finished players without any points, counted by neither figure. */
  function CountDoneScoreless(s: seq<Player>): (n: nat)
    ensures n <= |s|
  {
    if s == [] then 0 else (if GameComplete(s[0]) && !HasRealPoints(s[0]) then 1 else 0) + CountDoneScoreless(s[1..])
  }

  /** `getTeamStats`: the "In Play" and "To Play" figures over the starters. */
  function TeamStats(lineup: seq<Player>): (r: (nat, nat))
    ensures r.0 + r.1 + CountDoneScoreless(Starters(lineup)) == |Starters(lineup)|
    ensures r.0 + r.1 <= |Starters(lineup)|
  {
    CountsPartition(Starters(lineup));
    (CountInPlay(Starters(lineup)), CountToPlay(Starters(lineup)))
  }

  /** Every player falls in exactly one of: in play, to play, or finished
      without points. */
  lemma {:induction false} CountsPartition(s: seq<Player>)
    ensures CountInPlay(s) + CountToPlay(s) + CountDoneScoreless(s) == |s|
  {
    if s != [] {
      CountsPartition(s[1..]);
    }
  }

  // ---------------------------------------------------------------------------
  // Win probability

  /** `Math.round(x)` for `x == num / den` with `den > 0`: floor(x + 1/2). */
  function RoundDiv(num: int, den: int): (r: int)
    requires den > 0
    ensures 2 * den * r <= 2 * num + den < 2 * den * (r + 1)
  {
    (2 * num + den) / (2 * den)
  }

  /** `calculateWinProbability`: the rounded share of the projected total,
      clamped to [5, 95]; 50 when either projection is falsy (0) or the
      total is not positive. */
  function WinProbability(yours: int, theirs: int): (r: int)
    ensures 5 <= r <= 95
    ensures yours == 0 || theirs == 0 || yours + theirs <= 0 ==> r == 50
  {
    if yours != 0 && theirs != 0 && yours + theirs > 0 then
      var total := yours + theirs;
      var pct := RoundDiv(100 * yours, total);
      if pct < 5 then 5 else if pct > 95 then 95 else pct
    else 50
  }

  /** The team with the larger projection is never the underdog. */
  lemma {:induction false} FavouriteAtLeastHalf(yours: int, theirs: int)
    requires yours >= theirs
    ensures WinProbability(yours, theirs) >= 50
  {
    if yours != 0 && theirs != 0 && yours + theirs > 0 {
      var total := yours + theirs;
      var r := RoundDiv(100 * yours, total);
      assert 200 * yours >= 100 * total;
      assert 2 * total * (r + 1) > 101 * total;
      if r < 50 {
        MulMonotone(r + 1, 50, 2 * total);
        assert false;
      }
    }
  }

  lemma MulMonotone(a: int, b: int, c: int)
    requires a <= b && c > 0
    ensures a * c <= b * c
  {
  }

  // ---------------------------------------------------------------------------
  // Team colours

  /** The name-to-class table of `getTeamColorClass`; every class is
      "team-" followed by the abbreviation stored here. */
  const TeamMap: seq<(string, string)> := [
    ("ARI", "ARI"), ("Arizona", "ARI"), ("Cardinals", "ARI"),
    ("ATL", "ATL"), ("Atlanta", "ATL"), ("Falcons", "ATL"),
    ("BAL", "BAL"), ("Baltimore", "BAL"), ("Ravens", "BAL"),
    ("BUF", "BUF"), ("Buffalo", "BUF"), ("Bills", "BUF"),
    ("CAR", "CAR"), ("Carolina", "CAR"), ("Panthers", "CAR"),
    ("CHI", "CHI"), ("Chicago", "CHI"), ("Bears", "CHI"),
    ("CIN", "CIN"), ("Cincinnati", "CIN"), ("Bengals", "CIN"),
    ("CLE", "CLE"), ("Cleveland", "CLE"), ("Browns", "CLE"),
    ("DAL", "DAL"), ("Dallas", "DAL"), ("Cowboys", "DAL"),
    ("DEN", "DEN"), ("Denver", "DEN"), ("Broncos", "DEN"),
    ("DET", "DET"), ("Detroit", "DET"), ("Lions", "DET"),
    ("GB", "GB"), ("Green Bay", "GB"), ("Packers", "GB"),
    ("HOU", "HOU"), ("Houston", "HOU"), ("Texans", "HOU"),
    ("IND", "IND"), ("Indianapolis", "IND"), ("Colts", "IND"),
    ("JAX", "JAX"), ("Jacksonville", "JAX"), ("Jaguars", "JAX"),
    ("KC", "KC"), ("Kansas City", "KC"), ("Chiefs", "KC"),
    ("LV", "LV"), ("Las Vegas", "LV"), ("Raiders", "LV"),
    ("LAC", "LAC"), ("Los Angeles Chargers", "LAC"), ("Chargers", "LAC"),
    ("LAR", "LAR"), ("Los Angeles Rams", "LAR"), ("Rams", "LAR"),
    ("MIA", "MIA"), ("Miami", "MIA"), ("Dolphins", "MIA"),
    ("MIN", "MIN"), ("Minnesota", "MIN"), ("Vikings", "MIN"),
    ("NE", "NE"), ("New England", "NE"), ("Patriots", "NE"),
    ("NO", "NO"), ("New Orleans", "NO"), ("Saints", "NO"),
    ("NYG", "NYG"), ("New York Giants", "NYG"), ("Giants", "NYG"),
    ("NYJ", "NYJ"), ("New York Jets", "NYJ"), ("Jets", "NYJ"),
    ("PHI", "PHI"), ("Philadelphia", "PHI"), ("Eagles", "PHI"),
    ("PIT", "PIT"), ("Pittsburgh", "PIT"), ("Steelers", "PIT"),
    ("SF", "SF"), ("San Francisco", "SF"), ("49ers", "SF"),
    ("SEA", "SEA"), ("Seattle", "SEA"), ("Seahawks", "SEA"),
    ("TB", "TB"), ("Tampa Bay", "TB"), ("Buccaneers", "TB"),
    ("TEN", "TEN"), ("Tennessee", "TEN"), ("Titans", "TEN"),
    ("WSH", "WSH"), ("Washington", "WSH"), ("Commanders", "WSH")
  ]

  /** The position of the first entry whose key equals `name` ignoring case. */
  function FindKey(entries: seq<(string, string)>, name: string): (i: int)
    ensures -1 <= i < |entries|
    ensures i >= 0 ==> Lower(entries[i].0) == Lower(name)
    ensures forall j :: 0 <= j < |entries| && (i < 0 || j < i) ==> Lower(entries[j].0) != Lower(name)
  {
    if entries == [] then -1
    else if Lower(entries[0].0) == Lower(name) then 0
    else
      var k := FindKey(entries[1..], name);
      if k < 0 then -1 else k + 1
  }

  /** `getTeamColorClass`: the class of the first key that matches the name
      case-insensitively; "" for a missing or empty name or no match. */
  function TeamColorClass(teamName: Option<string>): (r: string)
    ensures teamName.None? || teamName == Some("") ==> r == ""
  {
    if teamName.None? || teamName.value == "" then ""
    else
      var i := FindKey(TeamMap, teamName.value);
      if i < 0 then "" else "team-" + TeamMap[i].1
  }

  /** A name gets no class exactly when no key matches it ignoring case. */
  lemma NoClassIffNoKey(name: string)
    requires name != ""
    ensures TeamColorClass(Some(name)) == "" <==>
            forall j :: 0 <= j < |TeamMap| ==> Lower(TeamMap[j].0) != Lower(name)
  {
    var i := FindKey(TeamMap, name);
    if i >= 0 {
      assert Lower(TeamMap[i].0) == Lower(name);
    }
  }

  /** A class is "team-" and the abbreviation of a key matching the name. */
  lemma ClassOfMatchingKey(name: string)
    requires TeamColorClass(Some(name)) != ""
    ensures exists j :: 0 <= j < |TeamMap| &&
              TeamColorClass(Some(name)) == "team-" + TeamMap[j].1 && Lower(TeamMap[j].0) == Lower(name)
  {
    var i := FindKey(TeamMap, name);
    assert 0 <= i < |TeamMap|;
  }

  // ---------------------------------------------------------------------------
  // Module state

  /** What the node helper sends for one matchup; only the parts the model
      reasons about. */
  datatype Matchup = Matchup(yourLineup: seq<Player>, opponentLineup: seq<Player>,
                             yourProjected: int, opponentProjected: int)

  datatype SocketNote =
    | FantasyMatchupData(identifier: string, data: Matchup)
    | FantasyDataError(identifier: string, error: string)

  class Tracker {
    const identifier: string
    var matchupData: Option<Matchup>
    var loaded: bool
    var error: Option<string>
    var clownMode: bool

    /** `start`: without a league id or user name the module shows an error
        at once; otherwise it waits for the first data. */
    constructor(identifier: string, hasLeagueId: bool, hasUsername: bool, clownMode: bool)
      ensures this.identifier == identifier && this.clownMode == clownMode
      ensures matchupData.None?
      ensures loaded == !(hasLeagueId && hasUsername)
      ensures error.Some? <==> !(hasLeagueId && hasUsername)
    {
      this.identifier := identifier;
      this.clownMode := clownMode;
      matchupData := None;
      if !hasLeagueId || !hasUsername {
        error := Some("Missing required config: leagueId and username must be set");
        loaded := true;
      } else {
        error := None;
        loaded := false;
      }
    }

    /** `processMatchupData` */
    method ProcessMatchupData(data: Matchup)
      modifies this
      ensures matchupData == Some(data) && loaded && error.None?
      ensures clownMode == old(clownMode)
    {
      matchupData := Some(data);
      loaded := true;
      error := None;
    }

    /** `processError`: the last matchup stays, the error is shown instead. */
    method ProcessError(e: string)
      modifies this
      ensures error == Some(e) && loaded
      ensures matchupData == old(matchupData) && clownMode == old(clownMode)
    {
      error := Some(e);
      loaded := true;
    }

    /** `socketNotificationReceived`: only messages for this instance count. */
    method SocketNotificationReceived(note: SocketNote)
      modifies this
      ensures note.identifier != identifier ==>
                matchupData == old(matchupData) && loaded == old(loaded) && error == old(error)
      ensures note.identifier == identifier && note.FantasyMatchupData? ==>
                matchupData == Some(note.data) && loaded && error.None?
      ensures note.identifier == identifier && note.FantasyDataError? ==>
                error == Some(note.error) && loaded && matchupData == old(matchupData)
      ensures clownMode == old(clownMode)
    {
      if note.identifier == identifier {
        match note
        case FantasyMatchupData(_, data) => ProcessMatchupData(data);
        case FantasyDataError(_, e) => ProcessError(e);
      }
    }

    /** `notificationReceived`: `CLOWN_MODE_CHANGED` sets the clown option. */
    method ClownModeChanged(active: bool)
      modifies this
      ensures clownMode == active
      ensures matchupData == old(matchupData) && loaded == old(loaded) && error == old(error)
    {
      clownMode := active;
    }
  }
}
