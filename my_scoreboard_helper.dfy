/** The node helper of MMM-MyScoreboard: at start it lists the local logo
    files by league, and for each score request it picks the provider for
    today and for yesterday, or, for the NFL in weekly mode, asks for the
    seven days of the week and hands back their games together, sorted by
    kick-off. The file system and the providers are given as values (see
    README). */
module MyScoreboardHelper {
  import opened Util

  // ---------------------------------------------------------------------------
  // getDirectoryTree

  /** An entry of `fs.readdirSync(dir, { withFileTypes: true })`, with the
      entries of a directory listed below it. */
  datatype FsEntry = File(name: string) | Dir(name: string, entries: seq<FsEntry>)

  /** A node of the tree `getDirectoryTree` returns. */
  datatype TreeNode = Leaf(name: string) | Branch(name: string, children: seq<TreeNode>)

  predicate IsLogoName(name: string) {
    EndsWith(name, ".svg") || EndsWith(name, ".png")
  }

  /** The pruned tree of a directory's entries, in listing order: a logo
      file is a leaf, the name test coming first, so a directory named like
      a logo is a leaf too; another directory is a branch when its own tree
      is not empty; anything else is dropped. */
  function Tree(entries: seq<FsEntry>): (r: seq<TreeNode>)
    ensures |r| <= |entries|
    decreases entries
  {
    if entries == [] then []
    else
      var e := entries[|entries| - 1];
      Tree(entries[..|entries| - 1]) + Node(e)
  }

  function Node(e: FsEntry): (r: seq<TreeNode>)
    ensures |r| <= 1
    decreases e
  {
    if IsLogoName(e.name) then [Leaf(e.name)]
    else if e.Dir? then
      var children := Tree(e.entries);
      if children != [] then [Branch(e.name, children)] else []
    else []
  }

  /** `getDirectoryTree`: the `forEach` that pushes a node for each kept
      entry, recursing into directories. */
  method GetDirectoryTree(entries: seq<FsEntry>) returns (result: seq<TreeNode>)
    ensures result == Tree(entries)
    decreases entries
  {
    result := [];
    var i := 0;
    while i < |entries|
      invariant 0 <= i <= |entries|
      invariant result == Tree(entries[..i])
    {
      var file := entries[i];
      assert entries[..i + 1][..i] == entries[..i];
      if IsLogoName(file.name) {
        result := result + [Leaf(file.name)];
      } else if file.Dir? {
        var children := GetDirectoryTree(file.entries);
        if |children| > 0 {
          result := result + [Branch(file.name, children)];
        }
      }
      i := i + 1;
    }
    assert entries[..|entries|] == entries;
  }

  /** What the pruning guarantees of every level: leaves are logo files and
      branches are never empty. */
  predicate Pruned(nodes: seq<TreeNode>)
    decreases nodes
  {
    forall k :: 0 <= k < |nodes| ==>
      match nodes[k]
      case Leaf(name) => IsLogoName(name)
      case Branch(name, children) => !IsLogoName(name) && children != [] && Pruned(children)
  }

  lemma {:induction false} TreeIsPruned(entries: seq<FsEntry>)
    ensures Pruned(Tree(entries))
    decreases entries
  {
    if entries != [] {
      var e := entries[|entries| - 1];
      TreeIsPruned(entries[..|entries| - 1]);
      if !IsLogoName(e.name) && e.Dir? {
        TreeIsPruned(e.entries);
      }
      var r := Tree(entries);
      var init := Tree(entries[..|entries| - 1]);
      assert r == init + Node(e);
      forall k | 0 <= k < |r|
        ensures match r[k]
                case Leaf(name) => IsLogoName(name)
                case Branch(name, children) => !IsLogoName(name) && children != [] && Pruned(children)
      {
        if k < |init| {
          assert r[k] == init[k];
        } else {
          assert r[k] == Node(e)[0];
        }
      }
    }
  }

  /** Every logo file of the directory is listed, and every node stands for
      an entry of the same name. */
  lemma {:induction false} TreeKeepsLogos(entries: seq<FsEntry>)
    ensures forall e :: e in entries && IsLogoName(e.name) ==> Leaf(e.name) in Tree(entries)
    ensures forall n :: n in Tree(entries) ==> exists e :: e in entries && e.name == n.name
  {
    if entries != [] {
      var init := entries[..|entries| - 1];
      var last := entries[|entries| - 1];
      TreeKeepsLogos(init);
      assert entries == init + [last];
      forall n | n in Tree(entries)
        ensures exists e :: e in entries && e.name == n.name
      {
        if n in Tree(init) {
          var e :| e in init && e.name == n.name;
          assert e in entries;
        } else {
          assert n in Node(last);
        }
      }
    }
  }

  /** The name test comes first: a directory named like a logo is a leaf,
      whatever it holds. */
  lemma LogoNamedDirectoryIsLeaf(name: string, entries: seq<FsEntry>)
    requires IsLogoName(name)
    ensures Tree([Dir(name, entries)]) == [Leaf(name)]
  {
    assert [Dir(name, entries)][..0] == [];
  }

  /** A directory not named like a logo is dropped exactly when nothing
      below it is kept, and is otherwise a branch holding its own tree. */
  lemma EmptyDirectoryDropped(name: string, entries: seq<FsEntry>)
    requires !IsLogoName(name)
    ensures Tree(entries) == [] ==> Tree([Dir(name, entries)]) == []
    ensures Tree(entries) != [] ==> Tree([Dir(name, entries)]) == [Branch(name, Tree(entries))]
  {
    assert [Dir(name, entries)][..0] == [];
  }

  /** The tree of a listing is the trees of its parts, one after the other. */
  lemma {:induction false} TreeConcat(a: seq<FsEntry>, b: seq<FsEntry>)
    ensures Tree(a + b) == Tree(a) + Tree(b)
    decreases |b|
  {
    if b == [] {
      assert a + b == a;
    } else {
      var init := b[..|b| - 1];
      TreeConcat(a, init);
      assert (a + b)[..|a + b| - 1] == a + init;
    }
  }

  // ---------------------------------------------------------------------------
  // The logo lists of `start`

  function Names(nodes: seq<TreeNode>): (r: seq<string>)
    ensures |r| == |nodes| && forall k :: 0 <= k < |r| ==> r[k] == nodes[k].name
  {
    if nodes == [] then [] else [nodes[0].name] + Names(nodes[1..])
  }

  /** The dictionary one `fsTree.forEach` fills: a key per top-level node
      with children, holding its child names; a later node of the same name
      replaces an earlier one. */
  function LogoMap(tree: seq<TreeNode>): (r: map<string, seq<string>>)
    ensures forall league :: league in r ==> exists k :: 0 <= k < |tree| && tree[k].Branch? && tree[k].name == league
  {
    if tree == [] then map[]
    else
      var init := LogoMap(tree[..|tree| - 1]);
      var league := tree[|tree| - 1];
      if league.Branch? then init[league.name := Names(league.children)] else init
  }

  /** The keys are exactly the names of the top-level branches. */
  lemma {:induction false} LogoMapKeys(tree: seq<TreeNode>)
    ensures LogoMap(tree).Keys == set k | 0 <= k < |tree| && tree[k].Branch? :: tree[k].name
  {
    if tree != [] {
      var n := |tree| - 1;
      LogoMapKeys(tree[..n]);
      var before := set k | 0 <= k < n && tree[..n][k].Branch? :: tree[..n][k].name;
      var now := set k | 0 <= k < |tree| && tree[k].Branch? :: tree[k].name;
      if tree[n].Branch? {
        assert now == before + {tree[n].name};
      } else {
        assert now == before;
      }
    }
  }

  /** A league's list is the child names of the last branch of that name. */
  lemma {:induction false} LogoMapValue(tree: seq<TreeNode>, k: int)
    requires 0 <= k < |tree| && tree[k].Branch?
    requires forall j :: k < j < |tree| ==> !(tree[j].Branch? && tree[j].name == tree[k].name)
    ensures tree[k].name in LogoMap(tree) && LogoMap(tree)[tree[k].name] == Names(tree[k].children)
  {
    if k < |tree| - 1 {
      LogoMapValue(tree[..|tree| - 1], k);
    }
  }

  /** The `forEach` over the top level of one logo directory. */
  method BuildLogoMap(tree: seq<TreeNode>) returns (logos: map<string, seq<string>>)
    ensures logos == LogoMap(tree)
  {
    logos := map[];
    var i := 0;
    while i < |tree|
      invariant 0 <= i <= |tree|
      invariant logos == LogoMap(tree[..i])
    {
      var league := tree[i];
      assert tree[..i + 1][..i] == tree[..i];
      if league.Branch? {
        var logoFiles: seq<string> := [];
        var j := 0;
        while j < |league.children|
          invariant 0 <= j <= |league.children|
          invariant logoFiles == Names(league.children[..j])
        {
          assert league.children[..j + 1] == league.children[..j] + [league.children[j]];
          logoFiles := logoFiles + [league.children[j].name];
          j := j + 1;
        }
        assert league.children[..|league.children|] == league.children;
        logos := logos[league.name := logoFiles];
      }
      i := i + 1;
    }
    assert tree[..|tree|] == tree;
  }

  // ---------------------------------------------------------------------------
  // Score requests

  /** The providers `start` registers. */
  const Providers: set<string> := {"SNET", "SNET_YD", "ESPN", "Scorepanel"}

  /** `this.providers[name]`: undefined for a name not registered. */
  function ProviderFor(name: string): (r: Option<string>)
    ensures r.Some? <==> name in Providers
    ensures r.Some? ==> r.value == name
  {
    if name in Providers then Some(name) else None
  }

  /** `provider2`: SNET's yesterday comes from SNET_YD; every other
      provider serves its own yesterday. */
  function YesterdayProvider(name: string): (r: Option<string>)
    ensures name == "SNET" ==> r == Some("SNET_YD")
    ensures name != "SNET" ==> r == ProviderFor(name)
  {
    if name == "SNET" then ProviderFor("SNET_YD") else ProviderFor(name)
  }

  datatype Channel = Today | Yesterday

  /** The request payload; days are day numbers, so one day earlier is one
      less and a week earlier seven less. */
  datatype Payload = Payload(provider: string, gameDate: int, league: string, isWeekly: bool,
                             today: bool, yesterday: string, index: int)

  /** What one `MMM-MYSCOREBOARD-GET-SCORES` sets going, in order:
      a provider's scores for one day, the weekly aggregation from a start
      day, the `notRun` update, or the TypeError of calling `getScores` on
      an unregistered provider, which ends the handler. */
  datatype Event =
    | DayScores(provider: string, day: int, channel: Channel)
    | WeekScores(provider: string, weekStart: int, channel: Channel)
    | NotRunUpdate(scores: seq<Game>, notRun: bool, sortIdx: int)
    | Threw

  predicate Weekly(p: Payload) {
    p.isWeekly && p.league == "NFL"
  }

  function TodayEvents(p: Payload): seq<Event> {
    if !p.today then [NotRunUpdate([], true, 999)]
    else
      var provider := ProviderFor(p.provider);
      if provider.None? then [Threw]
      else if Weekly(p) then [WeekScores(provider.value, p.gameDate, Today)]
      else [DayScores(provider.value, p.gameDate, Today)]
  }

  function YesterdayEvents(p: Payload): seq<Event> {
    if p.yesterday != "yes" then []
    else
      var provider := YesterdayProvider(p.provider);
      if provider.None? then [Threw]
      else if Weekly(p) then [WeekScores(provider.value, p.gameDate - 7, Yesterday)]
      else [DayScores(provider.value, p.gameDate - 1, Yesterday)]
  }

  /** `socketNotificationReceived("MMM-MYSCOREBOARD-GET-SCORES", p)`. */
  function GetScores(p: Payload): (r: seq<Event>)
    ensures r != [] && (Threw in r ==> r[|r| - 1] == Threw)
    ensures !p.today ==> r[0] == NotRunUpdate([], true, 999)
    ensures p.today && ProviderFor(p.provider).None? ==> r == [Threw]
    ensures p.yesterday != "yes" ==> |r| == 1
  {
    var first := TodayEvents(p);
    if first == [Threw] then first else first + YesterdayEvents(p)
  }

  /** Without today, exactly one update is sent, at once: no scores,
      `notRun`, and sort index 999. */
  lemma NotRunWithoutToday(p: Payload)
    requires !p.today
    ensures var events := GetScores(p);
            events[0] == NotRunUpdate([], true, 999) &&
            |set k | 0 <= k < |events| && events[k].NotRunUpdate?| == 1
  {
    var events := GetScores(p);
    assert forall k :: 0 <= k < |events| && events[k].NotRunUpdate? ==> k == 0;
    assert (set k | 0 <= k < |events| && events[k].NotRunUpdate?) == {0};
  }

  /** Yesterday is one day before the game date, or in weekly NFL mode the
      week starting seven days before it; SNET answers it through SNET_YD. */
  lemma YesterdayRequest(p: Payload)
    requires p.yesterday == "yes" && p.provider in Providers
    ensures var events := GetScores(p);
            var provider := if p.provider == "SNET" then "SNET_YD" else p.provider;
            events[|events| - 1] ==
              (if Weekly(p) then WeekScores(provider, p.gameDate - 7, Yesterday)
               else DayScores(provider, p.gameDate - 1, Yesterday))
  {
  }

  /** Today's request goes to the named provider for the game date itself. */
  lemma TodayRequest(p: Payload)
    requires p.today && p.provider in Providers
    ensures GetScores(p)[0] ==
              (if Weekly(p) then WeekScores(p.provider, p.gameDate, Today) else DayScores(p.provider, p.gameDate, Today))
  {
  }

  /** An unregistered provider requested for today throws before anything
      else happens. */
  lemma UnknownProviderThrows(p: Payload)
    requires p.today && p.provider !in Providers
    ensures GetScores(p) == [Threw]
  {
  }

  // ---------------------------------------------------------------------------
  // getNFLWeeklyScores

  /** A game as the provider returns it; `kickoff` is the time of its first
      competition, or of the game itself when it has no competitions. */
  datatype Game = Game(id: string, kickoff: int)

  function Kickoff(g: Game): int { g.kickoff }

  datatype Delivery = Delivery(scores: seq<Game>, sortIdx: int)

  const DaysPerWeek := 7

  /** The games the answers so far add, in arrival order; an empty or
      missing answer adds nothing. */
  function Collected(answers: seq<Option<seq<Game>>>): seq<Game> {
    if answers == [] then []
    else
      var last := answers[|answers| - 1];
      Collected(answers[..|answers| - 1]) + (if last.Some? then last.value else [])
  }

  /** The state of one `getNFLWeeklyScores` call: the seven day requests it
      sent, the games collected, the answers counted, and the callbacks
      made. */
  class WeekAggregation {
    var days: seq<int>
    var allScores: seq<Game>
    var completedRequests: nat
    var delivered: seq<Delivery>
    const sortIdx: int
    /** The answers in the order they came. */
    ghost var answers: seq<Option<seq<Game>>>

    ghost predicate Valid()
      reads this
    {
      |days| == DaysPerWeek &&
      completedRequests == |answers| <= DaysPerWeek &&
      (completedRequests < DaysPerWeek ==> allScores == Collected(answers) && delivered == []) &&
      (completedRequests == DaysPerWeek ==>
         allScores == SortBy(Collected(answers), Kickoff) && delivered == [Delivery(allScores, sortIdx)])
    }

    /** The loop of `getNFLWeeklyScores`: seven day requests from the week's
      start, which is `gameDate`, or a week earlier for the previous week. */
    constructor(gameDate: int, isPreviousWeek: bool, index: int)
      ensures Valid() && sortIdx == index
      ensures allScores == [] && completedRequests == 0 && delivered == []
      ensures |days| == DaysPerWeek &&
              forall i :: 0 <= i < DaysPerWeek ==> days[i] == (if isPreviousWeek then gameDate - 7 else gameDate) + i
    {
      var weekStart := if isPreviousWeek then gameDate - 7 else gameDate;
      var requested: seq<int> := [];
      var i := 0;
      while i < DaysPerWeek
        invariant 0 <= i <= DaysPerWeek
        invariant |requested| == i && forall k :: 0 <= k < i ==> requested[k] == weekStart + k
      {
        requested := requested + [weekStart + i];
        i := i + 1;
      }
      days := requested;
      allScores := [];
      completedRequests := 0;
      delivered := [];
      sortIdx := index;
      answers := [];
    }

    /** The provider's callback for one day: non-empty scores are added; the
      seventh answer sorts everything by kick-off and calls back. Each of
      the seven requests answers once. */
    method DayAnswered(scores: Option<seq<Game>>)
      requires Valid() && completedRequests < DaysPerWeek
      modifies this
      ensures Valid() && answers == old(answers) + [scores] && days == old(days)
      ensures completedRequests < DaysPerWeek ==> delivered == []
      ensures completedRequests == DaysPerWeek ==> delivered == [Delivery(SortBy(Collected(answers), Kickoff), sortIdx)]
    {
      if scores.Some? && |scores.value| > 0 {
        allScores := allScores + scores.value;
      }
      completedRequests := completedRequests + 1;
      answers := answers + [scores];
      assert answers[..|answers| - 1] == old(answers);
      assert allScores == Collected(answers) by {
        if scores.Some? && scores.value == [] {
          assert old(allScores) + scores.value == old(allScores);
        }
      }
      if completedRequests == DaysPerWeek {
        allScores := SortBy(allScores, Kickoff);
        delivered := delivered + [Delivery(allScores, sortIdx)];
      }
    }
  }

  /** What the single callback hands back: every game of the seven answers,
      ordered by kick-off, games with the same kick-off in arrival order. */
  lemma DeliveredScores(answers: seq<Option<seq<Game>>>)
    ensures var s := SortBy(Collected(answers), Kickoff);
            multiset(s) == multiset(Collected(answers)) &&
            SortedBy(s, Kickoff) &&
            forall t :: WithKey(s, Kickoff, t) == WithKey(Collected(answers), Kickoff, t)
  {
    SortByPerm(Collected(answers), Kickoff);
    SortBySorted(Collected(answers), Kickoff);
    forall t ensures WithKey(SortBy(Collected(answers), Kickoff), Kickoff, t) == WithKey(Collected(answers), Kickoff, t) {
      SortByStable(Collected(answers), Kickoff, t);
    }
  }

  /** Every game of every answer is collected, and nothing else. */
  lemma {:induction false} CollectedGames(answers: seq<Option<seq<Game>>>, g: Game)
    ensures g in Collected(answers) <==> exists k :: 0 <= k < |answers| && answers[k].Some? && g in answers[k].value
  {
    if answers != [] {
      var n := |answers| - 1;
      CollectedGames(answers[..n], g);
      if exists k :: 0 <= k < n && answers[..n][k].Some? && g in answers[..n][k].value {
        var k :| 0 <= k < n && answers[..n][k].Some? && g in answers[..n][k].value;
        assert answers[k] == answers[..n][k];
      }
      if exists k :: 0 <= k < |answers| && answers[k].Some? && g in answers[k].value {
        var k :| 0 <= k < |answers| && answers[k].Some? && g in answers[k].value;
        if k < n {
          assert answers[..n][k] == answers[k];
        }
      }
    }
  }

  // ---------------------------------------------------------------------------
  // The helper's state

  class Helper {
    var localLogos: map<string, seq<string>>
    var localLogosCustom: map<string, seq<string>>

    /** `start`: the logo lists of `logos` and of `logos_custom`. */
    constructor(logosDir: seq<FsEntry>, customDir: seq<FsEntry>)
      ensures localLogos == LogoMap(Tree(logosDir))
      ensures localLogosCustom == LogoMap(Tree(customDir))
    {
      var fsTree := GetDirectoryTree(logosDir);
      var logos := BuildLogoMap(fsTree);
      fsTree := GetDirectoryTree(customDir);
      var custom := BuildLogoMap(fsTree);
      localLogos := logos;
      localLogosCustom := custom;
    }

    /** `MMM-MYSCOREBOARD-GET-LOCAL-LOGOS`: both lists, as built at start. */
    function LocalLogoList(): (r: (map<string, seq<string>>, map<string, seq<string>>))
      reads this
      ensures r.0 == localLogos && r.1 == localLogosCustom
    {
      (localLogos, localLogosCustom)
    }
  }
}
