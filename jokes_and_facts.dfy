/** MMM-JokesAndFacts: alternates between a dad joke and a useless fact,
    each taken round-robin from a cache the node helper fills. Results that
    match a filter term are dropped and requested again. */
module JokesAndFacts {
  import opened Util

  datatype Kind = Joke | Fact

  /** The requests sent to the node helper. */
  datatype Request = GetJoke | GetFact(language: string)

  const LoadingText := "Loading..."

  /** `filters.some(term => text.toLowerCase().indexOf(term.toLowerCase()) > -1)` */
  function ShouldFilter(filters: seq<string>, text: string): (r: bool)
    ensures r <==> exists i :: 0 <= i < |filters| && Contains(Lower(text), Lower(filters[i]))
  {
    if filters == [] then false
    else Contains(Lower(text), Lower(filters[0])) || ShouldFilter(filters[1..], text)
  }

  /** With no filter terms nothing is filtered. */
  lemma NoFilters(text: string)
    ensures !ShouldFilter([], text)
  {
  }

  /** An empty filter term matches every text. */
  lemma EmptyTermFiltersAll(filters: seq<string>, text: string, i: int)
    requires 0 <= i < |filters| && filters[i] == ""
    ensures ShouldFilter(filters, text)
  {
    assert StartsWith(Lower(text), Lower(filters[i]));
  }

  /** Matching ignores the case of ASCII letters. */
  lemma {:induction false} FilterIgnoresCase(filters: seq<string>, text: string)
    ensures ShouldFilter(filters, Upper(text)) == ShouldFilter(filters, text)
  {
    LowerUpper(text);
  }

  lemma LowerUpper(s: string)
    ensures Lower(Upper(s)) == Lower(s)
  {
    assert forall i :: 0 <= i < |s| ==> LowerChar(UpperChar(s[i])) == LowerChar(s[i]);
  }

  /** The position after `index` in a cache of `n` entries. */
  function Advance(index: nat, n: nat): (r: nat)
    requires n > 0
    ensures r < n
    ensures index + 1 < n ==> r == index + 1
    ensures index + 1 == n ==> r == 0
  {
    (index + 1) % n
  }

  /** From the first entry, the k-th advance of a cache of `n` entries lands on
      entry k, and the n-th back on the first: each entry is shown once in
      `n` rotations, then the cycle repeats. */
  lemma {:induction false} RoundRobin(n: nat, k: nat)
    requires n > 0 && k <= n
    ensures AdvanceTimes(0, n, k) == (if k == n then 0 else k)
  {
    if k > 0 {
      RoundRobin(n, k - 1);
      assert AdvanceTimes(0, n, k - 1) == k - 1;
      if k == n {
        assert Advance(k - 1, n) == n % n == 0;
      }
    }
  }

  function AdvanceTimes(index: nat, n: nat, k: nat): nat
    requires n > 0
  {
    if k == 0 then index else Advance(AdvanceTimes(index, n, k - 1), n)
  }

  /** Where the type label goes. */
  datatype LabelPosition = Top | Bottom | NoLabel

  /** What `getDom` draws: an optional label above, the text, an optional
      label below. */
  datatype View = View(above: Option<string>, content: string, below: Option<string>)

  /** `getDom`: the label names the kind being shown ("Dad Joke" or
      "Useless Fact") and appears only when enabled, at its position. */
  function Dom(showType: bool, position: LabelPosition, isShowingJoke: bool, text: string): (v: View)
    ensures v.content == text
    ensures v.above.Some? <==> showType && position == Top
    ensures v.below.Some? <==> showType && position == Bottom
    ensures v.above.Some? ==> v.above.value == (if isShowingJoke then "Dad Joke" else "Useless Fact")
    ensures v.below.Some? ==> v.below.value == (if isShowingJoke then "Dad Joke" else "Useless Fact")
  {
    var typeName := if isShowingJoke then "Dad Joke" else "Useless Fact";
    View(if showType && position == Top then Some(typeName) else None,
         text,
         if showType && position == Bottom then Some(typeName) else None)
  }

  class JokesAndFacts {
    const filters: seq<string>
    const language: string
    var text: string
    var kind: Kind
    var jokes: seq<string>
    var facts: seq<string>
    var jokeIndex: nat
    var factIndex: nat
    var isShowingJoke: bool
    var requests: seq<Request>

    /** Each round-robin index points into its cache, or is 0 while the cache is empty. */
    predicate Valid()
      reads this
    {
      (jokes == [] ==> jokeIndex == 0) && (jokes != [] ==> jokeIndex < |jokes|) &&
      (facts == [] ==> factIndex == 0) && (facts != [] ==> factIndex < |facts|)
    }

    /** `start`: the initial state, and a first joke and fact requested. */
    constructor (filters: seq<string>, language: string)
      ensures Valid() && this.filters == filters && this.language == language
      ensures text == LoadingText && kind == Joke && isShowingJoke
      ensures jokes == [] && facts == [] && requests == [GetJoke, GetFact(language)]
    {
      this.filters := filters;
      this.language := language;
      text := LoadingText;
      kind := Joke;
      jokes := [];
      facts := [];
      jokeIndex := 0;
      factIndex := 0;
      isShowingJoke := true;
      requests := [GetJoke, GetFact(language)];
    }

    /** The `updateInterval` timer: a fresh joke and fact are requested and
        nothing else changes. */
    method RequestFreshContent()
      modifies this`requests
      ensures requests == old(requests) + [GetJoke, GetFact(language)]
    {
      requests := requests + [GetJoke, GetFact(language)];
    }

    /** `rotateContent`: flip the kind, then show the next cached entry of it. */
    method RotateContent()
      requires Valid()
      modifies this`isShowingJoke, this`text, this`kind, this`jokeIndex, this`factIndex
      ensures Valid()
      ensures isShowingJoke == !old(isShowingJoke)
      ensures isShowingJoke && jokes != [] ==>
                text == jokes[old(jokeIndex)] && kind == Joke && jokeIndex == Advance(old(jokeIndex), |jokes|) &&
                factIndex == old(factIndex)
      ensures !isShowingJoke && facts != [] ==>
                text == facts[old(factIndex)] && kind == Fact && factIndex == Advance(old(factIndex), |facts|) &&
                jokeIndex == old(jokeIndex)
      ensures (isShowingJoke && jokes == []) || (!isShowingJoke && facts == []) ==>
                text == old(text) && kind == old(kind) && jokeIndex == old(jokeIndex) && factIndex == old(factIndex)
    {
      isShowingJoke := !isShowingJoke;
      if isShowingJoke {
        if |jokes| > 0 {
          text, kind := jokes[jokeIndex], Joke;
          jokeIndex := Advance(jokeIndex, |jokes|);
        }
      } else {
        if |facts| > 0 {
          text, kind := facts[factIndex], Fact;
          factIndex := Advance(factIndex, |facts|);
        }
      }
    }

    /** `JOKE_RESULT` */
    method JokeResult(joke: string)
      requires Valid()
      modifies this`jokes, this`text, this`kind, this`requests
      ensures Valid()
      ensures ShouldFilter(filters, joke) ==>
                jokes == old(jokes) && requests == old(requests) + [GetJoke] &&
                text == old(text) && kind == old(kind)
      ensures !ShouldFilter(filters, joke) ==>
                jokes == old(jokes) + [joke] && requests == old(requests) &&
                (if isShowingJoke && old(text) == LoadingText then text == joke && kind == Joke
                 else text == old(text) && kind == old(kind))
    {
      if ShouldFilter(filters, joke) {
        requests := requests + [GetJoke];
      } else {
        jokes := jokes + [joke];
        if isShowingJoke && text == LoadingText {
          text, kind := joke, Joke;
        }
      }
    }

    /** `FACT_RESULT` */
    method FactResult(fact: string)
      requires Valid()
      modifies this`facts, this`text, this`kind, this`requests
      ensures Valid()
      ensures ShouldFilter(filters, fact) ==>
                facts == old(facts) && requests == old(requests) + [GetFact(language)] &&
                text == old(text) && kind == old(kind)
      ensures !ShouldFilter(filters, fact) ==>
                facts == old(facts) + [fact] && requests == old(requests) &&
                (if !isShowingJoke && old(text) == LoadingText then text == fact && kind == Fact
                 else text == old(text) && kind == old(kind))
    {
      if ShouldFilter(filters, fact) {
        requests := requests + [GetFact(language)];
      } else {
        facts := facts + [fact];
        if !isShowingJoke && text == LoadingText {
          text, kind := fact, Fact;
        }
      }
    }
  }
}
