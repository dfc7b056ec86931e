/** The node helper of MMM-CompactNews: it fetches every configured RSS
    feed, cuts the `<item>` elements out of each answer with two regular
    expressions, and sends back the newest headlines of all feeds together.
    The regular expressions are written out as searches over the text;
    fetching and date parsing are parameters (see README). */
module CompactNewsHelper {
  import opened Util

  datatype Feed = Feed(title: string, url: string)

  /** One headline; `pubDate` is the raw text of the `<pubDate>` element
      ("" when the item has none). */
  datatype NewsItem = NewsItem(title: string, link: string, pubDate: string, source: string)

  // ---------------------------------------------------------------------------
  // The element pattern `<tag[^>]*>([\s\S]*?)<\/tag>` with the `i` flag

  /** The first match of `open[^>]*>[\s\S]*?close` in an already lowered
      text `ls`: its start, the start and end of the captured content, and
      its end.

      Only the first `open` can start a match: its `[^>]*>` part stops at
      the first `>` after it, and every later opening ends at that `>` or a
      later one, so when no `close` follows that `>` none follows any later
      opening either. */
  function MatchIn(ls: string, open: string, close: string): (r: Option<(nat, nat, nat, nat)>)
    requires close != []
    ensures r.Some? ==> r.value.0 + |open| < r.value.1 <= r.value.2 < r.value.3 <= |ls|
    ensures r.Some? ==> ls[r.value.1 - 1] == '>' && r.value.3 == r.value.2 + |close|
    ensures r.Some? ==> r.value.2 == IndexFrom(ls, close, r.value.1)
  {
    var i := IndexOf(ls, open);
    if i < 0 || i + |open| > |ls| then None
    else
      var g := Find(ls[i + |open|..], '>');
      if g < 0 then None
      else
        var cs := i + |open| + g + 1;
        var c := IndexFrom(ls, close, cs);
        if c < 0 then None
        else Some((i, cs, c, c + |close|))
  }

  /** A match starts at the first `open`; no `open`, no match. */
  lemma MatchInStart(ls: string, open: string, close: string)
    requires close != []
    ensures var r := MatchIn(ls, open, close);
            (IndexOf(ls, open) < 0 ==> r.None?) &&
            (r.Some? ==> r.value.0 == IndexOf(ls, open) && StartsWith(ls[r.value.0..], open))
  {
  }

  /** The opening tag of a match ends at the first `>` after `open`. */
  lemma MatchInOpening(ls: string, open: string, close: string)
    requires close != []
    ensures var r := MatchIn(ls, open, close);
            r.Some? ==> forall k :: r.value.0 + |open| <= k < r.value.1 - 1 ==> ls[k] != '>'
  {
    var r := MatchIn(ls, open, close);
    if r.Some? {
      var i := r.value.0;
      forall k | i + |open| <= k < r.value.1 - 1
        ensures ls[k] != '>'
      {
        assert ls[i + |open|..][k - i - |open|] == ls[k];
      }
    }
  }

  /** The content of a match ends at the first `close` after the opening
      tag (the lazy `[\s\S]*?`). */
  lemma MatchInClosing(ls: string, open: string, close: string)
    requires close != []
    ensures var r := MatchIn(ls, open, close);
            r.Some? ==> ls[r.value.2..r.value.3] == close &&
                        forall j :: r.value.1 <= j < r.value.2 ==> !StartsWith(ls[j..], close)
  {
    var r := MatchIn(ls, open, close);
    if r.Some? {
      var t := ls[r.value.2..];
      assert StartsWith(t, close);
      assert t[..|close|] == ls[r.value.2..r.value.3];
      forall j | r.value.1 <= j < r.value.2
        ensures !StartsWith(ls[j..], close)
      {
        IndexFromFirst(ls, close, r.value.1, j);
      }
    }
  }

  lemma LowerAngle(c: char)
    ensures LowerChar(c) == '>' ==> c == '>'
  {
  }

  lemma LowerNotAngle(c: char)
    ensures LowerChar(c) == '<' ==> c == '<'
  {
  }

  lemma LowerNotSlash(c: char)
    ensures LowerChar(c) == '/' ==> c == '/'
  {
  }

  /** The element pattern `<tag[^>]*>([\s\S]*?)<\/tag>` with the `i` flag:
      the `i` flag compares ASCII letters without case, and non-ASCII
      letters never fold onto ASCII ones, so the search runs on the text
      with its ASCII letters lowered. */
  function ElementMatch(s: string, tag: string): (r: Option<(nat, nat, nat, nat)>)
    ensures r.Some? ==> r.value.0 + |tag| + 1 < r.value.1 <= r.value.2 < r.value.3 <= |s|
    ensures r.Some? ==> s[r.value.1 - 1] == '>' && r.value.3 == r.value.2 + |tag| + 3
  {
    var ls := Lower(s);
    var lt := Lower(tag);
    assert |ls| == |s| && |lt| == |tag|;
    var open, close := "<" + lt, "</" + lt + ">";
    assert |open| == |tag| + 1 && |close| == |tag| + 3;
    var r := MatchIn(ls, open, close);
    if r.Some? then
      var m := r.value;
      assert m.0 + |tag| + 1 < m.1 <= m.2 < m.3 <= |s|;
      assert ls[m.1 - 1] == '>' && m.3 == m.2 + |tag| + 3;
      LowerKeepsAngle(s, m.1 - 1);
      r
    else r
  }

  /** Lowering leaves every character other than a letter alone, so a `>`
      in the lowered text is a `>` in the text. */
  lemma LowerKeepsAngle(s: string, k: int)
    requires 0 <= k < |s| && Lower(s)[k] == '>'
    ensures s[k] == '>'
  {
    LowerAngle(s[k]);
  }

  // ---------------------------------------------------------------------------
  // extractXMLContent

  /** A JavaScript line terminator, which `.` in a regular expression does
      not match. */
  predicate IsLineTerminator(c: char) {
    c == '\n' || c == '\r' || c == '\U{2028}' || c == '\U{2029}'
  }

  const CDataOpen := "<![CDATA["
  const CDataClose := "]]>"

  /** `s.replace(/<!\[CDATA\[(.*?)\]\]>/g, '$1')`: every CDATA section
      whose body has no line break is replaced by its body, left to right;
      an opening whose first `]]>` comes after a line break stays. */
  function StripCData(s: string): (r: string)
    ensures |r| <= |s|
    ensures !Contains(s, CDataOpen) ==> r == s
    decreases |s|
  {
    if s == [] then []
    else if StartsWith(s, CDataOpen) && IndexOf(s[9..], CDataClose) >= 0
            && (forall k :: 9 <= k < 9 + IndexOf(s[9..], CDataClose) ==> !IsLineTerminator(s[k]))
    then
      var e := IndexOf(s[9..], CDataClose);
      ContainsAt(s, CDataOpen, 0);
      s[9..9 + e] + StripCData(s[9 + e + 3..])
    else
      assert !Contains(s, CDataOpen) ==> !Contains(s[1..], CDataOpen) by {
        if Contains(s[1..], CDataOpen) {
          var k := IndexOf(s[1..], CDataOpen);
          assert s[1..][k..] == s[k + 1..];
          ContainsAt(s, CDataOpen, k + 1);
        }
      }
      [s[0]] + StripCData(s[1..])
  }

  /** `extractXMLContent`: the trimmed, CDATA-stripped content of the first
      `tag` element, or "" when there is none. */
  function ExtractContent(xml: string, tag: string): (r: string)
    ensures ElementMatch(xml, tag).None? ==> r == ""
    ensures r == [] || (!IsSpace(r[0]) && !IsSpace(r[|r| - 1]))
  {
    var m := ElementMatch(xml, tag);
    if m.None? then "" else Trim(StripCData(xml[m.value.1..m.value.2]))
  }

  /** The XML an RSS writer produces for one simple element. */
  function Element(tag: string, content: string): string {
    ("<" + tag) + ">" + content + ("</" + tag + ">")
  }

  /** No `</` in the text: no closing tag can start inside it. */
  predicate NoCloseStart(s: string) {
    forall k :: 0 <= k < |s| - 1 ==> !(s[k] == '<' && s[k + 1] == '/')
  }

  lemma LowerConcat(a: string, b: string)
    ensures Lower(a + b) == Lower(a) + Lower(b)
  {
    assert forall i :: 0 <= i < |a + b| ==> Lower(a + b)[i] == (Lower(a) + Lower(b))[i];
  }

  /** The first `close` after `from`, when the text from there is a body
      without `</` followed by `close`, which starts with `</`, is that
      `close`. */
  lemma CloseAfterBody(ls: string, from: nat, body: string, close: string)
    requires from <= |ls| && ls[from..] == body + close
    requires NoCloseStart(body) && |close| >= 2 && close[0] == '<' && close[1] == '/'
    ensures IndexFrom(ls, close, from) == from + |body|
  {
    var t := body + close;
    assert ls[from + |body|..] == t[|body|..] == close;
    forall j | from <= j < from + |body|
      ensures !StartsWith(ls[j..], close)
    {
      assert ls[j] == t[j - from] == body[j - from];
      if j + 1 < from + |body| {
        assert ls[j + 1] == t[j + 1 - from] == body[j + 1 - from];
      } else {
        assert ls[j + 1] == t[j + 1 - from] == close[0];
      }
    }
    IndexFromAt(ls, close, from, from + |body|);
  }

  /** The element pattern finds a written element: the opening ends at the
      first `>` and the content runs up to the closing tag. */
  lemma MatchInElement(open: string, body: string, close: string)
    requires |close| >= 2 && close[0] == '<' && close[1] == '/'
    requires NoCloseStart(body)
    ensures var r := MatchIn(open + ">" + body + close, open, close);
            r.Some? && r.value.1 == |open| + 1 && r.value.2 == |open| + 1 + |body|
  {
    var ls := open + ">" + body + close;
    assert StartsWith(ls, open) by { assert ls[..|open|] == open; }
    assert IndexOf(ls, open) == 0;
    assert ls[|open|..][0] == '>';
    assert Find(ls[|open|..], '>') == 0;
    assert ls[|open| + 1..] == body + close;
    CloseAfterBody(ls, |open| + 1, body, close);
  }

  /** Lowering a written element lowers its tag and content in place. */
  lemma LowerElement(tag: string, content: string)
    ensures Lower(Element(tag, content)) == ("<" + Lower(tag)) + ">" + Lower(content) + ("</" + Lower(tag) + ">")
  {
    var open := "<" + tag;
    var head := open + ">";
    var close := "</" + tag;
    LowerConcat(head + content, close + ">");
    LowerConcat(head, content);
    LowerConcat(open, ">");
    LowerConcat("<", tag);
    LowerConcat(close, ">");
    LowerConcat("</", tag);
    assert Lower("<") == "<" && Lower(">") == ">" && Lower("</") == "</";
  }

  /** The element pattern finds the content of a written element. */
  lemma ElementMatchOfElement(tag: string, content: string)
    requires NoCloseStart(content)
    ensures var m := ElementMatch(Element(tag, content), tag);
            m.Some? && m.value.1 == |tag| + 2 && m.value.2 == |tag| + 2 + |content|
  {
    LowerElement(tag, content);
    assert NoCloseStart(Lower(content)) by {
      forall k | 0 <= k < |content| - 1
        ensures !(Lower(content)[k] == '<' && Lower(content)[k + 1] == '/')
      {
        LowerNotAngle(content[k]);
        LowerNotSlash(content[k + 1]);
      }
    }
    MatchInElement("<" + Lower(tag), Lower(content), "</" + Lower(tag) + ">");
  }

  lemma ElementContent(tag: string, content: string)
    ensures Element(tag, content)[|tag| + 2..|tag| + 2 + |content|] == content
  {
  }

  /** Extraction undoes writing an element: a content without `</`, CDATA
      or surrounding blanks comes back unchanged. */
  lemma ExtractElement(tag: string, content: string)
    requires NoCloseStart(content) && !Contains(content, CDataOpen)
    requires Trim(content) == content
    ensures ExtractContent(Element(tag, content), tag) == content
  {
    ElementMatchOfElement(tag, content);
    ElementContent(tag, content);
  }

  /** The first `]]>` after a body without one is the one that follows it. */
  lemma CloseAfterCData(x: string, rest: string)
    requires !Contains(x, CDataClose)
    ensures IndexOf(x + CDataClose + rest, CDataClose) == |x|
  {
    var t := x + CDataClose + rest;
    assert t[|x|..][..3] == CDataClose;
    forall j | 0 <= j < |x|
      ensures !StartsWith(t[j..], CDataClose)
    {
      if j + 3 <= |x| {
        assert x[j..][..3] == t[j..][..3];
        if StartsWith(t[j..], CDataClose) {
          ContainsAt(x, CDataClose, j);
        }
      } else {
        assert t[j + 2] == CDataClose[j + 2 - |x|] == ']';
      }
    }
    IndexFromAt(t, CDataClose, 0, |x|);
  }

  /** A text that opens a CDATA section closed on the same line loses the
      wrapper of that section. */
  lemma StripCDataOpening(s: string, e: int)
    requires StartsWith(s, CDataOpen) && e == IndexOf(s[9..], CDataClose) && e >= 0
    requires forall k :: 9 <= k < 9 + e ==> !IsLineTerminator(s[k])
    ensures StripCData(s) == s[9..9 + e] + StripCData(s[9 + e + 3..])
  {
  }

  /** A CDATA section whose body has no `]]>` and no line break is replaced
      by its body, and the stripping goes on after it. */
  lemma StripCDataSection(x: string, rest: string)
    requires !Contains(x, CDataClose)
    requires forall k :: 0 <= k < |x| ==> !IsLineTerminator(x[k])
    ensures StripCData(CDataOpen + x + CDataClose + rest) == x + StripCData(rest)
  {
    var s := CDataOpen + x + CDataClose + rest;
    assert s[..9] == CDataOpen;
    assert s[9..] == x + CDataClose + rest;
    CloseAfterCData(x, rest);
    var e := IndexOf(s[9..], CDataClose);
    assert e == |x|;
    assert forall k :: 9 <= k < 9 + e ==> s[k] == x[k - 9];
    StripCDataOpening(s, e);
    assert s[9..9 + e] == x;
    assert s[9 + e + 3..] == rest;
  }

  lemma CDataNoCloseStart(x: string)
    requires NoCloseStart(x)
    ensures NoCloseStart(CDataOpen + x + CDataClose)
  {
    var c := CDataOpen + x + CDataClose;
    forall k | 0 <= k < |c| - 1
      ensures !(c[k] == '<' && c[k + 1] == '/')
    {
      if 9 <= k && k + 1 < 9 + |x| {
        assert c[k] == x[k - 9] && c[k + 1] == x[k + 1 - 9];
      }
    }
  }

  /** The content of an element written as one CDATA section is the
      section's body, trimmed. */
  lemma ExtractCDataElement(tag: string, x: string)
    requires NoCloseStart(x) && !Contains(x, CDataClose)
    requires forall k :: 0 <= k < |x| ==> !IsLineTerminator(x[k])
    ensures ExtractContent(Element(tag, CDataOpen + x + CDataClose), tag) == Trim(x)
  {
    var c := CDataOpen + x + CDataClose;
    CDataNoCloseStart(x);
    ElementMatchOfElement(tag, c);
    ElementContent(tag, c);
    var m := ElementMatch(Element(tag, c), tag);
    assert Element(tag, c)[m.value.1..m.value.2] == c;
    StripCDataSection(x, []);
    assert c + [] == c;
    assert StripCData(c) == x;
  }

  // ---------------------------------------------------------------------------
  // parseRSSItems

  /** `xmlText.match(/<item[^>]*>[\s\S]*?<\/item>/gi)`: every whole item
      element, left to right, each search resuming after the last match;
      `null`, when nothing matches, is the empty list. */
  function ItemElements(s: string): (r: seq<string>)
    ensures forall e :: e in r ==> |e| >= 13
    decreases |s|
  {
    var m := ElementMatch(s, "item");
    if m.None? then []
    else [s[m.value.0..m.value.3]] + ItemElements(s[m.value.3..])
  }

  /** The first `close` after `from`, when the text from there is a body
      without `</` followed by `close` and anything else. */
  lemma CloseAfterBodyThenRest(ls: string, from: nat, body: string, close: string, rest: string)
    requires from <= |ls| && ls[from..] == body + close + rest
    requires NoCloseStart(body) && |close| >= 2 && close[0] == '<' && close[1] == '/'
    ensures IndexFrom(ls, close, from) == from + |body|
  {
    var t := body + close + rest;
    assert ls[from + |body|..][..|close|] == t[|body|..|body| + |close|] == close;
    forall j | from <= j < from + |body|
      ensures !StartsWith(ls[j..], close)
    {
      assert ls[j] == t[j - from] == body[j - from];
      if j + 1 < from + |body| {
        assert ls[j + 1] == t[j + 1 - from] == body[j + 1 - from];
      } else {
        assert ls[j + 1] == t[j + 1 - from] == close[0];
      }
    }
    IndexFromAt(ls, close, from, from + |body|);
  }

  /** The element pattern finds a written element followed by anything. */
  lemma MatchInElementThenRest(open: string, body: string, close: string, rest: string)
    requires |close| >= 2 && close[0] == '<' && close[1] == '/'
    requires NoCloseStart(body)
    ensures var r := MatchIn(open + ">" + body + close + rest, open, close);
            r.Some? && r.value.0 == 0 && r.value.3 == |open| + 1 + |body| + |close|
  {
    var ls := open + ">" + body + close + rest;
    assert StartsWith(ls, open) by { assert ls[..|open|] == open; }
    assert IndexOf(ls, open) == 0;
    assert ls[|open|..][0] == '>';
    assert Find(ls[|open|..], '>') == 0;
    assert ls[|open| + 1..] == body + close + rest;
    CloseAfterBodyThenRest(ls, |open| + 1, body, close, rest);
  }

  /** Lowering never creates a `</`. */
  lemma LowerNoCloseStart(c: string)
    requires NoCloseStart(c)
    ensures NoCloseStart(Lower(c))
  {
    forall k | 0 <= k < |c| - 1
      ensures !(Lower(c)[k] == '<' && Lower(c)[k + 1] == '/')
    {
      LowerNotAngle(c[k]);
      LowerNotSlash(c[k + 1]);
    }
  }

  /** A written element at the start of the text is the first match, and
      the match ends where the element ends. */
  lemma ElementMatchAtStart(tag: string, c: string, rest: string)
    requires NoCloseStart(c)
    ensures var m := ElementMatch(Element(tag, c) + rest, tag);
            m.Some? && m.value.0 == 0 && m.value.3 == |Element(tag, c)|
  {
    LowerElement(tag, c);
    LowerConcat(Element(tag, c), rest);
    LowerNoCloseStart(c);
    MatchInElementThenRest("<" + Lower(tag), Lower(c), "</" + Lower(tag) + ">", Lower(rest));
  }

  /** Cutting items out of a text that starts with an item element yields
      that element, then the items of what follows it. */
  lemma ItemElementsOfElement(c: string, rest: string)
    requires NoCloseStart(c)
    ensures ItemElements(Element("item", c) + rest) == [Element("item", c)] + ItemElements(rest)
  {
    var e := Element("item", c);
    ElementMatchAtStart("item", c, rest);
    assert (e + rest)[..|e|] == e;
    assert (e + rest)[|e|..] == rest;
  }

  /** A feed body written as item elements, one after another. */
  function WrittenItems(contents: seq<string>): string {
    if contents == [] then "" else Element("item", contents[0]) + WrittenItems(contents[1..])
  }

  /** The item elements of `contents`, each written on its own. */
  function ItemList(contents: seq<string>): (r: seq<string>)
    ensures |r| == |contents| && forall k :: 0 <= k < |contents| ==> r[k] == Element("item", contents[k])
  {
    if contents == [] then []
    else
      var tail := ItemList(contents[1..]);
      assert forall k :: 1 <= k < |contents| ==> contents[1..][k - 1] == contents[k];
      [Element("item", contents[0])] + tail
  }

  lemma NoItemsInEmpty()
    ensures ItemElements("") == []
  {
  }

  /** Cutting items out of written item elements gives back exactly those
      elements, in document order. */
  lemma {:induction false} ItemElementsOfWritten(contents: seq<string>)
    requires forall k :: 0 <= k < |contents| ==> NoCloseStart(contents[k])
    ensures ItemElements(WrittenItems(contents)) == ItemList(contents)
  {
    if contents == [] {
      NoItemsInEmpty();
    } else {
      var c, cs := contents[0], contents[1..];
      assert contents == [c] + cs;
      assert forall k :: 0 <= k < |cs| ==> cs[k] == contents[k + 1];
      ItemElementsOfWritten(cs);
      ItemElementsCons(c, cs, ItemList(cs));
    }
  }

  /** One step of the above: a written element in front adds itself in front. */
  lemma ItemElementsCons(c: string, cs: seq<string>, tail: seq<string>)
    requires NoCloseStart(c) && ItemElements(WrittenItems(cs)) == tail
    ensures ItemElements(WrittenItems([c] + cs)) == [Element("item", c)] + tail
  {
    assert ([c] + cs)[1..] == cs;
    assert WrittenItems([c] + cs) == Element("item", c) + WrittenItems(cs);
    ItemElementsOfElement(c, WrittenItems(cs));
  }

  /** The three fields `parseRSSItems` reads from one item element. */
  datatype Fields = Fields(title: string, link: string, pubDate: string)

  function ElementFields(element: string): Fields {
    Fields(ExtractContent(element, "title"), ExtractContent(element, "link"), ExtractContent(element, "pubDate"))
  }

  /** The fields of each element, in order. */
  function FieldsOf(elements: seq<string>): (r: seq<Fields>)
    ensures |r| == |elements|
  {
    if elements == [] then [] else [ElementFields(elements[0])] + FieldsOf(elements[1..])
  }

  function ItemOf(f: Fields, source: string): NewsItem {
    NewsItem(f.title, f.link, f.pubDate, source)
  }

  /** The items `parseRSSItems` keeps, in document order: one per element
      with a non-empty title, tagged with the feed's name. */
  function Kept(fields: seq<Fields>, source: string): (r: seq<NewsItem>)
    ensures |r| <= |fields|
    ensures forall k :: 0 <= k < |r| ==> r[k].title != "" && r[k].source == source
  {
    if fields == [] then []
    else
      var n := |fields| - 1;
      Kept(fields[..n], source) + (if fields[n].title != "" then [ItemOf(fields[n], source)] else [])
  }

  /** An item is kept exactly when it carries the feed's name, a title,
      and the fields of some element. */
  lemma {:induction false} KeptMembers(fields: seq<Fields>, source: string, it: NewsItem)
    ensures it in Kept(fields, source) <==>
              it.source == source && it.title != "" && Fields(it.title, it.link, it.pubDate) in fields
  {
    if fields != [] {
      var n := |fields| - 1;
      KeptMembers(fields[..n], source, it);
      assert fields == fields[..n] + [fields[n]];
    }
  }

  /** Kept items keep their relative order: the kept items of a longer
      list of elements extend those of its prefix. */
  lemma {:induction false} KeptPrefix(fields: seq<Fields>, source: string, i: int)
    requires 0 <= i <= |fields|
    ensures Kept(fields[..i], source) <= Kept(fields, source)
    decreases |fields|
  {
    if i < |fields| {
      var n := |fields| - 1;
      KeptPrefix(fields[..n], source, i);
      assert fields[..n][..i] == fields[..i];
    } else {
      assert fields[..i] == fields;
    }
  }

  /** `parseRSSItems`: the loop that pushes one item per titled element. */
  method ParseRSSItems(xmlText: string, source: string) returns (items: seq<NewsItem>)
    ensures items == Kept(FieldsOf(ItemElements(xmlText)), source)
  {
    var fields := FieldsOf(ItemElements(xmlText));
    items := KeepTitled(fields, source);
  }

  /** The `forEach` of `parseRSSItems`: an item is pushed for every element
      whose title is not empty. The three extractions of each element are
      pure, so they are done before this loop. */
  method KeepTitled(fields: seq<Fields>, source: string) returns (items: seq<NewsItem>)
    ensures items == Kept(fields, source)
  {
    items := [];
    var i := 0;
    while i < |fields|
      invariant 0 <= i <= |fields|
      invariant items == Kept(fields[..i], source)
    {
      assert fields[..i + 1][..i] == fields[..i];
      if fields[i].title != "" {
        items := items + [ItemOf(fields[i], source)];
      }
      i := i + 1;
    }
    assert fields[..|fields|] == fields;
  }

  // ---------------------------------------------------------------------------
  // fetchFeed and the GET_COMPACT_NEWS handler

  /** `fetchFeed`: a feed whose request failed (a network error or a status
      that is not ok) gives no items. `response` is the body, if any. */
  function FeedItems(feed: Feed, response: Option<string>): (r: seq<NewsItem>)
    ensures response.None? ==> r == []
    ensures forall k :: 0 <= k < |r| ==> r[k].source == feed.title && r[k].title != ""
  {
    if response.None? then [] else Kept(FieldsOf(ItemElements(response.value)), feed.title)
  }

  /** What fetching each feed gave, feed by feed. */
  function Fetched(feeds: seq<Feed>, responses: seq<Option<string>>): (r: seq<seq<NewsItem>>)
    requires |responses| == |feeds|
    ensures |r| == |feeds| && forall i :: 0 <= i < |r| ==> r[i] == FeedItems(feeds[i], responses[i])
  {
    if feeds == [] then [] else [FeedItems(feeds[0], responses[0])] + Fetched(feeds[1..], responses[1..])
  }

  /** `allItems.push(...items)` for each list in turn. */
  function Concat(lists: seq<seq<NewsItem>>): seq<NewsItem> {
    if lists == [] then [] else Concat(lists[..|lists| - 1]) + lists[|lists| - 1]
  }

  /** The items of all feeds, feed by feed. */
  function AllItems(feeds: seq<Feed>, responses: seq<Option<string>>): seq<NewsItem>
    requires |responses| == |feeds|
  {
    Concat(Fetched(feeds, responses))
  }

  /** `new Date(a.pubDate || 0)` as a sort key, newest first: an item
      without a date counts as 1 January 1970. `parseDate` stands for
      `Date`'s parser; an unparsable date sorts like a missing one. */
  function DateMs(parseDate: string -> Option<int>, item: NewsItem): int {
    if item.pubDate == "" then 0
    else
      var t := parseDate(item.pubDate);
      if t.Some? then t.value else 0
  }

  function NewestFirst(parseDate: string -> Option<int>): NewsItem -> int {
    item => -DateMs(parseDate, item)
  }

  /** Where `slice(0, n)` ends on a list of `len` elements: a negative `n`
      counts from the end. */
  function SliceEnd(n: int, len: nat): (e: nat)
    ensures e <= len
    ensures n >= 0 ==> e == Min(n, len)
    ensures n < 0 ==> e + Min(-n, len) == len
  {
    if n >= 0 then Min(n, len)
    else if len + n >= 0 then len + n else 0
  }

  /** The items sent back: all items, newest first (equal dates keep feed
      order), cut at `maxItems`. */
  function Newest(all: seq<NewsItem>, maxItems: int, parseDate: string -> Option<int>): seq<NewsItem> {
    var sorted := SortBy(all, NewestFirst(parseDate));
    sorted[..SliceEnd(maxItems, |sorted|)]
  }

  /** The answer holds at most `maxItems` items, newest first, each one of
      the fetched items, and is the newest ones: no fetched item left out
      is newer than one kept. */
  lemma NewestProperties(all: seq<NewsItem>, maxItems: int, parseDate: string -> Option<int>)
    ensures var r := Newest(all, maxItems, parseDate);
            (maxItems >= 0 ==> |r| <= maxItems) &&
            (forall i, j :: 0 <= i < j < |r| ==> DateMs(parseDate, r[i]) >= DateMs(parseDate, r[j])) &&
            multiset(r) <= multiset(all)
  {
    var key := NewestFirst(parseDate);
    var sorted := SortBy(all, key);
    SortByPerm(all, key);
    SortBySorted(all, key);
    var r := Newest(all, maxItems, parseDate);
    assert sorted == r + sorted[|r|..];
    forall i, j | 0 <= i < j < |r|
      ensures DateMs(parseDate, r[i]) >= DateMs(parseDate, r[j])
    {
      assert key(sorted[i]) <= key(sorted[j]);
    }
  }

  /** Nothing left out is newer than what was kept. */
  lemma NewestAreNewest(all: seq<NewsItem>, maxItems: int, parseDate: string -> Option<int>)
    ensures var sorted := SortBy(all, NewestFirst(parseDate));
            var e := SliceEnd(maxItems, |sorted|);
            forall i, j :: 0 <= i < e <= j < |sorted| ==> DateMs(parseDate, sorted[i]) >= DateMs(parseDate, sorted[j])
  {
    var key := NewestFirst(parseDate);
    var sorted := SortBy(all, key);
    SortBySorted(all, key);
    var e := SliceEnd(maxItems, |sorted|);
    forall i, j | 0 <= i < e <= j < |sorted|
      ensures DateMs(parseDate, sorted[i]) >= DateMs(parseDate, sorted[j])
    {
      assert key(sorted[i]) <= key(sorted[j]);
    }
  }

  /** `socketNotificationReceived("GET_COMPACT_NEWS", ...)`: the feeds are
      fetched one after another and their items collected, then sorted and
      cut. `responses[i]` is what fetching `feeds[i]` gave. */
  method GetCompactNews(feeds: seq<Feed>, maxItems: int, responses: seq<Option<string>>, parseDate: string -> Option<int>)
    returns (items: seq<NewsItem>)
    requires |responses| == |feeds|
    ensures items == Newest(AllItems(feeds, responses), maxItems, parseDate)
  {
    var all := CollectItems(feeds, responses);
    var sorted := SortBy(all, NewestFirst(parseDate));
    items := sorted[..SliceEnd(maxItems, |sorted|)];
  }

  /** What the helper sends back for `GET_COMPACT_NEWS`: the items, or the
      error of the handler's `catch` (its message is the engine's text and is
      not modelled). */
  datatype Reply = NewsResult(items: seq<NewsItem>) | NewsError

  /** `socketNotificationReceived`: only `GET_COMPACT_NEWS` is answered.
      `feeds` is `None` when `payload.feeds` cannot be iterated (missing, or
      not a list); the `for … of` then throws and the `catch` sends
      `COMPACT_NEWS_ERROR`. Failing feeds are caught by `fetchFeed` and never
      reach that `catch`. */
  method SocketNotificationReceived(notification: string, feeds: Option<seq<Feed>>, maxItems: int,
                                    responses: seq<Option<string>>, parseDate: string -> Option<int>)
    returns (reply: Option<Reply>)
    requires feeds.Some? ==> |responses| == |feeds.value|
    ensures notification != "GET_COMPACT_NEWS" ==> reply.None?
    ensures notification == "GET_COMPACT_NEWS" && feeds.None? ==> reply == Some(NewsError)
    ensures notification == "GET_COMPACT_NEWS" && feeds.Some? ==>
              reply.Some? && reply.value.NewsResult? &&
              reply.value.items == Newest(AllItems(feeds.value, responses), maxItems, parseDate)
  {
    if notification != "GET_COMPACT_NEWS" {
      return None;
    }
    if feeds.None? {
      return Some(NewsError);
    }
    var items := GetCompactNews(feeds.value, maxItems, responses, parseDate);
    reply := Some(NewsResult(items));
  }

  /** The loop of the handler: each feed's items are pushed in feed order. */
  method CollectItems(feeds: seq<Feed>, responses: seq<Option<string>>) returns (all: seq<NewsItem>)
    requires |responses| == |feeds|
    ensures all == AllItems(feeds, responses)
  {
    all := [];
    ghost var lists := Fetched(feeds, responses);
    ghost var done: seq<seq<NewsItem>> := [];
    var i := 0;
    while i < |feeds|
      invariant 0 <= i <= |feeds|
      invariant done == lists[..i]
      invariant all == Concat(done)
    {
      var fetched := FeedItems(feeds[i], responses[i]);
      ConcatStep(lists, i);
      all := all + fetched;
      done := lists[..i + 1];
      i := i + 1;
    }
    assert lists[..|feeds|] == lists;
  }

  /** Taking one more list appends its items. */
  lemma ConcatStep(lists: seq<seq<NewsItem>>, i: int)
    requires 0 <= i < |lists|
    ensures Concat(lists[..i + 1]) == Concat(lists[..i]) + lists[i]
  {
    assert lists[..i + 1][..i] == lists[..i];
  }

  /** Collecting is compositional: the items of two runs of lists are the
      items of the first followed by those of the second. */
  lemma {:induction false} ConcatAppend(l1: seq<seq<NewsItem>>, l2: seq<seq<NewsItem>>)
    ensures Concat(l1 + l2) == Concat(l1) + Concat(l2)
    decreases |l2|
  {
    if l2 != [] {
      var n := |l2| - 1;
      ConcatAppend(l1, l2[..n]);
      assert (l1 + l2)[..|l1| + n] == l1 + l2[..n];
      assert (l1 + l2)[|l1| + n] == l2[n];
    } else {
      assert l1 + l2 == l1;
    }
  }

  /** Leaving out a list that is empty changes nothing. */
  lemma ConcatSkipEmpty(lists: seq<seq<NewsItem>>, k: int)
    requires 0 <= k < |lists| && lists[k] == []
    ensures Concat(lists) == Concat(lists[..k] + lists[k + 1..])
  {
    var upTo := lists[..k + 1];
    assert upTo + lists[k + 1..] == lists;
    ConcatAppend(upTo, lists[k + 1..]);
    ConcatDropEmptyLast(upTo);
    assert upTo[..|upTo| - 1] == lists[..k];
    ConcatAppend(lists[..k], lists[k + 1..]);
  }

  lemma ConcatDropEmptyLast(lists: seq<seq<NewsItem>>)
    requires lists != [] && lists[|lists| - 1] == []
    ensures Concat(lists) == Concat(lists[..|lists| - 1])
  {
    assert Concat(lists) == Concat(lists[..|lists| - 1]) + [];
  }

  lemma FetchedWithout(feeds: seq<Feed>, responses: seq<Option<string>>, k: int)
    requires |responses| == |feeds| && 0 <= k < |feeds|
    ensures Fetched(feeds[..k] + feeds[k + 1..], responses[..k] + responses[k + 1..]) ==
            Fetched(feeds, responses)[..k] + Fetched(feeds, responses)[k + 1..]
  {
    var f := feeds[..k] + feeds[k + 1..];
    var r := responses[..k] + responses[k + 1..];
    var all := Fetched(feeds, responses);
    var rest := Fetched(f, r);
    forall i | 0 <= i < |rest|
      ensures rest[i] == (all[..k] + all[k + 1..])[i]
    {
      if i < k {
        assert f[i] == feeds[i] && r[i] == responses[i];
      } else {
        assert f[i] == feeds[i + 1] && r[i] == responses[i + 1];
      }
    }
  }

  /** A failing feed adds nothing: the batch is what the other feeds give. */
  lemma FailedFeedContributesNothing(feeds: seq<Feed>, responses: seq<Option<string>>, k: int)
    requires |responses| == |feeds| && 0 <= k < |feeds| && responses[k].None?
    ensures AllItems(feeds, responses) ==
            AllItems(feeds[..k] + feeds[k + 1..], responses[..k] + responses[k + 1..])
  {
    FetchedWithout(feeds, responses, k);
    ConcatSkipEmpty(Fetched(feeds, responses), k);
  }

  /** Every item sent names the feed it came from, and has a title. */
  lemma {:induction false} ConcatTagged(feeds: seq<Feed>, lists: seq<seq<NewsItem>>)
    requires |lists| == |feeds|
    requires forall i, k :: 0 <= i < |lists| && 0 <= k < |lists[i]| ==> lists[i][k].title != "" && lists[i][k].source == feeds[i].title
    ensures forall it :: it in Concat(lists) ==> it.title != "" && exists f :: f in feeds && it.source == f.title
  {
    if lists != [] {
      var n := |lists| - 1;
      ConcatTagged(feeds[..n], lists[..n]);
      forall it | it in Concat(lists)
        ensures it.title != "" && exists f :: f in feeds && it.source == f.title
      {
        if it in lists[n] {
          var k :| 0 <= k < |lists[n]| && lists[n][k] == it;
          assert feeds[n] in feeds;
        } else {
          var f :| f in feeds[..n] && it.source == f.title;
          assert f in feeds;
        }
      }
    }
  }

  lemma AllItemsTagged(feeds: seq<Feed>, responses: seq<Option<string>>)
    requires |responses| == |feeds|
    ensures forall it :: it in AllItems(feeds, responses) ==> it.title != "" && exists f :: f in feeds && it.source == f.title
  {
    ConcatTagged(feeds, Fetched(feeds, responses));
  }
}
