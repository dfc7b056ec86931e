/** MMM-CompactNews: a short list of the newest headlines of several RSS
    feeds, each with its source and its age. The module asks its helper for
    the news at start and every `updateInterval`, and keeps the last list
    the helper sent. */
module CompactNews {
  import opened Util
  import opened CompactNewsHelper

  // ---------------------------------------------------------------------------
  // truncateText

  /** `truncateText(text, length)`: a text that fits, or any text when the
      length is 0 (falsy), comes back whole; a longer one is cut to `length`
      characters and gets "...". `substring` clamps a negative length to 0. */
  function Truncate(text: string, length: int): (r: string)
    ensures length == 0 || |text| <= length ==> r == text
    ensures length != 0 && |text| > length ==>
              EndsWith(r, "...") && |r| == (if length > 0 then length else 0) + 3 &&
              r[..|r| - 3] <= text
  {
    if length == 0 || |text| <= length then text
    else text[..if length > 0 then length else 0] + "..."
  }

  /** A positive limit bounds what is shown: at most `length` characters of
      the headline and the three dots. */
  lemma TruncateBound(text: string, length: int)
    requires length > 0
    ensures |Truncate(text, length)| <= length + 3
    ensures Truncate(text, length) == text || Truncate(text, length) == text[..length] + "..."
  {
  }

  // ---------------------------------------------------------------------------
  // getTimeAgo

  const MsPerMinute := 60000
  const MsPerHour := 3600000
  const MsPerDay := 86400000

  /** `getTimeAgo(pubDate)` at time `now` (milliseconds). `parseDate` stands
      for `new Date(pubDate)`; `None` is an invalid date, whose difference is
      NaN, so every comparison fails and the text is "just now".
      `Math.floor` of a quotient by a positive number is Dafny's `/`. */
  function TimeAgo(pubDate: string, now: int, parseDate: string -> Option<int>): (r: string)
    ensures r == "" <==> pubDate == ""
    ensures r != "" ==> r == "just now" || EndsWith(r, " ago")
  {
    if pubDate == "" then ""
    else
      var published := parseDate(pubDate);
      if published.None? then "just now"
      else
        var diffMs := now - published.value;
        var diffHours := diffMs / MsPerHour;
        var diffMinutes := diffMs / MsPerMinute;
        if diffHours >= 24 then NatToString(diffHours / 24) + "d ago"
        else if diffHours >= 1 then NatToString(diffHours) + "h ago"
        else if diffMinutes >= 1 then NatToString(diffMinutes) + "m ago"
        else "just now"
  }

  /** The whole days in a span are the whole hours divided by 24. */
  lemma DaysOfHours(diffMs: int)
    ensures (diffMs / MsPerHour) / 24 == diffMs / MsPerDay
  {
    var d := diffMs / MsPerDay;
    var rest := diffMs - d * MsPerDay;
    assert 0 <= rest < MsPerDay;
    assert diffMs == (d * 24) * MsPerHour + rest;
    assert diffMs / MsPerHour == d * 24 + rest / MsPerHour;
  }

  /** The age buckets in milliseconds: a day or more gives whole days, an
      hour or more whole hours, a minute or more whole minutes, and anything
      younger, including a date in the future, "just now". */
  lemma TimeAgoBuckets(pubDate: string, now: int, parseDate: string -> Option<int>)
    requires pubDate != "" && parseDate(pubDate).Some?
    ensures var diffMs := now - parseDate(pubDate).value;
            var r := TimeAgo(pubDate, now, parseDate);
            (diffMs >= MsPerDay ==> r == NatToString(diffMs / MsPerDay) + "d ago") &&
            (MsPerHour <= diffMs < MsPerDay ==> r == NatToString(diffMs / MsPerHour) + "h ago") &&
            (MsPerMinute <= diffMs < MsPerHour ==> r == NatToString(diffMs / MsPerMinute) + "m ago") &&
            (diffMs < MsPerMinute ==> r == "just now")
  {
    var diffMs := now - parseDate(pubDate).value;
    DaysOfHours(diffMs);
  }

  /** An empty date gives no time at all, and an unparsable one "just now". */
  lemma TimeAgoWithoutDate(now: int, parseDate: string -> Option<int>, pubDate: string)
    ensures pubDate == "" ==> TimeAgo(pubDate, now, parseDate) == ""
    ensures pubDate != "" && parseDate(pubDate).None? ==> TimeAgo(pubDate, now, parseDate) == "just now"
  {
  }

  // ---------------------------------------------------------------------------
  // getDom

  datatype Config = Config(maxItems: int, titleLength: int, showSource: bool, showTime: bool)

  /** The meta line: the source if shown and not empty, then ", " only when
      something precedes it, then the age if shown. */
  function MetaText(cfg: Config, item: NewsItem, now: int, parseDate: string -> Option<int>): (r: string)
    ensures cfg.showSource && item.source != "" ==> StartsWith(r, item.source)
    ensures cfg.showTime && item.pubDate != "" ==> r != ""
    ensures !cfg.showTime && !(cfg.showSource && item.source != "") ==> r == ""
  {
    var source := if cfg.showSource && item.source != "" then item.source else "";
    if !cfg.showTime then source
    else (if source != "" then source + ", " else "") + TimeAgo(item.pubDate, now, parseDate)
  }

  /** The separator appears exactly when both a source and the time are
      shown, and the line is empty exactly when neither contributes. */
  lemma MetaTextParts(cfg: Config, item: NewsItem, now: int, parseDate: string -> Option<int>)
    ensures var t := TimeAgo(item.pubDate, now, parseDate);
            var m := MetaText(cfg, item, now, parseDate);
            (cfg.showSource && item.source != "" && cfg.showTime ==> m == item.source + ", " + t) &&
            (cfg.showSource && item.source != "" && !cfg.showTime ==> m == item.source) &&
            (!(cfg.showSource && item.source != "") && cfg.showTime ==> m == t) &&
            (m == "" <==> (!(cfg.showSource && item.source != "") && (!cfg.showTime || t == "")))
  {
  }

  /** One headline row: its class, its meta line (left out when empty) and
      its possibly shortened title. */
  datatype Row = Row(className: string, meta: Option<string>, headline: string)

  function RowOf(cfg: Config, item: NewsItem, index: nat, now: int, parseDate: string -> Option<int>): (r: Row)
    ensures r.meta != Some("")
    ensures r.meta.None? <==> MetaText(cfg, item, now, parseDate) == ""
    ensures cfg.titleLength == 0 || |item.title| <= cfg.titleLength ==> r.headline == item.title
  {
    var meta := MetaText(cfg, item, now, parseDate);
    Row(if index % 2 == 0 then "news-item even" else "news-item odd",
        if meta != "" then Some(meta) else None,
        Truncate(item.title, cfg.titleLength))
  }

  datatype View = Loading | Headlines(rows: seq<Row>)

  /** `getDom` on the module's state: loading while nothing came back or
      the list is empty, otherwise one row per item up to `maxItems`. */
  function Dom(cfg: Config, loaded: bool, newsItems: seq<NewsItem>, now: int, parseDate: string -> Option<int>): (v: View)
    ensures v.Loading? <==> !loaded || newsItems == []
    ensures v.Headlines? ==>
              |v.rows| == SliceEnd(cfg.maxItems, |newsItems|) &&
              forall k :: 0 <= k < |v.rows| ==> v.rows[k] == RowOf(cfg, newsItems[k], k, now, parseDate)
  {
    if !loaded || newsItems == [] then Loading
    else
      var n := SliceEnd(cfg.maxItems, |newsItems|);
      Headlines(seq(n, k requires 0 <= k < n => RowOf(cfg, newsItems[k], k, now, parseDate)))
  }

  /** Rows alternate even and odd from the first, and no more than
      `maxItems` are drawn. */
  lemma DomRows(cfg: Config, loaded: bool, newsItems: seq<NewsItem>, now: int, parseDate: string -> Option<int>)
    requires Dom(cfg, loaded, newsItems, now, parseDate).Headlines?
    ensures var rows := Dom(cfg, loaded, newsItems, now, parseDate).rows;
            (cfg.maxItems >= 0 ==> |rows| <= cfg.maxItems) &&
            forall k :: 0 <= k < |rows| ==> (rows[k].className == "news-item even" <==> k % 2 == 0)
  {
  }

  // ---------------------------------------------------------------------------
  // The module's state

  datatype Notification = CompactNewsResult(items: Option<seq<NewsItem>>) | CompactNewsError(error: string)

  class News {
    var newsItems: seq<NewsItem>
    var loaded: bool
    /** The `GET_COMPACT_NEWS` requests sent so far. */
    var requests: nat

    /** `start`: no news, not loaded, and a first request. */
    constructor()
      ensures newsItems == [] && !loaded && requests == 1
    {
      newsItems := [];
      loaded := false;
      requests := 1;
    }

    /** The `updateInterval` timer: another request, nothing else. */
    method Tick()
      modifies this
      ensures requests == old(requests) + 1
      ensures newsItems == old(newsItems) && loaded == old(loaded)
    {
      requests := requests + 1;
    }

    /** `socketNotificationReceived`: a result replaces the list (missing
      items are an empty list) and marks the module loaded; an error only
      logs, so the last list stays. */
    method SocketNotificationReceived(n: Notification)
      modifies this
      ensures n.CompactNewsResult? ==> loaded && newsItems == (if n.items.Some? then n.items.value else [])
      ensures n.CompactNewsError? ==> loaded == old(loaded) && newsItems == old(newsItems)
      ensures requests == old(requests)
    {
      if n.CompactNewsResult? {
        newsItems := if n.items.Some? then n.items.value else [];
        loaded := true;
      }
    }
  }
}
