/** What both feed readers (`tools/feed_reader.py` and the legacy
    `BuscadorRSS_filtrado.py`) get from `feedparser` and how they read a
    publication date.

    `feedparser.parse` itself is not modelled: its result is a `ParsedFeed`,
    the optional HTTP status and the optional list of entries. */
module Feeds {
  import opened Base
  import opened Text

  /** The first six fields of a `time.struct_time`, unchecked. */
  datatype TimeTuple = TimeTuple(year: int, month: int, day: int, hour: int, minute: int, second: int)

  /** One feed entry: its attributes, `None` where the attribute is missing
      or falsy. `UnreadableEntry` is an entry on which reading an attribute
      raises. */
  datatype FeedEntry =
    | FeedEntry(title: Option<string>, summary: Option<string>, link: Option<string>,
                published: Option<TimeTuple>, updated: Option<TimeTuple>)
    | UnreadableEntry

  /** `feedparser.parse(url)`: `status` is present when the feed came over
      HTTP, `entries` when the document was parsed at all. `ParseFailed`
      stands for `feedparser.parse` raising. */
  datatype ParsedFeed = Parsed(status: Option<int>, entries: Option<seq<FeedEntry>>) | ParseFailed

  /** One article as both readers report it: date, link, title, summary and
      the feed it came from. */
  datatype Article = Article(date: string, url: string, title: string, summary: string, source: string)

  predicate IsLeapYear(y: int) {
    y % 4 == 0 && (y % 100 != 0 || y % 400 == 0)
  }

  function DaysInMonth(y: int, m: int): int
    requires 1 <= m <= 12
  {
    if m == 2 then (if IsLeapYear(y) then 29 else 28)
    else if m == 4 || m == 6 || m == 9 || m == 11 then 30
    else 31
  }

  /** The arguments `datetime(y, m, d, H, M, S)` accepts without raising
      `ValueError`. A leap second (`S == 60`), which `time.struct_time`
      allows, is rejected. */
  predicate ValidDateTime(t: TimeTuple) {
    && 1 <= t.year <= 9999
    && 1 <= t.month <= 12
    && 1 <= t.day <= DaysInMonth(t.year, t.month)
    && 0 <= t.hour <= 23
    && 0 <= t.minute <= 59
    && 0 <= t.second <= 59
  }

  /** `strftime("%Y-%m-%d")` of a valid date. */
  function FormatDate(t: TimeTuple): (s: string)
    requires ValidDateTime(t)
    ensures |s| == 10
  {
    FixedDigits(t.year, 4) + "-" + FixedDigits(t.month, 2) + "-" + FixedDigits(t.day, 2)
  }

  /** One timestamp: formatted when `datetime` accepts it; when it raises,
      the whole lookup gives `""`. */
  function DateOrEmpty(t: TimeTuple): (s: string)
    ensures s == "" || exists u :: ValidDateTime(u) && ParseIsoDate(s) == Some((u.year, u.month, u.day))
  {
    if ValidDateTime(t) then FormatDateRoundTrip(t); FormatDate(t) else ""
  }

  /** `_extract_date`: the published time if the entry has one, else the
      updated time, else `""`. The first present field decides, even when it
      is not a valid date. */
  function ExtractDate(e: FeedEntry): (d: string)
    requires e.FeedEntry?
    ensures d == "" || exists t :: ValidDateTime(t) && ParseIsoDate(d) == Some((t.year, t.month, t.day))
  {
    match e.published
    case Some(t) => DateOrEmpty(t)
    case None =>
      match e.updated
      case Some(t) => DateOrEmpty(t)
      case None => ""
  }

  /** Reads a `YYYY-MM-DD` string back into year, month and day. */
  function ParseIsoDate(s: string): Option<(int, int, int)> {
    if |s| == 10 && s[4] == '-' && s[7] == '-'
       && AllDigits(s[..4]) && AllDigits(s[5..7]) && AllDigits(s[8..])
    then Some((ParseDigits(s[..4]), ParseDigits(s[5..7]), ParseDigits(s[8..])))
    else None
  }

  /** Three digit fields joined by `-` read back as those fields. */
  lemma IsoFieldsRoundTrip(y: string, m: string, d: string)
    requires |y| == 4 && |m| == 2 && |d| == 2
    requires AllDigits(y) && AllDigits(m) && AllDigits(d)
    ensures ParseIsoDate(y + "-" + m + "-" + d) == Some((ParseDigits(y), ParseDigits(m), ParseDigits(d)))
  {
    var s := y + "-" + m + "-" + d;
    assert s[..4] == y;
    assert s[5..7] == m;
    assert s[8..] == d;
  }

  /** The formatted date reads back as the timestamp's year, month and day. */
  lemma FormatDateRoundTrip(t: TimeTuple)
    requires ValidDateTime(t)
    ensures ParseIsoDate(FormatDate(t)) == Some((t.year, t.month, t.day))
  {
    IsoFieldsRoundTrip(FixedDigits(t.year, 4), FixedDigits(t.month, 2), FixedDigits(t.day, 2));
    assert Pow10(2) == 100;
    assert Pow10(4) == 10000;
    FixedDigitsRoundTrip(t.year, 4);
    FixedDigitsRoundTrip(t.month, 2);
    FixedDigitsRoundTrip(t.day, 2);
  }

  /** A valid published time is used, whatever the updated time is. */
  lemma PublishedPreferred(e: FeedEntry, t: TimeTuple)
    requires e.FeedEntry? && e.published == Some(t) && ValidDateTime(t)
    ensures ParseIsoDate(ExtractDate(e)) == Some((t.year, t.month, t.day))
  {
    FormatDateRoundTrip(t);
  }

  /** Without a published time a valid updated time is used. */
  lemma UpdatedAsFallback(e: FeedEntry, t: TimeTuple)
    requires e.FeedEntry? && e.published == None && e.updated == Some(t) && ValidDateTime(t)
    ensures ParseIsoDate(ExtractDate(e)) == Some((t.year, t.month, t.day))
  {
    FormatDateRoundTrip(t);
  }

  /** An invalid published time gives no date, even when a valid updated
      time exists: the exception leaves the lookup before the fallback. */
  lemma InvalidPublishedHidesUpdated(e: FeedEntry, t: TimeTuple)
    requires e.FeedEntry? && e.published == Some(t) && !ValidDateTime(t)
    ensures ExtractDate(e) == ""
  {
  }

  /** `getattr(entry, "title", "") or ""` and the same for the summary. */
  function TitleOf(e: FeedEntry): string
    requires e.FeedEntry?
  {
    e.title.GetOr("")
  }

  function SummaryOf(e: FeedEntry): string
    requires e.FeedEntry?
  {
    e.summary.GetOr("")
  }

  /** The article an entry becomes, attributed to `source`. */
  function ArticleOf(source: string, e: FeedEntry): Article
    requires e.FeedEntry?
  {
    Article(ExtractDate(e), e.link.GetOr(""), TitleOf(e), SummaryOf(e), source)
  }

  /** The entries a reader walks: none for a non-200 status, a missing or
      empty entry list, or a parse that raised. */
  function EntriesToRead(feed: ParsedFeed): seq<FeedEntry> {
    match feed
    case ParseFailed => []
    case Parsed(status, entries) =>
      if status.Some? && status.value != 200 then []
      else if entries.None? then []
      else entries.value
  }
}
