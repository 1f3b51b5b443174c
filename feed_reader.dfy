/** The feed reader tool (`tools/feed_reader.py`): reads every valid feed
    URL and reports one article per readable entry, with no keyword
    filtering at all.

    Fetching and parsing a feed (`feedparser.parse`) is the parameter
    `fetch`; URL parsing is the parameter `parse`. */
module FeedReader {
  import opened Base
  import opened Urls
  import opened Feeds
  import Config

  /** The article an entry becomes, or `None` when reading the entry raises
      (the loop's `except Exception: continue`). */
  function EntryArticle(source: string, e: FeedEntry): Option<Article> {
    if e.UnreadableEntry? then None else Some(ArticleOf(source, e))
  }

  /** The list `_parse_feed` returns for the feed at `feedUrl`. */
  function FeedArticles(feedUrl: string, feed: ParsedFeed): seq<Article> {
    FilterMap(e => EntryArticle(feedUrl, e), EntriesToRead(feed))
  }

  /** `_parse_feed`: one pass over the entries, appending one article per
      readable entry. */
  method ParseFeed(fetch: string -> ParsedFeed, feedUrl: string) returns (articles: seq<Article>)
    ensures articles == FeedArticles(feedUrl, fetch(feedUrl))
  {
    articles := [];
    var feed := fetch(feedUrl);
    if feed.ParseFailed? {
      return;
    }
    if feed.status.Some? && feed.status.value != 200 {
      return;
    }
    if feed.entries.None? || feed.entries.value == [] {
      return;
    }
    var entries := feed.entries.value;
    var i := 0;
    while i < |entries|
      invariant 0 <= i <= |entries|
      invariant articles == FilterMap(e => EntryArticle(feedUrl, e), entries[..i])
    {
      var entry := entries[i];
      FilterMapStep(e => EntryArticle(feedUrl, e), entries, i);
      if entry.FeedEntry? {
        var title := entry.title.GetOr("");
        var summary := entry.summary.GetOr("");
        articles := articles + [Article(ExtractDate(entry), entry.link.GetOr(""), title, summary, feedUrl)];
      }
      i := i + 1;
    }
    assert entries[..|entries|] == entries;
  }

  /** A feed answering with a status other than 200 yields nothing. */
  lemma BadStatusYieldsNothing(feedUrl: string, status: int, entries: Option<seq<FeedEntry>>)
    requires status != 200
    ensures FeedArticles(feedUrl, Parsed(Some(status), entries)) == []
  {
  }

  /** Otherwise there is one article per readable entry, in feed order, each
      attributed to the feed, with a missing title or summary read as `""`. */
  lemma OneArticlePerReadableEntry(feedUrl: string, feed: ParsedFeed)
    ensures var readable := Filter((e: FeedEntry) => e.FeedEntry?, EntriesToRead(feed));
            var articles := FeedArticles(feedUrl, feed);
            && |articles| == |readable|
            && forall i :: 0 <= i < |readable| ==>
                 readable[i].FeedEntry? && articles[i] == ArticleOf(feedUrl, readable[i])
  {
    ReadableArticles(feedUrl, EntriesToRead(feed));
  }

  lemma {:induction false} ReadableArticles(feedUrl: string, entries: seq<FeedEntry>)
    ensures var readable := Filter((e: FeedEntry) => e.FeedEntry?, entries);
            var articles := FilterMap(e => EntryArticle(feedUrl, e), entries);
            && |articles| == |readable|
            && forall i :: 0 <= i < |readable| ==>
                 readable[i].FeedEntry? && articles[i] == ArticleOf(feedUrl, readable[i])
  {
    if entries != [] {
      ReadableArticles(feedUrl, entries[..|entries| - 1]);
    }
  }

  /** The articles of every valid feed among `urls`, feed after feed. */
  function ReadFeeds(parse: UrlParser, fetch: string -> ParsedFeed, urls: seq<string>): seq<Article> {
    Concat(Map(u => FeedArticles(u, fetch(u)), Filter(u => HasSchemeAndHost(parse, u), urls)))
  }

  /** `execute`: the given feeds or `RSS_FEEDS`, invalid URLs dropped
      silently, each remaining feed read in turn. */
  method Execute(parse: UrlParser, fetch: string -> ParsedFeed, feedUrls: Option<seq<string>>)
    returns (allArticles: seq<Article>)
    ensures allArticles == ReadFeeds(parse, fetch, OrDefault(feedUrls, Config.RssFeeds))
  {
    var requested := OrDefault(feedUrls, Config.RssFeeds);
    var validFeeds := Filter(u => HasSchemeAndHost(parse, u), requested);
    allArticles := [];
    var i := 0;
    while i < |validFeeds|
      invariant 0 <= i <= |validFeeds|
      invariant allArticles == Concat(Map(u => FeedArticles(u, fetch(u)), validFeeds[..i]))
    {
      var articles := ParseFeed(fetch, validFeeds[i]);
      allArticles := allArticles + articles;
      ConcatMapStep(u => FeedArticles(u, fetch(u)), validFeeds, i);
      i := i + 1;
    }
    assert validFeeds[..|validFeeds|] == validFeeds;
  }

  /** Reading two lists of feeds one after the other gives the two results
      joined. */
  lemma ReadFeedsAppend(parse: UrlParser, fetch: string -> ParsedFeed, a: seq<string>, b: seq<string>)
    ensures ReadFeeds(parse, fetch, a + b) == ReadFeeds(parse, fetch, a) + ReadFeeds(parse, fetch, b)
  {
    var valid := u => HasSchemeAndHost(parse, u);
    var read := u => FeedArticles(u, fetch(u));
    FilterAppend(valid, a, b);
    MapAppend(read, Filter(valid, a), Filter(valid, b));
    ConcatAppend(Map(read, Filter(valid, a)), Map(read, Filter(valid, b)));
  }

  /** Every article comes from a requested feed whose URL is valid, and names
      that feed as its source. */
  lemma ArticlesComeFromValidFeeds(parse: UrlParser, fetch: string -> ParsedFeed, urls: seq<string>, a: Article)
    requires a in ReadFeeds(parse, fetch, urls)
    ensures a.source in urls && HasSchemeAndHost(parse, a.source)
  {
    var ok := u => HasSchemeAndHost(parse, u);
    var read := u => FeedArticles(u, fetch(u));
    var valid := Filter(ok, urls);
    var parts := Map(read, valid);
    ConcatMember(parts, a);
    var i :| 0 <= i < |parts| && a in parts[i];
    var u := valid[i];
    MapAt(read, valid, i);
    FilterMembers(ok, urls);
    assert u in valid;
    ArticleNamesItsFeed(u, fetch(u), a);
  }

  /** Every article of a feed names that feed as its source. */
  lemma ArticleNamesItsFeed(feedUrl: string, feed: ParsedFeed, a: Article)
    requires a in FeedArticles(feedUrl, feed)
    ensures a.source == feedUrl
  {
    FilterMapMember(e => EntryArticle(feedUrl, e), EntriesToRead(feed), a);
  }

  /** A URL that fails validation contributes nothing: reading it alone
      gives no articles. */
  lemma InvalidUrlIgnored(parse: UrlParser, fetch: string -> ParsedFeed, url: string)
    requires !HasSchemeAndHost(parse, url)
    ensures ReadFeeds(parse, fetch, [url]) == []
  {
    assert [url][..0] == [];
  }
}
