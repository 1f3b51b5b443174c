/** The stand-alone strict RSS filter (`BuscadorRSS_filtrado.py`): an entry
    is relevant when its text is non-empty, mentions no exclusion word and
    mentions at least one primary keyword. Secondary keywords are looked up
    but never change the verdict.

    Matching is case-insensitive substring containment through the
    lower-casing parameter `lower`; the script's module-level exclusion list
    is the parameter `exclusions`. */
module LegacyRss {
  import opened Base
  import opened Text
  import opened Keywords
  import opened Feeds
  import opened Urls
  import FeedReader

  /** `contains_exclusion_keywords(content)` */
  predicate HasExclusion(lower: Lower, exclusions: seq<string>, content: string) {
    content != "" && exists k :: 0 <= k < |exclusions| && Hit(lower, lower(content), exclusions[k])
  }

  /** `search_in_content_strict(content, primary, secondary)`; the secondary
      list has no say. */
  predicate StrictRelevant(lower: Lower, exclusions: seq<string>, primary: seq<string>, content: string) {
    && content != ""
    && !HasExclusion(lower, exclusions, content)
    && exists k :: 0 <= k < |primary| && Hit(lower, lower(content), primary[k])
  }

  /** `contains_exclusion_keywords`: the loop returns at the first
      exclusion word found. */
  method ContainsExclusionKeywords(lower: Lower, exclusions: seq<string>, content: string)
    returns (found: bool)
    ensures found == HasExclusion(lower, exclusions, content)
  {
    if content == "" {
      return false;
    }
    var contentLower := lower(content);
    var i := 0;
    while i < |exclusions|
      invariant 0 <= i <= |exclusions|
      invariant forall k :: 0 <= k < i ==> !Hit(lower, contentLower, exclusions[k])
    {
      if Contains(contentLower, lower(exclusions[i])) {
        return true;
      }
      i := i + 1;
    }
    return false;
  }

  /** `search_in_content_strict`: exclusion check, then the primary loop
      (which decides), then the secondary loop (which only collects the
      keywords it finds). */
  method SearchInContentStrict(lower: Lower, exclusions: seq<string>, primary: seq<string>,
                               secondary: seq<string>, content: string)
    returns (relevant: bool)
    ensures relevant == StrictRelevant(lower, exclusions, primary, content)
  {
    if content == "" {
      return false;
    }
    var contentLower := lower(content);
    var excluded := ContainsExclusionKeywords(lower, exclusions, content);
    if excluded {
      return false;
    }
    var primaryFound := false;
    var foundPrimary: seq<string> := [];
    var i := 0;
    while i < |primary|
      invariant 0 <= i <= |primary|
      invariant primaryFound <==> foundPrimary != []
      invariant foundPrimary == Hits(lower, contentLower, primary[..i])
    {
      HitsStep(lower, contentLower, primary, i);
      if Contains(contentLower, lower(primary[i])) {
        primaryFound := true;
        foundPrimary := foundPrimary + [primary[i]];
      }
      i := i + 1;
    }
    assert primary[..|primary|] == primary;
    HitsNonEmpty(lower, contentLower, primary);
    if !primaryFound {
      return false;
    }
    var foundSecondary: seq<string> := [];
    var j := 0;
    while j < |secondary|
      invariant 0 <= j <= |secondary|
      invariant foundSecondary == Hits(lower, contentLower, secondary[..j])
    {
      HitsStep(lower, contentLower, secondary, j);
      if Contains(contentLower, lower(secondary[j])) {
        foundSecondary := foundSecondary + [secondary[j]];
      }
      j := j + 1;
    }
    return true;
  }

  /** An exclusion word vetoes an entry however many primary keywords it
      mentions. */
  lemma ExclusionVetoes(lower: Lower, exclusions: seq<string>, primary: seq<string>, content: string, k: nat)
    requires k < |exclusions| && content != "" && Hit(lower, lower(content), exclusions[k])
    ensures !StrictRelevant(lower, exclusions, primary, content)
  {
  }

  /** Any primary keyword occurring anywhere in the text, even inside a
      longer word, makes clean text relevant. */
  lemma PrimarySubstringSuffices(lower: Lower, exclusions: seq<string>, primary: seq<string>,
                                 content: string, k: nat, at: nat)
    requires k < |primary| && content != ""
    requires OccursAt(lower(content), lower(primary[k]), at)
    requires !HasExclusion(lower, exclusions, content)
    ensures StrictRelevant(lower, exclusions, primary, content)
  {
    ContainsWitness(lower(content), lower(primary[k]), at);
  }

  /** `validate_url`: the same check as the feed reader's `_validate_url`. */
  predicate ValidateUrl(parse: UrlParser, url: string): (ok: bool)
    ensures ok <==> HasSchemeAndHost(parse, url)
  {
    match parse(url)
    case None => false
    case Some(parts) => parts.scheme != "" && parts.netloc != ""
  }

  /** The script's own date block: the published time if present, else the
      updated time; an invalid time leaves the date `""`. It agrees with the
      feed reader's `_extract_date` on every entry. */
  function PublicationDate(e: FeedEntry): (d: string)
    requires e.FeedEntry?
    ensures d == ExtractDate(e)
  {
    if e.published.Some? then DateOrEmpty(e.published.value)
    else if e.updated.Some? then DateOrEmpty(e.updated.value)
    else ""
  }

  /** The text searched for one entry: `f"{title} {summary}".strip()`. */
  function SearchText(title: string, summary: string): string {
    Strip(title + " " + summary)
  }

  /** The article an entry becomes when it is readable and relevant. */
  function RelevantArticle(lower: Lower, exclusions: seq<string>, primary: seq<string>,
                           feedUrl: string, e: FeedEntry): Option<Article>
  {
    if e.UnreadableEntry? then None
    else if StrictRelevant(lower, exclusions, primary, SearchText(TitleOf(e), SummaryOf(e)))
    then Some(ArticleOf(feedUrl, e))
    else None
  }

  /** The list `process_rss_feed` returns for the feed at `feedUrl`. */
  function RelevantArticles(lower: Lower, exclusions: seq<string>, primary: seq<string>,
                            feedUrl: string, feed: ParsedFeed): seq<Article>
  {
    FilterMap(e => RelevantArticle(lower, exclusions, primary, feedUrl, e), EntriesToRead(feed))
  }

  /** `process_rss_feed`: the feed's entries in order, keeping the relevant
      ones; an entry whose attributes cannot be read is skipped alone. */
  method ProcessRssFeed(lower: Lower, exclusions: seq<string>, primary: seq<string>,
                        secondary: seq<string>, fetch: string -> ParsedFeed, feedUrl: string)
    returns (articlesFound: seq<Article>)
    ensures articlesFound == RelevantArticles(lower, exclusions, primary, feedUrl, fetch(feedUrl))
  {
    articlesFound := [];
    var feed := fetch(feedUrl);
    if feed.ParseFailed? {
      return;
    }
    if feed.status.Some? && feed.status.value != 200 {
      return;
    }
    if feed.entries.None? || feed.entries.value == [] {
      return;
    }
    var entries := feed.entries.value;
    var i := 0;
    while i < |entries|
      invariant 0 <= i <= |entries|
      invariant articlesFound
                == FilterMap(e => RelevantArticle(lower, exclusions, primary, feedUrl, e), entries[..i])
    {
      var entry := entries[i];
      FilterMapStep(e => RelevantArticle(lower, exclusions, primary, feedUrl, e), entries, i);
      if entry.FeedEntry? {
        var title := entry.title.GetOr("");
        var summary := entry.summary.GetOr("");
        var content := Strip(title + " " + summary);
        var relevant := SearchInContentStrict(lower, exclusions, primary, secondary, content);
        if relevant {
          articlesFound := articlesFound + [Article(PublicationDate(entry), entry.link.GetOr(""), title, summary, feedUrl)];
        }
      }
      i := i + 1;
    }
    assert entries[..|entries|] == entries;
  }

  /** The strict reader reports exactly the feed reader's articles whose
      title and summary pass the strict filter, in the same order. */
  lemma {:induction false} StrictReaderFiltersFeedReader(lower: Lower, exclusions: seq<string>,
                                                         primary: seq<string>, feedUrl: string, feed: ParsedFeed)
    ensures RelevantArticles(lower, exclusions, primary, feedUrl, feed)
            == Filter((a: Article) => StrictRelevant(lower, exclusions, primary, SearchText(a.title, a.summary)),
                      FeedReader.FeedArticles(feedUrl, feed))
  {
    EntriesFiltered(lower, exclusions, primary, feedUrl, EntriesToRead(feed));
  }

  lemma {:induction false} EntriesFiltered(lower: Lower, exclusions: seq<string>, primary: seq<string>,
                                           feedUrl: string, entries: seq<FeedEntry>)
    ensures FilterMap(e => RelevantArticle(lower, exclusions, primary, feedUrl, e), entries)
            == Filter((a: Article) => StrictRelevant(lower, exclusions, primary, SearchText(a.title, a.summary)),
                      FilterMap(e => FeedReader.EntryArticle(feedUrl, e), entries))
  {
    if entries != [] {
      var p := entries[..|entries| - 1];
      var x := entries[|entries| - 1];
      var q := (a: Article) => StrictRelevant(lower, exclusions, primary, SearchText(a.title, a.summary));
      var g := e => FeedReader.EntryArticle(feedUrl, e);
      EntriesFiltered(lower, exclusions, primary, feedUrl, p);
      var tail := if g(x).Some? then [g(x).value] else [];
      assert FilterMap(g, entries) == FilterMap(g, p) + tail;
      FilterAppend(q, FilterMap(g, p), tail);
      if x.FeedEntry? {
        assert Filter(q, tail) == Filter(q, [ArticleOf(feedUrl, x)]);
        assert [ArticleOf(feedUrl, x)][..0] == [];
      }
    }
  }
}
