/** The orchestrator (`content_monitor.py`): runs the three tools in a
    fixed order, turns their outputs into uniform CSV rows, and removes rows
    whose URL was already seen, keeping the first.

    The JSON round trip between a tool and the orchestrator is the identity
    on the typed values here. The Google search tool is not modelled; its
    answer to each query is the parameter `search`. */
module Monitor {
  import opened Base
  import opened Text
  import opened Feeds
  import opened Scraper
  import FeedReader
  import Config

  /** One CSV row: `date, url, title, summary, source, matched_keywords, tool`. */
  datatype Row = Row(date: string, url: string, title: string, summary: string, source: string,
                     matchedKeywords: string, tool: string)

  /** `", ".join(item.get("matched_keywords", []))`: `None` when the item has
      no such field. */
  function KeywordsColumn(matched: Option<seq<string>>): string {
    Join(", ", matched.GetOr([]))
  }

  /** An item without keywords gets an empty column; otherwise every keyword
      can be read in the column. */
  lemma KeywordsColumnShowsKeywords(matched: Option<seq<string>>)
    ensures matched.None? ==> KeywordsColumn(matched) == ""
    ensures matched.Some? ==> forall i :: 0 <= i < |matched.value| ==> Contains(KeywordsColumn(matched), matched.value[i])
  {
    if matched.Some? {
      forall i | 0 <= i < |matched.value|
        ensures Contains(KeywordsColumn(matched), matched.value[i])
      {
        JoinShowsEveryItem(", ", matched.value, i);
      }
    }
  }

  // ---------------------------------------------------------------------
  // Row normalisation
  // ---------------------------------------------------------------------

  /** A feed article's row. Feed articles carry no keyword field. */
  function FeedRow(a: Article): Row {
    Row(a.date, a.url, a.title, a.summary, a.source, KeywordsColumn(None), "read_feeds")
  }

  /** `_collect_feeds`, given the feed reader's articles. */
  method CollectFeeds(articles: seq<Article>) returns (rows: seq<Row>)
    ensures rows == Map(FeedRow, articles)
  {
    rows := [];
    var i := 0;
    while i < |articles|
      invariant 0 <= i <= |articles|
      invariant rows == Map(FeedRow, articles[..i])
    {
      var item := articles[i];
      rows := rows + [Row(item.date, item.url, item.title, item.summary, item.source,
                          Join(", ", []), "read_feeds")];
      assert articles[..i + 1][..i] == articles[..i];
      i := i + 1;
    }
    assert articles[..|articles|] == articles;
  }

  /** One result of the Google search tool. */
  datatype SearchItem = SearchItem(title: string, link: string, snippet: string,
                                   matched: Option<seq<string>>)

  /** The tool's answer to one query: `{"error": ...}` or a list of items. */
  datatype SearchResponse = SearchFailed(error: string) | SearchHits(items: seq<SearchItem>)

  function GoogleRow(item: SearchItem): Row {
    Row("", item.link, item.title, item.snippet, "Google Search", KeywordsColumn(item.matched), "google_search")
  }

  /** The rows of one query: none for an error. */
  function ResponseRows(r: SearchResponse): seq<Row> {
    match r
    case SearchFailed(_) => []
    case SearchHits(items) => Map(GoogleRow, items)
  }

  /** The rows of all queries, query after query. */
  function GoogleRows(search: string -> SearchResponse, keywords: seq<string>): seq<Row> {
    Concat(Map(k => ResponseRows(search(k)), keywords))
  }

  /** `_collect_google`: one query per keyword; an error answer is reported
      and the loop goes on with the next keyword. */
  method CollectGoogle(search: string -> SearchResponse, keywords: seq<string>) returns (rows: seq<Row>)
    ensures rows == GoogleRows(search, keywords)
  {
    rows := [];
    var i := 0;
    while i < |keywords|
      invariant 0 <= i <= |keywords|
      invariant rows == GoogleRows(search, keywords[..i])
    {
      ConcatMapStep(k => ResponseRows(search(k)), keywords, i);
      var raw := search(keywords[i]);
      if raw.SearchHits? {
        var items := raw.items;
        ghost var before := rows;
        var j := 0;
        while j < |items|
          invariant 0 <= j <= |items|
          invariant rows == before + Map(GoogleRow, items[..j])
        {
          var item := items[j];
          rows := rows + [Row("", item.link, item.title, item.snippet, "Google Search",
                              KeywordsColumn(item.matched), "google_search")];
          MapStep(GoogleRow, items, j);
          j := j + 1;
        }
        assert items[..|items|] == items;
      }
      i := i + 1;
    }
    assert keywords[..|keywords|] == keywords;
  }

  /** The queries are independent: the rows of two keyword lists are the
      rows of the first followed by those of the second. */
  lemma GoogleRowsAppend(search: string -> SearchResponse, a: seq<string>, b: seq<string>)
    ensures GoogleRows(search, a + b) == GoogleRows(search, a) + GoogleRows(search, b)
  {
    var f := k => ResponseRows(search(k));
    MapAppend(f, a, b);
    ConcatAppend(Map(f, a), Map(f, b));
  }

  /** A query that fails contributes no rows and does not stop the queries
      after it. */
  lemma FailedQueryOnlySkipsItself(search: string -> SearchResponse, keywords: seq<string>, i: nat)
    requires i < |keywords| && search(keywords[i]).SearchFailed?
    ensures GoogleRows(search, keywords)
            == GoogleRows(search, keywords[..i]) + GoogleRows(search, keywords[i + 1..])
  {
    var front := keywords[..i];
    var back := keywords[i + 1..];
    assert keywords == (front + [keywords[i]]) + back;
    GoogleRowsAppend(search, front + [keywords[i]], back);
    GoogleRowsAppend(search, front, [keywords[i]]);
    assert GoogleRows(search, [keywords[i]]) == [] by {
      var none: seq<seq<Row>> := [[]];
      assert Map(k => ResponseRows(search(k)), [keywords[i]]) == none;
      assert none[..0] == [];
    }
  }

  /** Every Google row has no date, the source "Google Search" and the tool
      "google_search", and there is one per item of the successful queries. */
  lemma GoogleRowsShape(search: string -> SearchResponse, keywords: seq<string>, r: Row)
    requires r in GoogleRows(search, keywords)
    ensures r.date == "" && r.source == "Google Search" && r.tool == "google_search"
    ensures exists k :: k in keywords && search(k).SearchHits? && exists item :: item in search(k).items && r == GoogleRow(item)
  {
    var f := k => ResponseRows(search(k));
    var parts := Map(f, keywords);
    ConcatMember(parts, r);
    var i :| 0 <= i < |parts| && r in parts[i];
    MapAt(f, keywords, i);
    assert keywords[i] in keywords;
    var items := search(keywords[i]).items;
    var j :| 0 <= j < |items| && Map(GoogleRow, items)[j] == r;
    MapAt(GoogleRow, items, j);
    assert items[j] in items;
  }

  /** A scraped entry's row: no date and no title, the entry's text as the
      summary and its page as the source. */
  function ScrapeRow(k: Kept): Row {
    Row("", k.url, "", k.text, k.sourcePage, KeywordsColumn(Some(k.matchedKeywords)), "scrape_pages")
  }

  /** `_collect_scrapes`, given the scraper's report; skipped pages are only
      reported on the console and add no rows. */
  method CollectScrapes(report: Report) returns (rows: seq<Row>)
    ensures rows == Map(ScrapeRow, report.results)
  {
    var results := report.results;
    rows := [];
    var i := 0;
    while i < |results|
      invariant 0 <= i <= |results|
      invariant rows == Map(ScrapeRow, results[..i])
    {
      var item := results[i];
      rows := rows + [Row("", item.url, "", item.text, item.sourcePage,
                          Join(", ", item.matchedKeywords), "scrape_pages")];
      assert results[..i + 1][..i] == results[..i];
      i := i + 1;
    }
    assert results[..|results|] == results;
  }

  // ---------------------------------------------------------------------
  // De-duplication by URL
  // ---------------------------------------------------------------------

  /** The loop's variables: the rows kept and the URLs seen. */
  datatype DedupState = DedupState(unique: seq<Row>, seen: set<string>)

  /** One pass: a row is dropped only when its URL is non-empty and seen. */
  function DedupStep(st: DedupState, row: Row): DedupState {
    if row.url != "" && row.url in st.seen then st
    else DedupState(st.unique + [row], st.seen + {row.url})
  }

  /** The loop's state after `rows`, starting from the URLs `seen0`. */
  function DedupFrom(seen0: set<string>, rows: seq<Row>): DedupState {
    if rows == [] then DedupState([], seen0)
    else DedupStep(DedupFrom(seen0, rows[..|rows| - 1]), rows[|rows| - 1])
  }

  /** `_deduplicate(rows)` */
  function Dedup(rows: seq<Row>): seq<Row> {
    DedupFrom({}, rows).unique
  }

  /** `_deduplicate`: keeps a set of seen URLs and the rows kept so far. */
  method Deduplicate(rows: seq<Row>) returns (unique: seq<Row>)
    ensures unique == Dedup(rows)
  {
    var seen: set<string> := {};
    unique := [];
    var i := 0;
    while i < |rows|
      invariant 0 <= i <= |rows|
      invariant DedupState(unique, seen) == DedupFrom({}, rows[..i])
    {
      var row := rows[i];
      var url := row.url;
      assert rows[..i + 1][..i] == rows[..i];
      if !(url != "" && url in seen) {
        seen := seen + {url};
        unique := unique + [row];
      }
      i := i + 1;
    }
    assert rows[..|rows|] == rows;
  }

  /** The URLs of some rows. */
  function UrlsOf(rows: seq<Row>): set<string> {
    set r | r in rows :: r.url
  }

  lemma UrlsOfAppend(a: seq<Row>, b: seq<Row>)
    ensures UrlsOf(a + b) == UrlsOf(a) + UrlsOf(b)
  {
  }

  /** The seen set is the starting set plus every URL looked at. */
  lemma {:induction false} DedupSeenIsUrls(seen0: set<string>, rows: seq<Row>)
    ensures DedupFrom(seen0, rows).seen == seen0 + UrlsOf(rows)
  {
    if rows != [] {
      var p := rows[..|rows| - 1];
      DedupSeenIsUrls(seen0, p);
      assert rows == p + [rows[|rows| - 1]];
      UrlsOfAppend(p, [rows[|rows| - 1]]);
    }
  }

  /** Row `i` is the first row with its URL, or has an empty URL. */
  predicate FirstOfUrl(rows: seq<Row>, i: nat)
    requires i < |rows|
  {
    rows[i].url == "" || forall j :: 0 <= j < i ==> rows[j].url != rows[i].url
  }

  /** Reference definition: the rows that are the first with their URL, or
      have no URL, in input order. */
  function FirstOccurrences(rows: seq<Row>): seq<Row> {
    if rows == [] then []
    else FirstOccurrences(rows[..|rows| - 1])
         + (if FirstOfUrl(rows, |rows| - 1) then [rows[|rows| - 1]] else [])
  }

  /** De-duplication keeps exactly the first row of each non-empty URL and
      every row without a URL. */
  lemma {:induction false} DedupIsFirstOccurrences(rows: seq<Row>)
    ensures Dedup(rows) == FirstOccurrences(rows)
  {
    if rows != [] {
      var p := rows[..|rows| - 1];
      var x := rows[|rows| - 1];
      DedupIsFirstOccurrences(p);
      DedupSeenIsUrls({}, p);
      if x.url != "" {
        if x.url in UrlsOf(p) {
          var r :| r in p && r.url == x.url;
          var j :| 0 <= j < |p| && p[j] == r;
          assert rows[j].url == x.url;
        } else {
          forall j | 0 <= j < |rows| - 1
            ensures rows[j].url != x.url
          {
            assert rows[j] == p[j];
            assert p[j] in p;
          }
        }
      }
    }
  }

  /** No two kept rows share a non-empty URL. */
  predicate NoSharedUrl(rows: seq<Row>) {
    forall i, j :: 0 <= i < j < |rows| && rows[i].url != "" ==> rows[i].url != rows[j].url
  }

  lemma {:induction false} DedupHasNoSharedUrl(seen0: set<string>, rows: seq<Row>)
    ensures NoSharedUrl(DedupFrom(seen0, rows).unique)
    ensures UrlsOf(DedupFrom(seen0, rows).unique) <= DedupFrom(seen0, rows).seen
  {
    if rows != [] {
      var p := rows[..|rows| - 1];
      DedupHasNoSharedUrl(seen0, p);
      var st := DedupFrom(seen0, p);
      var x := rows[|rows| - 1];
      if !(x.url != "" && x.url in st.seen) {
        var u := st.unique + [x];
        forall i, j | 0 <= i < j < |u| && u[i].url != ""
          ensures u[i].url != u[j].url
        {
          if j == |u| - 1 {
            assert u[i] in st.unique;
          }
        }
        UrlsOfAppend(st.unique, [x]);
      }
    }
  }

  /** The last row is either dropped or appended to the kept rows. */
  lemma DedupLast(rows: seq<Row>)
    requires rows != []
    ensures var p := rows[..|rows| - 1];
            Dedup(rows) == Dedup(p) || Dedup(rows) == Dedup(p) + [rows[|rows| - 1]]
  {
  }

  /** The kept rows are the input with some rows left out, in input order. */
  lemma {:induction false} DedupIsSubsequence(rows: seq<Row>)
    ensures SubseqOf(Dedup(rows), rows)
    ensures |Dedup(rows)| <= |rows|
  {
    if rows != [] {
      var p := rows[..|rows| - 1];
      var x := rows[|rows| - 1];
      assert p + [x] == rows;
      DedupIsSubsequence(p);
      DedupLast(rows);
      if Dedup(rows) == Dedup(p) {
        SubseqExtend(Dedup(p), p, x);
      } else {
        SubseqExtendBoth(Dedup(p), p, x);
      }
    }
    SubseqLength(Dedup(rows), rows);
  }

  /** Every row without a URL is kept: the URL-less rows of the output are
      those of the input. */
  lemma {:induction false} DedupKeepsRowsWithoutUrl(rows: seq<Row>)
    ensures Filter((r: Row) => r.url == "", Dedup(rows)) == Filter((r: Row) => r.url == "", rows)
  {
    if rows != [] {
      var p := rows[..|rows| - 1];
      var x := rows[|rows| - 1];
      DedupKeepsRowsWithoutUrl(p);
      var e := (r: Row) => r.url == "";
      if Dedup(rows) != Dedup(p) {
        FilterAppend(e, Dedup(p), [x]);
        assert Dedup(rows) == Dedup(p) + [x];
      }
    }
  }

  /** Every URL of the input is still represented in the output. */
  lemma {:induction false} DedupKeepsEveryUrl(rows: seq<Row>)
    ensures UrlsOf(Dedup(rows)) == UrlsOf(rows)
  {
    if rows != [] {
      var p := rows[..|rows| - 1];
      var x := rows[|rows| - 1];
      DedupKeepsEveryUrl(p);
      DedupSeenIsUrls({}, p);
      assert rows == p + [x];
      UrlsOfAppend(p, [x]);
      if Dedup(rows) != Dedup(p) {
        UrlsOfAppend(Dedup(p), [x]);
      }
    }
  }

  /** Rows that already share no non-empty URL pass unchanged. */
  lemma {:induction false} DedupKeepsDistinctRows(rows: seq<Row>)
    requires NoSharedUrl(rows)
    ensures Dedup(rows) == rows
  {
    if rows != [] {
      var p := rows[..|rows| - 1];
      var x := rows[|rows| - 1];
      assert NoSharedUrl(p) by {
        forall i, j | 0 <= i < j < |p| && p[i].url != ""
          ensures p[i].url != p[j].url
        {
          assert p[i] == rows[i] && p[j] == rows[j];
        }
      }
      DedupKeepsDistinctRows(p);
      var st := DedupFrom({}, p);
      assert x.url == "" || x.url !in st.seen by {
        DedupSeenIsUrls({}, p);
      }
      assert Dedup(rows) == st.unique + [x];
      assert rows == p + [x];
    }
  }

  /** De-duplicating twice is de-duplicating once. */
  lemma DedupIdempotent(rows: seq<Row>)
    ensures Dedup(Dedup(rows)) == Dedup(rows)
  {
    DedupHasNoSharedUrl({}, rows);
    DedupKeepsDistinctRows(Dedup(rows));
  }

  /** Starting from seen URLs `s` keeps the rows kept from scratch whose URL
      is empty or not in `s`. */
  lemma {:induction false} DedupFromSeen(s: set<string>, rows: seq<Row>)
    ensures DedupFrom(s, rows).unique == Filter((r: Row) => r.url == "" || r.url !in s, Dedup(rows))
  {
    if rows != [] {
      var p := rows[..|rows| - 1];
      var x := rows[|rows| - 1];
      var keep := (r: Row) => r.url == "" || r.url !in s;
      DedupFromSeen(s, p);
      DedupSeenIsUrls(s, p);
      DedupSeenIsUrls({}, p);
      if Dedup(rows) != Dedup(p) {
        FilterAppend(keep, Dedup(p), [x]);
      }
    }
  }

  lemma {:induction false} DedupFromAppend(s: set<string>, a: seq<Row>, b: seq<Row>)
    ensures DedupFrom(s, a + b) == DedupFrom(DedupFrom(s, a).seen, b)
                                    .(unique := DedupFrom(s, a).unique + DedupFrom(DedupFrom(s, a).seen, b).unique)
    decreases |b|
  {
    if b == [] {
      assert a + b == a;
    } else {
      var b' := b[..|b| - 1];
      assert (a + b)[..|a + b| - 1] == a + b';
      assert (a + b)[|a + b| - 1] == b[|b| - 1];
      DedupFromAppend(s, a, b');
    }
  }

  /** Rows of `b` lose to rows of `a` with the same non-empty URL. */
  lemma DedupAppend(a: seq<Row>, b: seq<Row>)
    ensures Dedup(a + b) == Dedup(a) + Filter((r: Row) => r.url == "" || r.url !in UrlsOf(a), Dedup(b))
  {
    DedupFromAppend({}, a, b);
    DedupSeenIsUrls({}, a);
    assert {} + UrlsOf(a) == UrlsOf(a);
    DedupFromSeen(UrlsOf(a), b);
  }

  /** On a URL collision a feed row beats a Google row and a Google row beats
      a scraped row: the kept Google rows are those whose URL no feed row
      has, and the kept scraped rows those whose URL neither a feed nor a
      Google row has. */
  lemma CollisionPriority(feeds: seq<Row>, google: seq<Row>, scrapes: seq<Row>)
    ensures Dedup(feeds + google + scrapes)
            == Dedup(feeds)
               + Filter((r: Row) => r.url == "" || r.url !in UrlsOf(feeds), Dedup(google))
               + Filter((r: Row) => r.url == "" || r.url !in UrlsOf(feeds + google), Dedup(scrapes))
  {
    DedupAppend(feeds + google, scrapes);
    DedupAppend(feeds, google);
  }

  // ---------------------------------------------------------------------
  // The collection run
  // ---------------------------------------------------------------------

  /** All rows before de-duplication: feeds, then Google, then scraping. */
  function AllRows(web: Web, fetch: string -> ParsedFeed, search: string -> SearchResponse,
                   scrapeUrls: seq<string>): seq<Row>
  {
    Map(FeedRow, FeedReader.ReadFeeds(web.parse, fetch, Config.RssFeeds))
    + GoogleRows(search, Config.GoogleSearchKeywords)
    + Map(ScrapeRow, ScrapeAll(web, scrapeUrls).results)
  }

  /** The collection steps of `main`: each tool with its defaults, rows in
      the fixed order, then de-duplication and the count of rows removed. */
  method CollectAll(web: Web, fetch: string -> ParsedFeed, search: string -> SearchResponse,
                    scrapeUrls: seq<string>)
    returns (uniqueRows: seq<Row>, duplicatesRemoved: int)
    ensures uniqueRows == Dedup(AllRows(web, fetch, search, scrapeUrls))
    ensures duplicatesRemoved == |AllRows(web, fetch, search, scrapeUrls)| - |uniqueRows| >= 0
  {
    var articles := FeedReader.Execute(web.parse, fetch, None);
    var feedRows := CollectFeeds(articles);
    var googleRows := CollectGoogle(search, Config.GoogleSearchKeywords);
    var report := Scraper.Execute(web, None, scrapeUrls);
    var scrapeRows := CollectScrapes(report);
    var allRows: seq<Row> := [];
    allRows := allRows + feedRows;
    assert allRows == feedRows;
    allRows := allRows + googleRows;
    allRows := allRows + scrapeRows;
    assert allRows == AllRows(web, fetch, search, scrapeUrls);
    uniqueRows := Deduplicate(allRows);
    DedupIsSubsequence(allRows);
    duplicatesRemoved := |allRows| - |uniqueRows|;
  }
}
