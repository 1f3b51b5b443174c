/** The scraper tool as a whole (`WebScraperTool._filter_entries` and
    `WebScraperTool.execute`): every requested page is validated, fetched,
    mined for entries and keyword-filtered, and the tool reports the kept
    entries and the skipped pages.

    Everything outside the process is a parameter collected in `Web`: URL
    parsing, the HTTP GET of each URL, HTML parsing (a body becomes its
    anchors), `urljoin`, the case folding of the CAPTCHA search and the
    shared keyword filter. */
module Scraper {
  import opened Base
  import opened Text
  import opened Urls
  import opened Keywords
  import opened Pattern
  import opened ScrapeFetch
  import opened ScrapeExtract

  /** Kept entries carry at most this many characters of their text. */
  const MaxKeptText: nat := 500

  /** One item of `results`: `{url, text, matched_keywords, source_page}`. */
  datatype Kept = Kept(url: string, text: string, matchedKeywords: seq<string>, sourcePage: string)

  /** One item of `skipped`: `{url, reason}`; the reported text is `Describe(reason)`. */
  datatype Skipped = Skipped(url: string, reason: SkipReason)

  datatype Report = Report(results: seq<Kept>, skipped: seq<Skipped>)

  datatype Web = Web(
    parse: UrlParser,
    get: string -> RawFetch,
    page: string -> seq<Anchor>,
    join: Resolver,
    fold: Fold,
    matcher: Matcher)

  // ---------------------------------------------------------------------
  // Keyword filtering of one page's entries
  // ---------------------------------------------------------------------

  /** The item an entry becomes when the filter passes it. */
  function ToKept(matcher: Matcher, source: string, e: Entry): Kept {
    Kept(e.url, Prefix(e.text, MaxKeptText), matcher(e.text).matched, source)
  }

  function KeepEntry(matcher: Matcher, source: string, e: Entry): Option<Kept> {
    if matcher(e.text).passes then Some(ToKept(matcher, source, e)) else None
  }

  /** The list `_filter_entries` builds. */
  function Filtered(matcher: Matcher, source: string, entries: seq<Entry>): seq<Kept> {
    FilterMap(e => KeepEntry(matcher, source, e), entries)
  }

  /** `_filter_entries`: one pass over the entries, appending what passes. */
  method FilterEntries(matcher: Matcher, entries: seq<Entry>, source: string)
    returns (filtered: seq<Kept>)
    ensures filtered == Filtered(matcher, source, entries)
  {
    filtered := [];
    var i := 0;
    while i < |entries|
      invariant 0 <= i <= |entries|
      invariant filtered == Filtered(matcher, source, entries[..i])
    {
      var entry := entries[i];
      var m := matcher(entry.text);
      if m.passes {
        filtered := filtered + [Kept(entry.url, Prefix(entry.text, MaxKeptText), m.matched, source)];
      }
      assert entries[..i + 1][..i] == entries[..i];
      i := i + 1;
    }
    assert entries[..|entries|] == entries;
  }

  /** The filter keeps exactly the entries it passes, in their order, each
      converted by `ToKept`. */
  lemma FilteredIsMapOfPassing(matcher: Matcher, source: string, entries: seq<Entry>)
    ensures Filtered(matcher, source, entries)
            == Map((e: Entry) => ToKept(matcher, source, e), Filter((e: Entry) => matcher(e.text).passes, entries))
  {
    FilterMapIsMapOfFilter(e => KeepEntry(matcher, source, e), (e: Entry) => matcher(e.text).passes,
                           (e: Entry) => ToKept(matcher, source, e), entries);
  }

  /** Every kept item comes from a passing entry of the page: same URL, the
      first `min(500, len)` characters of its text, the filter's matched
      keywords and the page as its source. */
  lemma KeptItemsComeFromPassingEntries(matcher: Matcher, source: string, entries: seq<Entry>, k: Kept)
    requires k in Filtered(matcher, source, entries)
    ensures exists e :: e in entries && matcher(e.text).passes
              && k.url == e.url
              && |k.text| == (if |e.text| < MaxKeptText then |e.text| else MaxKeptText)
              && k.text == e.text[..|k.text|]
              && k.matchedKeywords == matcher(e.text).matched
              && k.sourcePage == source
  {
    FilterMapMember(e => KeepEntry(matcher, source, e), entries, k);
    var i :| 0 <= i < |entries| && KeepEntry(matcher, source, entries[i]) == Some(k);
    assert entries[i] in entries;
  }

  /** With the region-gated filter, every kept item reports at least one
      keyword, and among them a region keyword that occurs in the entry. */
  lemma GateKeptItemsNameRegion(region: seq<string>, primary: seq<string>, secondary: seq<string>,
                                lower: Lower, source: string, entries: seq<Entry>, k: Kept)
    requires k in Filtered(GateMatcher(region, primary, secondary, lower), source, entries)
    ensures k.matchedKeywords != []
    ensures exists r :: r in region && r in k.matchedKeywords
  {
    var m := GateMatcher(region, primary, secondary, lower);
    KeptItemsComeFromPassingEntries(m, source, entries, k);
    var e :| e in entries && m(e.text).passes && k.matchedKeywords == m(e.text).matched;
    var g := Gate(region, primary, secondary, lower, e.text);
    assert m(e.text) == g;
    var r :| r in region && Hit(lower, lower(e.text), r);
    assert r in g.matched;
  }

  // ---------------------------------------------------------------------
  // execute
  // ---------------------------------------------------------------------

  /** What happens to one requested URL: the HTML to mine, or why it is
      skipped. Validation comes before any request. */
  function PageOutcome(web: Web, url: string): FetchOutcome {
    if !IsHttpUrl(web.parse, url) then Skip(InvalidUrl)
    else FetchPage(web.fold, web.get(url))
  }

  /** The kept entries of a fetched page. */
  function PageResults(web: Web, url: string, html: string): seq<Kept> {
    Filtered(web.matcher, url, Extract(web.join, url, web.page(html)))
  }

  /** The report after one more URL. */
  function Advance(web: Web, r: Report, url: string): Report {
    match PageOutcome(web, url)
    case Skip(reason) => Report(r.results, r.skipped + [Skipped(url, reason)])
    case Html(html) => Report(r.results + PageResults(web, url, html), r.skipped)
  }

  /** The report after the URLs of `urls`, in order. */
  function ScrapeAll(web: Web, urls: seq<string>): Report {
    if urls == [] then Report([], [])
    else Advance(web, ScrapeAll(web, urls[..|urls| - 1]), urls[|urls| - 1])
  }

  /** `execute`: the loop over the requested URLs. */
  method Execute(web: Web, urls: Option<seq<string>>, defaults: seq<string>) returns (report: Report)
    ensures report == ScrapeAll(web, OrDefault(urls, defaults))
  {
    var todo := if urls.Some? && urls.value != [] then urls.value else defaults;
    var results: seq<Kept> := [];
    var skipped: seq<Skipped> := [];
    var i := 0;
    while i < |todo|
      invariant 0 <= i <= |todo|
      invariant Report(results, skipped) == ScrapeAll(web, todo[..i])
    {
      var url := todo[i];
      assert todo[..i + 1][..i] == todo[..i];
      if !IsHttpUrl(web.parse, url) {
        skipped := skipped + [Skipped(url, InvalidUrl)];
      } else {
        var outcome := FetchPage(web.fold, web.get(url));
        match outcome {
          case Skip(reason) =>
            skipped := skipped + [Skipped(url, reason)];
          case Html(html) =>
            var entries := ExtractEntries(web.join, url, web.page(html));
            var filtered := FilterEntries(web.matcher, entries, url);
            results := results + filtered;
        }
      }
      i := i + 1;
    }
    assert todo[..|todo|] == todo;
    report := Report(results, skipped);
  }

  /** The results of a URL on its own: the page's kept entries, or none
      when it is skipped. */
  function ResultsOf(web: Web, url: string): seq<Kept> {
    match PageOutcome(web, url)
    case Skip(_) => []
    case Html(html) => PageResults(web, url, html)
  }

  function SkipOf(web: Web, url: string): Option<Skipped> {
    match PageOutcome(web, url)
    case Skip(reason) => Some(Skipped(url, reason))
    case Html(_) => None
  }

  /** Scraping a list is scraping each URL on its own: `results` is the
      concatenation of the pages' kept entries in input order, and `skipped`
      holds one record per skipped URL, in input order. */
  lemma {:induction false} ScrapeAllPerUrl(web: Web, urls: seq<string>)
    ensures ScrapeAll(web, urls).results == Concat(Map(u => ResultsOf(web, u), urls))
    ensures ScrapeAll(web, urls).skipped == FilterMap(u => SkipOf(web, u), urls)
  {
    if urls != [] {
      var p := urls[..|urls| - 1];
      ScrapeAllPerUrl(web, p);
      assert Map(u => ResultsOf(web, u), urls)[..|urls| - 1] == Map(u => ResultsOf(web, u), p);
    }
  }

  /** Every requested URL is accounted for exactly once: it is either
      skipped (and the skipped URLs appear in input order) or fetched. */
  lemma {:induction false} EveryUrlSkippedOrFetched(web: Web, urls: seq<string>)
    ensures Map((s: Skipped) => s.url, ScrapeAll(web, urls).skipped)
            == Filter(u => PageOutcome(web, u).Skip?, urls)
    ensures |ScrapeAll(web, urls).skipped| + |Filter(u => PageOutcome(web, u).Html?, urls)| == |urls|
  {
    if urls != [] {
      var p := urls[..|urls| - 1];
      EveryUrlSkippedOrFetched(web, p);
      var sk := ScrapeAll(web, p).skipped;
      var f := (s: Skipped) => s.url;
      if PageOutcome(web, urls[|urls| - 1]).Skip? {
        var s := ScrapeAll(web, urls).skipped;
        assert s[..|s| - 1] == sk;
      }
    }
  }

  /** Scraping two lists one after the other gives the two reports joined. */
  lemma ScrapeAllAppend(web: Web, a: seq<string>, b: seq<string>)
    ensures ScrapeAll(web, a + b).results == ScrapeAll(web, a).results + ScrapeAll(web, b).results
    ensures ScrapeAll(web, a + b).skipped == ScrapeAll(web, a).skipped + ScrapeAll(web, b).skipped
  {
    var f := u => ResultsOf(web, u);
    var g := u => SkipOf(web, u);
    ScrapeAllPerUrl(web, a + b);
    ScrapeAllPerUrl(web, a);
    ScrapeAllPerUrl(web, b);
    MapAppend(f, a, b);
    ConcatAppend(Map(f, a), Map(f, b));
    FilterMapAppend(g, a, b);
  }

  /** A page answering 403 is reported once as access denied and adds no
      results. */
  lemma ForbiddenPageSkipped(web: Web, url: string, contentType: Option<string>, text: string)
    requires IsHttpUrl(web.parse, url)
    requires web.get(url) == Responded(Response(403, contentType, text))
    ensures ScrapeAll(web, [url]) == Report([], [Skipped(url, AccessDenied(403))])
  {
    ForbiddenIsAccessDenied(web.fold, contentType, text);
    assert [url][..0] == [];
  }

  // ---------------------------------------------------------------------
  // The progress line's unguarded `urlparse`
  // ---------------------------------------------------------------------

  /** `execute` as written: before validating a URL it computes
      `urlparse(url).netloc` for its progress message outside any `try`, so
      a URL that `urlparse` rejects ends the whole run with an exception
      (`None` here) instead of being skipped as an invalid URL. */
  function ScrapeAllAsWritten(web: Web, urls: seq<string>): Option<Report> {
    if urls == [] then Some(Report([], []))
    else
      match ScrapeAllAsWritten(web, urls[..|urls| - 1])
      case None => None
      case Some(r) =>
        var url := urls[|urls| - 1];
        if web.parse(url).None? then None else Some(Advance(web, r, url))
  }

  /** One URL that `urlparse` rejects makes the run as written fail, where
      the validated run reports it as an invalid URL and carries on. */
  lemma {:induction false} UnparsableUrlAbortsRun(web: Web, urls: seq<string>, k: nat)
    requires k < |urls| && web.parse(urls[k]).None?
    ensures ScrapeAllAsWritten(web, urls) == None
    ensures Skipped(urls[k], InvalidUrl) in ScrapeAll(web, urls).skipped
  {
    var p := urls[..|urls| - 1];
    if k < |urls| - 1 {
      assert p[k] == urls[k];
      UnparsableUrlAbortsRun(web, p, k);
    }
  }

  /** When every URL parses, the run as written and the validated run agree. */
  lemma {:induction false} ParsableUrlsAgree(web: Web, urls: seq<string>)
    requires forall k :: 0 <= k < |urls| ==> web.parse(urls[k]).Some?
    ensures ScrapeAllAsWritten(web, urls) == Some(ScrapeAll(web, urls))
  {
    if urls != [] {
      var p := urls[..|urls| - 1];
      assert forall k :: 0 <= k < |p| ==> p[k] == urls[k];
      ParsableUrlsAgree(web, p);
    }
  }
}
