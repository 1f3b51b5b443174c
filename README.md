# ContentMonitor core in Dafny

ContentMonitor collects news items about piracy and audiovisual rights from
three sources and de-duplicates them before summarising:

- RSS feeds, read by the feed reader tool;
- Google searches;
- web pages, mined for link entries by the scraper tool.

This project models the deterministic code between the network fetches and
the CSV output. It also models the older stand-alone strict RSS filter. It
proves what that code promises about its results.

The model is organised by the program's own structure:

- `ScrapeFetch`, `Pattern`, `ScrapeExtract` and `Scraper` model
  `tools/web_scraper.py`:
  - URL validation;
  - the decision chain that turns one HTTP outcome into a page or a skip
    reason, including the case-insensitive anti-bot pattern over the first
    5000 characters;
  - entry extraction from a page's anchors, de-duplicated by resolved URL,
    with a 15-character minimum and a 200-entry cap;
  - keyword filtering with 500-character truncation;
  - the per-URL `results` / `skipped` aggregation of `execute`.
- `Feeds` and `FeedReader` model `tools/feed_reader.py`:
  - URL validation;
  - the published-then-updated date lookup;
  - per-feed parsing that drops non-200 and empty feeds;
  - `execute` over the valid URLs.
- `LegacyRss` models `BuscadorRSS_filtrado.py`:
  - the exclusion predicate;
  - the primary-keyword-required predicate;
  - per-feed strict filtering.
- `Monitor` models `content_monitor.py`:
  - normalisation of the three tools' outputs into rows;
  - their fixed order (feeds, Google, scrape);
  - first-occurrence-wins de-duplication by URL, which never merges rows
    without a URL.
- `Keywords`, `Urls`, `Text`, `Base` and `Config` hold shared pieces:
  - the keyword filter's type and a reference filter;
  - the validators;
  - string helpers;
  - sequence helpers;
  - the configured defaults.

Loops in the source are methods with loops here. Each method is proved
equal to a function that specifies it, and the promised properties are proved
as lemmas about that function. Everything outside the process is a
parameter of function type:

- URL parsing (`urlparse`) and resolution (`urljoin`);
- the HTTP GET;
- HTML parsing: a page is its list of anchors;
- `feedparser.parse`;
- the Google search tool's answer per query;
- `str.lower`;
- the regular expression's case folding;
- the shared filter `matches_keywords`.

## Model

| member | source | states |
|---|---|---|
| Urls.HttpUrlsAreFeedUrls | tools/web_scraper.py:105-112 | a URL the scraper accepts (scheme `http`/`https` and a host) is also accepted by the feed readers' check |
| Urls.HasSchemeAndHost | tools/feed_reader.py:61-68 | a URL that `urlparse` rejects is refused instead of raising; a parsed URL is accepted exactly when its scheme and its host are both non-empty, whatever the scheme |
| LegacyRss.ValidateUrl | BuscadorRSS_filtrado.py:175-181 | the legacy `validate_url` accepts exactly the URLs the feed reader's `_validate_url` accepts |
| Urls.IsHttpUrl | tools/web_scraper.py:105-112 | the scraper accepts exactly the URLs the feed readers accept whose scheme is `http` or `https` |
| Urls.FeedUrlsNeedNotBeHttp | tools/feed_reader.py:61-68 | for every parsed URL with a host and a non-empty scheme other than `http`/`https` (`ftp`, `file`, ...), the feed readers' check passes and the scraper's fails |
| Keywords.HitsMembers | BuscadorRSS_filtrado.py:243-246 | the keywords collected are exactly the listed keywords whose lower-cased form is a substring of the lower-cased text |
| Keywords.HitsStep | BuscadorRSS_filtrado.py:243-246 | one more keyword is appended to the collected list exactly when it occurs, so the list keeps list order |
| Keywords.HitsNonEmpty | BuscadorRSS_filtrado.py:240-249 | the collected list is non-empty exactly when some keyword of the list occurs (the `primary_found` flag) |
| Keywords.Gate | tools/web_scraper.py:224-225 | the reference filter passes exactly when some region keyword occurs and some primary or secondary keyword occurs; a failing filter reports nothing; a passing one reports exactly the keywords that occur |
| Keywords.NoRegionNoPass | tools/web_scraper.py:224-225 | without any region keyword in the text the filter fails, whatever else occurs |
| Keywords.RegionAndPrimaryPass | tools/web_scraper.py:224-225 | a region keyword plus a primary keyword in the text make the filter pass |
| ScrapeFetch.Describe | tools/web_scraper.py:125-159 | every skip reason's text is non-empty, so `if skip_reason:` always takes the skip branch |
| ScrapeFetch.StatusReasonsNameTheCode | tools/web_scraper.py:136-148 | every status-based reason text starts with `HTTP ` followed by the decimal status code |
| ScrapeFetch.FailureReason | tools/web_scraper.py:125-134 | the `except` clauses are tried in order: every connection error other than an SSL error is reported as a connection error, and every timeout that is not a connection error as "timed out" |
| ScrapeFetch.ConnectTimeoutIsConnectionError | tools/web_scraper.py:125-130 | a connect timeout, which is also a timeout, is reported with the connection-error text because that clause comes first |
| Pattern.WordMatches | tools/web_scraper.py:42-47 | a literal word of the pattern matches at a position exactly when the text has that word there, then the rest of the pattern goes on after it |
| Pattern.DottedMatches | tools/web_scraper.py:42-47 | a dotted alternative such as `verify.you.are.human` matches where the text has the words separated by single spaces (`.` consumes the space) |
| ScrapeFetch.CaptchaWordDetected | tools/web_scraper.py:42-47 | the word `captcha` anywhere in the searched text is detected |
| ScrapeFetch.VerifyHumanDetected | tools/web_scraper.py:42-47 | the phrase `verify you are human` anywhere in the searched text is detected |
| ScrapeFetch.ClassifyResponse | tools/web_scraper.py:136-161 | the checks run in source order: 401/403/407 give access denied, then 429/503 give rate-limited, then any other status that is not ok gives the bare status, then a non-HTML content type is rejected; the page's HTML is returned exactly when the status is ok, the content type is HTML and the pattern does not match within the first 5000 characters |
| ScrapeFetch.FetchPage | tools/web_scraper.py:114-161 | a request that raised is skipped with its exception's reason and never reaches the status checks |
| ScrapeFetch.OnlyWindowInspected | tools/web_scraper.py:155-159 | two bodies that agree on their first 5000 characters get the same verdict: text beyond character 5000 is never inspected |
| ScrapeFetch.ForbiddenIsAccessDenied | tools/web_scraper.py:136-138 | a 403 is skipped as access denied, whatever its content type and body |
| ScrapeFetch.AccessDeniedNames403 | tools/web_scraper.py:136-138 | the reported text for a 403 begins `HTTP 403` |
| ScrapeFetch.HumanCheckPageSkipped | tools/web_scraper.py:150-161 | a 200 HTML page whose first 5000 characters contain `verify you are human` is skipped as a CAPTCHA page |
| ScrapeExtract.ExtractEntries | tools/web_scraper.py:172-215 | the extraction loop, with its seen-URL set, its short-text skip and its early exit at the cap, returns `Extract`, the entries of the scan `Scan` over the anchors |
| ScrapeExtract.CapIsFinal | tools/web_scraper.py:212-213 | once 200 entries are collected, the remaining anchors change nothing |
| ScrapeExtract.StepEffect | tools/web_scraper.py:183-210 | one anchor either changes nothing, or marks its new resolved URL seen and possibly appends exactly its candidate entry |
| ScrapeExtract.ScanBounded | tools/web_scraper.py:206-213 | at most 200 entries, and every entry's text has at least 15 characters |
| ScrapeExtract.ScanSeenFromAnchors | tools/web_scraper.py:183-193 | every URL marked seen is the resolution of some followable anchor of the page |
| ScrapeExtract.ScanDistinct | tools/web_scraper.py:190-193 | the entries' resolved URLs are pairwise distinct, and each is marked seen |
| ScrapeExtract.ScanInDocumentOrder | tools/web_scraper.py:183-213 | the entries are a subsequence, in document order, of the candidate entries of the followable anchors |
| ScrapeExtract.UnusableAnchorsIgnored | tools/web_scraper.py:184-186 | anchors whose stripped `href` is empty or starts with `#`, `javascript:` or `mailto:` can be removed without changing the result |
| ScrapeExtract.EligibleExtracted | tools/web_scraper.py:183-213 | the first followable anchor of a URL whose context text has at least 15 characters, reached while fewer than 200 entries exist, yields its entry |
| ScrapeExtract.ScanEntriesGrow | tools/web_scraper.py:210 | entries are only ever appended: the entries after a prefix of the anchors are a prefix of the entries after a longer one |
| ScrapeExtract.HiddenAfter | tools/web_scraper.py:190-208 | after the first anchor of a URL has too little text, that URL stays seen (or the cap is reached) and no entry for it appears in any longer prefix of the anchors |
| ScrapeExtract.ShortFirstAnchorHidesUrl | tools/web_scraper.py:190-208 | a URL whose first followable anchor has fewer than 15 characters of context text never yields an entry, even when a later anchor to it has enough text |
| Scraper.FilterEntries | tools/web_scraper.py:221-240 | the filtering loop returns `Filtered`, the passing entries converted to kept items |
| Scraper.FilteredIsMapOfPassing | tools/web_scraper.py:227-238 | the kept items are exactly the passing entries, in their order, each converted the same way |
| Scraper.KeptItemsComeFromPassingEntries | tools/web_scraper.py:229-237 | each kept item comes from a passing entry: same URL, text truncated to min(500, length), the filter's matched keywords, the page as source |
| Scraper.GateKeptItemsNameRegion | tools/web_scraper.py:224-235 | with the region-gated filter, every kept item reports at least one keyword, among them a region keyword that occurs in its text |
| Scraper.Execute | tools/web_scraper.py:246-280 | the loop over the URLs (the defaults when the argument is missing or empty) produces `ScrapeAll`'s report: validation first, then fetch, then extraction and filtering |
| Scraper.ScrapeAllPerUrl | tools/web_scraper.py:249-280 | `results` is the concatenation of each URL's own kept entries in input order; `skipped` holds one record per skipped URL in input order |
| Scraper.EveryUrlSkippedOrFetched | tools/web_scraper.py:261-275 | the skipped records' URLs are exactly the input URLs that are skipped, in order; skipped plus fetched URLs account for every input URL |
| Scraper.ScrapeAllAppend | tools/web_scraper.py:253-280 | URLs are processed independently: scraping two lists in turn gives the two reports joined |
| Scraper.ForbiddenPageSkipped | tools/web_scraper.py:262-275 | a valid URL answering 403 yields one skipped record (access denied) and no results |
| Scraper.UnparsableUrlAbortsRun | tools/web_scraper.py:253-264 | as written, one URL that `urlparse` rejects aborts the whole run, whereas the validated run records it as an invalid URL and goes on |
| Scraper.ParsableUrlsAgree | tools/web_scraper.py:253-264 | when every URL parses, the run as written and the validated run give the same report |
| Feeds.FormatDate | tools/feed_reader.py:84 | the formatted date has exactly ten characters |
| Feeds.FormatDateRoundTrip | tools/feed_reader.py:84 | the `YYYY-MM-DD` text of a valid date reads back as its year, month and day |
| Feeds.PublishedPreferred | tools/feed_reader.py:83-84 | a valid published time gives the date, whatever the updated time is |
| Feeds.UpdatedAsFallback | tools/feed_reader.py:85-86 | with no published time, a valid updated time gives the date |
| Feeds.InvalidPublishedHidesUpdated | tools/feed_reader.py:82-89 | a published time that is not a valid date gives `""`, even when a valid updated time exists |
| Feeds.ExtractDate | tools/feed_reader.py:80-89 | the date is `""` or the well-formed `YYYY-MM-DD` text of a real day, read back as that day |
| LegacyRss.PublicationDate | BuscadorRSS_filtrado.py:307-322 | the legacy script's published-else-updated date block gives the same date as the feed reader's `_extract_date` on every entry |
| FeedReader.ParseFeed | tools/feed_reader.py:91-120 | the parsing loop returns `FeedArticles` for the fetched feed |
| FeedReader.BadStatusYieldsNothing | tools/feed_reader.py:97-98 | a feed with a status other than 200 yields no articles |
| FeedReader.OneArticlePerReadableEntry | tools/feed_reader.py:103-117 | otherwise there is one article per readable entry, in feed order, with the feed as source and a missing title or summary read as `""` |
| FeedReader.ArticleNamesItsFeed | tools/feed_reader.py:113 | every article of a feed names that feed as its source |
| FeedReader.Execute | tools/feed_reader.py:126-135 | the feeds (`RSS_FEEDS` when the argument is missing or empty) are validated and read in turn; the result is the concatenation of the per-feed articles over the valid URLs |
| FeedReader.ReadFeedsAppend | tools/feed_reader.py:132-133 | feed lists are read independently: two lists in turn give the two results joined |
| FeedReader.ArticlesComeFromValidFeeds | tools/feed_reader.py:129-133 | every article comes from a requested URL that passes validation and names it as its source |
| FeedReader.InvalidUrlIgnored | tools/feed_reader.py:129 | an invalid URL is dropped silently and contributes no articles |
| LegacyRss.ContainsExclusionKeywords | BuscadorRSS_filtrado.py:214-225 | false on empty content; otherwise true exactly when some lower-cased exclusion word is a substring of the lower-cased content |
| LegacyRss.SearchInContentStrict | BuscadorRSS_filtrado.py:228-272 | true exactly when the content is non-empty, no exclusion word occurs and some primary keyword occurs; the secondary keywords never change the answer |
| LegacyRss.ExclusionVetoes | BuscadorRSS_filtrado.py:235-237 | an exclusion word rejects the content however many primary keywords occur |
| LegacyRss.PrimarySubstringSuffices | BuscadorRSS_filtrado.py:243-249 | a primary keyword occurring anywhere, even inside a longer word, makes clean content relevant |
| LegacyRss.ProcessRssFeed | BuscadorRSS_filtrado.py:275-342 | the entry loop returns `RelevantArticles`: none for a non-200 or empty feed, otherwise the readable entries whose stripped `title summary` passes the strict filter, in feed order |
| LegacyRss.StrictReaderFiltersFeedReader | BuscadorRSS_filtrado.py:295-331 | the strict reader reports exactly the feed reader's articles for the same feed whose title and summary pass the strict filter, in the same order |
| LegacyRss.EntriesFiltered | BuscadorRSS_filtrado.py:295-337 | the same over any entry list, with an unreadable entry skipped alone |
| Text.StripIsTrimmedSlice | BuscadorRSS_filtrado.py:300 | `.strip()` returns a slice of its input whose first and last characters are not whitespace, with only whitespace removed |
| Text.Prefix | tools/web_scraper.py:234 | `s[:n]` has length min(n, len(s)) and is a prefix of `s` |
| Text.JoinShowsEveryItem | content_monitor.py:108-110 | every item of a list joined with a separator occurs in the joined text |
| Text.NatToStringRoundTrip | tools/web_scraper.py:148 | the decimal text of a status code reads back as that code |
| Text.FixedDigitsRoundTrip | tools/feed_reader.py:84 | a zero-padded fixed-width field reads back as its number when the number fits |
| Monitor.KeywordsColumnShowsKeywords | content_monitor.py:108-110 | an item without keywords gets an empty column; otherwise every keyword occurs in the column |
| Monitor.CollectFeeds | content_monitor.py:90-119 | one row per article, in order, with the article's fields, an empty keyword column and the tool `read_feeds` |
| Monitor.CollectGoogle | content_monitor.py:122-159 | the nested query and item loops return the rows of every query's items, query after query |
| Monitor.GoogleRowsAppend | content_monitor.py:131-153 | queries are independent: two keyword lists in turn give the two row lists joined |
| Monitor.FailedQueryOnlySkipsItself | content_monitor.py:133-139 | a query answered with an error contributes no rows and does not stop the queries after it |
| Monitor.GoogleRowsShape | content_monitor.py:140-153 | every Google row has no date, the source `Google Search` and the tool `google_search`, and comes from an item of a successful query |
| Monitor.CollectScrapes | content_monitor.py:162-204 | one row per kept entry, in order, with no title, the text as summary, the page as source and the tool `scrape_pages`; skipped pages add no rows |
| Monitor.Deduplicate | content_monitor.py:229-239 | the de-duplication loop returns `Dedup`'s kept rows |
| Monitor.DedupSeenIsUrls | content_monitor.py:231-237 | the seen set ends as the set of every URL looked at |
| Monitor.DedupIsFirstOccurrences | content_monitor.py:229-239 | the kept rows are exactly the first row of each non-empty URL plus every row without a URL, in input order |
| Monitor.DedupHasNoSharedUrl | content_monitor.py:233-238 | no two kept rows share a non-empty URL |
| Monitor.DedupIsSubsequence | content_monitor.py:229-239 | the kept rows are an order-preserving subsequence of the input and never longer, so the duplicate count is never negative |
| Monitor.DedupKeepsRowsWithoutUrl | content_monitor.py:234-235 | every row with an empty URL is kept, in order |
| Monitor.DedupKeepsEveryUrl | content_monitor.py:233-238 | every URL of the input is still represented in the output |
| Monitor.DedupKeepsDistinctRows | content_monitor.py:233-238 | rows that share no non-empty URL pass unchanged |
| Monitor.DedupIdempotent | content_monitor.py:229-239 | de-duplicating twice is de-duplicating once |
| Monitor.DedupAppend | content_monitor.py:229-239 | de-duplicating two lists joined keeps the first list's result, then those of the second's kept rows whose URL is empty or absent from the first list |
| Monitor.CollisionPriority | content_monitor.py:251-257 | on a URL collision a feed row beats a Google row and a Google row beats a scraped row |
| Monitor.CollectAll | content_monitor.py:246-264 | `main`'s collection runs feeds, Google and scrape with their defaults, in that order, de-duplicates, and reports a non-negative count of removed rows |

## Left out

- Network access is not modelled: `requests.get`, `feedparser.parse` and the Google API client are inputs. The model keeps the outcomes that matter: the exception class, or the status, `Content-Type` and body; the optional status and entry list of a parsed feed; a list of items or an error per query.
- HTML parsing is not modelled. BeautifulSoup, `stripped_strings` and the container-ancestor walk are replaced by a page's list of anchors, each with its `href`, the visible text of its nearest container (`None` when it has none) and its own visible text.
- URL libraries are not modelled: `urlparse` and `urljoin` are parameters.
- `str.lower` and the regular expression's `IGNORECASE` folding are not modelled: they can change string length under Unicode, so both are parameters.
- The regular-expression engine is not modelled; only the fragment the anti-bot pattern uses (literals, `.`, `[-_]?`) is given a matcher.
- ScrapeFetch.CaptchaWordDetected and ScrapeFetch.VerifyHumanDetected show detection for two of the eight alternatives only. The other six go through the same `MatchesFrom` definition that `ClassifyResponse` uses.
- Feeds.FormatDate pads the year to four digits. On some older Python builds on glibc, `%Y` does not zero-pad years before 1000.
- Exceptions other than the `requests` family during a fetch are not modelled: in the source they would propagate out of `execute`.
- A `link` attribute that is present but `None` is not modelled; a missing link reads as `""`.
- `matches_keywords` and `SCRAPE_URLS` are parameters: the `config.py` does not define them; `tools/web_scraper.py:22` imports both. `Keywords.Gate` is a reference filter that follows the tool's description. The order of its matched keywords is not part of any claim.
- The legacy script's module-level exclusion list and the keyword lists are parameters.
- `specialized_feeds` in `search_in_content_strict` is unused by the code and has no effect; it is not modelled.
- The JSON dump/load between each tool and the orchestrator is modelled as the identity on typed values.
- Progress printing, logging, CSV writing and reading, and `time.sleep` are not modelled, and neither is pandas.
- The credential checks in `config.py` are not modelled.
- `_is_feed_accessible` and `test_feed_accessibility` are not modelled: nothing in the modelled code calls them.
- The legacy `google_search` helper and the script's `main` are not modelled.
- `_build_summary_instructions` and the summarising agent (`agent.py`) are not modelled: they only format prompts and call a language model.
- `tools/google_search.py` is not part of this model. Only its list-or-error answer shape is kept.
- The feed reader applies no keyword filter and emits no `matched_keywords`; the model follows that code. Its feed rows therefore always carry an empty keyword column.

## Findings

| source | as written | input that shows it | evidently intended | confidence | as-written member | corrected member |
|---|---|---|---|---|---|---|
| tools/web_scraper.py:254 | the progress line calls `urlparse(url).netloc` for every URL before `_validate_url`, outside any `try`, so a URL that `urlparse` rejects raises out of `execute` and the whole run fails | `urls=["http://["]` (`urlparse` raises `ValueError: Invalid IPv6 URL`) | the URL is reported in `skipped` as "Invalid URL format" and the remaining URLs are still scraped, as the `try` in `_validate_url` intends | high (not executed) | Scraper.UnparsableUrlAbortsRun | Scraper.Execute |
