/** URL validation as the three components do it on top of `urlparse`.

    `urlparse` itself is not part of this model: a `UrlParser` gives, for a
    URL string, its scheme and network location, or `None` when parsing
    raised (the validators then answer `False`). */
module Urls {
  import opened Base

  datatype UrlParts = UrlParts(scheme: string, netloc: string)

  type UrlParser = string -> Option<UrlParts>

  /** The feed readers' check (`_validate_url` in `tools/feed_reader.py`,
      `validate_url` in the legacy script): a URL that `urlparse` rejects is
      refused rather than raising, and a parsed one is accepted exactly when
      its scheme and its host are both non-empty, whatever the scheme. */
  predicate HasSchemeAndHost(parse: UrlParser, url: string): (ok: bool)
    ensures parse(url).None? ==> !ok
    ensures parse(url).Some? ==> (ok <==> parse(url).value.scheme != "" && parse(url).value.netloc != "")
  {
    match parse(url)
    case None => false
    case Some(parts) => parts.scheme != "" && parts.netloc != ""
  }

  /** The scraper's check: the feed readers' check narrowed to the schemes
      `http` and `https`. */
  predicate IsHttpUrl(parse: UrlParser, url: string): (ok: bool)
    ensures ok <==> HasSchemeAndHost(parse, url)
                    && (parse(url).value.scheme == "http" || parse(url).value.scheme == "https")
  {
    match parse(url)
    case None => false
    case Some(parts) => (parts.scheme == "http" || parts.scheme == "https") && parts.netloc != ""
  }

  /** Every URL the scraper accepts, the feed readers accept too. */
  lemma HttpUrlsAreFeedUrls(parse: UrlParser, url: string)
    requires IsHttpUrl(parse, url)
    ensures HasSchemeAndHost(parse, url)
  {
  }

  /** The converse fails: a parsed URL with any other non-empty scheme and a
      host passes the feed readers' check and fails the scraper's. */
  lemma FeedUrlsNeedNotBeHttp(parse: UrlParser, url: string)
    requires parse(url).Some?
    requires parse(url).value.scheme != "" && parse(url).value.netloc != ""
    requires parse(url).value.scheme != "http" && parse(url).value.scheme != "https"
    ensures HasSchemeAndHost(parse, url) && !IsHttpUrl(parse, url)
  {
  }
}
