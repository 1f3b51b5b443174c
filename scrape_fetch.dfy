/** The scraper's fetch step (`WebScraperTool._fetch_page`): turning the
    outcome of one HTTP GET into either the page's HTML or a skip reason.

    The request itself is not modelled; its outcome is given as a
    `RawFetch`: the `requests` exception it raised, or the response's status
    code, `Content-Type` header and decoded body. */
module ScrapeFetch {
  import opened Base
  import opened Text
  import opened Pattern

  const RequestTimeout: nat := 15
  /** Only this many leading characters of a body are searched for CAPTCHAs. */
  const CaptchaWindow: nat := 5000

  const AuthStatusCodes: set<nat> := {401, 403, 407}
  const ChallengeStatusCodes: set<nat> := {429, 503}

  /** The exceptions `requests.get` raises, by class. In the `requests`
      hierarchy `SSLError`, `ProxyError` and `ConnectTimeout` are kinds of
      `ConnectionError`, and `ConnectTimeout` and `ReadTimeout` are kinds of
      `Timeout`; `OtherRequestException` stands for every other
      `RequestException` (invalid URL, missing schema, chunked encoding,
      ...) with its message. */
  datatype RequestFailure =
    | SSLError
    | ProxyError
    | ConnectTimeout
    | ConnectionError
    | ReadTimeout
    | Timeout
    | TooManyRedirects
    | OtherRequestException(message: string)

  predicate IsConnectionError(e: RequestFailure) {
    e.SSLError? || e.ProxyError? || e.ConnectTimeout? || e.ConnectionError?
  }

  predicate IsTimeout(e: RequestFailure) {
    e.ConnectTimeout? || e.ReadTimeout? || e.Timeout?
  }

  datatype Response = Response(status: nat, contentType: Option<string>, text: string)

  datatype RawFetch = Raised(failure: RequestFailure) | Responded(response: Response)

  /** Why a page was skipped; `Describe` gives the text the tool reports. */
  datatype SkipReason =
    | InvalidUrl
    | SslCertificate
    | ConnectionFailed
    | TimedOut
    | RedirectLoop
    | RequestFailed(message: string)
    | AccessDenied(code: nat)
    | RateLimited(code: nat)
    | HttpStatus(code: nat)
    | NonHtml(contentType: string)
    | Captcha

  function Describe(r: SkipReason): (text: string)
    ensures text != []
  {
    match r
    case InvalidUrl => "Invalid URL format"
    case SslCertificate => "SSL certificate error"
    case ConnectionFailed => "Connection error (DNS or network failure)"
    case TimedOut => "Request timed out after " + NatToString(RequestTimeout) + "s"
    case RedirectLoop => "Too many redirects"
    case RequestFailed(message) => "Request error: " + message
    case AccessDenied(code) => "HTTP " + NatToString(code) + " \U{2014} authentication or access denied"
    case RateLimited(code) => "HTTP " + NatToString(code) + " \U{2014} rate-limited or anti-bot challenge"
    case HttpStatus(code) => "HTTP " + NatToString(code)
    case NonHtml(contentType) => "Non-HTML content type: " + contentType
    case Captcha => "Page contains a CAPTCHA or anti-bot challenge"
  }

  /** A reason that comes from a status code names that code first. */
  lemma StatusReasonsNameTheCode(r: SkipReason)
    requires r.AccessDenied? || r.RateLimited? || r.HttpStatus?
    ensures StartsWith(Describe(r), "HTTP " + NatToString(r.code))
  {
    var head := "HTTP " + NatToString(r.code);
    assert Describe(r)[..|head|] == head;
  }

  /** The `except` clauses in source order: the first whose class the
      exception belongs to decides the reason. */
  function FailureReason(e: RequestFailure): (r: SkipReason)
    ensures IsConnectionError(e) && !e.SSLError? ==> r == ConnectionFailed
    ensures IsTimeout(e) && !IsConnectionError(e) ==> r == TimedOut
  {
    if e.SSLError? then SslCertificate
    else if IsConnectionError(e) then ConnectionFailed
    else if IsTimeout(e) then TimedOut
    else if e.TooManyRedirects? then RedirectLoop
    else RequestFailed(e.message)
  }

  /** A connect timeout is both a connection error and a timeout; the
      connection-error clause comes first, so it is reported as one. */
  lemma ConnectTimeoutIsConnectionError()
    ensures IsTimeout(ConnectTimeout)
    ensures Describe(FailureReason(ConnectTimeout)) == "Connection error (DNS or network failure)"
  {
  }

  /** `requests`' `Response.ok`: no client (4xx) or server (5xx) error. */
  predicate Ok(status: nat) {
    !(400 <= status < 600)
  }

  predicate IsHtmlContentType(contentType: string) {
    Contains(contentType, "text/html") || Contains(contentType, "application/xhtml")
  }

  // ---------------------------------------------------------------------
  // The CAPTCHA pattern: a regular expression searched case-insensitively
  // ---------------------------------------------------------------------

  /** The alternatives of the scraper's anti-bot pattern. */
  const CaptchaPatterns: seq<seq<Atom>> := [
    Word("captcha"),
    Word("recaptcha"),
    Word("hcaptcha"),
    Word("cf") + [OptionalOneOf("-_")] + Word("challenge"),
    Dotted(["verify", "you", "are", "human"]),
    Dotted(["are", "you", "a", "robot"]),
    Dotted(["access", "denied"]),
    Dotted(["please", "enable", "javascript"])
  ]

  /** `pattern.search(text)` finds something. */
  predicate CaptchaIn(fold: Fold, text: string) {
    exists i: nat, k: nat | i <= |text| && k < |CaptchaPatterns| :: MatchesFrom(fold, text, i, CaptchaPatterns[k])
  }

  /** The word "captcha" anywhere in the text is detected. */
  lemma CaptchaWordDetected(fold: Fold, text: string, i: nat)
    requires OccursAt(text, "captcha", i)
    ensures CaptchaIn(fold, text)
  {
    WordMatches(fold, text, i, "captcha", []);
    assert Word("captcha") + [] == CaptchaPatterns[0];
  }

  lemma VerifyHumanJoin()
    ensures Join(" ", ["verify", "you", "are", "human"]) == "verify you are human"
  {
    var words := ["verify", "you", "are", "human"];
    assert words[..2] == ["verify", "you"] && words[..2][..1] == ["verify"];
    assert words[..3] == ["verify", "you", "are"] && words[..3][..2] == ["verify", "you"];
    assert Join(" ", words[..2]) == "verify" + " " + "you";
    assert Join(" ", words[..3]) == "verify you" + " " + "are";
    assert Join(" ", words) == "verify you are" + " " + "human";
  }

  /** "verify you are human" anywhere in the text is detected. */
  lemma VerifyHumanDetected(fold: Fold, text: string, i: nat)
    requires OccursAt(text, "verify you are human", i)
    ensures CaptchaIn(fold, text)
  {
    var words := ["verify", "you", "are", "human"];
    VerifyHumanJoin();
    DottedMatches(fold, text, i, words, []);
    assert Dotted(words) + [] == CaptchaPatterns[4];
    assert MatchesFrom(fold, text, i, CaptchaPatterns[4]);
  }

  // ---------------------------------------------------------------------
  // The decision chain
  // ---------------------------------------------------------------------

  /** The part of a body that is searched for CAPTCHAs (`html[:5000]`). */
  function Window(html: string): string {
    Prefix(html, CaptchaWindow)
  }

  datatype FetchOutcome = Html(html: string) | Skip(reason: SkipReason)

  /** The checks on a response, in source order. */
  function ClassifyResponse(fold: Fold, resp: Response): (r: FetchOutcome)
    ensures r.Html? <==>
              Ok(resp.status) && IsHtmlContentType(resp.contentType.GetOr(""))
              && !CaptchaIn(fold, Window(resp.text))
    ensures r.Html? ==> r.html == resp.text
    ensures resp.status in AuthStatusCodes ==> r == Skip(AccessDenied(resp.status))
    ensures resp.status in ChallengeStatusCodes ==> r == Skip(RateLimited(resp.status))
    ensures !Ok(resp.status) && resp.status !in AuthStatusCodes && resp.status !in ChallengeStatusCodes
            ==> r == Skip(HttpStatus(resp.status))
    ensures Ok(resp.status) && !IsHtmlContentType(resp.contentType.GetOr(""))
            ==> r == Skip(NonHtml(resp.contentType.GetOr("")))
  {
    var contentType := resp.contentType.GetOr("");
    if resp.status in AuthStatusCodes then Skip(AccessDenied(resp.status))
    else if resp.status in ChallengeStatusCodes then Skip(RateLimited(resp.status))
    else if !Ok(resp.status) then Skip(HttpStatus(resp.status))
    else if !IsHtmlContentType(contentType) then Skip(NonHtml(contentType))
    else if CaptchaIn(fold, Window(resp.text)) then Skip(Captcha)
    else Html(resp.text)
  }

  /** `_fetch_page`: the HTML of the page, or why it is skipped. */
  function FetchPage(fold: Fold, raw: RawFetch): (r: FetchOutcome)
    ensures raw.Raised? ==> r == Skip(FailureReason(raw.failure))
  {
    match raw
    case Raised(e) => Skip(FailureReason(e))
    case Responded(resp) => ClassifyResponse(fold, resp)
  }

  /** Text beyond the first 5000 characters never changes the outcome's kind. */
  lemma OnlyWindowInspected(fold: Fold, status: nat, contentType: Option<string>, a: string, b: string)
    requires Window(a) == Window(b)
    ensures ClassifyResponse(fold, Response(status, contentType, a)).Html?
            == ClassifyResponse(fold, Response(status, contentType, b)).Html?
    ensures ClassifyResponse(fold, Response(status, contentType, a)).Skip?
            ==> ClassifyResponse(fold, Response(status, contentType, a))
                == ClassifyResponse(fold, Response(status, contentType, b))
  {
  }

  lemma Status403Text()
    ensures NatToString(403) == "403"
  {
    assert NatToString(4) == [DigitChar(4)] == "4";
    assert NatToString(40) == NatToString(4) + [DigitChar(0)] == "40";
    assert NatToString(403) == NatToString(40) + [DigitChar(3)];
  }

  /** A 403 is reported as an authentication or access problem. */
  lemma ForbiddenIsAccessDenied(fold: Fold, contentType: Option<string>, text: string)
    ensures FetchPage(fold, Responded(Response(403, contentType, text)))
            == Skip(AccessDenied(403))
  {
    assert 403 in AuthStatusCodes;
  }

  /** The text reported for a 403 begins `HTTP 403`. */
  lemma AccessDeniedNames403()
    ensures StartsWith(Describe(AccessDenied(403)), "HTTP 403")
  {
    StatusReasonsNameTheCode(AccessDenied(403));
    Status403Text();
    assert "HTTP " + NatToString(403) == "HTTP 403";
  }

  /** An HTML page with status 200 whose first 5000 characters ask the
      visitor to verify they are human is skipped as a CAPTCHA page. */
  lemma HumanCheckPageSkipped(fold: Fold, contentType: string, text: string, i: nat)
    requires Contains(contentType, "text/html")
    requires i + |"verify you are human"| <= CaptchaWindow
    requires OccursAt(text, "verify you are human", i)
    ensures FetchPage(fold, Responded(Response(200, Some(contentType), text))) == Skip(Captcha)
  {
    var w := Window(text);
    assert w[i..i + 20] == text[i..i + 20];
    VerifyHumanDetected(fold, w, i);
  }
}
