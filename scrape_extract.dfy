/** The scraper's entry extraction (`WebScraperTool._extract_entries`).

    HTML parsing is not modelled: a page is the list of its `<a href>`
    elements in document order, each with its raw `href`, the visible text of
    its nearest container ancestor (`article`, `li`, `div`, `tr`, `section`,
    `h1`-`h4`; `None` when it has none) and its own visible text. Resolving a
    link against the page URL (`urljoin`) is a parameter. */
module ScrapeExtract {
  import opened Base
  import opened Text

  const MaxEntriesPerUrl: nat := 200
  const MinEntryText: nat := 15

  datatype Anchor = Anchor(href: string, container: Option<string>, ownText: string)

  datatype Entry = Entry(url: string, text: string)

  /** `urljoin(base, href)` */
  type Resolver = (string, string) -> string

  /** A stripped `href` that points to another page: not empty, not a
      fragment, not `javascript:` and not `mailto:`. */
  predicate Followable(href: string) {
    href != "" && !StartsWith(href, "#") && !StartsWith(href, "javascript:")
    && !StartsWith(href, "mailto:")
  }

  predicate Usable(a: Anchor) {
    Followable(Strip(a.href))
  }

  function Resolved(join: Resolver, base: string, a: Anchor): string {
    join(base, Strip(a.href))
  }

  /** The container's text, or the anchor's own text when there is no
      container or the container's text is empty. */
  function ContextText(a: Anchor): string {
    var t := a.container.GetOr(a.ownText);
    if t == "" then a.ownText else t
  }

  /** The entry an anchor yields if nothing filters it out. */
  function Candidate(join: Resolver, base: string, a: Anchor): Entry {
    Entry(Resolved(join, base, a), ContextText(a))
  }

  /** The loop's variables: the entries so far and the resolved URLs seen. */
  datatype ScanState = ScanState(entries: seq<Entry>, seen: set<string>)

  /** One pass of the loop body. A resolved URL is marked seen before the
      length check, so a short first anchor still hides later ones. */
  function Step(join: Resolver, base: string, st: ScanState, a: Anchor): ScanState {
    if !Usable(a) then st
    else
      var url := Resolved(join, base, a);
      if url in st.seen then st
      else
        var seen := st.seen + {url};
        var text := ContextText(a);
        if |text| < MinEntryText then ScanState(st.entries, seen)
        else ScanState(st.entries + [Entry(url, text)], seen)
  }

  /** The loop's state after the anchors of `anchors`; once the cap is
      reached nothing further is looked at. */
  function Scan(join: Resolver, base: string, anchors: seq<Anchor>): ScanState {
    if anchors == [] then ScanState([], {})
    else
      var st := Scan(join, base, anchors[..|anchors| - 1]);
      if |st.entries| >= MaxEntriesPerUrl then st
      else Step(join, base, st, anchors[|anchors| - 1])
  }

  function Extract(join: Resolver, base: string, anchors: seq<Anchor>): seq<Entry> {
    Scan(join, base, anchors).entries
  }

  /** `_extract_entries`: walks the anchors in document order, keeping a set
      of resolved URLs already seen, and stops at the cap. */
  method ExtractEntries(join: Resolver, base: string, anchors: seq<Anchor>)
    returns (entries: seq<Entry>)
    ensures entries == Extract(join, base, anchors)
  {
    entries := [];
    var seen: set<string> := {};
    var i := 0;
    while i < |anchors|
      invariant 0 <= i <= |anchors|
      invariant ScanState(entries, seen) == Scan(join, base, anchors[..i])
      invariant |entries| < MaxEntriesPerUrl
    {
      ScanOneMore(join, base, anchors, i);
      var anchor := anchors[i];
      var href := Strip(anchor.href);
      i := i + 1;
      if !Followable(href) {
        continue;
      }
      var absoluteUrl := join(base, href);
      if absoluteUrl in seen {
        continue;
      }
      seen := seen + {absoluteUrl};
      var text := ContextText(anchor);
      if |text| < MinEntryText {
        continue;
      }
      entries := entries + [Entry(absoluteUrl, text)];
      if |entries| >= MaxEntriesPerUrl {
        CapIsFinal(join, base, anchors, i);
        return;
      }
    }
    assert anchors[..i] == anchors;
  }

  lemma ScanOneMore(join: Resolver, base: string, anchors: seq<Anchor>, n: nat)
    requires n < |anchors|
    ensures var st := Scan(join, base, anchors[..n]);
            Scan(join, base, anchors[..n + 1])
            == if |st.entries| >= MaxEntriesPerUrl then st else Step(join, base, st, anchors[n])
  {
    assert anchors[..n + 1][..n] == anchors[..n];
  }

  /** Once the cap is reached, the remaining anchors change nothing. */
  lemma {:induction false} CapIsFinal(join: Resolver, base: string, anchors: seq<Anchor>, k: nat)
    requires k <= |anchors|
    requires |Scan(join, base, anchors[..k]).entries| >= MaxEntriesPerUrl
    ensures Scan(join, base, anchors) == Scan(join, base, anchors[..k])
    decreases |anchors| - k
  {
    if k == |anchors| {
      assert anchors[..k] == anchors;
    } else {
      var p := anchors[..|anchors| - 1];
      assert p[..k] == anchors[..k];
      CapIsFinal(join, base, p, k);
    }
  }

  /** What one pass of the loop body can do: nothing, or mark the anchor's
      resolved URL seen and possibly append the anchor's candidate entry. */
  lemma StepEffect(join: Resolver, base: string, st: ScanState, a: Anchor)
    ensures var st' := Step(join, base, st, a);
            || st' == st
            || (&& Usable(a) && Resolved(join, base, a) !in st.seen
                && st'.seen == st.seen + {Resolved(join, base, a)}
                && (|| st'.entries == st.entries
                    || (|ContextText(a)| >= MinEntryText
                        && st'.entries == st.entries + [Candidate(join, base, a)])))
  {
  }

  /** The last anchor's pass, in terms of the state before it. */
  lemma ScanLast(join: Resolver, base: string, anchors: seq<Anchor>)
    requires anchors != []
    ensures var st := Scan(join, base, anchors[..|anchors| - 1]);
            Scan(join, base, anchors)
            == if |st.entries| >= MaxEntriesPerUrl then st else Step(join, base, st, anchors[|anchors| - 1])
  {
  }

  /** At most 200 entries, each with at least 15 characters of text. */
  lemma {:induction false} ScanBounded(join: Resolver, base: string, anchors: seq<Anchor>)
    ensures |Extract(join, base, anchors)| <= MaxEntriesPerUrl
    ensures forall e :: e in Extract(join, base, anchors) ==> |e.text| >= MinEntryText
  {
    if anchors != [] {
      var p := anchors[..|anchors| - 1];
      ScanBounded(join, base, p);
      ScanLast(join, base, anchors);
      StepEffect(join, base, Scan(join, base, p), anchors[|anchors| - 1]);
    }
  }

  /** Every URL marked seen was resolved from a followable anchor of the page. */
  lemma {:induction false} ScanSeenFromAnchors(join: Resolver, base: string, anchors: seq<Anchor>, u: string)
    requires u in Scan(join, base, anchors).seen
    ensures exists k :: 0 <= k < |anchors| && Usable(anchors[k]) && Resolved(join, base, anchors[k]) == u
  {
    var p := anchors[..|anchors| - 1];
    var a := anchors[|anchors| - 1];
    ScanLast(join, base, anchors);
    StepEffect(join, base, Scan(join, base, p), a);
    if u in Scan(join, base, p).seen {
      ScanSeenFromAnchors(join, base, p, u);
      var k :| 0 <= k < |p| && Usable(p[k]) && Resolved(join, base, p[k]) == u;
      assert anchors[k] == p[k];
    } else {
      assert Usable(anchors[|anchors| - 1]);
    }
  }

  /** No resolved URL is extracted twice; every extracted URL is marked seen. */
  lemma {:induction false} ScanDistinct(join: Resolver, base: string, anchors: seq<Anchor>)
    ensures var st := Scan(join, base, anchors);
            && (forall e :: e in st.entries ==> e.url in st.seen)
            && (forall i, j :: 0 <= i < j < |st.entries| ==> st.entries[i].url != st.entries[j].url)
  {
    if anchors != [] {
      var p := anchors[..|anchors| - 1];
      ScanDistinct(join, base, p);
      ScanLast(join, base, anchors);
      StepEffect(join, base, Scan(join, base, p), anchors[|anchors| - 1]);
    }
  }

  /** Entries come out in document order, one per followable anchor at most:
      they form a subsequence of the candidates of the followable anchors. */
  lemma {:induction false} ScanInDocumentOrder(join: Resolver, base: string, anchors: seq<Anchor>)
    ensures SubseqOf(Extract(join, base, anchors),
                     Map(a => Candidate(join, base, a), Filter(Usable, anchors)))
  {
    if anchors != [] {
      var p := anchors[..|anchors| - 1];
      var a := anchors[|anchors| - 1];
      ScanInDocumentOrder(join, base, p);
      ScanLast(join, base, anchors);
      var st := Scan(join, base, p);
      StepEffect(join, base, st, a);
      var f := (x: Anchor) => Candidate(join, base, x);
      var before := Map(f, Filter(Usable, p));
      if Usable(a) {
        var q := Filter(Usable, anchors);
        assert q == Filter(Usable, p) + [a];
        assert q[..|q| - 1] == Filter(Usable, p);
        assert Map(f, q) == before + [f(a)];
        if Extract(join, base, anchors) == st.entries {
          SubseqExtend(st.entries, before, f(a));
        } else {
          SubseqExtendBoth(st.entries, before, f(a));
        }
      } else {
        assert Filter(Usable, anchors) == Filter(Usable, p);
      }
    }
  }

  /** Anchors whose `href` is empty, a fragment, `javascript:` or `mailto:`
      never contribute: dropping them leaves the result unchanged. */
  lemma {:induction false} UnusableAnchorsIgnored(join: Resolver, base: string, anchors: seq<Anchor>)
    ensures Scan(join, base, anchors) == Scan(join, base, Filter(Usable, anchors))
  {
    if anchors != [] {
      var p := anchors[..|anchors| - 1];
      var a := anchors[|anchors| - 1];
      UnusableAnchorsIgnored(join, base, p);
      if Usable(a) {
        var q := Filter(Usable, anchors);
        assert q == Filter(Usable, p) + [a];
        assert q[..|q| - 1] == Filter(Usable, p);
      } else {
        assert Filter(Usable, anchors) == Filter(Usable, p);
      }
    }
  }

  /** If the first followable anchor that resolves to `u` has too little
      text, no entry for `u` is produced at all, even when a later anchor
      to the same URL has enough text. */
  lemma ShortFirstAnchorHidesUrl(join: Resolver, base: string, anchors: seq<Anchor>, i: nat)
    requires i < |anchors| && Usable(anchors[i])
    requires |ContextText(anchors[i])| < MinEntryText
    requires forall j :: 0 <= j < i && Usable(anchors[j]) ==>
               Resolved(join, base, anchors[j]) != Resolved(join, base, anchors[i])
    ensures forall e :: e in Extract(join, base, anchors) ==> e.url != Resolved(join, base, anchors[i])
  {
    var u := Resolved(join, base, anchors[i]);
    HiddenAfter(join, base, anchors, i, |anchors|);
    assert anchors[..|anchors|] == anchors;
  }

  /** The keep half of the in-page de-duplication: the first followable
      anchor of a URL, with enough text and reached before the cap, yields
      its entry. */
  lemma EligibleExtracted(join: Resolver, base: string, anchors: seq<Anchor>, i: nat)
    requires i < |anchors| && Usable(anchors[i])
    requires |ContextText(anchors[i])| >= MinEntryText
    requires forall j :: 0 <= j < i && Usable(anchors[j]) ==>
               Resolved(join, base, anchors[j]) != Resolved(join, base, anchors[i])
    requires |Extract(join, base, anchors[..i])| < MaxEntriesPerUrl
    ensures Candidate(join, base, anchors[i]) in Extract(join, base, anchors)
  {
    var u := Resolved(join, base, anchors[i]);
    var p := anchors[..i];
    var st := Scan(join, base, p);
    assert u !in st.seen by {
      if u in st.seen {
        ScanSeenFromAnchors(join, base, p, u);
      }
    }
    ScanOneMore(join, base, anchors, i);
    var c := Candidate(join, base, anchors[i]);
    var mid := Scan(join, base, anchors[..i + 1]).entries;
    assert mid == st.entries + [c];
    ScanEntriesGrow(join, base, anchors, i + 1, |anchors|);
    assert anchors[..|anchors|] == anchors;
    var all := Extract(join, base, anchors);
    assert all[|mid| - 1] == mid[|mid| - 1] == c;
  }

  /** The entries after a prefix of the anchors are a prefix of the entries
      after a longer one: entries are only ever appended. */
  lemma {:induction false} ScanEntriesGrow(join: Resolver, base: string, anchors: seq<Anchor>, m: nat, n: nat)
    requires m <= n <= |anchors|
    ensures var short := Scan(join, base, anchors[..m]).entries;
            var long := Scan(join, base, anchors[..n]).entries;
            |short| <= |long| && short == long[..|short|]
    decreases n
  {
    if m < n {
      ScanEntriesGrow(join, base, anchors, m, n - 1);
      ScanOneMore(join, base, anchors, n - 1);
      var st := Scan(join, base, anchors[..n - 1]);
      StepEffect(join, base, st, anchors[n - 1]);
    }
  }

  /** `u` is hidden after the first `n` anchors: marked seen (or the cap is
      reached) and not the URL of any entry. */
  ghost predicate HiddenIn(st: ScanState, u: string) {
    (u in st.seen || |st.entries| >= MaxEntriesPerUrl) && forall e :: e in st.entries ==> e.url != u
  }

  lemma {:induction false} HiddenAfter(join: Resolver, base: string, anchors: seq<Anchor>, i: nat, n: nat)
    requires i < n <= |anchors| && Usable(anchors[i])
    requires |ContextText(anchors[i])| < MinEntryText
    requires forall j :: 0 <= j < i && Usable(anchors[j]) ==>
               Resolved(join, base, anchors[j]) != Resolved(join, base, anchors[i])
    ensures HiddenIn(Scan(join, base, anchors[..n]), Resolved(join, base, anchors[i]))
    decreases n
  {
    if n - 1 == i {
      HiddenAt(join, base, anchors, i);
    } else {
      HiddenAfter(join, base, anchors, i, n - 1);
      HiddenStays(join, base, anchors, n - 1, Resolved(join, base, anchors[i]));
    }
  }

  /** The pass over the short anchor itself hides its URL. */
  lemma HiddenAt(join: Resolver, base: string, anchors: seq<Anchor>, i: nat)
    requires i < |anchors| && Usable(anchors[i])
    requires |ContextText(anchors[i])| < MinEntryText
    requires forall j :: 0 <= j < i && Usable(anchors[j]) ==>
               Resolved(join, base, anchors[j]) != Resolved(join, base, anchors[i])
    ensures HiddenIn(Scan(join, base, anchors[..i + 1]), Resolved(join, base, anchors[i]))
  {
    var u := Resolved(join, base, anchors[i]);
    var p := anchors[..i];
    assert anchors[..i + 1][..i] == p;
    var st := Scan(join, base, p);
    ScanLast(join, base, anchors[..i + 1]);
    assert u !in st.seen by {
      if u in st.seen {
        ScanSeenFromAnchors(join, base, p, u);
      }
    }
    ScanDistinct(join, base, p);
    if |st.entries| < MaxEntriesPerUrl {
      StepShortHides(join, base, st, anchors[i]);
    }
  }

  /** A hidden URL stays hidden over one more anchor. */
  lemma HiddenStays(join: Resolver, base: string, anchors: seq<Anchor>, m: nat, u: string)
    requires m < |anchors|
    requires HiddenIn(Scan(join, base, anchors[..m]), u)
    ensures HiddenIn(Scan(join, base, anchors[..m + 1]), u)
  {
    assert anchors[..m + 1][..m] == anchors[..m];
    var st := Scan(join, base, anchors[..m]);
    ScanLast(join, base, anchors[..m + 1]);
    if |st.entries| < MaxEntriesPerUrl {
      StepKeepsHidden(join, base, st, anchors[m], u);
    }
  }

  /** A followable anchor with a new URL and too little text marks the URL
      seen and adds nothing. */
  lemma StepShortHides(join: Resolver, base: string, st: ScanState, a: Anchor)
    requires Usable(a) && Resolved(join, base, a) !in st.seen
    requires |ContextText(a)| < MinEntryText
    ensures Step(join, base, st, a) == ScanState(st.entries, st.seen + {Resolved(join, base, a)})
  {
  }

  /** Once a URL is seen, no later pass adds an entry for it. */
  lemma StepKeepsHidden(join: Resolver, base: string, st: ScanState, a: Anchor, u: string)
    requires u in st.seen
    requires forall e :: e in st.entries ==> e.url != u
    ensures u in Step(join, base, st, a).seen
    ensures forall e :: e in Step(join, base, st, a).entries ==> e.url != u
  {
    StepEffect(join, base, st, a);
  }
}
