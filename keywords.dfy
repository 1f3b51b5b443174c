/** The shared keyword filter `matches_keywords(text) -> (passes, matched)`
    that the scraper imports from the configuration module.

    Its definition is not part of this model, so every component takes the
    filter as a parameter of type `Matcher`. `Gate` is one concrete filter
    with exactly the behaviour its callers document: a region keyword must
    occur, and at least one primary or secondary keyword must occur. Matching
    is substring containment of lower-cased keywords in the lower-cased text;
    lower-casing (`str.lower`, which is Unicode-aware) is a parameter too. */
module Keywords {
  import opened Base
  import opened Text

  datatype KeywordMatch = KeywordMatch(passes: bool, matched: seq<string>)

  type Matcher = string -> KeywordMatch

  /** Lower-casing of a whole string, as `str.lower()` does it. */
  type Lower = string -> string

  /** `keyword.lower() in lowered` */
  predicate Hit(lower: Lower, lowered: string, keyword: string) {
    Contains(lowered, lower(keyword))
  }

  /** The keywords of `keywords` that occur in `lowered`, in list order. */
  function Hits(lower: Lower, lowered: string, keywords: seq<string>): seq<string> {
    Filter(k => Hit(lower, lowered, k), keywords)
  }

  /** The hits are exactly the keywords of the list that occur. */
  lemma HitsMembers(lower: Lower, lowered: string, keywords: seq<string>)
    ensures forall k :: k in Hits(lower, lowered, keywords) <==> k in keywords && Hit(lower, lowered, k)
  {
    FilterMembers(k => Hit(lower, lowered, k), keywords);
  }

  /** One more keyword is reported at the end exactly when it occurs. */
  lemma HitsStep(lower: Lower, lowered: string, keywords: seq<string>, i: nat)
    requires i < |keywords|
    ensures Hits(lower, lowered, keywords[..i + 1])
            == Hits(lower, lowered, keywords[..i]) + (if Hit(lower, lowered, keywords[i]) then [keywords[i]] else [])
  {
    FilterStep(k => Hit(lower, lowered, k), keywords, i);
  }

  /** Some keyword of the list occurs exactly when the hits are not empty. */
  lemma HitsNonEmpty(lower: Lower, lowered: string, keywords: seq<string>)
    ensures Hits(lower, lowered, keywords) != []
            <==> exists k :: 0 <= k < |keywords| && Hit(lower, lowered, keywords[k])
  {
    var hits := Hits(lower, lowered, keywords);
    HitsMembers(lower, lowered, keywords);
    if hits != [] {
      assert hits[0] in hits;
      var k :| 0 <= k < |keywords| && keywords[k] == hits[0];
    }
    if exists k :: 0 <= k < |keywords| && Hit(lower, lowered, keywords[k]) {
      var k :| 0 <= k < |keywords| && Hit(lower, lowered, keywords[k]);
      assert keywords[k] in hits;
    }
  }

  /** The region-gated filter: fails with no keywords unless some region
      keyword occurs and some primary or secondary keyword occurs; when it
      passes it reports every keyword that occurs. */
  function Gate(region: seq<string>, primary: seq<string>, secondary: seq<string>,
                lower: Lower, text: string): (m: KeywordMatch)
    ensures m.passes <==>
              (exists k :: k in region && Hit(lower, lower(text), k))
              && (exists k :: (k in primary || k in secondary) && Hit(lower, lower(text), k))
    ensures !m.passes ==> m.matched == []
    ensures m.passes ==> forall k :: k in m.matched <==>
              (k in region || k in primary || k in secondary) && Hit(lower, lower(text), k)
  {
    var lowered := lower(text);
    HitsMembers(lower, lowered, region);
    HitsMembers(lower, lowered, primary);
    HitsMembers(lower, lowered, secondary);
    var regionHits := Hits(lower, lowered, region);
    if regionHits == [] then KeywordMatch(false, [])
    else
      var primaryHits := Hits(lower, lowered, primary);
      var secondaryHits := Hits(lower, lowered, secondary);
      if primaryHits == [] && secondaryHits == [] then KeywordMatch(false, [])
      else
        assert regionHits[0] in regionHits;
        assert primaryHits != [] ==> primaryHits[0] in primaryHits;
        assert secondaryHits != [] ==> secondaryHits[0] in secondaryHits;
        KeywordMatch(true, primaryHits + secondaryHits + regionHits)
  }

  /** The filter `Gate` builds for fixed keyword lists. */
  function GateMatcher(region: seq<string>, primary: seq<string>, secondary: seq<string>,
                       lower: Lower): Matcher
  {
    text => Gate(region, primary, secondary, lower, text)
  }

  /** Primary keywords alone never pass the region gate. */
  lemma NoRegionNoPass(region: seq<string>, primary: seq<string>, secondary: seq<string>,
                       lower: Lower, text: string)
    requires forall k :: k in region ==> !Hit(lower, lower(text), k)
    ensures Gate(region, primary, secondary, lower, text) == KeywordMatch(false, [])
  {
  }

  /** A region keyword together with a primary keyword passes, and both are
      reported. */
  lemma RegionAndPrimaryPass(region: seq<string>, primary: seq<string>, secondary: seq<string>,
                             lower: Lower, text: string, r: string, p: string)
    requires r in region && Hit(lower, lower(text), r)
    requires p in primary && Hit(lower, lower(text), p)
    ensures Gate(region, primary, secondary, lower, text).passes
    ensures r in Gate(region, primary, secondary, lower, text).matched
    ensures p in Gate(region, primary, secondary, lower, text).matched
  {
  }
}
