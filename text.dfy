/** Python string operations the monitor relies on, over `seq<char>`:
    substring containment (`needle in hay`), `startswith`, `strip()`,
    `sep.join(xs)`, slicing `s[:n]`, and the decimal rendering of numbers
    used by f-strings and `strftime`. */
module Text {

  /** `needle` occurs in `hay` starting at index `i`. */
  predicate OccursAt(hay: string, needle: string, i: nat) {
    i + |needle| <= |hay| && hay[i..i + |needle|] == needle
  }

  /** Python's `needle in hay`: plain substring containment. */
  predicate Contains(hay: string, needle: string) {
    exists i: nat | i <= |hay| :: OccursAt(hay, needle, i)
  }

  lemma ContainsWitness(hay: string, needle: string, i: nat)
    requires OccursAt(hay, needle, i)
    ensures Contains(hay, needle)
  {
  }

  /** Python's `s.startswith(p)`. */
  predicate StartsWith(s: string, p: string) {
    |p| <= |s| && s[..|p|] == p
  }

  /** Python's `str.isspace()` for one character: the characters that
      `str.strip()` with no argument removes. */
  predicate IsSpace(c: char) {
    || ('\t' <= c <= '\r')
    || ('\U{1c}' <= c <= '\U{1f}')
    || c == ' ' || c == '\U{85}' || c == '\U{a0}' || c == '\U{1680}'
    || ('\U{2000}' <= c <= '\U{200a}')
    || c == '\U{2028}' || c == '\U{2029}' || c == '\U{202f}' || c == '\U{205f}' || c == '\U{3000}'
  }

  /** `s` without its longest prefix of characters satisfying `p`. */
  function DropWhile(p: char -> bool, s: string): string {
    if |s| > 0 && p(s[0]) then DropWhile(p, s[1..]) else s
  }

  /** `s` without its longest suffix of characters satisfying `p`. */
  function DropLastWhile(p: char -> bool, s: string): string {
    if |s| > 0 && p(s[|s| - 1]) then DropLastWhile(p, s[..|s| - 1]) else s
  }

  /** `DropWhile` removes exactly the leading characters satisfying `p`. */
  lemma {:induction false} DropWhileRemovesPrefix(p: char -> bool, s: string)
    ensures var r := DropWhile(p, s);
            && |r| <= |s| && r == s[|s| - |r|..]
            && (forall k :: 0 <= k < |s| - |r| ==> p(s[k]))
            && (r == [] || !p(r[0]))
  {
    if |s| > 0 && p(s[0]) {
      var t := s[1..];
      DropWhileRemovesPrefix(p, t);
      var r := DropWhile(p, s);
      assert r == DropWhile(p, t);
      forall k | 0 <= k < |s| - |r|
        ensures p(s[k])
      {
        if k > 0 {
          assert s[k] == t[k - 1];
        }
      }
    }
  }

  /** `DropLastWhile` removes exactly the trailing characters satisfying `p`. */
  lemma {:induction false} DropLastWhileRemovesSuffix(p: char -> bool, s: string)
    ensures var r := DropLastWhile(p, s);
            && |r| <= |s| && r == s[..|r|]
            && (forall k :: |r| <= k < |s| ==> p(s[k]))
            && (r == [] || !p(r[|r| - 1]))
  {
    if |s| > 0 && p(s[|s| - 1]) {
      var t := s[..|s| - 1];
      DropLastWhileRemovesSuffix(p, t);
      var r := DropLastWhile(p, s);
      assert r == DropLastWhile(p, t);
      forall k | |r| <= k < |s|
        ensures p(s[k])
      {
        if k < |t| {
          assert s[k] == t[k];
        }
      }
    }
  }

  /** `s.strip()`: leading and trailing whitespace removed. */
  function Strip(s: string): string {
    DropLastWhile(IsSpace, DropWhile(IsSpace, s))
  }

  /** `strip()` keeps a contiguous slice of its argument that neither starts
      nor ends with whitespace; everything cut away on either side is
      whitespace. */
  lemma StripIsTrimmedSlice(s: string)
    ensures var r := Strip(s);
            && (r == [] || (!IsSpace(r[0]) && !IsSpace(r[|r| - 1])))
            && exists i, j ::
                 && 0 <= i <= j <= |s| && r == s[i..j]
                 && (forall k :: 0 <= k < i ==> IsSpace(s[k]))
                 && (forall k :: j <= k < |s| ==> IsSpace(s[k]))
  {
    StripSlice(IsSpace, s);
  }

  /** The same, for any character class. */
  lemma StripSlice(p: char -> bool, s: string)
    ensures var r := DropLastWhile(p, DropWhile(p, s));
            && (r == [] || (!p(r[0]) && !p(r[|r| - 1])))
            && exists i, j ::
                 && 0 <= i <= j <= |s| && r == s[i..j]
                 && (forall k :: 0 <= k < i ==> p(s[k]))
                 && (forall k :: j <= k < |s| ==> p(s[k]))
  {
    var t := DropWhile(p, s);
    var r := DropLastWhile(p, t);
    DropWhileRemovesPrefix(p, s);
    DropLastWhileRemovesSuffix(p, t);
    var i := |s| - |t|;
    assert r == s[i..i + |r|];
    assert r != [] ==> r[0] == t[0];
    forall k | i + |r| <= k < |s|
      ensures p(s[k])
    {
      assert s[k] == t[k - i];
    }
  }

  /** `s[:n]`. */
  function Prefix(s: string, n: nat): (r: string)
    ensures |r| == if |s| < n then |s| else n
    ensures r == s[..|r|]
  {
    if |s| < n then s else s[..n]
  }

  /** `sep.join(xs)`. */
  function Join(sep: string, xs: seq<string>): (r: string)
    ensures xs == [] ==> r == []
    ensures |xs| == 1 ==> r == xs[0]
  {
    if xs == [] then []
    else if |xs| == 1 then xs[0]
    else Join(sep, xs[..|xs| - 1]) + sep + xs[|xs| - 1]
  }

  /** Every joined item can be found in the joined string. */
  lemma {:induction false} JoinShowsEveryItem(sep: string, xs: seq<string>, i: nat)
    requires i < |xs|
    ensures Contains(Join(sep, xs), xs[i])
  {
    var r := Join(sep, xs);
    if |xs| == 1 {
      assert OccursAt(r, xs[i], 0);
    } else {
      var init := xs[..|xs| - 1];
      var left := Join(sep, init);
      assert r == left + sep + xs[|xs| - 1];
      if i == |xs| - 1 {
        assert OccursAt(r, xs[i], |left| + |sep|);
      } else {
        JoinShowsEveryItem(sep, init, i);
        var k: nat :| k <= |left| && OccursAt(left, init[i], k);
        assert r[k..k + |xs[i]|] == left[k..k + |xs[i]|];
        assert OccursAt(r, xs[i], k);
      }
    }
  }

  // ---------------------------------------------------------------------
  // Decimal digits
  // ---------------------------------------------------------------------

  predicate IsDigit(c: char) {
    '0' <= c <= '9'
  }

  predicate AllDigits(s: string) {
    forall k :: 0 <= k < |s| ==> IsDigit(s[k])
  }

  function DigitChar(d: nat): (c: char)
    requires d < 10
    ensures IsDigit(c)
  {
    ('0' as int + d) as char
  }

  function DigitValue(c: char): nat
    requires IsDigit(c)
  {
    c as int - '0' as int
  }

  /** The number a string of decimal digits denotes. */
  function ParseDigits(s: string): nat
    requires AllDigits(s)
  {
    if s == [] then 0 else ParseDigits(s[..|s| - 1]) * 10 + DigitValue(s[|s| - 1])
  }

  /** `str(n)` for a non-negative integer: no sign, no leading zeros. */
  function NatToString(n: nat): (s: string)
    ensures 1 <= |s| && AllDigits(s)
    ensures |s| > 1 ==> s[0] != '0'
  {
    if n < 10 then [DigitChar(n)] else NatToString(n / 10) + [DigitChar(n % 10)]
  }

  lemma {:induction false} NatToStringRoundTrip(n: nat)
    ensures ParseDigits(NatToString(n)) == n
  {
    if n >= 10 {
      var s := NatToString(n);
      assert s[..|s| - 1] == NatToString(n / 10);
      NatToStringRoundTrip(n / 10);
    }
  }

  function Pow10(w: nat): (p: nat)
    ensures p >= 1
  {
    if w == 0 then 1 else 10 * Pow10(w - 1)
  }

  /** `n` in exactly `w` digits, zero-padded on the left (`%0wd`). */
  function FixedDigits(n: nat, w: nat): (s: string)
    ensures |s| == w && AllDigits(s)
  {
    if w == 0 then [] else FixedDigits(n / 10, w - 1) + [DigitChar(n % 10)]
  }

  lemma {:induction false} FixedDigitsRoundTrip(n: nat, w: nat)
    requires n < Pow10(w)
    ensures ParseDigits(FixedDigits(n, w)) == n
  {
    if w > 0 {
      var s := FixedDigits(n, w);
      assert s[..|s| - 1] == FixedDigits(n / 10, w - 1);
      assert n / 10 < Pow10(w - 1);
      FixedDigitsRoundTrip(n / 10, w - 1);
    }
  }
}
