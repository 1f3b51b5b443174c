/** The small regular-expression fragment the scraper's anti-bot pattern
    uses: literal characters compared through a case fold, `.`, and
    optional one-character classes, matched from a given position. */
module Pattern {
  import opened Base
  import opened Text

  /** One position of the pattern: a literal character, `.` (anything but a
      newline), or an optional character class such as `[-_]?`. */
  datatype Atom = Lit(c: char) | AnyButNewline | OptionalOneOf(chars: seq<char>)

  /** Case-insensitive comparison of characters goes through a case fold. */
  type Fold = char -> char

  /** A literal word: one `Lit` per character. */
  function Word(w: string): (p: seq<Atom>)
    ensures |p| == |w| && forall k :: 0 <= k < |w| ==> p[k] == Lit(w[k])
  {
    var p := Map(c => Lit(c), w);
    assert forall k :: 0 <= k < |w| ==> p[k] == Lit(w[k]) by {
      forall k | 0 <= k < |w| {
        MapAt(c => Lit(c), w, k);
      }
    }
    p
  }

  /** Words separated by `.`, e.g. `verify.you.are.human`. */
  function Dotted(words: seq<string>): seq<Atom>
    requires |words| >= 1
  {
    if |words| == 1 then Word(words[0])
    else Dotted(words[..|words| - 1]) + [AnyButNewline] + Word(words[|words| - 1])
  }

  /** `p` matches `text` starting at index `i` (the match may end anywhere). */
  predicate MatchesFrom(fold: Fold, text: string, i: nat, p: seq<Atom>)
    requires i <= |text|
    decreases |p|
  {
    if p == [] then true
    else match p[0]
      case Lit(c) =>
        i < |text| && fold(text[i]) == fold(c) && MatchesFrom(fold, text, i + 1, p[1..])
      case AnyButNewline =>
        i < |text| && text[i] != '\n' && MatchesFrom(fold, text, i + 1, p[1..])
      case OptionalOneOf(chars) =>
        (i < |text| && (exists k :: 0 <= k < |chars| && fold(text[i]) == fold(chars[k]))
                    && MatchesFrom(fold, text, i + 1, p[1..]))
        || MatchesFrom(fold, text, i, p[1..])
  }

  lemma {:induction false} WordMatches(fold: Fold, text: string, i: nat, w: string, rest: seq<Atom>)
    requires OccursAt(text, w, i)
    ensures MatchesFrom(fold, text, i, Word(w) + rest) == MatchesFrom(fold, text, i + |w|, rest)
    decreases |w|
  {
    if w != [] {
      var p := Word(w) + rest;
      assert p[0] == Lit(w[0]);
      assert text[i] == w[0];
      assert p[1..] == Word(w[1..]) + rest;
      assert OccursAt(text, w[1..], i + 1) by {
        assert text[i + 1..i + 1 + |w[1..]|] == text[i..i + |w|][1..];
      }
      WordMatches(fold, text, i + 1, w[1..], rest);
    } else {
      assert Word(w) + rest == rest;
    }
  }

  lemma AnyMatches(fold: Fold, text: string, j: nat, tail: seq<Atom>)
    requires j < |text| && text[j] != '\n'
    ensures MatchesFrom(fold, text, j, [AnyButNewline] + tail) == MatchesFrom(fold, text, j + 1, tail)
  {
    assert ([AnyButNewline] + tail)[1..] == tail;
  }

  lemma JoinSplit(words: seq<string>, text: string, i: nat)
    requires |words| >= 2
    requires OccursAt(text, Join(" ", words), i)
    ensures OccursAt(text, Join(" ", words[..|words| - 1]), i)
    ensures var j := i + |Join(" ", words[..|words| - 1])|;
            j < |text| && text[j] == ' ' && OccursAt(text, words[|words| - 1], j + 1)
            && |Join(" ", words)| == j + 1 + |words[|words| - 1]| - i
  {
    var left := Join(" ", words[..|words| - 1]);
    var last := words[|words| - 1];
    var joined := Join(" ", words);
    assert joined == left + " " + last;
    var j := i + |left|;
    assert text[i..i + |left|] == joined[..|left|];
    assert text[j] == joined[|left|];
    assert text[j + 1..j + 1 + |last|] == joined[|left| + 1..];
  }

  /** Matching `Dotted(words)` is matching the dotted prefix, a `.`, then the last word. */
  lemma DottedSplit(fold: Fold, text: string, i: nat, words: seq<string>, rest: seq<Atom>)
    requires |words| >= 2 && i <= |text|
    ensures MatchesFrom(fold, text, i, Dotted(words) + rest)
            == MatchesFrom(fold, text, i, Dotted(words[..|words| - 1]) + ([AnyButNewline] + (Word(words[|words| - 1]) + rest)))
  {
    assert Dotted(words) + rest
           == Dotted(words[..|words| - 1]) + ([AnyButNewline] + (Word(words[|words| - 1]) + rest));
  }

  lemma {:induction false} DottedMatches(fold: Fold, text: string, i: nat, words: seq<string>, rest: seq<Atom>)
    requires |words| >= 1
    requires OccursAt(text, Join(" ", words), i)
    ensures MatchesFrom(fold, text, i, Dotted(words) + rest)
            == MatchesFrom(fold, text, i + |Join(" ", words)|, rest)
    decreases |words|, 1
  {
    if |words| == 1 {
      WordMatches(fold, text, i, words[0], rest);
    } else {
      DottedMatchesStep(fold, text, i, words, rest);
    }
  }

  /** The inductive step of `DottedMatches`: the last word after a `.`. */
  lemma {:induction false} DottedMatchesStep(fold: Fold, text: string, i: nat, words: seq<string>, rest: seq<Atom>)
    requires |words| >= 2
    requires OccursAt(text, Join(" ", words), i)
    ensures MatchesFrom(fold, text, i, Dotted(words) + rest)
            == MatchesFrom(fold, text, i + |Join(" ", words)|, rest)
    decreases |words|, 0
  {
    var init := words[..|words| - 1];
    var last := words[|words| - 1];
    var tail := Word(last) + rest;
    JoinSplit(words, text, i);
    var j := i + |Join(" ", init)|;
    assert i + |Join(" ", words)| == j + 1 + |last|;
    calc {
      MatchesFrom(fold, text, i, Dotted(words) + rest);
      { DottedSplit(fold, text, i, words, rest); }
      MatchesFrom(fold, text, i, Dotted(init) + ([AnyButNewline] + tail));
      { DottedMatches(fold, text, i, init, [AnyButNewline] + tail); }
      MatchesFrom(fold, text, j, [AnyButNewline] + tail);
      { AnyMatches(fold, text, j, tail); }
      MatchesFrom(fold, text, j + 1, tail);
      { WordMatches(fold, text, j + 1, last, rest); }
      MatchesFrom(fold, text, j + 1 + |last|, rest);
    }
  }
}
