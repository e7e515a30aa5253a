/**
 * Heuristic classification of Canvas titles (app.py, "Orientation /
 * Syllabus harvesting"): `norm`, the orientation and syllabus patterns and
 * the plain-text preview of an HTML body.
 */
module Classify {
  import opened Wrappers
  import opened Values
  import opened Text

  /** `norm`: NFKC, then every whitespace run to one space, strip, lower-case. */
  function Norm(lib: Lib, s: string): (r: string)
    ensures r != [] ==> !IsSpace(r[0]) && !IsSpace(r[|r| - 1])
    ensures NoDoubleSpace(r)
    ensures forall k :: 0 <= k < |r| ==> !IsUpper(r[k])
  {
    var t := Strip(Collapse(lib.nfkc(s)));
    StripNoDoubleSpace(Collapse(lib.nfkc(s)));
    Lower(t)
  }

  /** `norm` keeps every non-whitespace character of the NFKC form, in order, lower-cased. */
  lemma NormKeepsText(lib: Lib, s: string)
    ensures NonSpace(Norm(lib, s)) == Lower(NonSpace(lib.nfkc(s)))
  {
    var c := Collapse(lib.nfkc(s));
    NonSpaceLower(Strip(c));
    StripKeepsText(c);
    CollapseKeepsText(lib.nfkc(s));
  }

  lemma StripNoDoubleSpace(c: string)
    requires NoDoubleSpace(c)
    ensures NoDoubleSpace(Strip(c))
  {
    var lo := LeadingSpaces(c);
    StripBounds(c);
    var t := Strip(c);
    forall k | 0 <= k < |t| - 1 ensures !(IsSpace(t[k]) && IsSpace(t[k + 1])) {
      assert t[k] == c[lo + k] && t[k + 1] == c[lo + k + 1];
    }
  }

  /** One element of the small regular-expression language the patterns are written in. */
  datatype Atom =
    | Boundary              // \b
    | Lit(word: string)     // a literal word
    | AnyOf(words: seq<string>)  // (a|b|c)
    | Spaces                // \s*
    | WordChars             // \w*

  type Pattern = seq<Atom>

  /** `\b` at position `i`: exactly one of the characters around `i` is a word character. */
  predicate AtBoundary(s: string, i: int)
    requires 0 <= i <= |s|
  {
    (i > 0 && IsWordChar(s[i - 1])) != (i < |s| && IsWordChar(s[i]))
  }

  /**
   * Some way of matching `p` starts at position `i` of `s`. A backtracking
   * engine finds a match exactly when one of these ways exists.
   */
  predicate MatchesFrom(p: Pattern, s: string, i: nat)
    requires i <= |s|
    decreases |p|, |s| - i
  {
    if p == [] then true
    else match p[0]
      case Boundary => AtBoundary(s, i) && MatchesFrom(p[1..], s, i)
      case Lit(w) => StartsAt(s, i, w) && MatchesFrom(p[1..], s, i + |w|)
      case AnyOf(ws) =>
        exists k :: 0 <= k < |ws| && StartsAt(s, i, ws[k]) && MatchesFrom(p[1..], s, i + |ws[k]|)
      case Spaces =>
        MatchesFrom(p[1..], s, i) || (i < |s| && IsSpace(s[i]) && MatchesFrom(p, s, i + 1))
      case WordChars =>
        MatchesFrom(p[1..], s, i) || (i < |s| && IsWordChar(s[i]) && MatchesFrom(p, s, i + 1))
  }

  /** `re.search(p, s)` succeeds. */
  predicate Search(p: Pattern, s: string) {
    exists i :: 0 <= i <= |s| && MatchesFrom(p, s, i)
  }

  /** `SYLLAB_PAT`, `\bsyllab\w*\b`. */
  const SyllabPattern: Pattern := [Boundary, Lit("syllab"), WordChars, Boundary]

  /** `ORIENT_PATTERNS`. */
  const OrientPatterns: seq<Pattern> := [
    [Boundary, Lit("orientation"), Boundary],
    [Boundary, Lit("start"), Spaces, Lit("here"), Boundary],
    [Boundary, Lit("begin"), Spaces, Lit("here"), Boundary],
    [Boundary, Lit("getting"), Spaces, Lit("started"), Boundary],
    [Boundary, Lit("welcome"), Boundary],
    [Boundary, Lit("read"), Spaces, Lit("me"), Spaces, Lit("first"), Boundary],
    [Boundary, Lit("course"), Spaces, AnyOf(["overview", "info", "information"]), Boundary],
    [Boundary, Lit("polic"), AnyOf(["y", "ies"]), Boundary],
    [Boundary, Lit("simple"), Spaces, Lit("syllabus"), Boundary],
    [Boundary, Lit("smart"), Spaces, Lit("syllabus"), Boundary]
  ]

  /** `looks_like_orientation`: some orientation pattern occurs in the normalised title. */
  predicate LooksLikeOrientation(lib: Lib, title: string) {
    exists k :: 0 <= k < |OrientPatterns| && Search(OrientPatterns[k], Norm(lib, title))
  }

  /** `looks_like_syllabus`. */
  predicate LooksLikeSyllabus(lib: Lib, title: string) {
    Search(SyllabPattern, Norm(lib, title))
  }

  /** "syllab" starts at `i`, at the start of the string or after a non-word character. */
  predicate SyllabAt(s: string, i: int) {
    StartsAt(s, i, "syllab") && (i == 0 || !IsWordChar(s[i - 1]))
  }

  /** After a word character, `\w*\b` always matches. */
  lemma {:induction false} WordCharsThenBoundary(s: string, j: nat)
    requires 0 < j <= |s| && IsWordChar(s[j - 1])
    ensures MatchesFrom([WordChars, Boundary], s, j)
    decreases |s| - j
  {
    var p: Pattern := [WordChars, Boundary];
    assert p[1..] == [Boundary];
    assert [Boundary][1..] == [];
    if j < |s| && IsWordChar(s[j]) {
      WordCharsThenBoundary(s, j + 1);
    } else {
      assert AtBoundary(s, j);
    }
  }

  /** The syllabus pattern matches exactly where "syllab" begins a word. */
  lemma SearchSyllab(s: string)
    ensures Search(SyllabPattern, s) <==> exists i :: SyllabAt(s, i)
  {
    var tail: Pattern := [Lit("syllab"), WordChars, Boundary];
    assert SyllabPattern[1..] == tail;
    assert tail[1..] == [WordChars, Boundary];
    if Search(SyllabPattern, s) {
      var i :| 0 <= i <= |s| && MatchesFrom(SyllabPattern, s, i);
      assert AtBoundary(s, i) && MatchesFrom(tail, s, i);
      assert StartsAt(s, i, "syllab");
      assert s[i] == 's';
      assert SyllabAt(s, i);
    }
    if exists i :: SyllabAt(s, i) {
      var i :| SyllabAt(s, i);
      assert s[i..i + 6] == "syllab";
      assert s[i] == s[i..i + 6][0] == 's';
      assert s[i + 5] == s[i..i + 6][5] == 'b';
      WordCharsThenBoundary(s, i + 6);
      assert MatchesFrom(tail, s, i);
      assert AtBoundary(s, i);
      assert MatchesFrom(SyllabPattern, s, i);
    }
  }

  /** `looks_like_syllabus(t)` holds exactly when "syllab" begins a word of `norm(t)`. */
  lemma LooksLikeSyllabusIff(lib: Lib, title: string)
    ensures LooksLikeSyllabus(lib, title) <==> exists i :: SyllabAt(Norm(lib, title), i)
  {
    SearchSyllab(Norm(lib, title));
  }

  /** The `\s*` in `start\s*here` also matches no space at all: "starthere" is orientation. */
  lemma StartHereWithoutSpace()
    ensures Search(OrientPatterns[1], "starthere")
  {
    var s := "starthere";
    var p := OrientPatterns[1];
    assert p[1..] == [Lit("start"), Spaces, Lit("here"), Boundary];
    assert p[1..][1..] == [Spaces, Lit("here"), Boundary];
    assert p[1..][1..][1..] == [Lit("here"), Boundary];
    assert p[1..][1..][1..][1..] == [Boundary];
    assert [Boundary][1..] == [];
    assert AtBoundary(s, 9) && MatchesFrom([Boundary], s, 9);
    assert s[5..9] == "here" && MatchesFrom([Lit("here"), Boundary], s, 5);
    assert MatchesFrom([Spaces, Lit("here"), Boundary], s, 5);
    assert s[0..5] == "start" && MatchesFrom([Lit("start"), Spaces, Lit("here"), Boundary], s, 0);
    assert AtBoundary(s, 0) && MatchesFrom(p, s, 0);
  }

  /** Positions `i` up to `j` of `s` hold nothing but whitespace. */
  predicate SpacesBetween(s: string, i: int, j: int) {
    0 <= i <= j <= |s| && forall k :: i <= k < j ==> IsSpace(s[k])
  }

  /** `\s*` then `rest` matches at `i` exactly when `rest` matches after some run of whitespace. */
  lemma {:induction false} SpacesMatch(rest: Pattern, s: string, i: nat)
    requires i <= |s|
    ensures MatchesFrom([Spaces] + rest, s, i) <==> exists j :: SpacesBetween(s, i, j) && MatchesFrom(rest, s, j)
    decreases |s| - i
  {
    var p := [Spaces] + rest;
    assert p[0] == Spaces && p[1..] == rest;
    if i < |s| {
      SpacesMatch(rest, s, i + 1);
    }
    if exists j :: SpacesBetween(s, i, j) && MatchesFrom(rest, s, j) {
      var j :| SpacesBetween(s, i, j) && MatchesFrom(rest, s, j);
      if j > i {
        assert SpacesBetween(s, i + 1, j);
      }
    }
    if MatchesFrom(p, s, i) {
      if MatchesFrom(rest, s, i) {
        assert SpacesBetween(s, i, i);
      } else {
        var j :| SpacesBetween(s, i + 1, j) && MatchesFrom(rest, s, j);
        assert SpacesBetween(s, i, j);
      }
    }
  }

  /** A run of whitespace up to `j`, then a match of `rest` at `j`, is a match of `\s*` then `rest`. */
  lemma SpacesThen(rest: Pattern, s: string, i: nat, j: int)
    requires SpacesBetween(s, i, j) && MatchesFrom(rest, s, j)
    ensures MatchesFrom([Spaces] + rest, s, i)
  {
    SpacesMatch(rest, s, i);
  }

  /** `\ba\s*b\b`, the shape of the two-word orientation patterns. */
  function Phrase(a: string, b: string): Pattern {
    [Boundary, Lit(a), Spaces, Lit(b), Boundary]
  }

  /** Word `a` begins at `i`, only whitespace follows it up to `j`, where word `b` begins and then ends. */
  predicate PhraseAt(s: string, a: string, b: string, i: int, j: int) {
    && 0 <= i && i + |a| <= j && j + |b| <= |s|
    && AtBoundary(s, i) && StartsAt(s, i, a)
    && SpacesBetween(s, i + |a|, j)
    && StartsAt(s, j, b) && AtBoundary(s, j + |b|)
  }

  /** `b\b` matches at `j` exactly when `b` starts there and a word edge follows it. */
  lemma WordThenBoundary(b: string, s: string, j: nat)
    requires j <= |s|
    ensures MatchesFrom([Lit(b), Boundary], s, j) <==> StartsAt(s, j, b) && AtBoundary(s, j + |b|)
  {
    var tail: Pattern := [Lit(b), Boundary];
    assert tail[1..] == [Boundary];
    assert [Boundary][1..] == [];
    if StartsAt(s, j, b) {
      assert MatchesFrom([Boundary], s, j + |b|) <==> AtBoundary(s, j + |b|);
    }
  }

  /** The first two atoms of a two-word pattern: a word edge, then the first word. */
  lemma PhraseUnfold(a: string, b: string, s: string, i: nat)
    requires i <= |s|
    ensures MatchesFrom(Phrase(a, b), s, i)
        <==> AtBoundary(s, i) && StartsAt(s, i, a) && MatchesFrom([Spaces] + [Lit(b), Boundary], s, i + |a|)
  {
    var p := Phrase(a, b);
    assert p[1..] == [Lit(a), Spaces, Lit(b), Boundary];
    assert p[1..][1..] == [Spaces] + [Lit(b), Boundary];
  }

  /** A two-word pattern matches at `i` exactly when the phrase starts at `i`. */
  lemma PhraseFrom(a: string, b: string, s: string, i: nat)
    requires i <= |s|
    ensures MatchesFrom(Phrase(a, b), s, i) <==> exists j :: PhraseAt(s, a, b, i, j)
  {
    if MatchesFrom(Phrase(a, b), s, i) {
      var j := PhraseMatchEnds(a, b, s, i);
    }
    if exists j :: PhraseAt(s, a, b, i, j) {
      var j :| PhraseAt(s, a, b, i, j);
      PhraseAtMatches(a, b, s, i, j);
    }
  }

  /** A match of a two-word pattern at `i` yields the position `j` of its second word. */
  lemma PhraseMatchEnds(a: string, b: string, s: string, i: nat) returns (j: int)
    requires i <= |s| && MatchesFrom(Phrase(a, b), s, i)
    ensures PhraseAt(s, a, b, i, j)
  {
    var tail: Pattern := [Lit(b), Boundary];
    PhraseUnfold(a, b, s, i);
    SpacesMatch(tail, s, i + |a|);
    j :| SpacesBetween(s, i + |a|, j) && MatchesFrom(tail, s, j);
    WordThenBoundary(b, s, j);
  }

  /** An occurrence of the phrase at `i` is a match of the two-word pattern there. */
  lemma PhraseAtMatches(a: string, b: string, s: string, i: nat, j: int)
    requires PhraseAt(s, a, b, i, j)
    ensures MatchesFrom(Phrase(a, b), s, i)
  {
    var tail: Pattern := [Lit(b), Boundary];
    WordThenBoundary(b, s, j);
    SpacesMatch(tail, s, i + |a|);
    PhraseUnfold(a, b, s, i);
  }

  /** `re.search` with a two-word pattern succeeds exactly when the phrase occurs somewhere. */
  lemma PhraseSearch(a: string, b: string, s: string)
    ensures Search(Phrase(a, b), s) <==> exists i, j :: PhraseAt(s, a, b, i, j)
  {
    if Search(Phrase(a, b), s) {
      var i :| 0 <= i <= |s| && MatchesFrom(Phrase(a, b), s, i);
      PhraseFrom(a, b, s, i);
    }
    if exists i, j :: PhraseAt(s, a, b, i, j) {
      var i, j :| PhraseAt(s, a, b, i, j);
      PhraseFrom(a, b, s, i);
    }
  }

  /** The word pairs of the two-word orientation patterns. */
  const OrientPhrases: seq<(string, string)> :=
    [("start", "here"), ("begin", "here"), ("getting", "started"), ("simple", "syllabus"), ("smart", "syllabus")]

  /**
   * Each two-word orientation pattern fires on `norm(title)` exactly when its
   * two words occur there as whole words with only whitespace (or nothing)
   * between them, and then the title looks like orientation.
   */
  lemma OrientPhraseIff(lib: Lib, title: string, m: nat)
    requires m < |OrientPhrases|
    ensures Phrase(OrientPhrases[m].0, OrientPhrases[m].1) in OrientPatterns
    ensures Search(Phrase(OrientPhrases[m].0, OrientPhrases[m].1), Norm(lib, title))
        <==> exists i, j :: PhraseAt(Norm(lib, title), OrientPhrases[m].0, OrientPhrases[m].1, i, j)
    ensures (exists i, j :: PhraseAt(Norm(lib, title), OrientPhrases[m].0, OrientPhrases[m].1, i, j))
        ==> LooksLikeOrientation(lib, title)
  {
    var a, b := OrientPhrases[m].0, OrientPhrases[m].1;
    var k := [1, 2, 3, 8, 9][m];
    assert OrientPatterns[k] == Phrase(a, b);
    PhraseSearch(a, b, Norm(lib, title));
  }

  /** `\bw\b`, the shape of the one-word orientation patterns. */
  function Word(w: string): Pattern {
    [Boundary, Lit(w), Boundary]
  }

  /** Word `w` begins at `i` and ends there as a whole word. */
  predicate WordAt(s: string, w: string, i: int) {
    0 <= i && i + |w| <= |s| && AtBoundary(s, i) && StartsAt(s, i, w) && AtBoundary(s, i + |w|)
  }

  /** A one-word pattern matches at `i` exactly when the whole word `w` starts at `i`. */
  lemma WordFrom(w: string, s: string, i: nat)
    requires i <= |s|
    ensures MatchesFrom(Word(w), s, i) <==> WordAt(s, w, i)
  {
    var p := Word(w);
    assert p[1..] == [Lit(w), Boundary];
    WordThenBoundary(w, s, i);
  }

  /** `re.search` with a one-word pattern succeeds exactly when the word occurs whole somewhere. */
  lemma WordSearch(w: string, s: string)
    ensures Search(Word(w), s) <==> exists i :: WordAt(s, w, i)
  {
    if Search(Word(w), s) {
      var i :| 0 <= i <= |s| && MatchesFrom(Word(w), s, i);
      WordFrom(w, s, i);
    }
    if exists i :: WordAt(s, w, i) {
      var i :| WordAt(s, w, i);
      WordFrom(w, s, i);
    }
  }

  /**
   * `\borientation\b` and `\bwelcome\b` fire on `norm(title)` exactly when
   * the word occurs there whole, and then the title looks like orientation.
   */
  lemma OrientWordIff(lib: Lib, title: string, w: string)
    requires w == "orientation" || w == "welcome"
    ensures Word(w) in OrientPatterns
    ensures Search(Word(w), Norm(lib, title)) <==> exists i :: WordAt(Norm(lib, title), w, i)
    ensures (exists i :: WordAt(Norm(lib, title), w, i)) ==> LooksLikeOrientation(lib, title)
  {
    var k := if w == "orientation" then 0 else 4;
    assert OrientPatterns[k] == Word(w);
    WordSearch(w, Norm(lib, title));
  }

  /** `a` at `i` followed by `b` is `a + b` at `i`. */
  lemma StartsAtJoined(s: string, i: nat, a: string, b: string)
    ensures StartsAt(s, i, a) && StartsAt(s, i + |a|, b) <==> StartsAt(s, i, a + b)
  {
    if StartsAt(s, i, a + b) {
      assert s[i..i + |a|] == (a + b)[..|a|];
      assert s[i + |a|..i + |a| + |b|] == (a + b)[|a|..];
    }
    if StartsAt(s, i, a) && StartsAt(s, i + |a|, b) {
      assert s[i..i + |a| + |b|] == s[i..i + |a|] + s[i + |a|..i + |a| + |b|];
    }
  }

  /** `\bpolic(y|ies)\b` matches at `i` exactly when `policy` or `policies` starts there as a whole word. */
  lemma PolicyFrom(s: string, i: nat)
    requires i <= |s|
    ensures MatchesFrom(OrientPatterns[7], s, i) <==> WordAt(s, "policy", i) || WordAt(s, "policies", i)
  {
    var p := OrientPatterns[7];
    var ends: seq<string> := ["y", "ies"];
    assert p[1..] == [Lit("polic"), AnyOf(ends), Boundary];
    assert p[1..][1..] == [AnyOf(ends), Boundary];
    assert p[1..][1..][1..] == [Boundary];
    StartsAtJoined(s, i, "polic", "y");
    StartsAtJoined(s, i, "polic", "ies");
    assert "polic" + "y" == "policy" && "polic" + "ies" == "policies";
    if StartsAt(s, i, "polic") {
      var at := i + 5;
      var rest: Pattern := [Boundary];
      assert rest[1..] == [];
      if MatchesFrom(p[1..][1..], s, at) {
        var k :| 0 <= k < |ends| && StartsAt(s, at, ends[k]) && MatchesFrom(rest, s, at + |ends[k]|);
        assert k == 0 || k == 1;
      }
      if WordAt(s, "policy", i) {
        assert StartsAt(s, at, ends[0]) && MatchesFrom(rest, s, at + |ends[0]|);
      }
      if WordAt(s, "policies", i) {
        assert StartsAt(s, at, ends[1]) && MatchesFrom(rest, s, at + |ends[1]|);
      }
    }
  }

  /**
   * `\bpolic(y|ies)\b` fires on `norm(title)` exactly when "policy" or
   * "policies" occurs there whole, and then the title looks like orientation.
   */
  lemma PolicyIff(lib: Lib, title: string)
    ensures Search(OrientPatterns[7], Norm(lib, title))
        <==> exists i :: WordAt(Norm(lib, title), "policy", i) || WordAt(Norm(lib, title), "policies", i)
    ensures (exists i :: WordAt(Norm(lib, title), "policy", i) || WordAt(Norm(lib, title), "policies", i))
        ==> LooksLikeOrientation(lib, title)
  {
    var s := Norm(lib, title);
    if Search(OrientPatterns[7], s) {
      var i :| 0 <= i <= |s| && MatchesFrom(OrientPatterns[7], s, i);
      PolicyFrom(s, i);
    }
    if exists i :: WordAt(s, "policy", i) || WordAt(s, "policies", i) {
      var i :| WordAt(s, "policy", i) || WordAt(s, "policies", i);
      PolicyFrom(s, i);
    }
  }

  /** The words `\bcourse\s*(overview|info|information)\b` accepts after "course". */
  const CourseTopics: seq<string> := ["overview", "info", "information"]

  /** `(w1|w2|...)\b` matches at `j` exactly when one of the words starts there and a word edge follows it. */
  lemma AnyWordThenBoundary(ws: seq<string>, s: string, j: nat)
    requires j <= |s|
    ensures MatchesFrom([AnyOf(ws), Boundary], s, j)
        <==> exists k :: 0 <= k < |ws| && StartsAt(s, j, ws[k]) && AtBoundary(s, j + |ws[k]|)
  {
    var tail: Pattern := [AnyOf(ws), Boundary];
    var rest: Pattern := [Boundary];
    assert tail[1..] == rest && rest[1..] == [];
    if MatchesFrom(tail, s, j) {
      var k :| 0 <= k < |ws| && StartsAt(s, j, ws[k]) && MatchesFrom(rest, s, j + |ws[k]|);
    }
    if exists k :: 0 <= k < |ws| && StartsAt(s, j, ws[k]) && AtBoundary(s, j + |ws[k]|) {
      var k :| 0 <= k < |ws| && StartsAt(s, j, ws[k]) && AtBoundary(s, j + |ws[k]|);
      assert MatchesFrom(rest, s, j + |ws[k]|);
    }
  }

  /** `\ba\s*(w1|w2|...)\b`, a word followed by one of several words. */
  function TopicPhrase(a: string, ws: seq<string>): Pattern {
    [Boundary, Lit(a), Spaces, AnyOf(ws), Boundary]
  }

  /** Word `a` and one of `ws` form a phrase at `i`. */
  predicate TopicAt(s: string, a: string, ws: seq<string>, i: int, j: int, k: int) {
    0 <= k < |ws| && PhraseAt(s, a, ws[k], i, j)
  }

  /** The first two atoms of a topic phrase: a word edge, then the leading word. */
  lemma TopicUnfold(a: string, ws: seq<string>, s: string, i: nat)
    requires i <= |s|
    ensures MatchesFrom(TopicPhrase(a, ws), s, i)
        <==> AtBoundary(s, i) && StartsAt(s, i, a) && MatchesFrom([Spaces] + [AnyOf(ws), Boundary], s, i + |a|)
  {
    var p := TopicPhrase(a, ws);
    assert p[1..] == [Lit(a), Spaces, AnyOf(ws), Boundary];
    assert p[1..][1..] == [Spaces] + [AnyOf(ws), Boundary];
  }

  /** A match of a topic phrase at `i` yields the topic `k` and its position `j`. */
  lemma TopicMatchEnds(a: string, ws: seq<string>, s: string, i: nat) returns (j: int, k: int)
    requires i <= |s| && MatchesFrom(TopicPhrase(a, ws), s, i)
    ensures TopicAt(s, a, ws, i, j, k)
  {
    var tail: Pattern := [AnyOf(ws), Boundary];
    TopicUnfold(a, ws, s, i);
    SpacesMatch(tail, s, i + |a|);
    j :| SpacesBetween(s, i + |a|, j) && MatchesFrom(tail, s, j);
    AnyWordThenBoundary(ws, s, j);
    k :| 0 <= k < |ws| && StartsAt(s, j, ws[k]) && AtBoundary(s, j + |ws[k]|);
  }

  /** A topic phrase occurring at `i` is a match of its pattern there. */
  lemma TopicAtMatches(a: string, ws: seq<string>, s: string, i: nat, j: int, k: int)
    requires TopicAt(s, a, ws, i, j, k)
    ensures MatchesFrom(TopicPhrase(a, ws), s, i)
  {
    var tail: Pattern := [AnyOf(ws), Boundary];
    TopicTailMatches(ws, s, j, k);
    SpacesThen(tail, s, i + |a|, j);
    TopicFromParts(a, ws, s, i);
  }

  /** A word edge, the leading word, then `\s*(w1|w2|...)\b` make a match of the topic phrase. */
  lemma TopicFromParts(a: string, ws: seq<string>, s: string, i: nat)
    requires i <= |s| && AtBoundary(s, i) && StartsAt(s, i, a) && MatchesFrom([Spaces] + [AnyOf(ws), Boundary], s, i + |a|)
    ensures MatchesFrom(TopicPhrase(a, ws), s, i)
  {
    TopicUnfold(a, ws, s, i);
  }

  /** One of the topics, then a word edge, matches where that topic starts and ends a word. */
  lemma TopicTailMatches(ws: seq<string>, s: string, j: int, k: int)
    requires 0 <= k < |ws| && StartsAt(s, j, ws[k]) && AtBoundary(s, j + |ws[k]|)
    ensures MatchesFrom([AnyOf(ws), Boundary], s, j)
  {
    AnyWordThenBoundary(ws, s, j);
  }

  /** `re.search` with a topic phrase succeeds exactly when the leading word and one of the topics form a phrase somewhere. */
  lemma TopicSearch(a: string, ws: seq<string>, s: string)
    ensures Search(TopicPhrase(a, ws), s) <==> exists i, j, k :: TopicAt(s, a, ws, i, j, k)
  {
    if Search(TopicPhrase(a, ws), s) {
      var i :| 0 <= i <= |s| && MatchesFrom(TopicPhrase(a, ws), s, i);
      var j, k := TopicMatchEnds(a, ws, s, i);
    }
    if exists i, j, k :: TopicAt(s, a, ws, i, j, k) {
      var i, j, k :| TopicAt(s, a, ws, i, j, k);
      TopicAtMatches(a, ws, s, i, j, k);
    }
  }

  /**
   * `\bcourse\s*(overview|info|information)\b` fires on `norm(title)` exactly
   * when "course" is followed, after optional whitespace, by one of its
   * topics as a whole word, and then the title looks like orientation.
   */
  lemma CourseIff(lib: Lib, title: string)
    ensures OrientPatterns[6] == TopicPhrase("course", CourseTopics)
    ensures Search(OrientPatterns[6], Norm(lib, title))
        <==> exists i, j, k :: TopicAt(Norm(lib, title), "course", CourseTopics, i, j, k)
    ensures (exists i, j, k :: TopicAt(Norm(lib, title), "course", CourseTopics, i, j, k))
        ==> LooksLikeOrientation(lib, title)
  {
    TopicSearch("course", CourseTopics, Norm(lib, title));
  }

  /** `norm` changes nothing but the case of a title that is already normalised and trimmed. */
  lemma NormOfPlain(lib: Lib, t: string)
    requires lib.nfkc(t) == t
    requires t != [] && !IsSpace(t[0]) && !IsSpace(t[|t| - 1])
    requires NoDoubleSpace(t) && OnlyPlainSpaces(t)
    ensures Norm(lib, t) == Lower(t)
  {
    CollapseIdempotent(t);
    StripUnpadded(t);
  }

  /** "Start Here: Week 1" looks like orientation. */
  lemma StartHereWeekOne(lib: Lib)
    requires lib.nfkc("Start Here: Week 1") == "Start Here: Week 1"
    ensures LooksLikeOrientation(lib, "Start Here: Week 1")
  {
    StartHereAtFront(lib, "Start Here: Week 1");
    OrientPhraseIff(lib, "Start Here: Week 1", 0);
  }

  /** The phrase "start here" opens the normalised title. */
  lemma StartHereAtFront(lib: Lib, t: string)
    requires t == "Start Here: Week 1" && lib.nfkc(t) == t
    ensures PhraseAt(Norm(lib, t), "start", "here", 0, 6)
  {
    WeekOneIsPlain(t);
    NormOfPlain(lib, t);
    StartHereOpens(t);
  }

  lemma StartHereOpens(t: string)
    requires t == "Start Here: Week 1"
    ensures PhraseAt(Lower(t), "start", "here", 0, 6)
  {
    var s := Lower(t);
    assert s[0] == 's' && s[1] == 't' && s[2] == 'a' && s[3] == 'r' && s[4] == 't';
    assert s[5] == ' ' && s[6] == 'h' && s[7] == 'e' && s[8] == 'r' && s[9] == 'e' && s[10] == ':';
    StartsAtChars(s, 0, "start");
    StartsAtChars(s, 6, "here");
  }

  lemma WeekOneIsPlain(t: string)
    requires t == "Start Here: Week 1"
    ensures t != [] && !IsSpace(t[0]) && !IsSpace(t[|t| - 1])
    ensures NoDoubleSpace(t) && OnlyPlainSpaces(t)
  {
  }

  lemma HereinIsPlain(t: string)
    requires t == "Restart Herein"
    ensures t != [] && !IsSpace(t[0]) && !IsSpace(t[|t| - 1])
    ensures NoDoubleSpace(t) && OnlyPlainSpaces(t)
  {
  }

  /** In "restart herein" the only "start" is at 2, inside the word "restart". */
  lemma RestartStartsMidWord(t: string)
    requires t == "Restart Herein"
    ensures forall i :: 0 <= i && StartsAt(Lower(t), i, "start") ==> i == 2
    ensures !AtBoundary(Lower(t), 2)
  {
    var s := Lower(t);
    assert s[0] == 'r' && s[1] == 'e' && s[2] == 's' && s[3] == 't' && s[4] == 'a' && s[5] == 'r' && s[6] == 't';
    assert s[7] == ' ' && s[8] == 'h' && s[9] == 'e' && s[10] == 'r' && s[11] == 'e' && s[12] == 'i' && s[13] == 'n';
    forall i | 0 <= i && StartsAt(s, i, "start") ensures i == 2 {
      assert s[i] == "start"[0];
    }
  }

  /** A pattern that opens with `\b` and a word cannot match where that word never begins a word. */
  lemma NoLeadingWord(w: string, p: Pattern, s: string)
    requires |p| >= 2 && p[0] == Boundary && p[1] == Lit(w)
    requires forall i :: 0 <= i <= |s| && StartsAt(s, i, w) ==> !AtBoundary(s, i)
    ensures !Search(p, s)
  {
    forall i | 0 <= i <= |s| ensures !MatchesFrom(p, s, i) {
      assert p[1..][0] == Lit(w) && p[1..][1..] == p[2..];
      assert MatchesFrom(p, s, i) == (AtBoundary(s, i) && MatchesFrom(p[1..], s, i));
      assert MatchesFrom(p[1..], s, i) == (StartsAt(s, i, w) && MatchesFrom(p[2..], s, i + |w|));
    }
  }

  /** `w` does not start at `i` when its character `m` differs from the text's. */
  lemma Mismatch(s: string, w: string, i: int, m: nat)
    requires 0 <= i && m < |w| && (i + m < |s| ==> s[i + m] != w[m])
    ensures !StartsAt(s, i, w)
  {
    if i + |w| <= |s| {
      assert s[i..i + |w|][m] == s[i + m];
    }
  }

  /** A word whose first letter never occurs in the text starts nowhere in it. */
  lemma AbsentFirstLetter(s: string, w: string)
    requires |w| >= 1 && forall k :: 0 <= k < |s| ==> s[k] != w[0]
    ensures forall i :: 0 <= i ==> !StartsAt(s, i, w)
  {
    forall i | 0 <= i ensures !StartsAt(s, i, w) {
      Mismatch(s, w, i, 0);
    }
  }

  /** The letters of "restart herein". */
  lemma RestartHereinLetters(t: string)
    requires t == "Restart Herein"
    ensures forall k :: 0 <= k < |Lower(t)| ==> Lower(t)[k] in "restahin "
  {
  }

  /** Apart from "start", no leading word of an orientation pattern occurs in "restart herein". */
  lemma RestartHereinWords(t: string)
    requires t == "Restart Herein"
    ensures forall i :: 0 <= i ==>
      && !StartsAt(Lower(t), i, "orientation") && !StartsAt(Lower(t), i, "begin")
      && !StartsAt(Lower(t), i, "getting") && !StartsAt(Lower(t), i, "welcome")
      && !StartsAt(Lower(t), i, "course") && !StartsAt(Lower(t), i, "polic")
  {
    var s := Lower(t);
    RestartHereinLetters(t);
    AbsentFirstLetter(s, "orientation");
    AbsentFirstLetter(s, "begin");
    AbsentFirstLetter(s, "getting");
    AbsentFirstLetter(s, "welcome");
    AbsentFirstLetter(s, "course");
    AbsentFirstLetter(s, "polic");
  }

  /** "read", "simple" and "smart" break off after their first letter in "restart herein". */
  lemma RestartHereinNearMisses(t: string)
    requires t == "Restart Herein"
    ensures forall i :: 0 <= i ==>
      !StartsAt(Lower(t), i, "read") && !StartsAt(Lower(t), i, "simple") && !StartsAt(Lower(t), i, "smart")
  {
    var s := Lower(t);
    assert s[0] == 'r' && s[1] == 'e' && s[2] == 's' && s[3] == 't' && s[4] == 'a' && s[5] == 'r' && s[6] == 't';
    assert s[7] == ' ' && s[8] == 'h' && s[9] == 'e' && s[10] == 'r' && s[11] == 'e' && s[12] == 'i' && s[13] == 'n';
    forall i | 0 <= i
      ensures !StartsAt(s, i, "read") && !StartsAt(s, i, "simple") && !StartsAt(s, i, "smart")
    {
      Mismatch(s, "read", i, if i == 5 then 1 else if i == 0 || i == 10 then 2 else 0);
      Mismatch(s, "simple", i, if i == 2 then 1 else 0);
      Mismatch(s, "smart", i, if i == 2 then 1 else 0);
    }
  }

  /** "Restart Herein" does not look like orientation: no pattern's leading word begins a word of it. */
  lemma RestartHereinNotOrientation(lib: Lib)
    requires lib.nfkc("Restart Herein") == "Restart Herein"
    ensures !LooksLikeOrientation(lib, "Restart Herein")
  {
    RestartHereinNoneMatch(lib, "Restart Herein");
  }

  lemma RestartHereinNoneMatch(lib: Lib, t: string)
    requires t == "Restart Herein" && lib.nfkc(t) == t
    ensures forall k :: 0 <= k < |OrientPatterns| ==> !Search(OrientPatterns[k], Norm(lib, t))
  {
    HereinIsPlain(t);
    NormOfPlain(lib, t);
    RestartStartsMidWord(t);
    RestartHereinWords(t);
    RestartHereinNearMisses(t);
    var s := Lower(t);
    NoLeadingWord("orientation", OrientPatterns[0], s);
    NoLeadingWord("start", OrientPatterns[1], s);
    NoLeadingWord("begin", OrientPatterns[2], s);
    NoLeadingWord("getting", OrientPatterns[3], s);
    NoLeadingWord("welcome", OrientPatterns[4], s);
    NoLeadingWord("read", OrientPatterns[5], s);
    NoLeadingWord("course", OrientPatterns[6], s);
    NoLeadingWord("polic", OrientPatterns[7], s);
    NoLeadingWord("simple", OrientPatterns[8], s);
    NoLeadingWord("smart", OrientPatterns[9], s);
  }

  /** `\bsyllab\w*\b` is a prefix test: it also accepts words such as "syllables". */
  lemma SyllablesMatches()
    ensures Search(SyllabPattern, "syllables and sounds")
  {
    var s := "syllables and sounds";
    assert s[0..6] == "syllab";
    assert SyllabAt(s, 0);
    SearchSyllab(s);
  }

  /** `re.sub(r"<[^>]+>", " ", s)`: each `<`, one or more non-`>` characters and `>` becomes a space. */
  function StripTags(s: string): string
    decreases |s|
  {
    if s == [] then []
    else
      var e := Find(s, '>');
      if s[0] == '<' && e >= 2 then [' '] + StripTags(s[e + 1..]) else [s[0]] + StripTags(s[1..])
  }

  /** The substitution never lengthens the text: a tag of three or more characters becomes one space. */
  lemma {:induction false} StripTagsLength(s: string)
    ensures |StripTags(s)| <= |s|
    decreases |s|
  {
    if s != [] {
      var e := Find(s, '>');
      if s[0] == '<' && e >= 2 {
        StripTagsLength(s[e + 1..]);
      } else {
        StripTagsLength(s[1..]);
      }
    }
  }

  /** Text without a `<` holds no tag, and the substitution leaves it unchanged. */
  lemma {:induction false} StripTagsTagFree(s: string)
    requires '<' !in s
    ensures StripTags(s) == s
    decreases |s|
  {
    if s != [] {
      assert s[0] != '<' && '<' !in s[1..];
      StripTagsTagFree(s[1..]);
    }
  }

  /** The substitution brings in no `>` of its own. */
  lemma {:induction false} StripTagsAddsNoGt(s: string)
    requires '>' !in s
    ensures '>' !in StripTags(s)
    decreases |s|
  {
    if s != [] {
      assert s[0] != '>' && '>' !in s[1..];
      StripTagsAddsNoGt(s[1..]);
    }
  }

  /** A tag, as the pattern `<[^>]+>` sees one, starts at position `k`. */
  predicate TagAt(s: string, k: nat)
    requires k < |s|
  {
    s[k] == '<' && Find(s[k..], '>') >= 2
  }

  predicate NoTag(s: string) {
    forall k :: 0 <= k < |s| ==> !TagAt(s, k)
  }

  lemma NoTagInTail(c: char, tail: string)
    requires NoTag(tail)
    ensures forall k :: 0 < k < |[c] + tail| ==> !TagAt([c] + tail, k)
  {
    var r := [c] + tail;
    forall k | 0 < k < |r| ensures !TagAt(r, k) {
      assert r[k..] == tail[k - 1..];
      assert !TagAt(tail, k - 1);
    }
  }

  /** One pass of the substitution leaves no tag behind. */
  lemma {:induction false} StripTagsLeavesNoTag(s: string)
    ensures NoTag(StripTags(s))
    decreases |s|
  {
    if s != [] {
      var e := Find(s, '>');
      if s[0] == '<' && e >= 2 {
        StripTagsLeavesNoTag(s[e + 1..]);
        StripTagsDropsTag(s, e);
      } else {
        StripTagsLeavesNoTag(s[1..]);
        StripTagsKeepsFirst(s);
      }
    }
  }

  /** When `s` opens with a tag ending at `e`, the tag becomes a space, which opens no tag. */
  lemma StripTagsDropsTag(s: string, e: int)
    requires s != [] && s[0] == '<' && e == Find(s, '>') >= 2
    requires NoTag(StripTags(s[e + 1..]))
    ensures NoTag(StripTags(s))
  {
    var t := StripTags(s[e + 1..]);
    var r := [' '] + t;
    StripTagsAtTag(s, e);
    NoTagInTail(' ', t);
    assert r[0] == ' ';
  }

  /** A leading tag ending at `e` is replaced by one space. */
  lemma StripTagsAtTag(s: string, e: int)
    requires s != [] && s[0] == '<' && e == Find(s, '>') >= 2
    ensures StripTags(s) == [' '] + StripTags(s[e + 1..])
  {
    StripTagsUnfold(s);
  }

  lemma StripTagsUnfold(s: string)
    requires s != []
    ensures StripTags(s) == (if s[0] == '<' && Find(s, '>') >= 2 then [' '] + StripTags(s[Find(s, '>') + 1..])
                             else [s[0]] + StripTags(s[1..]))
  {
  }

  /** When `s` does not open with a tag, its first character stays and opens no tag either. */
  lemma StripTagsKeepsFirst(s: string)
    requires s != [] && !(s[0] == '<' && Find(s, '>') >= 2)
    requires NoTag(StripTags(s[1..]))
    ensures NoTag(StripTags(s))
  {
    var e := Find(s, '>');
    var tail := StripTags(s[1..]);
    var r := [s[0]] + tail;
    assert StripTags(s) == r;
    NoTagInTail(s[0], tail);
    if s[0] == '<' {
      if e == 1 {
        assert s[1..][0] == '>';
        assert tail[0] == '>';
        assert Find(r, '>') == 1;
      } else {
        assert '>' !in s[1..];
        StripTagsAddsNoGt(s[1..]);
        assert Find(r, '>') == -1;
      }
      assert r[0..] == r;
    }
  }

  /** The text `plain_text_preview` truncates: tags to spaces, whitespace collapsed, entities decoded, stripped. */
  function CleanText(lib: Lib, html: string): (r: string)
    ensures r != [] ==> !IsSpace(r[0]) && !IsSpace(r[|r| - 1])
  {
    Strip(lib.unescape(Collapse(StripTags(html))))
  }

  /** The marker appended to a truncated preview, U+2026. */
  const Ellipsis: char := '\U{2026}'

  /** `plain_text_preview(html_body, limit)`; `None` is the absent body. */
  function PlainTextPreview(lib: Lib, body: Option<string>, limit: nat): (r: string)
    ensures (body == None || body == Some("")) ==> r == ""
    ensures body.Some? && body.value != "" ==>
      var t := CleanText(lib, body.value);
      && (|t| > limit ==> r == t[..limit] + [Ellipsis])
      && (|t| <= limit ==> r == t)
    ensures |r| <= limit + 1
  {
    if body == None || body == Some("") then ""
    else
      var txt := CleanText(lib, body.value);
      if |txt| > limit then txt[..limit] + [Ellipsis] else txt
  }
}
