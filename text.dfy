/**
 * The string primitives the script uses: Python's `\s` and `\w` classes,
 * `re.sub(r"\s+", " ", s)`, `str.strip()`, `str.lower()`, `str.find`,
 * `str.split`, `str.endswith`, the `in` test on strings and slicing.
 */
module Text {

  /** Python's `str.isspace()`, which is also what `\s` and `strip()` use on `str`. */
  predicate IsSpace(c: char) {
    || c == ' ' || '\t' <= c <= '\r' || '\U{1C}' <= c <= '\U{1F}'
    || c == '\U{85}' || c == '\U{A0}' || c == '\U{1680}'
    || '\U{2000}' <= c <= '\U{200A}' || c == '\U{2028}' || c == '\U{2029}'
    || c == '\U{202F}' || c == '\U{205F}' || c == '\U{3000}'
  }

  /** `\w`, restricted to ASCII letters, digits and the underscore. */
  predicate IsWordChar(c: char) {
    'a' <= c <= 'z' || 'A' <= c <= 'Z' || '0' <= c <= '9' || c == '_'
  }

  predicate IsUpper(c: char) {
    'A' <= c <= 'Z'
  }

  /** `str.lower()` on one character; only ASCII letters change case in this model. */
  function LowerChar(c: char): (d: char)
    ensures !IsUpper(d)
    ensures IsSpace(d) <==> IsSpace(c)
    ensures IsWordChar(d) <==> IsWordChar(c)
    ensures !IsUpper(c) ==> d == c
  {
    if IsUpper(c) then (c as int + 32) as char else c
  }

  /** `str.lower()`. */
  function Lower(s: string): (r: string)
    ensures |r| == |s|
    ensures forall k :: 0 <= k < |s| ==> r[k] == LowerChar(s[k])
  {
    seq(|s|, k requires 0 <= k < |s| => LowerChar(s[k]))
  }

  /** No two whitespace characters are adjacent. */
  predicate NoDoubleSpace(s: string) {
    forall k :: 0 <= k < |s| - 1 ==> !(IsSpace(s[k]) && IsSpace(s[k + 1]))
  }

  /** Every whitespace character is a plain space. */
  predicate OnlyPlainSpaces(s: string) {
    forall k :: 0 <= k < |s| ==> IsSpace(s[k]) ==> s[k] == ' '
  }

  /** The characters of `s` that are not whitespace, in order. */
  function NonSpace(s: string): (r: string)
    ensures |r| <= |s|
  {
    if s == [] then []
    else if IsSpace(s[0]) then NonSpace(s[1..])
    else [s[0]] + NonSpace(s[1..])
  }

  lemma {:induction false} NonSpaceAppend(a: string, b: string)
    ensures NonSpace(a + b) == NonSpace(a) + NonSpace(b)
  {
    if a == [] {
      assert a + b == b;
    } else {
      assert (a + b)[1..] == a[1..] + b;
      NonSpaceAppend(a[1..], b);
    }
  }

  /** The length of the run of whitespace at the start of `s`. */
  function LeadingSpaces(s: string): (n: nat)
    ensures n <= |s|
    ensures forall j :: 0 <= j < n ==> IsSpace(s[j])
    ensures n < |s| ==> !IsSpace(s[n])
  {
    if s != [] && IsSpace(s[0]) then 1 + LeadingSpaces(s[1..]) else 0
  }

  /** The length of the run of whitespace at the end of `s`. */
  function TrailingSpaces(s: string): (n: nat)
    ensures n <= |s|
    ensures forall j :: |s| - n <= j < |s| ==> IsSpace(s[j])
    ensures n < |s| ==> !IsSpace(s[|s| - n - 1])
  {
    if s != [] && IsSpace(s[|s| - 1]) then 1 + TrailingSpaces(s[..|s| - 1]) else 0
  }

  /** `str.lstrip()`. */
  function TrimStart(s: string): string {
    s[LeadingSpaces(s)..]
  }

  /** `r` is `s[lo..hi]` and everything outside it is whitespace. */
  predicate StrippedAt(s: string, r: string, lo: int, hi: int) {
    && 0 <= lo <= hi <= |s| && r == s[lo..hi]
    && (forall j :: 0 <= j < lo ==> IsSpace(s[j]))
    && (forall j :: hi <= j < |s| ==> IsSpace(s[j]))
  }

  /** Where `str.strip()` stops: the end of `s` less its trailing whitespace. */
  function StripEnd(s: string): (hi: nat)
    ensures LeadingSpaces(s) <= hi <= |s|
  {
    |s| - TrailingSpaces(s[LeadingSpaces(s)..])
  }

  /** `str.strip()`: the part of `s` between its leading and trailing whitespace. */
  function Strip(s: string): (r: string)
    ensures r != [] ==> !IsSpace(r[0]) && !IsSpace(r[|r| - 1])
  {
    s[LeadingSpaces(s)..StripEnd(s)]
  }

  /** `str.strip()` cuts off whitespace only. */
  lemma StripBounds(s: string)
    ensures StrippedAt(s, Strip(s), LeadingSpaces(s), StripEnd(s))
  {
    var lo := LeadingSpaces(s);
    assert forall j :: StripEnd(s) <= j < |s| ==> s[j] == s[lo..][j - lo];
  }

  /** Stripping removes only whitespace. */
  lemma StripKeepsText(s: string)
    ensures NonSpace(Strip(s)) == NonSpace(s)
  {
    var lo, hi := LeadingSpaces(s), StripEnd(s);
    StripBounds(s);
    assert s == s[..lo] + s[lo..hi] + s[hi..];
    NonSpaceAppend(s[..lo] + s[lo..hi], s[hi..]);
    NonSpaceAppend(s[..lo], s[lo..hi]);
    AllSpaceHasNoNonSpace(s[..lo]);
    AllSpaceHasNoNonSpace(s[hi..]);
  }

  lemma {:induction false} AllSpaceHasNoNonSpace(s: string)
    requires forall j :: 0 <= j < |s| ==> IsSpace(s[j])
    ensures NonSpace(s) == []
  {
    if s != [] {
      AllSpaceHasNoNonSpace(s[1..]);
    }
  }

  /** `re.sub(r"\s+", " ", s)`: every maximal run of whitespace becomes one space. */
  function Collapse(s: string): (r: string)
    ensures NoDoubleSpace(r) && OnlyPlainSpaces(r)
    ensures s == [] <==> r == []
    ensures s != [] ==> r[0] == (if IsSpace(s[0]) then ' ' else s[0])
    decreases |s|
  {
    if s == [] then []
    else if IsSpace(s[0]) then [' '] + Collapse(TrimStart(s))
    else [s[0]] + Collapse(s[1..])
  }

  /** Collapsing whitespace keeps every other character, in order. */
  lemma {:induction false} CollapseKeepsText(s: string)
    ensures NonSpace(Collapse(s)) == NonSpace(s)
    decreases |s|
  {
    if s != [] {
      if IsSpace(s[0]) {
        var n := LeadingSpaces(s);
        CollapseKeepsText(s[n..]);
        assert s == s[..n] + s[n..];
        NonSpaceAppend(s[..n], s[n..]);
        AllSpaceHasNoNonSpace(s[..n]);
        NonSpaceAppend([' '], Collapse(s[n..]));
      } else {
        CollapseKeepsText(s[1..]);
        NonSpaceAppend([s[0]], Collapse(s[1..]));
      }
    }
  }

  /** Collapsing whitespace changes nothing in a string that is already collapsed. */
  lemma {:induction false} CollapseIdempotent(s: string)
    requires NoDoubleSpace(s) && OnlyPlainSpaces(s)
    ensures Collapse(s) == s
    decreases |s|
  {
    if s != [] {
      if IsSpace(s[0]) {
        assert LeadingSpaces(s) == 1 by {
          if |s| > 1 { assert !IsSpace(s[1]); }
        }
      }
      CollapseIdempotent(s[1..]);
    }
  }

  /** A string that begins with a non-space keeps its leading-whitespace count when extended. */
  lemma {:induction false} LeadingSpacesAppend(a: string, t: string)
    requires LeadingSpaces(a) < |a|
    ensures LeadingSpaces(a + t) == LeadingSpaces(a)
  {
    if IsSpace(a[0]) {
      assert (a + t)[1..] == a[1..] + t;
      LeadingSpacesAppend(a[1..], t);
    }
  }

  /** A run of whitespace followed by a non-space (or nothing) is exactly the leading whitespace. */
  lemma {:induction false} LeadingSpacesRun(w: string, b: string)
    requires forall k :: 0 <= k < |w| ==> IsSpace(w[k])
    requires b == [] || !IsSpace(b[0])
    ensures LeadingSpaces(w + b) == |w|
  {
    if w != [] {
      assert (w + b)[1..] == w[1..] + b;
      LeadingSpacesRun(w[1..], b);
    } else {
      assert w + b == b;
    }
  }

  /**
   * `re.sub(r"\s+", " ", s)` works in place: a maximal whitespace run `w`
   * between `a` and `b` becomes exactly one space between their collapses.
   */
  lemma {:induction false} CollapseRun(a: string, w: string, b: string)
    requires |w| >= 1 && forall k :: 0 <= k < |w| ==> IsSpace(w[k])
    requires a == [] || !IsSpace(a[|a| - 1])
    requires b == [] || !IsSpace(b[0])
    ensures Collapse(a + w + b) == Collapse(a) + [' '] + Collapse(b)
    decreases |a|
  {
    if a == [] {
      CollapseRunEmpty(w, b);
    } else if !IsSpace(a[0]) {
      var rest := a[1..];
      assert rest == [] || rest[|rest| - 1] == a[|a| - 1];
      CollapseRun(rest, w, b);
      CollapseRunWord(a, w, b);
    } else {
      var rest := a[LeadingSpaces(a)..];
      assert rest != [] && rest[|rest| - 1] == a[|a| - 1];
      CollapseRun(rest, w, b);
      CollapseRunSpace(a, w, b);
    }
  }

  /** The base case of `CollapseRun`: nothing before the run. */
  lemma CollapseRunEmpty(w: string, b: string)
    requires |w| >= 1 && forall k :: 0 <= k < |w| ==> IsSpace(w[k])
    requires b == [] || !IsSpace(b[0])
    ensures Collapse([] + w + b) == Collapse([]) + [' '] + Collapse(b)
  {
    var s := w + b;
    assert [] + w + b == s;
    LeadingSpacesRun(w, b);
    CollapseSpaceFirst(s);
    assert s[|w|..] == b;
  }

  /** Concatenation is associative. */
  lemma AppendAssoc<T>(a: seq<T>, b: seq<T>, c: seq<T>)
    ensures a + b + c == a + (b + c)
  {
  }

  /** The inductive step of `CollapseRun` when `a` starts with a non-space. */
  lemma CollapseRunWord(a: string, w: string, b: string)
    requires a != [] && !IsSpace(a[0])
    requires Collapse(a[1..] + w + b) == Collapse(a[1..]) + [' '] + Collapse(b)
    ensures Collapse(a + w + b) == Collapse(a) + [' '] + Collapse(b)
  {
    var x, y := Collapse(a[1..]), Collapse(b);
    AppendAssoc(a[1..], w, b);
    AppendAssoc(a, w, b);
    CollapseWordStep(a, w + b, x + [' '] + y);
    AppendAssoc([a[0]], x + [' '], y);
    AppendAssoc([a[0]], x, [' ']);
  }

  /** The inductive step of `CollapseRun` when `a` starts with whitespace. */
  lemma CollapseRunSpace(a: string, w: string, b: string)
    requires a != [] && IsSpace(a[0]) && LeadingSpaces(a) < |a|
    requires Collapse(a[LeadingSpaces(a)..] + w + b) == Collapse(a[LeadingSpaces(a)..]) + [' '] + Collapse(b)
    ensures Collapse(a + w + b) == Collapse(a) + [' '] + Collapse(b)
  {
    var n := LeadingSpaces(a);
    var x, y := Collapse(a[n..]), Collapse(b);
    AppendAssoc(a[n..], w, b);
    AppendAssoc(a, w, b);
    CollapseSpaceStep(a, w + b, x + [' '] + y);
    AppendAssoc([' '], x + [' '], y);
    AppendAssoc([' '], x, [' ']);
  }

  /** One step of `Collapse` over `a + t` when `a` starts with a non-space. */
  lemma CollapseWordStep(a: string, t: string, r: string)
    requires a != [] && !IsSpace(a[0])
    requires Collapse(a[1..] + t) == r
    ensures Collapse(a + t) == [a[0]] + r
    ensures Collapse(a) == [a[0]] + Collapse(a[1..])
  {
    var s := a + t;
    assert s[0] == a[0] && s[1..] == a[1..] + t;
    CollapseWordCons(s);
    CollapseWordCons(a);
  }

  /** One step of `Collapse` over `a + t` when `a` starts with whitespace but is not all whitespace. */
  lemma CollapseSpaceStep(a: string, t: string, r: string)
    requires a != [] && IsSpace(a[0]) && LeadingSpaces(a) < |a|
    requires Collapse(a[LeadingSpaces(a)..] + t) == r
    ensures Collapse(a + t) == [' '] + r
    ensures Collapse(a) == [' '] + Collapse(a[LeadingSpaces(a)..])
  {
    var n := LeadingSpaces(a);
    var s := a + t;
    LeadingSpacesAppend(a, t);
    assert s[0] == a[0] && s[n..] == a[n..] + t;
    CollapseSpaceFirst(s);
    CollapseSpaceFirst(a);
  }

  /** The first step of `Collapse` on a string that starts with whitespace. */
  lemma CollapseSpaceFirst(s: string)
    requires s != [] && IsSpace(s[0])
    ensures Collapse(s) == [' '] + Collapse(TrimStart(s))
  {
  }

  /** The first step of `Collapse` on a string that starts with a non-space. */
  lemma CollapseWordCons(s: string)
    requires s != [] && !IsSpace(s[0])
    ensures Collapse(s) == [s[0]] + Collapse(s[1..])
  {
  }

  /** Lower-casing commutes with dropping whitespace. */
  lemma {:induction false} NonSpaceLower(s: string)
    ensures NonSpace(Lower(s)) == Lower(NonSpace(s))
  {
    if s != [] {
      var l := Lower(s);
      assert l[1..] == Lower(s[1..]);
      NonSpaceLower(s[1..]);
      if !IsSpace(s[0]) {
        assert Lower([s[0]] + NonSpace(s[1..])) == [LowerChar(s[0])] + Lower(NonSpace(s[1..]));
      }
    }
  }

  /** `w in s` for strings, at a given position. */
  predicate StartsAt(s: string, i: int, w: string) {
    0 <= i && i + |w| <= |s| && s[i..i + |w|] == w
  }

  /** `w` starts at `i` when its characters match one by one. */
  lemma StartsAtChars(s: string, i: nat, w: string)
    requires i + |w| <= |s| && forall k :: 0 <= k < |w| ==> s[i + k] == w[k]
    ensures StartsAt(s, i, w)
  {
  }

  /** Python's `w in s` for strings. */
  predicate Contains(s: string, w: string) {
    exists i :: 0 <= i <= |s| - |w| && StartsAt(s, i, w)
  }

  /** `s.endswith(w)`. */
  predicate EndsWith(s: string, w: string) {
    |w| <= |s| && s[|s| - |w|..] == w
  }

  /** `s.find(c)`: the index of the first `c`, or -1. */
  function Find(s: string, c: char): (i: int)
    ensures -1 <= i < |s|
    ensures i >= 0 ==> s[i] == c
    ensures i < 0 ==> c !in s
    ensures i >= 0 ==> c !in s[..i]
  {
    if s == [] then -1
    else if s[0] == c then 0
    else var k := Find(s[1..], c); if k < 0 then -1 else k + 1
  }

  /** Python's `s[start:end]` for integer bounds, negative ones counting from the end. */
  function PySlice(s: string, start: int, end: int): string {
    var n := |s|;
    var lo := if start < 0 then (if start + n < 0 then 0 else start + n) else if start > n then n else start;
    var hi := if end < 0 then (if end + n < 0 then 0 else end + n) else if end > n then n else end;
    if lo < hi then s[lo..hi] else ""
  }

  /** `s.split(c)`. */
  function Split(s: string, c: char): (parts: seq<string>)
    ensures |parts| >= 1
    decreases |s|
  {
    var i := Find(s, c);
    if i < 0 then [s] else [s[..i]] + Split(s[i + 1..], c)
  }

  /** No part of a split contains the separator. */
  lemma {:induction false} SplitNoSeparator(s: string, c: char)
    ensures forall k :: 0 <= k < |Split(s, c)| ==> c !in Split(s, c)[k]
    decreases |s|
  {
    var i := Find(s, c);
    if i >= 0 {
      SplitNoSeparator(s[i + 1..], c);
      SplitAt(s, c, i);
      var rest := Split(s[i + 1..], c);
      assert forall k :: 1 <= k <= |rest| ==> ([s[..i]] + rest)[k] == rest[k - 1];
    }
  }

  /** `c.join(parts)`. */
  function Join(parts: seq<string>, c: char): string
    requires |parts| >= 1
  {
    if |parts| == 1 then parts[0] else parts[0] + [c] + Join(parts[1..], c)
  }

  /** Splitting loses nothing: joining the parts gives back the string. */
  lemma {:induction false} JoinSplit(s: string, c: char)
    ensures Join(Split(s, c), c) == s
    decreases |s|
  {
    var i := Find(s, c);
    if i >= 0 {
      JoinSplit(s[i + 1..], c);
      JoinSplitGlue(s, c, i);
    }
  }

  /** The inductive step of `JoinSplit`: the claim for the text after the first separator gives it for `s`. */
  lemma JoinSplitGlue(s: string, c: char, i: int)
    requires i == Find(s, c) >= 0
    requires Join(Split(s[i + 1..], c), c) == s[i + 1..]
    ensures Join(Split(s, c), c) == s
  {
    JoinSplitStep(s, c, i);
    Reassemble(s, i, c);
  }

  /** Cutting `s` around position `i` and putting `s[i]` back gives `s`. */
  lemma Reassemble(s: string, i: int, c: char)
    requires 0 <= i < |s| && s[i] == c
    ensures s[..i] + [c] + s[i + 1..] == s
  {
    assert s[..i] + [c] == s[..i + 1];
  }

  /** Splitting at the first separator `i`, then joining, puts `c` back between `s[..i]` and the rest. */
  lemma JoinSplitStep(s: string, c: char, i: int)
    requires i == Find(s, c) >= 0
    ensures Join(Split(s, c), c) == s[..i] + [c] + Join(Split(s[i + 1..], c), c)
  {
    SplitAt(s, c, i);
    JoinCons(s[..i], Split(s[i + 1..], c), c);
  }

  /** At the first separator `i`, the split is the text before it followed by the split of the rest. */
  lemma SplitAt(s: string, c: char, i: int)
    requires i == Find(s, c) >= 0
    ensures Split(s, c) == [s[..i]] + Split(s[i + 1..], c)
  {
  }

  /** Joining a part in front of at least one more part puts the separator between them. */
  lemma JoinCons(head: string, tail: seq<string>, c: char)
    requires |tail| >= 1
    ensures Join([head] + tail, c) == head + [c] + Join(tail, c)
  {
    assert ([head] + tail)[1..] == tail;
  }

  /** Joining parts that contain no separator and splitting again gives back the parts. */
  lemma {:induction false} SplitJoin(parts: seq<string>, c: char)
    requires |parts| >= 1
    requires forall k :: 0 <= k < |parts| ==> c !in parts[k]
    ensures Split(Join(parts, c), c) == parts
    decreases |parts|
  {
    if |parts| > 1 {
      SplitJoin(parts[1..], c);
      SplitJoinGlue(parts, c);
    }
  }

  /** The inductive step of `SplitJoin`: the claim for the parts after the first gives it for all of them. */
  lemma SplitJoinGlue(parts: seq<string>, c: char)
    requires |parts| > 1 && c !in parts[0]
    requires Split(Join(parts[1..], c), c) == parts[1..]
    ensures Split(Join(parts, c), c) == parts
  {
    var p0, rest := parts[0], Join(parts[1..], c);
    var s := p0 + [c] + rest;
    assert Join(parts, c) == s;
    FindAfterPart(p0, c, rest);
    assert s[..|p0|] == p0 && s[|p0| + 1..] == rest;
    assert Split(s, c) == [p0] + parts[1..];
  }

  /** The first separator in `p + [c] + rest` is the one after `p`, when `p` has none. */
  lemma FindAfterPart(p: string, c: char, rest: string)
    requires c !in p
    ensures Find(p + [c] + rest, c) == |p|
  {
    var s := p + [c] + rest;
    assert s[|p|] == c;
    assert forall j :: 0 <= j < |p| ==> s[j] == p[j];
  }

  /** Every part is at most as long as the joined string. */
  lemma {:induction false} JoinCovers(parts: seq<string>, c: char, k: nat)
    requires k < |parts|
    ensures |parts[k]| <= |Join(parts, c)|
    decreases |parts|
  {
    if |parts| > 1 && k > 0 {
      JoinCovers(parts[1..], c, k - 1);
    }
  }

  /** A string that neither starts nor ends with whitespace is its own `strip()`. */
  lemma StripUnpadded(s: string)
    requires s != [] && !IsSpace(s[0]) && !IsSpace(s[|s| - 1])
    ensures Strip(s) == s
  {
    assert LeadingSpaces(s) == 0;
    assert TrailingSpaces(s) == 0;
  }
}
