/**
 * Whole-word, case-insensitive keyword search: what `/\b(W1|W2|...)\b/i.test(s)`
 * computes for a JavaScript regular expression without the `u` flag.
 *
 * - `\b` holds between a word character `[A-Za-z0-9_]` and a non-word character
 *   (or an end of the string);
 * - `/i` compares ASCII letters without regard to case; no other character
 *   folds onto an ASCII letter (the canonicalisation refuses to map a non-ASCII
 *   character to an ASCII one).
 *
 * `Test` is the engine's scan: try every start position from the left and,
 * at each, every alternative in order. `ContainsAnyWholeWord` is the
 * declarative meaning, and `Test`'s contract ties the two together.
 */
module WordMatch {
  import opened JsText

  predicate IsWordChar(c: char) {
    ('A' <= c <= 'Z') || ('a' <= c <= 'z') || ('0' <= c <= '9') || c == '_'
  }

  predicate IsAsciiLetter(c: char) {
    ('A' <= c <= 'Z') || ('a' <= c <= 'z')
  }

  /** The ASCII case folding `/i` applies to the patterns used here. */
  function AsciiUpper(c: char): (u: char)
    ensures IsWordChar(u) <==> IsWordChar(c)
    ensures IsAsciiLetter(u) <==> IsAsciiLetter(c)
  {
    if 'a' <= c <= 'z' then (c as int - 32) as char else c
  }

  /** A pattern alternative made only of word characters and starting with a letter, like `DROP` or `pg_sleep`. */
  predicate IsKeyword(w: string) {
    && w != []
    && IsAsciiLetter(w[0])
    && forall j :: 0 <= j < |w| ==> IsWordChar(w[j])
  }

  /** `\b` at position `i` (between `s[i-1]` and `s[i]`). */
  predicate IsBoundary(s: string, i: nat)
    requires i <= |s|
  {
    (0 < i && IsWordChar(s[i - 1])) != (i < |s| && IsWordChar(s[i]))
  }

  /** `w` occurs at position `i`, letters compared without regard to case. */
  predicate MatchesAt(s: string, i: nat, w: string) {
    && i + |w| <= |s|
    && forall j :: 0 <= j < |w| ==> AsciiUpper(s[i + j]) == AsciiUpper(w[j])
  }

  /** `\bw\b` matches at position `i`. */
  predicate WholeWordAt(s: string, i: nat, w: string) {
    && MatchesAt(s, i, w)
    && IsBoundary(s, i)
    && IsBoundary(s, i + |w|)
  }

  ghost predicate ContainsWholeWord(s: string, w: string) {
    exists i: nat :: i <= |s| && WholeWordAt(s, i, w)
  }

  ghost predicate ContainsAnyWholeWord(s: string, ws: seq<string>) {
    exists w :: w in ws && ContainsWholeWord(s, w)
  }

  /** The alternatives of `\b(w0|w1|...)\b` tried in order at start position `i`. */
  function AlternativesAt(s: string, i: nat, ws: seq<string>): (r: bool)
    requires i <= |s|
    ensures r <==> exists w :: w in ws && WholeWordAt(s, i, w)
  {
    if ws == [] then false
    else WholeWordAt(s, i, ws[0]) || AlternativesAt(s, i, ws[1..])
  }

  /** The engine's scan from start position `i` rightwards. */
  function SearchFrom(s: string, i: nat, ws: seq<string>): (r: bool)
    requires i <= |s|
    ensures r <==> exists k: nat, w :: i <= k <= |s| && w in ws && WholeWordAt(s, k, w)
    decreases |s| - i
  {
    if AlternativesAt(s, i, ws) then true
    else if i == |s| then false
    else SearchFrom(s, i + 1, ws)
  }

  /** `RegExp.prototype.test` for `/\b(ws[0]|ws[1]|...)\b/i` (no `g` flag, so no state between calls). */
  function Test(s: string, ws: seq<string>): (r: bool)
    ensures r <==> ContainsAnyWholeWord(s, ws)
  {
    var r := SearchFrom(s, 0, ws);
    assert r ==> ContainsAnyWholeWord(s, ws) by {
      if r {
        var k: nat, w :| k <= |s| && w in ws && WholeWordAt(s, k, w);
        assert ContainsWholeWord(s, w);
      }
    }
    r
  }

  predicate AllNonWord(s: string) {
    forall i :: 0 <= i < |s| ==> !IsWordChar(s[i])
  }

  predicate AllWordChars(s: string) {
    forall i :: 0 <= i < |s| ==> IsWordChar(s[i])
  }

  predicate AllKeywords(ws: seq<string>) {
    forall w :: w in ws ==> IsKeyword(w)
  }

  /** Every character of a keyword match is a word character. */
  lemma MatchIsWordChars(s: string, i: nat, w: string, j: nat)
    requires IsKeyword(w) && MatchesAt(s, i, w) && j < |w|
    ensures IsWordChar(s[i + j])
  {
    assert AsciiUpper(s[i + j]) == AsciiUpper(w[j]);
  }

  /**
   * A non-word character splits a string for the purpose of whole-word search:
   * a keyword matches `a + [c] + b` exactly where it matches inside `a` or inside `b`.
   */
  lemma WholeWordAtSplit(a: string, c: char, b: string, i: nat, w: string)
    requires IsKeyword(w) && !IsWordChar(c)
    ensures WholeWordAt(a + [c] + b, i, w) <==>
              (i + |w| <= |a| && WholeWordAt(a, i, w)) || (i > |a| && WholeWordAt(b, i - |a| - 1, w))
  {
    var x := a + [c] + b;
    if i + |w| <= |a| {
      if MatchesAt(x, i, w) || MatchesAt(a, i, w) {
        assert x[i..i + |w|] == a[i..i + |w|];
        assert MatchesAt(x, i, w) && MatchesAt(a, i, w);
        MatchIsWordChars(a, i, w, |w| - 1);
        assert i < |a|;
        assert IsBoundary(x, i) == IsBoundary(a, i);
        assert IsBoundary(x, i + |w|) == IsBoundary(a, i + |w|);
      }
    } else if i <= |a| {
      if MatchesAt(x, i, w) {
        MatchIsWordChars(x, i, w, |a| - i);
      }
    } else {
      var k: nat := i - |a| - 1;
      if MatchesAt(x, i, w) || MatchesAt(b, k, w) {
        assert x[i..i + |w|] == b[k..k + |w|];
        assert MatchesAt(x, i, w) && MatchesAt(b, k, w);
        MatchIsWordChars(b, k, w, 0);
        assert IsBoundary(x, i) == IsBoundary(b, k);
        assert IsBoundary(x, i + |w|) == IsBoundary(b, k + |w|);
      }
    }
  }

  lemma ContainsWholeWordSplit(a: string, c: char, b: string, w: string)
    requires IsKeyword(w) && !IsWordChar(c)
    ensures ContainsWholeWord(a + [c] + b, w) <==> ContainsWholeWord(a, w) || ContainsWholeWord(b, w)
  {
    var x := a + [c] + b;
    if ContainsWholeWord(x, w) {
      var i: nat :| i <= |x| && WholeWordAt(x, i, w);
      WholeWordAtSplit(a, c, b, i, w);
      if i + |w| <= |a| {
        assert ContainsWholeWord(a, w);
      } else {
        assert WholeWordAt(b, i - |a| - 1, w);
      }
    }
    if ContainsWholeWord(a, w) {
      var i: nat :| i <= |a| && WholeWordAt(a, i, w);
      WholeWordAtSplit(a, c, b, i, w);
      assert WholeWordAt(x, i, w);
    }
    if ContainsWholeWord(b, w) {
      var k: nat :| k <= |b| && WholeWordAt(b, k, w);
      WholeWordAtSplit(a, c, b, |a| + 1 + k, w);
      assert WholeWordAt(x, |a| + 1 + k, w);
    }
  }

  /** The split lemma for a whole list of alternatives. */
  lemma ContainsAnySplit(a: string, c: char, b: string, ws: seq<string>)
    requires AllKeywords(ws) && !IsWordChar(c)
    ensures ContainsAnyWholeWord(a + [c] + b, ws) <==> ContainsAnyWholeWord(a, ws) || ContainsAnyWholeWord(b, ws)
  {
    forall w | w in ws
      ensures ContainsWholeWord(a + [c] + b, w) <==> ContainsWholeWord(a, w) || ContainsWholeWord(b, w)
    {
      ContainsWholeWordSplit(a, c, b, w);
    }
  }

  lemma NothingInEmpty(ws: seq<string>)
    requires AllKeywords(ws)
    ensures !ContainsAnyWholeWord([], ws)
  {
  }

  /** Non-word characters around a text do not change which keywords it contains as whole words. */
  lemma {:induction false} ContainsAnyPadded(lead: string, t: string, tail: string, ws: seq<string>)
    requires AllKeywords(ws) && AllNonWord(lead) && AllNonWord(tail)
    ensures ContainsAnyWholeWord(lead + t + tail, ws) <==> ContainsAnyWholeWord(t, ws)
    decreases |lead| + |tail|
  {
    if lead != [] {
      assert lead + t + tail == [] + [lead[0]] + (lead[1..] + t + tail);
      ContainsAnySplit([], lead[0], lead[1..] + t + tail, ws);
      NothingInEmpty(ws);
      ContainsAnyPadded(lead[1..], t, tail, ws);
    } else if tail != [] {
      var last := |tail| - 1;
      assert lead + t + tail == (lead + t + tail[..last]) + [tail[last]] + [];
      ContainsAnySplit(lead + t + tail[..last], tail[last], [], ws);
      NothingInEmpty(ws);
      ContainsAnyPadded(lead, t, tail[..last], ws);
    } else {
      assert lead + t + tail == t;
    }
  }

  /**
   * In a string made only of word characters, `\bw\b` can only match the whole
   * string, so a keyword is found exactly when it equals the string up to case.
   */
  lemma SingleWordContains(x: string, w: string)
    requires IsKeyword(w) && x != [] && AllWordChars(x)
    ensures ContainsWholeWord(x, w) <==> |x| == |w| && MatchesAt(x, 0, w)
  {
    if ContainsWholeWord(x, w) {
      var i: nat :| i <= |x| && WholeWordAt(x, i, w);
      assert i == 0;
      assert i + |w| == |x|;
    }
    if |x| == |w| && MatchesAt(x, 0, w) {
      assert WholeWordAt(x, 0, w);
    }
  }

  /** A text without ASCII letters contains no keyword. */
  lemma NoLettersNoKeyword(x: string, ws: seq<string>)
    requires AllKeywords(ws)
    requires forall i :: 0 <= i < |x| ==> !IsAsciiLetter(x[i])
    ensures !ContainsAnyWholeWord(x, ws)
  {
  }

  lemma WhitespaceIsNonWord(s: string)
    requires AllWhitespace(s)
    ensures AllNonWord(s)
  {
  }

  lemma ContainsAnySingleton(s: string, w: string)
    ensures ContainsAnyWholeWord(s, [w]) <==> ContainsWholeWord(s, w)
  {
    assert w in [w];
  }

  /** The length and upper-cased first letter of a word: two words that match case-insensitively share it. */
  function Shape(w: string): (int, char)
    requires w != []
  {
    (|w|, AsciiUpper(w[0]))
  }

  /** Every keyword's shape is among `shapes`. */
  predicate ShapesCover(ws: seq<string>, shapes: set<(int, char)>) {
    forall w :: w in ws ==> w != [] && Shape(w) in shapes
  }

  /** A word whose shape no keyword has is none of the keywords. */
  lemma ShapeRulesOut(x: string, ws: seq<string>, shapes: set<(int, char)>)
    requires AllKeywords(ws) && ShapesCover(ws, shapes)
    requires AllWordChars(x) && (x == [] || Shape(x) !in shapes)
    ensures !ContainsAnyWholeWord(x, ws)
  {
    if x == [] {
      NothingInEmpty(ws);
    } else {
      forall w | w in ws
        ensures !ContainsWholeWord(x, w)
      {
        SingleWordContains(x, w);
        assert MatchesAt(x, 0, w) ==> AsciiUpper(x[0 + 0]) == AsciiUpper(w[0]);
      }
    }
  }

  /** Words joined by single separators: `parts[0] + seps[0] + parts[1] + ...`. */
  function Join(parts: seq<string>, seps: seq<char>): (r: string)
    requires |seps| + 1 == |parts|
    ensures |r| >= |parts[0]| && r[..|parts[0]|] == parts[0]
  {
    if |parts| == 1 then parts[0]
    else parts[0] + [seps[0]] + Join(parts[1..], seps[1..])
  }

  /** A text built from words of foreign shape and non-word separators contains none of the keywords. */
  lemma {:induction false} NoListedWordInJoin(parts: seq<string>, seps: seq<char>, ws: seq<string>, shapes: set<(int, char)>)
    requires AllKeywords(ws) && ShapesCover(ws, shapes) && |seps| + 1 == |parts|
    requires AllNonWord(seps)
    requires forall i :: 0 <= i < |parts| ==> AllWordChars(parts[i]) && (parts[i] == [] || Shape(parts[i]) !in shapes)
    ensures !ContainsAnyWholeWord(Join(parts, seps), ws)
  {
    ShapeRulesOut(parts[0], ws, shapes);
    if |parts| > 1 {
      assert forall i :: 0 <= i < |parts| - 1 ==> parts[1..][i] == parts[i + 1];
      NoListedWordInJoin(parts[1..], seps[1..], ws, shapes);
      ContainsAnySplit(parts[0], seps[0], Join(parts[1..], seps[1..]), ws);
    }
  }
}
