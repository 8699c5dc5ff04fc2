/**
 * The handful of regular expressions the supervisor uses, as an explicit
 * table of pattern shapes rather than a general regex engine. Each shape has
 * a matcher anchored at the start of a string that follows the JavaScript
 * semantics of that regex (greedy `\s*`, optional quotes taken when present,
 * lazy `(.*?)` that stops at the first closing quote and never crosses a line
 * terminator), and `ReplaceAll` is `String.prototype.replace` with a global
 * regex: scan left to right, replace each match, resume after it.
 */
module Patterns {
  import opened Text
  import opened Scanning

  datatype Pattern =
    /** A regex without metacharacters other than escaped dots, e.g. `/process\.exit/g`. */
    | Literal(text: string)
    /** `/['"]?phrase['"]?/gi`: a phrase in any letter case, with an optional quote on either side. */
    | QuotedPhrase(phrase: string)
    /** `/callee\(['"](.*?)['"]\)/g` with `opening` = `callee(`: a call with one quoted argument. */
    | CallWithString(opening: string)
    /** `/name\s*=\s*['"](.*?)['"]/g`: an assignment of a quoted string. */
    | AssignString(name: string)
    /** `/require\s*\(\s*['"]module['"]\s*\)/g`. */
    | RequireModule(moduleName: string)

  /** One pass of a rewrite table: every match of `pattern` becomes `replacement`. */
  datatype Rewrite = Rewrite(pattern: Pattern, replacement: string)

  predicate IsQuote(c: char) {
    c == '\'' || c == '"'
  }

  /** The end of a greedy `\s*` run that starts at `i`. */
  function SkipSpaces(s: string, i: nat): (j: nat)
    requires i <= |s|
    ensures i <= j <= |s|
    ensures forall k | i <= k < j :: IsWhitespace(s[k])
    ensures j == |s| || !IsWhitespace(s[j])
    decreases |s| - i
  {
    if i < |s| && IsWhitespace(s[i]) then SkipSpaces(s, i + 1) else i
  }

  /**
   * The end of `(.*?)['"]` (followed by `\)` when `paren`) whose lazy group
   * starts at `i`: the first closing quote reachable without crossing a line
   * terminator; 0 when there is none.
   */
  function LazyClose(s: string, i: nat, paren: bool): (e: nat)
    requires i <= |s|
    ensures e == 0 || i < e <= |s|
    decreases |s| - i
  {
    if i == |s| then 0
    else if IsQuote(s[i]) && (!paren || (i + 1 < |s| && s[i + 1] == ')')) then
      (if paren then i + 2 else i + 1)
    else if IsLineTerminator(s[i]) then 0
    else LazyClose(s, i + 1, paren)
  }

  /**
   * The length of the match of `p` anchored at the start of `s`, or 0 when
   * there is none (no pattern of the tables matches the empty string).
   */
  function MatchEnd(p: Pattern, s: string): (e: nat)
    ensures e <= |s|
  {
    match p
    case Literal(text) =>
      if text != [] && StartsWith(s, text) then |text| else 0
    case QuotedPhrase(phrase) =>
      var q := if 0 < |s| && IsQuote(s[0]) && StartsWithIgnoringCase(s[1..], phrase) then 1 else 0;
      if q == 1 || StartsWithIgnoringCase(s, phrase) then
        var e := q + |phrase|;
        if e < |s| && IsQuote(s[e]) then e + 1 else e
      else 0
    case CallWithString(opening) =>
      var k := |opening|;
      if StartsWith(s, opening) && k < |s| && IsQuote(s[k]) then LazyClose(s, k + 1, true) else 0
    case AssignString(name) =>
      if !StartsWith(s, name) then 0
      else
        var a := SkipSpaces(s, |name|);
        if a < |s| && s[a] == '=' then
          var b := SkipSpaces(s, a + 1);
          if b < |s| && IsQuote(s[b]) then LazyClose(s, b + 1, false) else 0
        else 0
    case RequireModule(m) =>
      var word := "require";
      if !StartsWith(s, word) then 0
      else
        var a := SkipSpaces(s, |word|);
        if a < |s| && s[a] == '(' then
          var b := SkipSpaces(s, a + 1);
          var c := b + 1 + |m|;
          if c < |s| && IsQuote(s[b]) && s[b + 1..c] == m && IsQuote(s[c]) then
            var d := SkipSpaces(s, c + 1);
            if d < |s| && s[d] == ')' then d + 1 else 0
          else 0
        else 0
  }


  /** `p` as an anchored matcher for the global-replace scan. */
  function MatcherOf(p: Pattern): Matcher {
    s => MatchEnd(p, s)
  }

  /** No match of `p` starts anywhere in `s`. */
  predicate NoMatch(p: Pattern, s: string) {
    forall i | 0 <= i < |s| :: MatchEnd(p, s[i..]) == 0
  }

  /** `s.replace(/p/g, replacement)`, the replacement taken literally. */
  function ReplaceAll(s: string, p: Pattern, replacement: string): string {
    Scan(s, MatcherOf(p), replacement)
  }

  /** Applying the passes of `rewrites` in order, as a `forEach` over the table does. */
  function ApplyRewrites(s: string, rewrites: seq<Rewrite>): string
    decreases |rewrites|
  {
    if rewrites == [] then s
    else
      var last := rewrites[|rewrites| - 1];
      ReplaceAll(ApplyRewrites(s, rewrites[..|rewrites| - 1]), last.pattern, last.replacement)
  }

  /** A pass that finds no match returns its input unchanged. */
  lemma ReplaceAllWithoutMatch(s: string, p: Pattern, replacement: string)
    requires NoMatch(p, s)
    ensures ReplaceAll(s, p, replacement) == s
  {
    var m := MatcherOf(p);
    assert Silent(m, s) by {
      forall i | 0 <= i < |s| ensures m(s[i..]) == 0 {
        assert m(s[i..]) == MatchEnd(p, s[i..]);
      }
    }
    ScanSilent(s, m, replacement);
  }

  /** Where no match starts, a pass copies one character and moves on. */
  lemma ReplaceAllStep(s: string, p: Pattern, r: string)
    requires s != [] && MatchEnd(p, s) == 0
    ensures ReplaceAll(s, p, r) == [s[0]] + ReplaceAll(s[1..], p, r)
  {
    ScanStep(s, MatcherOf(p), r);
  }

  /** Where a match starts, a pass emits the replacement and resumes after the match. */
  lemma ReplaceAllMatch(s: string, p: Pattern, r: string)
    requires 0 < MatchEnd(p, s)
    ensures ReplaceAll(s, p, r) == r + ReplaceAll(s[MatchEnd(p, s)..], p, r)
  {
    ScanMatch(s, MatcherOf(p), r);
  }

  /** A table none of whose patterns matches leaves the text unchanged. */
  lemma {:induction false} ApplyRewritesWithoutMatch(s: string, rewrites: seq<Rewrite>)
    requires forall k | 0 <= k < |rewrites| :: NoMatch(rewrites[k].pattern, s)
    ensures ApplyRewrites(s, rewrites) == s
  {
    if rewrites != [] {
      var front := rewrites[..|rewrites| - 1];
      assert forall k | 0 <= k < |front| :: front[k] == rewrites[k];
      ApplyRewritesWithoutMatch(s, front);
      ReplaceAllWithoutMatch(s, rewrites[|rewrites| - 1].pattern, rewrites[|rewrites| - 1].replacement);
    }
  }

  /** A literal pattern matches somewhere exactly when its text occurs. */
  lemma LiteralNoMatch(text: string, s: string)
    requires text != []
    ensures NoMatch(Literal(text), s) <==> !Occurs(text, s)
  {
    if !NoMatch(Literal(text), s) {
      var i :| 0 <= i < |s| && MatchEnd(Literal(text), s[i..]) != 0;
      OccursWithin(text, s, i);
    }
    if Occurs(text, s) {
      var i :| 0 <= i <= |s| && StartsWith(s[i..], text);
      assert i < |s|;
      assert MatchEnd(Literal(text), s[i..]) != 0;
    }
  }

  /** The literal pattern of a non-empty text matches every occurrence of that text. */
  lemma LiteralCatches(text: string)
    requires text != []
    ensures Catches(MatcherOf(Literal(text)), text)
  {
    var m := MatcherOf(Literal(text));
    forall x | StartsWith(x, text) ensures 0 < m(x) <= |x| {
      assert m(x) == MatchEnd(Literal(text), x);
    }
  }

  /**
   * A pass keeps `t` out of its output when its replacement is unbordered
   * with respect to `t`, and either the input is already free of `t` or the
   * pass itself is the literal pattern `t`.
   */
  lemma ReplaceAllFree(s: string, p: Pattern, r: string, t: string)
    requires Unbordered(r, t)
    requires !Occurs(t, s) || p == Literal(t)
    ensures !Occurs(t, ReplaceAll(s, p, r))
  {
    if p == Literal(t) {
      LiteralCatches(t);
    }
    ScanFree(s, MatcherOf(p), r, t);
  }

  /*
   * Every placeholder pattern is a quote-free text, bare or between optional
   * quotes. A match of such a pattern cannot run into a quote, so in a text
   * cut into pieces at quotes each match lies inside one piece (possibly
   * after the quote that opens it).
   */

  /** The text a `Literal` or `QuotedPhrase` pattern looks for. */
  function Body(p: Pattern): string {
    match p
    case Literal(text) => text
    case QuotedPhrase(phrase) => phrase
    case _ => []
  }

  predicate QuoteFree(s: string) {
    forall i | 0 <= i < |s| :: !IsQuote(s[i])
  }

  predicate QuoteFreeText(p: Pattern) {
    (p.Literal? || p.QuotedPhrase?) && Body(p) != [] && QuoteFree(Body(p))
  }

  /** Case folding neither makes nor removes a quote. */
  lemma LowerQuote(c: char)
    ensures IsQuote(LowerAscii(c)) <==> IsQuote(c)
  {
  }

  /** A match that starts in `x` and would reach the quote that begins `y` lies within `x`. */
  lemma MatchStopsAtQuote(p: Pattern, x: string, y: string)
    requires QuoteFreeText(p) && x != [] && y != [] && IsQuote(y[0])
    ensures MatchEnd(p, x + y) > 0 ==> MatchEnd(p, x) > 0
  {
    var s := x + y;
    var t := Body(p);
    if MatchEnd(p, s) > 0 {
      if p.Literal? {
        if |t| <= |x| {
          assert x[..|t|] == s[..|t|];
        } else {
          assert s[..|t|][|x|] == y[0];
        }
      } else if 0 < |s| && IsQuote(s[0]) && StartsWithIgnoringCase(s[1..], t) {
        if |t| + 1 <= |x| {
          assert x[1..][..|t|] == s[1..][..|t|];
        } else {
          assert s[1..][..|t|][|x| - 1] == y[0];
          LowerQuote(y[0]);
          LowerQuote(t[|x| - 1]);
        }
      } else {
        if |t| <= |x| {
          assert x[..|t|] == s[..|t|];
        } else {
          assert s[..|t|][|x|] == y[0];
          LowerQuote(y[0]);
          LowerQuote(t[|x|]);
        }
      }
    }
  }

  /** Two pieces without a match, the second starting with a quote, make a text without one. */
  lemma NoMatchJoin(p: Pattern, x: string, y: string)
    requires QuoteFreeText(p) && NoMatch(p, x) && NoMatch(p, y)
    requires y == [] || IsQuote(y[0])
    ensures NoMatch(p, x + y)
  {
    forall i | 0 <= i < |x + y| ensures MatchEnd(p, (x + y)[i..]) == 0 {
      if i < |x| {
        assert (x + y)[i..] == x[i..] + y;
        if y == [] {
          assert x[i..] + y == x[i..];
        } else {
          MatchStopsAtQuote(p, x[i..], y);
        }
      } else {
        assert (x + y)[i..] == y[i - |x|..];
      }
    }
  }

  /** A quote in front of a piece without a match opens none. */
  lemma QuoteThenNoMatch(p: Pattern, c: char, s: string)
    requires QuoteFreeText(p) && IsQuote(c) && NoMatch(p, s)
    ensures NoMatch(p, [c] + s)
  {
    var t := Body(p);
    forall i | 0 <= i < |[c] + s| ensures MatchEnd(p, ([c] + s)[i..]) == 0 {
      if i == 0 {
        assert ([c] + s)[0..] == [c] + s;
        if p.Literal? {
          if |t| <= |[c] + s| {
            assert ([c] + s)[..|t|][0] == c;
          }
        } else {
          if s != [] {
            assert s[0..] == s;
          }
          if |t| <= |[c] + s| {
            assert ([c] + s)[..|t|][0] == c;
            LowerQuote(c);
            LowerQuote(t[0]);
          }
          assert ([c] + s)[1..] == s;
        }
      } else {
        assert ([c] + s)[i..] == s[i - 1..];
      }
    }
  }

  /** A text shorter than the pattern's text holds no match. */
  lemma ShortNoMatch(p: Pattern, s: string)
    requires QuoteFreeText(p) && |s| < |Body(p)|
    ensures NoMatch(p, s)
  {
  }

  /** The lazy group of a call finds no closing `')` where only the last character can be a quote. */
  lemma {:induction false} LazyCallCloseNone(s: string, i: nat)
    requires i <= |s|
    requires forall j | i <= j < |s| - 1 :: !IsQuote(s[j])
    ensures LazyClose(s, i, true) == 0
    decreases |s| - i
  {
    if i < |s| {
      LazyCallCloseNone(s, i + 1);
    }
  }

  /** A pass copies a prefix in which no match of its pattern starts. */
  lemma ReplaceAllSkip(x: string, y: string, p: Pattern, r: string)
    requires forall i | 0 <= i < |x| :: MatchEnd(p, (x + y)[i..]) == 0
    ensures ReplaceAll(x + y, p, r) == x + ReplaceAll(y, p, r)
  {
    var m := MatcherOf(p);
    forall i | 0 <= i < |x| ensures m((x + y)[i..]) == 0 {
      assert m((x + y)[i..]) == MatchEnd(p, (x + y)[i..]);
    }
    ScanSkip(x, y, m, r);
  }

  /** A pass copies a piece without a match when a quote follows it. */
  lemma ReplaceAllSkipPiece(p: Pattern, x: string, y: string, r: string)
    requires QuoteFreeText(p) && NoMatch(p, x) && y != [] && IsQuote(y[0])
    ensures ReplaceAll(x + y, p, r) == x + ReplaceAll(y, p, r)
  {
    forall i | 0 <= i < |x| ensures MatchEnd(p, (x + y)[i..]) == 0 {
      assert (x + y)[i..] == x[i..] + y;
      MatchStopsAtQuote(p, x[i..], y);
    }
    ReplaceAllSkip(x, y, p, r);
  }

  /**
   * The lazy group that starts at `i` closes at the first quote `j` when no
   * quote or line terminator comes before it.
   */
  lemma {:induction false} LazyCloseAtQuote(s: string, i: nat, j: nat)
    requires i <= j < |s| && IsQuote(s[j])
    requires forall k | i <= k < j :: !IsQuote(s[k]) && !IsLineTerminator(s[k])
    ensures LazyClose(s, i, false) == j + 1
    decreases j - i
  {
    if i < j {
      LazyCloseAtQuote(s, i + 1, j);
    }
  }

  /** Running the passes of `a + b` is running those of `a`, then those of `b`. */
  lemma {:induction false} ApplyRewritesAppend(s: string, a: seq<Rewrite>, b: seq<Rewrite>)
    ensures ApplyRewrites(s, a + b) == ApplyRewrites(ApplyRewrites(s, a), b)
    decreases |b|
  {
    if b == [] {
      assert a + b == a;
    } else {
      var front := b[..|b| - 1];
      assert (a + b)[..|a + b| - 1] == a + front;
      ApplyRewritesAppend(s, a, front);
    }
  }

  /** The last pass of a table runs on the output of the others. */
  lemma ApplyRewritesSnoc(s: string, rewrites: seq<Rewrite>, last: Rewrite)
    ensures ApplyRewrites(s, rewrites + [last]) == ReplaceAll(ApplyRewrites(s, rewrites), last.pattern, last.replacement)
  {
    assert (rewrites + [last])[..|rewrites|] == rewrites;
  }

  /** A table of three passes, spelled out. */
  lemma ApplyThreeRewrites(s: string, a: Rewrite, b: Rewrite, c: Rewrite)
    ensures ApplyRewrites(s, [a, b, c]) ==
      ReplaceAll(ReplaceAll(ReplaceAll(s, a.pattern, a.replacement), b.pattern, b.replacement), c.pattern, c.replacement)
  {
    assert [a, b, c] == [a, b] + [c] && [a, b] == [a] + [b] && [a] == [] + [a];
    ApplyRewritesSnoc(s, [], a);
    ApplyRewritesSnoc(s, [a], b);
    ApplyRewritesSnoc(s, [a, b], c);
  }

  /** A table of two passes, spelled out. */
  lemma ApplyTwoRewrites(s: string, a: Rewrite, b: Rewrite)
    ensures ApplyRewrites(s, [a, b]) == ReplaceAll(ReplaceAll(s, a.pattern, a.replacement), b.pattern, b.replacement)
  {
    assert [a, b] == [a] + [b] && [a] == [] + [a];
    ApplyRewritesSnoc(s, [], a);
    ApplyRewritesSnoc(s, [a], b);
  }

  /** A literal pattern does not match where the text differs from it. */
  lemma LiteralMismatch(text: string, s: string, k: nat)
    requires k < |text| && k < |s| && s[k] != text[k]
    ensures MatchEnd(Literal(text), s) == 0
  {
    if |text| <= |s| {
      assert s[..|text|][k] != text[k];
    }
  }

  /**
   * A quote followed by the phrase matches the phrase pattern, together with
   * a closing quote when one follows.
   */
  lemma QuotedPhraseMatchEnd(phrase: string, s: string)
    requires 0 < |phrase| && |phrase| + 1 < |s|
    requires IsQuote(s[0]) && s[1..|phrase| + 1] == phrase
    ensures MatchEnd(QuotedPhrase(phrase), s) == |phrase| + 1 + (if IsQuote(s[|phrase| + 1]) then 1 else 0)
  {
    assert s[1..][..|phrase|] == phrase;
    assert SameIgnoringCase(s[1..][..|phrase|], phrase);
  }
}
