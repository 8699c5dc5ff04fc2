/**
 * Token injection before a bot is launched: every placeholder the code
 * templates use for the bot token is replaced by the token in single
 * quotes, and a few language-specific call and assignment shapes get the
 * token as their string argument. The passes run in a fixed order over the
 * stored code; the result is what is written to the bot's working file.
 */
module Injection {
  import opened Text
  import opened Scanning
  import opened Patterns

  /** The phrase of the second placeholder pattern, as the launcher writes it. */
  const PlaceholderPhrase := "place ur bot token"

  /** The placeholder the code templates write: the phrase followed by ` here`. */
  const TemplatePlaceholder := PlaceholderPhrase + " here"

  /** The placeholder table `tokenPatterns` exactly as the launcher lists it. */
  const AsWrittenTokenPlaceholders: seq<Pattern> := [
    Literal("process.env.BOT_TOKEN"),
    QuotedPhrase(PlaceholderPhrase),
    QuotedPhrase("put ur bot token here"),
    QuotedPhrase("YOUR_BOT_TOKEN"),
    QuotedPhrase("<BOT_TOKEN>"),
    QuotedPhrase("BOT_TOKEN"),
    QuotedPhrase("your_token_here"),
    QuotedPhrase("your-bot-token")
  ]

  /**
   * The placeholder table with its second entry covering the whole phrase
   * `place ur bot token here` that the code templates use (see the findings).
   */
  const TokenPlaceholders: seq<Pattern> := [
    Literal("process.env.BOT_TOKEN"),
    QuotedPhrase(TemplatePlaceholder),
    QuotedPhrase("put ur bot token here"),
    QuotedPhrase("YOUR_BOT_TOKEN"),
    QuotedPhrase("<BOT_TOKEN>"),
    QuotedPhrase("BOT_TOKEN"),
    QuotedPhrase("your_token_here"),
    QuotedPhrase("your-bot-token")
  ]

  /** `'${token}'`. */
  function Quoted(token: string): string {
    "'" + token + "'"
  }

  /** Each placeholder becomes the quoted token. */
  function PlaceholderRewrites(placeholders: seq<Pattern>, token: string): (rs: seq<Rewrite>)
    ensures |rs| == |placeholders|
    ensures forall k | 0 <= k < |rs| :: rs[k] == Rewrite(placeholders[k], Quoted(token))
  {
    seq(|placeholders|, k requires 0 <= k < |placeholders| => Rewrite(placeholders[k], Quoted(token)))
  }

  /**
   * The passes that follow the placeholder table, chosen by language: a call
   * with a quoted argument gets the quoted token as its argument, and a
   * python `TOKEN = '…'` assignment gets the quoted token as its value.
   */
  function LanguageRewrites(lang: string, token: string): seq<Rewrite> {
    if lang == "python" then
      [ Rewrite(CallWithString("bot.run("), "bot.run(" + Quoted(token) + ")"),
        Rewrite(CallWithString("client.run("), "client.run(" + Quoted(token) + ")"),
        Rewrite(AssignString("TOKEN"), "TOKEN = " + Quoted(token)) ]
    else if lang == "javascript" || lang == "typescript" then
      [ Rewrite(CallWithString("client.login("), "client.login(" + Quoted(token) + ")"),
        Rewrite(CallWithString("bot.login("), "bot.login(" + Quoted(token) + ")") ]
    else []
  }

  /** The patterns of the language passes, which do not depend on the token. */
  function LanguagePatterns(lang: string): seq<Pattern> {
    if lang == "python" then
      [CallWithString("bot.run("), CallWithString("client.run("), AssignString("TOKEN")]
    else if lang == "javascript" || lang == "typescript" then
      [CallWithString("client.login("), CallWithString("bot.login(")]
    else []
  }

  /** The full pass list for a placeholder table. */
  function InjectionRewrites(placeholders: seq<Pattern>, lang: string, token: string): seq<Rewrite> {
    PlaceholderRewrites(placeholders, token) + LanguageRewrites(lang, token)
  }

  /** The code a launch writes with the placeholder table `placeholders`: all passes, in order. */
  function InjectedWith(placeholders: seq<Pattern>, code: string, lang: string, token: string): string {
    ApplyRewrites(code, InjectionRewrites(placeholders, lang, token))
  }

  /** The code the launcher writes with the placeholder table as the source lists it. */
  function InjectedAsWritten(code: string, lang: string, token: string): string {
    InjectedWith(AsWrittenTokenPlaceholders, code, lang, token)
  }

  /** The code written with the corrected placeholder table. */
  function Injected(code: string, lang: string, token: string): string {
    InjectedWith(TokenPlaceholders, code, lang, token)
  }

  /** No pattern of the placeholder table matches anywhere in `s`. */
  predicate NoPlaceholderIn(placeholders: seq<Pattern>, s: string) {
    forall k | 0 <= k < |placeholders| :: NoMatch(placeholders[k], s)
  }

  /** No placeholder and no language shape occurs in `code`. */
  predicate NothingToInject(placeholders: seq<Pattern>, code: string, lang: string) {
    && NoPlaceholderIn(placeholders, code)
    && (forall k | 0 <= k < |LanguagePatterns(lang)| :: NoMatch(LanguagePatterns(lang)[k], code))
  }

  /**
   * The injection block: a `forEach` over the placeholder table reassigning
   * `codeWithToken`, then the passes of the bot's language.
   */
  method InjectToken(placeholders: seq<Pattern>, code: string, lang: string, token: string) returns (codeWithToken: string)
    ensures codeWithToken == InjectedWith(placeholders, code, lang, token)
  {
    var passes := PlaceholderRewrites(placeholders, token);
    codeWithToken := code;
    for i := 0 to |placeholders|
      invariant codeWithToken == ApplyRewrites(code, passes[..i])
    {
      assert passes[..i + 1][..i] == passes[..i];
      codeWithToken := ReplaceAll(codeWithToken, placeholders[i], Quoted(token));
    }
    assert passes[..|placeholders|] == passes;
    var afterPlaceholders := codeWithToken;
    if lang == "python" {
      codeWithToken := ReplaceAll(codeWithToken, CallWithString("bot.run("), "bot.run(" + Quoted(token) + ")");
      codeWithToken := ReplaceAll(codeWithToken, CallWithString("client.run("), "client.run(" + Quoted(token) + ")");
      codeWithToken := ReplaceAll(codeWithToken, AssignString("TOKEN"), "TOKEN = " + Quoted(token));
      PythonPasses(afterPlaceholders, token);
    } else if lang == "javascript" || lang == "typescript" {
      codeWithToken := ReplaceAll(codeWithToken, CallWithString("client.login("), "client.login(" + Quoted(token) + ")");
      codeWithToken := ReplaceAll(codeWithToken, CallWithString("bot.login("), "bot.login(" + Quoted(token) + ")");
      ScriptPasses(afterPlaceholders, lang, token);
    }
    InjectedInTwoStages(placeholders, code, lang, token);
  }

  lemma InjectedInTwoStages(placeholders: seq<Pattern>, code: string, lang: string, token: string)
    ensures InjectedWith(placeholders, code, lang, token) ==
      ApplyRewrites(ApplyRewrites(code, PlaceholderRewrites(placeholders, token)), LanguageRewrites(lang, token))
  {
    ApplyRewritesAppend(code, PlaceholderRewrites(placeholders, token), LanguageRewrites(lang, token));
  }

  lemma PythonPasses(s: string, token: string)
    ensures ApplyRewrites(s, LanguageRewrites("python", token)) ==
      ReplaceAll(ReplaceAll(ReplaceAll(s,
        CallWithString("bot.run("), "bot.run(" + Quoted(token) + ")"),
        CallWithString("client.run("), "client.run(" + Quoted(token) + ")"),
        AssignString("TOKEN"), "TOKEN = " + Quoted(token))
  {
    var passes := LanguageRewrites("python", token);
    ApplyThreeRewrites(s, passes[0], passes[1], passes[2]);
  }

  lemma ScriptPasses(s: string, lang: string, token: string)
    requires lang == "javascript" || lang == "typescript"
    ensures ApplyRewrites(s, LanguageRewrites(lang, token)) ==
      ReplaceAll(ReplaceAll(s,
        CallWithString("client.login("), "client.login(" + Quoted(token) + ")"),
        CallWithString("bot.login("), "bot.login(" + Quoted(token) + ")")
  {
    var passes := LanguageRewrites(lang, token);
    ApplyTwoRewrites(s, passes[0], passes[1]);
  }

  /** Code with nothing to inject is written exactly as stored, whatever the placeholder table. */
  lemma InjectedWithoutMatch(placeholders: seq<Pattern>, code: string, lang: string, token: string)
    requires NothingToInject(placeholders, code, lang)
    ensures InjectedWith(placeholders, code, lang, token) == code
  {
    var rs := InjectionRewrites(placeholders, lang, token);
    var ps := PlaceholderRewrites(placeholders, token);
    var ls := LanguageRewrites(lang, token);
    assert forall k | 0 <= k < |ls| :: ls[k].pattern == LanguagePatterns(lang)[k];
    assert forall k | 0 <= k < |rs| :: rs[k].pattern == (if k < |ps| then placeholders[k] else LanguagePatterns(lang)[k - |ps|]);
    ApplyRewritesWithoutMatch(code, rs);
  }

  /*
   * Both placeholder tables list quote-free texts of at least nine
   * characters, so a text cut at quotes into pieces without a placeholder
   * holds none, and a piece shorter than nine characters never holds one.
   */

  predicate QuoteFreeTable(placeholders: seq<Pattern>) {
    forall k | 0 <= k < |placeholders| :: QuoteFreeText(placeholders[k]) && 9 <= |Body(placeholders[k])|
  }

  lemma PlaceholderTablesQuoteFree()
    ensures QuoteFreeTable(TokenPlaceholders) && QuoteFreeTable(AsWrittenTokenPlaceholders)
  {
    PlaceholderTextsQuoteFree();
  }

  /** The texts of both tables. */
  lemma PlaceholderTextsQuoteFree()
    ensures QuoteFree("process.env.BOT_TOKEN") && QuoteFree(PlaceholderPhrase) && QuoteFree(TemplatePlaceholder)
    ensures QuoteFree("put ur bot token here") && QuoteFree("YOUR_BOT_TOKEN") && QuoteFree("<BOT_TOKEN>")
    ensures QuoteFree("BOT_TOKEN") && QuoteFree("your_token_here") && QuoteFree("your-bot-token")
  {
  }

  lemma PlaceholderFreeJoin(placeholders: seq<Pattern>, x: string, y: string)
    requires QuoteFreeTable(placeholders)
    requires NoPlaceholderIn(placeholders, x) && NoPlaceholderIn(placeholders, y)
    requires y == [] || IsQuote(y[0])
    ensures NoPlaceholderIn(placeholders, x + y)
  {
    forall k | 0 <= k < |placeholders| ensures NoMatch(placeholders[k], x + y) {
      NoMatchJoin(placeholders[k], x, y);
    }
  }

  lemma QuotedPieceFree(placeholders: seq<Pattern>, s: string)
    requires QuoteFreeTable(placeholders) && NoPlaceholderIn(placeholders, s)
    ensures NoPlaceholderIn(placeholders, "'" + s)
  {
    forall k | 0 <= k < |placeholders| ensures NoMatch(placeholders[k], "'" + s) {
      QuoteThenNoMatch(placeholders[k], '\'', s);
    }
  }

  lemma ShortPieceFree(placeholders: seq<Pattern>, s: string)
    requires QuoteFreeTable(placeholders) && |s| < 9
    ensures NoPlaceholderIn(placeholders, s)
  {
    forall k | 0 <= k < |placeholders| ensures NoMatch(placeholders[k], s) {
      ShortNoMatch(placeholders[k], s);
    }
  }

  /**
   * For a python bot, an assignment `TOKEN = '<v>'` is rewritten to carry the
   * bot's token, with either placeholder table, for every value `v` without
   * quotes and line breaks in which no placeholder matches.
   */
  lemma PythonTokenAssignment(placeholders: seq<Pattern>, v: string, token: string)
    requires placeholders == TokenPlaceholders || placeholders == AsWrittenTokenPlaceholders
    requires forall i | 0 <= i < |v| :: !IsQuote(v[i]) && !IsLineTerminator(v[i])
    requires NoPlaceholderIn(placeholders, v)
    ensures InjectedWith(placeholders, "TOKEN = " + Quoted(v), "python", token) == "TOKEN = " + Quoted(token)
  {
    var code := "TOKEN = " + Quoted(v);
    var ps := PlaceholderRewrites(placeholders, token);
    AssignmentHasNoPlaceholder(placeholders, v);
    assert forall k | 0 <= k < |ps| :: ps[k].pattern == placeholders[k];
    ApplyRewritesWithoutMatch(code, ps);
    InjectedInTwoStages(placeholders, code, "python", token);
    PythonPasses(code, token);
    NoCallInAssignment("bot.run(", v);
    NoCallInAssignment("client.run(", v);
    ReplaceAllWithoutMatch(code, CallWithString("bot.run("), "bot.run(" + Quoted(token) + ")");
    ReplaceAllWithoutMatch(code, CallWithString("client.run("), "client.run(" + Quoted(token) + ")");
    AssignmentMatchesWhole(v);
  }

  lemma AssignmentHasNoPlaceholder(placeholders: seq<Pattern>, v: string)
    requires placeholders == TokenPlaceholders || placeholders == AsWrittenTokenPlaceholders
    requires NoPlaceholderIn(placeholders, v)
    ensures NoPlaceholderIn(placeholders, "TOKEN = " + Quoted(v))
  {
    PlaceholderTablesQuoteFree();
    ShortPieceFree(placeholders, "TOKEN = ");
    ShortPieceFree(placeholders, "'");
    QuotedPieceFree(placeholders, v);
    PlaceholderFreeJoin(placeholders, "TOKEN = ", "'" + v);
    PlaceholderFreeJoin(placeholders, "TOKEN = " + ("'" + v), "'");
    assert "TOKEN = " + Quoted(v) == "TOKEN = " + ("'" + v) + "'";
  }

  /**
   * A call pass needs a quote followed by `)`; in `TOKEN = '<v>'` the only
   * quote after the opening one ends the text.
   */
  lemma NoCallInAssignment(opening: string, v: string)
    requires 8 <= |opening|
    requires forall i | 0 <= i < |v| :: !IsQuote(v[i])
    ensures NoMatch(CallWithString(opening), "TOKEN = " + Quoted(v))
  {
    var code := "TOKEN = " + Quoted(v);
    var k := |opening|;
    forall i | 0 <= i < |code| ensures MatchEnd(CallWithString(opening), code[i..]) == 0 {
      var s := code[i..];
      if StartsWith(s, opening) && k < |s| && IsQuote(s[k]) {
        forall j | k + 1 <= j < |s| - 1 ensures !IsQuote(s[j]) {
          assert s[j] == code[i + j] == v[i + j - 9];
        }
        LazyCallCloseNone(s, k + 1);
      }
    }
  }

  lemma AssignmentMatchesWhole(v: string)
    requires forall i | 0 <= i < |v| :: !IsQuote(v[i]) && !IsLineTerminator(v[i])
    ensures forall r :: ReplaceAll("TOKEN = " + Quoted(v), AssignString("TOKEN"), r) == r
  {
    var code := "TOKEN = " + Quoted(v);
    assert code[..5] == "TOKEN";
    assert code[5] == ' ' && code[6] == '=' && code[7] == ' ' && code[8] == '\'';
    assert SkipSpaces(code, 5) == 6;
    assert SkipSpaces(code, 7) == 8;
    forall k | 9 <= k < |code| - 1 ensures !IsQuote(code[k]) && !IsLineTerminator(code[k]) {
      assert code[k] == v[k - 9];
    }
    LazyCloseAtQuote(code, 9, |code| - 1);
    assert MatchEnd(AssignString("TOKEN"), code) == |code|;
    assert code[|code|..] == [];
    forall r ensures ReplaceAll(code, AssignString("TOKEN"), r) == r {
      ReplaceAllMatch(code, AssignString("TOKEN"), r);
    }
  }

  /** The plain case `TOKEN = 'x'`, with the table as the source lists it. */
  lemma PythonTokenAssignmentExample(token: string)
    ensures InjectedAsWritten("TOKEN = 'x'", "python", token) == "TOKEN = " + Quoted(token)
  {
    assert "TOKEN = 'x'" == "TOKEN = " + Quoted("x");
    PlaceholderTablesQuoteFree();
    ShortPieceFree(AsWrittenTokenPlaceholders, "x");
    PythonTokenAssignment(AsWrittenTokenPlaceholders, "x", token);
  }

  /*
   * The code templates end with a call such as `$discord->run('place ur bot
   * token here')`. The placeholder table as written matches only the quote and
   * `place ur bot token`, so for a language without a call pass of its own the
   * written code keeps ` here'` after the quoted token.
   */

  /** A template's token line: the quoted placeholder between `pre` and `post`. */
  function PlaceholderCall(pre: string, post: string): string {
    pre + (Quoted(TemplatePlaceholder) + post)
  }

  /** A language without passes of its own: only the placeholder table runs. */
  predicate WithoutLanguagePasses(lang: string) {
    lang != "python" && lang != "javascript" && lang != "typescript"
  }

  /**
   * With the table as written, the quoted placeholder becomes the quoted
   * token followed by ` here'`, whenever no placeholder matches in the code
   * around it or in the token.
   */
  lemma AsWrittenLeavesHere(pre: string, post: string, lang: string, token: string)
    requires WithoutLanguagePasses(lang)
    requires NoPlaceholderIn(AsWrittenTokenPlaceholders, pre)
    requires NoPlaceholderIn(AsWrittenTokenPlaceholders, post)
    requires NoPlaceholderIn(AsWrittenTokenPlaceholders, token)
    ensures InjectedAsWritten(PlaceholderCall(pre, post), lang, token) == pre + (Quoted(token) + (" here'" + post))
  {
    var placeholders := AsWrittenTokenPlaceholders;
    var code := PlaceholderCall(pre, post);
    var rs := InjectionRewrites(placeholders, lang, token);
    var tail := " here'" + post;
    var afterSecond := pre + (Quoted(token) + tail);
    assert rs[0] == Rewrite(placeholders[0], Quoted(token));
    assert rs[1] == Rewrite(QuotedPhrase(PlaceholderPhrase), Quoted(token));
    FirstPassKeepsPlaceholder(pre, post, Quoted(token));
    AsWrittenSecondPass(pre, post, Quoted(token));
    ApplyTwoRewrites(code, rs[0], rs[1]);
    assert rs[..2] == [rs[0], rs[1]];
    assert ApplyRewrites(code, rs[..2]) == afterSecond;
    PlaceholderTablesQuoteFree();
    ShortPieceFree(placeholders, " here");
    QuotedPieceFree(placeholders, post);
    PlaceholderFreeJoin(placeholders, " here", "'" + post);
    assert " here" + ("'" + post) == tail;
    LaterPassesKeep(placeholders, lang, pre, tail, token);
    assert rs == rs[..2] + rs[2..];
    ApplyRewritesAppend(code, rs[..2], rs[2..]);
  }

  /** The as-written second pass consumes the quote and the phrase, and stops before ` here'`. */
  lemma AsWrittenSecondPass(pre: string, post: string, r: string)
    requires NoMatch(QuotedPhrase(PlaceholderPhrase), pre) && NoMatch(QuotedPhrase(PlaceholderPhrase), post)
    ensures ReplaceAll(PlaceholderCall(pre, post), QuotedPhrase(PlaceholderPhrase), r) == pre + (r + (" here'" + post))
  {
    var x := Quoted(TemplatePlaceholder) + post;
    var p := QuotedPhrase(PlaceholderPhrase);
    PlaceholderTextsQuoteFree();
    var tail := " here'" + post;
    assert x[1..19] == PlaceholderPhrase && x[19] == ' ';
    QuotedPhraseMatchEnd(PlaceholderPhrase, x);
    assert x[19..] == tail;
    ShortNoMatch(p, " here");
    QuoteThenNoMatch(p, '\'', post);
    NoMatchJoin(p, " here", "'" + post);
    assert " here" + ("'" + post) == tail;
    ReplaceAllWithoutMatch(tail, p, r);
    ReplaceAllMatch(x, p, r);
    ReplaceAllSkipPiece(p, pre, x, r);
  }

  /**
   * The corrected table replaces the whole quoted placeholder by the quoted
   * token, whenever no placeholder matches in the code around it or in the
   * token.
   */
  lemma CorrectedReplacesPlaceholder(pre: string, post: string, lang: string, token: string)
    requires WithoutLanguagePasses(lang)
    requires NoPlaceholderIn(TokenPlaceholders, pre)
    requires NoPlaceholderIn(TokenPlaceholders, post)
    requires NoPlaceholderIn(TokenPlaceholders, token)
    ensures Injected(PlaceholderCall(pre, post), lang, token) == pre + (Quoted(token) + post)
  {
    var placeholders := TokenPlaceholders;
    var code := PlaceholderCall(pre, post);
    var rs := InjectionRewrites(placeholders, lang, token);
    var afterSecond := pre + (Quoted(token) + post);
    assert rs[0] == Rewrite(placeholders[0], Quoted(token));
    assert rs[1] == Rewrite(QuotedPhrase(TemplatePlaceholder), Quoted(token));
    FirstPassKeepsPlaceholder(pre, post, Quoted(token));
    CorrectedSecondPass(pre, post, Quoted(token));
    ApplyTwoRewrites(code, rs[0], rs[1]);
    assert rs[..2] == [rs[0], rs[1]];
    assert ApplyRewrites(code, rs[..2]) == afterSecond;
    PlaceholderTablesQuoteFree();
    LaterPassesKeep(placeholders, lang, pre, post, token);
    assert rs == rs[..2] + rs[2..];
    ApplyRewritesAppend(code, rs[..2], rs[2..]);
  }

  /** The corrected second pass consumes both quotes and the whole placeholder. */
  lemma CorrectedSecondPass(pre: string, post: string, r: string)
    requires NoMatch(QuotedPhrase(TemplatePlaceholder), pre) && NoMatch(QuotedPhrase(TemplatePlaceholder), post)
    ensures ReplaceAll(PlaceholderCall(pre, post), QuotedPhrase(TemplatePlaceholder), r) == pre + (r + post)
  {
    var x := Quoted(TemplatePlaceholder) + post;
    var p := QuotedPhrase(TemplatePlaceholder);
    PlaceholderTextsQuoteFree();
    assert x[1..24] == TemplatePlaceholder && x[24] == '\'';
    QuotedPhraseMatchEnd(TemplatePlaceholder, x);
    assert x[25..] == post;
    ReplaceAllWithoutMatch(post, p, r);
    ReplaceAllMatch(x, p, r);
    ReplaceAllSkipPiece(p, pre, x, r);
  }

  /** The first pass, `process.env.BOT_TOKEN`, leaves a template's token line alone. */
  lemma FirstPassKeepsPlaceholder(pre: string, post: string, r: string)
    requires NoMatch(Literal("process.env.BOT_TOKEN"), pre) && NoMatch(Literal("process.env.BOT_TOKEN"), post)
    ensures ReplaceAll(PlaceholderCall(pre, post), Literal("process.env.BOT_TOKEN"), r) == PlaceholderCall(pre, post)
  {
    var p := Literal("process.env.BOT_TOKEN");
    PlaceholderTextsQuoteFree();
    EnvNotInPlaceholder();
    QuoteThenNoMatch(p, '\'', TemplatePlaceholder);
    QuoteThenNoMatch(p, '\'', post);
    NoMatchJoin(p, "'" + TemplatePlaceholder, "'" + post);
    NoMatchJoin(p, pre, ("'" + TemplatePlaceholder) + ("'" + post));
    assert PlaceholderCall(pre, post) == pre + (("'" + TemplatePlaceholder) + ("'" + post));
    ReplaceAllWithoutMatch(PlaceholderCall(pre, post), p, r);
  }

  lemma EnvNotInPlaceholder()
    ensures NoMatch(Literal("process.env.BOT_TOKEN"), TemplatePlaceholder)
  {
    var t := TemplatePlaceholder;
    forall i | 0 <= i < |t| ensures MatchEnd(Literal("process.env.BOT_TOKEN"), t[i..]) == 0 {
      if i == 0 {
        LiteralMismatch("process.env.BOT_TOKEN", t[i..], 1);
      } else if i <= 2 {
        LiteralMismatch("process.env.BOT_TOKEN", t[i..], 0);
      }
    }
  }

  /** Passes three to eight find nothing once the placeholder is replaced. */
  lemma LaterPassesKeep(placeholders: seq<Pattern>, lang: string, pre: string, tail: string, token: string)
    requires WithoutLanguagePasses(lang) && QuoteFreeTable(placeholders) && 2 <= |placeholders|
    requires NoPlaceholderIn(placeholders, pre)
    requires NoPlaceholderIn(placeholders, tail)
    requires NoPlaceholderIn(placeholders, token)
    ensures ApplyRewrites(pre + (Quoted(token) + tail), InjectionRewrites(placeholders, lang, token)[2..]) == pre + (Quoted(token) + tail)
  {
    var text := pre + (Quoted(token) + tail);
    TokenLineFree(placeholders, pre, tail, token);
    var all := InjectionRewrites(placeholders, lang, token);
    assert all == PlaceholderRewrites(placeholders, token) + [];
    var rs := all[2..];
    assert forall k | 0 <= k < |rs| :: rs[k].pattern == placeholders[k + 2];
    ApplyRewritesWithoutMatch(text, rs);
  }

  /** The token line after the placeholder pass, cut at its quotes. */
  lemma TokenLineFree(placeholders: seq<Pattern>, pre: string, tail: string, token: string)
    requires QuoteFreeTable(placeholders)
    requires NoPlaceholderIn(placeholders, pre)
    requires NoPlaceholderIn(placeholders, tail)
    requires NoPlaceholderIn(placeholders, token)
    ensures NoPlaceholderIn(placeholders, pre + (Quoted(token) + tail))
  {
    QuotedPieceFree(placeholders, token);
    QuotedPieceFree(placeholders, tail);
    PlaceholderFreeJoin(placeholders, "'" + token, "'" + tail);
    PlaceholderFreeJoin(placeholders, pre, ("'" + token) + ("'" + tail));
    assert pre + (Quoted(token) + tail) == pre + (("'" + token) + ("'" + tail));
  }
}
