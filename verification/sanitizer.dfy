/**
 * `sanitizeCode`: an ordered denylist of five patterns; every match is
 * replaced by the marker `// BLOCKED: ` followed by the pattern's source
 * text. It is advisory hardening, not a sandbox: any other spelling of the
 * same call passes through.
 */
module Sanitizer {
  import opened Text
  import opened Scanning
  import opened Patterns

  /** A denylist entry: the pattern and the source text of the regex it stands for. */
  datatype Rule = Rule(pattern: Pattern, source: string)

  const BlockedMarker := "// BLOCKED: "

  const FsRule := Rule(RequireModule("fs"), "require\\s*\\(\\s*['\"]fs['\"]\\s*\\)")
  const ChildProcessRule := Rule(RequireModule("child_process"), "require\\s*\\(\\s*['\"]child_process['\"]\\s*\\)")
  const PathRule := Rule(RequireModule("path"), "require\\s*\\(\\s*['\"]path['\"]\\s*\\)")
  const ExitRule := Rule(Literal("process.exit"), "process\\.exit")
  const KillRule := Rule(Literal("process.kill"), "process\\.kill")

  /** `dangerousPatterns`, in the order they are applied. */
  const DangerousRules: seq<Rule> := [FsRule, ChildProcessRule, PathRule, ExitRule, KillRule]

  /** The rewrite a denylist entry performs. */
  function Blocking(rule: Rule): Rewrite {
    Rewrite(rule.pattern, BlockedMarker + rule.source)
  }

  function BlockingRewrites(rules: seq<Rule>): (rs: seq<Rewrite>)
    ensures |rs| == |rules|
    ensures forall k | 0 <= k < |rules| :: rs[k] == Blocking(rules[k])
  {
    if rules == [] then [] else [Blocking(rules[0])] + BlockingRewrites(rules[1..])
  }

  /** What `sanitizeCode(code)` returns. */
  function Sanitized(code: string): string {
    ApplyRewrites(code, BlockingRewrites(DangerousRules))
  }

  /** `sanitizeCode`: the `forEach` over the denylist, reassigning `sanitized`. */
  method SanitizeCode(code: string) returns (sanitized: string)
    ensures sanitized == Sanitized(code)
  {
    var rewrites := BlockingRewrites(DangerousRules);
    sanitized := code;
    for i := 0 to |DangerousRules|
      invariant sanitized == ApplyRewrites(code, rewrites[..i])
    {
      var rule := DangerousRules[i];
      assert rewrites[..i + 1] == rewrites[..i] + [Blocking(rule)];
      ApplyRewritesSnoc(code, rewrites[..i], Blocking(rule));
      sanitized := ReplaceAll(sanitized, rule.pattern, BlockedMarker + rule.source);
    }
    assert rewrites[..|DangerousRules|] == rewrites;
  }

  /** The two process-control calls never survive sanitizing, whatever the input. */
  lemma SanitizedIsFreeOfExitAndKill(code: string)
    ensures !Occurs("process.exit", Sanitized(code))
    ensures !Occurs("process.kill", Sanitized(code))
  {
    var rs := BlockingRewrites(DangerousRules);
    var front := rs[..3];
    assert rs == front + [Blocking(ExitRule)] + [Blocking(KillRule)];
    var afterRequires := ApplyRewrites(code, front);
    var afterExit := ApplyRewrites(code, front + [Blocking(ExitRule)]);
    ApplyRewritesSnoc(code, front, Blocking(ExitRule));
    ApplyRewritesSnoc(code, front + [Blocking(ExitRule)], Blocking(KillRule));
    ExitMarkerUnbordered();
    KillMarkerUnbordered();
    ReplaceAllFree(afterRequires, Literal("process.exit"), BlockedMarker + "process\\.exit", "process.exit");
    ReplaceAllFree(afterExit, Literal("process.kill"), BlockedMarker + "process\\.kill", "process.exit");
    ReplaceAllFree(afterExit, Literal("process.kill"), BlockedMarker + "process\\.kill", "process.kill");
  }

  /** Code that matches none of the five patterns is stored exactly as submitted. */
  lemma SanitizedWithoutMatch(code: string)
    ensures (forall k | 0 <= k < |DangerousRules| :: NoMatch(DangerousRules[k].pattern, code)) ==> Sanitized(code) == code
  {
    var rs := BlockingRewrites(DangerousRules);
    if forall k | 0 <= k < |DangerousRules| :: NoMatch(DangerousRules[k].pattern, code) {
      assert forall k | 0 <= k < |rs| :: rs[k].pattern == DangerousRules[k].pattern;
      ApplyRewritesWithoutMatch(code, rs);
    }
  }

  lemma ExitMarkerUnbordered()
    ensures Unbordered(BlockedMarker + "process\\.exit", "process.exit")
  {
    var b := "process\\.exit";
    assert b[7] != "process.exit"[7];
    UnborderedBySplit(BlockedMarker, b, "process.exit");
  }

  lemma KillMarkerUnbordered()
    ensures Unbordered(BlockedMarker + "process\\.kill", "process.exit")
    ensures Unbordered(BlockedMarker + "process\\.kill", "process.kill")
  {
    var b := "process\\.kill";
    assert b[7] != "process.exit"[7] && b[7] != "process.kill"[7];
    UnborderedBySplit(BlockedMarker, b, "process.exit");
    UnborderedBySplit(BlockedMarker, b, "process.kill");
  }
}
