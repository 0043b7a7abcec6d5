/**
 * The loop of `process_log_file`: keep the log lines that record a `sudo`
 * command, turn each into rules, pass every rule through the whole-rule
 * version wildcarding, and keep each resulting rule once, in the order it
 * is first produced.
 *
 * Reading the file is left to the caller (the lines are a parameter, each
 * as read, newline included), and `tokenize` stands for `shlex.split`
 * (`None` when it raises).
 */
module LogProcess {
  import opened Text
  import Regex
  import LogTokens
  import LogNormalize
  import RulePass

  /** Descriptive messages and Ruby object dumps that mention sudo without being a command. */
  predicate IsNoise(raw: string)
  {
    Contains(raw, "with `sudo`") || Contains(raw, "Uninstalling packages") || Contains(raw, "Changing ownership")
    || Contains(raw, "Running installer")
    || Contains(raw, "#<Cask") || Contains(raw, "Cask::") || Contains(raw, "@dsl_args") || Contains(raw, "@directives")
    || Contains(raw, "@cask=")
  }

  /** `sudo`'s own error and warning lines. */
  predicate IsSudoMessage(raw: string)
  {
    StartsWith(LStripSpace(raw), "sudo:")
  }

  /** The rules one log line produced, before deduplication, each already version-wildcarded. */
  function LineRules(raw: string, user: string, brewPrefix: string, tokenize: string -> Option<seq<string>>,
                     which: string -> Option<string>, isExecutable: string -> bool): seq<string>
  {
    if !Contains(raw, "/usr/bin/sudo") || IsNoise(raw) || IsSudoMessage(raw) then []
    else match tokenize(raw)
      case None => []
      case Some(tokens) =>
        match LogTokens.FindCommand(tokens)
        case None => []
        case Some((cmd, args)) =>
          match LogNormalize.NormalizeLogCommand(cmd, args, user, brewPrefix, which, isExecutable)
          case None => []
          case Some(rule) => if rule == "" then [] else Map(RulePass.WildcardVersionsInRule, Split(rule, '\n'))
  }

  /** The rules of all lines, in order, duplicates included. */
  function AllLineRules(lines: seq<string>, user: string, brewPrefix: string, tokenize: string -> Option<seq<string>>,
                        which: string -> Option<string>, isExecutable: string -> bool): seq<string>
    decreases |lines|
  {
    if |lines| == 0 then []
    else
      AllLineRules(lines[..|lines| - 1], user, brewPrefix, tokenize, which, isExecutable)
      + LineRules(lines[|lines| - 1], user, brewPrefix, tokenize, which, isExecutable)
  }

  /** A line that does not mention `/usr/bin/sudo`, or is a message or dump, produced nothing. */
  lemma IgnoredLine(raw: string, user: string, brewPrefix: string, tokenize: string -> Option<seq<string>>,
                    which: string -> Option<string>, isExecutable: string -> bool)
    requires !Contains(raw, "/usr/bin/sudo") || IsNoise(raw) || IsSudoMessage(raw)
    ensures LineRules(raw, user, brewPrefix, tokenize, which, isExecutable) == []
  {
  }

  /** Every rule a line produced went through the whole-rule pass, so none holds `**`. */
  lemma LineRulesNoDoubleStar(raw: string, user: string, brewPrefix: string, tokenize: string -> Option<seq<string>>,
                              which: string -> Option<string>, isExecutable: string -> bool)
    ensures forall r :: r in LineRules(raw, user, brewPrefix, tokenize, which, isExecutable) ==> Regex.NoDoubleStar(r)
  {
  }

  lemma {:induction false} AllLineRulesNoDoubleStar(lines: seq<string>, user: string, brewPrefix: string,
                                                    tokenize: string -> Option<seq<string>>,
                                                    which: string -> Option<string>, isExecutable: string -> bool)
    ensures forall r :: r in AllLineRules(lines, user, brewPrefix, tokenize, which, isExecutable) ==> Regex.NoDoubleStar(r)
    decreases |lines|
  {
    if |lines| > 0 {
      AllLineRulesNoDoubleStar(lines[..|lines| - 1], user, brewPrefix, tokenize, which, isExecutable);
      LineRulesNoDoubleStar(lines[|lines| - 1], user, brewPrefix, tokenize, which, isExecutable);
    }
  }

  lemma NextLine(lines: seq<string>, i: nat, user: string, brewPrefix: string, tokenize: string -> Option<seq<string>>,
                 which: string -> Option<string>, isExecutable: string -> bool)
    requires i < |lines|
    ensures AllLineRules(lines[..i + 1], user, brewPrefix, tokenize, which, isExecutable)
         == AllLineRules(lines[..i], user, brewPrefix, tokenize, which, isExecutable)
            + LineRules(lines[i], user, brewPrefix, tokenize, which, isExecutable)
  {
    assert lines[..i + 1][..i] == lines[..i];
  }

  lemma NextRule(before: seq<string>, parts: seq<string>, j: nat)
    requires j < |parts|
    ensures var done := before + Map(RulePass.WildcardVersionsInRule, parts[..j]);
      var r := RulePass.WildcardVersionsInRule(parts[j]);
      Dedup(before + Map(RulePass.WildcardVersionsInRule, parts[..j + 1])) == if r in Dedup(done) then Dedup(done) else Dedup(done) + [r]
  {
    var done := before + Map(RulePass.WildcardVersionsInRule, parts[..j]);
    MapPrefix(RulePass.WildcardVersionsInRule, parts, j);
    assert before + Map(RulePass.WildcardVersionsInRule, parts[..j + 1]) == done + [RulePass.WildcardVersionsInRule(parts[j])];
    DedupSnoc(done, RulePass.WildcardVersionsInRule(parts[j]));
  }

  /** The inner loop: wildcard each rule of one line and keep those not yet seen. */
  method AddRules(rules: seq<string>, seen: set<string>, ghost done: seq<string>, parts: seq<string>)
    returns (rules': seq<string>, seen': set<string>)
    requires rules == Dedup(done)
    requires forall r :: r in seen <==> r in rules
    ensures rules' == Dedup(done + Map(RulePass.WildcardVersionsInRule, parts))
    ensures forall r :: r in seen' <==> r in rules'
  {
    rules', seen' := rules, seen;
    assert done + Map(RulePass.WildcardVersionsInRule, parts[..0]) == done;
    for j := 0 to |parts|
      invariant rules' == Dedup(done + Map(RulePass.WildcardVersionsInRule, parts[..j]))
      invariant forall r :: r in seen' <==> r in rules'
    {
      var r := RulePass.WildcardVersionsInRule(parts[j]);
      NextRule(done, parts, j);
      if r !in seen' {
        rules' := rules' + [r];
        seen' := seen' + {r};
      }
    }
    assert parts[..|parts|] == parts;
  }

  /**
   * The body of the loop of `process_log_file` for one line: the rule lines
   * it yields before the whole-rule pass, empty wherever the source moves on
   * to the next line.
   */
  method LineParts(raw: string, user: string, brewPrefix: string, tokenize: string -> Option<seq<string>>,
                   which: string -> Option<string>, isExecutable: string -> bool) returns (parts: seq<string>)
    ensures Map(RulePass.WildcardVersionsInRule, parts) == LineRules(raw, user, brewPrefix, tokenize, which, isExecutable)
  {
    parts := [];
    if !Contains(raw, "/usr/bin/sudo") {
      return;
    }
    if Contains(raw, "with `sudo`") || Contains(raw, "Uninstalling packages") || Contains(raw, "Changing ownership") {
      return;
    }
    if Contains(raw, "Running installer") {
      return;
    }
    if Contains(raw, "#<Cask") || Contains(raw, "Cask::") || Contains(raw, "@dsl_args") || Contains(raw, "@directives")
       || Contains(raw, "@cask=") {
      return;
    }
    var stripped := LStripSpace(raw);
    if StartsWith(stripped, "sudo:") {
      return;
    }
    var tokens := tokenize(raw);
    if tokens.None? {
      return;
    }
    var parsed := LogTokens.FindLogCommandTokens(tokens.value);
    if parsed.None? {
      return;
    }
    var (cmd, args) := parsed.value;
    var rule := LogNormalize.NormalizeLogCommand(cmd, args, user, brewPrefix, which, isExecutable);
    if rule.None? || rule.value == "" {
      return;
    }
    parts := Split(rule.value, '\n');
  }

  /**
   * `process_log_file`: the rules of all lines, deduplicated in first-seen
   * order; so no rule appears twice, every rule comes from some line, every
   * line's rules are present, and none holds `**`.
   */
  method ProcessLog(lines: seq<string>, user: string, brewPrefix: string, tokenize: string -> Option<seq<string>>,
                    which: string -> Option<string>, isExecutable: string -> bool) returns (rules: seq<string>)
    ensures rules == Dedup(AllLineRules(lines, user, brewPrefix, tokenize, which, isExecutable))
    ensures NoDuplicates(rules)
    ensures forall r :: r in rules <==> r in AllLineRules(lines, user, brewPrefix, tokenize, which, isExecutable)
    ensures forall r :: r in rules ==> Regex.NoDoubleStar(r)
  {
    rules := [];
    var seen: set<string> := {};
    for i := 0 to |lines|
      invariant rules == Dedup(AllLineRules(lines[..i], user, brewPrefix, tokenize, which, isExecutable))
      invariant forall r :: r in seen <==> r in rules
    {
      ghost var before := AllLineRules(lines[..i], user, brewPrefix, tokenize, which, isExecutable);
      NextLine(lines, i, user, brewPrefix, tokenize, which, isExecutable);
      var parts := LineParts(lines[i], user, brewPrefix, tokenize, which, isExecutable);
      rules, seen := AddRules(rules, seen, before, parts);
    }
    assert lines[..|lines|] == lines;
    DedupElements(AllLineRules(lines, user, brewPrefix, tokenize, which, isExecutable));
    AllLineRulesNoDoubleStar(lines, user, brewPrefix, tokenize, which, isExecutable);
  }
}
