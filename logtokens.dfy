/**
 * `_find_log_command_tokens`: in the tokens of one log line, find the
 * command `sudo` ran, stepping over `sudo`'s own options and environment
 * assignments that come between `/usr/bin/sudo` and the command.
 */
module LogTokens {
  import opened Text

  /** An environment assignment: it has an `=` and does not start with `/`. */
  predicate IsAssignment(tok: string)
  {
    '=' in tok && !StartsWith(tok, "/")
  }

  /**
   * `tok in ('--')`: the parentheses make no tuple, so this is a substring
   * test against the string `--`, true for `''`, `'-'` and `'--'`.
   */
  predicate InDoubleDash(tok: string)
  {
    Contains("--", tok)
  }

  /** A token the skipping loop steps over on its own. */
  predicate IsSudoOption(tok: string)
  {
    IsAssignment(tok) || InDoubleDash(tok) || StartsWith(tok, "-")
  }

  /** A token the skipping loop stops at: the command. */
  predicate IsCommandToken(tok: string)
  {
    |tok| > 0 && !StartsWith(tok, "-") && !IsAssignment(tok)
  }

  lemma InDoubleDashCases(tok: string)
    ensures InDoubleDash(tok) <==> tok == "" || tok == "-" || tok == "--"
  {
    if tok == "-" {
      assert StartsWith("--", tok);
    }
    if InDoubleDash(tok) && |tok| > 0 {
      assert StartsWith("--", tok) || StartsWith("-", tok) || StartsWith("", tok);
    }
  }

  /** Token `k` follows a `-u`. */
  predicate AfterUserFlag(tokens: seq<string>, k: nat)
    requires 0 < k < |tokens|
  {
    tokens[k - 1] == "-u"
  }

  /**
   * The index the skipping loop stops at, started at `idx`.  Every token it
   * steps over is a sudo option or the user name after `-u`; the token it
   * stops at, if any, is a command.
   */
  function SkipSudoOptions(tokens: seq<string>, idx: nat): (r: nat)
    requires idx <= |tokens|
    ensures idx <= r <= |tokens|
    ensures r < |tokens| ==> IsCommandToken(tokens[r])
    ensures forall k :: idx <= k < r ==> IsSudoOption(tokens[k]) || (idx < k && AfterUserFlag(tokens, k))
    decreases |tokens| - idx
  {
    if idx == |tokens| then idx
    else
      var tok := tokens[idx];
      if IsAssignment(tok) || InDoubleDash(tok) then SkipSudoOptions(tokens, idx + 1)
      else if StartsWith(tok, "-") then
        if tok == "-u" && idx + 1 < |tokens| then SkipSudoOptions(tokens, idx + 2)
        else SkipSudoOptions(tokens, idx + 1)
      else
        InDoubleDashCases(tok);
        idx
  }

  /**
   * `_find_log_command_tokens(tokens)`: `None` when no token is
   * `/usr/bin/sudo` or nothing is left after the options; otherwise the
   * command and its arguments, which are the tokens from the command on.
   */
  function FindCommand(tokens: seq<string>): (r: Option<(string, seq<string>)>)
    ensures "/usr/bin/sudo" !in tokens ==> r.None?
    ensures r.Some? ==> IsCommandToken(r.value.0)
  {
    CommandAfter(tokens, "/usr/bin/sudo")
  }

  /** The command after the first `marker` token and the sudo options that follow it. */
  function CommandAfter(tokens: seq<string>, marker: string): (r: Option<(string, seq<string>)>)
    ensures marker !in tokens ==> r.None?
    ensures r.Some? ==> IsCommandToken(r.value.0)
  {
    match IndexOfElem(tokens, marker)
    case None => None
    case Some(s) => CommandAt(tokens, SkipSudoOptions(tokens, s + 1))
  }

  /** The command at `idx` and the arguments after it, if `idx` is inside the line. */
  function CommandAt(tokens: seq<string>, idx: nat): Option<(string, seq<string>)>
  {
    if idx >= |tokens| then None else Some((tokens[idx], tokens[idx + 1..]))
  }

  /**
   * Where the command sits: after the first `/usr/bin/sudo`, with only
   * sudo options and `-u` user names in between, and the arguments running
   * to the end of the line.
   */
  lemma FindCommandSuffix(tokens: seq<string>)
    requires FindCommand(tokens).Some?
    ensures var (cmd, args) := FindCommand(tokens).value;
      exists s, k :: 0 <= s < k < |tokens| && tokens[s] == "/usr/bin/sudo" && "/usr/bin/sudo" !in tokens[..s]
        && tokens[k..] == [cmd] + args
        && forall j :: s < j < k ==> IsSudoOption(tokens[j]) || (s + 1 < j && AfterUserFlag(tokens, j))
  {
    var s := IndexOfElem(tokens, "/usr/bin/sudo").value;
    var k := SkipSudoOptions(tokens, s + 1);
    assert tokens[k..] == [tokens[k]] + tokens[k + 1..];
  }

  /** `-u` takes the next token with it, whatever that token looks like. */
  lemma SkipUser(tokens: seq<string>, idx: nat)
    requires idx + 1 < |tokens| && tokens[idx] == "-u"
    ensures SkipSudoOptions(tokens, idx) == SkipSudoOptions(tokens, idx + 2)
  {
    InDoubleDashCases("-u");
  }

  /** One turn of the skipping loop. */
  lemma SkipStep(tokens: seq<string>, idx: nat)
    requires idx < |tokens|
    ensures var tok := tokens[idx];
      SkipSudoOptions(tokens, idx) ==
        if IsAssignment(tok) || InDoubleDash(tok) then SkipSudoOptions(tokens, idx + 1)
        else if StartsWith(tok, "-") then
          if tok == "-u" && idx + 1 < |tokens| then SkipSudoOptions(tokens, idx + 2) else SkipSudoOptions(tokens, idx + 1)
        else idx
  {
  }

  /** `_find_log_command_tokens`: find `/usr/bin/sudo`, skip its options, take the rest. */
  method FindLogCommandTokens(tokens: seq<string>) returns (r: Option<(string, seq<string>)>)
    ensures r == FindCommand(tokens)
  {
    var found := IndexOfElem(tokens, "/usr/bin/sudo");
    if found.None? {
      return None;
    }
    var idx := SkipOptionsLoop(tokens, found.value + 1);
    CommandAfterAt(tokens, "/usr/bin/sudo", found.value);
    if idx >= |tokens| {
      return None;
    }
    r := CommandAt(tokens, idx);
  }

  /** The loop of `_find_log_command_tokens` that steps over sudo's options from `start`. */
  method SkipOptionsLoop(tokens: seq<string>, start: nat) returns (idx: nat)
    requires start <= |tokens|
    ensures idx == SkipSudoOptions(tokens, start)
  {
    idx := start;
    while idx < |tokens|
      invariant start <= idx <= |tokens|
      invariant SkipSudoOptions(tokens, idx) == SkipSudoOptions(tokens, start)
      decreases |tokens| - idx
    {
      var tok := tokens[idx];
      SkipStep(tokens, idx);
      if IsAssignment(tok) {
        idx := idx + 1;
        continue;
      }
      if InDoubleDash(tok) {
        idx := idx + 1;
        continue;
      }
      if StartsWith(tok, "-") {
        if tok == "-u" && idx + 1 < |tokens| {
          idx := idx + 2;
          continue;
        }
        idx := idx + 1;
        continue;
      }
      break;
    }
  }

  lemma CommandAfterAt(tokens: seq<string>, marker: string, s: nat)
    requires IndexOfElem(tokens, marker) == Some(s)
    ensures CommandAfter(tokens, marker) == CommandAt(tokens, SkipSudoOptions(tokens, s + 1))
  {
  }

}
