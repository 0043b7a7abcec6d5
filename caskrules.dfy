/**
 * The second half of `generate_sudoers_for_cask`: the fixed rule families
 * generated from each list the artifacts were sorted into, the
 * deduplication of the lines in first-seen order, and the final pass of
 * `_wildcard_versions_in_rule` over the deduplicated lines, in place.
 *
 * Which of two candidate paths of a tool exists (`os.path.exists`) and
 * how `str` renders a value that is not a string are parameters.
 */
module CaskRules {
  import opened Text
  import opened Metadata
  import opened PyPath
  import opened Sudoers
  import opened CaskArtifacts
  import Wildcard
  import Names
  import Braces
  import RulePass

  /** What one call of `generate_sudoers_for_cask` works with, host lookups included. */
  datatype Env = Env(
    token: string,
    user: string,
    brewPrefix: string,
    swiftUtil: string,
    repr: Json -> string,
    pathExists: string -> bool)

  /** A command the user may run without a password: `join_command(exe, args, allow_trailing_star)`. */
  datatype Command = Command(exe: string, args: seq<string>, trailingStar: bool)

  /** A command taking exactly the arguments given. */
  function Cmd(exe: string, args: seq<string>): Command
  {
    Command(exe, args, false)
  }

  /** The rule line granting `c`: the head, then the escaped command words. */
  function RuleOf(user: string, c: Command): string
  {
    Rule(user, c.exe, c.args, c.trailingStar)
  }

  /** The rule lines of a run of commands, one each, in order. */
  function Render(user: string, cmds: seq<Command>): seq<string>
  {
    Map(c => RuleOf(user, c), cmds)
  }

  /** `os.path.join(brew_prefix, 'Caskroom', token, '*', ...)` */
  function InCaskroom(env: Env, rel: seq<string>): string
  {
    PathJoinAll(env.brewPrefix, ["Caskroom", env.token, "*"] + rel)
  }

  /** `_wildcard_cask_path(path, token)` */
  function CaskGlob(env: Env, path: string): string
  {
    Wildcard.WildcardCaskPath(path, env.token, env.brewPrefix)
  }

  /** The first candidate that exists, else the fallback (`choose_kext_path`, `choose_userbin`, `choose_xargs`). */
  function FirstExisting(candidates: seq<string>, fallback: string, isPath: string -> bool): (r: string)
    ensures r == fallback || (r in candidates && isPath(r))
    ensures (forall k :: 0 <= k < |candidates| ==> !isPath(candidates[k])) ==> r == fallback
    ensures |candidates| > 0 && isPath(candidates[0]) ==> r == candidates[0]
    ensures forall j :: 0 <= j < |candidates| && isPath(candidates[j]) && (forall i :: 0 <= i < j ==> !isPath(candidates[i]))
              ==> r == candidates[j]
  {
    if |candidates| == 0 then fallback
    else if isPath(candidates[0]) then candidates[0]
    else
      var r := FirstExisting(candidates[1..], fallback, isPath);
      assert forall k :: 1 <= k < |candidates| ==> candidates[k] == candidates[1..][k - 1];
      r
  }

  /** `choose_kext_path(cmd)` */
  function KextTool(env: Env, cmd: string): string
  {
    FirstExisting([PathJoin("/usr/sbin", cmd), PathJoin("/sbin", cmd)], PathJoin("/usr/sbin", cmd), env.pathExists)
  }

  /** `choose_userbin(cmd)` */
  function UserBin(env: Env, cmd: string): string
  {
    FirstExisting([PathJoin("/usr/bin", cmd), PathJoin("/bin", cmd)], PathJoin("/usr/bin", cmd), env.pathExists)
  }

  // ----------------------------------------------------------------------
  // Apps

  function LowerChar(c: char): char
  {
    if 'A' <= c <= 'Z' then (c as int + 32) as char else c
  }

  /** `str.lower()` on ASCII letters. */
  function Lower(s: string): string
  {
    Map(LowerChar, s)
  }

  /**
   * Where an app is copied to: below `/Applications` when it names a
   * target; otherwise the override itself when it names an `.app` bundle
   * (in any letter case), else the source's name below the override or
   * `/Applications`.
   */
  function AppDest(src: string, tgt: Option<string>, override: Option<string>): string
  {
    if tgt.Some? then PathJoin("/Applications", tgt.value)
    else if override.Some? && EndsWith(Lower(override.value), ".app") then override.value
    else PathJoin(if override.Some? then override.value else "/Applications", src)
  }

  /** The write-test file inside an app's destination. */
  function Sentinel(destW: string): string
  {
    PathJoin(destW, ".homebrew-write-test")
  }

  /**
   * The sentinel as generate_homebrew_sudoers.py:1038-1040 passes it to
   * `join_command`: its spaces already escaped once, so `join_command`
   * escapes the backslash again.
   */
  function SentinelAsWritten(destW: string): (r: string)
    ensures ' ' in Sentinel(destW) ==> |r| > |Sentinel(destW)|
  {
    ReplaceCharLonger(Sentinel(destW), ' ', "\\ ");
    ReplaceChar(Sentinel(destW), ' ', "\\ ")
  }

  /**
   * As written, the touch rule for a destination with a space grants
   * `touch` of a path holding a backslash before each space, which is not
   * the sentinel path: sudoers reads the argument back with the first
   * escape undone but the second one kept.
   */
  lemma SentinelEscapedTwice(user: string, exe: string, flags: seq<string>, destW: string)
    requires ' ' in Sentinel(destW)
    ensures Words(Rule(user, exe, flags + [SentinelAsWritten(destW)], false)[|RuleHead(user)|..])
            == [exe] + flags + [SentinelAsWritten(destW)]
    ensures SentinelAsWritten(destW) != Sentinel(destW)
  {
    SentinelGrows(destW);
    RuleLastArg(user, exe, flags, SentinelAsWritten(destW));
  }

  /** A rule without the trailing star reads back as its command, its flags and its last argument. */
  lemma RuleLastArg(user: string, exe: string, flags: seq<string>, last: string)
    ensures Words(Rule(user, exe, flags + [last], false)[|RuleHead(user)|..]) == [exe] + flags + [last]
  {
    RuleCommand(user, exe, flags + [last], false);
  }

  lemma SentinelGrows(destW: string)
    requires ' ' in Sentinel(destW)
    ensures SentinelAsWritten(destW) != Sentinel(destW)
  {
    assert |SentinelAsWritten(destW)| > |Sentinel(destW)|;
  }

  /**
   * The ten rules for one app. The touch, rm and `rm -f --` rules take the
   * sentinel as the code passes it: spaces pre-escaped, then escaped again
   * by `join_command`.
   */
  function AppRules(env: Env, src: string, dest: string): seq<Command>
  {
    var srcW := Wildcard.WildcardAppPath(CaskGlob(env, InCaskroom(env, [src])));
    var destW := Wildcard.WildcardAppPath(dest);
    var sentinel := SentinelAsWritten(destW);
    var swiftArgs := ["-target", "arm64-apple-macosx*", env.swiftUtil, srcW, destW];
    [Cmd("/bin/rm", ["-R", "-f", "--", destW]),
     Cmd("/bin/rm", ["-R", "-f", "--", PathJoin(destW, "Contents")]),
     Cmd("/usr/bin/touch", [sentinel]),
     Cmd("/bin/rm", [sentinel]),
     Cmd("/bin/rm", ["-f", "--", sentinel]),
     Cmd("/bin/cp", ["-pR", srcW, destW]),
     Cmd("/bin/cp", ["-pR", PathJoin(srcW, "Contents"), destW]),
     Cmd("/usr/bin/swift", swiftArgs),
     Cmd("/Library/Developer/CommandLineTools/usr/bin/swift", swiftArgs),
     Cmd("/usr/sbin/chown", ["-R", "--", "*:staff", destW])]
  }

  /**
   * Escaped once, a sentinel rule grants exactly the sentinel path: sudoers
   * reads the rule back as its command, its flags and the path itself,
   * spaces included (the touch, rm and `rm -f --` rules of each app).
   */
  lemma SentinelReadsBack(user: string, exe: string, flags: seq<string>, destW: string)
    ensures Words(Rule(user, exe, flags + [Sentinel(destW)], false)[|RuleHead(user)|..])
            == [exe] + flags + [Sentinel(destW)]
  {
    RuleLastArg(user, exe, flags, Sentinel(destW));
  }

  /** One app: `os.path.join` raises on a source, or a truthy target, that is not a string. */
  function AppLines(env: Env, override: Option<string>, a: AppEntry): Result<seq<Command>>
  {
    match a.src
    case JStr(src) =>
      if !Truthy(a.tgt) then Success(AppRules(env, src, AppDest(src, None, override)))
      else (match a.tgt
        case JStr(t) => Success(AppRules(env, src, AppDest(src, Some(t), override)))
        case _ => Failure)
    case _ => Failure
  }

  function AppFamily(env: Env, override: Option<string>, apps: seq<AppEntry>): Result<seq<Command>>
  {
    FlatMapR(a => AppLines(env, override, a), apps)
  }

  // ----------------------------------------------------------------------
  // Installers and scripts

  function PkgLines(env: Env, pkg: string): seq<Command>
  {
    [Cmd("/usr/sbin/installer", ["-pkg", CaskGlob(env, InCaskroom(env, [Names.PkgName(pkg)])), "-target", "*"])]
  }

  /** The arguments, when all are strings (`sudo_escape` raises on anything else). */
  function AllStrings(xs: seq<Json>): (r: Option<seq<string>>)
    ensures r.Some? <==> forall k :: 0 <= k < |xs| ==> xs[k].JStr?
    ensures r.Some? ==> |r.value| == |xs| && forall k :: 0 <= k < |xs| ==> r.value[k] == xs[k].s
  {
    if |xs| == 0 then Some([])
    else if !xs[0].JStr? then None
    else match AllStrings(xs[1..])
      case None => None
      case Some(rest) => Some([xs[0].s] + rest)
  }

  /** One script run with `sudo`: a relative executable lives in the Caskroom; any arguments may follow. */
  function ScriptLines(env: Env, sc: ScriptEntry): Result<seq<Command>>
  {
    match sc.exec
    case JStr(exe) =>
      (match AllStrings(sc.args)
      case None => Failure
      case Some(args) =>
        var path := if StartsWith(exe, "/") then exe else InCaskroom(env, [exe]);
        Success([Command(CaskGlob(env, Names.ScriptName(path)), args, true)]))
    case _ => Failure
  }

  function ScriptFamily(env: Env, scripts: seq<ScriptEntry>): Result<seq<Command>>
  {
    FlatMapR(sc => ScriptLines(env, sc), scripts)
  }

  /** A manual installer: the bundle's `Contents/MacOS/<name>*` executable, with any arguments. */
  function ManualLines(env: Env, man: Json): Result<seq<Command>>
  {
    match man
    case JStr(m) =>
      var exe := InCaskroom(env, [m, "Contents", "MacOS", SplitExtRoot(Basename(m)) + "*"]);
      Success([Command(CaskGlob(env, exe), [], true)])
    case _ => Failure
  }

  function ManualFamily(env: Env, manuals: seq<Json>): Result<seq<Command>>
  {
    FlatMapR(m => ManualLines(env, m), manuals)
  }

  function PkgutilLines(env: Env, pid: Json): seq<Command>
  {
    [Cmd("/usr/sbin/pkgutil", ["--forget", Names.PkgutilId(PyStr(pid, env.repr))])]
  }

  // ----------------------------------------------------------------------
  // launchctl, processes and plists

  /** The label followed by its variants, each once, in order. */
  function BaseLabels(jobLabel: string): seq<string>
  {
    Dedup([jobLabel] + Names.LaunchctlLabels(jobLabel))
  }

  /** Removing `<name>.plist` from the daemon and agent directories. */
  function PlistRemoval(env: Env, name: string): seq<Command>
  {
    [Cmd("/bin/rm", ["-f", "--", Wildcard.WildcardDeletePath(PathJoin("/Library/LaunchDaemons", name + ".plist"))]),
     Cmd("/bin/rm", ["-f", "--", Wildcard.WildcardDeletePath(PathJoin("/Library/LaunchAgents", name + ".plist"))])]
  }

  function LabelLines(env: Env, jobLabel: string): seq<Command>
  {
    [Cmd("/bin/launchctl", ["list", jobLabel]), Cmd("/bin/launchctl", ["remove", jobLabel])] + PlistRemoval(env, jobLabel)
  }

  function LaunchLines(env: Env, entry: Json): seq<Command>
  {
    var jobLabel := PyStr(entry, env.repr);
    FlatMap(l => LabelLines(env, l), BaseLabels(jobLabel))
    + (if Contains(jobLabel, ".helper") then PlistRemoval(env, jobLabel) else [])
  }

  /** The process names a `signal` or `quit` directive covers: the label variants, or the name itself when there are none. */
  function ProcVariants(proc: string): seq<string>
  {
    var variants := Names.LaunchctlLabels(proc);
    if |variants| > 0 then variants else [proc]
  }

  function SignalProcLines(env: Env, signame: string, p: string): seq<Command>
  {
    [Cmd(UserBin(env, "pkill"), ["-" + signame, "-x", p]), Cmd(UserBin(env, "killall"), ["-" + signame, p])]
  }

  function SignalLines(env: Env, sig: (string, string)): seq<Command>
  {
    FlatMap(p => SignalProcLines(env, sig.0, p), ProcVariants(sig.1))
  }

  function QuitProcLines(env: Env, p: string): seq<Command>
  {
    [Cmd(UserBin(env, "killall"), [p])] + PlistRemoval(env, p)
  }

  function QuitLines(env: Env, proc: string): seq<Command>
  {
    FlatMap(p => QuitProcLines(env, p), ProcVariants(proc))
  }

  // ----------------------------------------------------------------------
  // Paths

  function DeleteLines(env: Env, p: Json): seq<Command>
  {
    if p.JStr? then
      var w := Wildcard.WildcardDeletePath(p.s);
      [Cmd("/bin/rm", ["-r", "-f", "--", w]), Cmd("/bin/rm", ["-f", "--", w])]
    else []
  }

  function RmdirOne(env: Env, path: string): seq<Command>
  {
    [Cmd("/bin/rmdir", ["--", Wildcard.WildcardDeletePath(path)])]
  }

  /** One `rmdir` rule for each expansion of the braces of the path. */
  function RmdirLines(env: Env, p: Json): seq<Command>
  {
    if p.JStr? then FlatMap(e => RmdirOne(env, e), Braces.Expand(p.s)) else []
  }

  function SetownLines(env: Env, p: Json): seq<Command>
  {
    if p.JStr? then [Cmd("/usr/sbin/chown", ["-R", "--", "*:staff", Wildcard.WildcardDeletePath(p.s)])] else []
  }

  function KextLines(env: Env, kext: Json): seq<Command>
  {
    var k := PyStr(kext, env.repr);
    [Cmd(KextTool(env, "kextstat"), ["-l", "-b", k]),
     Cmd(KextTool(env, "kextunload"), ["-b", k]),
     Cmd(KextTool(env, "kextload"), ["-b", k]),
     Cmd(KextTool(env, "kextfind"), ["-b", k])]
  }

  /** The three `xargs` cleanup rules every cask gets. */
  function XargsLines(env: Env): seq<Command>
  {
    var x := FirstExisting(["/usr/bin/xargs", "/bin/xargs"], "/usr/bin/xargs", env.pathExists);
    [Cmd(x, ["-0", "--", "/bin/rm", "--"]),
     Cmd(x, ["-0", "--", "/bin/rm", "-r", "-f", "--"]),
     Cmd(x, ["-0", "--", PathJoinAll(env.brewPrefix, ["Library", "Homebrew", "cask", "utils", "rmdir.sh"])])]
  }

  /** The families that cannot raise, from `pkgs` on, in the source's order, given the rendered scripts. */
  function Families(env: Env, b: Buckets, apps: seq<Command>, scripts: seq<Command>, manuals: seq<Command>,
                    unScripts: seq<Command>): seq<Command>
  {
    apps
    + FlatMap(p => PkgLines(env, p), b.pkgs)
    + scripts
    + manuals
    + FlatMap(x => PkgutilLines(env, x), b.pkgutil)
    + FlatMap(x => LaunchLines(env, x), b.launch)
    + unScripts
    + FlatMap(x => DeleteLines(env, x), b.delete + b.trash)
    + FlatMap(x => RmdirLines(env, x), b.rmdir)
    + FlatMap(x => SetownLines(env, x), b.setown)
    + FlatMap(x => KextLines(env, x), b.kexts)
    + FlatMap(x => SignalLines(env, x), b.signals)
    + FlatMap(x => QuitLines(env, x), b.quit)
    + XargsLines(env)
  }

  /** All rule lines, duplicates included; raising as soon as any family raises. */
  function RawLines(env: Env, b: Buckets): Result<seq<string>>
  {
    var override := DestDir(b.delete, b.trash, env.repr);
    var apps := AppFamily(env, override, b.apps);
    var scripts := ScriptFamily(env, b.instScripts);
    var manuals := ManualFamily(env, b.manuals);
    var unScripts := ScriptFamily(env, b.unScripts);
    if apps.Failure? || scripts.Failure? || manuals.Failure? || unScripts.Failure? then Failure
    else Success(Render(env.user, Families(env, b, apps.value, scripts.value, manuals.value, unScripts.value)))
  }

  /** The rule lines of a cask before deduplication, or the failure of classifying or rendering them. */
  function CaskRawLines(env: Env, cj: Object): Result<seq<string>>
  {
    match Classify(Artifacts(cj), env.repr)
    case Failure => Failure
    case Success(b) => RawLines(env, b)
  }

  /** `generate_sudoers_for_cask`: the distinct rule lines in first-seen order, each through the whole-rule pass. */
  function CaskRules(env: Env, cj: Object): Result<seq<string>>
  {
    match CaskRawLines(env, cj)
    case Failure => Failure
    case Success(lines) => Success(Map(RulePass.WildcardVersionsInRule, Dedup(lines)))
  }

  // ----------------------------------------------------------------------
  // The imperative parts

  /** The `seen`-set loop keeping the first occurrence of each line. */
  method DedupLines(lines: seq<string>) returns (unique: seq<string>)
    ensures unique == Dedup(lines)
  {
    unique := [];
    var seen: set<string> := {};
    for i := 0 to |lines|
      invariant unique == Dedup(lines[..i])
      invariant forall l :: l in seen <==> l in unique
    {
      assert lines[..i + 1] == lines[..i] + [lines[i]];
      DedupSnoc(lines[..i], lines[i]);
      if lines[i] !in seen {
        seen := seen + {lines[i]};
        unique := unique + [lines[i]];
      }
    }
    assert lines[..|lines|] == lines;
  }

  /** `unique_lines[i] = _wildcard_versions_in_rule(ln)` for every index, in place. */
  method WildcardAll(a: array<string>)
    modifies a
    ensures a[..] == Map(RulePass.WildcardVersionsInRule, old(a[..]))
  {
    ghost var before := a[..];
    for i := 0 to a.Length
      invariant forall k :: 0 <= k < i ==> a[k] == RulePass.WildcardVersionsInRule(before[k])
      invariant forall k :: i <= k < a.Length ==> a[k] == before[k]
    {
      a[i] := RulePass.WildcardVersionsInRule(a[i]);
    }
    MapPointwise(RulePass.WildcardVersionsInRule, before, a[..]);
  }

  /**
   * The rule lines of every family, in order, appended one at a time;
   * raising where a family raises. The commands of all families are
   * gathered first and then rendered by one appending loop.
   */
  method RenderLines(env: Env, b: Buckets) returns (r: Result<seq<string>>)
    ensures r == RawLines(env, b)
  {
    var override := DetermineDestDir(b.delete, b.trash, env.repr);
    var apps := AppFamily(env, override, b.apps);
    var scripts := ScriptFamily(env, b.instScripts);
    var manuals := ManualFamily(env, b.manuals);
    var unScripts := ScriptFamily(env, b.unScripts);
    if apps.Failure? || scripts.Failure? || manuals.Failure? || unScripts.Failure? {
      return Failure;
    }
    var cmds := Families(env, b, apps.value, scripts.value, manuals.value, unScripts.value);
    var lines := AppendRules(env.user, cmds);
    r := Success(lines);
  }

  /** `lines.append(...)` for each command in turn. */
  method AppendRules(user: string, cmds: seq<Command>) returns (lines: seq<string>)
    ensures lines == Render(user, cmds)
  {
    lines := [];
    for i := 0 to |cmds|
      invariant lines == Render(user, cmds[..i])
    {
      MapPrefix(c => RuleOf(user, c), cmds, i);
      lines := lines + [RuleOf(user, cmds[i])];
    }
    assert cmds[..|cmds|] == cmds;
  }

  /** The lines once each, in first-seen order, then rewritten in place. */
  method UniqueRules(lines: seq<string>) returns (rules: seq<string>)
    ensures rules == Map(RulePass.WildcardVersionsInRule, Dedup(lines))
  {
    var unique := DedupLines(lines);
    var a := new string[|unique|](i requires 0 <= i < |unique| => unique[i]);
    assert a[..] == unique;
    WildcardAll(a);
    rules := a[..];
  }

  /** `generate_sudoers_for_cask` */
  method GenerateForCask(env: Env, cj: Object) returns (r: Result<seq<string>>)
    ensures r == CaskRules(env, cj)
  {
    var arts := ParseArtifacts(cj);
    var classified := CollectArtifacts(arts, env.repr);
    if classified.Failure? {
      return Failure;
    }
    var lines := RenderLines(env, classified.value);
    if lines.Failure? {
      return Failure;
    }
    var rules := UniqueRules(lines.value);
    r := Success(rules);
  }

  // ----------------------------------------------------------------------
  // What the generated rules are

  /** `line` is the rule granting `c` to `user`. */
  predicate RawLineOf(user: string, line: string, c: Command)
  {
    StartsWith(line, RuleHead(user)) &&
    Words(line[|RuleHead(user)|..]) == [c.exe] + c.args + (if c.trailingStar then ["*"] else [])
  }

  /** A rendered rule starts with the user's head and its words read back as the command. */
  lemma RuleOfReadsBack(user: string, c: Command)
    ensures RawLineOf(user, RuleOf(user, c), c)
  {
    RuleCommand(user, c.exe, c.args, c.trailingStar);
  }

  /**
   * Every line of a cask, before deduplication, grants the user exactly
   * one of the commands of its families: it starts with the user's
   * `NOPASSWD: SETENV:` head and its words read back as that command.
   */
  lemma RawLinesAreRules(env: Env, b: Buckets)
    ensures RawLines(env, b).Success? ==>
      exists cmds: seq<Command> :: |cmds| == |RawLines(env, b).value| && forall k :: 0 <= k < |cmds| ==> RawLineOf(env.user, RawLines(env, b).value[k], cmds[k])
  {
    if RawLines(env, b).Success? {
      var override := DestDir(b.delete, b.trash, env.repr);
      var cmds := Families(env, b, AppFamily(env, override, b.apps).value, ScriptFamily(env, b.instScripts).value,
        ManualFamily(env, b.manuals).value, ScriptFamily(env, b.unScripts).value);
      RenderReadsBack(env.user, cmds);
    }
  }

  /** Each rendered line reads back as the command it was rendered from. */
  lemma RenderReadsBack(user: string, cmds: seq<Command>)
    ensures forall k :: 0 <= k < |cmds| ==> RawLineOf(user, Render(user, cmds)[k], cmds[k])
  {
    forall k | 0 <= k < |cmds|
      ensures RawLineOf(user, Render(user, cmds)[k], cmds[k])
    {
      RuleOfReadsBack(user, cmds[k]);
    }
  }

  /** A cask's output has one rule per distinct raw line: deduplication happens before the whole-rule pass. */
  lemma CaskRulesCount(env: Env, cj: Object)
    ensures CaskRules(env, cj).Success? <==> CaskRawLines(env, cj).Success?
    ensures CaskRules(env, cj).Success? ==>
      |CaskRules(env, cj).value| == |set l | l in CaskRawLines(env, cj).value|
  {
    if CaskRawLines(env, cj).Success? {
      DedupCount(CaskRawLines(env, cj).value);
    }
  }

  /** The output is exactly the rewritten raw lines: each output rule comes from one, and every raw line's rewrite is there. */
  lemma CaskRulesAreRewrites(env: Env, cj: Object)
    ensures CaskRules(env, cj).Success? ==>
      forall k :: 0 <= k < |CaskRules(env, cj).value| ==>
        exists l :: l in CaskRawLines(env, cj).value && CaskRules(env, cj).value[k] == RulePass.WildcardVersionsInRule(l)
    ensures CaskRules(env, cj).Success? ==>
      forall l :: l in CaskRawLines(env, cj).value ==> RulePass.WildcardVersionsInRule(l) in CaskRules(env, cj).value
  {
    if CaskRawLines(env, cj).Success? {
      var raw := CaskRawLines(env, cj).value;
      var rules := CaskRules(env, cj).value;
      assert rules == Map(RulePass.WildcardVersionsInRule, Dedup(raw));
      MapDedup(RulePass.WildcardVersionsInRule, raw);
      forall k | 0 <= k < |rules|
        ensures exists l :: l in raw && rules[k] == RulePass.WildcardVersionsInRule(l)
      {
        var l := Dedup(raw)[k];
        assert l in raw && rules[k] == RulePass.WildcardVersionsInRule(l);
      }
    }
  }

  /** Three commands of one executable whose argument counts differ render as three different rules. */
  lemma ThreeRulesDistinct(user: string, exe: string, a0: seq<string>, a1: seq<string>, a2: seq<string>)
    requires |a0| != |a1| && |a0| != |a2| && |a1| != |a2|
    ensures NoDuplicates(Render(user, [Cmd(exe, a0), Cmd(exe, a1), Cmd(exe, a2)]))
  {
    var r := Render(user, [Cmd(exe, a0), Cmd(exe, a1), Cmd(exe, a2)]);
    RuleArgsDistinct(user, exe, a0, a1);
    RuleArgsDistinct(user, exe, a0, a2);
    RuleArgsDistinct(user, exe, a1, a2);
    assert r[0] != r[1] && r[0] != r[2] && r[1] != r[2];
  }

  /** The three `xargs` commands render as three different rules. */
  lemma XargsDistinct(env: Env)
    ensures |XargsLines(env)| == 3
    ensures NoDuplicates(Render(env.user, XargsLines(env)))
  {
    var x := FirstExisting(["/usr/bin/xargs", "/bin/xargs"], "/usr/bin/xargs", env.pathExists);
    var rmdirSh := PathJoinAll(env.brewPrefix, ["Library", "Homebrew", "cask", "utils", "rmdir.sh"]);
    ThreeRulesDistinct(env.user, x, ["-0", "--", "/bin/rm", "--"], ["-0", "--", "/bin/rm", "-r", "-f", "--"], ["-0", "--", rmdirSh]);
  }

  /** The rendered `xargs` commands close every successful run of raw lines. */
  lemma XargsLast(env: Env, b: Buckets)
    ensures RawLines(env, b).Success? ==>
      var v := RawLines(env, b).value; |v| >= 3 && v[|v| - 3..] == Render(env.user, XargsLines(env))
  {
    if RawLines(env, b).Success? {
      var override := DestDir(b.delete, b.trash, env.repr);
      RenderedFamiliesEndWithXargs(env, b, AppFamily(env, override, b.apps).value, ScriptFamily(env, b.instScripts).value,
        ManualFamily(env, b.manuals).value, ScriptFamily(env, b.unScripts).value);
    }
  }

  lemma RenderedFamiliesEndWithXargs(env: Env, b: Buckets, apps: seq<Command>, scripts: seq<Command>,
                                     manuals: seq<Command>, unScripts: seq<Command>)
    ensures var v := Render(env.user, Families(env, b, apps, scripts, manuals, unScripts));
      |v| >= 3 && v[|v| - 3..] == Render(env.user, XargsLines(env))
  {
    var cmds := Families(env, b, apps, scripts, manuals, unScripts);
    FamiliesEndWithXargs(env, b, apps, scripts, manuals, unScripts);
    RenderSuffix(env.user, cmds, |cmds| - 3);
  }

  lemma RenderSuffix(user: string, cmds: seq<Command>, k: nat)
    requires k <= |cmds|
    ensures Render(user, cmds)[k..] == Render(user, cmds[k..])
  {
    MapSuffix(c => RuleOf(user, c), cmds, k);
  }

  /** Whatever the families hold, the three `xargs` commands come last. */
  lemma FamiliesEndWithXargs(env: Env, b: Buckets, apps: seq<Command>, scripts: seq<Command>, manuals: seq<Command>,
                             unScripts: seq<Command>)
    ensures var cmds := Families(env, b, apps, scripts, manuals, unScripts);
      |cmds| >= 3 && cmds[|cmds| - 3..] == XargsLines(env)
  {
    var cmds := Families(env, b, apps, scripts, manuals, unScripts);
    var init := cmds[..|cmds| - 3];
    assert cmds == init + XargsLines(env);
  }

  /** Every cask that does not raise gets the three `xargs` cleanup rules, rewritten, so at least three rules. */
  lemma XargsRulesAlways(env: Env, cj: Object)
    ensures CaskRules(env, cj).Success? ==> |CaskRules(env, cj).value| >= 3
    ensures CaskRules(env, cj).Success? ==>
      forall l :: l in Render(env.user, XargsLines(env)) ==> RulePass.WildcardVersionsInRule(l) in CaskRules(env, cj).value
  {
    if CaskRawLines(env, cj).Success? {
      var b := Classify(Artifacts(cj), env.repr).value;
      var raw := CaskRawLines(env, cj).value;
      assert raw == RawLines(env, b).value;
      XargsLast(env, b);
      XargsDistinct(env);
      DistinctTailKept(RulePass.WildcardVersionsInRule, raw, Render(env.user, XargsLines(env)));
    }
  }

  // ----------------------------------------------------------------------
  // When rendering raises

  /** An app renders when its source is a string and its target is either falsy or a string. */
  predicate AppRenders(a: AppEntry)
  {
    a.src.JStr? && (!Truthy(a.tgt) || a.tgt.JStr?)
  }

  /** A script renders when its executable and all its arguments are strings. */
  predicate ScriptRenders(sc: ScriptEntry)
  {
    sc.exec.JStr? && forall k :: 0 <= k < |sc.args| ==> sc.args[k].JStr?
  }

  lemma ScriptFamilySucceeds(env: Env, scripts: seq<ScriptEntry>)
    ensures ScriptFamily(env, scripts).Success? <==> forall k :: 0 <= k < |scripts| ==> ScriptRenders(scripts[k])
  {
    FlatMapRSuccess(sc => ScriptLines(env, sc), scripts);
  }

  lemma AppFamilySucceeds(env: Env, override: Option<string>, apps: seq<AppEntry>)
    ensures AppFamily(env, override, apps).Success? <==> forall k :: 0 <= k < |apps| ==> AppRenders(apps[k])
  {
    FlatMapRSuccess(a => AppLines(env, override, a), apps);
    forall k | 0 <= k < |apps| {
      AppLinesSucceeds(env, override, apps[k]);
    }
  }

  lemma AppLinesSucceeds(env: Env, override: Option<string>, a: AppEntry)
    ensures AppLines(env, override, a).Success? <==> AppRenders(a)
  {
  }

  lemma ManualFamilySucceeds(env: Env, manuals: seq<Json>)
    ensures ManualFamily(env, manuals).Success? <==> forall k :: 0 <= k < |manuals| ==> manuals[k].JStr?
  {
    FlatMapRSuccess(m => ManualLines(env, m), manuals);
    forall k | 0 <= k < |manuals| {
      ManualLinesSucceeds(env, manuals[k]);
    }
  }

  lemma ManualLinesSucceeds(env: Env, m: Json)
    ensures ManualLines(env, m).Success? <==> m.JStr?
  {
  }

  /**
   * Rendering the sorted artifacts raises exactly when an app's source,
   * or its truthy target, is not a string, when a script's executable or
   * one of its arguments is not a string, or when a manual installer is
   * not a string; every other family renders whatever it is given.
   */
  lemma RawLinesSucceeds(env: Env, b: Buckets)
    ensures RawLines(env, b).Success? <==>
      (forall k :: 0 <= k < |b.apps| ==> AppRenders(b.apps[k])) &&
      (forall k :: 0 <= k < |b.instScripts| ==> ScriptRenders(b.instScripts[k])) &&
      (forall k :: 0 <= k < |b.manuals| ==> b.manuals[k].JStr?) &&
      (forall k :: 0 <= k < |b.unScripts| ==> ScriptRenders(b.unScripts[k]))
  {
    RawLinesFamilies(env, b);
    AppFamilySucceeds(env, DestDir(b.delete, b.trash, env.repr), b.apps);
    ScriptFamilySucceeds(env, b.instScripts);
    ManualFamilySucceeds(env, b.manuals);
    ScriptFamilySucceeds(env, b.unScripts);
  }

  /** Rendering raises exactly when one of the four families that can raise does. */
  lemma RawLinesFamilies(env: Env, b: Buckets)
    ensures RawLines(env, b).Success? <==>
      AppFamily(env, DestDir(b.delete, b.trash, env.repr), b.apps).Success? && ScriptFamily(env, b.instScripts).Success?
      && ManualFamily(env, b.manuals).Success? && ScriptFamily(env, b.unScripts).Success?
  {
  }

  // ----------------------------------------------------------------------
  // How many commands each family contributes

  /** Ten commands per app, one per script and one per manual installer. */
  lemma ResultFamilyLengths(env: Env, override: Option<string>, b: Buckets)
    ensures AppFamily(env, override, b.apps).Success? ==> |AppFamily(env, override, b.apps).value| == 10 * |b.apps|
    ensures ScriptFamily(env, b.instScripts).Success? ==> |ScriptFamily(env, b.instScripts).value| == |b.instScripts|
    ensures ManualFamily(env, b.manuals).Success? ==> |ManualFamily(env, b.manuals).value| == |b.manuals|
  {
    AppFamilyLength(env, override, b.apps);
    ScriptFamilyLength(env, b.instScripts);
    ManualFamilyLength(env, b.manuals);
  }

  lemma AppFamilyLength(env: Env, override: Option<string>, apps: seq<AppEntry>)
    ensures AppFamily(env, override, apps).Success? ==> |AppFamily(env, override, apps).value| == 10 * |apps|
  {
    forall a | AppLines(env, override, a).Success?
      ensures |AppLines(env, override, a).value| == 10
    {
      AppLinesLength(env, override, a);
    }
    FlatMapRLength(a => AppLines(env, override, a), apps, 10);
  }

  lemma AppLinesLength(env: Env, override: Option<string>, a: AppEntry)
    requires AppLines(env, override, a).Success?
    ensures |AppLines(env, override, a).value| == 10
  {
  }

  lemma ScriptFamilyLength(env: Env, scripts: seq<ScriptEntry>)
    ensures ScriptFamily(env, scripts).Success? ==> |ScriptFamily(env, scripts).value| == |scripts|
  {
    FlatMapRLength(sc => ScriptLines(env, sc), scripts, 1);
  }

  lemma ManualFamilyLength(env: Env, manuals: seq<Json>)
    ensures ManualFamily(env, manuals).Success? ==> |ManualFamily(env, manuals).value| == |manuals|
  {
    FlatMapRLength(m => ManualLines(env, m), manuals, 1);
  }

  /** One command per package, receipt and ownership path, two per deleted or trashed path and four per kext. */
  lemma PlainFamilyLengths(env: Env, b: Buckets)
    ensures |FlatMap(p => PkgLines(env, p), b.pkgs)| == |b.pkgs|
    ensures |FlatMap(x => PkgutilLines(env, x), b.pkgutil)| == |b.pkgutil|
    ensures |FlatMap(x => KextLines(env, x), b.kexts)| == 4 * |b.kexts|
  {
    FlatMapLength(p => PkgLines(env, p), b.pkgs, 1);
    FlatMapLength(x => PkgutilLines(env, x), b.pkgutil, 1);
    FlatMapLength(x => KextLines(env, x), b.kexts, 4);
  }

  // ----------------------------------------------------------------------
  // launchctl labels and process names

  /** The label comes first, no label repeats, and the others are exactly its variants: at most four in all. */
  lemma BaseLabelsFacts(jobLabel: string)
    ensures |BaseLabels(jobLabel)| > 0 && BaseLabels(jobLabel)[0] == jobLabel
    ensures |BaseLabels(jobLabel)| <= 4
    ensures NoDuplicates(BaseLabels(jobLabel))
    ensures forall l :: l in BaseLabels(jobLabel) <==> l == jobLabel || l in Names.LaunchctlLabels(jobLabel)
  {
    var all := [jobLabel] + Names.LaunchctlLabels(jobLabel);
    Names.LaunchctlVariants(jobLabel);
    DedupHead(all);
    DedupLength(all);
    DedupElements(all);
  }

  /** Four commands per label (list, remove and two plists), and two more for the exact plist of a helper label. */
  lemma LaunchLinesLength(env: Env, entry: Json)
    ensures var jobLabel := PyStr(entry, env.repr);
      |LaunchLines(env, entry)| == 4 * |BaseLabels(jobLabel)| + (if Contains(jobLabel, ".helper") then 2 else 0)
  {
    FlatMapLength(l => LabelLines(env, l), BaseLabels(PyStr(entry, env.repr)), 4);
  }

  /** A process name stands for itself exactly when it has no wildcard variants; there are one to three names. */
  lemma ProcVariantsFacts(proc: string)
    ensures 1 <= |ProcVariants(proc)| <= 3
    ensures proc in ProcVariants(proc) <==> Names.LaunchctlLabels(proc) == []
    ensures Names.LaunchctlLabels(proc) != [] ==> forall k :: 0 <= k < |ProcVariants(proc)| ==> '*' in ProcVariants(proc)[k]
  {
    Names.LaunchctlVariants(proc);
  }

  /** Two commands (pkill, killall) per process name for a signal, three (killall, two plists) for a quit. */
  lemma SignalQuitLengths(env: Env, sig: (string, string), proc: string)
    ensures |SignalLines(env, sig)| == 2 * |ProcVariants(sig.1)|
    ensures |QuitLines(env, proc)| == 3 * |ProcVariants(proc)|
  {
    FlatMapLength(p => SignalProcLines(env, sig.0, p), ProcVariants(sig.1), 2);
    FlatMapLength(p => QuitProcLines(env, p), ProcVariants(proc), 3);
  }

  // ----------------------------------------------------------------------
  // App destinations and brace paths

  /**
   * An app without a target goes below `/Applications`, unless the
   * uninstall paths name an application directory: then into that
   * directory, or onto it when it is itself an `.app` bundle.
   */
  lemma AppDestFromUninstall(delete: seq<Json>, trash: seq<Json>, repr: Json -> string, src: string)
    requires !StartsWith(src, "/")
    ensures var d := DestDir(delete, trash, repr);
      AppDest(src, None, d) ==
        if d.None? then "/Applications/" + src
        else if EndsWith(Lower(d.value), ".app") then d.value
        else d.value + "/" + src
  {
    var d := DestDir(delete, trash, repr);
    if d.Some? {
      DestDirNoTrailingSlash(delete, trash, repr);
      PathJoinInserts(d.value, src);
    }
  }

  /** The override directory never ends in `/`: its last segment is a non-empty directory name. */
  lemma DestDirNoTrailingSlash(delete: seq<Json>, trash: seq<Json>, repr: Json -> string)
    requires DestDir(delete, trash, repr).Some?
    ensures var d := DestDir(delete, trash, repr).value; |d| > 0 && d[|d| - 1] != '/'
  {
    var d := DestDir(delete, trash, repr).value;
    DestDirShape(delete, trash, repr);
    var p, dir :| p in trash + delete && AppDirMatch(PyStr(p, repr), dir) && d == "/Applications/" + dir;
    assert d[|d| - 1] == dir[|dir| - 1];
    assert dir[|dir| - 1] in dir;
  }

  lemma PathJoinInserts(a: string, b: string)
    requires |a| > 0 && a[|a| - 1] != '/' && !StartsWith(b, "/")
    ensures PathJoin(a, b) == a + "/" + b
  {
  }

  /** A nested optional group such as `Adobe{/CEP{/extensions,},}` gives one `rmdir` per directory, deepest first. */
  lemma RmdirNestedOptional(env: Env, a: string, b: string, c: string, path: string)
    requires Braces.Plain(a) && Braces.Plain(b) && ',' !in b && Braces.Plain(c) && ',' !in c
    requires path == a + "{" + b + "{" + c + ",}" + ",}"
    ensures RmdirLines(env, JStr(path)) == RmdirOne(env, a + b + c) + RmdirOne(env, a + b) + RmdirOne(env, a)
  {
    Braces.ExpandNestedOptional(a, b, c, path);
    FlatMapThree(e => RmdirOne(env, e), a + b + c, a + b, a);
  }
}
