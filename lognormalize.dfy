/**
 * `_normalize_log_command`: turn one command found in a `sudo` log line
 * into one or more sudoers rule lines (several lines are joined with
 * newlines), or `None` when the line should be ignored.
 *
 * The host lookups are parameters: `which` stands for `shutil.which`
 * (`None` when the name is not on the `PATH`) and `isExecutable(p)` for
 * `os.path.exists(p) and os.access(p, os.X_OK)`.
 */
module LogNormalize {
  import opened Text
  import opened PyPath
  import opened Sudoers
  import Wildcard
  import Names

  // ----------------------------------------------------------------------
  // Resolving a bare command name

  /** The directories searched when `which` finds nothing. */
  const SearchDirs: seq<string> := ["/usr/bin", "/bin", "/usr/sbin", "/sbin"]

  /** Python truthiness of an optional string. */
  predicate Truthy(o: Option<string>)
  {
    o.Some? && |o.value| > 0
  }

  /** The `for ... else` search: the first directory holding an executable `cmd`. */
  function FirstExecutable(dirs: seq<string>, cmd: string, isExecutable: string -> bool): (r: Option<string>)
    ensures r.Some? ==> isExecutable(r.value) && exists d :: d in dirs && r.value == PathJoin(d, cmd)
    ensures r.None? <==> forall d :: d in dirs ==> !isExecutable(PathJoin(d, cmd))
    ensures r.Some? ==> exists j :: 0 <= j < |dirs| && r.value == PathJoin(dirs[j], cmd)
                          && forall i :: 0 <= i < j ==> !isExecutable(PathJoin(dirs[i], cmd))
  {
    FirstCandidate(dirs, d => PathJoin(d, cmd), isExecutable)
  }

  /** The search of `FirstExecutable` with the path built from a directory left abstract. */
  function FirstCandidate(dirs: seq<string>, candidate: string -> string, isExecutable: string -> bool): (r: Option<string>)
    ensures r.Some? ==> isExecutable(r.value) && exists d :: d in dirs && r.value == candidate(d)
    ensures r.None? <==> forall d :: d in dirs ==> !isExecutable(candidate(d))
    ensures r.Some? ==> exists j :: 0 <= j < |dirs| && r.value == candidate(dirs[j])
                          && forall i :: 0 <= i < j ==> !isExecutable(candidate(dirs[i]))
  {
    if |dirs| == 0 then None
    else if isExecutable(candidate(dirs[0])) then Some(candidate(dirs[0]))
    else
      assert forall d :: d in dirs ==> d == dirs[0] || d in dirs[1..];
      var r := FirstCandidate(dirs[1..], candidate, isExecutable);
      if r.Some? then FirstCandidateShift(dirs, dirs[1..], candidate, isExecutable, r.value); r else r
  }

  /** A first executable candidate of `dirs[1..]` is one of `dirs` when `dirs[0]` gives none. */
  lemma FirstCandidateShift(dirs: seq<string>, rest: seq<string>, candidate: string -> string, isExecutable: string -> bool, v: string)
    requires |dirs| > 0 && rest == dirs[1..] && !isExecutable(candidate(dirs[0]))
    requires exists j :: 0 <= j < |rest| && v == candidate(rest[j])
                         && forall i :: 0 <= i < j ==> !isExecutable(candidate(rest[i]))
    ensures exists j :: 0 <= j < |dirs| && v == candidate(dirs[j])
                        && forall i :: 0 <= i < j ==> !isExecutable(candidate(dirs[i]))
  {
    var j :| 0 <= j < |rest| && v == candidate(rest[j])
             && forall i :: 0 <= i < j ==> !isExecutable(candidate(rest[i]));
    var k := j + 1;
    assert dirs[k] == rest[j];
    forall i | 0 <= i < k
      ensures !isExecutable(candidate(dirs[i]))
    {
      if i > 0 {
        assert dirs[i] == rest[i - 1];
      }
    }
  }

  /**
   * The command after resolution: absolute (or empty) names are kept, a bare
   * name becomes what `which` says or the first executable in `SearchDirs`,
   * and `None` means the name cannot be resolved.
   */
  function ResolveCommand(cmd: string, which: string -> Option<string>, isExecutable: string -> bool): (r: Option<string>)
    ensures |cmd| == 0 || StartsWith(cmd, "/") ==> r == Some(cmd)
    ensures |cmd| > 0 && !StartsWith(cmd, "/") && Truthy(which(cmd)) ==> r == which(cmd)
    ensures r.None? <==> |cmd| > 0 && !StartsWith(cmd, "/") && !Truthy(which(cmd))
                          && forall d :: d in SearchDirs ==> !isExecutable(PathJoin(d, cmd))
  {
    if |cmd| > 0 && !StartsWith(cmd, "/") then
      if Truthy(which(cmd)) then which(cmd) else FirstExecutable(SearchDirs, cmd, isExecutable)
    else Some(cmd)
  }

  // ----------------------------------------------------------------------
  // The Caskroom version directory

  /**
   * For a path under the brew prefix that mentions `/Caskroom/`, the
   * segment two after the first `Caskroom` segment becomes `*`.
   */
  function StarCaskroomVersion(path: string, brewPrefix: string): string
  {
    if StartsWith(path, brewPrefix) && Contains(path, "/Caskroom/") then StarAfterSegment(path, "Caskroom") else path
  }

  /** The segment two after the first `key` segment becomes `*`; the path is rebuilt from its segments. */
  function StarAfterSegment(path: string, key: string): string
  {
    var parts := Split(path, '/');
    match IndexOfElem(parts, key)
    case None => path
    case Some(idx) => if idx + 2 < |parts| then Join(parts[idx + 2 := "*"], "/") else Join(parts, "/")
  }

  /**
   * `r` has the segments `parts` with the one two after position `idx`
   * replaced by `*`, where `idx` is the first `key` segment.
   */
  predicate StarredAfter(parts: seq<string>, key: string, idx: int, r: string)
  {
    0 <= idx && idx + 2 < |parts| && parts[idx] == key && key !in parts[..idx]
    && Split(r, '/') == parts[idx + 2 := "*"]
  }

  lemma StarAfterSegmentSegments(path: string, key: string)
    ensures var r := StarAfterSegment(path, key);
      r == path || exists idx :: StarredAfter(Split(path, '/'), key, idx, r)
  {
    var parts := Split(path, '/');
    var r := StarAfterSegment(path, key);
    match IndexOfElem(parts, key)
    case None =>
    case Some(idx) =>
      if idx + 2 < |parts| {
        assert r == Join(parts[idx + 2 := "*"], "/");
        assert Split(r, '/') == parts[idx + 2 := "*"] by {
          SplitUpdateJoin(path, '/', idx + 2, "*");
        }
        assert StarredAfter(parts, key, idx, r);
        assert exists i :: StarredAfter(Split(path, '/'), key, i, StarAfterSegment(path, key));
      } else {
        assert r == path by {
          JoinSplit(path, '/');
        }
      }
  }

  /**
   * Only the version segment changes: the result has the same segments as
   * the path except that the one two after the first `Caskroom` is `*`.
   */
  lemma StarCaskroomVersionSegments(path: string, brewPrefix: string)
    ensures var r := StarCaskroomVersion(path, brewPrefix);
      r == path || exists idx :: StarredAfter(Split(path, '/'), "Caskroom", idx, r)
  {
    StarAfterSegmentSegments(path, "Caskroom");
  }

  // ----------------------------------------------------------------------
  // chown: the owner becomes `*`

  /** An argument of the form `<owner>:staff` that is not a flag. */
  predicate IsOwnerStaff(a: string)
  {
    ':' in a && !StartsWith(a, "-") && var parts := Split(a, ':'); |parts| == 2 && parts[1] == "staff"
  }

  /** The position of the first `<owner>:staff` argument. */
  function FirstOwnerArg(args: seq<string>): (r: Option<nat>)
    ensures r.Some? ==> r.value < |args| && IsOwnerStaff(args[r.value])
    ensures r.Some? ==> forall j :: 0 <= j < r.value ==> !IsOwnerStaff(args[j])
    ensures r.None? <==> forall j :: 0 <= j < |args| ==> !IsOwnerStaff(args[j])
  {
    if |args| == 0 then None
    else if IsOwnerStaff(args[0]) then Some(0)
    else match FirstOwnerArg(args[1..])
      case None => None
      case Some(k) => Some(k + 1)
  }

  /** The chown arguments with the first `<owner>:staff` replaced by `*:staff`. */
  function ChownArgs(args: seq<string>): (r: seq<string>)
    ensures |r| == |args|
  {
    match FirstOwnerArg(args)
    case None => args
    case Some(k) => args[k := "*:staff"]
  }

  /** Argument by argument: exactly the first `<owner>:staff` argument becomes `*:staff`. */
  lemma ChownArgsPointwise(args: seq<string>)
    ensures var r := ChownArgs(args);
      forall j :: 0 <= j < |r| ==>
        r[j] == if IsOwnerStaff(args[j]) && forall i :: 0 <= i < j ==> !IsOwnerStaff(args[i]) then "*:staff" else args[j]
  {
  }

  /** One more argument of the rewritten list: `*:staff` exactly at the first owner argument. */
  lemma ChownArgsStep(args: seq<string>, i: nat)
    requires i < |args|
    ensures var f := FirstOwnerArg(args);
      ChownArgs(args)[..i + 1]
        == ChownArgs(args)[..i] + [if IsOwnerStaff(args[i]) && !(f.Some? && f.value < i) then "*:staff" else args[i]]
  {
    PrefixSnoc(ChownArgs(args), i);
    ChownArgsAt(args, i);
  }

  /** The first owner argument is passed once the scan passes an owner argument. */
  lemma FirstOwnerStep(args: seq<string>, i: nat)
    requires i < |args|
    ensures var f := FirstOwnerArg(args);
      (f.Some? && f.value < i + 1) <==> (f.Some? && f.value < i) || IsOwnerStaff(args[i])
  {
    var f := FirstOwnerArg(args);
    if IsOwnerStaff(args[i]) {
      assert f.Some? && f.value <= i;
    }
  }

  /** The rewritten argument at `i`. */
  lemma ChownArgsAt(args: seq<string>, i: nat)
    requires i < |args|
    ensures var f := FirstOwnerArg(args);
      ChownArgs(args)[i] == if IsOwnerStaff(args[i]) && !(f.Some? && f.value < i) then "*:staff" else args[i]
  {
    match FirstOwnerArg(args)
    case None =>
    case Some(k) =>
      if IsOwnerStaff(args[i]) && !(k < i) {
        assert k == i;
      }
  }

  /** The argument loop for chown, with its `replaced` flag. */
  method RewriteChownArgs(args: seq<string>) returns (newArgs: seq<string>)
    ensures newArgs == ChownArgs(args)
  {
    newArgs := [];
    var replaced := false;
    for i := 0 to |args|
      invariant newArgs == ChownArgs(args)[..i]
      invariant replaced <==> FirstOwnerArg(args).Some? && FirstOwnerArg(args).value < i
    {
      var a := args[i];
      ChownArgsStep(args, i);
      FirstOwnerStep(args, i);
      if !replaced && ':' in a && !StartsWith(a, "-") {
        var parts := Split(a, ':');
        if |parts| == 2 && parts[1] == "staff" {
          assert IsOwnerStaff(a);
          newArgs := newArgs + ["*:staff"];
          replaced := true;
          continue;
        }
      }
      newArgs := newArgs + [a];
    }
  }

  // ----------------------------------------------------------------------
  // cp, rm and the fallback

  /** cp: the source loses its Caskroom version and both source and destination their app-bundle versions. */
  function CpArgs(args: seq<string>, brewPrefix: string): (r: seq<string>)
    requires |args| >= 2
    ensures |r| == |args| && r[..|args| - 2] == args[..|args| - 2]
  {
    args[..|args| - 2]
      + [Wildcard.WildcardAppPath(StarCaskroomVersion(args[|args| - 2], brewPrefix)), Wildcard.WildcardAppPath(args[|args| - 1])]
  }

  /** rm: only the last argument is wildcarded, as a deletion path. */
  function RmArgs(args: seq<string>): (r: seq<string>)
    requires |args| >= 1
    ensures |r| == |args| && r[..|args| - 1] == args[..|args| - 1]
  {
    args[..|args| - 1] + [Wildcard.WildcardDeletePath(args[|args| - 1])]
  }

  /** Fallback: absolute arguments are wildcarded as deletion paths, the rest kept. */
  function FallbackArg(a: string): (r: string)
    ensures !StartsWith(a, "/") ==> r == a
    ensures StartsWith(a, "/") ==> r == Wildcard.WildcardDeletePath(a)
  {
    if StartsWith(a, "/") then Wildcard.WildcardDeletePath(a) else a
  }

  // ----------------------------------------------------------------------
  // installer

  /** What the installer argument scan collects. */
  datatype InstallerScan = InstallerScan(pkg: Option<string>, xml: Option<string>, others: seq<string>)

  /** The package path: Caskroom version starred, then the file name's version wildcarded. */
  function WildPkgPath(p: string, brewPrefix: string): string
  {
    var (dir, file) := PathSplit(StarCaskroomVersion(p, brewPrefix));
    PathJoin(dir, Names.PkgName(file))
  }

  /** The choices file keeps its directory; its name becomes `choices*.xml` or `*.xml`. */
  function WildXmlPath(x: string): (r: string)
    ensures EndsWith(r, "*.xml")
    ensures StartsWith(r, PathSplit(x).0)
    ensures Basename(r) == if StartsWith(Basename(x), "choices") then "choices*.xml" else "*.xml"
  {
    var (dir, file) := PathSplit(x);
    var name := if StartsWith(file, "choices") then "choices*.xml" else "*.xml";
    XmlNameFacts(name);
    EndsWithTrans(PathJoin(dir, name), name, "*.xml");
    PathJoinKeepsDir(dir, name);
    BasenameOfJoin(dir, name);
    PathJoin(dir, name)
  }

  /** Both choices-file names end in `*.xml` and are plain names, neither absolute nor holding a `/`. */
  lemma XmlNameFacts(name: string)
    requires name == "choices*.xml" || name == "*.xml"
    ensures EndsWith(name, "*.xml") && |name| > 0 && '/' !in name && !StartsWith(name, "/")
  {
    assert name[0] != '/';
  }

  /** Steps over `-verbose*` flags. */
  function SkipVerbose(args: seq<string>, i: nat): (r: nat)
    requires i <= |args|
    ensures i <= r <= |args|
    ensures forall k :: i <= k < r ==> StartsWith(args[k], "-verbose")
    ensures r < |args| ==> !StartsWith(args[r], "-verbose")
    decreases |args| - i
  {
    if i < |args| && StartsWith(args[i], "-verbose") then SkipVerbose(args, i + 1) else i
  }

  /** After `-target`: its value, unless that looks like a flag, then any `-verbose*` flags. */
  function AfterTarget(args: seq<string>, i: nat): (r: nat)
    requires i <= |args|
    ensures i <= r <= |args|
  {
    SkipVerbose(args, if i < |args| && !StartsWith(args[i], "-") then i + 1 else i)
  }

  /** The scan over the installer arguments from position `i`, `acc` holding what was collected so far. */
  function ScanInstallerArgs(args: seq<string>, brewPrefix: string, i: nat, acc: InstallerScan): (r: InstallerScan)
    requires i <= |args|
    decreases |args| - i
  {
    if i == |args| then acc
    else
      var a := args[i];
      if a == "-pkg" && i + 1 < |args| then
        ScanInstallerArgs(args, brewPrefix, i + 2, acc.(pkg := Some(WildPkgPath(args[i + 1], brewPrefix))))
      else if a == "-target" then ScanInstallerArgs(args, brewPrefix, AfterTarget(args, i + 1), acc)
      else if a == "-applyChoiceChangesXML" && i + 1 < |args| then
        ScanInstallerArgs(args, brewPrefix, i + 2, acc.(xml := Some(WildXmlPath(args[i + 1]))))
      else if StartsWith(a, "-verbose") then ScanInstallerArgs(args, brewPrefix, i + 1, acc)
      else ScanInstallerArgs(args, brewPrefix, i + 1, acc.(others := acc.others + [a]))
  }

  /**
   * What the scan keeps: the flags passed through are arguments of the
   * call but never `-target` or a `-verbose*` flag; a package path comes
   * from the argument after some `-pkg`; a choices path names an `.xml`.
   */
  lemma {:induction false} ScanInstallerFacts(args: seq<string>, brewPrefix: string, i: nat, acc: InstallerScan)
    requires i <= |args|
    ensures var r := ScanInstallerArgs(args, brewPrefix, i, acc);
      (forall o :: o in r.others && o !in acc.others ==> o in args && o != "-target" && !StartsWith(o, "-verbose"))
      && (r.pkg == acc.pkg || exists k :: i <= k && k + 1 < |args| && args[k] == "-pkg" && r.pkg == Some(WildPkgPath(args[k + 1], brewPrefix)))
      && (r.xml == acc.xml || (r.xml.Some? && EndsWith(r.xml.value, "*.xml")))
    decreases |args| - i
  {
    if i < |args| {
      var a := args[i];
      if a == "-pkg" && i + 1 < |args| {
        ScanInstallerFacts(args, brewPrefix, i + 2, acc.(pkg := Some(WildPkgPath(args[i + 1], brewPrefix))));
      } else if a == "-target" {
        ScanInstallerFacts(args, brewPrefix, AfterTarget(args, i + 1), acc);
      } else if a == "-applyChoiceChangesXML" && i + 1 < |args| {
        ScanInstallerFacts(args, brewPrefix, i + 2, acc.(xml := Some(WildXmlPath(args[i + 1]))));
      } else if StartsWith(a, "-verbose") {
        ScanInstallerFacts(args, brewPrefix, i + 1, acc);
      } else {
        ScanInstallerFacts(args, brewPrefix, i + 1, acc.(others := acc.others + [a]));
      }
    }
  }

  /** One turn of the scan. */
  lemma ScanStep(args: seq<string>, brewPrefix: string, i: nat, acc: InstallerScan)
    requires i < |args|
    ensures var a := args[i];
      ScanInstallerArgs(args, brewPrefix, i, acc) ==
        if a == "-pkg" && i + 1 < |args| then
          ScanInstallerArgs(args, brewPrefix, i + 2, acc.(pkg := Some(WildPkgPath(args[i + 1], brewPrefix))))
        else if a == "-target" then ScanInstallerArgs(args, brewPrefix, AfterTarget(args, i + 1), acc)
        else if a == "-applyChoiceChangesXML" && i + 1 < |args| then
          ScanInstallerArgs(args, brewPrefix, i + 2, acc.(xml := Some(WildXmlPath(args[i + 1]))))
        else if StartsWith(a, "-verbose") then ScanInstallerArgs(args, brewPrefix, i + 1, acc)
        else ScanInstallerArgs(args, brewPrefix, i + 1, acc.(others := acc.others + [a]))
  {
  }

  /** Past `-target`: over its value unless that looks like a flag, then over the `-verbose*` flags. */
  method SkipTarget(args: seq<string>, start: nat) returns (i: nat)
    requires start <= |args|
    ensures i == AfterTarget(args, start)
  {
    i := start;
    if i < |args| && !StartsWith(args[i], "-") {
      i := i + 1;
    }
    var j := i;
    while i < |args| && StartsWith(args[i], "-verbose")
      invariant j <= i <= |args|
      invariant SkipVerbose(args, i) == SkipVerbose(args, j)
      decreases |args| - i
    {
      i := i + 1;
    }
  }

  /** One turn of the installer loop: the argument at `i` and, for a flag that takes one, its value. */
  method ScanArg(args: seq<string>, brewPrefix: string, i: nat, acc: InstallerScan) returns (next: nat, acc': InstallerScan)
    requires i < |args|
    ensures i < next <= |args|
    ensures ScanInstallerArgs(args, brewPrefix, next, acc') == ScanInstallerArgs(args, brewPrefix, i, acc)
  {
    var a := args[i];
    ScanStep(args, brewPrefix, i, acc);
    if a == "-pkg" && i + 1 < |args| {
      next, acc' := i + 2, acc.(pkg := Some(WildPkgPath(args[i + 1], brewPrefix)));
    } else if a == "-target" {
      next := SkipTarget(args, i + 1);
      acc' := acc;
    } else if a == "-applyChoiceChangesXML" && i + 1 < |args| {
      next, acc' := i + 2, acc.(xml := Some(WildXmlPath(args[i + 1])));
    } else if StartsWith(a, "-verbose") {
      next, acc' := i + 1, acc;
    } else {
      next, acc' := i + 1, acc.(others := acc.others + [a]);
    }
  }

  /** The `while i < len(args)` loop of the installer branch. */
  method ScanInstaller(args: seq<string>, brewPrefix: string) returns (scan: InstallerScan)
    ensures scan == ScanInstallerArgs(args, brewPrefix, 0, InstallerScan(None, None, []))
  {
    scan := InstallerScan(None, None, []);
    var i := 0;
    while i < |args|
      invariant i <= |args|
      invariant ScanInstallerArgs(args, brewPrefix, i, scan) == ScanInstallerArgs(args, brewPrefix, 0, InstallerScan(None, None, []))
      decreases |args| - i
    {
      i, scan := ScanArg(args, brewPrefix, i, scan);
    }
  }

  /** The `-applyChoiceChangesXML` pair both installer rules end with, when a choices file was given. */
  function XmlArgs(xml: Option<string>): seq<string>
  {
    if Truthy(xml) then ["-applyChoiceChangesXML", xml.value] else []
  }

  /** The two installer rules: one with `-target*`, one with `-target /` and a trailing `*`. */
  function InstallerRules(user: string, cmd: string, args: seq<string>, brewPrefix: string): (r: Option<string>)
  {
    var scan := ScanInstallerArgs(args, brewPrefix, 0, InstallerScan(None, None, []));
    if !Truthy(scan.pkg) then None
    else
      var lead := ["-pkg", scan.pkg.value] + scan.others;
      Some(Rule(user, cmd, lead + ["-target*"] + XmlArgs(scan.xml), false) + "\n"
        + Rule(user, cmd, lead + ["-target", "/"] + XmlArgs(scan.xml), true))
  }

  // ----------------------------------------------------------------------
  // launchctl

  /** `label.rsplit('.', 1)[0]` */
  function BeforeLastDot(jobLabel: string): (r: string)
    ensures StartsWith(jobLabel, r)
    ensures '.' in jobLabel ==> |r| < |jobLabel| && jobLabel[|r|] == '.' && '.' !in jobLabel[|r| + 1..]
  {
    match LastIndexOfChar(jobLabel, '.')
    case None => jobLabel
    case Some(i) => jobLabel[..i]
  }

  /** The labels the launchctl rules are written for: a `.helper` label first gets its parent wildcarded. */
  function LaunchctlTargets(jobLabel: string): (r: seq<string>)
    ensures |r| == if Contains(jobLabel, ".helper") then 2 else 1
    ensures r[|r| - 1] == jobLabel
  {
    (if Contains(jobLabel, ".helper") then [BeforeLastDot(jobLabel) + ".*"] else []) + [jobLabel]
  }

  /** The three rules for one label: the launchctl call and the removal of its daemon and agent plists. */
  function LaunchctlLinesFor(user: string, action: string, lbl: string): seq<string>
  {
    [ RuleHead(user) + "/bin/launchctl " + action + " " + lbl
    , RuleHead(user) + "/bin/rm -f -- /Library/LaunchDaemons/" + lbl + ".plist"
    , RuleHead(user) + "/bin/rm -f -- /Library/LaunchAgents/" + lbl + ".plist" ]
  }

  function LaunchctlLines(user: string, action: string, labels: seq<string>): (r: seq<string>)
    ensures |r| == 3 * |labels|
  {
    if |labels| == 0 then [] else LaunchctlLinesFor(user, action, labels[0]) + LaunchctlLines(user, action, labels[1..])
  }

  /** The lines for the `k`-th label: its launchctl call, then the removal of its daemon plist and its agent plist. */
  lemma {:induction false} LaunchctlLinesAt(user: string, action: string, labels: seq<string>, k: nat)
    requires k < |labels|
    ensures var lines := LaunchctlLines(user, action, labels);
      3 * k + 2 < |lines|
      && lines[3 * k] == RuleHead(user) + "/bin/launchctl " + action + " " + labels[k]
      && lines[3 * k + 1] == RuleHead(user) + "/bin/rm -f -- /Library/LaunchDaemons/" + labels[k] + ".plist"
      && lines[3 * k + 2] == RuleHead(user) + "/bin/rm -f -- /Library/LaunchAgents/" + labels[k] + ".plist"
    decreases k
  {
    if k > 0 {
      LaunchctlLinesAt(user, action, labels[1..], k - 1);
      assert labels[1..][k - 1] == labels[k];
    }
  }

  function LaunchctlRules(user: string, action: string, jobLabel: string): string
  {
    Join(LaunchctlLines(user, action, LaunchctlTargets(jobLabel)), "\n")
  }

  // ----------------------------------------------------------------------
  // The whole normaliser

  const TouchRule: string := "/usr/bin/touch /Applications/*.app/.homebrew-write-test"

  /** `_normalize_log_command(cmd, args, user, brew_prefix)` */
  function NormalizeLogCommand(cmd: string, args: seq<string>, user: string, brewPrefix: string,
                               which: string -> Option<string>, isExecutable: string -> bool): (r: Option<string>)
    ensures ResolveCommand(cmd, which, isExecutable).None? ==> r.None?
    ensures StartsWith(cmd, "/") && '`' in cmd ==> r.None?
    ensures StartsWith(cmd, "/") && '`' !in cmd && Basename(cmd) == "touch" ==> r == Some(RuleHead(user) + TouchRule)
  {
    match ResolveCommand(cmd, which, isExecutable)
    case None => None
    case Some(c) => if |c| == 0 || '`' in c then None else NormalizeResolved(c, args, user, brewPrefix)
  }

  /** The rules for a resolved command without backticks, family by family. */
  function NormalizeResolved(c: string, args: seq<string>, user: string, brewPrefix: string): (r: Option<string>)
    ensures Basename(c) == "touch" ==> r == Some(RuleHead(user) + TouchRule)
    ensures r.None? <==> Basename(c) == "installer" && "-pkg" in args
                         && !Truthy(ScanInstallerArgs(args, brewPrefix, 0, InstallerScan(None, None, [])).pkg)
  {
    var name := Basename(c);
    var a := if name == "chown" && |args| > 0 then ChownArgs(args) else args;
    if name == "cp" && |a| >= 2 then Some(Rule(user, c, CpArgs(a, brewPrefix), false))
    else if name == "touch" then Some(RuleHead(user) + TouchRule)
    else if name == "rmdir" && |a| > 0 then Some(RuleHead(user) + "/bin/rmdir -- " + Wildcard.WildcardDeletePath(a[|a| - 1]))
    else if name == "rm" && |a| > 0 then Some(Rule(user, c, RmArgs(a), false))
    else if name == "installer" && "-pkg" in a then InstallerRules(user, c, a, brewPrefix)
    else if StartsWith(c, brewPrefix) && Contains(c, "/Caskroom/") then Some(Rule(user, StarCaskroomVersion(c, brewPrefix), a, false))
    else if name == "launchctl" && |a| > 0 then Some(LaunchctlRules(user, a[0], if |a| > 1 then a[1] else ""))
    else Some(Rule(user, c, Map(FallbackArg, a), false))
  }

  /** rm keeps every argument but the last, which sudoers reads back as its wildcarded deletion path. */
  lemma NormalizeRm(cmd: string, args: seq<string>, user: string, brewPrefix: string,
                    which: string -> Option<string>, isExecutable: string -> bool)
    requires StartsWith(cmd, "/") && '`' !in cmd && Basename(cmd) == "rm" && |args| > 0
    ensures var r := NormalizeLogCommand(cmd, args, user, brewPrefix, which, isExecutable);
      r.Some? && StartsWith(r.value, RuleHead(user))
      && Words(r.value[|RuleHead(user)|..]) == [cmd] + args[..|args| - 1] + [Wildcard.WildcardDeletePath(args[|args| - 1])]
  {
    NormalizeAbsolute(cmd, args, user, brewPrefix, which, isExecutable);
    RmResolved(cmd, args, user, brewPrefix);
    RuleCommand(user, cmd, RmArgs(args), false);
    assert [cmd] + RmArgs(args) + [] == [cmd] + args[..|args| - 1] + [Wildcard.WildcardDeletePath(args[|args| - 1])];
  }

  /** rm with arguments takes the rm family. */
  lemma RmResolved(c: string, args: seq<string>, user: string, brewPrefix: string)
    requires Basename(c) == "rm" && |args| > 0
    ensures NormalizeResolved(c, args, user, brewPrefix) == Some(Rule(user, c, RmArgs(args), false))
  {
    assert "rm" != "chown" && "rm" != "cp" && "rm" != "touch" && "rm" != "rmdir";
  }

  /**
   * chown outside the Caskroom ends in the fallback: sudoers reads back the
   * command, the owner of the first `<owner>:staff` argument as `*`, and the
   * absolute paths as deletion paths.
   */
  lemma NormalizeChown(cmd: string, args: seq<string>, user: string, brewPrefix: string,
                       which: string -> Option<string>, isExecutable: string -> bool)
    requires StartsWith(cmd, "/") && '`' !in cmd && Basename(cmd) == "chown" && |args| > 0
    requires !(StartsWith(cmd, brewPrefix) && Contains(cmd, "/Caskroom/"))
    ensures var r := NormalizeLogCommand(cmd, args, user, brewPrefix, which, isExecutable);
      r.Some? && Words(r.value[|RuleHead(user)|..]) == [cmd] + Map(FallbackArg, ChownArgs(args))
  {
    var mapped := Map(FallbackArg, ChownArgs(args));
    NormalizeAbsolute(cmd, args, user, brewPrefix, which, isExecutable);
    ChownResolved(cmd, args, user, brewPrefix);
    RuleCommand(user, cmd, mapped, false);
    assert [cmd] + mapped + [] == [cmd] + mapped;
  }

  /**
   * cp with a source and a destination reads back as the command, the flags
   * as they were, the source with its Caskroom version starred and its app
   * version wildcarded, and the destination with its app version wildcarded.
   */
  lemma NormalizeCp(cmd: string, args: seq<string>, user: string, brewPrefix: string,
                    which: string -> Option<string>, isExecutable: string -> bool)
    requires StartsWith(cmd, "/") && '`' !in cmd && Basename(cmd) == "cp" && |args| >= 2
    ensures var r := NormalizeLogCommand(cmd, args, user, brewPrefix, which, isExecutable);
      var n := |args|;
      r.Some? && StartsWith(r.value, RuleHead(user))
      && Words(r.value[|RuleHead(user)|..]) == [cmd] + args[..n - 2]
           + [Wildcard.WildcardAppPath(StarCaskroomVersion(args[n - 2], brewPrefix)), Wildcard.WildcardAppPath(args[n - 1])]
  {
    var cpArgs := CpArgs(args, brewPrefix);
    assert NormalizeLogCommand(cmd, args, user, brewPrefix, which, isExecutable) == Some(Rule(user, cmd, cpArgs, false)) by {
      NormalizeAbsolute(cmd, args, user, brewPrefix, which, isExecutable);
      CpResolved(cmd, args, user, brewPrefix);
    }
    RuleCommand(user, cmd, cpArgs, false);
    assert [cmd] + cpArgs + [] == [cmd] + cpArgs;
  }

  /** cp with two arguments or more takes the cp family. */
  lemma CpResolved(c: string, args: seq<string>, user: string, brewPrefix: string)
    requires Basename(c) == "cp" && |args| >= 2
    ensures NormalizeResolved(c, args, user, brewPrefix) == Some(Rule(user, c, CpArgs(args, brewPrefix), false))
  {
    assert "cp" != "chown";
  }

  /** rmdir becomes `/bin/rmdir --` with only its last argument, wildcarded as a deletion path, whatever the logged path of rmdir. */
  lemma NormalizeRmdir(cmd: string, args: seq<string>, user: string, brewPrefix: string,
                       which: string -> Option<string>, isExecutable: string -> bool)
    requires StartsWith(cmd, "/") && '`' !in cmd && Basename(cmd) == "rmdir" && |args| > 0
    ensures NormalizeLogCommand(cmd, args, user, brewPrefix, which, isExecutable)
         == Some(RuleHead(user) + "/bin/rmdir -- " + Wildcard.WildcardDeletePath(args[|args| - 1]))
  {
    NormalizeAbsolute(cmd, args, user, brewPrefix, which, isExecutable);
    assert "rmdir" != "chown" && "rmdir" != "cp" && "rmdir" != "touch";
  }

  /** installer with a `-pkg` argument yields the installer rule pair, or nothing when no package path follows. */
  lemma NormalizeInstaller(cmd: string, args: seq<string>, user: string, brewPrefix: string,
                           which: string -> Option<string>, isExecutable: string -> bool)
    requires StartsWith(cmd, "/") && '`' !in cmd && Basename(cmd) == "installer" && "-pkg" in args
    ensures NormalizeLogCommand(cmd, args, user, brewPrefix, which, isExecutable) == InstallerRules(user, cmd, args, brewPrefix)
  {
    NormalizeAbsolute(cmd, args, user, brewPrefix, which, isExecutable);
    assert "installer" != "chown" && "installer" != "cp" && "installer" != "touch";
    assert "installer" != "rmdir" && "installer" != "rm";
  }

  /**
   * A script under the Caskroom that no earlier family claims reads back as
   * the script with its version directory starred and the arguments as they were.
   */
  lemma NormalizeCaskroomScript(cmd: string, args: seq<string>, user: string, brewPrefix: string,
                                which: string -> Option<string>, isExecutable: string -> bool)
    requires StartsWith(cmd, "/") && '`' !in cmd && StartsWith(cmd, brewPrefix) && Contains(cmd, "/Caskroom/")
    requires Basename(cmd) != "chown" && Basename(cmd) != "cp" && Basename(cmd) != "touch"
    requires Basename(cmd) != "rmdir" && Basename(cmd) != "rm" && Basename(cmd) != "installer"
    ensures var r := NormalizeLogCommand(cmd, args, user, brewPrefix, which, isExecutable);
      r.Some? && StartsWith(r.value, RuleHead(user))
      && Words(r.value[|RuleHead(user)|..]) == [StarCaskroomVersion(cmd, brewPrefix)] + args
  {
    NormalizeAbsolute(cmd, args, user, brewPrefix, which, isExecutable);
    RuleCommand(user, StarCaskroomVersion(cmd, brewPrefix), args, false);
    assert [StarCaskroomVersion(cmd, brewPrefix)] + args + [] == [StarCaskroomVersion(cmd, brewPrefix)] + args;
  }

  /** launchctl outside the Caskroom takes its action and its label from the first two arguments. */
  lemma NormalizeLaunchctl(cmd: string, args: seq<string>, user: string, brewPrefix: string,
                           which: string -> Option<string>, isExecutable: string -> bool)
    requires StartsWith(cmd, "/") && '`' !in cmd && Basename(cmd) == "launchctl" && |args| > 0
    requires !(StartsWith(cmd, brewPrefix) && Contains(cmd, "/Caskroom/"))
    ensures NormalizeLogCommand(cmd, args, user, brewPrefix, which, isExecutable)
         == Some(LaunchctlRules(user, args[0], if |args| > 1 then args[1] else ""))
  {
    NormalizeAbsolute(cmd, args, user, brewPrefix, which, isExecutable);
    assert "launchctl" != "chown" && "launchctl" != "cp" && "launchctl" != "touch";
    assert "launchctl" != "rmdir" && "launchctl" != "rm" && "launchctl" != "installer";
  }

  /**
   * Any other command outside the Caskroom reads back as the command and its
   * arguments, the absolute ones wildcarded as deletion paths.
   */
  lemma NormalizeFallback(cmd: string, args: seq<string>, user: string, brewPrefix: string,
                          which: string -> Option<string>, isExecutable: string -> bool)
    requires StartsWith(cmd, "/") && '`' !in cmd
    requires !(StartsWith(cmd, brewPrefix) && Contains(cmd, "/Caskroom/"))
    requires Basename(cmd) != "chown" && Basename(cmd) != "touch"
    requires Basename(cmd) == "cp" ==> |args| < 2
    requires Basename(cmd) == "rmdir" || Basename(cmd) == "rm" || Basename(cmd) == "launchctl" ==> |args| == 0
    requires Basename(cmd) == "installer" ==> "-pkg" !in args
    ensures var r := NormalizeLogCommand(cmd, args, user, brewPrefix, which, isExecutable);
      r.Some? && StartsWith(r.value, RuleHead(user))
      && Words(r.value[|RuleHead(user)|..]) == [cmd] + Map(FallbackArg, args)
  {
    var mapped := Map(FallbackArg, args);
    assert NormalizeLogCommand(cmd, args, user, brewPrefix, which, isExecutable) == Some(Rule(user, cmd, mapped, false)) by {
      NormalizeAbsolute(cmd, args, user, brewPrefix, which, isExecutable);
      FallbackResolved(cmd, args, user, brewPrefix);
    }
    RuleCommand(user, cmd, mapped, false);
    assert [cmd] + mapped + [] == [cmd] + mapped;
  }

  /** A command no family claims takes the fallback. */
  lemma FallbackResolved(c: string, args: seq<string>, user: string, brewPrefix: string)
    requires !(StartsWith(c, brewPrefix) && Contains(c, "/Caskroom/"))
    requires Basename(c) != "chown" && Basename(c) != "touch"
    requires Basename(c) == "cp" ==> |args| < 2
    requires Basename(c) == "rmdir" || Basename(c) == "rm" || Basename(c) == "launchctl" ==> |args| == 0
    requires Basename(c) == "installer" ==> "-pkg" !in args
    ensures NormalizeResolved(c, args, user, brewPrefix) == Some(Rule(user, c, Map(FallbackArg, args), false))
  {
  }

  /** An absolute command without backticks is normalised as it stands. */
  lemma NormalizeAbsolute(cmd: string, args: seq<string>, user: string, brewPrefix: string,
                          which: string -> Option<string>, isExecutable: string -> bool)
    requires StartsWith(cmd, "/") && '`' !in cmd
    ensures NormalizeLogCommand(cmd, args, user, brewPrefix, which, isExecutable) == NormalizeResolved(cmd, args, user, brewPrefix)
  {
  }

  /**
   * A command name that resolves, bare or absolute, to a non-empty path
   * without backticks is normalised as that resolved path: every family of
   * `NormalizeResolved` applies to it, and a resolved `touch` gives the
   * write-test rule.
   */
  lemma NormalizeBare(cmd: string, c: string, args: seq<string>, user: string, brewPrefix: string,
                      which: string -> Option<string>, isExecutable: string -> bool)
    requires ResolveCommand(cmd, which, isExecutable) == Some(c) && |c| > 0 && '`' !in c
    ensures NormalizeLogCommand(cmd, args, user, brewPrefix, which, isExecutable) == NormalizeResolved(c, args, user, brewPrefix)
    ensures Basename(c) == "touch" ==> NormalizeLogCommand(cmd, args, user, brewPrefix, which, isExecutable) == Some(RuleHead(user) + TouchRule)
  {
  }

  /**
   * A bare `rm` that `which` finds gets the rm rule for the path `which`
   * gave: the kept arguments and the wildcarded last path.
   */
  lemma NormalizeBareRm(cmd: string, args: seq<string>, user: string, brewPrefix: string,
                        which: string -> Option<string>, isExecutable: string -> bool)
    requires |cmd| > 0 && !StartsWith(cmd, "/") && Truthy(which(cmd))
    requires '`' !in which(cmd).value && Basename(which(cmd).value) == "rm" && |args| > 0
    ensures var c := which(cmd).value;
      var r := NormalizeLogCommand(cmd, args, user, brewPrefix, which, isExecutable);
      r.Some? && StartsWith(r.value, RuleHead(user))
      && Words(r.value[|RuleHead(user)|..]) == [c] + args[..|args| - 1] + [Wildcard.WildcardDeletePath(args[|args| - 1])]
  {
    var c := which(cmd).value;
    assert NormalizeLogCommand(cmd, args, user, brewPrefix, which, isExecutable) == Some(Rule(user, c, RmArgs(args), false)) by {
      NormalizeBare(cmd, c, args, user, brewPrefix, which, isExecutable);
      RmResolved(c, args, user, brewPrefix);
    }
    RuleCommand(user, c, RmArgs(args), false);
    assert [c] + RmArgs(args) + [] == [c] + args[..|args| - 1] + [Wildcard.WildcardDeletePath(args[|args| - 1])];
  }

  /** chown outside the Caskroom falls through every other family to the fallback. */
  lemma ChownResolved(c: string, args: seq<string>, user: string, brewPrefix: string)
    requires Basename(c) == "chown" && |args| > 0 && !(StartsWith(c, brewPrefix) && Contains(c, "/Caskroom/"))
    ensures NormalizeResolved(c, args, user, brewPrefix) == Some(Rule(user, c, Map(FallbackArg, ChownArgs(args)), false))
  {
    assert "chown" != "cp" && "chown" != "touch" && "chown" != "rmdir" && "chown" != "rm";
    assert "chown" != "installer" && "chown" != "launchctl";
  }

  /**
   * The installer yields rules exactly when the scan found a package; they
   * need a `-pkg` followed by a path, and the pair ends in ` *`.
   */
  lemma InstallerRulesNeedPkg(user: string, cmd: string, args: seq<string>, brewPrefix: string)
    ensures var scan := ScanInstallerArgs(args, brewPrefix, 0, InstallerScan(None, None, []));
      var r := InstallerRules(user, cmd, args, brewPrefix);
      (r.Some? <==> Truthy(scan.pkg))
      && (r.Some? ==> (exists k :: 0 <= k && k + 1 < |args| && args[k] == "-pkg") && EndsWith(r.value, " *"))
  {
    var scan := ScanInstallerArgs(args, brewPrefix, 0, InstallerScan(None, None, []));
    ScanInstallerFacts(args, brewPrefix, 0, InstallerScan(None, None, []));
    if Truthy(scan.pkg) {
      var lead := ["-pkg", scan.pkg.value] + scan.others;
      var first := Rule(user, cmd, lead + ["-target*"] + XmlArgs(scan.xml), false);
      var second := Rule(user, cmd, lead + ["-target", "/"] + XmlArgs(scan.xml), true);
      TrailingStarRule(user, cmd, lead + ["-target", "/"] + XmlArgs(scan.xml));
      EndsWithConcat(first + "\n", second, " *");
    }
  }

  /**
   * The installer rules are two lines: the first reads back as the command,
   * `-pkg`, the package, the kept flags, `-target*` and the choices pair;
   * the second has `-target /` in place of `-target*` and alone ends in the
   * trailing `*`.
   */
  lemma InstallerRuleWords(user: string, cmd: string, args: seq<string>, brewPrefix: string)
    ensures var scan := ScanInstallerArgs(args, brewPrefix, 0, InstallerScan(None, None, []));
      var r := InstallerRules(user, cmd, args, brewPrefix);
      r.Some? ==>
        var lead := [cmd, "-pkg", scan.pkg.value] + scan.others;
        TwoRuleLines(user, r.value, lead + ["-target*"] + XmlArgs(scan.xml), lead + ["-target", "/"] + XmlArgs(scan.xml) + ["*"])
  {
    var scan := ScanInstallerArgs(args, brewPrefix, 0, InstallerScan(None, None, []));
    if Truthy(scan.pkg) {
      InstallerPairWords(user, cmd, scan.pkg.value, scan.others, XmlArgs(scan.xml));
    }
  }

  /** The installer pair for a package, its kept flags and its choices pair, read back line by line. */
  lemma InstallerPairWords(user: string, cmd: string, pkg: string, others: seq<string>, xml: seq<string>)
    ensures var lead := ["-pkg", pkg] + others;
      TwoRuleLines(user, Rule(user, cmd, lead + ["-target*"] + xml, false) + "\n" + Rule(user, cmd, lead + ["-target", "/"] + xml, true),
                   [cmd, "-pkg", pkg] + others + ["-target*"] + xml, [cmd, "-pkg", pkg] + others + ["-target", "/"] + xml + ["*"])
  {
    var lead := ["-pkg", pkg] + others;
    var args1 := lead + ["-target*"] + xml;
    var args2 := lead + ["-target", "/"] + xml;
    var words1 := [cmd, "-pkg", pkg] + others + ["-target*"] + xml;
    var words2 := [cmd, "-pkg", pkg] + others + ["-target", "/"] + xml + ["*"];
    assert words1 == [cmd] + args1 by {
      LeadWords(cmd, pkg, others, ["-target*"] + xml);
    }
    assert words2 == [cmd] + args2 + ["*"] by {
      LeadWords(cmd, pkg, others, ["-target", "/"] + xml);
    }
    RuleLinePair(user, cmd, args1, args2, words1, words2);
  }

  lemma LeadWords(cmd: string, pkg: string, others: seq<string>, rest: seq<string>)
    ensures [cmd, "-pkg", pkg] + others + rest == [cmd] + (["-pkg", pkg] + others + rest)
  {
  }

  /**
   * `s` is two rule lines for `user` joined by a newline, the first reading
   * back as `words1` and the second as `words2`.
   */
  predicate TwoRuleLines(user: string, s: string, words1: seq<string>, words2: seq<string>)
  {
    exists i :: 0 <= i < |s| && s[i] == '\n'
      && StartsWith(s[..i], RuleHead(user)) && StartsWith(s[i + 1..], RuleHead(user))
      && Words(s[|RuleHead(user)|..i]) == words1
      && Words(s[i + 1 + |RuleHead(user)|..]) == words2
  }

  /** A rule without and a rule with the trailing star, joined by a newline, read back line by line. */
  lemma RuleLinePair(user: string, cmd: string, args1: seq<string>, args2: seq<string>, words1: seq<string>, words2: seq<string>)
    requires words1 == [cmd] + args1 && words2 == [cmd] + args2 + ["*"]
    ensures TwoRuleLines(user, Rule(user, cmd, args1, false) + "\n" + Rule(user, cmd, args2, true), words1, words2)
  {
    var h := RuleHead(user);
    var first := Rule(user, cmd, args1, false);
    var second := Rule(user, cmd, args2, true);
    var s := first + "\n" + second;
    var i := |first|;
    RuleCommand(user, cmd, args1, false);
    RuleCommand(user, cmd, args2, true);
    assert s[i] == '\n';
    assert s[..i] == first;
    assert s[i + 1..] == second;
    assert s[|h|..i] == first[|h|..];
    assert s[i + 1 + |h|..] == second[|h|..];
    assert [cmd] + args1 + [] == [cmd] + args1;
  }

  /** A rule with the trailing star ends in ` *`. */
  lemma TrailingStarRule(user: string, cmd: string, args: seq<string>)
    ensures EndsWith(Rule(user, cmd, args, true), " *")
  {
    var x := RuleHead(user) + JoinEscaped([cmd] + args);
    assert Rule(user, cmd, args, true) == x + " *";
    EndsWithConcat(x, " *", " *");
  }

  /** The flags kept between the package and the target never include `-target` or `-verbose*`. */
  lemma InstallerKeepsFlags(args: seq<string>, brewPrefix: string)
    ensures var scan := ScanInstallerArgs(args, brewPrefix, 0, InstallerScan(None, None, []));
      forall o :: o in scan.others ==> o in args && o != "-target" && !StartsWith(o, "-verbose")
  {
    ScanInstallerFacts(args, brewPrefix, 0, InstallerScan(None, None, []));
  }

  lemma {:induction false} LaunchctlLinesNoNewline(user: string, action: string, labels: seq<string>)
    requires '\n' !in user && '\n' !in action && forall k :: 0 <= k < |labels| ==> '\n' !in labels[k]
    ensures forall k :: 0 <= k < |LaunchctlLines(user, action, labels)| ==> '\n' !in LaunchctlLines(user, action, labels)[k]
    decreases |labels|
  {
    if |labels| > 0 {
      LaunchctlLinesNoNewline(user, action, labels[1..]);
      LaunchctlLinesForNoNewline(user, action, labels[0]);
      LinesNoNewlineConcat(LaunchctlLinesFor(user, action, labels[0]), LaunchctlLines(user, action, labels[1..]));
    }
  }

  /** None of the three lines for one label holds a newline. */
  lemma LaunchctlLinesForNoNewline(user: string, action: string, lbl: string)
    requires '\n' !in user && '\n' !in action && '\n' !in lbl
    ensures forall k :: 0 <= k < |LaunchctlLinesFor(user, action, lbl)| ==> '\n' !in LaunchctlLinesFor(user, action, lbl)[k]
  {
    var h := RuleHead(user);
    NoCharConcat('\n', user, " ALL=(ALL) NOPASSWD: SETENV: ");
    NoCharConcat('\n', h + "/bin/launchctl " + action, " ");
    NoCharConcat('\n', h + "/bin/launchctl " + action + " ", lbl);
    NoCharConcat('\n', h + "/bin/rm -f -- /Library/LaunchDaemons/", lbl);
    NoCharConcat('\n', h + "/bin/rm -f -- /Library/LaunchDaemons/" + lbl, ".plist");
    NoCharConcat('\n', h + "/bin/rm -f -- /Library/LaunchAgents/", lbl);
    NoCharConcat('\n', h + "/bin/rm -f -- /Library/LaunchAgents/" + lbl, ".plist");
  }

  lemma NoCharConcat(c: char, x: string, y: string)
    requires c !in x && c !in y
    ensures c !in x + y
  {
  }

  lemma LinesNoNewlineConcat(a: seq<string>, b: seq<string>)
    requires forall k :: 0 <= k < |a| ==> '\n' !in a[k]
    requires forall k :: 0 <= k < |b| ==> '\n' !in b[k]
    ensures forall k :: 0 <= k < |a + b| ==> '\n' !in (a + b)[k]
  {
  }

  /**
   * launchctl yields three lines per label, six for a `.helper` label; the
   * first is the launchctl call for the parent label with `.*` in place of
   * the last dotted part.
   */
  lemma LaunchctlRulesLines(user: string, action: string, jobLabel: string)
    requires '\n' !in user && '\n' !in action && '\n' !in jobLabel
    ensures var lines := Split(LaunchctlRules(user, action, jobLabel), '\n');
      lines == LaunchctlLines(user, action, LaunchctlTargets(jobLabel))
      && |lines| == (if Contains(jobLabel, ".helper") then 6 else 3)
      && lines[0] == RuleHead(user) + "/bin/launchctl " + action + " " + LaunchctlTargets(jobLabel)[0]
      && (Contains(jobLabel, ".helper") ==> LaunchctlTargets(jobLabel)[0] == BeforeLastDot(jobLabel) + ".*")
  {
    var labels := LaunchctlTargets(jobLabel);
    assert forall k :: 0 <= k < |labels| ==> '\n' !in labels[k] by {
      if Contains(jobLabel, ".helper") {
        assert '\n' !in ".*";
      }
    }
    LaunchctlLinesNoNewline(user, action, labels);
    SplitJoin(LaunchctlLines(user, action, labels), '\n');
  }

  /** The last three launchctl lines are for the logged label itself. */
  lemma LaunchctlLastLines(user: string, action: string, jobLabel: string)
    ensures var lines := LaunchctlLines(user, action, LaunchctlTargets(jobLabel));
      |lines| >= 3
      && lines[|lines| - 3] == RuleHead(user) + "/bin/launchctl " + action + " " + jobLabel
      && lines[|lines| - 2] == RuleHead(user) + "/bin/rm -f -- /Library/LaunchDaemons/" + jobLabel + ".plist"
      && lines[|lines| - 1] == RuleHead(user) + "/bin/rm -f -- /Library/LaunchAgents/" + jobLabel + ".plist"
  {
    var labels := LaunchctlTargets(jobLabel);
    LaunchctlLinesAt(user, action, labels, |labels| - 1);
  }
}
