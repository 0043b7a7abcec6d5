/**
 * The first half of `generate_homebrew_sudoers.generate_sudoers_for_cask`:
 * sorting the flattened artifacts of a cask into the lists the rule
 * families are generated from (apps, pkgs, installer scripts and manual
 * installers, and the uninstall and zap directives), and
 * `determine_dest_dir`.
 *
 * Looking up a key of a value that is not an object, or a missing
 * `executable` key of a `sudo` installer script, raises in the source;
 * here that is a `Failure`.
 */
module CaskArtifacts {
  import opened Text
  import opened Metadata
  import PyPath

  /** An `app` artifact: its source (always truthy) and its `target` value. */
  datatype AppEntry = AppEntry(src: Json, tgt: Json)

  /** A script run with `sudo`: its `executable` value and its arguments. */
  datatype ScriptEntry = ScriptEntry(exec: Json, args: seq<Json>)

  /** The lists the artifacts are sorted into, in the order their entries were met. */
  datatype Buckets = Buckets(
    apps: seq<AppEntry>,
    pkgs: seq<string>,
    instScripts: seq<ScriptEntry>,
    manuals: seq<Json>,
    pkgutil: seq<Json>,
    launch: seq<Json>,
    unScripts: seq<ScriptEntry>,
    delete: seq<Json>,
    rmdir: seq<Json>,
    setown: seq<Json>,
    trash: seq<Json>,
    kexts: seq<Json>,
    signals: seq<(string, string)>,
    quit: seq<string>)

  const NoBuckets := Buckets([], [], [], [], [], [], [], [], [], [], [], [], [], [])

  // ----------------------------------------------------------------------
  // Single entries

  /** `a or b or c or ... or ''` */
  function FirstTruthy(xs: seq<Json>): (r: Json)
    ensures Truthy(r) <==> exists k :: 0 <= k < |xs| && Truthy(xs[k])
    ensures Truthy(r) ==> r in xs
    ensures !Truthy(r) ==> r == JStr("")
  {
    if |xs| == 0 then JStr("")
    else if Truthy(xs[0]) then xs[0]
    else
      var r := FirstTruthy(xs[1..]);
      assert forall k :: 1 <= k < |xs| ==> xs[k] == xs[1..][k - 1];
      r
  }

  /** The source of an `app` given as an object: the first truthy of `path`, `source`, `app` and `target`. */
  function AppSource(m: Object): Json
  {
    FirstTruthy([Get(m, "path"), Get(m, "source"), Get(m, "app"), Get(m, "target")])
  }

  /**
   * One entry of an `app` artifact: a string is its own source with no
   * target; an object contributes when its source is truthy; anything
   * else contributes nothing.
   */
  function AppOf(entry: Json): seq<AppEntry>
  {
    match entry
    case JStr(_) => [AppEntry(entry, JNull)]
    case JObj(m) => if Truthy(AppSource(m)) then [AppEntry(AppSource(m), Get(m, "target"))] else []
    case _ => []
  }

  /** The strings among `xs`; other values are skipped. */
  function StringOf(x: Json): seq<string>
  {
    if x.JStr? then [x.s] else []
  }

  function Strings(xs: seq<Json>): seq<string>
  {
    FlatMap(StringOf, xs)
  }

  /**
   * The `script` of one installer item: recorded when truthy and its
   * `sudo` is truthy. A truthy `script` that is not an object, or a `sudo`
   * script without an `executable`, raises.
   */
  function ScriptOf(it: Object): Result<seq<ScriptEntry>>
  {
    var scr := Get(it, "script");
    if !Truthy(scr) then Success([])
    else if !scr.JObj? then Failure
    else if !Truthy(Get(scr.fields, "sudo")) then Success([])
    else if "executable" !in scr.fields then Failure
    else Success([ScriptEntry(scr.fields["executable"], EnsureList(Get(scr.fields, "args")))])
  }

  /** The `manual` of one installer item, when truthy. */
  function ManualOf(it: Object): seq<Json>
  {
    if Truthy(Get(it, "manual")) then [Get(it, "manual")] else []
  }

  function DictOf(x: Json): seq<Object>
  {
    if x.JObj? then [x.fields] else []
  }

  /** An `installer` value is one object or a list whose objects count (other items are skipped). */
  function InstallerItems(inst: Json): seq<Object>
  {
    match inst
    case JObj(m) => [m]
    case JArr(xs) => FlatMap(DictOf, xs)
    case _ => []
  }

  /** A `script` or `early_script` of an uninstall directive: recorded when it is a truthy object with truthy `sudo`. */
  function SudoScript(scr: Json): seq<ScriptEntry>
  {
    if Truthy(scr) && scr.JObj? && Truthy(Get(scr.fields, "sudo")) then
      [ScriptEntry(Get(scr.fields, "executable"), EnsureList(Get(scr.fields, "args")))]
    else []
  }

  /** A `[signal, process]` list, both rendered by `str`; anything else is skipped. */
  function SignalPair(x: Json, repr: Json -> string): seq<(string, string)>
  {
    if x.JArr? && |x.items| == 2 then [(PyStr(x.items[0], repr), PyStr(x.items[1], repr))] else []
  }

  /** What one object of an `uninstall` artifact adds. */
  function UninstallEntry(b: Buckets, e: Object, repr: Json -> string): Buckets
  {
    var sigs := Get(e, "signal");
    var qu := Get(e, "quit");
    b.(pkgutil := b.pkgutil + EnsureList(Get(e, "pkgutil")),
       launch := b.launch + EnsureList(Get(e, "launchctl")),
       delete := b.delete + EnsureList(Get(e, "delete")),
       rmdir := b.rmdir + EnsureList(Get(e, "rmdir")),
       trash := b.trash + EnsureList(Get(e, "trash")),
       kexts := b.kexts + EnsureList(Get(e, "kext")),
       unScripts := b.unScripts + SudoScript(Get(e, "script")) + SudoScript(Get(e, "early_script")),
       setown := b.setown + (if Truthy(Get(e, "set_ownership")) then EnsureList(Get(e, "set_ownership")) else []),
       signals := b.signals + (if Truthy(sigs) then FlatMap(x => SignalPair(x, repr), EnsureList(sigs)) else []),
       quit := b.quit + (if Truthy(qu) then Strings(EnsureList(qu)) else []))
  }

  /** What one object of a `zap` artifact adds. */
  function ZapEntry(b: Buckets, e: Object): Buckets
  {
    b.(delete := b.delete + EnsureList(Get(e, "delete")),
       rmdir := b.rmdir + EnsureList(Get(e, "rmdir")),
       trash := b.trash + EnsureList(Get(e, "trash")))
  }

  /** The entries of an `uninstall` artifact in order; entries that are not objects are skipped. */
  function AddUninstall(b: Buckets, entries: seq<Json>, repr: Json -> string): Buckets
    decreases |entries|
  {
    if |entries| == 0 then b
    else
      var b1 := AddUninstall(b, entries[..|entries| - 1], repr);
      var e := entries[|entries| - 1];
      if e.JObj? then UninstallEntry(b1, e.fields, repr) else b1
  }

  function AddZap(b: Buckets, entries: seq<Json>): Buckets
    decreases |entries|
  {
    if |entries| == 0 then b
    else
      var b1 := AddZap(b, entries[..|entries| - 1]);
      var e := entries[|entries| - 1];
      if e.JObj? then ZapEntry(b1, e.fields) else b1
  }

  /** What one artifact object adds, in the source's order: app, pkg, installer, uninstall, zap. */
  function ClassifyObject(b: Buckets, obj: Object, repr: Json -> string): Result<Buckets>
  {
    var items := if "installer" in obj then InstallerItems(obj["installer"]) else [];
    match FlatMapR(ScriptOf, items)
    case Failure => Failure
    case Success(scripts) =>
      var b1 := b.(apps := b.apps + (if "app" in obj then FlatMap(AppOf, EnsureList(obj["app"])) else []),
                   pkgs := b.pkgs + (if "pkg" in obj then Strings(EnsureList(obj["pkg"])) else []),
                   instScripts := b.instScripts + scripts,
                   manuals := b.manuals + FlatMap(ManualOf, items));
      var b2 := if "uninstall" in obj then AddUninstall(b1, EnsureList(obj["uninstall"]), repr) else b1;
      Success(if "zap" in obj then AddZap(b2, EnsureList(obj["zap"])) else b2)
  }

  /** All artifacts in order; the first one that raises ends the classification. */
  function Classify(arts: seq<Object>, repr: Json -> string): Result<Buckets>
    decreases |arts|
  {
    if |arts| == 0 then Success(NoBuckets)
    else match Classify(arts[..|arts| - 1], repr)
      case Failure => Failure
      case Success(b) => ClassifyObject(b, arts[|arts| - 1], repr)
  }

  // ----------------------------------------------------------------------
  // The loops

  lemma ClassifyStep(arts: seq<Object>, i: nat, repr: Json -> string)
    requires i < |arts|
    ensures Classify(arts[..i + 1], repr) ==
      match Classify(arts[..i], repr) case Failure => Failure case Success(b) => ClassifyObject(b, arts[i], repr)
  {
    assert arts[..i + 1][..i] == arts[..i];
  }

  /** Once an artifact has raised, the whole classification has. */
  lemma {:induction false} ClassifyFailureStays(arts: seq<Object>, i: nat, repr: Json -> string)
    requires i <= |arts| && Classify(arts[..i], repr).Failure?
    ensures Classify(arts, repr).Failure?
    decreases |arts| - i
  {
    if i == |arts| {
      assert arts[..i] == arts;
    } else {
      ClassifyStep(arts, i, repr);
      ClassifyFailureStays(arts, i + 1, repr);
    }
  }

  lemma {:induction false} FlatMapRFailureStays<A, B>(f: A -> Result<seq<B>>, xs: seq<A>, i: nat)
    requires i <= |xs| && FlatMapR(f, xs[..i]).Failure?
    ensures FlatMapR(f, xs).Failure?
    decreases |xs| - i
  {
    if i == |xs| {
      assert xs[..i] == xs;
    } else {
      FlatMapRStep(f, xs, i);
      FlatMapRFailureStays(f, xs, i + 1);
    }
  }

  /** The loop over the entries of an `app` artifact. */
  method CollectApps(entries: seq<Json>) returns (apps: seq<AppEntry>)
    ensures apps == FlatMap(AppOf, entries)
  {
    apps := [];
    for i := 0 to |entries|
      invariant apps == FlatMap(AppOf, entries[..i])
    {
      FlatMapStep(AppOf, entries, i);
      var entry := entries[i];
      if entry.JStr? {
        apps := apps + [AppEntry(entry, JNull)];
      } else if entry.JObj? {
        var src := FirstTruthy([Get(entry.fields, "path"), Get(entry.fields, "source"), Get(entry.fields, "app"), Get(entry.fields, "target")]);
        var tgt := Get(entry.fields, "target");
        if Truthy(src) {
          apps := apps + [AppEntry(src, tgt)];
        }
      }
    }
    assert entries[..|entries|] == entries;
  }

  /** One installer item: its script (or the raise) and its manual. */
  method CollectInstallerItem(it: Object) returns (scripts: Result<seq<ScriptEntry>>, manuals: seq<Json>)
    ensures scripts == ScriptOf(it)
    ensures scripts.Success? ==> manuals == ManualOf(it)
  {
    scripts := Success([]);
    var scr := Get(it, "script");
    if Truthy(scr) {
      if !scr.JObj? {
        return Failure, [];
      }
      if Truthy(Get(scr.fields, "sudo")) {
        if "executable" !in scr.fields {
          return Failure, [];
        }
        scripts := Success([ScriptEntry(scr.fields["executable"], EnsureList(Get(scr.fields, "args")))]);
      }
    }
    manuals := [];
    if Truthy(Get(it, "manual")) {
      manuals := [Get(it, "manual")];
    }
  }

  lemma InstallerListStep(xs: seq<Json>, i: nat)
    requires i < |xs|
    ensures FlatMap(DictOf, xs[..i + 1]) == FlatMap(DictOf, xs[..i]) + DictOf(xs[i])
  {
    FlatMapStep(DictOf, xs, i);
  }

  lemma FlatMapRSnoc<A, B>(f: A -> Result<seq<B>>, ys: seq<A>, y: A)
    ensures FlatMapR(f, ys + [y]) ==
      match FlatMapR(f, ys) case Failure => Failure
      case Success(init) => (match f(y) case Failure => Failure case Success(last) => Success(init + last))
  {
    assert (ys + [y])[..|ys|] == ys;
  }

  lemma FlatMapSnoc<A, B>(f: A -> seq<B>, ys: seq<A>, y: A)
    ensures FlatMap(f, ys + [y]) == FlatMap(f, ys) + f(y)
  {
    assert (ys + [y])[..|ys|] == ys;
  }

  /** The list form of `installer`: each object item in turn, the non-objects skipped. */
  method CollectInstallerList(xs: seq<Json>) returns (scripts: Result<seq<ScriptEntry>>, manuals: seq<Json>)
    ensures scripts == FlatMapR(ScriptOf, FlatMap(DictOf, xs))
    ensures scripts.Success? ==> manuals == FlatMap(ManualOf, FlatMap(DictOf, xs))
  {
    manuals := [];
    var acc: seq<ScriptEntry> := [];
    for i := 0 to |xs|
      invariant FlatMapR(ScriptOf, FlatMap(DictOf, xs[..i])) == Success(acc)
      invariant manuals == FlatMap(ManualOf, FlatMap(DictOf, xs[..i]))
    {
      InstallerListStep(xs, i);
      var item := xs[i];
      if !item.JObj? {
        assert FlatMap(DictOf, xs[..i + 1]) == FlatMap(DictOf, xs[..i]);
        continue;
      }
      var seen := FlatMap(DictOf, xs[..i]);
      assert FlatMap(DictOf, xs[..i + 1]) == seen + [item.fields];
      FlatMapRSnoc(ScriptOf, seen, item.fields);
      FlatMapSnoc(ManualOf, seen, item.fields);
      var s, m := CollectInstallerItem(item.fields);
      if s.Failure? {
        FlatMapRFailureStays(ScriptOf, FlatMap(DictOf, xs), |FlatMap(DictOf, xs[..i + 1])|) by {
          FlatMapPrefix(DictOf, xs, i + 1);
        }
        return Failure, [];
      }
      acc := acc + s.value;
      manuals := manuals + m;
    }
    assert xs[..|xs|] == xs;
    scripts := Success(acc);
  }

  /** The `installer` value: one object, or a list whose non-objects are skipped. */
  method CollectInstaller(inst: Json) returns (scripts: Result<seq<ScriptEntry>>, manuals: seq<Json>)
    ensures scripts == FlatMapR(ScriptOf, InstallerItems(inst))
    ensures scripts.Success? ==> manuals == FlatMap(ManualOf, InstallerItems(inst))
  {
    manuals := [];
    if inst.JObj? {
      scripts, manuals := CollectInstallerItem(inst.fields);
      FlatMapRSnoc(ScriptOf, [], inst.fields);
      FlatMapSnoc(ManualOf, [], inst.fields);
      assert [] + [inst.fields] == [inst.fields];
      if scripts.Success? {
        assert [] + scripts.value == scripts.value;
      }
    } else if inst.JArr? {
      scripts, manuals := CollectInstallerList(inst.items);
    } else {
      scripts := Success([]);
    }
  }

  /** What the first `i` elements produce is a prefix of what all of them produce. */
  lemma {:induction false} FlatMapPrefix<A, B>(f: A -> seq<B>, xs: seq<A>, i: nat)
    requires i <= |xs|
    ensures var p := FlatMap(f, xs[..i]); |p| <= |FlatMap(f, xs)| && FlatMap(f, xs)[..|p|] == p
    decreases |xs| - i
  {
    if i == |xs| {
      assert xs[..i] == xs;
    } else {
      FlatMapPrefix(f, xs, i + 1);
      FlatMapStep(f, xs, i);
      var p, q := FlatMap(f, xs[..i]), FlatMap(f, xs[..i + 1]);
      assert q[..|p|] == p;
      assert FlatMap(f, xs)[..|p|] == q[..|p|];
    }
  }

  /** The loop over the entries of an `uninstall` artifact. */
  method CollectUninstall(b: Buckets, entries: seq<Json>, repr: Json -> string) returns (b': Buckets)
    ensures b' == AddUninstall(b, entries, repr)
  {
    b' := b;
    for i := 0 to |entries|
      invariant b' == AddUninstall(b, entries[..i], repr)
    {
      assert entries[..i + 1][..i] == entries[..i];
      var entry := entries[i];
      if !entry.JObj? {
        continue;
      }
      b' := CollectUninstallEntry(b', entry.fields, repr);
    }
    assert entries[..|entries|] == entries;
  }

  /** The body of the loop over the entries of an `uninstall` artifact, for one object. */
  method CollectUninstallEntry(b: Buckets, e: Object, repr: Json -> string) returns (b': Buckets)
    ensures b' == UninstallEntry(b, e, repr)
  {
    var setown: seq<Json> := [];
    if Truthy(Get(e, "set_ownership")) {
      setown := EnsureList(e["set_ownership"]);
    }
    var signals: seq<(string, string)> := [];
    var sigs := Get(e, "signal");
    if Truthy(sigs) {
      signals := FlatMap(x => SignalPair(x, repr), EnsureList(sigs));
    }
    var quit: seq<string> := [];
    var qu := Get(e, "quit");
    if Truthy(qu) {
      quit := Strings(EnsureList(qu));
    }
    b' := b.(pkgutil := b.pkgutil + EnsureList(Get(e, "pkgutil")),
             launch := b.launch + EnsureList(Get(e, "launchctl")),
             delete := b.delete + EnsureList(Get(e, "delete")),
             rmdir := b.rmdir + EnsureList(Get(e, "rmdir")),
             trash := b.trash + EnsureList(Get(e, "trash")),
             kexts := b.kexts + EnsureList(Get(e, "kext")),
             unScripts := b.unScripts + SudoScript(Get(e, "script")) + SudoScript(Get(e, "early_script")),
             setown := b.setown + setown,
             signals := b.signals + signals,
             quit := b.quit + quit);
  }

  /** The loop over the entries of a `zap` artifact. */
  method CollectZap(b: Buckets, entries: seq<Json>) returns (b': Buckets)
    ensures b' == AddZap(b, entries)
  {
    b' := b;
    for i := 0 to |entries|
      invariant b' == AddZap(b, entries[..i])
    {
      assert entries[..i + 1][..i] == entries[..i];
      var entry := entries[i];
      if entry.JObj? {
        var e := entry.fields;
        b' := b'.(delete := b'.delete + EnsureList(Get(e, "delete")),
                  rmdir := b'.rmdir + EnsureList(Get(e, "rmdir")),
                  trash := b'.trash + EnsureList(Get(e, "trash")));
      }
    }
    assert entries[..|entries|] == entries;
  }

  /** The body of the loop over the artifacts, for one object. */
  method CollectObject(b: Buckets, obj: Object, repr: Json -> string) returns (r: Result<Buckets>)
    ensures r == ClassifyObject(b, obj, repr)
  {
    var apps: seq<AppEntry> := [];
    if "app" in obj {
      apps := CollectApps(EnsureList(obj["app"]));
    }
    var pkgs: seq<string> := [];
    if "pkg" in obj {
      pkgs := Strings(EnsureList(obj["pkg"]));
    }
    var scripts: seq<ScriptEntry> := [];
    var manuals: seq<Json> := [];
    if "installer" in obj {
      var s, m := CollectInstaller(obj["installer"]);
      if s.Failure? {
        return Failure;
      }
      scripts, manuals := s.value, m;
    }
    var b' := b.(apps := b.apps + apps, pkgs := b.pkgs + pkgs, instScripts := b.instScripts + scripts,
                 manuals := b.manuals + manuals);
    if "uninstall" in obj {
      b' := CollectUninstall(b', EnsureList(obj["uninstall"]), repr);
    }
    if "zap" in obj {
      b' := CollectZap(b', EnsureList(obj["zap"]));
    }
    r := Success(b');
  }

  /** The loop over the flattened artifacts, filling the lists. */
  method CollectArtifacts(arts: seq<Object>, repr: Json -> string) returns (r: Result<Buckets>)
    ensures r == Classify(arts, repr)
  {
    var b := NoBuckets;
    for i := 0 to |arts|
      invariant Classify(arts[..i], repr) == Success(b)
    {
      ClassifyStep(arts, i, repr);
      var next := CollectObject(b, arts[i], repr);
      if next.Failure? {
        ClassifyFailureStays(arts, i + 1, repr);
        return Failure;
      }
      b := next.value;
    }
    assert arts[..|arts|] == arts;
    r := Success(b);
  }

  // ----------------------------------------------------------------------
  // `determine_dest_dir`

  /** The end of the run of non-`/` characters starting at `i`. */
  function SegmentEnd(s: string, i: nat): (e: nat)
    requires i <= |s|
    ensures i <= e <= |s|
    ensures forall k :: i <= k < e ==> s[k] != '/'
    ensures e == |s| || s[e] == '/'
    decreases |s| - i
  {
    if i == |s| || s[i] == '/' then i else SegmentEnd(s, i + 1)
  }

  /** `dir` is what the `dir` group captures when the pattern matches at the start of `s`. */
  predicate AppDirMatch(s: string, dir: string)
  {
    |dir| > 0 && '/' !in dir &&
    ((StartsWith(s, "$APPDIR/" + dir) && (|s| == 8 + |dir| || s[8 + |dir|] == '/')) ||
     (StartsWith(s, "#{appdir}/" + dir) && (|s| == 10 + |dir| || s[10 + |dir|] == '/')))
  }

  /**
   * `^(?:\$APPDIR|#\{appdir\})/(?P<dir>[^/]+)` matched at the start of
   * `s`: the `dir` group, which runs up to the next `/` or the end.
   */
  function AppDirOf(s: string): (r: Option<string>)
    ensures r.Some? ==> AppDirMatch(s, r.value)
  {
    var marker := if StartsWith(s, "$APPDIR/") then "$APPDIR/" else "#{appdir}/";
    if !StartsWith(s, marker) then None
    else
      var e := SegmentEnd(s, |marker|);
      if e == |marker| then None
      else
        var dir := s[|marker|..e];
        assert s[..|marker + dir|] == marker + dir;
        Some(dir)
  }

  /** What one entry gives: `os.path.join('/Applications', dir)` when it matches. */
  function DestOf(p: Json, repr: Json -> string): (r: Option<string>)
    ensures r.Some? ==> AppDirOf(PyStr(p, repr)).Some? && r.value == "/Applications/" + AppDirOf(PyStr(p, repr)).value
    ensures r.None? ==> AppDirOf(PyStr(p, repr)).None?
  {
    match AppDirOf(PyStr(p, repr))
    case Some(dir) =>
      assert dir[0] != '/';
      Some(PyPath.PathJoin("/Applications", dir))
    case None => None
  }

  /** The first entry of `paths` that matches. */
  function FirstDestDir(paths: seq<Json>, repr: Json -> string): (r: Option<string>)
  {
    if |paths| == 0 then None
    else if DestOf(paths[0], repr).Some? then DestOf(paths[0], repr)
    else FirstDestDir(paths[1..], repr)
  }

  lemma {:induction false} FirstDestDirFacts(paths: seq<Json>, repr: Json -> string)
    ensures FirstDestDir(paths, repr).Some? ==>
      exists k :: 0 <= k < |paths| && FirstDestDir(paths, repr) == DestOf(paths[k], repr)
    ensures FirstDestDir(paths, repr).None? <==> forall k :: 0 <= k < |paths| ==> DestOf(paths[k], repr).None?
    decreases |paths|
  {
    if |paths| > 0 {
      FirstDestDirFacts(paths[1..], repr);
      assert forall k :: 1 <= k < |paths| ==> paths[k] == paths[1..][k - 1];
      if DestOf(paths[0], repr).None? && FirstDestDir(paths, repr).Some? {
        var k :| 0 <= k < |paths| - 1 && FirstDestDir(paths[1..], repr) == DestOf(paths[1..][k], repr);
        assert paths[1..][k] == paths[k + 1];
      }
    }
  }
  /** `determine_dest_dir({'delete': delete, 'trash': trash})`: `trash` is searched before `delete`. */
  function DestDir(delete: seq<Json>, trash: seq<Json>, repr: Json -> string): Option<string>
  {
    match FirstDestDir(trash, repr)
    case Some(d) => Some(d)
    case None => FirstDestDir(delete, repr)
  }

  /** The inner loop of `determine_dest_dir`, over the entries of one key. */
  method FirstMatch(paths: seq<Json>, repr: Json -> string) returns (r: Option<string>)
    ensures r == FirstDestDir(paths, repr)
  {
    for i := 0 to |paths|
      invariant FirstDestDir(paths, repr) == FirstDestDir(paths[i..], repr)
    {
      assert paths[i..][0] == paths[i] && paths[i..][1..] == paths[i + 1..];
      var m := AppDirOf(PyStr(paths[i], repr));
      if m.Some? {
        return Some(PyPath.PathJoin("/Applications", m.value));
      }
    }
    return None;
  }

  /** `determine_dest_dir`: the key `trash` first, then `delete`. */
  method DetermineDestDir(delete: seq<Json>, trash: seq<Json>, repr: Json -> string) returns (r: Option<string>)
    ensures r == DestDir(delete, trash, repr)
  {
    r := FirstMatch(trash, repr);
    if r.None? {
      r := FirstMatch(delete, repr);
    }
  }

  /** An override exists exactly when some `trash` or `delete` entry starts with `$APPDIR/<dir>` or `#{appdir}/<dir>`. */
  lemma DestDirExists(delete: seq<Json>, trash: seq<Json>, repr: Json -> string)
    ensures DestDir(delete, trash, repr).Some? <==>
      exists p :: p in trash + delete && AppDirOf(PyStr(p, repr)).Some?
  {
    FirstDestDirFacts(trash, repr);
    FirstDestDirFacts(delete, repr);
    if exists p :: p in trash + delete && AppDirOf(PyStr(p, repr)).Some? {
      var p :| p in trash + delete && AppDirOf(PyStr(p, repr)).Some?;
      if p in trash {
        var k :| 0 <= k < |trash| && trash[k] == p;
        assert DestOf(trash[k], repr).Some?;
      } else {
        var k :| 0 <= k < |delete| && delete[k] == p;
        assert DestOf(delete[k], repr).Some?;
      }
    }
  }

  /** The override is `/Applications/<dir>` for the `dir` that some `trash` or `delete` entry starts with. */
  lemma DestDirShape(delete: seq<Json>, trash: seq<Json>, repr: Json -> string)
    requires DestDir(delete, trash, repr).Some?
    ensures exists p, dir ::
      p in trash + delete && AppDirMatch(PyStr(p, repr), dir) && DestDir(delete, trash, repr).value == "/Applications/" + dir
  {
    FirstDestDirFacts(trash, repr);
    FirstDestDirFacts(delete, repr);
    var r := DestDir(delete, trash, repr);
    var paths := if FirstDestDir(trash, repr).Some? then trash else delete;
    var k :| 0 <= k < |paths| && r == DestOf(paths[k], repr);
    assert paths[k] in trash + delete;
  }

  /** A matching `trash` entry takes precedence over every `delete` entry. */
  lemma DestDirTrashFirst(delete: seq<Json>, trash: seq<Json>, repr: Json -> string, p: Json)
    requires p in trash && AppDirOf(PyStr(p, repr)).Some?
    ensures DestDir(delete, trash, repr) == FirstDestDir(trash, repr)
  {
    FirstDestDirFacts(trash, repr);
    var k :| 0 <= k < |trash| && trash[k] == p;
    assert DestOf(trash[k], repr).Some?;
  }

  // ----------------------------------------------------------------------
  // Properties of the classification

  /**
   * Whenever `target` is truthy the source chain already is, so the
   * source's fallback to `os.path.basename(target)` for an empty source
   * never applies (and its `TypeError` on a non-string target never arises).
   */
  lemma AppSourceCoversTarget(m: Object)
    ensures Truthy(Get(m, "target")) ==> Truthy(AppSource(m)) && AppOf(JObj(m)) != []
  {
    var xs := [Get(m, "path"), Get(m, "source"), Get(m, "app"), Get(m, "target")];
    assert xs[3] == Get(m, "target");
  }

  /** `pkg` and `quit` keep exactly the string entries. */
  lemma {:induction false} StringsExactly(xs: seq<Json>)
    ensures forall t :: t in Strings(xs) <==> JStr(t) in xs
    decreases |xs|
  {
    if |xs| > 0 {
      var n := |xs| - 1;
      StringsExactly(xs[..n]);
      assert xs == xs[..n] + [xs[n]];
    }
  }

  /** An installer item whose script raises. */
  predicate InstallerRaises(obj: Object)
  {
    "installer" in obj && exists it :: it in InstallerItems(obj["installer"]) && ScriptOf(it).Failure?
  }

  lemma ClassifyObjectFails(b: Buckets, obj: Object, repr: Json -> string)
    ensures ClassifyObject(b, obj, repr).Failure? <==> InstallerRaises(obj)
  {
    var items := if "installer" in obj then InstallerItems(obj["installer"]) else [];
    FlatMapRSuccess(ScriptOf, items);
    if InstallerRaises(obj) {
      var it :| it in items && ScriptOf(it).Failure?;
      var k :| 0 <= k < |items| && items[k] == it;
    }
  }

  /**
   * Classification raises exactly when some artifact has an installer
   * item whose `script` is truthy but not an object, or is a `sudo`
   * script without an `executable`; nothing else it reads can raise.
   */
  lemma {:induction false} ClassifyFails(arts: seq<Object>, repr: Json -> string)
    ensures Classify(arts, repr).Failure? <==> exists k :: 0 <= k < |arts| && InstallerRaises(arts[k])
    decreases |arts|
  {
    if |arts| > 0 {
      var n := |arts| - 1;
      ClassifyFails(arts[..n], repr);
      assert arts == arts[..n] + [arts[n]];
      RaisesSnoc(arts[..n], arts[n]);
      var c := Classify(arts[..n], repr);
      if c.Success? {
        ClassifyObjectFails(c.value, arts[n], repr);
      }
    }
  }

  lemma RaisesSnoc(init: seq<Object>, last: Object)
    ensures (exists k :: 0 <= k < |init + [last]| && InstallerRaises((init + [last])[k]))
        <==> (exists k :: 0 <= k < |init| && InstallerRaises(init[k])) || InstallerRaises(last)
  {
    var arts := init + [last];
    if k :| 0 <= k < |arts| && InstallerRaises(arts[k]) {
      if k < |init| {
        assert arts[k] == init[k];
      } else {
        assert arts[k] == last;
      }
    }
    if InstallerRaises(last) {
      assert arts[|init|] == last;
    }
    if k :| 0 <= k < |init| && InstallerRaises(init[k]) {
      assert arts[k] == init[k];
    }
  }
}
