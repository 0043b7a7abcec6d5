# Homebrew sudoers generator, modelled in Dafny

`generate_homebrew_sudoers.py` writes `sudoers` rules for Homebrew casks.
With these rules, installing, upgrading or uninstalling a cask never stops
at a `sudo` password prompt. The rules come from two places:

* **Cask metadata.** The cask's JSON is flattened into a list of artifact
  objects (`parse_artifacts`). The objects are sorted into buckets: apps,
  pkgs, installer scripts and manuals, and the uninstall directives
  (launchctl, pkgutil, delete, trash, rmdir, set ownership, kexts,
  signal, quit). Each bucket becomes `NOPASSWD: SETENV:` rules with shell
  escaping and version wildcarding (`generate_sudoers_for_cask`).
* **Install logs.** Each `/usr/bin/sudo` line of a Homebrew log is split
  into tokens. The sudo options are skipped and the command is normalised
  per executable (`_normalize_log_command`, `process_log_file`).

Both routes pass every rule through `_wildcard_versions_in_rule`, a
chain of 24 regular-expression rewrites (`re.sub` calls) that replace
version numbers, hashes and dates with `*`. Both also deduplicate in
first-seen order, but in a different order:

* the log route rewrites each rule first and then keeps it only if the
  rewritten rule has not been seen;
* the cask route deduplicates the raw lines first and then rewrites every
  unique line in place, without deduplicating again.

The model is split into modules that follow the program's helpers:

| module | file | what it holds |
|---|---|---|
| `Text` | text.dfy | string and sequence helpers: split/join, `Map`, `FlatMap`, first-seen deduplication `Dedup` |
| `PyPath` | pypath.dfy | `os.path.join`, `basename`, `split`, `splitext` |
| `Regex` | regex.dfy | `re.sub` and `re.search` over a matcher function, and `\*+` collapsing |
| `Metadata` | metadata.dfy | JSON values, Python truthiness, `dict.get`, `ensure_list`, `parse_artifacts` |
| `Sudoers` | sudoers.dfy | `sudo_escape`, `join_command`, the rule head, and how sudoers splits a command line back into words |
| `Wildcard` | wildcard.dfy | `_wildcard_team_id`, `_wildcard_delete_path`, `_wildcard_app_path`, `_wildcard_cask_path` |
| `Names` | names.dfy | `_wildcard_pkg_name`, `_wildcard_script_name`, `_wildcard_pkgutil_id`, `_wildcard_launchctl_labels` |
| `RulePass` | rulepass.dfy | `_wildcard_versions_in_rule` |
| `Braces` | braces.dfy | the nested `expand_braces` helper |
| `CaskArtifacts` | caskartifacts.dfy | the classification loop of `generate_sudoers_for_cask`, and `determine_dest_dir` |
| `CaskRules` | caskrules.dfy | the rule families of `generate_sudoers_for_cask`, deduplication and the final rewrite |
| `LogTokens` | logtokens.dfy | `_find_log_command_tokens` |
| `LogNormalize` | lognormalize.dfy | `_normalize_log_command` |
| `LogProcess` | logprocess.dfy | `process_log_file` |

Code that works step by step is modelled as methods with loops, and each
method is proved equal to a specification function:

* the `walk` recursion;
* the brace-expansion loops;
* the classification loop and `determine_dest_dir`;
* the token-skipping loop;
* the chown and installer argument loops;
* the deduplicating loops of both routes;
* the in-place rewrite of the unique cask rules over an array.

The properties are then proved about those functions.

Things outside the program are parameters of the model:

* `shutil.which`;
* `os.path.exists` and `os.access`;
* `shlex.split`;
* `str()` of a JSON value that is not a string;
* the lines of the log file;
* the user name;
* the Homebrew prefix.

## Model

| member | source | states |
|---|---|---|
| Metadata.Get | generate_homebrew_sudoers.py:1072 | `dict.get` gives the stored value for a present key and `None` for a missing one |
| Metadata.PyStr | generate_homebrew_sudoers.py:1084 | `str()` of a string is the string itself |
| Metadata.EnsureList | generate_homebrew_sudoers.py:123-129 | `None` becomes `[]`, a list stays itself, any other value becomes a one-element list |
| Metadata.Walk | generate_homebrew_sudoers.py:103-118 | the recursive walk appends exactly `Flatten(node)` to what was collected, for every node |
| Metadata.ParseArtifacts | generate_homebrew_sudoers.py:94-120 | `parse_artifacts` returns the flattening of `cj.get("artifacts")` |
| Metadata.FlattenPair | generate_homebrew_sudoers.py:109-113 | a two-element list headed by a string becomes a one-key object, and a scalar value is wrapped in a list |
| Metadata.FlattenNothing | generate_homebrew_sudoers.py:103-118 | scalars, `None` and empty objects contribute no artifact |
| Metadata.NoArtifactsKey | generate_homebrew_sudoers.py:94-120 | a cask without `artifacts` has no artifacts |
| Metadata.FlattenNonEmpty | generate_homebrew_sudoers.py:105-107 | every artifact object the walk yields is non-empty |
| Metadata.FlattenItemsAppend | generate_homebrew_sudoers.py:115-116 | walking two runs of list items appends their artifacts in the same order |
| Metadata.FlattenObjectsInOrder | generate_homebrew_sudoers.py:115-116 | a list of non-empty objects flattens to those objects, in order |
| PyPath.PathJoin | generate_homebrew_sudoers.py:1013 | `os.path.join(a, b)` ends with `b`, and is `b` when `b` is absolute |
| PyPath.Basename | generate_homebrew_sudoers.py:1078 | `os.path.basename` is the slash-free suffix that follows the last `/` |
| PyPath.PathSplit | generate_homebrew_sudoers.py:345 | `os.path.split(p)[1]` is the basename and `[0]` a prefix of `p` |
| PyPath.SplitExtRoot | generate_homebrew_sudoers.py:1078 | `os.path.splitext(p)[0]` is a prefix of `p` that ends just before a dot in the last component, or is `p` itself |
| PyPath.BasenameOfJoin | generate_homebrew_sudoers.py:1013 | joining a directory and a slash-free name and taking the basename gives the name back |
| Regex.SubNoHit | generate_homebrew_sudoers.py:716-813 | `re.sub` with a pattern that matches nowhere leaves the subject unchanged |
| Regex.SubOneHit | generate_homebrew_sudoers.py:716-813 | a substitution that fires once replaces exactly that match |
| Regex.SubTwoHits | generate_homebrew_sudoers.py:716-813 | two back-to-back matches are replaced by the two replacements, and the rest is kept |
| Regex.SubShows | generate_homebrew_sudoers.py:716-813 | when the pattern occurs and every replacement contains `c`, the result contains `c` |
| Regex.SearchNoHit | generate_homebrew_sudoers.py:716-813 | `re.search` fails exactly when `re.sub` has nothing to replace |
| Regex.SubKeepsOut | generate_homebrew_sudoers.py:716-813 | a substitution whose replacements avoid `c` cannot introduce `c` |
| Regex.CollapseStars | generate_homebrew_sudoers.py:786 | `re.sub(r'\*+', '*', s)` leaves no two adjacent stars and keeps whether a star is present |
| Regex.CollapseStarsNoDouble | generate_homebrew_sudoers.py:786 | collapsing is the identity on strings without `**` |
| Sudoers.SudoEscapeRoundTrip | generate_homebrew_sudoers.py:132-134 | sudoers reads an escaped word back as that single word |
| Sudoers.WordsOfJoin | generate_homebrew_sudoers.py:137-143 | a space-joined run of escaped words is read back word for word |
| Sudoers.JoinCommandRoundTrip | generate_homebrew_sudoers.py:137-143 | `join_command(cmd, args, star)` is read back as `[cmd] + args`, plus `*` exactly when the trailing star is allowed |
| Sudoers.JoinCommandTrailingStar | generate_homebrew_sudoers.py:142-143 | with the trailing star allowed, the command ends in ` *` |
| Sudoers.Rule | generate_homebrew_sudoers.py:1033-1054 | every rule starts with `<user> ALL=(ALL) NOPASSWD: SETENV: ` |
| Sudoers.RuleCommand | generate_homebrew_sudoers.py:1033-1054 | after the head, a rule reads back as the command, its arguments and the optional `*` |
| Sudoers.RuleArgsDistinct | generate_homebrew_sudoers.py:1033-1054 | rules for one command with different arguments are different lines |
| Wildcard.WildcardTeamId | generate_homebrew_sudoers.py:525-536 | a segment that is a Team ID (upper-case letters and digits) becomes `*`; for a star-free segment that is the only way to get `*`; otherwise the segment is kept or is all stars |
| Wildcard.DeleteSegment | generate_homebrew_sudoers.py:539-631 | plain names are kept, Team IDs and all-version segments become `*`, and the result has no `**` and no new `/` |
| Wildcard.DeletePath | generate_homebrew_sudoers.py:539-631 | the segment loop computes `WildcardDeletePath` |
| Wildcard.DeletePathSegments | generate_homebrew_sudoers.py:539-631 | the path is wildcarded one `/`-segment at a time: the segments of the result are the wildcarded segments of the input |
| Wildcard.DeletePathOneSegment | generate_homebrew_sudoers.py:539-631 | a slash-free path is wildcarded as one segment |
| Wildcard.DeleteSegmentKeepsNames | generate_homebrew_sudoers.py:539-631 | a digit-free segment without `**` whose dots follow lower-case letters is left unchanged |
| Wildcard.DeletePathAppend | generate_homebrew_sudoers.py:539-631 | wildcarding distributes over `/` |
| Wildcard.AppBundleSegment | generate_homebrew_sudoers.py:634-654 | a `.app` segment stays a `.app` segment, and other segments are untouched |
| Wildcard.AppPathSegments | generate_homebrew_sudoers.py:634-654 | an app path is rewritten segment by segment |
| Wildcard.AppPathKeepsNames | generate_homebrew_sudoers.py:634-654 | an unversioned bundle name is kept |
| Wildcard.AppPathSeparatorNumber | generate_homebrew_sudoers.py:645-651 | `Alfred 5.app` becomes `Alfred *.app`: a number after a space, `-` or `_` is wildcarded |
| Wildcard.AppPathTrailingNumber | generate_homebrew_sudoers.py:645-651 | `Folx5.app` becomes `Folx*.app`: a number glued to the name is wildcarded |
| Wildcard.CaskPathVersion | generate_homebrew_sudoers.py:870-889 | the version directory under `Caskroom/<token>/` becomes `*`, and the remainder is wildcarded as a deletion path |
| Names.PkgName | generate_homebrew_sudoers.py:657-673 | a wildcarded pkg name never contains `**` |
| Names.PkgNameUnversioned | generate_homebrew_sudoers.py:657-673 | a pkg name without digits or stars is unchanged |
| Names.PkgNameVersion | generate_homebrew_sudoers.py:657-673 | `<stem><sep><version><ext>`, with `<sep>` a `-` or `_`, becomes `<stem><sep>*<ext>`, keeping the separator, when `<ext>` does not start with a character the version run can take: the run takes dots too, so `mactex-20250308.pkg` becomes `mactex-*pkg` |
| Names.ScriptName | generate_homebrew_sudoers.py:676-693 | a wildcarded script name never contains `**` |
| Names.ScriptNameUnversioned | generate_homebrew_sudoers.py:676-693 | a script name without digits or stars is unchanged |
| Names.ScriptNameVersion | generate_homebrew_sudoers.py:676-693 | one version token after `-` or `_` becomes `*` |
| Names.ScriptNameTwoVersions | generate_homebrew_sudoers.py:676-693 | two `-`-separated version tokens in a row collapse to one `-*` |
| Names.PkgutilIdTrailing | generate_homebrew_sudoers.py:696-703 | trailing digits of a pkgutil id become `*`, and a final newline is kept |
| Names.PkgutilIdKeeps | generate_homebrew_sudoers.py:696-703 | an id not ending in a digit is unchanged |
| Names.WildLabel | generate_homebrew_sudoers.py:848-859 | every wildcarded label contains `*` |
| Names.HelperStem | generate_homebrew_sudoers.py:843-846 | the stem is the label up to its first `.helper` |
| Names.LaunchctlVariants | generate_homebrew_sudoers.py:816-867 | at most three variants, each contains `*`, and the label itself is never one of them |
| Names.LaunchctlOrder | generate_homebrew_sudoers.py:816-867 | the `.helper` variant comes first and the `application.<label>.installer*` variant last |
| Names.WildHexSuffix | generate_homebrew_sudoers.py:850-851 | a dotted hex suffix of eight or more characters becomes `.*` |
| Names.WildVersionSuffix | generate_homebrew_sudoers.py:853-854 | a short version after a letter and `.` or `-` becomes `*` |
| Names.ComVariants | generate_homebrew_sudoers.py:858-866 | a `com.` label with a wildcard variant gets that variant and its `application.…installer*` form |
| Names.LaunchctlVersionedLabel | generate_homebrew_sudoers.py:816-867 | the complete variant list of a versioned `com.` label |
| RulePass.CaskroomVersion | generate_homebrew_sudoers.py:732 | pattern 1 fires only on `/Caskroom/` and ends its replacement in `/*` |
| RulePass.PunctVersion | generate_homebrew_sudoers.py:737 | pattern 2 fires only at a digit and replaces with `*` |
| RulePass.LatePasses | generate_homebrew_sudoers.py:795-812 | the last rewrites leave no `**` |
| RulePass.WildcardVersionsInRule | generate_homebrew_sudoers.py:716-813 | the whole pass never leaves `**` in a rule |
| RulePass.CaskroomPassKeeps | generate_homebrew_sudoers.py:732 | pattern 1 is the identity on version-free rules |
| RulePass.DigitPassesKeep | generate_homebrew_sudoers.py:737-799 | every digit-driven pattern is the identity on version-free rules |
| RulePass.CcHashNeedsHex | generate_homebrew_sudoers.py:805 | without stars, a `.cc` hash match needs eight hexadecimal characters |
| RulePass.HexPassesKeep | generate_homebrew_sudoers.py:776-805 | the hex patterns are the identity on version-free rules |
| RulePass.StarPassesKeep | generate_homebrew_sudoers.py:784-812 | the star-collapsing patterns are the identity on star-free rules |
| RulePass.VersionsInRuleKeeps | generate_homebrew_sudoers.py:716-813 | the pass is conservative: a rule with no digit, star, `/Caskroom/` or hex run is unchanged |
| Braces.MatchingBrace | generate_homebrew_sudoers.py:1165-1175 | the depth-counting scan finds the `}` that `CloseFrom` names |
| Braces.TopLevelOptions | generate_homebrew_sudoers.py:1182-1194 | the comma scan splits the inside of a group at top-level commas only |
| Braces.AppendPrefixed | generate_homebrew_sudoers.py:1199-1200 | the inner loop appends each suffix prefixed by the option |
| Braces.AppendCombos | generate_homebrew_sudoers.py:1198-1200 | the option loop appends every option combination with every expansion of the rest |
| Braces.ExpandBraces | generate_homebrew_sudoers.py:1151-1201 | the recursive expander computes `Expand(path)` |
| Braces.ExpandNoBrace | generate_homebrew_sudoers.py:1161-1164 | a path without `{` expands to itself |
| Braces.ExpandUnclosed | generate_homebrew_sudoers.py:1165-1178 | when every stretch of text from the first `{` on holds more `{` than `}`, the path is returned as it is; this covers a first `{` with no `}` after it and one whose `}` closes only an inner group, as in `a{b{c}` |
| Braces.ExpandFirstGroupShape | generate_homebrew_sudoers.py:1162-1201 | for the first `{` and the `}` that closes it, every expansion starts with the text before the `{`, and there are as many expansions as the options have expansions in all, times the number of expansions of the text after the `}` |
| Braces.ExpandOptions | generate_homebrew_sudoers.py:1195-1201 | the loop over the options builds exactly the group's expansion, option by option in order |
| Braces.ExpandOptional | generate_homebrew_sudoers.py:1151-1201 | `b{c,}` expands to `[b+c, b]` |
| Braces.ExpandNestedOptional | generate_homebrew_sudoers.py:1152-1159 | `a{b{c,},}` (e.g. `Adobe{/CEP{/extensions,},}`) expands to the three nested paths, deepest first |
| CaskArtifacts.FirstTruthy | generate_homebrew_sudoers.py:928-931 | `a or b or …` is the first truthy value, or falsy when none is |
| CaskArtifacts.CollectApps | generate_homebrew_sudoers.py:923-933 | the app loop collects the `(source, target)` pairs of every entry, in order |
| CaskArtifacts.CollectInstallerItem | generate_homebrew_sudoers.py:946-952 | one installer item yields its sudo script and manual, or raises |
| CaskArtifacts.CollectInstallerList | generate_homebrew_sudoers.py:945-952 | the list form skips non-objects and collects the scripts and manuals of the objects in order, raising at the first item that raises |
| CaskArtifacts.CollectInstaller | generate_homebrew_sudoers.py:938-952 | the installer loop collects every item's scripts and manuals, and raises when an item does |
| CaskArtifacts.CollectUninstall | generate_homebrew_sudoers.py:953-999 | the uninstall loop fills each directive's bucket |
| CaskArtifacts.CollectUninstallEntry | generate_homebrew_sudoers.py:957-999 | one uninstall entry extends each bucket as `UninstallEntry` says |
| CaskArtifacts.CollectZap | generate_homebrew_sudoers.py:1000-1005 | zap entries add their trash paths |
| CaskArtifacts.CollectObject | generate_homebrew_sudoers.py:923-1005 | one artifact object is classified into the buckets |
| CaskArtifacts.CollectArtifacts | generate_homebrew_sudoers.py:922-1006 | the classification loop over all artifacts |
| CaskArtifacts.ClassifyFails | generate_homebrew_sudoers.py:938-952 | classification raises exactly when some installer item has a truthy `script` that is not an object, or is a `sudo` script without an `executable` |
| CaskArtifacts.ClassifyObjectFails | generate_homebrew_sudoers.py:938-952 | one object raises exactly when one of its installer items does |
| CaskArtifacts.ClassifyFailureStays | generate_homebrew_sudoers.py:922-1006 | once an artifact raises, the whole classification fails |
| CaskArtifacts.StringsExactly | generate_homebrew_sudoers.py:934-937 | the string filter keeps exactly the string entries |
| CaskArtifacts.AppSourceCoversTarget | generate_homebrew_sudoers.py:929-933 | an entry with a truthy `target` always has a source, so an app is always recorded for it |
| CaskArtifacts.AppDirOf | generate_homebrew_sudoers.py:510-513 | a match means the path starts with `$APPDIR/` or `#{appdir}/` followed by the non-empty, slash-free directory |
| CaskArtifacts.DestOf | generate_homebrew_sudoers.py:513-515 | one path gives `/Applications/<dir>` exactly when it matches |
| CaskArtifacts.FirstMatch | generate_homebrew_sudoers.py:512-515 | the search loop returns the first matching path's directory |
| CaskArtifacts.DetermineDestDir | generate_homebrew_sudoers.py:504-516 | `determine_dest_dir` looks at trash first, then delete |
| CaskArtifacts.DestDirExists | generate_homebrew_sudoers.py:504-516 | an override exists exactly when some trash or delete path starts with `$APPDIR/<dir>` or `#{appdir}/<dir>` |
| CaskArtifacts.DestDirShape | generate_homebrew_sudoers.py:504-516 | an override is always `/Applications/<dir>` for a directory some path matched |
| CaskArtifacts.DestDirTrashFirst | generate_homebrew_sudoers.py:504-516 | a matching trash path wins over every delete path |
| CaskRules.FirstExisting | generate_homebrew_sudoers.py:1228-1234 | the result is the candidate at the first index that exists, with every earlier candidate missing; the fallback when none exists |
| CaskRules.AllStrings | generate_homebrew_sudoers.py:1072-1073 | a script's `args` render exactly when every argument is a string, and the arguments are kept in order |
| CaskRules.AppDestFromUninstall | generate_homebrew_sudoers.py:1022-1030 | a relative app's destination is `/Applications/<src>` without an override, the override when it names a `.app`, and otherwise `<override>/<src>` |
| CaskRules.SentinelAsWritten | generate_homebrew_sudoers.py:1037-1040 | the sentinel as the code passes it to `join_command`, spaces pre-escaped, is longer than the sentinel path whenever that path has a space |
| CaskRules.SentinelEscapedTwice | generate_homebrew_sudoers.py:1037-1040 | as written, a sentinel rule for a path with a space reads back, under the `Sudoers.Words` reader, with an argument that is not the sentinel path |
| CaskRules.SentinelReadsBack | generate_homebrew_sudoers.py:1037-1040 | escaped once, a sentinel rule reads back as its command, its flags and the sentinel path itself |
| CaskRules.AppFamilySucceeds | generate_homebrew_sudoers.py:1010-1055 | the app rules render exactly when every app's paths render |
| CaskRules.ScriptFamilySucceeds | generate_homebrew_sudoers.py:1067-1073 | the installer-script rules render exactly when every script renders |
| CaskRules.ManualFamilySucceeds | generate_homebrew_sudoers.py:1076-1080 | the manual rules render exactly when every manual is a string |
| CaskRules.ResultFamilyLengths | generate_homebrew_sudoers.py:1011-1080 | ten rules per app, one per installer script, one per manual |
| CaskRules.PlainFamilyLengths | generate_homebrew_sudoers.py:1057-1244 | one rule per pkg, one per pkgutil id, four per kext |
| CaskRules.BaseLabelsFacts | generate_homebrew_sudoers.py:1101-1105 | the launchctl labels are the label first, then its distinct variants: at most four, no duplicates |
| CaskRules.LaunchLinesLength | generate_homebrew_sudoers.py:1088-1121 | four rules per label, plus two for a `.helper` label |
| CaskRules.ProcVariantsFacts | generate_homebrew_sudoers.py:1253-1259 | a process has one to three name variants; the name itself is used exactly when it has no wildcard variant, and otherwise every variant has a `*` |
| CaskRules.SignalQuitLengths | generate_homebrew_sudoers.py:1251-1300 | two rules per signal variant (pkill, killall) and three per quit variant |
| CaskRules.RmdirNestedOptional | generate_homebrew_sudoers.py:1203-1209 | a nested optional brace path yields the rmdir rules of its three expansions, deepest first |
| CaskRules.XargsDistinct | generate_homebrew_sudoers.py:1320-1327 | the three xargs rules are different lines |
| CaskRules.XargsLast | generate_homebrew_sudoers.py:1302-1330 | the raw rules always end with the three xargs rules |
| CaskRules.XargsRulesAlways | generate_homebrew_sudoers.py:1302-1347 | every successful cask yields at least three rules, including the rewritten xargs rules |
| CaskRules.RawLinesSucceeds | generate_homebrew_sudoers.py:1009-1330 | rule generation raises exactly when an app, script, manual or uninstall script cannot be rendered |
| CaskRules.RuleOfReadsBack | generate_homebrew_sudoers.py:1049-1330 | every rendered rule starts with the head and reads back as its command |
| CaskRules.RawLinesAreRules | generate_homebrew_sudoers.py:1009-1330 | every raw line is a rule for some command |
| CaskRules.DedupLines | generate_homebrew_sudoers.py:1331-1337 | the seen-set loop keeps the first occurrence of each line, in order |
| CaskRules.WildcardAll | generate_homebrew_sudoers.py:1345-1346 | the in-place loop replaces each line by its rewrite |
| CaskRules.AppendRules | generate_homebrew_sudoers.py:1007-1330 | appending one rule line per command, in order, gives the rendering of the commands, each a rule that reads back as its command |
| CaskRules.RenderLines | generate_homebrew_sudoers.py:1007-1330 | the families' commands, appended one rule at a time, give `RawLines`; generation fails exactly when a family raises |
| CaskRules.UniqueRules | generate_homebrew_sudoers.py:1331-1347 | deduplicate, then rewrite every unique line |
| CaskRules.GenerateForCask | generate_homebrew_sudoers.py:895-1347 | `generate_sudoers_for_cask` computes `CaskRules` |
| CaskRules.CaskRulesCount | generate_homebrew_sudoers.py:1331-1347 | one output rule per distinct raw line, and failure exactly when rendering fails |
| CaskRules.CaskRulesAreRewrites | generate_homebrew_sudoers.py:1331-1347 | every output rule is the rewrite of some raw line, and every raw line's rewrite is output |
| LogTokens.InDoubleDashCases | generate_homebrew_sudoers.py:167 | `tok in ('--')` holds exactly for `''`, `'-'` and `'--'` |
| LogTokens.SkipSudoOptions | generate_homebrew_sudoers.py:160-177 | the skip stops at a command token, having passed only options and `-u` user names |
| LogTokens.SkipUser | generate_homebrew_sudoers.py:172-174 | `-u` takes the next token with it |
| LogTokens.FindCommand | generate_homebrew_sudoers.py:149-182 | no `/usr/bin/sudo` means no command, and a found command is a command token |
| LogTokens.FindCommandSuffix | generate_homebrew_sudoers.py:149-182 | the command and its arguments are the tail of the tokens after the first `/usr/bin/sudo` and the skipped options |
| LogTokens.FindLogCommandTokens | generate_homebrew_sudoers.py:149-182 | the scanning loop computes `FindCommand` |
| LogTokens.SkipOptionsLoop | generate_homebrew_sudoers.py:160-177 | the skipping loop stops where `SkipSudoOptions` does |
| LogNormalize.FirstExecutable | generate_homebrew_sudoers.py:210-217 | the path joined from the first search directory that holds an executable, with no earlier directory holding one; none exactly when no directory does |
| LogNormalize.ResolveCommand | generate_homebrew_sudoers.py:203-217 | absolute names are kept, bare names go through `which` and then the search, and the result is none exactly when both fail |
| LogNormalize.FirstOwnerArg | generate_homebrew_sudoers.py:229-236 | the position of the first `<owner>:staff` argument |
| LogNormalize.ChownArgsPointwise | generate_homebrew_sudoers.py:224-237 | only the first `<owner>:staff` argument becomes `*:staff` |
| LogNormalize.RewriteChownArgs | generate_homebrew_sudoers.py:227-237 | the chown loop computes `ChownArgs` |
| LogNormalize.CpArgs | generate_homebrew_sudoers.py:243-279 | cp keeps every flag and rewrites only the source and the destination |
| LogNormalize.RmArgs | generate_homebrew_sudoers.py:289-301 | rm keeps every argument but the last |
| LogNormalize.FallbackArg | generate_homebrew_sudoers.py:435-443 | relative arguments are kept, and absolute ones become their wildcarded deletion path |
| LogNormalize.WildXmlPath | generate_homebrew_sudoers.py:360-371 | the choices file keeps its directory part, and its base name becomes `choices*.xml` when the original name starts with `choices`, and `*.xml` otherwise |
| LogNormalize.SkipVerbose | generate_homebrew_sudoers.py:356-357 | the skip passes exactly the run of `-verbose*` flags |
| LogNormalize.ScanInstaller | generate_homebrew_sudoers.py:329-378 | the installer argument loop computes `ScanInstallerArgs` |
| LogNormalize.ScanArg | generate_homebrew_sudoers.py:331-377 | one turn of the loop moves forward and leaves the scan of the rest, from where it stops, equal to the scan from where it started |
| LogNormalize.SkipTarget | generate_homebrew_sudoers.py:352-358 | skipping `-target`, its value and the following `-verbose*` flags stops where `AfterTarget` does |
| LogNormalize.ScanInstallerFacts | generate_homebrew_sudoers.py:329-378 | kept flags come from the arguments and are never `-target` or `-verbose*`, and the package is the argument after some `-pkg` |
| LogNormalize.InstallerKeepsFlags | generate_homebrew_sudoers.py:329-378 | the kept flags never include `-target` or `-verbose*` |
| LogNormalize.InstallerRulesNeedPkg | generate_homebrew_sudoers.py:311-405 | installer rules exist exactly when the scan found a package; they need a `-pkg` with a path, and the pair ends in ` *` |
| LogNormalize.InstallerRuleWords | generate_homebrew_sudoers.py:379-405 | the installer rules are two lines: the first reads back as the command, `-pkg`, the package, the kept flags, `-target*` and the choices pair; the second has `-target /` instead of `-target*` and alone ends in the trailing `*` |
| LogNormalize.BeforeLastDot | generate_homebrew_sudoers.py:425 | `rsplit('.', 1)[0]` is the label up to its last dot |
| LogNormalize.LaunchctlTargets | generate_homebrew_sudoers.py:423-427 | a `.helper` label also yields its wildcarded parent, and the label itself comes last |
| LogNormalize.LaunchctlLines | generate_homebrew_sudoers.py:429-433 | three rules per label |
| LogNormalize.LaunchctlLinesAt | generate_homebrew_sudoers.py:429-433 | the lines for the `k`-th label are, in order, `/bin/launchctl <action> <label>`, `/bin/rm -f -- /Library/LaunchDaemons/<label>.plist` and `/bin/rm -f -- /Library/LaunchAgents/<label>.plist` |
| LogNormalize.LaunchctlLastLines | generate_homebrew_sudoers.py:423-433 | the last three lines are those three rules for the logged label itself |
| LogNormalize.LaunchctlLinesNoNewline | generate_homebrew_sudoers.py:429-434 | no launchctl rule contains a newline, so splitting the joined result recovers them |
| LogNormalize.LaunchctlRulesLines | generate_homebrew_sudoers.py:419-434 | splitting the joined result gives back the per-label lines: three, or six for `.helper`; the first is the launchctl call for the first target, which for `.helper` is the parent label with `.*` |
| LogNormalize.StarCaskroomVersionSegments | generate_homebrew_sudoers.py:250-259 | only the segment two after the first `Caskroom` becomes `*` |
| LogNormalize.NormalizeLogCommand | generate_homebrew_sudoers.py:185-443 | unresolvable commands and commands with a backtick give nothing, and `touch` gives the fixed write-test rule |
| LogNormalize.NormalizeResolved | generate_homebrew_sudoers.py:222-443 | a resolved `touch` gives the fixed write-test rule, and a resolved command gives nothing exactly when it is `installer` with `-pkg` but no package path |
| LogNormalize.NormalizeCp | generate_homebrew_sudoers.py:243-277 | a cp rule reads back as the command, the flags as they were, the source with its Caskroom version starred and its app version wildcarded, and the destination with its app version wildcarded |
| LogNormalize.NormalizeRmdir | generate_homebrew_sudoers.py:284-288 | rmdir becomes `/bin/rmdir --` with only its last argument, wildcarded as a deletion path |
| LogNormalize.NormalizeRm | generate_homebrew_sudoers.py:289-301 | an rm rule reads back as the command, the kept arguments and the wildcarded last path; this holds under the Caskroom too, because the rm family comes first |
| LogNormalize.NormalizeInstaller | generate_homebrew_sudoers.py:311-405 | installer with `-pkg` yields the installer rule pair |
| LogNormalize.NormalizeCaskroomScript | generate_homebrew_sudoers.py:407-416 | a Caskroom script that no earlier family claims reads back as the script with its version directory starred and its arguments as they were |
| LogNormalize.NormalizeLaunchctl | generate_homebrew_sudoers.py:419-434 | launchctl outside the Caskroom yields the launchctl rules for its first argument as the action and its second, or the empty label, as the label |
| LogNormalize.NormalizeFallback | generate_homebrew_sudoers.py:435-443 | any other command outside the Caskroom reads back as the command and its arguments, the absolute ones wildcarded as deletion paths |
| LogNormalize.NormalizeChown | generate_homebrew_sudoers.py:224-237 | a chown outside the Caskroom reads back as the command and the rewritten owner with the paths wildcarded (under the Caskroom, chown takes the Caskroom-script family) |
| LogNormalize.NormalizeBare | generate_homebrew_sudoers.py:203-221 | a command name, bare or absolute, that resolves to a non-empty path without backticks is normalised as that resolved path, so every family applies to bare names; a resolved `touch` gives the write-test rule |
| LogNormalize.NormalizeBareRm | generate_homebrew_sudoers.py:203-208 | a bare `rm` that `which` finds reads back as the resolved path, the kept arguments and the wildcarded last path |
| LogProcess.IgnoredLine | generate_homebrew_sudoers.py:459-472 | lines without `/usr/bin/sudo`, descriptive messages, Ruby dumps and `sudo:` messages produce nothing |
| LogProcess.LineRulesNoDoubleStar | generate_homebrew_sudoers.py:484-499 | no rule from a line contains `**` |
| LogProcess.AllLineRulesNoDoubleStar | generate_homebrew_sudoers.py:457-499 | no rule from the whole log contains `**` |
| LogProcess.LineParts | generate_homebrew_sudoers.py:459-484 | the filters, tokenising, parsing and normalising of one line yield exactly the rule lines `LineRules` assigns to it, none for a skipped line |
| LogProcess.AddRules | generate_homebrew_sudoers.py:484-499 | the inner loop extends the first-seen list with each rewritten rule, and the seen set stays equal to the list |
| LogProcess.ProcessLog | generate_homebrew_sudoers.py:446-501 | the result has no duplicates, holds exactly the rules of the lines, and no rule holds `**` |
| Text.DedupCount | generate_homebrew_sudoers.py:1331-1337 | first-seen deduplication keeps one copy of each distinct element |
| Text.DedupFirstSeenOrder | generate_homebrew_sudoers.py:1331-1337 | deduplication keeps elements in the order they were first seen |
| Text.MapDedup | generate_homebrew_sudoers.py:1338-1347 | rewriting after deduplication covers the rewrite of every input line |

## Left out

- `run`, `fetch_cask_json`, `main` and its command-line handling: these are process, network and file I/O. The cask JSON, the log lines, the user and the Homebrew prefix are inputs of the model.
- `reinstall_casks.py` is not part of this model.
- `shutil.which`, `os.path.exists`/`os.access` and `shlex.split` are function parameters. The model says how their answers are used, not what they are.
- `str()` of a JSON value that is not a string is a parameter (`repr`). JSON numbers are integers; floating-point numbers are not modelled.
- JSON objects are maps, so key order is not modelled. The generator only looks keys up, except that `parse_artifacts` reads a two-element list as one key and its value.
- Character classes are ASCII only. `str.lower()` lower-cases ASCII letters only. Unicode letters and digits that Python's `\d`, `\b` and `lower()` treat specially are not modelled.
- `os.path.splitext` is modelled for its first component only, which is all the generator uses.
- `str.strip()` on log lines is modelled as removal of leading white space. Only the `startswith('sudo:')` test reads the stripped text, so trailing white space does not matter.
- The `except` around the xargs rules catches nothing the model can raise, because the paths are plain strings. The xargs rules are always produced.
- The `except` around opening the log file is not modelled, because the lines are an input. `ProcessLog` therefore never returns the empty list for an unreadable file.
- The `except` around the choices-file split (generate_homebrew_sudoers.py:368-369) cannot fire on a string argument, so the `/private/tmp/choices*.xml` fallback is not modelled.
- `_wildcard_cask_path` asks `brew --prefix` again. The model uses the same Homebrew prefix that is passed to the generator.
- The `os.path.basename(tgt)` fallback for an app entry (generate_homebrew_sudoers.py:930-931) cannot fire, because `target` is already the last alternative of the `or` chain. `CaskArtifacts.AppSourceCoversTarget` proves this, and the branch is not modelled.
- Rendering is factored: each family yields commands, and `CaskRules.AppendRules` appends them as rule lines in one loop. The source interleaves building and appending family by family. The rules and their order are the same.
- RulePass.WildcardVersionsInRule: idempotence is not proved. The source comment calls the pass idempotent; the model proves only that it never leaves `**` and that it keeps version-free rules unchanged.
- Sudoers.JoinCommandTrailingStar: states only that the command ends in ` *` when the star is allowed, not the converse. The converse is false: a command whose last argument is `*` also ends in ` *` without the flag. `JoinCommandRoundTrip` states the exact readback instead.
- CaskRules.CaskRulesCount: two different raw lines can be rewritten to the same rule, and the generator does not deduplicate again after rewriting. The model counts rules against distinct raw lines but exhibits no concrete colliding pair.
- Docstring and comment examples that the regular expressions do not produce (generate_homebrew_sudoers.py:544, 647, 662, 681-682) are not followed. `Wildcard.DeleteSegment`, `Wildcard.AppBundleSegment`, `Names.PkgName` and `Names.ScriptName` do what the expressions do.

## Findings

| source | as written | input that shows it | evidently intended | confidence | as-written member | corrected member |
|---|---|---|---|---|---|---|
| generate_homebrew_sudoers.py:1038-1040 | the sentinel path has each space replaced by a backslash and a space, and then goes through `join_command`, which escapes that backslash again | an app installed as `/Applications/Google Chrome.app`: under the model's word reader (`Sudoers.Words`), the touch rule reads back as `/Applications/Google\ Chrome.app/.homebrew-write-test`, with a literal backslash | the rule grants the sentinel path itself, escaped once by `join_command` | low, not executed: sudo matches arguments with fnmatch(3), which may read the remaining `\ ` as an escaped space, so the rule may still match in practice | CaskRules.SentinelEscapedTwice | CaskRules.SentinelReadsBack |

`CaskRules.AppRules` follows the code as written and passes
`CaskRules.SentinelAsWritten`. The mismatch holds only for the model's
`Words` reader, which takes `\\` as a literal backslash and does no
pattern matching. `CaskRules.SentinelReadsBack` proves the once-escaped
alternative: it reads back as the sentinel path itself.
