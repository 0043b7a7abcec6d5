/**
 * Wildcarding of installer file names and identifiers: `_wildcard_pkg_name`,
 * `_wildcard_script_name`, `_wildcard_pkgutil_id` and
 * `_wildcard_launchctl_labels`.  Each is a fixed sequence of `re.sub`
 * passes, modelled with the matchers of `Regex`.
 */
module Names {
  import opened Text
  import opened Regex
  import opened Wildcard

  predicate IsUnderscore(c: char) { c == '_' }
  /** `[\d._,]` */
  predicate IsPkgVersionChar(c: char) { IsDigit(c) || c == '.' || c == '_' || c == ',' }
  /** `[\d._]` */
  predicate IsScriptVersionChar(c: char) { IsDigit(c) || c == '.' || c == '_' }

  // ----------------------------------------------------------------------
  // Matchers

  /** `\(\d+\)`, replaced by `*` */
  function ParenDigits(s: string, i: nat): (h: Option<Hit>)
    ensures WellFormed(s, i, h)
    ensures h.Some? ==> i + 2 < h.value.end && s[i] == '(' && IsDigit(s[i + 1]) && s[h.value.end - 1] == ')' && h.value.rep == "*"
    ensures h.Some? ==> forall k :: i < k < h.value.end - 1 ==> IsDigit(s[k])
  {
    if i + 1 < |s| && s[i] == '(' && IsDigit(s[i + 1]) then
      var j := RunEnd(s, i + 1, IsDigit);
      if j < |s| && s[j] == ')' then Some(Hit(j + 1, "*")) else None
    else None
  }

  /** `([_-])\d<cls>*`, replaced by the separator and `*`, for the version class `cls` */
  function SepDigitsIn(cls: char -> bool, s: string, i: nat): (h: Option<Hit>)
    ensures WellFormed(s, i, h)
    ensures h.Some? ==> i + 1 < |s| && (s[i] == '-' || s[i] == '_') && IsDigit(s[i + 1]) && h.value.rep == [s[i], '*']
  {
    if i + 1 < |s| && (s[i] == '-' || s[i] == '_') && IsDigit(s[i + 1]) then Some(Hit(RunEnd(s, i + 2, cls), [s[i], '*']))
    else None
  }

  /** `([_-])\d[\d._,]*` */
  function PkgSepDigits(s: string, i: nat): Option<Hit>
  {
    SepDigitsIn(IsPkgVersionChar, s, i)
  }

  /** `([_-])\d[\d._]*` */
  function ScriptSepDigits(s: string, i: nat): Option<Hit>
  {
    SepDigitsIn(IsScriptVersionChar, s, i)
  }

  /** One unit of `(?:-_*\*)`: a dash, any number of underscores, a star. */
  function DashUnit(s: string, p: nat): (r: Option<nat>)
    ensures r.Some? ==> p + 1 < r.value <= |s| && s[p] == '-' && s[r.value - 1] == '*'
    ensures r.Some? ==> forall k :: p < k < r.value - 1 ==> s[k] == '_'
  {
    if p < |s| && s[p] == '-' then
      var q := RunEnd(s, p + 1, IsUnderscore);
      if q < |s| && s[q] == '*' then Some(q + 1) else None
    else None
  }

  /** One unit of `(?:__\*)`. */
  function UnderUnit(s: string, p: nat): (r: Option<nat>)
    ensures r.Some? ==> r.value == p + 3 <= |s| && s[p] == '_' && s[p + 1] == '_' && s[p + 2] == '*'
  {
    if p + 3 <= |s| && s[p] == '_' && s[p + 1] == '_' && s[p + 2] == '*' then Some(p + 3) else None
  }

  /** Where a greedy repetition of the unit `u` that starts at `p` stops. */
  function ChainEnd(s: string, p: nat, u: (string, nat) -> Option<nat>): (e: nat)
    requires p <= |s|
    ensures p <= e <= |s|
    decreases |s| - p
  {
    match u(s, p)
    case Some(q) => if p < q <= |s| then ChainEnd(s, q, u) else p
    case None => p
  }

  /** `(?:-_*\*)+`, replaced by `-*` */
  function DashStars(s: string, i: nat): (h: Option<Hit>)
    ensures WellFormed(s, i, h)
    ensures h.Some? ==> DashUnit(s, i).Some? && h.value.rep == "-*"
  {
    match DashUnit(s, i)
    case Some(q) => Some(Hit(ChainEnd(s, q, DashUnit), "-*"))
    case None => None
  }

  /** `(?:__\*)+`, replaced by `_*` */
  function UnderStars(s: string, i: nat): (h: Option<Hit>)
    ensures WellFormed(s, i, h)
    ensures h.Some? ==> UnderUnit(s, i).Some? && h.value.rep == "_*"
  {
    match UnderUnit(s, i)
    case Some(q) => Some(Hit(ChainEnd(s, q, UnderUnit), "_*"))
    case None => None
  }

  // ----------------------------------------------------------------------
  // `_wildcard_pkg_name` and `_wildcard_script_name`

  /** The three collapsing passes both helpers end with: `-*` runs, `__*` runs, star runs. */
  function CollapseRuns(s: string): (r: string)
    ensures NoDoubleStar(r)
  {
    CollapseStars(Sub(Sub(s, DashStars), UnderStars))
  }

  /** `_wildcard_pkg_name` */
  function PkgName(pkg: string): (r: string)
    ensures NoDoubleStar(r)
  {
    CollapseRuns(Sub(Sub(pkg, ParenDigits), PkgSepDigits))
  }

  /** `_wildcard_script_name` */
  function ScriptName(script: string): (r: string)
    ensures NoDoubleStar(r)
  {
    CollapseRuns(Sub(Sub(script, ScriptSepDigits), VersionV))
  }

  /** Without stars the collapsing passes change nothing. */
  lemma CollapseRunsNoStar(s: string)
    requires '*' !in s
    ensures CollapseRuns(s) == s
  {
    assert forall k :: 0 <= k < |s| ==> s[k] != '*';
    SubNoHit(s, DashStars);
    SubNoHit(s, UnderStars);
    CollapseStarsNoDouble(s);
  }

  /** A package name without digits or stars is kept as it is. */
  lemma PkgNameUnversioned(pkg: string)
    requires NoDigit(pkg) && '*' !in pkg
    ensures PkgName(pkg) == pkg
  {
    SubNoHit(pkg, ParenDigits);
    SubNoHit(pkg, PkgSepDigits);
    CollapseRunsNoStar(pkg);
  }

  /** A script name without digits or stars is kept as it is. */
  lemma ScriptNameUnversioned(script: string)
    requires NoDigit(script) && '*' !in script
    ensures ScriptName(script) == script
  {
    SubNoHit(script, ScriptSepDigits);
    SubNoHit(script, VersionV);
    CollapseRunsNoStar(script);
  }

  /** A character that can open a version token in these helpers: `-`, `_`, `(` or `v`. */
  predicate IsVersionLead(c: char) { c == '-' || c == '_' || c == '(' || c == 'v' }

  /** No star, and no version token: no opening character directly followed by a digit. */
  predicate Unversioned(x: string)
  {
    '*' !in x && forall k :: 0 <= k < |x| - 1 ==> !(IsVersionLead(x[k]) && IsDigit(x[k + 1]))
  }

  /** The name part in front of a version: unversioned, and not ending in `-` or `_`. */
  predicate NameStem(word: string)
  {
    Unversioned(word) && (|word| > 0 ==> word[|word| - 1] != '-' && word[|word| - 1] != '_')
  }

  /** A version token for the class `cls`: a digit, then characters of `cls`. */
  predicate VersionToken(num: string, cls: char -> bool)
  {
    |num| > 0 && IsDigit(num[0]) && forall k :: 0 < k < |num| ==> cls(num[k])
  }

  /** What follows the version: unversioned, and not continuing the class `cls`. */
  predicate VersionTail(ext: string, cls: char -> bool)
  {
    Unversioned(ext) && (|ext| > 0 ==> !cls(ext[0]) && !IsDigit(ext[0]))
  }

  /** In `word + [sep] + num + ext`, where the word's characters sit. */
  lemma StemIndex(word: string, sep: char, num: string, ext: string, k: nat)
    requires k < |word|
    ensures (word + [sep] + num + ext)[k] == word[k]
    ensures (word + [sep] + num + ext)[k + 1] == if k + 1 < |word| then word[k + 1] else sep
  {
  }

  /** In `word + [sep] + num + ext`, where the tail's characters sit. */
  lemma TailIndex(word: string, sep: char, num: string, ext: string, k: nat)
    requires |word| + 1 + |num| <= k < |word| + 1 + |num| + |ext|
    ensures (word + [sep] + num + ext)[k] == ext[k - (|word| + 1 + |num|)]
    ensures k + 1 < |word| + 1 + |num| + |ext| ==> (word + [sep] + num + ext)[k + 1] == ext[k + 1 - (|word| + 1 + |num|)]
  {
  }

  /** A pattern that needs an opening character followed by a digit finds nothing in a versioned name but its version. */
  lemma NoLeadOutsideVersion(word: string, sep: char, num: string, ext: string, lead: char)
    requires NameStem(word) && Unversioned(ext) && IsVersionLead(lead) && (|ext| > 0 ==> !IsDigit(ext[0]))
    requires forall k :: 0 <= k < |num| ==> num[k] != lead
    requires sep != lead && !IsDigit(sep)
    ensures forall k :: 0 <= k < |word + [sep] + num + ext| - 1 ==>
      !((word + [sep] + num + ext)[k] == lead && IsDigit((word + [sep] + num + ext)[k + 1]))
  {
    var s := word + [sep] + num + ext;
    forall k | 0 <= k < |s| - 1 && s[k] == lead
      ensures !IsDigit(s[k + 1])
    {
      if k < |word| {
        StemIndex(word, sep, num, ext, k);
      } else if k >= |word| + 1 + |num| {
        TailIndex(word, sep, num, ext, k);
      }
    }
  }

  /** The separator-and-digits pass replaces exactly the version. */
  lemma SepVersionPass(cls: char -> bool, m: Matcher, word: string, sep: char, num: string, ext: string)
    requires forall s, i :: m(s, i) == SepDigitsIn(cls, s, i)
    requires NameStem(word) && (sep == '-' || sep == '_') && VersionToken(num, cls) && VersionTail(ext, cls)
    ensures Sub(word + [sep] + num + ext, m) == word + [sep, '*'] + ext
  {
    var s := word + [sep] + num + ext;
    var i, e := |word|, |word| + 1 + |num|;
    assert s[i] == sep && s[i + 1] == num[0];
    RunEndIs(s, i + 2, cls, e);
    assert m(s, i) == Some(Hit(e, [sep, '*']));
    forall k | 0 <= k < i
      ensures m(s, k).None?
    {
      StemIndex(word, sep, num, ext, k);
    }
    forall k | e <= k < |s|
      ensures m(s, k).None?
    {
      TailIndex(word, sep, num, ext, k);
    }
    SubOneHit(s, m, i, e, [sep, '*']);
    assert s[..i] == word && s[e..] == ext;
  }

  /** The only star of `word + [sep, '*'] + ext` is the one after the separator. */
  lemma OnlyStar(word: string, sep: char, ext: string)
    requires '*' !in word && '*' !in ext && sep != '*'
    ensures forall j :: 0 <= j < |word + [sep, '*'] + ext| && (word + [sep, '*'] + ext)[j] == '*' ==> j == |word| + 1
  {
  }

  /** Underscores after a dash inside the stem never reach past the stem. */
  lemma UnderscoreRunStops(word: string, rest: string, k: nat)
    requires NameStem(word) && k < |word|
    ensures (word + rest)[k] != '-' || RunEnd(word + rest, k + 1, IsUnderscore) <= |word|
  {
    var s := word + rest;
    assert s[|word| - 1] == word[|word| - 1];
  }

  /** No `-_*\*` unit starts inside a stem that is followed by something other than a star. */
  lemma DashUnitInStem(word: string, rest: string, k: nat)
    requires NameStem(word) && k < |word| && |rest| > 0 && rest[0] != '*'
    ensures DashUnit(word + rest, k).None?
  {
    UnderscoreRunStops(word, rest, k);
    assert forall j :: 0 <= j < |word| ==> (word + rest)[j] == word[j];
  }

  /** No `-_*\*` unit starts inside a star-free tail. */
  lemma DashUnitInTail(pre: string, ext: string, k: nat)
    requires '*' !in ext && |pre| <= k
    ensures DashUnit(pre + ext, k).None?
  {
    assert forall j :: |pre| <= j < |pre + ext| ==> (pre + ext)[j] == ext[j - |pre|];
  }

  lemma DashUnitOnlyAtSep(word: string, sep: char, ext: string, k: nat)
    requires NameStem(word) && (sep == '-' || sep == '_') && '*' !in ext
    requires k != |word|
    ensures DashUnit(word + [sep, '*'] + ext, k).None?
  {
    var s := word + [sep, '*'] + ext;
    if k < |word| {
      assert s == word + ([sep, '*'] + ext);
      DashUnitInStem(word, [sep, '*'] + ext, k);
    } else if k >= |word| + 2 {
      DashUnitInTail(word + [sep, '*'], ext, k);
    }
  }

  lemma DashPassOneStar(word: string, sep: char, ext: string)
    requires NameStem(word) && (sep == '-' || sep == '_') && '*' !in ext
    ensures Sub(word + [sep, '*'] + ext, DashStars) == word + [sep, '*'] + ext
  {
    var s := word + [sep, '*'] + ext;
    var i := |word|;
    forall k | 0 <= k < |s| && k != i
      ensures DashStars(s, k).None?
    {
      DashUnitOnlyAtSep(word, sep, ext, k);
    }
    if sep == '-' {
      assert DashUnit(s, i) == Some(i + 2);
      DashUnitOnlyAtSep(word, sep, ext, i + 2);
      assert ChainEnd(s, i + 2, DashUnit) == i + 2;
      SubOneHit(s, DashStars, i, i + 2, "-*");
      assert s[..i] + "-*" + s[i + 2..] == s;
    } else {
      SubNoHit(s, DashStars);
    }
  }

  lemma UnderPassOneStar(word: string, sep: char, ext: string)
    requires NameStem(word) && (sep == '-' || sep == '_') && '*' !in ext
    ensures Sub(word + [sep, '*'] + ext, UnderStars) == word + [sep, '*'] + ext
  {
    var s := word + [sep, '*'] + ext;
    forall k | 0 <= k < |s|
      ensures UnderStars(s, k).None?
    {
      OnlyStar(word, sep, ext);
    }
    SubNoHit(s, UnderStars);
  }

  /** After the version pass, the collapsing passes keep the one star. */
  lemma CollapseRunsOneStar(word: string, sep: char, ext: string)
    requires NameStem(word) && (sep == '-' || sep == '_') && '*' !in ext
    ensures CollapseRuns(word + [sep, '*'] + ext) == word + [sep, '*'] + ext
  {
    var s := word + [sep, '*'] + ext;
    DashPassOneStar(word, sep, ext);
    UnderPassOneStar(word, sep, ext);
    OnlyStar(word, sep, ext);
    CollapseStarsNoDouble(s);
  }

  /**
   * A name made of a stem, a separator, a version and a tail loses exactly
   * its version: `mactex-basictex-20250308.pkg` becomes
   * `mactex-basictex-*pkg` (the version class takes the dot too).
   */
  lemma PkgNameVersion(word: string, sep: char, num: string, ext: string)
    requires NameStem(word) && (sep == '-' || sep == '_')
    requires VersionToken(num, IsPkgVersionChar) && VersionTail(ext, IsPkgVersionChar)
    ensures PkgName(word + [sep] + num + ext) == word + [sep, '*'] + ext
  {
    var s := word + [sep] + num + ext;
    NoLeadOutsideVersion(word, sep, num, ext, '(');
    assert forall k :: 0 <= k < |s| ==> ParenDigits(s, k).None?;
    SubNoHit(s, ParenDigits);
    SepVersionPass(IsPkgVersionChar, PkgSepDigits, word, sep, num, ext);
    CollapseRunsOneStar(word, sep, ext);
  }

  /** The same for script names, whose version class has no comma. */
  lemma ScriptNameVersion(word: string, sep: char, num: string, ext: string)
    requires NameStem(word) && (sep == '-' || sep == '_')
    requires VersionToken(num, IsScriptVersionChar) && VersionTail(ext, IsScriptVersionChar)
    ensures ScriptName(word + [sep] + num + ext) == word + [sep, '*'] + ext
  {
    SepVersionPass(IsScriptVersionChar, ScriptSepDigits, word, sep, num, ext);
    var s := word + [sep, '*'] + ext;
    assert forall k :: 0 <= k < |s| ==> VersionV(s, k).None? by {
      forall k | 0 <= k < |s| - 1 && s[k] == 'v'
        ensures !IsDigit(s[k + 1])
      {
        if k < |word| {
          if k + 1 < |word| {
            assert s[k] == word[k] && s[k + 1] == word[k + 1];
          }
        } else if k >= |word| + 2 {
          assert s[k] == ext[k - |word| - 2] && s[k + 1] == ext[k + 1 - |word| - 2];
        }
      }
    }
    SubNoHit(s, VersionV);
    CollapseRunsOneStar(word, sep, ext);
  }

  /** A dash followed by a version token matches up to the token's end. */
  lemma DashVersionHit(cls: char -> bool, pre: string, num: string, rest: string)
    requires VersionToken(num, cls) && (|rest| > 0 ==> !cls(rest[0]))
    ensures SepDigitsIn(cls, pre + ['-'] + num + rest, |pre|) == Some(Hit(|pre| + 1 + |num|, "-*"))
  {
    var s := pre + ['-'] + num + rest;
    assert s[|pre|] == '-' && s[|pre| + 1] == num[0];
    assert forall k :: |pre| + 1 <= k < |pre| + 1 + |num| ==> s[k] == num[k - |pre| - 1];
    RunEndIs(s, |pre| + 2, cls, |pre| + 1 + |num|);
  }

  /** The separator pattern finds nothing inside a stem followed by a non-digit. */
  lemma SepMissesStem(cls: char -> bool, word: string, rest: string)
    requires NameStem(word) && |rest| > 0 && !IsDigit(rest[0])
    ensures forall k :: 0 <= k < |word| ==> SepDigitsIn(cls, word + rest, k).None?
  {
    var s := word + rest;
    forall k | 0 <= k < |word|
      ensures SepDigitsIn(cls, s, k).None?
    {
      assert s[k] == word[k];
      if k + 1 < |word| {
        assert s[k + 1] == word[k + 1];
      }
    }
  }

  /** The separator pattern finds nothing inside an unversioned tail that does not start with a digit. */
  lemma SepMissesTail(cls: char -> bool, pre: string, ext: string)
    requires Unversioned(ext) && (|ext| > 0 ==> !IsDigit(ext[0]))
    ensures forall k :: |pre| <= k < |pre + ext| ==> SepDigitsIn(cls, pre + ext, k).None?
  {
    var s := pre + ext;
    forall k | |pre| <= k < |s|
      ensures SepDigitsIn(cls, s, k).None?
    {
      assert s[k] == ext[k - |pre|];
      if k + 1 < |s| {
        assert s[k + 1] == ext[k + 1 - |pre|];
      }
    }
  }

  lemma TwoVersionHits(word: string, n1: string, n2: string, ext: string)
    requires VersionToken(n1, IsScriptVersionChar) && VersionToken(n2, IsScriptVersionChar)
    requires VersionTail(ext, IsScriptVersionChar)
    ensures ScriptSepDigits(word + "-" + n1 + "-" + n2 + ext, |word|) == Some(Hit(|word| + 1 + |n1|, "-*"))
    ensures ScriptSepDigits(word + "-" + n1 + "-" + n2 + ext, |word| + 1 + |n1|) == Some(Hit(|word| + 2 + |n1| + |n2|, "-*"))
  {
    assert word + "-" + n1 + "-" + n2 + ext == word + ['-'] + n1 + ("-" + n2 + ext);
    DashVersionHit(IsScriptVersionChar, word, n1, "-" + n2 + ext);
    DashVersionHit(IsScriptVersionChar, word + "-" + n1, n2, ext);
  }

  lemma TwoVersionMisses(word: string, n1: string, n2: string, ext: string)
    requires NameStem(word) && VersionTail(ext, IsScriptVersionChar)
    ensures forall k :: 0 <= k < |word| ==> ScriptSepDigits(word + "-" + n1 + "-" + n2 + ext, k).None?
    ensures forall k :: |word| + 2 + |n1| + |n2| <= k < |word + "-" + n1 + "-" + n2 + ext| ==>
      ScriptSepDigits(word + "-" + n1 + "-" + n2 + ext, k).None?
  {
    assert word + "-" + n1 + "-" + n2 + ext == word + ("-" + n1 + "-" + n2 + ext);
    SepMissesStem(IsScriptVersionChar, word, "-" + n1 + "-" + n2 + ext);
    SepMissesTail(IsScriptVersionChar, word + "-" + n1 + "-" + n2, ext);
  }

  /** The separator pass on two consecutive dash-separated versions. */
  lemma TwoVersionPass(word: string, n1: string, n2: string, ext: string)
    requires NameStem(word)
    requires VersionToken(n1, IsScriptVersionChar) && VersionToken(n2, IsScriptVersionChar)
    requires VersionTail(ext, IsScriptVersionChar)
    ensures Sub(word + "-" + n1 + "-" + n2 + ext, ScriptSepDigits) == word + "-*-*" + ext
  {
    var s := word + "-" + n1 + "-" + n2 + ext;
    var i, j, e := |word|, |word| + 1 + |n1|, |word| + 2 + |n1| + |n2|;
    TwoVersionHits(word, n1, n2, ext);
    TwoVersionMisses(word, n1, n2, ext);
    SubTwoHits(s, ScriptSepDigits, i, j, e, "-*", "-*");
    TwoVersionSlices(word, n1, n2, ext);
    DashStarTwice(word, ext);
  }

  lemma TwoVersionSlices(word: string, n1: string, n2: string, ext: string)
    ensures var s := word + "-" + n1 + "-" + n2 + ext;
      s[..|word|] == word && s[|word| + 2 + |n1| + |n2|..] == ext
  {
    var s := word + "-" + n1 + "-" + n2 + ext;
    assert s == word + ("-" + n1 + "-" + n2 + ext);
    assert s == (word + "-" + n1 + "-" + n2) + ext;
  }

  lemma DashStarTwice(word: string, ext: string)
    ensures word + "-*" + "-*" + ext == word + "-*-*" + ext
  {
    assert "-*" + "-*" == "-*-*";
  }

  /** Two `-*` units in a row collapse into one. */
  lemma DashPassTwoStars(word: string, ext: string)
    requires NameStem(word) && '*' !in ext
    ensures Sub(word + "-*-*" + ext, DashStars) == word + "-*" + ext
  {
    var s := word + "-*-*" + ext;
    var i := |word|;
    assert DashUnit(s, i) == Some(i + 2);
    assert DashUnit(s, i + 2) == Some(i + 4);
    DashUnitInTail(word + "-*-*", ext, i + 4);
    assert ChainEnd(s, i + 4, DashUnit) == i + 4;
    assert DashStars(s, i) == Some(Hit(i + 4, "-*"));
    forall k | 0 <= k < i
      ensures DashStars(s, k).None?
    {
      assert s == word + ("-*-*" + ext);
      DashUnitInStem(word, "-*-*" + ext, k);
    }
    forall k | i + 4 <= k < |s|
      ensures DashStars(s, k).None?
    {
      DashUnitInTail(word + "-*-*", ext, k);
    }
    SubOneHit(s, DashStars, i, i + 4, "-*");
    assert s[..i] == word && s[i + 4..] == ext;
  }

  /**
   * Two dash-separated versions in a row leave a single `-*`:
   * `Anaconda3-2025.06-1-MacOSX-arm64.sh` becomes `Anaconda3-*-MacOSX-arm64.sh`.
   */
  lemma ScriptNameTwoVersions(word: string, n1: string, n2: string, ext: string)
    requires NameStem(word)
    requires VersionToken(n1, IsScriptVersionChar) && VersionToken(n2, IsScriptVersionChar)
    requires VersionTail(ext, IsScriptVersionChar)
    ensures ScriptName(word + "-" + n1 + "-" + n2 + ext) == word + "-*" + ext
  {
    TwoVersionPass(word, n1, n2, ext);
    var s := word + "-*-*" + ext;
    assert forall k :: 0 <= k < |s| ==> VersionV(s, k).None? by {
      forall k | 0 <= k < |s| - 1 && s[k] == 'v'
        ensures !IsDigit(s[k + 1])
      {
        if k < |word| {
          if k + 1 < |word| {
            assert s[k] == word[k] && s[k + 1] == word[k + 1];
          }
        } else if k >= |word| + 4 {
          assert s[k] == ext[k - |word| - 4] && s[k + 1] == ext[k + 1 - |word| - 4];
        }
      }
    }
    SubNoHit(s, VersionV);
    DashPassTwoStars(word, ext);
    assert word + "-*" + ext == word + ['-', '*'] + ext;
    UnderPassOneStar(word, '-', ext);
    OnlyStar(word, '-', ext);
    CollapseStarsNoDouble(word + "-*" + ext);
  }

  // ----------------------------------------------------------------------
  // `_wildcard_pkgutil_id`

  /** `\d+$`, replaced by `*` */
  function TrailingDigits(s: string, i: nat): (h: Option<Hit>)
    ensures WellFormed(s, i, h)
    ensures h.Some? ==> AtEnd(s, h.value.end) && h.value.rep == "*"
    ensures h.Some? ==> forall k :: i <= k < h.value.end ==> IsDigit(s[k])
  {
    if i < |s| && IsDigit(s[i]) && AtEnd(s, RunEnd(s, i, IsDigit)) then Some(Hit(RunEnd(s, i, IsDigit), "*"))
    else None
  }

  /** `_wildcard_pkgutil_id` */
  function PkgutilId(pid: string): string
  {
    Sub(pid, TrailingDigits)
  }

  predicate DigitsOnly(d: string)
  {
    |d| > 0 && forall k :: 0 <= k < |d| ==> IsDigit(d[k])
  }

  /**
   * Digits that end the identifier (before an optional final newline)
   * become one `*`: `org.tug.mactex.basictex2025` becomes
   * `org.tug.mactex.basictex*`.
   */
  lemma PkgutilIdTrailing(stem: string, digits: string, nl: string)
    requires DigitsOnly(digits) && (|stem| > 0 ==> !IsDigit(stem[|stem| - 1]))
    requires nl == "" || nl == "\n"
    ensures PkgutilId(stem + digits + nl) == stem + "*" + nl
  {
    var s := stem + digits + nl;
    var i, e := |stem|, |stem| + |digits|;
    assert forall k :: i <= k < e ==> s[k] == digits[k - i];
    RunEndIs(s, i, IsDigit, e);
    assert TrailingDigits(s, i) == Some(Hit(e, "*"));
    assert forall k :: 0 <= k < i ==> TrailingDigits(s, k).None? by {
      assert |stem| > 0 ==> s[|stem| - 1] == stem[|stem| - 1];
    }
    SubOneHit(s, TrailingDigits, i, e, "*");
    assert s[..i] == stem && s[e..] == nl;
  }

  /** Where `$` stands in `s`: the end, or just before a final newline. */
  function ContentEnd(s: string): (n: nat)
    ensures n <= |s| && AtEnd(s, n)
  {
    if |s| > 0 && s[|s| - 1] == '\n' then |s| - 1 else |s|
  }

  /** An identifier that does not end in a digit is kept as it is. */
  lemma PkgutilIdKeeps(pid: string)
    requires ContentEnd(pid) == 0 || !IsDigit(pid[ContentEnd(pid) - 1])
    ensures PkgutilId(pid) == pid
  {
    forall k | 0 <= k < |pid|
      ensures TrailingDigits(pid, k).None?
    {
    }
    SubNoHit(pid, TrailingDigits);
  }

  // ----------------------------------------------------------------------
  // `_wildcard_launchctl_labels`

  /** `\.[a-f0-9]{8,}$`, replaced by `.*` */
  function HexSuffix(s: string, i: nat): (h: Option<Hit>)
    ensures WellFormed(s, i, h)
    ensures h.Some? ==> s[i] == '.' && i + 9 <= h.value.end && AtEnd(s, h.value.end) && h.value.rep == ".*"
    ensures h.Some? ==> forall k :: i < k < h.value.end ==> IsLowerHex(s[k])
  {
    if i < |s| && s[i] == '.' && i + 9 <= RunEnd(s, i + 1, IsLowerHex) && AtEnd(s, RunEnd(s, i + 1, IsLowerHex)) then
      Some(Hit(RunEnd(s, i + 1, IsLowerHex), ".*"))
    else None
  }

  /** `([\.-])v?\d(?:[\d.]+)*$`, replaced by the separator and `*` */
  function DotVersionSuffix(s: string, i: nat): (h: Option<Hit>)
    ensures WellFormed(s, i, h)
    ensures h.Some? ==> (s[i] == '.' || s[i] == '-') && AtEnd(s, h.value.end) && h.value.rep == [s[i], '*']
  {
    if i + 1 < |s| && (s[i] == '.' || s[i] == '-') then
      var p := if s[i + 1] == 'v' then i + 2 else i + 1;
      if p < |s| && IsDigit(s[p]) && AtEnd(s, RunEnd(s, p + 1, IsDigitOrDot)) then
        Some(Hit(RunEnd(s, p + 1, IsDigitOrDot), [s[i], '*']))
      else None
    else None
  }

  /** `([A-Za-z])\d+$`, replaced by the letter and `*` */
  function LetterTrailingDigits(s: string, i: nat): (h: Option<Hit>)
    ensures WellFormed(s, i, h)
    ensures h.Some? ==> IsLetter(s[i]) && AtEnd(s, h.value.end) && h.value.rep == [s[i], '*']
  {
    if i + 1 < |s| && IsLetter(s[i]) && IsDigit(s[i + 1]) && AtEnd(s, RunEnd(s, i + 1, IsDigit)) then
      Some(Hit(RunEnd(s, i + 1, IsDigit), [s[i], '*']))
    else None
  }

  /**
   * The `wild` variant: the first of the three patterns that `re.search`
   * finds in the label, substituted; `None` when none occurs.
   */
  function WildLabel(jobLabel: string): (r: Option<string>)
    ensures r.Some? ==> '*' in r.value
  {
    if Search(jobLabel, HexSuffix) then
      SubShows(jobLabel, HexSuffix, '*');
      Some(Sub(jobLabel, HexSuffix))
    else if Search(jobLabel, DotVersionSuffix) then
      SubShows(jobLabel, DotVersionSuffix, '*');
      Some(Sub(jobLabel, DotVersionSuffix))
    else if Search(jobLabel, LetterTrailingDigits) then
      SubShows(jobLabel, LetterTrailingDigits, '*');
      Some(Sub(jobLabel, LetterTrailingDigits))
    else None
  }

  /** `label.split('.helper', 1)[0]` */
  function HelperStem(jobLabel: string): (r: string)
    ensures Contains(jobLabel, ".helper") ==> StartsWith(jobLabel, r + ".helper")
    ensures Contains(jobLabel, ".helper") ==> forall k :: 0 <= k < |r| ==> !StartsWith(jobLabel[k..], ".helper")
  {
    match IndexOf(jobLabel, ".helper")
    case Some(k) => jobLabel[..k]
    case None => jobLabel
  }

  /** `_wildcard_launchctl_labels` */
  function LaunchctlLabels(jobLabel: string): seq<string>
  {
    LabelVariants(jobLabel, WildLabel(jobLabel))
  }

  /** The variants of `_wildcard_launchctl_labels`, given its `wild` value. */
  function LabelVariants(jobLabel: string, wild: Option<string>): seq<string>
  {
    var helper := if Contains(jobLabel, ".helper") && |HelperStem(jobLabel)| > 0 then [HelperStem(jobLabel) + ".*"] else [];
    var own := if wild.Some? && |wild.value| > 0 && wild.value != jobLabel then [wild.value] else [];
    var app :=
      if StartsWith(jobLabel, "com.") then
        ["application." + (if wild.Some? && |wild.value| > 0 then wild.value else jobLabel) + ".installer*"]
      else [];
    helper + own + app
  }

  /** The label with its `.helper` suffix replaced by `.*` differs from the label. */
  lemma HelperVariantDiffers(jobLabel: string)
    requires Contains(jobLabel, ".helper")
    ensures HelperStem(jobLabel) + ".*" != jobLabel
  {
    var stem := HelperStem(jobLabel);
    assert (stem + ".*")[|stem| + 1] == '*';
    assert jobLabel[|stem| + 1] == (stem + ".helper")[|stem| + 1];
  }

  /** The installer variant of a `com.` label differs from the label. */
  lemma AppVariantDiffers(jobLabel: string, base: string)
    requires StartsWith(jobLabel, "com.")
    ensures "application." + base + ".installer*" != jobLabel
  {
    assert ("application." + base + ".installer*")[0] == 'a';
  }

  /** Every variant holds a `*`, and none is the label itself: the list only adds patterns. */
  lemma LaunchctlVariants(jobLabel: string)
    ensures |LaunchctlLabels(jobLabel)| <= 3
    ensures forall k :: 0 <= k < |LaunchctlLabels(jobLabel)| ==> '*' in LaunchctlLabels(jobLabel)[k]
    ensures jobLabel !in LaunchctlLabels(jobLabel)
  {
    LabelVariantsFacts(jobLabel, WildLabel(jobLabel));
  }

  /** The variant facts for any `wild` value that holds a `*` whenever there is one. */
  lemma LabelVariantsFacts(jobLabel: string, wild: Option<string>)
    requires wild.Some? ==> '*' in wild.value
    ensures |LabelVariants(jobLabel, wild)| <= 3
    ensures forall k :: 0 <= k < |LabelVariants(jobLabel, wild)| ==> '*' in LabelVariants(jobLabel, wild)[k]
    ensures jobLabel !in LabelVariants(jobLabel, wild)
  {
    if Contains(jobLabel, ".helper") {
      HelperVariantDiffers(jobLabel);
    }
    var base := if wild.Some? && |wild.value| > 0 then wild.value else jobLabel;
    if StartsWith(jobLabel, "com.") {
      AppVariantDiffers(jobLabel, base);
    }
    var a := "application." + base + ".installer*";
    assert a[|a| - 1] == '*';
    assert ('*' in (HelperStem(jobLabel) + ".*"));
  }

  /** The helper variant comes first, the installer variant of a `com.` label last. */
  lemma LaunchctlOrder(jobLabel: string)
    ensures Contains(jobLabel, ".helper") && |HelperStem(jobLabel)| > 0 ==>
      LaunchctlLabels(jobLabel)[0] == HelperStem(jobLabel) + ".*"
    ensures StartsWith(jobLabel, "com.") ==>
      var r := LaunchctlLabels(jobLabel);
      var wild := WildLabel(jobLabel);
      r[|r| - 1] == "application." + (if wild.Some? then wild.value else jobLabel) + ".installer*"
  {
    if WildLabel(jobLabel).Some? {
      assert '*' in WildLabel(jobLabel).value;
    }
  }

  /** A hash-like suffix of eight or more lower-case hex digits becomes `.*`. */
  lemma WildHexSuffix(stem: string, hex: string)
    requires |hex| >= 8 && forall k :: 0 <= k < |hex| ==> IsLowerHex(hex[k])
    ensures WildLabel(stem + "." + hex) == Some(stem + ".*")
  {
    var s := stem + "." + hex;
    var i := |stem|;
    assert s[i] == '.';
    assert forall k :: i < k < |s| ==> s[k] == hex[k - i - 1];
    RunEndIs(s, i + 1, IsLowerHex, |s|);
    assert HexSuffix(s, i) == Some(Hit(|s|, ".*"));
    forall k | 0 <= k < i
      ensures HexSuffix(s, k).None?
    {
      assert RunEnd(s, k + 1, IsLowerHex) <= i;
    }
    SearchNoHit(s, HexSuffix);
    assert Search(s, HexSuffix);
    SubOneHit(s, HexSuffix, i, |s|, ".*");
    assert s[..i] == stem && s[|s|..] == "";
    assert Sub(s, HexSuffix) == stem + ".*";
    assert WildLabel(s) == Some(Sub(s, HexSuffix));
  }

  /** A short version run: a digit, then digits and dots, fewer than eight characters. */
  predicate ShortVersion(ver: string)
  {
    0 < |ver| < 8 && IsDigit(ver[0]) && forall k :: 0 <= k < |ver| ==> IsDigitOrDot(ver[k])
  }

  /** No hash-like suffix in a label ending in a short version run. */
  lemma NoHexInShortVersion(stem: string, sep: char, ver: string)
    requires |stem| > 0 && IsLetter(stem[|stem| - 1]) && (sep == '.' || sep == '-') && ShortVersion(ver)
    ensures !Search(stem + [sep] + ver, HexSuffix)
  {
    var s := stem + [sep] + ver;
    assert s[|stem| - 1] == stem[|stem| - 1] && s[|stem|] == sep;
    assert forall k :: |stem| < k < |s| ==> s[k] == ver[k - |stem| - 1];
    SearchNoHit(s, HexSuffix);
  }

  lemma DotVersionHit(stem: string, sep: char, ver: string)
    requires (sep == '.' || sep == '-') && ShortVersion(ver)
    ensures DotVersionSuffix(stem + [sep] + ver, |stem|) == Some(Hit(|stem + [sep] + ver|, [sep, '*']))
  {
    var s := stem + [sep] + ver;
    var i := |stem|;
    assert s[i] == sep && s[i + 1] == ver[0];
    assert forall k :: i < k < |s| ==> s[k] == ver[k - i - 1];
    RunEndIs(s, i + 2, IsDigitOrDot, |s|);
  }

  /** The version pattern cannot start inside a stem that ends in a letter. */
  lemma DotVersionMissesStem(stem: string, rest: string)
    requires |stem| > 0 && IsLetter(stem[|stem| - 1]) && |rest| > 0 && !IsDigit(rest[0])
    ensures forall k :: 0 <= k < |stem| ==> DotVersionSuffix(stem + rest, k).None?
  {
    var s := stem + rest;
    assert s[|stem| - 1] == stem[|stem| - 1] && s[|stem|] == rest[0];
    forall k | 0 <= k < |stem|
      ensures DotVersionSuffix(s, k).None?
    {
      var p := if k + 1 < |s| && s[k + 1] == 'v' then k + 2 else k + 1;
      if p < |stem| && IsDigit(s[p]) {
        assert RunEnd(s, p + 1, IsDigitOrDot) <= |stem| - 1;
      }
    }
  }

  /** A label whose last component is a short version after `.` or `-` keeps the separator and gets `*`. */
  lemma WildVersionSuffix(stem: string, sep: char, ver: string)
    requires |stem| > 0 && IsLetter(stem[|stem| - 1]) && (sep == '.' || sep == '-') && ShortVersion(ver)
    ensures WildLabel(stem + [sep] + ver) == Some(stem + [sep, '*'])
  {
    var s := stem + [sep] + ver;
    var i := |stem|;
    NoHexInShortVersion(stem, sep, ver);
    DotVersionHit(stem, sep, ver);
    assert s == stem + ([sep] + ver);
    DotVersionMissesStem(stem, [sep] + ver);
    SearchNoHit(s, DotVersionSuffix);
    assert Search(s, DotVersionSuffix);
    SubOneHit(s, DotVersionSuffix, i, |s|, [sep, '*']);
    assert s[..i] == stem && s[|s|..] == "";
    assert Sub(s, DotVersionSuffix) == stem + [sep, '*'];
    assert WildLabel(s) == Some(Sub(s, DotVersionSuffix));
  }

  lemma ComVariants(jobLabel: string, w: string)
    requires |w| > 0 && w != jobLabel && StartsWith(jobLabel, "com.") && !Contains(jobLabel, ".helper")
    ensures LabelVariants(jobLabel, Some(w)) == [w, "application." + w + ".installer*"]
  {
  }

  /**
   * A versioned `com.` label without a helper part yields its wildcarded
   * form and the installer variant built on it.
   */
  lemma LaunchctlVersionedLabel(stem: string, sep: char, ver: string)
    requires |stem| > 0 && IsLetter(stem[|stem| - 1]) && (sep == '.' || sep == '-') && ShortVersion(ver)
    requires StartsWith(stem, "com.") && !Contains(stem + [sep] + ver, ".helper")
    ensures LaunchctlLabels(stem + [sep] + ver)
         == [stem + [sep, '*'], "application." + stem + [sep, '*'] + ".installer*"]
  {
    var s := stem + [sep] + ver;
    var w := stem + [sep, '*'];
    WildVersionSuffix(stem, sep, ver);
    assert w != s by {
      assert s[|stem| + 1] == ver[0] && w[|stem| + 1] == '*';
    }
    assert StartsWith(s, "com.") by {
      assert s[..4] == stem[..4];
    }
    ComVariants(s, w);
    assert "application." + w + ".installer*" == "application." + stem + [sep, '*'] + ".installer*";
  }
}
