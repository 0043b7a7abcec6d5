/**
 * The per-path wildcard policy: team identifiers, version-like directory
 * names and version numbers inside file names become `*`, one `/`-separated
 * segment at a time (`_wildcard_team_id`, `_wildcard_delete_path`,
 * `_wildcard_app_path`, `_wildcard_cask_path`).
 */
module Wildcard {
  import opened Text
  import opened Regex
  import opened PyPath

  // ----------------------------------------------------------------------
  // Character classes

  /** `[\d.,_-]` */
  predicate IsVersionChar(c: char) { IsDigit(c) || c == '.' || c == ',' || c == '_' || c == '-' }
  /** `[\d.,]` */
  predicate IsDigitDotComma(c: char) { IsDigit(c) || c == '.' || c == ',' }
  /** `[\d.]` */
  predicate IsDigitOrDot(c: char) { IsDigit(c) || c == '.' }
  /** `(?:\s|-|_)` */
  predicate IsSeparator(c: char) { IsSpace(c) || c == '-' || c == '_' }

  // ----------------------------------------------------------------------
  // Team identifiers

  /** `^[A-Z0-9]{8,12}$` as `re.match` applies it: `$` also accepts a final newline. */
  predicate IsTeamId(s: string)
  {
    (8 <= |s| <= 12 && FullMatch(s, IsUpperAlnum))
    || (9 <= |s| <= 13 && s[|s| - 1] == '\n' && FullMatch(s[..|s| - 1], IsUpperAlnum))
  }

  /** `_wildcard_team_id`: leading stars are kept, and a team identifier after them becomes `*`. */
  function WildcardTeamId(seg: string): (r: string)
    ensures IsTeamId(seg) ==> r == "*"
    ensures '*' !in seg ==> (r == "*" <==> IsTeamId(seg))
    ensures r == seg || (|r| > 0 && forall k :: 0 <= k < |r| ==> r[k] == '*')
  {
    var n := RunEnd(seg, 0, IsStar);
    assert n > 0 ==> seg[0] in seg;
    assert seg[..n] + seg[n..] == seg;
    seg[..n] + (if IsTeamId(seg[n..]) then "*" else seg[n..])
  }

  // ----------------------------------------------------------------------
  // The substitutions of `_wildcard_delete_path`

  /** `(?:\s|-|_)(?:\d+)(?:[\d.,]*)`, replaced by the separator and `*` */
  function SepDigits(s: string, i: nat): (h: Option<Hit>)
    ensures WellFormed(s, i, h)
    ensures h.Some? ==> i + 1 < |s| && IsSeparator(s[i]) && IsDigit(s[i + 1]) && h.value.rep == [s[i], '*']
  {
    if i + 1 < |s| && IsSeparator(s[i]) && IsDigit(s[i + 1]) then Some(Hit(RunEnd(s, i + 1, IsDigitDotComma), [s[i], '*']))
    else None
  }

  /** `([A-Za-z])\d+(?:[\d.,]*)$`, replaced by the letter and `*` */
  function LetterDigitsAtEnd(s: string, i: nat): (h: Option<Hit>)
    ensures WellFormed(s, i, h)
    ensures h.Some? ==> i + 1 < |s| && IsLetter(s[i]) && IsDigit(s[i + 1]) && h.value.rep == [s[i], '*']
  {
    if i + 1 < |s| && IsLetter(s[i]) && IsDigit(s[i + 1]) && AtEnd(s, RunEnd(s, i + 1, IsDigitDotComma)) then
      Some(Hit(RunEnd(s, i + 1, IsDigitDotComma), [s[i], '*']))
    else None
  }

  /** `([A-Za-z])\d+(?=[A-Z])`, replaced by the letter and `*` */
  function LetterDigitsBeforeUpper(s: string, i: nat): (h: Option<Hit>)
    ensures WellFormed(s, i, h)
    ensures h.Some? ==> i + 1 < |s| && IsLetter(s[i]) && IsDigit(s[i + 1]) && h.value.rep == [s[i], '*']
  {
    if i + 1 < |s| && IsLetter(s[i]) && IsDigit(s[i + 1]) && RunEnd(s, i + 1, IsDigit) < |s| && IsUpper(s[RunEnd(s, i + 1, IsDigit)]) then
      Some(Hit(RunEnd(s, i + 1, IsDigit), [s[i], '*']))
    else None
  }

  /** `v\d+(?:[\d.]+)*`, replaced by `v*` */
  function VersionV(s: string, i: nat): (h: Option<Hit>)
    ensures WellFormed(s, i, h)
    ensures h.Some? ==> i + 1 < |s| && s[i] == 'v' && IsDigit(s[i + 1]) && h.value.rep == "v*"
  {
    if i + 1 < |s| && s[i] == 'v' && IsDigit(s[i + 1]) then Some(Hit(RunEnd(s, i + 1, IsDigitOrDot), "v*"))
    else None
  }

  /**
   * The extension rule: when `s` has a dot and is not all `[\d.,]`, the
   * part before the last dot loses trailing digits that follow a letter.
   */
  function ExtensionStep(s: string): string
  {
    match LastIndexOfChar(s, '.')
    case None => s
    case Some(d) =>
      if FullMatch(s, IsDigitDotComma) then s
      else
        var base := s[..d];
        var newBase := Sub(base, LetterDigitsAtEnd);
        if |base| > 0 && newBase != base then newBase + "." + s[d + 1..] else s
  }

  /** Only `[A-Z0-9]` and `*`, and at least six letters or digits once the stars are gone. */
  predicate StarredTeamId(clean: string, s: string)
  {
    |clean| >= 6 && FullMatch(clean, IsUpperAlnum) && FullMatch(s, IsUpperAlnumOrStar)
  }

  /**
   * The closing rule for segments that still hold a star: a team
   * identifier broken up by stars before the first dot becomes `*`; without
   * a dot, such a segment (judged on its original text) becomes `*`.
   */
  function CollapseTeamPrefix(orig: string, s: string): string
  {
    if '*' !in s then s
    else match IndexOfChar(s, '.')
      case Some(d) =>
        var pre := s[..d];
        if StarredTeamId(RemoveChar(pre, '*'), pre) then "*." + s[d + 1..]
        else if StarredTeamId(RemoveChar(orig, '*'), s) then "*"
        else s
      case None =>
        if StarredTeamId(RemoveChar(orig, '*'), s) then "*" else s
  }

  /** The number substitutions, in the source's order, between the whole-segment test and the star collapse. */
  function NumberSteps(s: string): string
  {
    var s1 := Sub(s, SepDigits);
    var s2 := Sub(s1, LetterDigitsAtEnd);
    var s3 := Sub(s2, LetterDigitsBeforeUpper);
    var s4 := ExtensionStep(s3);
    Sub(s4, VersionV)
  }

  predicate IsPlainSegment(seg: string)
  {
    seg == "" || seg == "~" || seg == ".." || seg == "."
  }

  /** One segment of `_wildcard_delete_path`. */
  function DeleteSegment(seg: string): (r: string)
    ensures IsPlainSegment(seg) ==> r == seg
    ensures IsTeamId(seg) ==> r == "*"
    ensures FullMatch(seg, IsVersionChar) && !IsPlainSegment(seg) ==> r == "*"
    ensures NoDoubleStar(r)
    ensures '/' !in seg ==> '/' !in r
  {
    if IsPlainSegment(seg) then seg
    else
      var t := WildcardTeamId(seg);
      if t == "*" then "*"
      else
        var s1 := if FullMatch(t, IsVersionChar) || FullMatch(seg, IsVersionChar) then "*" else t;
        var s2 := CollapseStars(NumberSteps(s1));
        DeleteSegmentSteps(seg, t, s1);
        CollapseTeamPrefix(seg, s2)
  }

  /** What the number steps and the closing rule guarantee for a segment that is not plain. */
  lemma DeleteSegmentSteps(seg: string, t: string, s1: string)
    requires t == WildcardTeamId(seg)
    requires s1 == (if FullMatch(t, IsVersionChar) || FullMatch(seg, IsVersionChar) then "*" else t)
    ensures var r := CollapseTeamPrefix(seg, CollapseStars(NumberSteps(s1)));
      NoDoubleStar(r) && ('/' !in seg ==> '/' !in r) && (FullMatch(seg, IsVersionChar) ==> r == "*")
  {
    var s2 := CollapseStars(NumberSteps(s1));
    NoSlashThroughSteps(seg, t, s1);
    CollapseTeamPrefixFacts(seg, s2);
    if FullMatch(seg, IsVersionChar) {
      NumberStepsOnStar();
      CollapseTeamPrefixOnStar(seg);
    }
  }

  /** A lone star stays a lone star under the closing rule. */
  lemma CollapseTeamPrefixOnStar(orig: string)
    ensures CollapseTeamPrefix(orig, "*") == "*"
  {
    assert '.' !in "*";
  }

  // ----------------------------------------------------------------------
  // Facts used by DeleteSegment

  lemma SubNoDigitUnchanged(s: string)
    requires NoDigit(s)
    ensures Sub(s, SepDigits) == s && Sub(s, LetterDigitsAtEnd) == s
    ensures Sub(s, LetterDigitsBeforeUpper) == s && Sub(s, VersionV) == s
  {
    SubNoHit(s, SepDigits);
    SubNoHit(s, LetterDigitsAtEnd);
    SubNoHit(s, LetterDigitsBeforeUpper);
    SubNoHit(s, VersionV);
  }

  lemma ExtensionStepNoDigit(s: string)
    requires NoDigit(s)
    ensures ExtensionStep(s) == s
  {
    match LastIndexOfChar(s, '.')
    case None =>
    case Some(d) =>
      SubNoDigitUnchanged(s[..d]);
  }

  /** A string without digits goes through the number substitutions unchanged. */
  lemma NumberStepsNoDigit(s: string)
    requires NoDigit(s)
    ensures NumberSteps(s) == s
  {
    SubNoDigitUnchanged(s);
    ExtensionStepNoDigit(s);
  }

  lemma NumberStepsOnStar()
    ensures CollapseStars(NumberSteps("*")) == "*"
  {
    NumberStepsNoDigit("*");
    assert RunEnd("*", 0, IsStar) == 1;
  }

  lemma NoSlashSubs(s: string)
    requires '/' !in s
    ensures '/' !in Sub(s, SepDigits) && '/' !in Sub(s, LetterDigitsAtEnd)
    ensures '/' !in Sub(s, LetterDigitsBeforeUpper) && '/' !in Sub(s, VersionV)
  {
    SubKeepsOut(s, SepDigits, '/');
    SubKeepsOut(s, LetterDigitsAtEnd, '/');
    SubKeepsOut(s, LetterDigitsBeforeUpper, '/');
    SubKeepsOut(s, VersionV, '/');
  }

  lemma NoSlashSlice(s: string, a: nat, b: nat)
    requires '/' !in s && a <= b <= |s|
    ensures '/' !in s[a..b]
  {
    forall k | a <= k < b
      ensures s[k] != '/'
    {
      assert s[k] in s;
    }
  }

  lemma NoSlashNumberSteps(s: string)
    requires '/' !in s
    ensures '/' !in NumberSteps(s)
  {
    NoSlashSubs(s);
    var s1 := Sub(s, SepDigits);
    NoSlashSubs(s1);
    var s2 := Sub(s1, LetterDigitsAtEnd);
    NoSlashSubs(s2);
    var s3 := Sub(s2, LetterDigitsBeforeUpper);
    if LastIndexOfChar(s3, '.').Some? {
      var d := LastIndexOfChar(s3, '.').value;
      NoSlashSlice(s3, 0, d);
      NoSlashSubs(s3[..d]);
      NoSlashSlice(s3, d + 1, |s3|);
    }
    var s4 := ExtensionStep(s3);
    assert '/' !in s4;
    NoSlashSubs(s4);
  }

  lemma NoSlashThroughSteps(seg: string, t: string, s1: string)
    requires t == WildcardTeamId(seg)
    requires s1 == (if FullMatch(t, IsVersionChar) || FullMatch(seg, IsVersionChar) then "*" else t)
    ensures '/' !in seg ==> '/' !in CollapseStars(NumberSteps(s1))
  {
    if '/' !in seg {
      assert '/' !in s1;
      NoSlashNumberSteps(s1);
      SubKeepsOut(NumberSteps(s1), StarRun, '/');
    }
  }

  lemma NoDoubleStarAfterDot(suf: string)
    requires NoDoubleStar(suf)
    ensures NoDoubleStar("*." + suf)
  {
    var r := "*." + suf;
    forall k | 0 <= k < |r| - 1
      ensures !(r[k] == '*' && r[k + 1] == '*')
    {
      if k >= 2 {
        assert r[k] == suf[k - 2] && r[k + 1] == suf[k - 1];
      }
    }
  }

  lemma CollapseTeamPrefixFacts(orig: string, s: string)
    requires NoDoubleStar(s)
    ensures NoDoubleStar(CollapseTeamPrefix(orig, s))
    ensures '/' !in s ==> '/' !in CollapseTeamPrefix(orig, s)
  {
    if '*' in s {
      match IndexOfChar(s, '.')
      case Some(d) =>
        NoDoubleStarSuffix(s, d + 1);
        NoDoubleStarAfterDot(s[d + 1..]);
        if '/' !in s {
          NoSlashSlice(s, d + 1, |s|);
        }
      case None =>
    }
  }

  // ----------------------------------------------------------------------
  // Whole paths

  /** `_wildcard_delete_path`: every `/`-separated segment goes through `DeleteSegment`. */
  function WildcardDeletePath(path: string): string
  {
    Join(Map(DeleteSegment, Split(path, '/')), "/")
  }

  /** The segment loop of `_wildcard_delete_path`, building the list of new segments. */
  method DeletePath(path: string) returns (r: string)
    ensures r == WildcardDeletePath(path)
  {
    var segs := Split(path, '/');
    var parts: seq<string> := [];
    for k := 0 to |segs|
      invariant parts == Map(DeleteSegment, segs[..k])
    {
      var seg := segs[k];
      MapPrefix(DeleteSegment, segs, k);
      if IsPlainSegment(seg) {
        parts := parts + [seg];
      } else {
        parts := parts + [DeleteSegment(seg)];
      }
    }
    assert segs[..|segs|] == segs;
    r := Join(parts, "/");
  }

  /** The result has exactly one segment per input segment, each rewritten on its own. */
  lemma DeletePathSegments(path: string)
    ensures Split(WildcardDeletePath(path), '/') == Map(DeleteSegment, Split(path, '/'))
  {
    var out := Map(DeleteSegment, Split(path, '/'));
    assert "/" == ['/'];
    SplitJoin(out, '/');
  }

  /** A single segment is rewritten by `DeleteSegment` alone. */
  lemma DeletePathOneSegment(seg: string)
    requires '/' !in seg
    ensures WildcardDeletePath(seg) == DeleteSegment(seg)
  {
    assert Split(seg, '/') == [seg];
  }

  /** A lower-case letter occurs before the first dot (anywhere, when there is no dot). */
  predicate LowerBeforeDot(seg: string)
  {
    exists k :: 0 <= k < |seg| && IsLower(seg[k]) && '.' !in seg[..k]
  }

  /**
   * A name without digits and without doubled stars, with a lower-case
   * letter before its first dot, is kept as it is: it cannot be a team
   * identifier, a version, or a team identifier broken up by stars.
   */
  lemma DeleteSegmentKeepsNames(seg: string)
    requires NoDigit(seg) && NoDoubleStar(seg) && LowerBeforeDot(seg)
    ensures DeleteSegment(seg) == seg
  {
    var k :| 0 <= k < |seg| && IsLower(seg[k]) && '.' !in seg[..k];
    KeepsNamesAt(seg, k);
  }

  lemma KeepsNamesAt(seg: string, k: nat)
    requires NoDigit(seg) && NoDoubleStar(seg)
    requires k < |seg| && IsLower(seg[k]) && '.' !in seg[..k]
    ensures DeleteSegment(seg) == seg
  {
    TeamIdKeepsNames(seg, k);
    assert !IsPlainSegment(seg) && !FullMatch(seg, IsVersionChar) && seg != "*";
    NumberStepsNoDigit(seg);
    CollapseStarsNoDouble(seg);
    CollapseTeamPrefixKeepsNames(seg, k);
  }

  lemma TeamIdKeepsNames(seg: string, k: nat)
    requires k < |seg| && IsLower(seg[k])
    ensures WildcardTeamId(seg) == seg
  {
    var n := RunEnd(seg, 0, IsStar);
    assert n <= k;
    assert seg[n..][k - n] == seg[k];
    assert !IsTeamId(seg[n..]);
    assert seg[..n] + seg[n..] == seg;
  }

  lemma CollapseTeamPrefixKeepsNames(seg: string, k: nat)
    requires k < |seg| && IsLower(seg[k]) && '.' !in seg[..k]
    ensures CollapseTeamPrefix(seg, seg) == seg
  {
    assert !FullMatch(seg, IsUpperAlnumOrStar);
    match IndexOfChar(seg, '.')
    case None =>
    case Some(d) =>
      assert d > k;
      assert seg[..d][k] == seg[k];
      assert !FullMatch(seg[..d], IsUpperAlnumOrStar);
  }

  lemma DeleteSegmentStar()
    ensures DeleteSegment("*") == "*"
  {
    assert RunEnd("*", 0, IsStar) == 1;
  }

  // ----------------------------------------------------------------------
  // `_wildcard_app_path`

  /** `(?:\s|\-|_)(?:v?\d+(?:[\d.]+)*)$`, replaced by the separator and `*` */
  function SepVersionAtEnd(s: string, i: nat): (h: Option<Hit>)
    ensures WellFormed(s, i, h)
    ensures h.Some? ==> IsSeparator(s[i]) && h.value.rep == [s[i], '*'] && AtEnd(s, h.value.end)
  {
    if i + 1 < |s| && IsSeparator(s[i]) then
      var k := if s[i + 1] == 'v' then i + 2 else i + 1;
      if k < |s| && IsDigit(s[k]) && AtEnd(s, RunEnd(s, k, IsDigitOrDot)) then Some(Hit(RunEnd(s, k, IsDigitOrDot), [s[i], '*']))
      else None
    else None
  }

  /** `(.*?)(\d+(?:[\d.]+)*)$` tried at `i`, the lazy group having grown up to `k` */
  function LazyNumberFrom(s: string, i: nat, k: nat): (h: Option<Hit>)
    requires i <= k
    ensures WellFormed(s, i, h)
    ensures h.Some? ==> AtEnd(s, h.value.end) && forall c :: c in h.value.rep ==> c == '*' || c in s
    decreases |s| - k
  {
    if k >= |s| then None
    else if IsDigit(s[k]) && AtEnd(s, RunEnd(s, k, IsDigitOrDot)) then
      assert forall c :: c in s[i..k] ==> c in s;
      Some(Hit(RunEnd(s, k, IsDigitOrDot), s[i..k] + "*"))
    else if s[k] == '\n' then None
    else LazyNumberFrom(s, i, k + 1)
  }

  /** `(.*?)(\d+(?:[\d.]+)*)$`, replaced by the lazily matched text and `*` */
  function TrailingNumber(s: string, i: nat): (h: Option<Hit>)
    ensures WellFormed(s, i, h)
    ensures h.Some? ==> AtEnd(s, h.value.end) && forall c :: c in h.value.rep ==> c == '*' || c in s
  {
    LazyNumberFrom(s, i, i)
  }

  /** The `.app` rule of `_wildcard_app_path` for one segment. */
  function AppBundleSegment(seg: string): (r: string)
    ensures EndsWith(seg, ".app") ==> EndsWith(r, ".app")
    ensures !EndsWith(seg, ".app") ==> r == seg
    ensures '/' !in seg ==> '/' !in r
  {
    if EndsWith(seg, ".app") then
      var base := seg[..|seg| - 4];
      var b1 := Sub(base, SepVersionAtEnd);
      var b2 := Sub(b1, TrailingNumber);
      NoSlashAppBase(seg, base, b1, b2);
      b2 + ".app"
    else seg
  }

  lemma NoSlashAppBase(seg: string, base: string, b1: string, b2: string)
    requires |seg| >= 4 && base == seg[..|seg| - 4]
    requires b1 == Sub(base, SepVersionAtEnd) && b2 == Sub(b1, TrailingNumber)
    ensures '/' !in seg ==> '/' !in b2
  {
    if '/' !in seg {
      NoSlashSlice(seg, 0, |seg| - 4);
      SubKeepsOut(base, SepVersionAtEnd, '/');
      SubKeepsOut(b1, TrailingNumber, '/');
    }
  }

  /** One segment of `_wildcard_app_path`: the `.app` rule, then `_wildcard_delete_path` on the result. */
  function AppPathSegment(seg: string): string
  {
    WildcardDeletePath(AppBundleSegment(seg))
  }

  /** `_wildcard_app_path` */
  function WildcardAppPath(path: string): string
  {
    Join(Map(AppPathSegment, Split(path, '/')), "/")
  }

  function AppSegmentRule(seg: string): string
  {
    DeleteSegment(AppBundleSegment(seg))
  }

  /** One output segment per input segment: the `.app` rule followed by the delete-path rule. */
  lemma AppPathSegments(path: string)
    ensures Split(WildcardAppPath(path), '/') == Map(AppSegmentRule, Split(path, '/'))
  {
    var segs := Split(path, '/');
    forall k | 0 <= k < |segs|
      ensures AppPathSegment(segs[k]) == AppSegmentRule(segs[k])
    {
      DeletePathOneSegment(AppBundleSegment(segs[k]));
    }
    assert Map(AppPathSegment, segs) == Map(AppSegmentRule, segs);
    assert "/" == ['/'];
    SplitJoin(Map(AppSegmentRule, segs), '/');
  }

  lemma {:induction false} LazyNumberNoDigit(s: string, i: nat, k: nat)
    requires i <= k && NoDigit(s)
    ensures LazyNumberFrom(s, i, k).None?
    decreases |s| - k
  {
    if k < |s| {
      LazyNumberNoDigit(s, i, k + 1);
    }
  }

  lemma SubNoDigitApp(s: string)
    requires NoDigit(s)
    ensures Sub(s, SepVersionAtEnd) == s && Sub(s, TrailingNumber) == s
  {
    forall j | 0 <= j < |s|
      ensures TrailingNumber(s, j).None?
    {
      LazyNumberNoDigit(s, j, j);
    }
    SubNoHit(s, SepVersionAtEnd);
    SubNoHit(s, TrailingNumber);
  }

  /** A segment without digits is left alone by the `.app` rule. */
  lemma AppBundleNoDigit(seg: string)
    requires NoDigit(seg)
    ensures AppBundleSegment(seg) == seg
  {
    if EndsWith(seg, ".app") {
      var base := seg[..|seg| - 4];
      SubNoDigitApp(base);
      assert base + ".app" == seg;
    }
  }

  /** `KeepsNamesAt` for a literal: the character checks are done by scanning. */
  lemma KeepsNamesScan(seg: string, k: nat)
    requires NoDigitFrom(seg, 0) && NoDoubleStarFrom(seg, 0)
    requires k < |seg| && IsLower(seg[k]) && '.' !in seg[..k]
    ensures DeleteSegment(seg) == seg
  {
    NoDigitFromHolds(seg, 0);
    NoDoubleStarFromHolds(seg, |seg|);
    KeepsNamesAt(seg, k);
  }

  lemma AppPathOneSegment(seg: string)
    requires '/' !in seg
    ensures WildcardAppPath(seg) == AppSegmentRule(seg)
  {
    assert Split(seg, '/') == [seg];
    DeletePathOneSegment(AppBundleSegment(seg));
  }

  /** A digit-free bundle or directory name (a lower-case letter before its first dot, no doubled stars) is left unchanged, e.g. `Safari.app`. */
  lemma AppPathKeepsNames(name: string)
    requires '/' !in name && NoDigit(name) && NoDoubleStar(name) && LowerBeforeDot(name)
    ensures WildcardAppPath(name) == name
  {
    AppPathOneSegment(name);
    AppBundleNoDigit(name);
    DeleteSegmentKeepsNames(name);
  }

  lemma SepVersionBefore(word: string, sep: char, num: string, j: nat)
    requires NoDigit(word) && IsSeparator(sep) && j < |word|
    ensures SepVersionAtEnd(word + [sep] + num, j).None?
  {
    var s := word + [sep] + num;
    if j + 1 < |s| && IsSeparator(s[j]) {
      var k := if s[j + 1] == 'v' then j + 2 else j + 1;
      assert k <= |word|;
      if k < |word| {
        assert s[k] == word[k];
      }
    }
  }

  lemma SepNumberBase(word: string, sep: char, num: string)
    requires NoDigit(word) && IsSeparator(sep)
    requires |num| > 0 && IsDigit(num[0]) && forall k :: 0 <= k < |num| ==> IsDigitOrDot(num[k])
    ensures Sub(word + [sep] + num, SepVersionAtEnd) == word + [sep, '*']
  {
    var base := word + [sep] + num;
    forall j | 0 <= j < |word|
      ensures SepVersionAtEnd(base, j).None?
    {
      SepVersionBefore(word, sep, num, j);
    }
    SubFromSkip(base, SepVersionAtEnd, 0, |word|);
    assert base[..|word|] == word;
    assert forall k :: |word| + 1 <= k < |base| ==> base[k] == num[k - |word| - 1];
    assert RunEnd(base, |word| + 1, IsDigitOrDot) == |base|;
    assert SepVersionAtEnd(base, |word|) == Some(Hit(|base|, [sep, '*']));
  }

  /** Appending `.app` to a slash-free name keeps it slash-free, and the bundle rule sees the name as its base. */
  lemma AppSuffix(name: string)
    requires '/' !in name
    ensures '/' !in name + ".app" && (name + ".app")[..|name|] == name && EndsWith(name + ".app", ".app")
  {
    assert forall k :: 0 <= k < |name| ==> (name + ".app")[k] == name[k];
  }

  lemma AppBundleOf(base: string)
    ensures AppBundleSegment(base + ".app") == Sub(Sub(base, SepVersionAtEnd), TrailingNumber) + ".app"
  {
    var seg := base + ".app";
    assert EndsWith(seg, ".app");
    assert seg[..|seg| - 4] == base;
  }

  /** The bundle rule's output is then kept by the delete-path rule when the name part has a lower-case letter before any dot. */
  lemma StarredNameKept(word: string, tail: string)
    requires NoDigit(word) && '*' !in word && LowerBeforeDot(word)
    requires NoDigit(tail) && NoDoubleStar(tail)
    ensures DeleteSegment(word + tail) == word + tail
  {
    var out := word + tail;
    var k :| 0 <= k < |word| && IsLower(word[k]) && '.' !in word[..k];
    assert out[..k] == word[..k] && out[k] == word[k];
    assert forall i :: 0 <= i < |word| ==> out[i] == word[i];
    assert forall i :: |word| <= i < |out| ==> out[i] == tail[i - |word|];
    KeepsNamesAt(out, k);
  }

  /**
   * A version number after a space, `-` or `_` at the end of a bundle name
   * becomes `*`, e.g. `Alfred 5.app` becomes `Alfred *.app`.
   */
  lemma AppPathSeparatorNumber(word: string, sep: char, num: string)
    requires '/' !in word && '*' !in word && NoDigit(word) && LowerBeforeDot(word)
    requires IsSeparator(sep)
    requires |num| > 0 && IsDigit(num[0]) && forall k :: 0 <= k < |num| ==> IsDigitOrDot(num[k])
    ensures WildcardAppPath(word + [sep] + num + ".app") == word + [sep] + "*.app"
  {
    SepNumberNoSlash(word, sep, num);
    AppPathOneSegment(word + [sep] + num + ".app");
    SepNumberBundle(word, sep, num);
  }

  lemma SepNumberNoSlash(word: string, sep: char, num: string)
    requires '/' !in word && IsSeparator(sep)
    requires forall k :: 0 <= k < |num| ==> IsDigitOrDot(num[k])
    ensures '/' !in word + [sep] + num + ".app"
  {
    var base := word + [sep] + num;
    assert forall k :: |word| < k < |base| ==> base[k] == num[k - |word| - 1];
    AppSuffix(base);
  }

  lemma SepStarTail(sep: char)
    requires IsSeparator(sep)
    ensures var tail := [sep] + "*.app"; NoDigit(tail) && NoDoubleStar(tail)
  {
  }

  lemma SepNumberBundle(word: string, sep: char, num: string)
    requires '*' !in word && NoDigit(word) && LowerBeforeDot(word)
    requires IsSeparator(sep)
    requires |num| > 0 && IsDigit(num[0]) && forall k :: 0 <= k < |num| ==> IsDigitOrDot(num[k])
    ensures AppSegmentRule(word + [sep] + num + ".app") == word + [sep] + "*.app"
  {
    SepNumberBase(word, sep, num);
    var b1 := word + [sep, '*'];
    assert NoDigit(b1) by {
      assert forall k :: 0 <= k < |word| ==> b1[k] == word[k];
    }
    SubNoDigitApp(b1);
    AppBundleOf(word + [sep] + num);
    SepStarTail(sep);
    SepStarConcat(word, sep);
    StarredNameKept(word, [sep] + "*.app");
  }

  lemma SepStarConcat(word: string, sep: char)
    ensures word + [sep, '*'] + ".app" == word + ([sep] + "*.app") == word + [sep] + "*.app"
  {
  }

  lemma {:induction false} LazyNumberSkip(s: string, i: nat, k: nat, m: nat)
    requires i <= k <= m <= |s|
    requires forall j :: k <= j < m ==> !IsDigit(s[j]) && s[j] != '\n'
    ensures LazyNumberFrom(s, i, k) == LazyNumberFrom(s, i, m)
    decreases m - k
  {
    if k < m {
      LazyNumberSkip(s, i, k + 1, m);
    }
  }

  /** Whether a bundle name can end in a separator (or a separator and `v`) right before a trailing number. */
  predicate EndsInSeparator(word: string)
  {
    (|word| >= 1 && IsSeparator(word[|word| - 1]))
    || (|word| >= 2 && IsSeparator(word[|word| - 2]) && word[|word| - 1] == 'v')
  }

  lemma TrailingNumberBase(word: string, num: string)
    requires |word| > 0 && NoDigit(word) && '\n' !in word && !EndsInSeparator(word)
    requires |num| > 0 && IsDigit(num[0]) && forall k :: 0 <= k < |num| ==> IsDigitOrDot(num[k])
    ensures Sub(Sub(word + num, SepVersionAtEnd), TrailingNumber) == word + "*"
  {
    var base := word + num;
    assert forall k :: |word| <= k < |base| ==> base[k] == num[k - |word|];
    forall j | 0 <= j < |base|
      ensures SepVersionAtEnd(base, j).None?
    {
      if j < |word| && j + 1 < |base| && IsSeparator(base[j]) {
        var k := if base[j + 1] == 'v' then j + 2 else j + 1;
        assert k < |word| && base[k] == word[k];
      }
    }
    SubNoHit(base, SepVersionAtEnd);
    assert forall j :: 0 <= j < |word| ==> base[j] == word[j] && word[j] in word;
    LazyNumberSkip(base, 0, 0, |word|);
    assert RunEnd(base, |word|, IsDigitOrDot) == |base|;
    assert base[0..|word|] == word;
    assert TrailingNumber(base, 0) == Some(Hit(|base|, word + "*"));
    assert SubFrom(base, TrailingNumber, |base|) == "";
    assert SubFrom(base, TrailingNumber, 0) == word + "*" + SubFrom(base, TrailingNumber, |base|);
  }

  lemma TrailingNumberBundle(word: string, num: string)
    requires |word| > 0 && '*' !in word && NoDigit(word) && '\n' !in word && !EndsInSeparator(word) && LowerBeforeDot(word)
    requires |num| > 0 && IsDigit(num[0]) && forall k :: 0 <= k < |num| ==> IsDigitOrDot(num[k])
    ensures AppSegmentRule(word + num + ".app") == word + "*.app"
  {
    TrailingNumberBase(word, num);
    AppBundleOf(word + num);
    assert word + "*" + ".app" == word + "*.app";
    StarredNameKept(word, "*.app");
  }

  /**
   * A number at the very end of a bundle name, right after its last
   * non-digit, becomes `*`, e.g. `Folx3.app` becomes `Folx*.app`.
   */
  lemma AppPathTrailingNumber(word: string, num: string)
    requires |word| > 0 && '/' !in word && '*' !in word && NoDigit(word) && '\n' !in word
    requires !EndsInSeparator(word) && LowerBeforeDot(word)
    requires |num| > 0 && IsDigit(num[0]) && forall k :: 0 <= k < |num| ==> IsDigitOrDot(num[k])
    ensures WildcardAppPath(word + num + ".app") == word + "*.app"
  {
    var base := word + num;
    assert '/' !in base by {
      assert forall k :: |word| <= k < |base| ==> base[k] == num[k - |word|];
    }
    AppSuffix(base);
    AppPathOneSegment(base + ".app");
    TrailingNumberBundle(word, num);
  }

  /** Rewriting a path segment by segment: the two sides of a `/` are rewritten independently. */
  lemma DeletePathAppend(a: string, b: string)
    ensures WildcardDeletePath(a + "/" + b) == WildcardDeletePath(a) + "/" + WildcardDeletePath(b)
  {
    assert a + "/" + b == a + ['/'] + b;
    SplitAppend(a, b, '/');
    MapAppend(DeleteSegment, Split(a, '/'), Split(b, '/'));
    JoinAppend(Map(DeleteSegment, Split(a, '/')), Map(DeleteSegment, Split(b, '/')), "/");
  }

  // ----------------------------------------------------------------------
  // `_wildcard_cask_path`

  /** `os.path.join(<prefix>, 'Caskroom', <token>)` */
  function CaskroomDir(brewPrefix: string, token: string): string
  {
    PathJoin(PathJoin(brewPrefix, "Caskroom"), token)
  }

  /**
   * `_wildcard_cask_path`, with the Homebrew prefix passed in: below the
   * cask's own Caskroom directory the first segment (the version) becomes
   * `*`; then the whole path goes through `_wildcard_delete_path`.
   */
  function WildcardCaskPath(path: string, token: string, brewPrefix: string): string
  {
    WildcardDeletePath(StarCaskVersion(path, token, brewPrefix))
  }

  /** The first step of `_wildcard_cask_path`: the segment after the directory `pre` becomes `*`. */
  function StarCaskVersion(path: string, token: string, brewPrefix: string): string
  {
    StarSegmentBelow(path, CaskroomDir(brewPrefix, token))
  }

  function StarSegmentBelow(path: string, pre: string): string
  {
    if StartsWith(path, pre) then
      var parts := Split(LStripChar(path[|pre|..], '/'), '/');
      PathJoin(pre, Join(["*"] + parts[1..], "/"))
    else path
  }

  lemma StripVersionSlash(ver: string, rest: string)
    requires |ver| > 0 && '/' !in ver
    ensures LStripChar("/" + ver + "/" + rest, '/') == ver + ['/'] + rest
  {
    var t := "/" + ver + "/" + rest;
    assert t[1..] == ver + ['/'] + rest;
    assert (ver + ['/'] + rest)[0] == ver[0] && ver[0] in ver;
  }

  /** Replacing the first segment by `*`. */
  lemma StarFirstSegment(ver: string, rest: string)
    requires '/' !in ver
    ensures Join(["*"] + Split(ver + ['/'] + rest, '/')[1..], "/") == "*/" + rest
  {
    SplitAppend(ver, rest, '/');
    assert Split(ver, '/') == [ver];
    assert Split(ver + ['/'] + rest, '/')[1..] == Split(rest, '/');
    JoinSplit(rest, '/');
    assert "/" == ['/'];
    JoinAppend(["*"], Split(rest, '/'), "/");
  }

  lemma JoinUnderDir(pre: string, tail: string)
    requires |pre| > 0 && pre[|pre| - 1] != '/'
    requires !StartsWith(tail, "/")
    ensures PathJoin(pre, tail) == pre + "/" + tail
  {
  }

  lemma CaskPathStarts(pre: string, ver: string, rest: string)
    ensures StartsWith(pre + "/" + ver + "/" + rest, pre)
    ensures (pre + "/" + ver + "/" + rest)[|pre|..] == "/" + ver + "/" + rest
  {
  }

  lemma StarSegmentBelowOf(pre: string, ver: string, rest: string)
    requires |pre| > 0 && pre[|pre| - 1] != '/'
    requires |ver| > 0 && '/' !in ver
    ensures StarSegmentBelow(pre + "/" + ver + "/" + rest, pre) == pre + "/*/" + rest
  {
    CaskPathStarts(pre, ver, rest);
    StripVersionSlash(ver, rest);
    StarFirstSegment(ver, rest);
    JoinUnderDir(pre, "*/" + rest);
    assert pre + "/" + ("*/" + rest) == pre + "/*/" + rest;
  }

  /**
   * The version directory right below `<prefix>/Caskroom/<token>` becomes
   * `*` whatever it was; the rest of the path is only rewritten by
   * `_wildcard_delete_path`.
   */
  lemma CaskPathVersion(brewPrefix: string, token: string, ver: string, rest: string)
    requires |token| > 0 && '/' !in token
    requires |ver| > 0 && '/' !in ver
    ensures WildcardCaskPath(CaskroomDir(brewPrefix, token) + "/" + ver + "/" + rest, token, brewPrefix)
         == WildcardDeletePath(CaskroomDir(brewPrefix, token) + "/*/" + rest)
  {
    var pre := CaskroomDir(brewPrefix, token);
    assert EndsWith(pre, token);
    assert pre[|pre| - 1] == token[|token| - 1] && token[|token| - 1] in token;
    StarSegmentBelowOf(pre, ver, rest);
  }
}
