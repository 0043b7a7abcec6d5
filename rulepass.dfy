/**
 * The last pass every generated rule goes through: `_wildcard_versions_in_rule`,
 * an ordered list of twenty-four `re.sub` rewrites that turn version-looking
 * text anywhere in a whole sudoers line into `*`.  Each pattern is one
 * matcher below, with its backtracking worked out by hand.
 */
module RulePass {
  import opened Text
  import opened Regex

  predicate NotSlash(c: char) { c != '/' }

  /** `[\.\-_,()]` */
  predicate IsPunctSep(c: char) { c == '.' || c == '-' || c == '_' || c == ',' || c == '(' || c == ')' }

  /** `[\.\-_,]` */
  predicate IsDotSep(c: char) { c == '.' || c == '-' || c == '_' || c == ',' }

  predicate IsDot(c: char) { c == '.' }

  /** `[._]` */
  predicate IsDotOrUnderscore(c: char) { c == '.' || c == '_' }

  /** `[\d._]` */
  predicate IsDigitDotUnderscore(c: char) { IsDigit(c) || c == '.' || c == '_' }

  /** `[0-9A-Fa-f\*]` */
  predicate IsHexOrStar(c: char) { IsHex(c) || c == '*' }

  /** `[A-Za-z._-]` */
  predicate IsLetterOrDotSep(c: char) { IsLetter(c) || c == '.' || c == '_' || c == '-' }

  /** Eight hexadecimal characters in a row from `i`. */
  predicate HexRunAt(s: string, i: nat)
  {
    i + 8 <= |s| && forall k :: i <= k < i + 8 ==> IsHex(s[k])
  }

  /**
   * `(?:<sep>\d+)*` taken greedily from `p`: the end of the last digit run
   * reached by hopping over one separator at a time.
   */
  function LinkEnd(s: string, p: nat, sep: char -> bool): (e: nat)
    requires p <= |s|
    ensures p <= e <= |s|
    decreases |s| - p
  {
    if p + 1 < |s| && sep(s[p]) && IsDigit(s[p + 1]) then LinkEnd(s, RunEnd(s, p + 1, IsDigit), sep) else p
  }

  /**
   * The same hops with `[\.\-_,()]`, remembering the last run end where `\b`
   * holds: the trailing `\b` of pattern 2 makes the engine give links back
   * until it stands on a word boundary.
   */
  function LastBoundaryLink(s: string, p: nat, best: Option<nat>): (r: Option<nat>)
    requires p <= |s|
    requires best.Some? ==> best.value <= |s| && Boundary(s, best.value)
    ensures r.Some? ==> r.value <= |s| && Boundary(s, r.value)
    ensures r.Some? ==> r == best || p <= r.value
    decreases |s| - p
  {
    var best' := if Boundary(s, p) then Some(p) else best;
    if p + 1 < |s| && IsPunctSep(s[p]) && IsDigit(s[p + 1]) then LastBoundaryLink(s, RunEnd(s, p + 1, IsDigit), best')
    else best'
  }

  /** 1. `(/Caskroom/[^/]+/)[^/]+`, replaced by the group and `*` */
  function CaskroomVersion(s: string, i: nat): (h: Option<Hit>)
    ensures WellFormed(s, i, h)
    ensures h.Some? ==> LiteralAt(s, i, "/Caskroom/") && EndsWith(h.value.rep, "/*")
  {
    if LiteralAt(s, i, "/Caskroom/") then
      var a := RunEnd(s, i + 10, NotSlash);
      if a > i + 10 && a + 1 < |s| && s[a] == '/' && s[a + 1] != '/' then
        Some(Hit(RunEnd(s, a + 1, NotSlash), s[i..a + 1] + "*"))
      else None
    else None
  }

  /** 2. `\b\d+[\.\-_,()]\d+(?:[\.\-_,()]\d+)*\b` */
  function PunctVersion(s: string, i: nat): (h: Option<Hit>)
    ensures WellFormed(s, i, h)
    ensures h.Some? ==> i < |s| && IsDigit(s[i]) && h.value.rep == "*"
  {
    if i < |s| && Boundary(s, i) && IsDigit(s[i]) then
      var q := RunEnd(s, i, IsDigit);
      if q + 1 < |s| && IsPunctSep(s[q]) && IsDigit(s[q + 1]) then
        match LastBoundaryLink(s, RunEnd(s, q + 1, IsDigit), None)
        case Some(e) => Some(Hit(e, "*"))
        case None => None
      else None
    else None
  }

  /** 3. `\.\d+(?:[\.\-_,]\d+)*`, replaced by `.*` */
  function DotVersion(s: string, i: nat): (h: Option<Hit>)
    ensures WellFormed(s, i, h)
    ensures h.Some? ==> i + 1 < |s| && IsDigit(s[i + 1]) && h.value.rep == ".*"
  {
    if i + 1 < |s| && s[i] == '.' && IsDigit(s[i + 1]) then Some(Hit(LinkEnd(s, RunEnd(s, i + 1, IsDigit), IsDotSep), ".*"))
    else None
  }

  /** 4. `\b\d{8}\b` */
  function EightDigits(s: string, i: nat): (h: Option<Hit>)
    ensures WellFormed(s, i, h)
    ensures h.Some? ==> i < |s| && IsDigit(s[i]) && h.value.rep == "*"
  {
    if i + 8 <= |s| && Boundary(s, i) && (forall k :: i <= k < i + 8 ==> IsDigit(s[k])) && Boundary(s, i + 8) then
      Some(Hit(i + 8, "*"))
    else None
  }

  /** 5. `(?<=[A-Za-z._-])\d{4}\b` */
  function FourDigits(s: string, i: nat): (h: Option<Hit>)
    ensures WellFormed(s, i, h)
    ensures h.Some? ==> i < |s| && IsDigit(s[i]) && h.value.rep == "*"
  {
    if 0 < i && i + 4 <= |s| && IsLetterOrDotSep(s[i - 1]) && (forall k :: i <= k < i + 4 ==> IsDigit(s[k])) && Boundary(s, i + 4) then
      Some(Hit(i + 4, "*"))
    else None
  }

  /** `<word>\d+`, replaced by the word and `*` (patterns 6, 7 and 8). */
  function WordDigits(word: string, s: string, i: nat): (h: Option<Hit>)
    ensures WellFormed(s, i, h)
    ensures h.Some? ==> i + |word| < |s| && IsDigit(s[i + |word|]) && h.value.rep == word + "*"
  {
    if LiteralAt(s, i, word) && i + |word| < |s| && IsDigit(s[i + |word|]) then
      Some(Hit(RunEnd(s, i + |word|, IsDigit), word + "*"))
    else None
  }

  /** 6. `macosx\d+` */
  function MacosxDigits(s: string, i: nat): (h: Option<Hit>)
    ensures WellFormed(s, i, h)
    ensures h.Some? ==> i + 6 < |s| && IsDigit(s[i + 6])
  {
    WordDigits("macosx", s, i)
  }

  /** 7. `macos\d+` */
  function MacosDigits(s: string, i: nat): (h: Option<Hit>)
    ensures WellFormed(s, i, h)
    ensures h.Some? ==> i + 5 < |s| && IsDigit(s[i + 5])
  {
    WordDigits("macos", s, i)
  }

  /** 8. `arm\d+` */
  function ArmDigits(s: string, i: nat): (h: Option<Hit>)
    ensures WellFormed(s, i, h)
    ensures h.Some? ==> i + 3 < |s| && IsDigit(s[i + 3])
  {
    WordDigits("arm", s, i)
  }

  /** 9. `\bv\d+\b`: a shorter digit run never ends on a boundary, so the whole run must. */
  function WordVersionV(s: string, i: nat): (h: Option<Hit>)
    ensures WellFormed(s, i, h)
    ensures h.Some? ==> i + 1 < |s| && IsDigit(s[i + 1]) && h.value.rep == "v*"
  {
    if i + 1 < |s| && Boundary(s, i) && s[i] == 'v' && IsDigit(s[i + 1]) && Boundary(s, RunEnd(s, i + 1, IsDigit)) then
      Some(Hit(RunEnd(s, i + 1, IsDigit), "v*"))
    else None
  }

  /** 10. `-(?:\d+\.)+\d+`: at least one `.` between digit runs. */
  function DashDottedVersion(s: string, i: nat): (h: Option<Hit>)
    ensures WellFormed(s, i, h)
    ensures h.Some? ==> i + 1 < |s| && IsDigit(s[i + 1]) && h.value.rep == "-*"
  {
    if i + 1 < |s| && s[i] == '-' && IsDigit(s[i + 1]) then
      var q := RunEnd(s, i + 1, IsDigit);
      if q + 1 < |s| && s[q] == '.' && IsDigit(s[q + 1]) then Some(Hit(LinkEnd(s, q, IsDot), "-*"))
      else None
    else None
  }

  /** 11. `\d+(?:st|nd|rd|th)` */
  function Ordinal(s: string, i: nat): (h: Option<Hit>)
    ensures WellFormed(s, i, h)
    ensures h.Some? ==> i < |s| && IsDigit(s[i]) && h.value.rep == "*"
  {
    if i < |s| && IsDigit(s[i]) then
      var q := RunEnd(s, i, IsDigit);
      if LiteralAt(s, q, "st") || LiteralAt(s, q, "nd") || LiteralAt(s, q, "rd") || LiteralAt(s, q, "th") then
        Some(Hit(q + 2, "*"))
      else None
    else None
  }

  /** 12. `(?<=[A-Za-z])\d+(?=[\.\-])` */
  function LetterDigitsBeforeDot(s: string, i: nat): (h: Option<Hit>)
    ensures WellFormed(s, i, h)
    ensures h.Some? ==> i < |s| && IsDigit(s[i]) && h.value.rep == "*"
  {
    if 0 < i < |s| && IsLetter(s[i - 1]) && IsDigit(s[i]) then
      var q := RunEnd(s, i, IsDigit);
      if q < |s| && (s[q] == '.' || s[q] == '-') then Some(Hit(q, "*")) else None
    else None
  }

  /** 13. `([A-Za-z])\d+(?=[A-Za-z])`, replaced by the letter and `*` */
  function LetterDigitsBeforeLetter(s: string, i: nat): (h: Option<Hit>)
    ensures WellFormed(s, i, h)
    ensures h.Some? ==> i + 1 < |s| && IsLetter(s[i]) && IsDigit(s[i + 1]) && h.value.rep == [s[i], '*']
  {
    if i + 1 < |s| && IsLetter(s[i]) && IsDigit(s[i + 1]) then
      var q := RunEnd(s, i + 1, IsDigit);
      if q < |s| && IsLetter(s[q]) then Some(Hit(q, [s[i], '*'])) else None
    else None
  }

  /** 14. `([A-Za-z])\d+(?=[^A-Za-z0-9]|$)`, replaced by the letter and `*` */
  function LetterDigitsAtWordEnd(s: string, i: nat): (h: Option<Hit>)
    ensures WellFormed(s, i, h)
    ensures h.Some? ==> i + 1 < |s| && IsLetter(s[i]) && IsDigit(s[i + 1]) && h.value.rep == [s[i], '*']
  {
    if i + 1 < |s| && IsLetter(s[i]) && IsDigit(s[i + 1]) then
      var q := RunEnd(s, i + 1, IsDigit);
      if q == |s| || !IsAlnum(s[q]) then Some(Hit(q, [s[i], '*'])) else None
    else None
  }

  /** 15. `\b[0-9a-fA-F]{8,}\b`: only the whole hexadecimal run can end on a boundary. */
  function LongHex(s: string, i: nat): (h: Option<Hit>)
    ensures WellFormed(s, i, h)
    ensures h.Some? ==> HexRunAt(s, i) && h.value.rep == "*"
  {
    var e := RunEnd(s, i, IsHex);
    if i <= |s| && e >= i + 8 && Boundary(s, i) && Boundary(s, e) then Some(Hit(e, "*")) else None
  }

  /** 16. `-(?=[0-9A-Za-z]*\d)[0-9A-Za-z]{5,}`, replaced by `-*` */
  function DashAlnumWithDigit(s: string, i: nat): (h: Option<Hit>)
    ensures WellFormed(s, i, h)
    ensures h.Some? ==> i < |s| && s[i] == '-' && (exists k :: i < k < h.value.end && IsDigit(s[k])) && h.value.rep == "-*"
  {
    if i < |s| && s[i] == '-' then
      var e := RunEnd(s, i + 1, IsAlnum);
      if e >= i + 6 && exists k :: i < k < e && IsDigit(s[k]) then Some(Hit(e, "-*")) else None
    else None
  }

  /** Where a repetition of the two characters `a*` that starts at `p` ends. */
  function PairRunEnd(s: string, p: nat, a: char): (e: nat)
    requires p <= |s|
    ensures p <= e <= |s|
    ensures e >= p + 2 ==> s[p] == a && s[p + 1] == '*'
    decreases |s| - p
  {
    if p + 1 < |s| && s[p] == a && s[p + 1] == '*' then PairRunEnd(s, p + 2, a) else p
  }

  /** `(?:a\*){2,}`, replaced by one `a*` (patterns 17, 22 and 23). */
  function RepeatedPair(a: char, s: string, i: nat): (h: Option<Hit>)
    ensures WellFormed(s, i, h)
    ensures h.Some? ==> i + 1 < |s| && s[i + 1] == '*' && h.value.rep == [a, '*']
  {
    if i <= |s| && PairRunEnd(s, i, a) >= i + 4 then Some(Hit(PairRunEnd(s, i, a), [a, '*'])) else None
  }

  /** 17 and 22. `(?:-\*){2,}` */
  function DashStarPairs(s: string, i: nat): (h: Option<Hit>)
    ensures WellFormed(s, i, h)
    ensures h.Some? ==> i + 1 < |s| && s[i + 1] == '*'
  {
    RepeatedPair('-', s, i)
  }

  /** 23. `(?:_\*){2,}` */
  function UnderscoreStarPairs(s: string, i: nat): (h: Option<Hit>)
    ensures WellFormed(s, i, h)
    ensures h.Some? ==> i + 1 < |s| && s[i + 1] == '*'
  {
    RepeatedPair('_', s, i)
  }

  /** 19. `(?<=[A-Za-z])\d+(?:[._]\d+)+` */
  function LetterDottedDigits(s: string, i: nat): (h: Option<Hit>)
    ensures WellFormed(s, i, h)
    ensures h.Some? ==> i < |s| && IsDigit(s[i]) && h.value.rep == "*"
  {
    if 0 < i < |s| && IsLetter(s[i - 1]) && IsDigit(s[i]) then
      var q := RunEnd(s, i, IsDigit);
      if q + 1 < |s| && IsDotOrUnderscore(s[q]) && IsDigit(s[q + 1]) then Some(Hit(LinkEnd(s, q, IsDotOrUnderscore), "*"))
      else None
    else None
  }

  /** 20. `\(\d+(?:[\d._]*?)\)`: the lazy part stops at the first `)`, which `[\d._]` cannot step over. */
  function ParenVersion(s: string, i: nat): (h: Option<Hit>)
    ensures WellFormed(s, i, h)
    ensures h.Some? ==> i + 1 < |s| && IsDigit(s[i + 1]) && h.value.rep == "*"
  {
    if i + 1 < |s| && s[i] == '(' && IsDigit(s[i + 1]) then
      var q := RunEnd(s, i + 1, IsDigitDotUnderscore);
      if q < |s| && s[q] == ')' then Some(Hit(q + 1, "*")) else None
    else None
  }

  /** 21. `(\.cc)(?:[0-9A-Fa-f\*]{8,})`, replaced by `.cc*` */
  function CcHash(s: string, i: nat): (h: Option<Hit>)
    ensures WellFormed(s, i, h)
    ensures h.Some? ==> i + 11 <= |s| && (forall k :: i + 3 <= k < i + 11 ==> IsHexOrStar(s[k])) && h.value.rep == ".cc*"
  {
    if LiteralAt(s, i, ".cc") then
      var e := RunEnd(s, i + 3, IsHexOrStar);
      if e >= i + 11 then Some(Hit(e, ".cc*")) else None
    else None
  }

  /** The first eighteen rewrites, up to the first collapse of stars. */
  function EarlyPasses(rule: string): string
  {
    var r1 := Sub(rule, CaskroomVersion);
    var r2 := Sub(r1, PunctVersion);
    var r3 := Sub(r2, DotVersion);
    var r4 := Sub(r3, EightDigits);
    var r5 := Sub(r4, FourDigits);
    var r6 := Sub(r5, MacosxDigits);
    var r7 := Sub(r6, MacosDigits);
    var r8 := Sub(r7, ArmDigits);
    var r9 := Sub(r8, WordVersionV);
    var r10 := Sub(r9, DashDottedVersion);
    var r11 := Sub(r10, Ordinal);
    var r12 := Sub(r11, LetterDigitsBeforeDot);
    var r13 := Sub(r12, LetterDigitsBeforeLetter);
    var r14 := Sub(r13, LetterDigitsAtWordEnd);
    var r15 := Sub(r14, LongHex);
    var r16 := Sub(r15, DashAlnumWithDigit);
    var r17 := Sub(r16, DashStarPairs);
    CollapseStars(r17)
  }

  /** The last six rewrites. */
  function LatePasses(rule: string): (r: string)
    ensures NoDoubleStar(r)
  {
    var r19 := Sub(rule, LetterDottedDigits);
    var r20 := Sub(r19, ParenVersion);
    var r21 := Sub(r20, CcHash);
    var r22 := Sub(r21, DashStarPairs);
    var r23 := Sub(r22, UnderscoreStarPairs);
    CollapseStars(r23)
  }

  /** `_wildcard_versions_in_rule`: every rewrite in order; the result never holds `**`. */
  function WildcardVersionsInRule(rule: string): (r: string)
    ensures NoDoubleStar(r)
  {
    LatePasses(EarlyPasses(rule))
  }

  // ----------------------------------------------------------------------
  // A rule with nothing version-like in it passes through untouched

  /** No digit, no star, no `/Caskroom/` and no eight hexadecimal characters in a row. */
  predicate VersionFree(s: string)
  {
    NoDigit(s) && '*' !in s && !Contains(s, "/Caskroom/") && forall i :: 0 <= i < |s| ==> !HexRunAt(s, i)
  }

  lemma CaskroomPassKeeps(s: string)
    requires VersionFree(s)
    ensures Sub(s, CaskroomVersion) == s
  {
    forall j | 0 <= j < |s|
      ensures CaskroomVersion(s, j).None?
    {
      if CaskroomVersion(s, j).Some? {
        ContainsAt(s, "/Caskroom/", j);
      }
    }
    SubNoHit(s, CaskroomVersion);
  }

  lemma DigitPassesKeep(s: string)
    requires VersionFree(s)
    ensures Sub(s, PunctVersion) == s && Sub(s, DotVersion) == s && Sub(s, EightDigits) == s
    ensures Sub(s, FourDigits) == s && Sub(s, MacosxDigits) == s && Sub(s, MacosDigits) == s
    ensures Sub(s, ArmDigits) == s && Sub(s, WordVersionV) == s && Sub(s, DashDottedVersion) == s
    ensures Sub(s, Ordinal) == s && Sub(s, LetterDigitsBeforeDot) == s && Sub(s, LetterDigitsBeforeLetter) == s
    ensures Sub(s, LetterDigitsAtWordEnd) == s && Sub(s, DashAlnumWithDigit) == s
    ensures Sub(s, LetterDottedDigits) == s && Sub(s, ParenVersion) == s
  {
    DigitPassesKeepNumbers(s);
    DigitPassesKeepPlatforms(s);
    DigitPassesKeepLetters(s);
    DigitPassesKeepWords(s);
  }

  lemma DigitPassesKeepNumbers(s: string)
    requires VersionFree(s)
    ensures Sub(s, PunctVersion) == s && Sub(s, DotVersion) == s
    ensures Sub(s, EightDigits) == s && Sub(s, FourDigits) == s
  {
    SubNoHit(s, PunctVersion);
    SubNoHit(s, DotVersion);
    SubNoHit(s, EightDigits);
    SubNoHit(s, FourDigits);
  }

  lemma DigitPassesKeepPlatforms(s: string)
    requires VersionFree(s)
    ensures Sub(s, MacosxDigits) == s && Sub(s, MacosDigits) == s
    ensures Sub(s, ArmDigits) == s && Sub(s, WordVersionV) == s
  {
    SubNoHit(s, MacosxDigits);
    SubNoHit(s, MacosDigits);
    SubNoHit(s, ArmDigits);
    SubNoHit(s, WordVersionV);
  }

  lemma DigitPassesKeepLetters(s: string)
    requires VersionFree(s)
    ensures Sub(s, DashDottedVersion) == s && Sub(s, Ordinal) == s
    ensures Sub(s, LetterDigitsBeforeDot) == s && Sub(s, LetterDigitsBeforeLetter) == s
  {
    SubNoHit(s, DashDottedVersion);
    SubNoHit(s, Ordinal);
    SubNoHit(s, LetterDigitsBeforeDot);
    SubNoHit(s, LetterDigitsBeforeLetter);
  }

  lemma DigitPassesKeepWords(s: string)
    requires VersionFree(s)
    ensures Sub(s, LetterDigitsAtWordEnd) == s && Sub(s, DashAlnumWithDigit) == s
    ensures Sub(s, LetterDottedDigits) == s && Sub(s, ParenVersion) == s
  {
    SubNoHit(s, LetterDigitsAtWordEnd);
    SubNoHit(s, DashAlnumWithDigit);
    SubNoHit(s, LetterDottedDigits);
    SubNoHit(s, ParenVersion);
  }

  /** Without stars in the subject, a `.cc` hash is eight hexadecimal characters. */
  lemma CcHashNeedsHex(s: string, j: nat)
    requires '*' !in s
    ensures CcHash(s, j).Some? ==> HexRunAt(s, j + 3)
  {
    if CcHash(s, j).Some? {
      forall k | j + 3 <= k < j + 11
        ensures IsHex(s[k])
      {
        assert s[k] in s;
      }
    }
  }

  lemma HexPassesKeep(s: string)
    requires VersionFree(s)
    ensures Sub(s, LongHex) == s && Sub(s, CcHash) == s
  {
    SubNoHit(s, LongHex);
    forall j | 0 <= j < |s|
      ensures CcHash(s, j).None?
    {
      CcHashNeedsHex(s, j);
    }
    SubNoHit(s, CcHash);
  }

  lemma StarPassesKeep(s: string)
    requires '*' !in s
    ensures Sub(s, DashStarPairs) == s && Sub(s, UnderscoreStarPairs) == s && CollapseStars(s) == s
  {
    SubNoHit(s, DashStarPairs);
    SubNoHit(s, UnderscoreStarPairs);
    CollapseStarsNoDouble(s);
  }

  /** The whole pass is conservative: a rule with nothing version-like in it comes back unchanged. */
  lemma VersionsInRuleKeeps(rule: string)
    requires VersionFree(rule)
    ensures WildcardVersionsInRule(rule) == rule
  {
    CaskroomPassKeeps(rule);
    DigitPassesKeep(rule);
    HexPassesKeep(rule);
    StarPassesKeep(rule);
    assert EarlyPasses(rule) == rule;
  }
}
