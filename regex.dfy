/**
 * A small model of Python's `re.sub` and `re.search` for the patterns the
 * generator uses.  A pattern is represented by a *matcher*: given the whole
 * subject string and a start position, it answers whether the pattern matches
 * there (with the backtracking of the original pattern already resolved) and,
 * if so, where the match ends and what it is replaced with.  `Sub` then scans
 * left to right exactly as `re.sub` does: at each position it tries the
 * matcher; on a hit it emits the replacement and resumes after the match,
 * otherwise it copies one character.  Lookbehinds and `\b` read the original
 * subject, as they do in Python.
 */
module Regex {
  import opened Text

  datatype Hit = Hit(end: nat, rep: string)

  type Matcher = (string, nat) -> Option<Hit>

  /** A hit that consumes at least one character and stays inside `s`. */
  predicate WellFormed(s: string, i: nat, h: Option<Hit>)
  {
    h.Some? ==> i < h.value.end <= |s|
  }

  function SubFrom(s: string, m: Matcher, i: nat): string
    decreases |s| - i
  {
    if i >= |s| then ""
    else match m(s, i)
      // every matcher of the model yields well-formed hits; the guard only keeps `Sub` total
      case Some(h) => if i < h.end <= |s| then h.rep + SubFrom(s, m, h.end) else [s[i]] + SubFrom(s, m, i + 1)
      case None => [s[i]] + SubFrom(s, m, i + 1)
  }

  /** `re.sub(pattern, repl, s)` */
  function Sub(s: string, m: Matcher): string
  {
    SubFrom(s, m, 0)
  }

  /** `re.search(pattern, s) is not None` */
  predicate Search(s: string, m: Matcher)
  {
    SearchFrom(s, m, 0)
  }

  predicate SearchFrom(s: string, m: Matcher, i: nat)
    decreases |s| - i
  {
    i < |s| && (m(s, i).Some? || SearchFrom(s, m, i + 1))
  }

  /** Where a maximal run of characters satisfying `p` that starts at `i` ends. */
  function RunEnd(s: string, i: nat, p: char -> bool): (j: nat)
    ensures i <= j && (i <= |s| ==> j <= |s|)
    ensures forall k :: i <= k < j ==> k < |s| && p(s[k])
    ensures j < |s| ==> !p(s[j])
    decreases |s| - i
  {
    if i < |s| && p(s[i]) then RunEnd(s, i + 1, p) else i
  }

  /** Python's `$`: the end of the string, or just before a final newline. */
  predicate AtEnd(s: string, j: nat)
  {
    j == |s| || (j + 1 == |s| && s[j] == '\n')
  }

  /** Python's `\b` at position `j`. */
  predicate Boundary(s: string, j: nat)
  {
    (0 < j <= |s| && IsWordChar(s[j - 1])) != (j < |s| && IsWordChar(s[j]))
  }

  /** `s[i..i+|t|] == t`, false when `t` does not fit. */
  predicate LiteralAt(s: string, i: nat, t: string)
  {
    i + |t| <= |s| && s[i..i + |t|] == t
  }

  // ----------------------------------------------------------------------
  // Generic facts about Sub

  lemma {:induction false} SubFromNoHit(s: string, m: Matcher, i: nat)
    requires i <= |s|
    requires forall j :: i <= j < |s| ==> m(s, j).None?
    ensures SubFrom(s, m, i) == s[i..]
    decreases |s| - i
  {
    if i < |s| {
      SubFromNoHit(s, m, i + 1);
      assert s[i..] == [s[i]] + s[i + 1..];
    }
  }

  /** A pattern that matches nowhere leaves the subject unchanged. */
  lemma SubNoHit(s: string, m: Matcher)
    requires forall j :: 0 <= j < |s| ==> m(s, j).None?
    ensures Sub(s, m) == s
  {
    SubFromNoHit(s, m, 0);
  }

  /** A stretch where the matcher never fires is copied unchanged. */
  lemma {:induction false} SubFromSkip(s: string, m: Matcher, i: nat, j: nat)
    requires i <= j <= |s|
    requires forall k :: i <= k < j ==> m(s, k).None?
    ensures SubFrom(s, m, i) == s[i..j] + SubFrom(s, m, j)
    decreases j - i
  {
    if i < j {
      assert m(s, i).None?;
      assert SubFrom(s, m, i) == [s[i]] + SubFrom(s, m, i + 1);
      SubFromSkip(s, m, i + 1, j);
      assert s[i..j] == [s[i]] + s[i + 1..j];
    }
  }

  /** A well-formed hit at `i` emits its replacement and resumes after the match. */
  lemma SubFromHit(s: string, m: Matcher, i: nat)
    requires i < |s| && m(s, i).Some? && WellFormed(s, i, m(s, i))
    ensures SubFrom(s, m, i) == m(s, i).value.rep + SubFrom(s, m, m(s, i).value.end)
  {
  }

  /** A substitution that fires exactly once replaces that one match. */
  lemma SubOneHit(s: string, m: Matcher, i: nat, e: nat, rep: string)
    requires i < e <= |s| && m(s, i) == Some(Hit(e, rep))
    requires forall k :: 0 <= k < i ==> m(s, k).None?
    requires forall k :: e <= k < |s| ==> m(s, k).None?
    ensures Sub(s, m) == s[..i] + rep + s[e..]
  {
    SubFromSkip(s, m, 0, i);
    SubFromHit(s, m, i);
    SubFromNoHit(s, m, e);
  }

  /** A substitution that fires twice, the second match right after the first. */
  lemma SubTwoHits(s: string, m: Matcher, i: nat, j: nat, e: nat, r1: string, r2: string)
    requires i < j < e <= |s| && m(s, i) == Some(Hit(j, r1)) && m(s, j) == Some(Hit(e, r2))
    requires forall k :: 0 <= k < i ==> m(s, k).None?
    requires forall k :: e <= k < |s| ==> m(s, k).None?
    ensures Sub(s, m) == s[..i] + r1 + r2 + s[e..]
  {
    calc {
      Sub(s, m);
      SubFrom(s, m, 0);
      { SubFromSkip(s, m, 0, i); assert s[0..i] == s[..i]; }
      s[..i] + SubFrom(s, m, i);
      { SubFromTwoHits(s, m, i, j, e, r1, r2); }
      s[..i] + (r1 + (r2 + s[e..]));
      s[..i] + r1 + r2 + s[e..];
    }
  }

  /** The two adjacent matches emit both replacements, then the untouched tail. */
  lemma SubFromTwoHits(s: string, m: Matcher, i: nat, j: nat, e: nat, r1: string, r2: string)
    requires i < j < e <= |s| && m(s, i) == Some(Hit(j, r1)) && m(s, j) == Some(Hit(e, r2))
    requires forall k :: e <= k < |s| ==> m(s, k).None?
    ensures SubFrom(s, m, i) == r1 + (r2 + s[e..])
  {
    SubFromHit(s, m, i);
    SubFromHit(s, m, j);
    SubFromNoHit(s, m, e);
  }

  /** A run whose extent is known: every character in `[i, e)` satisfies `p` and the one at `e` does not. */
  lemma {:induction false} RunEndIs(s: string, i: nat, p: char -> bool, e: nat)
    requires i <= e <= |s|
    requires forall k :: i <= k < e ==> p(s[k])
    requires e < |s| ==> !p(s[e])
    ensures RunEnd(s, i, p) == e
    decreases e - i
  {
    if i < e {
      RunEndIs(s, i + 1, p, e);
    }
  }

  /** Every replacement contains `c`. */
  predicate RepsHold(m: Matcher, s: string, c: char)
  {
    forall j :: 0 <= j < |s| ==> WellFormed(s, j, m(s, j)) && (m(s, j).Some? ==> c in m(s, j).value.rep)
  }

  lemma {:induction false} SubFromShows(s: string, m: Matcher, i: nat, c: char)
    requires RepsHold(m, s, c) && SearchFrom(s, m, i)
    ensures c in SubFrom(s, m, i)
    decreases |s| - i
  {
    if m(s, i).None? {
      SubFromShows(s, m, i + 1, c);
    }
  }

  /** When the pattern occurs and every replacement contains `c`, the result contains `c`. */
  lemma SubShows(s: string, m: Matcher, c: char)
    requires RepsHold(m, s, c) && Search(s, m)
    ensures c in Sub(s, m)
  {
    SubFromShows(s, m, 0, c);
  }

  predicate NoHitFrom(s: string, m: Matcher, i: nat)
  {
    forall j :: i <= j < |s| ==> m(s, j).None?
  }

  lemma {:induction false} SearchFromNoHit(s: string, m: Matcher, i: nat)
    ensures !SearchFrom(s, m, i) <==> NoHitFrom(s, m, i)
    decreases |s| - i
  {
    if i < |s| {
      SearchFromNoHit(s, m, i + 1);
    }
  }

  /** `re.search` fails exactly when `re.sub` has nothing to replace. */
  lemma SearchNoHit(s: string, m: Matcher)
    ensures !Search(s, m) <==> NoHitFrom(s, m, 0)
  {
    SearchFromNoHit(s, m, 0);
  }

  /** Every replacement a matcher makes on `s` avoids the character `c`, whenever `s` does. */
  predicate KeepsOut(m: Matcher, s: string, c: char)
  {
    forall j :: 0 <= j < |s| ==> m(s, j).None? || c !in m(s, j).value.rep
  }

  lemma {:induction false} SubFromKeepsOut(s: string, m: Matcher, i: nat, c: char)
    requires c !in s && KeepsOut(m, s, c)
    ensures c !in SubFrom(s, m, i)
    decreases |s| - i
  {
    if i < |s| {
      match m(s, i)
      case Some(h) =>
        if i < h.end <= |s| {
          SubFromKeepsOut(s, m, h.end, c);
        } else {
          SubFromKeepsOut(s, m, i + 1, c);
        }
      case None =>
        SubFromKeepsOut(s, m, i + 1, c);
    }
  }

  /** A substitution whose replacements never introduce `c` cannot introduce `c`. */
  lemma SubKeepsOut(s: string, m: Matcher, c: char)
    requires c !in s && KeepsOut(m, s, c)
    ensures c !in Sub(s, m)
  {
    SubFromKeepsOut(s, m, 0, c);
  }

  // ----------------------------------------------------------------------
  // `\*+` -> `*`, the collapse every wildcard helper ends with

  predicate IsStar(c: char) { c == '*' }

  /** `\*+` */
  function StarRun(s: string, i: nat): (h: Option<Hit>)
    ensures WellFormed(s, i, h)
    ensures h.Some? ==> h.value.rep == "*"
  {
    if i < |s| && s[i] == '*' then Some(Hit(RunEnd(s, i, IsStar), "*")) else None
  }

  /** No two adjacent stars. */
  predicate NoDoubleStar(s: string)
  {
    forall k :: 0 <= k < |s| - 1 ==> !(s[k] == '*' && s[k + 1] == '*')
  }

  /** `NoDoubleStar` from `i` on, checked one index at a time (so literals evaluate). */
  predicate NoDoubleStarFrom(s: string, i: nat)
    decreases |s| - i
  {
    i + 1 >= |s| || (!(s[i] == '*' && s[i + 1] == '*') && NoDoubleStarFrom(s, i + 1))
  }

  lemma {:induction false} NoDoubleStarFromHolds(s: string, i: nat)
    requires NoDoubleStarFrom(s, 0)
    requires i <= |s|
    ensures forall k :: 0 <= k < i && k + 1 < |s| ==> !(s[k] == '*' && s[k + 1] == '*')
    ensures i + 1 < |s| ==> NoDoubleStarFrom(s, i)
    decreases i
  {
    if i > 0 {
      NoDoubleStarFromHolds(s, i - 1);
    }
  }

  /** `re.sub(r'\*+', '*', s)` */
  function CollapseStars(s: string): (r: string)
    ensures NoDoubleStar(r)
    ensures '*' in r <==> '*' in s
  {
    CollapseFromFacts(s, 0);
    Sub(s, StarRun)
  }

  lemma {:induction false} CollapseFromFacts(s: string, i: nat)
    requires i <= |s|
    ensures NoDoubleStar(SubFrom(s, StarRun, i))
    ensures i < |s| && s[i] != '*' ==> |SubFrom(s, StarRun, i)| > 0 && SubFrom(s, StarRun, i)[0] != '*'
    ensures '*' in SubFrom(s, StarRun, i) <==> '*' in s[i..]
    decreases |s| - i
  {
    if i < |s| {
      if s[i] == '*' {
        var j := RunEnd(s, i, IsStar);
        CollapseFromFacts(s, j);
        var rest := SubFrom(s, StarRun, j);
        assert SubFrom(s, StarRun, i) == "*" + rest;
        assert s[i] in s[i..];
      } else {
        CollapseFromFacts(s, i + 1);
        assert s[i..] == [s[i]] + s[i + 1..];
      }
    }
  }

  lemma {:induction false} CollapseFromNoDouble(s: string, i: nat)
    requires NoDoubleStar(s) && i <= |s|
    ensures SubFrom(s, StarRun, i) == s[i..]
    decreases |s| - i
  {
    if i < |s| {
      CollapseFromNoDouble(s, i + 1);
      assert s[i..] == [s[i]] + s[i + 1..];
      if s[i] == '*' {
        assert RunEnd(s, i, IsStar) == i + 1;
      }
    }
  }

  /** Collapsing changes nothing when no two stars are adjacent. */
  lemma CollapseStarsNoDouble(s: string)
    requires NoDoubleStar(s)
    ensures CollapseStars(s) == s
  {
    CollapseFromNoDouble(s, 0);
  }

  lemma NoDoubleStarSuffix(s: string, k: nat)
    requires NoDoubleStar(s) && k <= |s|
    ensures NoDoubleStar(s[k..])
  {
  }
}
