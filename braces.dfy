/**
 * `expand_braces`, the helper `generate_sudoers_for_cask` uses to turn the
 * brace patterns of `rmdir` directives into plain directories: the first
 * `{` and the `}` that closes it delimit a comma-separated list of options
 * (commas inside nested braces do not separate), and every option, expanded
 * in turn, is combined with every expansion of the text after the `}`.
 */
module Braces {
  import opened Text

  /** No brace characters at all. */
  predicate Plain(s: string)
  {
    '{' !in s && '}' !in s
  }

  /**
   * The depth-tracking scan for the closing brace: from index `i` with
   * `depth` braces open, the index of the `}` that brings the depth back
   * to zero.
   */
  function CloseFrom(s: string, i: nat, depth: int): (r: Option<nat>)
    requires i <= |s|
    ensures r.Some? ==> i <= r.value < |s| && s[r.value] == '}'
    decreases |s| - i
  {
    if i == |s| then None
    else if s[i] == '{' then CloseFrom(s, i + 1, depth + 1)
    else if s[i] == '}' then (if depth - 1 == 0 then Some(i) else CloseFrom(s, i + 1, depth - 1))
    else CloseFrom(s, i + 1, depth)
  }

  /**
   * The split of `inside` on top-level commas, from index `i` with `depth`
   * braces open and the current option starting at `start`.
   */
  function OptionsFrom(inside: string, i: nat, depth: int, start: nat): (r: seq<string>)
    requires start <= i <= |inside|
    ensures |r| >= 1
    ensures |r| <= |inside| - i + 1
    ensures forall k :: 0 <= k < |r| ==> |r[k]| <= |inside| - start
    decreases |inside| - i
  {
    if i == |inside| then [inside[start..]]
    else if inside[i] == '{' then OptionsFrom(inside, i + 1, depth + 1, start)
    else if inside[i] == '}' then OptionsFrom(inside, i + 1, depth - 1, start)
    else if inside[i] == ',' && depth == 0 then [inside[start..i]] + OptionsFrom(inside, i + 1, depth, i + 1)
    else OptionsFrom(inside, i + 1, depth, start)
  }

  function Options(inside: string): seq<string>
  {
    OptionsFrom(inside, 0, 0, 0)
  }

  /** `[p + x for x in xs]` */
  function Prefixed(p: string, xs: seq<string>): (r: seq<string>)
    ensures |r| == |xs|
    decreases |xs|
  {
    if |xs| == 0 then [] else Prefixed(p, xs[..|xs| - 1]) + [p + xs[|xs| - 1]]
  }

  /** Every expansion `oe` of one option, each followed by every expansion of the rest. */
  function OptionCombos(before: string, oes: seq<string>, afters: seq<string>): seq<string>
    decreases |oes|
  {
    if |oes| == 0 then [] else OptionCombos(before, oes[..|oes| - 1], afters) + Prefixed(before + oes[|oes| - 1], afters)
  }

  /** The combinations for each option in turn, given the expansions of each option. */
  function Combos(before: string, optExps: seq<seq<string>>, afters: seq<string>): seq<string>
    decreases |optExps|
  {
    if |optExps| == 0 then []
    else Combos(before, optExps[..|optExps| - 1], afters) + OptionCombos(before, optExps[|optExps| - 1], afters)
  }

  /** `expand_braces(path)` */
  function Expand(path: string): seq<string>
    decreases |path|, 2
  {
    match IndexOfChar(path, '{')
    case None => [path]
    case Some(l) =>
      match CloseFrom(path, l, 0)
      case None => [path]
      case Some(r) =>
        assert r != l by { assert path[l] == '{'; }
        GroupExpansion(path, l, r)
  }

  /**
   * The expansion of `path` around the group from the `{` at `l` to the
   * `}` at `r`: the text before it, each option's expansion in turn, each
   * followed by every expansion of the text after it.
   */
  function GroupExpansion(path: string, l: nat, r: nat): seq<string>
    requires l < r < |path|
    decreases |path|, 1
  {
    var before, inside, after := path[..l], path[l + 1..r], path[r + 1..];
    Combos(before, ExpandAll(Options(inside), |path|), Expand(after))
  }

  /** The expansions of each option, in order; `bound` exceeds every option's length. */
  function ExpandAll(opts: seq<string>, bound: nat): (r: seq<seq<string>>)
    requires forall k :: 0 <= k < |opts| ==> |opts[k]| < bound
    ensures |r| == |opts|
    decreases bound, 0, |opts|
  {
    if |opts| == 0 then []
    else ExpandAll(opts[..|opts| - 1], bound) + [Expand(opts[|opts| - 1])]
  }

  lemma PrefixedStep(p: string, xs: seq<string>, k: nat)
    requires k < |xs|
    ensures Prefixed(p, xs[..k + 1]) == Prefixed(p, xs[..k]) + [p + xs[k]]
  {
    assert xs[..k + 1][..k] == xs[..k];
  }

  lemma OptionCombosStep(before: string, oes: seq<string>, afters: seq<string>, k: nat)
    requires k < |oes|
    ensures OptionCombos(before, oes[..k + 1], afters) == OptionCombos(before, oes[..k], afters) + Prefixed(before + oes[k], afters)
  {
    assert oes[..k + 1][..k] == oes[..k];
  }

  lemma CombosStep(before: string, opts: seq<string>, bound: nat, afters: seq<string>, k: nat)
    requires k < |opts|
    requires forall j :: 0 <= j < |opts| ==> |opts[j]| < bound
    ensures Combos(before, ExpandAll(opts[..k + 1], bound), afters)
         == Combos(before, ExpandAll(opts[..k], bound), afters) + OptionCombos(before, Expand(opts[k]), afters)
  {
    assert opts[..k + 1][..k] == opts[..k];
    var xs := ExpandAll(opts[..k + 1], bound);
    assert xs[..|xs| - 1] == ExpandAll(opts[..k], bound);
  }

  /** The depth-tracking loop that finds the `}` closing the `{` at `l`. */
  method MatchingBrace(path: string, l: nat) returns (close: Option<nat>)
    requires l <= |path|
    ensures close == CloseFrom(path, l, 0)
  {
    var depth := 0;
    var idx := l;
    while idx < |path|
      invariant l <= idx <= |path|
      invariant CloseFrom(path, idx, depth) == CloseFrom(path, l, 0)
      decreases |path| - idx
    {
      var ch := path[idx];
      if ch == '{' {
        depth := depth + 1;
      } else if ch == '}' {
        depth := depth - 1;
        if depth == 0 {
          return Some(idx);
        }
      }
      idx := idx + 1;
    }
    return None;
  }

  /** The loop that splits the text between the braces on top-level commas. */
  method TopLevelOptions(inside: string) returns (options: seq<string>)
    ensures options == Options(inside)
  {
    options := [];
    var depth2 := 0;
    var start := 0;
    for i := 0 to |inside|
      invariant start <= i
      invariant Options(inside) == options + OptionsFrom(inside, i, depth2, start)
    {
      var ch := inside[i];
      if ch == '{' {
        depth2 := depth2 + 1;
      } else if ch == '}' {
        depth2 := depth2 - 1;
      } else if ch == ',' && depth2 == 0 {
        options := options + [inside[start..i]];
        start := i + 1;
      }
    }
    options := options + [inside[start..]];
  }

  /** The innermost loop: `before + opt_exp` followed by each expansion of the rest. */
  method AppendPrefixed(results: seq<string>, p: string, afterExp: seq<string>) returns (out: seq<string>)
    ensures out == results + Prefixed(p, afterExp)
  {
    out := results;
    assert afterExp[..0] == [];
    for ak := 0 to |afterExp|
      invariant out == results + Prefixed(p, afterExp[..ak])
    {
      PrefixedStep(p, afterExp, ak);
      out := out + [p + afterExp[ak]];
    }
    assert afterExp[..|afterExp|] == afterExp;
  }

  /** The two inner loops: each expansion of one option, followed by each expansion of the rest. */
  method AppendCombos(results: seq<string>, before: string, optExp: seq<string>, after: string)
    returns (out: seq<string>)
    ensures out == results + OptionCombos(before, optExp, Expand(after))
    decreases |after| + 1, 0
  {
    out := results;
    assert optExp[..0] == [];
    for oj := 0 to |optExp|
      invariant out == results + OptionCombos(before, optExp[..oj], Expand(after))
    {
      var afterExp := ExpandBraces(after);
      OptionCombosStep(before, optExp, afterExp, oj);
      out := AppendPrefixed(out, before + optExp[oj], afterExp);
    }
    assert optExp[..|optExp|] == optExp;
  }

  /** `expand_braces(path)`, recursive as in the source. */
  method ExpandBraces(path: string) returns (results: seq<string>)
    ensures results == Expand(path)
    decreases |path|, 1
  {
    var found := IndexOfChar(path, '{');
    if found.None? {
      return [path];
    }
    var l := found.value;
    var close := MatchingBrace(path, l);
    if close.None? {
      return [path];
    }
    var r := close.value;
    ExpandGroup(path, l, r);
    var options := TopLevelOptions(path[l + 1..r]);
    results := ExpandOptions(path, l, r, options);
  }

  /** The outer loop over the options of the group from `l` to `r`. */
  method ExpandOptions(path: string, l: nat, r: nat, options: seq<string>) returns (results: seq<string>)
    requires l < r < |path| && options == Options(path[l + 1..r])
    ensures results == GroupExpansion(path, l, r)
    decreases |path|, 0
  {
    var before, after := path[..l], path[r + 1..];
    results := [];
    assert options[..0] == [];
    for oi := 0 to |options|
      invariant results == Combos(before, ExpandAll(options[..oi], |path|), Expand(after))
    {
      var optExp := ExpandBraces(options[oi]);
      CombosStep(before, options, |path|, Expand(after), oi);
      results := AppendCombos(results, before, optExp, after);
    }
    assert options[..|options|] == options;
  }

  // ----------------------------------------------------------------------
  // Properties

  /** A path without `{` is returned as it is. */
  lemma ExpandNoBrace(path: string)
    requires '{' !in path
    ensures Expand(path) == [path]
  {
  }

  /** How many braces `s[i..j]` leaves open: each `{` counts one up, each `}` one down. */
  function Depth(s: string, i: nat, j: nat): int
    requires i <= j <= |s|
    decreases j - i
  {
    if i == j then 0 else (if s[i] == '{' then 1 else if s[i] == '}' then -1 else 0) + Depth(s, i + 1, j)
  }

  /** The scan finds no closing brace while every stretch from `i` leaves a brace open. */
  lemma {:induction false} CloseFromNone(s: string, i: nat, depth: int)
    requires i <= |s|
    requires forall j :: i < j <= |s| ==> depth + Depth(s, i, j) > 0
    ensures CloseFrom(s, i, depth).None?
    decreases |s| - i
  {
    if i < |s| {
      var d := if s[i] == '{' then depth + 1 else if s[i] == '}' then depth - 1 else depth;
      var next := i + 1;
      assert Depth(s, next, next) == 0;
      assert depth + Depth(s, i, next) > 0;
      assert d > 0;
      forall j | next < j <= |s|
        ensures d + Depth(s, next, j) > 0
      {
        assert depth + Depth(s, i, j) > 0;
      }
      CloseFromNone(s, next, d);
    }
  }

  lemma FirstBrace(s: string, pre: string)
    requires '{' !in pre && |pre| < |s| && s[..|pre|] == pre && s[|pre|] == '{'
    ensures IndexOfChar(s, '{') == Some(|pre|)
  {
  }

  /**
   * A first `{` that no `}` closes: when every stretch of text from it on
   * holds more `{` than `}`, the path is returned as it is.
   */
  lemma ExpandUnclosed(path: string, l: nat)
    requires l < |path| && path[l] == '{' && '{' !in path[..l]
    requires forall j :: l < j <= |path| ==> Depth(path, l, j) > 0
    ensures Expand(path) == [path]
  {
    FirstBrace(path, path[..l]);
    CloseFromNone(path, l, 0);
  }

  /** Text without braces does not change the depth scan. */
  lemma {:induction false} CloseFromSkip(s: string, i: nat, j: nat, depth: int)
    requires i <= j <= |s| && Plain(s[i..j])
    ensures CloseFrom(s, i, depth) == CloseFrom(s, j, depth)
    decreases j - i
  {
    if i < j {
      assert s[i] == s[i..j][0];
      assert s[i + 1..j] == s[i..j][1..];
      CloseFromSkip(s, i + 1, j, depth);
    }
  }

  /** Text without braces, and without commas at depth zero, does not change the option split. */
  lemma {:induction false} OptionsFromSkip(inside: string, i: nat, j: nat, depth: int, start: nat)
    requires start <= i <= j <= |inside| && Plain(inside[i..j])
    requires depth != 0 || ',' !in inside[i..j]
    ensures OptionsFrom(inside, i, depth, start) == OptionsFrom(inside, j, depth, start)
    decreases j - i
  {
    if i < j {
      assert inside[i] == inside[i..j][0];
      assert inside[i + 1..j] == inside[i..j][1..];
      OptionsFromSkip(inside, i + 1, j, depth, start);
    }
  }

  /** An option text `c,` splits into `c` and the empty option. */
  lemma OptionalTail(c: string)
    requires Plain(c) && ',' !in c
    ensures Options(c + ",") == [c, ""]
  {
    var ins := c + ",";
    assert ins[0..|c|] == c;
    OptionsFromSkip(ins, 0, |c|, 0, 0);
    assert ins[..|c|] == c;
    assert ins[|c| + 1..] == "";
  }

  /** The option text `b{c,},` splits into `b{c,}` and the empty option. */
  lemma NestedOptionalTail(b: string, c: string)
    requires Plain(b) && ',' !in b && Plain(c) && ',' !in c
    ensures Options(b + "{" + c + ",}" + ",") == [b + "{" + c + ",}", ""]
  {
    var x := b + "{" + c + ",}";
    var ins := x + ",";
    var m := |b| + 1 + |c|;
    assert ins[0..|b|] == b;
    OptionsFromSkip(ins, 0, |b|, 0, 0);
    assert ins[|b|] == '{';
    assert ins[|b| + 1..m] == c;
    OptionsFromSkip(ins, |b| + 1, m, 1, 0);
    assert ins[m] == ',' && ins[m + 1] == '}' && ins[m + 2] == ',';
    assert OptionsFrom(ins, 0, 0, 0) == OptionsFrom(ins, m + 2, 0, 0);
    assert ins[..m + 2] == x && ins[m + 3..] == "";
  }

  /** One group: the text before the first `{`, the options up to its `}`, and the rest. */
  lemma ExpandGroup(path: string, l: nat, r: nat)
    requires IndexOfChar(path, '{') == Some(l) && CloseFrom(path, l, 0) == Some(r)
    ensures l < r && Expand(path) == GroupExpansion(path, l, r)
  {
    assert path[l] == '{';
  }

  /** The number of expansions of the options, summed over the options. */
  function ExpansionCount(opts: seq<string>, bound: nat): nat
    requires forall k :: 0 <= k < |opts| ==> |opts[k]| < bound
    decreases |opts|
  {
    if |opts| == 0 then 0 else ExpansionCount(opts[..|opts| - 1], bound) + |Expand(opts[|opts| - 1])|
  }

  /**
   * The first group's expansions: every one starts with the text before the
   * `{`, and there are as many as the options have expansions in all, times
   * the expansions of the text after the `}`.
   */
  lemma ExpandFirstGroupShape(path: string, l: nat, r: nat)
    requires IndexOfChar(path, '{') == Some(l) && CloseFrom(path, l, 0) == Some(r)
    ensures l < r
    ensures forall k :: 0 <= k < |Expand(path)| ==> StartsWith(Expand(path)[k], path[..l])
    ensures |Expand(path)| == ExpansionCount(Options(path[l + 1..r]), |path|) * |Expand(path[r + 1..])|
  {
    ExpandGroup(path, l, r);
    var opts := Options(path[l + 1..r]);
    assert forall k :: 0 <= k < |opts| ==> |opts[k]| < |path|;
    CombosPrefix(path[..l], ExpandAll(opts, |path|), Expand(path[r + 1..]));
    CombosCount(path[..l], opts, |path|, Expand(path[r + 1..]), |opts|);
    assert opts[..|opts|] == opts;
  }

  /** A text that starts with `p + q` starts with `p`. */
  lemma StartsWithLonger(x: string, p: string, q: string)
    requires StartsWith(x, p + q)
    ensures StartsWith(x, p)
  {
    assert x[..|p|] == x[..|p + q|][..|p|];
  }

  lemma {:induction false} PrefixedPrefix(p: string, xs: seq<string>)
    ensures forall k :: 0 <= k < |Prefixed(p, xs)| ==> StartsWith(Prefixed(p, xs)[k], p)
    decreases |xs|
  {
    if |xs| > 0 {
      PrefixedPrefix(p, xs[..|xs| - 1]);
      var x := p + xs[|xs| - 1];
      assert x[..|p|] == p;
    }
  }

  lemma {:induction false} OptionCombosPrefix(before: string, oes: seq<string>, afters: seq<string>)
    ensures forall k :: 0 <= k < |OptionCombos(before, oes, afters)| ==> StartsWith(OptionCombos(before, oes, afters)[k], before)
    decreases |oes|
  {
    if |oes| > 0 {
      var n := |oes| - 1;
      OptionCombosPrefix(before, oes[..n], afters);
      var ps := Prefixed(before + oes[n], afters);
      PrefixedPrefix(before + oes[n], afters);
      forall k | 0 <= k < |ps|
        ensures StartsWith(ps[k], before)
      {
        StartsWithLonger(ps[k], before, oes[n]);
      }
    }
  }

  lemma {:induction false} CombosPrefix(before: string, optExps: seq<seq<string>>, afters: seq<string>)
    ensures forall k :: 0 <= k < |Combos(before, optExps, afters)| ==> StartsWith(Combos(before, optExps, afters)[k], before)
    decreases |optExps|
  {
    if |optExps| > 0 {
      var n := |optExps| - 1;
      CombosPrefix(before, optExps[..n], afters);
      OptionCombosPrefix(before, optExps[n], afters);
    }
  }

  /** One option contributes each of its expansions once per expansion of the rest. */
  lemma {:induction false} OptionCombosCount(before: string, oes: seq<string>, afters: seq<string>)
    ensures |OptionCombos(before, oes, afters)| == |oes| * |afters|
    decreases |oes|
  {
    if |oes| > 0 {
      var n := |oes| - 1;
      OptionCombosCount(before, oes[..n], afters);
      assert |OptionCombos(before, oes, afters)| == n * |afters| + |afters|;
      assert n * |afters| + |afters| == (n + 1) * |afters|;
    }
  }

  lemma SumTimes(c: nat, e: nat, a: nat)
    ensures c * a + e * a == (c + e) * a
  {
  }

  lemma {:induction false} CombosCount(before: string, opts: seq<string>, bound: nat, afters: seq<string>, i: nat)
    requires i <= |opts|
    requires forall k :: 0 <= k < |opts| ==> |opts[k]| < bound
    ensures |Combos(before, ExpandAll(opts[..i], bound), afters)| == ExpansionCount(opts[..i], bound) * |afters|
    decreases i
  {
    if i == 0 {
      assert opts[..0] == [];
    } else {
      var n := i - 1;
      CombosCount(before, opts, bound, afters, n);
      CombosStep(before, opts, bound, afters, n);
      var oes := Expand(opts[n]);
      OptionCombosCount(before, oes, afters);
      assert opts[..i][..n] == opts[..n];
      SumTimes(ExpansionCount(opts[..n], bound), |oes|, |afters|);
    }
  }

  lemma ExpandAllTwo(x: string, y: string, n: nat)
    requires |x| < n && |y| < n
    ensures ExpandAll([x, y], n) == [Expand(x), Expand(y)]
  {
    assert [x, y][..1] == [x] && [x][..0] == [];
  }

  lemma CombosTwo(before: string, e1: seq<string>, e2: seq<string>, afters: seq<string>)
    ensures Combos(before, [e1, e2], afters) == OptionCombos(before, e1, afters) + OptionCombos(before, e2, afters)
  {
    assert [e1, e2][..1] == [e1] && [e1][..0] == [];
    assert Combos(before, [e1], afters) == [] + OptionCombos(before, e1, afters);
  }

  /** With nothing after the group, each expansion of an option is only prefixed. */
  lemma {:induction false} OptionCombosNothingAfter(before: string, oes: seq<string>)
    ensures OptionCombos(before, oes, [""]) == Prefixed(before, oes)
    decreases |oes|
  {
    if |oes| > 0 {
      var n := |oes| - 1;
      OptionCombosNothingAfter(before, oes[..n]);
      assert [""][..0] == [];
      assert Prefixed(before + oes[n], [""]) == [before + oes[n] + ""];
      assert before + oes[n] + "" == before + oes[n];
    }
  }

  lemma PrefixedTwo(p: string, x: string, y: string)
    ensures Prefixed(p, [x, y]) == [p + x, p + y]
  {
    assert [x, y][..1] == [x] && [x][..0] == [];
  }

  /** An index found in a suffix, as an index of the whole string. */
  function Shift(o: Option<nat>, k: nat): Option<nat>
  {
    if o.None? then None else Some(o.value + k)
  }

  /** The depth scan from `i` only looks at the text from `i` on. */
  lemma {:induction false} CloseFromSuffix(s: string, i: nat, depth: int)
    requires i <= |s|
    ensures CloseFrom(s, i, depth) == Shift(CloseFrom(s[i..], 0, depth), i)
    decreases |s| - i
  {
    if i < |s| {
      var t := s[i..];
      assert t[0] == s[i] && t[1..] == s[i + 1..];
      var d := if s[i] == '{' then depth + 1 else if s[i] == '}' then depth - 1 else depth;
      if s[i] != '}' || depth != 1 {
        CloseFromSuffix(s, i + 1, d);
        CloseFromSuffix(t, 1, d);
      }
    }
  }

  /** Text without braces in front shifts the result and leaves the depth alone. */
  lemma ClosePlainPrefix(x: string, y: string, depth: int)
    requires Plain(x)
    ensures CloseFrom(x + y, 0, depth) == Shift(CloseFrom(y, 0, depth), |x|)
  {
    assert (x + y)[0..|x|] == x;
    CloseFromSkip(x + y, 0, |x|, depth);
    assert (x + y)[|x|..] == y;
    CloseFromSuffix(x + y, |x|, depth);
  }

  /** An opening brace in front raises the depth. */
  lemma CloseOpenPrefix(y: string, depth: int)
    ensures CloseFrom("{" + y, 0, depth) == Shift(CloseFrom(y, 0, depth + 1), 1)
  {
    assert ("{" + y)[1..] == y;
    CloseFromSuffix("{" + y, 1, depth + 1);
  }

  lemma CloseOptionalTail()
    ensures CloseFrom(",}", 0, 1) == Some(1)
    ensures CloseFrom(",},}", 0, 2) == Some(3)
  {
    CloseStep(",}", 0, 1);
    CloseStep(",},}", 0, 2);
    CloseStep(",},}", 1, 2);
    CloseStep(",},}", 2, 1);
  }

  lemma CloseStep(s: string, i: nat, depth: int)
    requires i < |s|
    ensures s[i] == '{' ==> CloseFrom(s, i, depth) == CloseFrom(s, i + 1, depth + 1)
    ensures s[i] == '}' ==> CloseFrom(s, i, depth) == if depth == 1 then Some(i) else CloseFrom(s, i + 1, depth - 1)
    ensures s[i] != '{' && s[i] != '}' ==> CloseFrom(s, i, depth) == CloseFrom(s, i + 1, depth)
  {
  }

  /** A closing brace found in `y` is found in `x + y`, `|x|` places further on, when `x` has no braces. */
  lemma ClosePlainSome(x: string, y: string, depth: int, k: nat)
    requires Plain(x) && CloseFrom(y, 0, depth) == Some(k)
    ensures CloseFrom(x + y, 0, depth) == Some(|x| + k)
  {
    ClosePlainPrefix(x, y, depth);
  }

  /** An opening brace in front: the same closing brace, one place further on, one level out. */
  lemma CloseOpenSome(y: string, depth: int, k: nat)
    requires CloseFrom(y, 0, depth + 1) == Some(k)
    ensures CloseFrom("{" + y, 0, depth) == Some(k + 1)
  {
    CloseOpenPrefix(y, depth);
  }

  /** The scan started where `y` begins inside `x + y`. */
  lemma CloseJoinSome(x: string, y: string, k: nat)
    requires CloseFrom(y, 0, 0) == Some(k)
    ensures CloseFrom(x + y, |x|, 0) == Some(|x| + k)
  {
    assert (x + y)[|x|..] == y;
    CloseFromSuffix(x + y, |x|, 0);
  }

  /** In `b{c,}` the first brace is closed by the last character. */
  lemma CloseOptional(b: string, c: string, s: string)
    requires Plain(c)
    requires s == b + ("{" + (c + ",}"))
    ensures CloseFrom(s, |b|, 0) == Some(|b| + |c| + 2)
  {
    var u := c + ",}";
    var v := "{" + u;
    CloseOptionalTail();
    ClosePlainSome(c, ",}", 1, 1);
    CloseOpenSome(u, 0, |c| + 1);
    CloseJoinSome(b, v, |c| + 2);
  }

  /** In `a{b{c,},}` the first brace is closed by the last character. */
  lemma CloseNested(a: string, b: string, c: string, s: string)
    requires Plain(b) && Plain(c)
    requires s == a + ("{" + (b + ("{" + (c + ",},}"))))
    ensures CloseFrom(s, |a|, 0) == Some(|a| + |b| + |c| + 5)
  {
    var t := c + ",},}";
    var u := "{" + t;
    var v := b + u;
    var w := "{" + v;
    CloseOptionalTail();
    ClosePlainSome(c, ",},}", 2, 3);
    CloseOpenSome(t, 1, |c| + 3);
    ClosePlainSome(b, u, 1, |c| + 4);
    CloseOpenSome(v, 0, |b| + |c| + 4);
    CloseJoinSome(a, w, |b| + |c| + 5);
  }

  /** A group given by its pieces: `pre{inside}post` with no `{` in `pre`. */
  lemma ExpandGroupOf(pre: string, inside: string, post: string, path: string)
    requires '{' !in pre
    requires path == pre + ("{" + (inside + ("}" + post)))
    requires CloseFrom(path, |pre|, 0) == Some(|pre| + |inside| + 1)
    ensures Expand(path) == Combos(pre, ExpandAll(Options(inside), |path|), Expand(post))
  {
    GroupSlices(pre, inside, post, path);
    FirstBrace(path, pre);
    ExpandGroupAt(path, |pre|, |pre| + |inside| + 1, pre, inside, post);
  }

  lemma ExpandGroupAt(path: string, l: nat, r: nat, pre: string, inside: string, post: string)
    requires IndexOfChar(path, '{') == Some(l) && CloseFrom(path, l, 0) == Some(r)
    requires path[..l] == pre && path[l + 1..r] == inside && path[r + 1..] == post
    ensures Expand(path) == Combos(pre, ExpandAll(Options(inside), |path|), Expand(post))
  {
    ExpandGroup(path, l, r);
  }

  lemma GroupSlices(pre: string, inside: string, post: string, path: string)
    requires path == pre + ("{" + (inside + ("}" + post)))
    ensures path[..|pre|] == pre && path[|pre|] == '{'
    ensures path[|pre| + 1..|pre| + |inside| + 1] == inside
    ensures path[|pre| + |inside| + 2..] == post
  {
    var rest := "}" + post;
    var tail := inside + rest;
    assert path[|pre| + 1..] == tail;
    assert tail[..|inside|] == inside;
    assert tail[|inside| + 1..] == post;
  }

  /** `b{c,}` expands to `bc` and `b`. */
  lemma ExpandOptional(b: string, c: string, path: string)
    requires Plain(b) && Plain(c) && ',' !in c
    requires path == b + "{" + c + ",}"
    ensures Expand(path) == [b + c, b]
  {
    OptionalOuterGroup(b, c, path);
    OptionalInnerOptions(c, |path|);
    ExpandNoBrace("");
    CombosOptionalSingle(b, c);
  }

  /** `b{c,}` is one group with the option text `c,` and nothing after it. */
  lemma OptionalOuterGroup(b: string, c: string, path: string)
    requires Plain(b) && Plain(c)
    requires path == b + "{" + c + ",}"
    ensures |c + ","| < |path|
    ensures Expand(path) == Combos(b, ExpandAll(Options(c + ","), |path|), Expand(""))
  {
    OptionalAssoc(b, "{", c, ",}", path);
    CommaBraceTail(c);
    CloseOptional(b, c, path);
    ExpandGroupOf(b, c + ",", "", path);
  }

  lemma OptionalAssoc(b: string, o: string, c: string, t: string, path: string)
    requires path == b + o + c + t
    ensures path == b + (o + (c + t))
  {
  }

  /** The options `c` and the empty option expand to themselves. */
  lemma OptionalInnerOptions(c: string, n: nat)
    requires Plain(c) && ',' !in c && |c + ","| < n
    ensures ExpandAll(Options(c + ","), n) == [[c], [""]]
  {
    OptionalTail(c);
    ExpandNoBrace(c);
    ExpandNoBrace("");
    ExpandAllTwo(c, "", n);
  }

  /** An optional group of one word, with nothing after it. */
  lemma CombosOptionalSingle(b: string, c: string)
    ensures Combos(b, [[c], [""]], [""]) == [b + c, b]
  {
    CombosTwo(b, [c], [""], [""]);
    OptionCombosNothingAfter(b, [c]);
    OptionCombosNothingAfter(b, [""]);
    assert b + "" == b;
  }

  /**
   * The nested optional pattern of `rmdir` directives:
   * `a{b{c,},}` expands to `abc`, `ab` and `a`, in that order
   * (as `.../Adobe{/CEP{/extensions,},}` gives `.../Adobe/CEP/extensions`,
   * `.../Adobe/CEP` and `.../Adobe`).
   */
  lemma ExpandNestedOptional(a: string, b: string, c: string, path: string)
    requires Plain(a) && Plain(b) && ',' !in b && Plain(c) && ',' !in c
    requires path == a + "{" + b + "{" + c + ",}" + ",}"
    ensures Expand(path) == [a + b + c, a + b, a]
  {
    NestedOuterGroup(a, b, c, path);
    NestedInnerOptions(b, c, |path|);
    ExpandNoBrace("");
    CombosOptionalPair(a, b + c, b);
    assert a + (b + c) == a + b + c;
  }

  lemma NestedOuterGroup(a: string, b: string, c: string, path: string)
    requires '{' !in a && Plain(b) && Plain(c)
    requires path == a + "{" + b + "{" + c + ",}" + ",}"
    ensures Expand(path) == Combos(a, ExpandAll(Options(b + "{" + c + ",}" + ","), |path|), Expand(""))
  {
    var x := b + "{" + c + ",}";
    NestedGroupShape(a, b, c, path);
    ExpandGroupOf(a, x + ",", "", path);
  }

  /** `a{b{c,},}` is the group `{x,}` after `a`, where `x` is `b{c,}`, and its brace closes at the end. */
  lemma NestedGroupShape(a: string, b: string, c: string, path: string)
    requires Plain(b) && Plain(c)
    requires path == a + "{" + b + "{" + c + ",}" + ",}"
    ensures path == a + ("{" + (((b + "{" + c + ",}") + ",") + ("}" + "")))
    ensures CloseFrom(path, |a|, 0) == Some(|a| + |(b + "{" + c + ",}") + ","| + 1)
  {
    var x := b + "{" + c + ",}";
    assert path == a + ("{" + ((x + ",") + ("}" + ""))) by {
      NestedAssoc(a, "{", b, c, ",}", path);
      CommaBraceTail(x);
    }
    assert path == a + ("{" + (b + ("{" + (c + ",},}")))) by {
      NestedAssoc(a, "{", b, c, ",}", path);
      CommaBraceTwice(c);
    }
    CloseNested(a, b, c, path);
  }

  lemma NestedAssoc(a: string, o: string, b: string, c: string, t: string, path: string)
    requires path == a + o + b + o + c + t + t
    ensures path == a + (o + ((b + o + c + t) + t))
    ensures path == a + (o + (b + (o + (c + (t + t)))))
  {
  }

  lemma CommaBraceTail(x: string)
    ensures x + ",}" == (x + ",") + ("}" + "")
  {
  }

  lemma CommaBraceTwice(c: string)
    ensures c + (",}" + ",}") == c + ",},}"
  {
  }

  lemma NestedInnerOptions(b: string, c: string, n: nat)
    requires Plain(b) && ',' !in b && Plain(c) && ',' !in c
    requires |b + "{" + c + ",}" + ","| < n
    ensures ExpandAll(Options(b + "{" + c + ",}" + ","), n) == [[b + c, b], [""]]
  {
    var x := b + "{" + c + ",}";
    NestedOptionalTail(b, c);
    ExpandAllTwo(x, "", n);
    ExpandOptional(b, c, x);
    ExpandNoBrace("");
  }

  /** An optional group whose first option expands to two words, with nothing after it. */
  lemma CombosOptionalPair(a: string, p: string, q: string)
    ensures Combos(a, [[p, q], [""]], [""]) == [a + p, a + q, a]
  {
    CombosTwo(a, [p, q], [""], [""]);
    OptionCombosNothingAfter(a, [p, q]);
    OptionCombosNothingAfter(a, [""]);
    PrefixedTwo(a, p, q);
    assert Prefixed(a, [""]) == [a + ""];
    assert a + "" == a;
  }
}
