/**
 * String helpers shared by the rest of the model: the character classes the
 * generator's regular expressions use, and the few `str` methods it relies on
 * (`startswith`, `endswith`, `in`, `find`, `split`, `join`, `replace`).
 *
 * Character classes are ASCII: `\d` is 0-9, `\w` is letters, digits and `_`.
 * Python's `str.isspace` set is spelled out in full.
 */
module Text {

  datatype Option<T> = None | Some(value: T)

  /** The outcome of an operation that raises on some inputs. */
  datatype Result<T> = Success(value: T) | Failure

  predicate IsDigit(c: char) { '0' <= c <= '9' }
  predicate IsUpper(c: char) { 'A' <= c <= 'Z' }
  predicate IsLower(c: char) { 'a' <= c <= 'z' }
  predicate IsLetter(c: char) { IsUpper(c) || IsLower(c) }
  predicate IsAlnum(c: char) { IsLetter(c) || IsDigit(c) }
  /** `\w` */
  predicate IsWordChar(c: char) { IsAlnum(c) || c == '_' }
  /** `[0-9a-fA-F]` */
  predicate IsHex(c: char) { IsDigit(c) || 'a' <= c <= 'f' || 'A' <= c <= 'F' }
  /** `[a-f0-9]` */
  predicate IsLowerHex(c: char) { IsDigit(c) || 'a' <= c <= 'f' }
  /** `[A-Z0-9]` */
  predicate IsUpperAlnum(c: char) { IsUpper(c) || IsDigit(c) }
  /** `[A-Z0-9\*]` */
  predicate IsUpperAlnumOrStar(c: char) { IsUpperAlnum(c) || c == '*' }

  /** Python's `\s` and `str.isspace()` for `str` patterns. */
  predicate IsSpace(c: char)
  {
    c == ' ' || '\t' <= c <= '\r' || '\U{1c}' <= c <= '\U{1f}' || c == '\U{85}' || c == '\U{a0}'
    || c == '\U{1680}' || '\U{2000}' <= c <= '\U{200a}' || c == '\U{2028}' || c == '\U{2029}'
    || c == '\U{202f}' || c == '\U{205f}' || c == '\U{3000}'
  }

  /** Every character of `s` satisfies `p`, and `s` is not empty: `re.fullmatch('[...]+', s)`. */
  predicate FullMatch(s: string, p: char -> bool)
  {
    |s| > 0 && forall i :: 0 <= i < |s| ==> p(s[i])
  }

  predicate NoDigit(s: string)
  {
    forall k :: 0 <= k < |s| ==> !IsDigit(s[k])
  }

  /** No digit from `i` on, checked one index at a time (so literals evaluate). */
  predicate NoDigitFrom(s: string, i: nat)
    decreases |s| - i
  {
    i >= |s| || (!IsDigit(s[i]) && NoDigitFrom(s, i + 1))
  }

  lemma {:induction false} NoDigitFromHolds(s: string, i: nat)
    requires NoDigitFrom(s, i)
    ensures forall k :: i <= k < |s| ==> !IsDigit(s[k])
    decreases |s| - i
  {
    if i < |s| {
      NoDigitFromHolds(s, i + 1);
    }
  }

  predicate HasDigit(s: string)
  {
    |s| > 0 && (IsDigit(s[0]) || HasDigit(s[1..]))
  }

  lemma HasDigitAt(s: string, i: nat)
    requires i < |s| && IsDigit(s[i])
    ensures HasDigit(s)
  {
    if i > 0 {
      HasDigitAt(s[1..], i - 1);
    }
  }

  predicate StartsWith(s: string, p: string) { |p| <= |s| && s[..|p|] == p }
  predicate EndsWith(s: string, p: string) { |p| <= |s| && s[|s| - |p|..] == p }

  /** `t in s` for strings: `t` occurs in `s` as a substring. */
  predicate Contains(s: string, t: string)
    decreases |s|
  {
    StartsWith(s, t) || (|s| > 0 && Contains(s[1..], t))
  }

  /** An occurrence at a known position is an occurrence. */
  lemma {:induction false} ContainsAt(s: string, t: string, i: nat)
    requires i + |t| <= |s| && s[i..i + |t|] == t
    ensures Contains(s, t)
    decreases i
  {
    if i > 0 {
      assert s[1..][i - 1..i - 1 + |t|] == s[i..i + |t|];
      ContainsAt(s[1..], t, i - 1);
    }
  }

  /** `s.find(t)`: the first index at which `t` occurs in `s`. */
  function IndexOf(s: string, t: string): (r: Option<nat>)
    ensures r.Some? ==> r.value + |t| <= |s| && s[r.value..r.value + |t|] == t
    ensures r.Some? ==> forall k :: 0 <= k < r.value ==> !StartsWith(s[k..], t)
    ensures r.None? <==> !Contains(s, t)
    decreases |s|
  {
    if StartsWith(s, t) then Some(0)
    else if |s| == 0 then None
    else match IndexOf(s[1..], t)
      case None => None
      case Some(k) =>
        IndexOfShift(s, t, k);
        Some(k + 1)
  }

  /** An occurrence found in the tail, one position further on in the whole string. */
  lemma IndexOfShift(s: string, t: string, k: nat)
    requires |s| > 0 && !StartsWith(s, t)
    requires k + |t| <= |s[1..]| && s[1..][k..k + |t|] == t
    requires forall j :: 0 <= j < k ==> !StartsWith(s[1..][j..], t)
    ensures k + 1 + |t| <= |s| && s[k + 1..k + 1 + |t|] == t
    ensures forall j :: 0 <= j < k + 1 ==> !StartsWith(s[j..], t)
  {
    assert s[1..][k..k + |t|] == s[k + 1..k + 1 + |t|];
    forall j | 1 <= j < k + 1
      ensures !StartsWith(s[j..], t)
    {
      assert s[1..][j - 1..] == s[j..];
    }
  }

  /** `s.find(c)` for one character. */
  function IndexOfChar(s: string, c: char): (r: Option<nat>)
    ensures r.Some? ==> r.value < |s| && s[r.value] == c && c !in s[..r.value]
    ensures r.None? <==> c !in s
  {
    if c !in s then None
    else
      var i :| 0 <= i < |s| && s[i] == c;
      Some(FirstAt(s, c, 0, i))
  }

  function FirstAt(s: string, c: char, k: nat, bound: nat): (r: nat)
    requires k <= bound < |s| && s[bound] == c && c !in s[..k]
    ensures r < |s| && s[r] == c && c !in s[..r]
    decreases bound - k
  {
    if s[k] == c then k
    else
      assert s[..k + 1] == s[..k] + [s[k]];
      FirstAt(s, c, k + 1, bound)
  }

  /** `s.rfind(c)` for one character. */
  function LastIndexOfChar(s: string, c: char): (r: Option<nat>)
    ensures r.Some? ==> r.value < |s| && s[r.value] == c && c !in s[r.value + 1..]
    ensures r.None? <==> c !in s
  {
    if |s| == 0 then None
    else if s[|s| - 1] == c then Some(|s| - 1)
    else
      assert s == s[..|s| - 1] + [s[|s| - 1]];
      match LastIndexOfChar(s[..|s| - 1], c)
      case None => None
      case Some(k) =>
        assert s[k + 1..] == s[..|s| - 1][k + 1..] + [s[|s| - 1]];
        Some(k)
  }

  /** `xs.index(x)`: the first position of `x` in `xs`. */
  function IndexOfElem<T(==)>(xs: seq<T>, x: T): (r: Option<nat>)
    ensures r.Some? ==> r.value < |xs| && xs[r.value] == x && x !in xs[..r.value]
    ensures r.None? <==> x !in xs
  {
    if |xs| == 0 then None
    else if xs[0] == x then Some(0)
    else match IndexOfElem(xs[1..], x)
      case None => None
      case Some(k) =>
        assert xs[..k + 1] == [xs[0]] + xs[1..][..k];
        Some(k + 1)
  }

  /** `s.split(c)`: the pieces between the occurrences of `c`, empty pieces included. */
  function Split(s: string, c: char): (r: seq<string>)
    ensures |r| >= 1
    ensures forall k :: 0 <= k < |r| ==> c !in r[k]
    decreases |s|
  {
    match IndexOfChar(s, c)
    case None => [s]
    case Some(i) => [s[..i]] + Split(s[i + 1..], c)
  }

  /** `sep.join(parts)` */
  function Join(parts: seq<string>, sep: string): string
  {
    if |parts| == 0 then ""
    else if |parts| == 1 then parts[0]
    else parts[0] + sep + Join(parts[1..], sep)
  }

  lemma {:induction false} JoinSplit(s: string, c: char)
    ensures Join(Split(s, c), [c]) == s
    decreases |s|
  {
    match IndexOfChar(s, c)
    case None =>
      assert Split(s, c) == [s];
    case Some(i) =>
      var rest := Split(s[i + 1..], c);
      calc {
        Join(Split(s, c), [c]);
        Join([s[..i]] + rest, [c]);
        { JoinCons(s[..i], rest, [c]); }
        s[..i] + [c] + Join(rest, [c]);
        { JoinSplit(s[i + 1..], c); }
        s[..i] + [c] + s[i + 1..];
        { assert s == s[..i] + [c] + s[i + 1..]; }
        s;
      }
  }

  lemma JoinCons(p: string, rest: seq<string>, sep: string)
    requires |rest| >= 1
    ensures Join([p] + rest, sep) == p + sep + Join(rest, sep)
  {
    assert ([p] + rest)[1..] == rest;
  }

  lemma {:induction false} SplitJoin(parts: seq<string>, c: char)
    requires |parts| >= 1
    requires forall k :: 0 <= k < |parts| ==> c !in parts[k]
    ensures Split(Join(parts, [c]), c) == parts
    decreases |parts|
  {
    if |parts| == 1 {
      assert IndexOfChar(parts[0], c).None?;
    } else {
      var rest := Join(parts[1..], [c]);
      var s := parts[0] + [c] + rest;
      assert s[|parts[0]|] == c;
      assert s[..|parts[0]|] == parts[0];
      assert IndexOfChar(s, c) == Some(|parts[0]|);
      assert s[|parts[0]| + 1..] == rest;
      SplitJoin(parts[1..], c);
    }
  }

  lemma FirstIndexAfter(a: string, b: string, c: char)
    requires c !in a
    ensures IndexOfChar(a + [c] + b, c) == Some(|a|)
  {
    var s := a + [c] + b;
    assert s[|a|] == c && s[..|a|] == a;
  }

  /** Splitting at a separator between two strings splits each of them. */
  lemma {:induction false} SplitAppend(a: string, b: string, c: char)
    ensures Split(a + [c] + b, c) == Split(a, c) + Split(b, c)
    decreases |a|
  {
    var s := a + [c] + b;
    match IndexOfChar(a, c)
    case None =>
      FirstIndexAfter(a, b, c);
      assert s[..|a|] == a && s[|a| + 1..] == b;
    case Some(i) =>
      assert s[i] == c && c !in s[..i] by {
        assert s[..i] == a[..i];
      }
      assert IndexOfChar(s, c) == Some(i);
      assert s[..i] == a[..i];
      assert s[i + 1..] == a[i + 1..] + [c] + b;
      SplitAppend(a[i + 1..], b, c);
  }

  lemma {:induction false} JoinAppend(xs: seq<string>, ys: seq<string>, sep: string)
    requires |xs| > 0 && |ys| > 0
    ensures Join(xs + ys, sep) == Join(xs, sep) + sep + Join(ys, sep)
    decreases |xs|
  {
    if |xs| > 1 {
      assert (xs + ys)[1..] == xs[1..] + ys;
      JoinAppend(xs[1..], ys, sep);
    } else {
      assert (xs + ys)[1..] == ys;
    }
  }

  lemma MapAppend<A, B>(f: A -> B, xs: seq<A>, ys: seq<A>)
    ensures Map(f, xs + ys) == Map(f, xs) + Map(f, ys)
  {
    var l, r := Map(f, xs + ys), Map(f, xs) + Map(f, ys);
    assert |l| == |r|;
    forall i | 0 <= i < |l|
      ensures l[i] == r[i]
    {
      if i < |xs| {
        assert (xs + ys)[i] == xs[i];
      } else {
        assert (xs + ys)[i] == ys[i - |xs|];
      }
    }
  }

  /** Replacing one field by a separator-free string and joining again splits back into the updated fields. */
  lemma SplitUpdateJoin(s: string, c: char, i: nat, w: string)
    requires i < |Split(s, c)| && c !in w
    ensures Split(Join(Split(s, c)[i := w], [c]), c) == Split(s, c)[i := w]
  {
    var u := Split(s, c)[i := w];
    assert forall k :: 0 <= k < |u| ==> c !in u[k];
    SplitJoin(u, c);
  }

  /** `s.replace(c, r)` for a one-character `c`. */
  function ReplaceChar(s: string, c: char, r: string): (t: string)
    ensures c !in r ==> c !in t
    ensures |r| == 0 ==> |t| <= |s|
  {
    if |s| == 0 then ""
    else (if s[0] == c then r else [s[0]]) + ReplaceChar(s[1..], c, r)
  }

  /** Replacing a character that occurs by a longer string makes the text longer. */
  lemma {:induction false} ReplaceCharLonger(s: string, c: char, r: string)
    requires |r| >= 1
    ensures |ReplaceChar(s, c, r)| >= |s|
    ensures |r| > 1 && c in s ==> |ReplaceChar(s, c, r)| > |s|
    decreases |s|
  {
    if |s| > 0 {
      ReplaceCharLonger(s[1..], c, r);
      if s[0] != c && c in s {
        assert c in s[1..] by {
          var k :| 0 <= k < |s| && s[k] == c;
          assert s[1..][k - 1] == c;
        }
      }
    }
  }

  /** `s.replace(c, '')` */
  function RemoveChar(s: string, c: char): (t: string)
    ensures c !in t
    ensures |t| <= |s|
  {
    ReplaceChar(s, c, "")
  }

  /** `s.lstrip(c)` for one character. */
  function LStripChar(s: string, c: char): (t: string)
    ensures |t| <= |s| && t == s[|s| - |t|..]
    ensures |t| > 0 ==> t[0] != c
  {
    if |s| > 0 && s[0] == c then LStripChar(s[1..], c) else s
  }

  /** `s.lstrip()`: leading whitespace removed. */
  function LStripSpace(s: string): (t: string)
    ensures |t| <= |s| && t == s[|s| - |t|..]
    ensures |t| > 0 ==> !IsSpace(t[0])
  {
    if |s| > 0 && IsSpace(s[0]) then LStripSpace(s[1..]) else s
  }

  /** `[f(x) for x in xs]` */
  function Map<A, B>(f: A -> B, xs: seq<A>): (r: seq<B>)
    ensures |r| == |xs|
    ensures forall k :: 0 <= k < |xs| ==> r[k] == f(xs[k])
  {
    if |xs| == 0 then [] else [f(xs[0])] + Map(f, xs[1..])
  }

  /** A suffix of the last part is a suffix of the whole. */
  lemma EndsWithConcat(x: string, y: string, u: string)
    requires EndsWith(y, u)
    ensures EndsWith(x + y, u)
  {
    assert (x + y)[|x + y| - |u|..] == y[|y| - |u|..];
  }

  /** A suffix of a suffix is a suffix. */
  lemma EndsWithTrans(s: string, t: string, u: string)
    requires EndsWith(s, t) && EndsWith(t, u)
    ensures EndsWith(s, u)
  {
    assert s[|s| - |u|..] == s[|s| - |t|..][|t| - |u|..];
  }

  /** Mapping commutes with dropping a prefix. */
  lemma MapSuffix<A, B>(f: A -> B, xs: seq<A>, k: nat)
    requires k <= |xs|
    ensures Map(f, xs)[k..] == Map(f, xs[k..])
  {
  }

  /** A prefix one element longer is the shorter prefix followed by that element. */
  lemma PrefixSnoc<T>(xs: seq<T>, i: nat)
    requires i < |xs|
    ensures xs[..i + 1] == xs[..i] + [xs[i]]
  {
  }

  /** A sequence that agrees with `f` applied at every index is the map of `f`. */
  lemma MapPointwise<A, B>(f: A -> B, xs: seq<A>, ys: seq<B>)
    requires |ys| == |xs|
    requires forall k :: 0 <= k < |xs| ==> ys[k] == f(xs[k])
    ensures ys == Map(f, xs)
  {
  }

  /** Mapping a prefix one element longer appends that element's image. */
  lemma MapPrefix<A, B>(f: A -> B, xs: seq<A>, k: nat)
    requires k < |xs|
    ensures Map(f, xs[..k + 1]) == Map(f, xs[..k]) + [f(xs[k])]
  {
    var l, r := Map(f, xs[..k + 1]), Map(f, xs[..k]) + [f(xs[k])];
    assert |l| == |r|;
    forall i | 0 <= i < |l|
      ensures l[i] == r[i]
    {
      if i < k {
        assert xs[..k + 1][i] == xs[..k][i];
      }
    }
  }

  // ----------------------------------------------------------------------
  // Deduplication through a `seen` set

  predicate NoDuplicates<T(==)>(xs: seq<T>)
  {
    forall i, j :: 0 <= i < j < |xs| ==> xs[i] != xs[j]
  }

  /** The elements of `xs`, each kept where it is first seen. */
  function Dedup<T(==)>(xs: seq<T>): seq<T>
    decreases |xs|
  {
    if |xs| == 0 then []
    else
      var d := Dedup(xs[..|xs| - 1]);
      if xs[|xs| - 1] in d then d else d + [xs[|xs| - 1]]
  }

  /** Deduplication keeps exactly the elements it was given, and each once. */
  lemma {:induction false} DedupElements<T(!new)>(xs: seq<T>)
    ensures forall x :: x in Dedup(xs) <==> x in xs
    ensures NoDuplicates(Dedup(xs))
    decreases |xs|
  {
    if |xs| > 0 {
      var init, x := xs[..|xs| - 1], xs[|xs| - 1];
      assert xs == init + [x];
      DedupElements(init);
    }
  }

  /** The first element is always kept, in front. */
  lemma {:induction false} DedupHead<T>(xs: seq<T>)
    requires |xs| > 0
    ensures |Dedup(xs)| > 0 && Dedup(xs)[0] == xs[0]
    decreases |xs|
  {
    if |xs| > 1 {
      var init := xs[..|xs| - 1];
      DedupHead(init);
    }
  }

  /** Deduplication never lengthens. */
  lemma {:induction false} DedupLength<T>(xs: seq<T>)
    ensures |Dedup(xs)| <= |xs|
    decreases |xs|
  {
    if |xs| > 0 {
      DedupLength(xs[..|xs| - 1]);
    }
  }

  /** Deduplicating and then mapping: every result is the image of an input, and every input's image is there. */
  lemma MapDedup<A(!new), B>(f: A -> B, xs: seq<A>)
    ensures |Map(f, Dedup(xs))| == |Dedup(xs)|
    ensures forall k :: 0 <= k < |Dedup(xs)| ==> Dedup(xs)[k] in xs && Map(f, Dedup(xs))[k] == f(Dedup(xs)[k])
    ensures forall x :: x in xs ==> f(x) in Map(f, Dedup(xs))
  {
    var d := Dedup(xs);
    DedupElements(xs);
    forall x | x in xs
      ensures f(x) in Map(f, d)
    {
      var k :| 0 <= k < |d| && d[k] == x;
      assert Map(f, d)[k] == f(x);
    }
    forall k | 0 <= k < |d|
      ensures d[k] in xs
    {
      assert d[k] in d;
    }
  }

  /** Three distinct elements at the end of a run survive deduplication, so their images are all in the result. */
  lemma DistinctTailKept<A(!new), B>(f: A -> B, xs: seq<A>, tail: seq<A>)
    requires |tail| == 3 && NoDuplicates(tail)
    requires |xs| >= 3 && xs[|xs| - 3..] == tail
    ensures |Map(f, Dedup(xs))| >= 3
    ensures forall x :: x in tail ==> f(x) in Map(f, Dedup(xs))
  {
    var d := Dedup(xs);
    DedupElements(xs);
    MapDedup(f, xs);
    assert tail[0] in xs && tail[1] in xs && tail[2] in xs by {
      assert tail[0] == xs[|xs| - 3] && tail[1] == xs[|xs| - 2] && tail[2] == xs[|xs| - 1];
    }
    assert tail[0] != tail[1] && tail[0] != tail[2] && tail[1] != tail[2];
    var i0 :| 0 <= i0 < |d| && d[i0] == tail[0];
    var i1 :| 0 <= i1 < |d| && d[i1] == tail[1];
    var i2 :| 0 <= i2 < |d| && d[i2] == tail[2];
  }

  /** One more element: kept at the end exactly when it is new. */
  lemma DedupSnoc<T>(xs: seq<T>, x: T)
    ensures Dedup(xs + [x]) == if x in Dedup(xs) then Dedup(xs) else Dedup(xs) + [x]
  {
    assert (xs + [x])[..|xs|] == xs;
  }

  lemma {:induction false} IndexOfElemSnoc<T>(xs: seq<T>, x: T, y: T)
    requires y in xs
    ensures IndexOfElem(xs + [x], y) == IndexOfElem(xs, y)
  {
    assert (xs + [x])[0] == xs[0];
    if xs[0] != y {
      assert (xs + [x])[1..] == xs[1..] + [x];
      IndexOfElemSnoc(xs[1..], x, y);
    }
  }

  /** Every element of `d` is seen in `xs` before the first occurrence of any later element of `d`. */
  predicate SeenInOrder<T(==)>(xs: seq<T>, d: seq<T>)
  {
    forall i, j :: 0 <= i < j < |d| && d[j] in xs ==> d[i] in xs[..IndexOfElem(xs, d[j]).value]
  }

  lemma SeenInOrderSnocOld<T>(init: seq<T>, x: T, d: seq<T>)
    requires SeenInOrder(init, d)
    requires forall k :: 0 <= k < |d| ==> d[k] in init
    ensures SeenInOrder(init + [x], d)
  {
    var xs := init + [x];
    forall i, j | 0 <= i < j < |d| && d[j] in xs
      ensures d[i] in xs[..IndexOfElem(xs, d[j]).value]
    {
      IndexOfElemSnoc(init, x, d[j]);
      var k := IndexOfElem(init, d[j]).value;
      assert xs[..k] == init[..k];
    }
  }

  lemma SeenInOrderSnocNew<T>(init: seq<T>, x: T, d: seq<T>)
    requires SeenInOrder(init + [x], d)
    requires forall k :: 0 <= k < |d| ==> d[k] in init
    requires x !in init
    ensures SeenInOrder(init + [x], d + [x])
  {
    var xs := init + [x];
    assert IndexOfElem(xs, x).value == |init| by {
      assert xs[|init|] == x;
    }
    assert xs[..|init|] == init;
  }

  /** Deduplication keeps first-seen order. */
  lemma {:induction false} DedupFirstSeenOrder<T(!new)>(xs: seq<T>)
    ensures SeenInOrder(xs, Dedup(xs))
    decreases |xs|
  {
    if |xs| > 0 {
      var init, x := xs[..|xs| - 1], xs[|xs| - 1];
      assert xs == init + [x];
      DedupFirstSeenOrder(init);
      DedupElements(init);
      var d0 := Dedup(init);
      assert forall k :: 0 <= k < |d0| ==> d0[k] in init;
      SeenInOrderSnocOld(init, x, d0);
      if x !in d0 {
        SeenInOrderSnocNew(init, x, d0);
      }
    }
  }

  /** Deduplication keeps one element per distinct value. */
  lemma {:induction false} DedupCount<T(!new)>(xs: seq<T>)
    ensures |Dedup(xs)| == |set x | x in xs|
    decreases |xs|
  {
    if |xs| > 0 {
      var init, x := xs[..|xs| - 1], xs[|xs| - 1];
      assert xs == init + [x];
      DedupCount(init);
      DedupElements(init);
      assert (set y | y in xs) == (set y | y in init) + {x};
      if x !in init {
        assert (set y | y in init) !! {x};
      } else {
        assert (set y | y in xs) == (set y | y in init);
      }
    }
  }

  // ----------------------------------------------------------------------
  // Appending, for each element in turn, what it produces

  /** `for x in xs: out += f(x)` */
  function FlatMap<A, B>(f: A -> seq<B>, xs: seq<A>): (r: seq<B>)
    ensures forall k :: 0 <= k < |xs| ==> forall y :: y in f(xs[k]) ==> y in r
    decreases |xs|
  {
    if |xs| == 0 then [] else FlatMap(f, xs[..|xs| - 1]) + f(xs[|xs| - 1])
  }

  lemma FlatMapThree<A, B>(f: A -> seq<B>, x: A, y: A, z: A)
    ensures FlatMap(f, [x, y, z]) == f(x) + f(y) + f(z)
  {
    var xs := [x, y, z];
    assert xs[..2] == [x, y];
    assert [x, y][..1] == [x];
    assert [x][..0] == [];
    assert FlatMap(f, [x]) == f(x);
    assert FlatMap(f, [x, y]) == f(x) + f(y);
  }

  lemma FlatMapStep<A, B>(f: A -> seq<B>, xs: seq<A>, i: nat)
    requires i < |xs|
    ensures FlatMap(f, xs[..i + 1]) == FlatMap(f, xs[..i]) + f(xs[i])
  {
    assert xs[..i + 1][..i] == xs[..i];
  }

  /** Whatever `FlatMap` produces comes from some element. */
  lemma {:induction false} FlatMapFrom<A, B>(f: A -> seq<B>, xs: seq<A>, y: B)
    requires y in FlatMap(f, xs)
    ensures exists k :: 0 <= k < |xs| && y in f(xs[k])
    decreases |xs|
  {
    var n := |xs| - 1;
    if y !in f(xs[n]) {
      FlatMapFrom(f, xs[..n], y);
      var k :| 0 <= k < n && y in f(xs[..n][k]);
      assert xs[..n][k] == xs[k];
    }
  }

  /** `f` produces exactly `m` elements for every input: `FlatMap` produces `m` per element. */
  lemma {:induction false} FlatMapLength<A, B>(f: A -> seq<B>, xs: seq<A>, m: nat)
    requires forall x :: |f(x)| == m
    ensures |FlatMap(f, xs)| == m * |xs|
    decreases |xs|
  {
    if |xs| > 0 {
      FlatMapLength(f, xs[..|xs| - 1], m);
    }
  }

  /**
   * `for x in xs: out += f(x)` where `f` may raise: the first raise ends
   * the whole loop.
   */
  function FlatMapR<A, B>(f: A -> Result<seq<B>>, xs: seq<A>): Result<seq<B>>
    decreases |xs|
  {
    if |xs| == 0 then Success([])
    else match FlatMapR(f, xs[..|xs| - 1])
      case Failure => Failure
      case Success(init) =>
        match f(xs[|xs| - 1])
        case Failure => Failure
        case Success(last) => Success(init + last)
  }

  lemma FlatMapRStep<A, B>(f: A -> Result<seq<B>>, xs: seq<A>, i: nat)
    requires i < |xs|
    ensures FlatMapR(f, xs[..i + 1]) ==
      match FlatMapR(f, xs[..i])
      case Failure => Failure
      case Success(init) => (match f(xs[i]) case Failure => Failure case Success(last) => Success(init + last))
  {
    assert xs[..i + 1][..i] == xs[..i];
  }

  /** The loop succeeds exactly when `f` succeeds on every element, and then produces what `FlatMap` would. */
  lemma {:induction false} FlatMapRSuccess<A, B>(f: A -> Result<seq<B>>, xs: seq<A>)
    ensures FlatMapR(f, xs).Success? <==> forall k :: 0 <= k < |xs| ==> f(xs[k]).Success?
    ensures FlatMapR(f, xs).Success? ==> FlatMapR(f, xs).value == FlatMap(x => if f(x).Success? then f(x).value else [], xs)
    decreases |xs|
  {
    if |xs| > 0 {
      var n := |xs| - 1;
      FlatMapRSuccess(f, xs[..n]);
      assert forall k :: 0 <= k < n ==> xs[..n][k] == xs[k];
    }
  }

  /** When every success has `m` elements, a successful run has `m` per element. */
  lemma {:induction false} FlatMapRLength<A, B>(f: A -> Result<seq<B>>, xs: seq<A>, m: nat)
    requires forall x :: f(x).Success? ==> |f(x).value| == m
    ensures FlatMapR(f, xs).Success? ==> |FlatMapR(f, xs).value| == m * |xs|
    decreases |xs|
  {
    if |xs| > 0 {
      FlatMapRLength(f, xs[..|xs| - 1], m);
    }
  }
}
