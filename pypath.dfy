/**
 * The POSIX `os.path` functions the generator relies on, as string
 * functions: `join`, `split`, `basename` and `splitext`.
 */
module PyPath {
  import opened Text

  /** `os.path.join(a, b)`: an absolute `b` discards `a`. */
  function PathJoin(a: string, b: string): (r: string)
    ensures StartsWith(b, "/") ==> r == b
    ensures EndsWith(r, b)
  {
    if StartsWith(b, "/") then b
    else if |a| == 0 || EndsWith(a, "/") then a + b
    else a + "/" + b
  }

  /** `os.path.join(a, b, c, ...)`, folded left to right. */
  function PathJoinAll(a: string, bs: seq<string>): string
    decreases |bs|
  {
    if |bs| == 0 then a else PathJoinAll(PathJoin(a, bs[0]), bs[1..])
  }

  /** `os.path.basename(p)`: everything after the last `/`. */
  function Basename(p: string): (r: string)
    ensures '/' !in r
    ensures EndsWith(p, r)
    ensures |r| < |p| ==> p[|p| - |r| - 1] == '/'
  {
    match LastIndexOfChar(p, '/')
    case None => p
    case Some(i) => p[i + 1..]
  }

  /** The directory part of `p` kept by `os.path.split`, before trailing slashes are stripped. */
  function DirPrefix(p: string): (r: string)
    ensures |r| + |Basename(p)| == |p| && r == p[..|r|]
  {
    p[..|p| - |Basename(p)|]
  }

  function RStripChar(s: string, c: char): (t: string)
    ensures |t| <= |s| && t == s[..|t|]
    ensures |t| > 0 ==> t[|t| - 1] != c
    ensures forall k :: |t| <= k < |s| ==> s[k] == c
    decreases |s|
  {
    if |s| > 0 && s[|s| - 1] == c then RStripChar(s[..|s| - 1], c) else s
  }

  /** `os.path.split(p)`: the head loses its trailing slashes unless it is all slashes. */
  function PathSplit(p: string): (r: (string, string))
    ensures r.1 == Basename(p)
    ensures |r.0| <= |p| && r.0 == p[..|r.0|]
  {
    var head := DirPrefix(p);
    var tail := Basename(p);
    if |head| > 0 && exists k :: 0 <= k < |head| && head[k] != '/' then (RStripChar(head, '/'), tail)
    else (head, tail)
  }

  predicate AllDots(t: string)
  {
    forall k :: 0 <= k < |t| ==> t[k] == '.'
  }

  /** Where `os.path.splitext` cuts `p`: the last dot of the last component, unless that component only starts with dots. */
  function ExtStart(p: string): (r: Option<nat>)
    ensures r.Some? ==> r.value < |p| && p[r.value] == '.' && '/' !in p[r.value..]
  {
    var name := Basename(p);
    match LastIndexOfChar(name, '.')
    case None => None
    case Some(d) =>
      if AllDots(name[..d]) then None
      else
        ExtStartFacts(p, name, d);
        Some(|p| - |name| + d)
  }

  lemma ExtStartFacts(p: string, name: string, d: nat)
    requires EndsWith(p, name) && '/' !in name && d < |name| && name[d] == '.'
    ensures |p| - |name| + d < |p| && p[|p| - |name| + d] == '.' && '/' !in p[|p| - |name| + d..]
  {
    var cut := |p| - |name| + d;
    assert p[cut..] == name[d..];
    assert forall k :: d <= k < |name| ==> name[k] in name;
  }

  /** `os.path.splitext(p)[0]`: `p` without its extension. */
  function SplitExtRoot(p: string): (r: string)
    ensures StartsWith(p, r)
    ensures |r| < |p| ==> p[|r|] == '.' && '/' !in p[|r|..]
  {
    match ExtStart(p)
    case None => p
    case Some(cut) => p[..cut]
  }

  /** Joining a relative name keeps the directory as the start of the path. */
  lemma PathJoinKeepsDir(a: string, b: string)
    requires !StartsWith(b, "/")
    ensures StartsWith(PathJoin(a, b), a)
  {
    assert PathJoin(a, b)[..|a|] == a;
  }

  /** Joining a name without `/` onto any directory, then taking the base name, gives the name back. */
  lemma BasenameOfJoin(a: string, name: string)
    requires |name| > 0 && '/' !in name
    ensures Basename(PathJoin(a, name)) == name
  {
    PathJoinSlashBefore(a, name);
    BasenameAfterSlash(PathJoin(a, name), name);
  }

  /** `PathJoin` puts a `/` right before a name it appends, unless the name is the whole result. */
  lemma PathJoinSlashBefore(a: string, name: string)
    requires |name| > 0 && '/' !in name
    ensures var r := PathJoin(a, name);
      EndsWith(r, name) && (|r| > |name| ==> r[|r| - |name| - 1] == '/')
  {
  }

  /** A suffix without `/` that is the whole string or follows a `/` is the base name. */
  lemma BasenameAfterSlash(r: string, name: string)
    requires '/' !in name && EndsWith(r, name)
    requires |r| > |name| ==> r[|r| - |name| - 1] == '/'
    ensures Basename(r) == name
  {
    var base := Basename(r);
    if |base| != |name| {
      assert false;
    }
    assert base == r[|r| - |name|..] == name;
  }
}
