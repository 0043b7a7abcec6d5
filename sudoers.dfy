/**
 * Rendering of one sudoers rule: `sudo_escape`, `join_command` and the fixed
 * `<user> ALL=(ALL) NOPASSWD: SETENV: ` head every rule line starts with.
 *
 * The partner of the escaping is `Words`, the way sudoers reads a command
 * line back: a backslash takes the next character literally and an
 * unescaped space ends an argument.  `JoinCommandRoundTrip` proves that
 * reading a joined command recovers exactly the command and its arguments
 * (plus the trailing `*` when one was asked for).
 */
module Sudoers {
  import opened Text

  /** `sudo_escape`: three `str.replace` passes, in the source's order. */
  function SudoEscape(s: string): string
  {
    ReplaceChar(ReplaceChar(ReplaceChar(s, '\\', "\\\\"), ' ', "\\ "), ':', "\\:")
  }

  /** How one character is escaped. */
  function EscapeChar(c: char): string
  {
    if c == '\\' || c == ' ' || c == ':' then ['\\', c] else [c]
  }

  /** Character-by-character escaping. */
  function EscapeEach(s: string): string
  {
    if |s| == 0 then "" else EscapeChar(s[0]) + EscapeEach(s[1..])
  }

  lemma {:induction false} ReplaceCharConcat(a: string, b: string, c: char, r: string)
    ensures ReplaceChar(a + b, c, r) == ReplaceChar(a, c, r) + ReplaceChar(b, c, r)
    decreases |a|
  {
    if |a| == 0 {
      assert a + b == b;
    } else {
      assert (a + b)[1..] == a[1..] + b;
      ReplaceCharConcat(a[1..], b, c, r);
    }
  }

  lemma ReplaceCharAbsent(s: string, c: char, r: string)
    requires c !in s
    ensures ReplaceChar(s, c, r) == s
  {
    if |s| > 0 {
      ReplaceCharAbsent(s[1..], c, r);
    }
  }

  lemma ReplaceCharOne(x: char, c: char, r: string)
    ensures ReplaceChar([x], c, r) == if x == c then r else [x]
  {
    assert [x][1..] == "";
  }

  /** The three passes distribute over concatenation. */
  lemma SudoEscapeConcat(a: string, b: string)
    ensures SudoEscape(a + b) == SudoEscape(a) + SudoEscape(b)
  {
    ReplaceCharConcat(a, b, '\\', "\\\\");
    var a1 := ReplaceChar(a, '\\', "\\\\");
    var a2 := ReplaceChar(b, '\\', "\\\\");
    ReplaceCharConcat(a1, a2, ' ', "\\ ");
    ReplaceCharConcat(ReplaceChar(a1, ' ', "\\ "), ReplaceChar(a2, ' ', "\\ "), ':', "\\:");
  }

  /** The three passes escape one character as `EscapeChar` does. */
  lemma SudoEscapeOne(x: char)
    ensures SudoEscape([x]) == EscapeChar(x)
  {
    ReplaceCharOne(x, '\\', "\\\\");
    if x == '\\' {
      ReplaceCharAbsent("\\\\", ' ', "\\ ");
      ReplaceCharAbsent("\\\\", ':', "\\:");
    } else {
      ReplaceCharOne(x, ' ', "\\ ");
      if x == ' ' {
        ReplaceCharAbsent("\\ ", ':', "\\:");
      } else {
        ReplaceCharOne(x, ':', "\\:");
      }
    }
  }

  /** The three passes agree with escaping each character on its own. */
  lemma {:induction false} SudoEscapeIsEscapeEach(s: string)
    ensures SudoEscape(s) == EscapeEach(s)
    decreases |s|
  {
    if |s| > 0 {
      assert s == [s[0]] + s[1..];
      SudoEscapeConcat([s[0]], s[1..]);
      SudoEscapeOne(s[0]);
      SudoEscapeIsEscapeEach(s[1..]);
    }
  }

  /**
   * sudoers' reading of a command line: `cur` is the argument being read;
   * a backslash takes the next character literally; a space ends an argument.
   */
  function WordsFrom(s: string, cur: string): (r: seq<string>)
    ensures |r| >= 1
    decreases |s|
  {
    if |s| == 0 then [cur]
    else if s[0] == '\\' && |s| >= 2 then WordsFrom(s[2..], cur + [s[1]])
    else if s[0] == ' ' then [cur] + WordsFrom(s[1..], "")
    else WordsFrom(s[1..], cur + [s[0]])
  }

  function Words(s: string): seq<string>
  {
    WordsFrom(s, "")
  }

  /** Reading an escaped word appends exactly the unescaped word to the current argument. */
  lemma {:induction false} WordsFromEscaped(w: string, rest: string, cur: string)
    ensures WordsFrom(EscapeEach(w) + rest, cur) == WordsFrom(rest, cur + w)
    decreases |w|
  {
    if |w| == 0 {
      assert EscapeEach(w) + rest == rest;
      assert cur + w == cur;
    } else {
      var e := EscapeChar(w[0]);
      assert EscapeEach(w) + rest == e + (EscapeEach(w[1..]) + rest);
      WordsFromEscaped(w[1..], rest, cur + [w[0]]);
      assert cur + [w[0]] + w[1..] == cur + w;
      var s := e + (EscapeEach(w[1..]) + rest);
      if |e| == 2 {
        assert s[0] == '\\' && s[1] == w[0];
        assert s[2..] == EscapeEach(w[1..]) + rest;
      } else {
        assert s[0] == w[0] && s[0] != '\\' && s[0] != ' ';
        assert s[1..] == EscapeEach(w[1..]) + rest;
      }
    }
  }

  /** sudoers reads an escaped word back as that one word: dropping each escaping backslash recovers the input. */
  lemma SudoEscapeRoundTrip(w: string)
    ensures Words(SudoEscape(w)) == [w]
  {
    SudoEscapeIsEscapeEach(w);
    WordsFromEscaped(w, "", "");
    assert EscapeEach(w) + "" == EscapeEach(w);
    assert "" + w == w;
  }

  /** `" ".join(escaped parts)` */
  function JoinEscaped(parts: seq<string>): string
  {
    Join(Map(SudoEscape, parts), " ")
  }

  lemma JoinEscapedCons(parts: seq<string>)
    requires |parts| >= 2
    ensures JoinEscaped(parts) == EscapeEach(parts[0]) + " " + JoinEscaped(parts[1..])
  {
    SudoEscapeIsEscapeEach(parts[0]);
    assert Map(SudoEscape, parts)[1..] == Map(SudoEscape, parts[1..]);
  }

  lemma WordsFromSpace(x: string, cur: string)
    ensures WordsFrom(" " + x, cur) == [cur] + WordsFrom(x, "")
  {
    assert (" " + x)[1..] == x;
  }

  lemma {:induction false} WordsOfJoin(parts: seq<string>, tail: string)
    requires |parts| >= 1
    ensures WordsFrom(JoinEscaped(parts) + tail, "") == parts[..|parts| - 1] + WordsFrom(tail, parts[|parts| - 1])
    decreases |parts|
  {
    if |parts| == 1 {
      WordsOfJoinOne(parts, tail);
    } else {
      WordsOfJoin(parts[1..], tail);
      WordsOfJoinStep(parts, tail);
    }
  }

  lemma WordsOfJoinOne(parts: seq<string>, tail: string)
    requires |parts| == 1
    ensures WordsFrom(JoinEscaped(parts) + tail, "") == WordsFrom(tail, parts[0])
  {
    calc {
      WordsFrom(JoinEscaped(parts) + tail, "");
      { SudoEscapeIsEscapeEach(parts[0]); assert JoinEscaped(parts) == EscapeEach(parts[0]); }
      WordsFrom(EscapeEach(parts[0]) + tail, "");
      { WordsFromEscaped(parts[0], tail, ""); assert "" + parts[0] == parts[0]; }
      WordsFrom(tail, parts[0]);
    }
  }

  /** Reading the first escaped part and its space, given the reading of the rest. */
  lemma WordsOfJoinStep(parts: seq<string>, tail: string)
    requires |parts| >= 2
    requires WordsFrom(JoinEscaped(parts[1..]) + tail, "") == parts[1..][..|parts| - 2] + WordsFrom(tail, parts[|parts| - 1])
    ensures WordsFrom(JoinEscaped(parts) + tail, "") == parts[..|parts| - 1] + WordsFrom(tail, parts[|parts| - 1])
  {
    var rest := JoinEscaped(parts[1..]);
    JoinEscapedConsTail(parts, tail);
    WordsFromEscapedSpace(parts[0], rest + tail);
    HeadThenInit(parts);
    ConsAppend(parts[0], parts[1..][..|parts| - 2], WordsFrom(tail, parts[|parts| - 1]), parts[..|parts| - 1]);
  }

  lemma JoinEscapedConsTail(parts: seq<string>, tail: string)
    requires |parts| >= 2
    ensures JoinEscaped(parts) + tail == EscapeEach(parts[0]) + (" " + (JoinEscaped(parts[1..]) + tail))
  {
    JoinEscapedCons(parts);
  }

  lemma HeadThenInit<T>(xs: seq<T>)
    requires |xs| >= 2
    ensures [xs[0]] + xs[1..][..|xs| - 2] == xs[..|xs| - 1]
  {
  }

  lemma ConsAppend<T>(x: T, a: seq<T>, w: seq<T>, xs: seq<T>)
    requires [x] + a == xs
    ensures [x] + (a + w) == xs + w
  {
  }

  /** An escaped word followed by a space reads as that word, then a fresh argument. */
  lemma WordsFromEscapedSpace(w: string, x: string)
    ensures WordsFrom(EscapeEach(w) + (" " + x), "") == [w] + WordsFrom(x, "")
  {
    WordsFromEscaped(w, " " + x, "");
    assert "" + w == w;
    WordsFromSpace(x, w);
  }

  /** `join_command(cmd, args, allow_trailing_star)` */
  function JoinCommand(cmd: string, args: seq<string>, trailingStar: bool): string
  {
    JoinEscaped([cmd] + args) + (if trailingStar then " *" else "")
  }

  /**
   * sudoers reads a joined command back as exactly the command, its
   * arguments, and a final `*` argument when the trailing star was requested.
   */
  lemma JoinCommandRoundTrip(cmd: string, args: seq<string>, trailingStar: bool)
    ensures Words(JoinCommand(cmd, args, trailingStar)) == [cmd] + args + (if trailingStar then ["*"] else [])
  {
    var parts := [cmd] + args;
    var tail := if trailingStar then " *" else "";
    var last := parts[|parts| - 1];
    calc {
      Words(JoinCommand(cmd, args, trailingStar));
      WordsFrom(JoinEscaped(parts) + tail, "");
      { WordsOfJoin(parts, tail); }
      parts[..|parts| - 1] + WordsFrom(tail, last);
      { StarTail(last, trailingStar); }
      parts[..|parts| - 1] + ([last] + (if trailingStar then ["*"] else []));
      { assert parts == parts[..|parts| - 1] + [last]; }
      parts + (if trailingStar then ["*"] else []);
    }
  }

  /** The optional ` *` tail reads as one more `*` argument after the last one. */
  lemma StarTail(last: string, trailingStar: bool)
    ensures WordsFrom(if trailingStar then " *" else "", last) == [last] + (if trailingStar then ["*"] else [])
  {
    if trailingStar {
      WordsFromSpace("*", last);
      assert "*"[1..] == "" && "" + ['*'] == "*";
      assert WordsFrom("*", "") == WordsFrom("", "*");
    }
  }

  /** With the flag set the rendered command always ends in ` *`. */
  lemma JoinCommandTrailingStar(cmd: string, args: seq<string>)
    ensures EndsWith(JoinCommand(cmd, args, true), " *")
  {
  }

  /** The fixed head of every rule line. */
  function RuleHead(user: string): string
  {
    user + " ALL=(ALL) NOPASSWD: SETENV: "
  }

  /** One rule line: the head followed by a joined command. */
  function Rule(user: string, cmd: string, args: seq<string>, trailingStar: bool): (r: string)
    ensures StartsWith(r, RuleHead(user))
  {
    RuleHead(user) + JoinCommand(cmd, args, trailingStar)
  }

  /** After its head, a rule line reads back as exactly its command and arguments. */
  lemma RuleCommand(user: string, cmd: string, args: seq<string>, trailingStar: bool)
    ensures Words(Rule(user, cmd, args, trailingStar)[|RuleHead(user)|..]) == [cmd] + args + (if trailingStar then ["*"] else [])
  {
    var h := RuleHead(user);
    assert (h + JoinCommand(cmd, args, trailingStar))[|h|..] == JoinCommand(cmd, args, trailingStar);
    JoinCommandRoundTrip(cmd, args, trailingStar);
  }

  /** Two rules for the same user and command are the same line only when their arguments agree. */
  lemma RuleArgsDistinct(user: string, cmd: string, args1: seq<string>, args2: seq<string>)
    requires args1 != args2
    ensures Rule(user, cmd, args1, false) != Rule(user, cmd, args2, false)
  {
    RuleCommand(user, cmd, args1, false);
    RuleCommand(user, cmd, args2, false);
    assert ([cmd] + args1)[1..] == args1 && ([cmd] + args2)[1..] == args2;
    assert [cmd] + args1 + [] == [cmd] + args1 && [cmd] + args2 + [] == [cmd] + args2;
  }
}
