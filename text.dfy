/** The few Python `str` operations the watcher relies on, over strings as
    sequences of Unicode scalar values: `strip()`, `split(",")`,
    `sep.join(parts)`, `splitlines()` and `startswith`. */
module Text {

  /** Python's `str.isspace` for one character. */
  predicate IsSpace(c: char) {
    || c == ' '
    || ('\t' <= c <= '\r')
    || ('\U{1C}' <= c <= '\U{1F}')
    || c == '\U{85}' || c == '\U{A0}' || c == '\U{1680}'
    || ('\U{2000}' <= c <= '\U{200A}')
    || c == '\U{2028}' || c == '\U{2029}' || c == '\U{202F}' || c == '\U{205F}' || c == '\U{3000}'
  }

  predicate AllSpace(s: string) {
    forall k :: 0 <= k < |s| ==> IsSpace(s[k])
  }

  /** `s.lstrip()`: the longest suffix of `s` that does not start with whitespace. */
  function TrimStart(s: string): (r: string)
    ensures |r| <= |s| && r == s[|s| - |r|..]
    ensures forall k :: 0 <= k < |s| - |r| ==> IsSpace(s[k])
    ensures r != [] ==> !IsSpace(r[0])
  {
    if s != [] && IsSpace(s[0]) then TrimStart(s[1..]) else s
  }

  /** `s.rstrip()`: the longest prefix of `s` that does not end with whitespace. */
  function TrimEnd(s: string): (r: string)
    ensures |r| <= |s| && r == s[..|r|]
    ensures forall k :: |r| <= k < |s| ==> IsSpace(s[k])
    ensures r != [] ==> !IsSpace(r[|r| - 1])
  {
    if s != [] && IsSpace(s[|s| - 1]) then TrimEnd(s[..|s| - 1]) else s
  }

  /** `r` is the piece `s[i..i + |r|]` of `s`, with only whitespace before
      and after it. */
  predicate StrippedAt(s: string, i: int, r: string) {
    && 0 <= i <= |s| - |r| && r == s[i..i + |r|]
    && (forall k :: 0 <= k < i ==> IsSpace(s[k]))
    && (forall k :: i + |r| <= k < |s| ==> IsSpace(s[k]))
  }

  /** A prefix of the suffix of `s` from `i` is the slice of `s` from `i`. */
  lemma PrefixOfSuffix(s: string, i: nat, r: string)
    requires i <= |s| && |r| <= |s| - i && r == s[i..][..|r|]
    ensures r == s[i..i + |r|]
  {
  }

  /** Whitespace after a prefix `r` of the suffix `t` of `s` is whitespace of `s`. */
  lemma SpaceAfterPrefix(s: string, i: nat, t: string, r: string)
    requires i <= |s| && t == s[i..] && |r| <= |t|
    requires forall k :: |r| <= k < |t| ==> IsSpace(t[k])
    ensures forall k :: i + |r| <= k < |s| ==> IsSpace(s[k])
  {
    forall k | i + |r| <= k < |s| ensures IsSpace(s[k]) {
      assert s[k] == t[k - i];
    }
  }

  /** A whitespace-free-ended piece: the suffix `t` of `s` after leading
      whitespace, then the prefix `r` of `t` before trailing whitespace. */
  lemma PieceOfSuffix(s: string, t: string, r: string)
    requires |t| <= |s| && t == s[|s| - |t|..]
    requires forall k :: 0 <= k < |s| - |t| ==> IsSpace(s[k])
    requires |r| <= |t| && r == t[..|r|]
    requires forall k :: |r| <= k < |t| ==> IsSpace(t[k])
    ensures StrippedAt(s, |s| - |t|, r)
  {
    PrefixOfSuffix(s, |s| - |t|, r);
    SpaceAfterPrefix(s, |s| - |t|, t, r);
  }

  /** Trimming both ends leaves a piece of `s` with only whitespace around it. */
  lemma TrimmedIsStripped(s: string)
    ensures StrippedAt(s, |s| - |TrimStart(s)|, TrimEnd(TrimStart(s)))
  {
    PieceOfSuffix(s, TrimStart(s), TrimEnd(TrimStart(s)));
  }

  /** `s.strip()`: a contiguous piece of `s` with only whitespace around it,
      itself neither starting nor ending with whitespace. */
  function Strip(s: string): (r: string)
    ensures exists i :: StrippedAt(s, i, r)
    ensures r != [] ==> !IsSpace(r[0]) && !IsSpace(r[|r| - 1])
  {
    TrimmedIsStripped(s);
    var t := TrimStart(s);
    var r := TrimEnd(t);
    assert r != [] ==> r[0] == t[0];
    r
  }

  /** Stripping yields the empty string exactly when the input is all whitespace. */
  lemma StripEmptyIffAllSpace(s: string)
    ensures Strip(s) == [] <==> AllSpace(s)
  {
    var r := Strip(s);
    var i :| StrippedAt(s, i, r);
    if r == [] {
      assert s == s[..i] + s[i..];
      forall k | 0 <= k < |s| ensures IsSpace(s[k]) {
        if k < i { assert s[k] == s[..i][k]; } else { assert s[k] == s[i..][k - i]; }
      }
    } else {
      assert r[0] == s[i];
    }
  }

  /** A text that neither starts nor ends with whitespace is left as it is. */
  lemma StripUnpadded(s: string)
    requires s != [] && !IsSpace(s[0]) && !IsSpace(s[|s| - 1])
    ensures Strip(s) == s
  {
    assert TrimStart(s) == s;
    assert TrimEnd(s) == s;
  }

  /** Stripping never introduces a character. */
  lemma StripKeepsOut(s: string, c: char)
    requires c !in s
    ensures c !in Strip(s)
  {
    var r := Strip(s);
    var i :| StrippedAt(s, i, r);
    assert r == s[i..i + |r|];
    assert c !in s[i..];
  }

  /** The index of the first occurrence of `c` in `s`. */
  function IndexOf(s: string, c: char): (i: nat)
    requires c in s
    ensures i < |s| && s[i] == c && c !in s[..i]
  {
    if s[0] == c then 0 else 1 + IndexOf(s[1..], c)
  }

  /** The first occurrence is the only one before any later occurrence:
      after a separator-free head, the separator found is the one that follows it. */
  lemma IndexOfAfterFreeHead(head: string, c: char, rest: string)
    requires c !in head
    ensures IndexOf(head + [c] + rest, c) == |head|
  {
    var s := head + [c] + rest;
    assert s[..|head|] == head;
    assert s[|head|] == c;
  }

  /** Python's `s.split(sep)` for a one-character separator: always at least
      one piece, no piece contains the separator. */
  function Split(s: string, sep: char): (r: seq<string>)
    ensures |r| >= 1
    ensures forall k :: 0 <= k < |r| ==> sep !in r[k]
    decreases |s|
  {
    if sep !in s then [s]
    else
      var i := IndexOf(s, sep);
      [s[..i]] + Split(s[i + 1..], sep)
  }

  /** Python's `sep.join(parts)`. */
  function Join(sep: string, parts: seq<string>): (r: string)
  {
    if |parts| == 0 then ""
    else if |parts| == 1 then parts[0]
    else parts[0] + sep + Join(sep, parts[1..])
  }

  /** `s` is what comes before index `i`, the character at `i`, and what follows. */
  lemma Around(s: string, i: nat)
    requires i < |s|
    ensures s == s[..i] + [s[i]] + s[i + 1..]
  {
  }

  /** Joining a head in front of at least one more part. */
  lemma JoinCons(sep: string, head: string, rest: seq<string>)
    requires |rest| >= 1
    ensures Join(sep, [head] + rest) == head + sep + Join(sep, rest)
  {
    assert ([head] + rest)[1..] == rest;
  }

  /** Joining the pieces of a split with the separator gives the input back. */
  lemma {:induction false} JoinSplit(s: string, sep: char)
    ensures Join([sep], Split(s, sep)) == s
    decreases |s|
  {
    if sep in s {
      var i := IndexOf(s, sep);
      JoinSplit(s[i + 1..], sep);
      JoinCons([sep], s[..i], Split(s[i + 1..], sep));
      Around(s, i);
    }
  }

  /** Splitting a join of separator-free pieces gives the pieces back. */
  lemma {:induction false} SplitJoin(parts: seq<string>, sep: char)
    requires |parts| >= 1
    requires forall k :: 0 <= k < |parts| ==> sep !in parts[k]
    ensures Split(Join([sep], parts), sep) == parts
  {
    if |parts| > 1 {
      var rest := Join([sep], parts[1..]);
      SplitJoin(parts[1..], sep);
      IndexOfAfterFreeHead(parts[0], sep, rest);
      var s := parts[0] + [sep] + rest;
      assert s[..|parts[0]|] == parts[0];
      assert s[|parts[0]| + 1..] == rest;
    }
  }

  /** There is one more piece than there are separators. */
  lemma {:induction false} SplitCount(s: string, sep: char)
    ensures |Split(s, sep)| == multiset(s)[sep] + 1
    decreases |s|
  {
    if sep in s {
      var i := IndexOf(s, sep);
      SplitCount(s[i + 1..], sep);
      assert s == s[..i] + [sep] + s[i + 1..];
      assert multiset(s) == multiset(s[..i]) + multiset([sep]) + multiset(s[i + 1..]);
    } else {
      assert multiset(s)[sep] == 0;
    }
  }

  /** Python's `s.startswith(prefix)`. */
  predicate StartsWith(s: string, prefix: string) {
    |prefix| <= |s| && s[..|prefix|] == prefix
  }

  /** The line boundaries of Python's `str.splitlines`. */
  predicate IsLineBreak(c: char) {
    || c == '\n' || c == '\r' || c == '\U{0B}' || c == '\U{0C}'
    || c == '\U{1C}' || c == '\U{1D}' || c == '\U{1E}'
    || c == '\U{85}' || c == '\U{2028}' || c == '\U{2029}'
  }

  predicate LineFree(s: string) {
    forall k :: 0 <= k < |s| ==> !IsLineBreak(s[k])
  }

  /** The index of the first line boundary in `s`. */
  function FirstBreak(s: string): (i: nat)
    requires !LineFree(s)
    ensures i < |s| && IsLineBreak(s[i]) && LineFree(s[..i])
  {
    if IsLineBreak(s[0]) then 0
    else
      var j := FirstBreak(s[1..]);
      assert s[..j + 1] == [s[0]] + s[1..][..j];
      1 + j
  }

  /** After a line-free head, the first boundary is the first character past it. */
  lemma FirstBreakAfterFreeHead(head: string, rest: string)
    requires LineFree(head) && rest != [] && IsLineBreak(rest[0])
    ensures !LineFree(head + rest) && FirstBreak(head + rest) == |head|
  {
    var s := head + rest;
    assert IsLineBreak(s[|head|]);
    assert s[..|head|] == head;
  }

  /** A head with a boundary keeps its first boundary whatever follows it. */
  lemma FirstBreakInHead(head: string, rest: string)
    requires !LineFree(head)
    ensures !LineFree(head + rest) && FirstBreak(head + rest) == FirstBreak(head)
  {
    var s := head + rest;
    var j := FirstBreak(head);
    assert s[j] == head[j];
    assert s[..j] == head[..j];
  }

  /** Python's `s.splitlines()`: the lines between boundaries, no boundary
      kept, `"\r\n"` counted as one boundary and no empty last line after a
      final boundary. */
  function SplitLines(s: string): (r: seq<string>)
    ensures forall k :: 0 <= k < |r| ==> LineFree(r[k])
    ensures s == [] <==> r == []
    ensures s != [] && LineFree(s) ==> r == [s]
    decreases |s|
  {
    if s == [] then []
    else if LineFree(s) then [s]
    else
      var i := FirstBreak(s);
      var next := if s[i] == '\r' && i + 1 < |s| && s[i + 1] == '\n' then i + 2 else i + 1;
      [s[..i]] + SplitLines(s[next..])
  }

  /** A line-free head followed by `"\n"` is the first line. */
  lemma SplitLinesAfterLine(line: string, rest: string)
    requires LineFree(line)
    ensures SplitLines(line + "\n" + rest) == [line] + SplitLines(rest)
  {
    var s := line + "\n" + rest;
    FirstBreakAfterFreeHead(line, "\n" + rest);
    assert line + ("\n" + rest) == s;
    assert s[..|line|] == line;
    assert s[|line| + 1..] == rest;
  }

  /** A line-free head followed by any boundary is the first line; after a
      `"\r"`, a `"\n"` right behind it belongs to the same boundary. */
  lemma SplitLinesAfterBreak(line: string, b: char, rest: string)
    requires LineFree(line) && IsLineBreak(b)
    ensures SplitLines(line + [b] + rest)
            == [line] + SplitLines(if b == '\r' && rest != [] && rest[0] == '\n' then rest[1..] else rest)
  {
    var s := line + [b] + rest;
    FirstBreakAfterFreeHead(line, [b] + rest);
    assert line + ([b] + rest) == s;
    assert s[..|line|] == line;
    assert s[|line|] == b;
    assert s[|line| + 1..] == rest;
    if b == '\r' && rest != [] && rest[0] == '\n' {
      assert s[|line| + 2..] == rest[1..];
    }
  }

  /** When `s` has a boundary, its first line is what precedes that boundary. */
  lemma FirstLine(s: string)
    requires !LineFree(s)
    ensures |SplitLines(s)| >= 1 && SplitLines(s)[0] == s[..FirstBreak(s)]
  {
  }

  /** Lines each followed by `"\n"`, as a file of lines is written. */
  function Terminated(lines: seq<string>): string {
    if lines == [] then "" else lines[0] + "\n" + Terminated(lines[1..])
  }

  /** `splitlines` inverts writing line-free lines each followed by `"\n"`. */
  lemma {:induction false} SplitLinesOfTerminated(lines: seq<string>)
    requires forall k :: 0 <= k < |lines| ==> LineFree(lines[k])
    ensures SplitLines(Terminated(lines)) == lines
  {
    if lines != [] {
      SplitLinesOfTerminated(lines[1..]);
      SplitLinesAfterLine(lines[0], Terminated(lines[1..]));
    }
  }
}
