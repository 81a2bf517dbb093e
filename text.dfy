/**
 * The Kotlin/JVM string operations the parsers rely on, as functions on
 * `string` (a sequence of UTF-16 code units is approximated by `seq<char>`).
 */
module Text {

  /** Kotlin's `Char.isWhitespace()` on the JVM: Java whitespace or a Unicode space separator. */
  predicate IsWhitespace(c: char) {
    c == ' ' || ('\t' <= c <= '\r') || ('\U{1C}' <= c <= '\U{1F}')
    || c == '\U{A0}' || c == '\U{1680}' || ('\U{2000}' <= c <= '\U{200A}')
    || c == '\U{2028}' || c == '\U{2029}' || c == '\U{202F}' || c == '\U{205F}' || c == '\U{3000}'
  }

  /** The regular-expression class `\s` of java.util.regex: `[ \t\n\x0B\f\r]`. */
  predicate IsRegexSpace(c: char) {
    c == ' ' || ('\t' <= c <= '\r')
  }

  predicate NoRegexSpace(t: string) {
    forall k :: 0 <= k < |t| ==> !IsRegexSpace(t[k])
  }

  /** Leading part of `String.trim()`: drop whitespace from the front. */
  function TrimStart(s: string): (r: string)
    ensures |r| <= |s| && r == s[|s| - |r|..]
    ensures r == [] || !IsWhitespace(r[0])
  {
    if |s| > 0 && IsWhitespace(s[0]) then TrimStart(s[1..]) else s
  }

  /** Only whitespace is dropped from the front. */
  lemma {:induction false} TrimStartDropsWhitespace(s: string)
    ensures forall i :: 0 <= i < |s| - |TrimStart(s)| ==> IsWhitespace(s[i])
  {
    if |s| > 0 && IsWhitespace(s[0]) {
      TrimStartDropsWhitespace(s[1..]);
      assert forall i :: 1 <= i < |s| ==> s[i] == s[1..][i - 1];
    }
  }

  /** Trailing part of `String.trim()`: drop whitespace from the back. */
  function TrimEnd(s: string): (r: string)
    ensures |r| <= |s| && r == s[..|r|]
    ensures r == [] || !IsWhitespace(r[|r| - 1])
  {
    if |s| > 0 && IsWhitespace(s[|s| - 1]) then TrimEnd(s[..|s| - 1]) else s
  }

  /** Only whitespace is dropped from the back. */
  lemma {:induction false} TrimEndDropsWhitespace(s: string)
    ensures forall i :: |TrimEnd(s)| <= i < |s| ==> IsWhitespace(s[i])
  {
    if |s| > 0 && IsWhitespace(s[|s| - 1]) {
      TrimEndDropsWhitespace(s[..|s| - 1]);
    }
  }

  /** Kotlin `String.trim()`. */
  function Trim(s: string): (r: string)
    ensures |r| <= |s|
    ensures r == [] || (!IsWhitespace(r[0]) && !IsWhitespace(r[|r| - 1]))
  {
    TrimEnd(TrimStart(s))
  }

  /** A string that neither starts nor ends with whitespace is its own trim. */
  lemma TrimIdentity(s: string)
    requires s == [] || (!IsWhitespace(s[0]) && !IsWhitespace(s[|s| - 1]))
    ensures Trim(s) == s
  {
  }

  /** Kotlin `s.split(sep)` with a one-character delimiter: every occurrence splits, empty pieces are kept. */
  function SplitOn(s: string, sep: char): (r: seq<string>)
    ensures |r| >= 1
  {
    if |s| == 0 then [""]
    else
      var rest := SplitOn(s[1..], sep);
      if s[0] == sep then [""] + rest else [[s[0]] + rest[0]] + rest[1..]
  }

  /** No piece of a split holds the delimiter, and the pieces account for every other character. */
  lemma {:induction false} SplitOnPieces(s: string, sep: char)
    ensures forall i :: 0 <= i < |SplitOn(s, sep)| ==> sep !in SplitOn(s, sep)[i]
    ensures |SplitOn(s, sep)| == 1 + multiset(s)[sep]
  {
    if |s| > 0 {
      SplitOnPieces(s[1..], sep);
      assert s == [s[0]] + s[1..];
    }
  }

  /** Kotlin `parts.joinToString(sep)`: the inverse of SplitOn. */
  function Join(parts: seq<string>, sep: char): string
    requires |parts| > 0
  {
    if |parts| == 1 then parts[0] else parts[0] + [sep] + Join(parts[1..], sep)
  }

  lemma {:induction false} SplitOnWithout(a: string, sep: char)
    requires sep !in a
    ensures SplitOn(a, sep) == [a]
  {
    if |a| > 0 {
      SplitOnWithout(a[1..], sep);
      assert [a[0]] + a[1..] == a;
    }
  }

  lemma {:induction false} SplitOnFirst(a: string, sep: char, b: string)
    requires sep !in a
    ensures SplitOn(a + [sep] + b, sep) == [a] + SplitOn(b, sep)
  {
    if |a| == 0 {
      assert a + [sep] + b == [sep] + b;
      assert ([sep] + b)[1..] == b;
    } else {
      var s := a + [sep] + b;
      assert s[1..] == a[1..] + [sep] + b;
      SplitOnFirst(a[1..], sep, b);
      assert [a[0]] + a[1..] == a;
    }
  }

  /** Splitting a joined list on the joining character gives the list back, when no element contains it. */
  lemma {:induction false} SplitJoin(parts: seq<string>, sep: char)
    requires |parts| > 0
    requires forall i :: 0 <= i < |parts| ==> sep !in parts[i]
    ensures SplitOn(Join(parts, sep), sep) == parts
  {
    if |parts| == 1 {
      SplitOnWithout(parts[0], sep);
    } else {
      SplitJoin(parts[1..], sep);
      SplitOnFirst(parts[0], sep, Join(parts[1..], sep));
      assert [parts[0]] + parts[1..] == parts;
    }
  }

  lemma {:induction false} JoinWithout(parts: seq<string>, sep: char, c: char)
    requires |parts| > 0 && c != sep
    requires forall i :: 0 <= i < |parts| ==> c !in parts[i]
    ensures c !in Join(parts, sep)
  {
    if |parts| > 1 {
      JoinWithout(parts[1..], sep, c);
    }
  }

  /** Skip a run of `\s` characters. */
  function DropRegexSpaces(s: string): (r: string)
    ensures |r| <= |s|
  {
    if |s| > 0 && IsRegexSpace(s[0]) then DropRegexSpaces(s[1..]) else s
  }

  /**
   * Kotlin `s.split("\\s+".toRegex())`: split at every maximal run of `\s`;
   * Kotlin keeps the empty piece before a leading run and after a trailing run,
   * and splitting the empty string gives `[""]`.
   */
  function SplitWhitespace(s: string): (r: seq<string>)
    ensures |r| >= 1
    decreases |s|
  {
    if |s| == 0 then [""]
    else if IsRegexSpace(s[0]) then [""] + SplitWhitespace(DropRegexSpaces(s[1..]))
    else
      var rest := SplitWhitespace(s[1..]);
      [[s[0]] + rest[0]] + rest[1..]
  }

  /** No piece of a whitespace split holds a `\s` character. */
  lemma {:induction false} SplitWhitespacePieces(s: string)
    ensures forall i :: 0 <= i < |SplitWhitespace(s)| ==> NoRegexSpace(SplitWhitespace(s)[i])
    decreases |s|
  {
    if |s| > 0 {
      if IsRegexSpace(s[0]) {
        SplitWhitespacePieces(DropRegexSpaces(s[1..]));
      } else {
        SplitWhitespacePieces(s[1..]);
      }
    }
  }

  /** Kotlin `CharSequence.lines()`: split on "\r\n", "\n" and "\r"; a trailing terminator leaves an empty last line. */
  function Lines(s: string): (r: seq<string>)
    ensures |r| >= 1
  {
    if |s| == 0 then [""]
    else if s[0] == '\n' then [""] + Lines(s[1..])
    else if s[0] == '\r' then
      if |s| > 1 && s[1] == '\n' then [""] + Lines(s[2..]) else [""] + Lines(s[1..])
    else
      var rest := Lines(s[1..]);
      [[s[0]] + rest[0]] + rest[1..]
  }

  /** No line holds a line terminator. */
  lemma {:induction false} LinesPieces(s: string)
    ensures forall i :: 0 <= i < |Lines(s)| ==> '\n' !in Lines(s)[i] && '\r' !in Lines(s)[i]
  {
    if |s| > 1 && s[0] == '\r' && s[1] == '\n' {
      LinesPieces(s[2..]);
    } else if |s| > 0 {
      LinesPieces(s[1..]);
    }
  }

  /** `String.indexOf(c)`: the first position of `c`, or -1. */
  function IndexOf(s: string, c: char): (r: int)
    ensures -1 <= r < |s|
  {
    if |s| == 0 then -1
    else if s[0] == c then 0
    else
      var k := IndexOf(s[1..], c);
      if k < 0 then -1 else k + 1
  }

  /** `IndexOf` is -1 exactly when `c` is absent, and otherwise finds `c` with none before it. */
  lemma {:induction false} IndexOfSpec(s: string, c: char)
    ensures IndexOf(s, c) == -1 <==> c !in s
    ensures IndexOf(s, c) >= 0 ==> s[IndexOf(s, c)] == c && c !in s[..IndexOf(s, c)]
  {
    if |s| > 0 && s[0] != c {
      IndexOfSpec(s[1..], c);
      var k := IndexOf(s[1..], c);
      assert s == [s[0]] + s[1..];
      assert k >= 0 ==> s[..k + 1] == [s[0]] + s[1..][..k];
    }
  }

  /** `String.lastIndexOf(c)`: the last position of `c`, or -1. */
  function LastIndexOf(s: string, c: char): (r: int)
    ensures -1 <= r < |s|
  {
    if |s| == 0 then -1
    else if s[|s| - 1] == c then |s| - 1
    else LastIndexOf(s[..|s| - 1], c)
  }

  /** `LastIndexOf` is -1 exactly when `c` is absent, and otherwise finds `c` with none after it. */
  lemma {:induction false} LastIndexOfSpec(s: string, c: char)
    ensures LastIndexOf(s, c) == -1 <==> c !in s
    ensures LastIndexOf(s, c) >= 0 ==> s[LastIndexOf(s, c)] == c && c !in s[LastIndexOf(s, c) + 1..]
  {
    if |s| > 0 && s[|s| - 1] != c {
      var t := s[..|s| - 1];
      LastIndexOfSpec(t, c);
      var k := LastIndexOf(t, c);
      if k >= 0 {
        assert s[k] == t[k];
        forall i | k + 1 <= i < |s| ensures s[i] != c {
          if i < |t| {
            assert t[i] in t[k + 1..];
          }
        }
      } else {
        forall i | 0 <= i < |s| ensures s[i] != c {
          if i < |t| {
            assert t[i] in t;
          }
        }
      }
    }
  }

  /** A position holding the first `c` is what `IndexOf` finds. */
  lemma IndexOfAt(s: string, c: char, k: int)
    requires 0 <= k < |s| && s[k] == c && c !in s[..k]
    ensures IndexOf(s, c) == k
  {
    IndexOfSpec(s, c);
  }

  /** A position holding the last `c` is what `LastIndexOf` finds. */
  lemma LastIndexOfAt(s: string, c: char, k: int)
    requires 0 <= k < |s| && s[k] == c && c !in s[k + 1..]
    ensures LastIndexOf(s, c) == k
  {
    LastIndexOfSpec(s, c);
  }

  /** In `head(mid)tail`, with no `(` in `head` and no `)` in `tail`, the first `(` and the last `)` enclose `mid`. */
  lemma Bracketed(head: string, mid: string, tail: string)
    requires '(' !in head && ')' !in tail
    ensures var line := head + "(" + mid + ")" + tail;
      && IndexOf(line, '(') == |head|
      && LastIndexOf(line, ')') == |head| + 1 + |mid|
      && line[..|head|] == head
      && line[|head| + 1..|head| + 1 + |mid|] == mid
      && line[|head| + 1 + |mid| + 1..] == tail
      && (|tail| >= 1 ==> line[|head| + 1 + |mid| + 2..] == tail[1..])
  {
    var line := head + "(" + mid + ")" + tail;
    var open := |head|;
    var close := |head| + 1 + |mid|;
    assert line[..open] == head;
    IndexOfAt(line, '(', open);
    assert line[close + 1..] == tail;
    LastIndexOfAt(line, ')', close);
    assert |tail| >= 1 ==> line[close + 2..] == tail[1..];
    assert line[..close] == head + "(" + mid;
  }

  /** `s.startsWith(p)`. */
  predicate StartsWith(s: string, p: string) {
    |p| <= |s| && s[..|p|] == p
  }

  /** `s.endsWith(c.toString())`. */
  predicate EndsWithChar(s: string, c: char) {
    |s| > 0 && s[|s| - 1] == c
  }

  /** `s.contains(t)`: `t` occurs at some position of `s`. */
  predicate Contains(s: string, t: string) {
    StartsWith(s, t) || (|s| > 0 && Contains(s[1..], t))
  }

  /** `s.replace(c.toString(), "")`: every occurrence of `c` removed. */
  function RemoveChar(s: string, c: char): (r: string)
    ensures c !in r && |r| <= |s|
    ensures c !in s ==> r == s
  {
    if |s| == 0 then ""
    else if s[0] == c then RemoveChar(s[1..], c)
    else [s[0]] + RemoveChar(s[1..], c)
  }

  /** `s.trimEnd(c)`: drop every trailing `c`. */
  function TrimEndChar(s: string, c: char): (r: string)
    ensures |r| <= |s| && r == s[..|r|]
    ensures r == [] || r[|r| - 1] != c
  {
    if |s| > 0 && s[|s| - 1] == c then TrimEndChar(s[..|s| - 1], c) else s
  }

  /** `s.substringBefore(c.toString())`: the text before the first `c`, or all of `s` when it has none. */
  function SubstringBefore(s: string, c: char): (r: string)
    ensures c !in r
    ensures |r| <= |s| && r == s[..|r|]
    ensures |r| < |s| ==> s[|r|] == c
  {
    var k := IndexOf(s, c);
    IndexOfSpec(s, c);
    if k < 0 then s else s[..k]
  }

  /** Lower-casing of one character (ASCII letters only). */
  function LowerChar(c: char): char {
    if 'A' <= c <= 'Z' then (c as int + 32) as char else c
  }

  /** `s.lowercase()`, restricted to ASCII letters. */
  function Lowercase(s: string): (r: string)
    ensures |r| == |s|
    ensures forall i :: 0 <= i < |s| ==> r[i] == LowerChar(s[i])
  {
    seq(|s|, i requires 0 <= i < |s| => LowerChar(s[i]))
  }
}
