/**
 * The unprivileged fallback of the monitor service: a heuristic parser for
 * the text printed by `top -bn1` (`MonitorService.parseFallbackTop`).
 * `String.toDoubleOrNull` is not modelled; it is the parameter `toDouble`.
 */
module FallbackTop {
  import opened Wrappers
  import opened Text
  import opened Numeric
  import opened Records
  import opened ProcReaders

  /** The header test on a trimmed line: it starts with `PID`, or mentions `PID`, `CPU` and `NAME`. */
  predicate IsHeaderLine(line: string) {
    var t := Trim(line);
    StartsWith(t, "PID") || (Contains(t, "PID") && Contains(t, "CPU") && Contains(t, "NAME"))
  }

  /** The position of the first line satisfying `isHeader`, or -1 when there is none. */
  function FirstWhere(lines: seq<string>, isHeader: string -> bool): (h: int)
    ensures -1 <= h < |lines|
  {
    if |lines| == 0 then -1
    else if isHeader(lines[0]) then 0
    else
      var k := FirstWhere(lines[1..], isHeader);
      if k < 0 then -1 else k + 1
  }

  lemma {:induction false} FirstWhereAt(lines: seq<string>, isHeader: string -> bool, h: int)
    requires 0 <= h < |lines| && isHeader(lines[h])
    requires forall j :: 0 <= j < h ==> !isHeader(lines[j])
    ensures FirstWhere(lines, isHeader) == h
  {
    if h > 0 {
      assert !isHeader(lines[0]);
      forall j | 0 <= j < h - 1 ensures !isHeader(lines[1..][j]) {
        assert lines[1..][j] == lines[j + 1];
      }
      FirstWhereAt(lines[1..], isHeader, h - 1);
    }
  }

  lemma {:induction false} FirstWhereNone(lines: seq<string>, isHeader: string -> bool)
    ensures FirstWhere(lines, isHeader) == -1 <==> forall j :: 0 <= j < |lines| ==> !isHeader(lines[j])
  {
    if |lines| > 0 && !isHeader(lines[0]) {
      FirstWhereNone(lines[1..], isHeader);
      assert forall j :: 1 <= j < |lines| ==> lines[j] == lines[1..][j - 1];
    }
  }

  /** The position of the first header line, or -1 when there is none. */
  function HeaderIndex(lines: seq<string>): (h: int)
    ensures -1 <= h < |lines|
  {
    FirstWhere(lines, IsHeaderLine)
  }

  /** `HeaderIndex` finds a header line with none before it. */
  lemma HeaderIndexAt(lines: seq<string>, h: int)
    requires 0 <= h < |lines| && IsHeaderLine(lines[h])
    requires forall j :: 0 <= j < h ==> !IsHeaderLine(lines[j])
    ensures HeaderIndex(lines) == h
  {
    FirstWhereAt(lines, IsHeaderLine, h);
  }

  /** `HeaderIndex` is -1 exactly when no line is a header line. */
  lemma HeaderIndexNone(lines: seq<string>)
    ensures HeaderIndex(lines) == -1 <==> forall j :: 0 <= j < |lines| ==> !IsHeaderLine(lines[j])
  {
    FirstWhereNone(lines, IsHeaderLine);
  }

  /**
   * `String.toDoubleOrNull`: `toDouble` gives the reading of non-empty text,
   * and the empty text never reads as a number.
   */
  function ReadDouble(s: string, toDouble: string -> Option<real>): (r: Option<real>)
    ensures s == "" ==> r == None
    ensures s != "" ==> r == toDouble(s)
  {
    if s == "" then None else toDouble(s)
  }

  /** A token the column scan takes as a percentage: it ends with `%` or holds a `.`, and reads as a number once `%` is removed. */
  predicate PercentLike(p: string, toDouble: string -> Option<real>) {
    (EndsWithChar(p, '%') || '.' in p) && ReadDouble(RemoveChar(p, '%'), toDouble).Some?
  }

  /** The percentage-like tokens of a row, in order. */
  function PercentTokens(parts: seq<string>, toDouble: string -> Option<real>): (r: seq<string>)
    ensures |r| <= |parts|
  {
    if |parts| == 0 then []
    else
      var before := PercentTokens(parts[..|parts| - 1], toDouble);
      if PercentLike(parts[|parts| - 1], toDouble) then before + [parts[|parts| - 1]] else before
  }

  /** Every percentage-like token is a non-empty token of the row. */
  lemma {:induction false} PercentTokensFrom(parts: seq<string>, toDouble: string -> Option<real>)
    ensures forall i :: 0 <= i < |PercentTokens(parts, toDouble)| ==>
      PercentTokens(parts, toDouble)[i] in parts && PercentLike(PercentTokens(parts, toDouble)[i], toDouble)
  {
    if |parts| > 0 {
      var prefix := parts[..|parts| - 1];
      PercentTokensFrom(prefix, toDouble);
      forall t | t in prefix ensures t in parts {
        var k :| 0 <= k < |prefix| && prefix[k] == t;
        assert parts[k] == t;
      }
    }
  }

  /** A row without percentage-like tokens has none to report. */
  lemma {:induction false} PercentTokensNone(parts: seq<string>, toDouble: string -> Option<real>)
    requires forall i :: 0 <= i < |parts| ==> !PercentLike(parts[i], toDouble)
    ensures PercentTokens(parts, toDouble) == []
  {
    if |parts| > 0 {
      PercentTokensNone(parts[..|parts| - 1], toDouble);
    }
  }

  /** Token `k` is the first percentage-like token when none before it is one. */
  lemma {:induction false} PercentTokensFirst(parts: seq<string>, toDouble: string -> Option<real>, k: int)
    requires 0 <= k < |parts| && PercentLike(parts[k], toDouble)
    requires forall i :: 0 <= i < k ==> !PercentLike(parts[i], toDouble)
    ensures |PercentTokens(parts, toDouble)| >= 1 && PercentTokens(parts, toDouble)[0] == parts[k]
  {
    var n := |parts|;
    var prefix := parts[..n - 1];
    if k < n - 1 {
      PercentTokensFirst(prefix, toDouble, k);
    } else {
      PercentTokensNone(prefix, toDouble);
    }
  }

  /** The `i`-th element of `s`, or the empty text. */
  function NthOrEmpty(s: seq<string>, i: nat): string {
    if i < |s| then s[i] else ""
  }

  /**
   * The column scan of `parseFallbackTop`: `cpuStr` takes the first
   * percentage-like token and `memStr` the second.
   */
  method PickColumns(parts: seq<string>, toDouble: string -> Option<real>) returns (cpuStr: string, memStr: string)
    ensures cpuStr == NthOrEmpty(PercentTokens(parts, toDouble), 0)
    ensures memStr == NthOrEmpty(PercentTokens(parts, toDouble), 1)
  {
    cpuStr := "";
    memStr := "";
    var j := 0;
    while j < |parts|
      invariant 0 <= j <= |parts|
      invariant cpuStr == NthOrEmpty(PercentTokens(parts[..j], toDouble), 0)
      invariant memStr == NthOrEmpty(PercentTokens(parts[..j], toDouble), 1)
    {
      var p := parts[j];
      assert parts[..j + 1][..j] == parts[..j];
      PercentTokensFrom(parts[..j], toDouble);
      if EndsWithChar(p, '%') || '.' in p {
        var num := ReadDouble(RemoveChar(p, '%'), toDouble);
        if num.Some? {
          if cpuStr == "" {
            cpuStr := p;
          } else if memStr == "" {
            memStr := p;
          }
        }
      }
      j := j + 1;
    }
    assert parts[..j] == parts;
  }

  /** The process name: the last token, cut before its first `/`. */
  function NameOf(last: string): (name: string)
    ensures '/' !in name
    ensures StartsWith(last, name)
    ensures '/' !in last ==> name == last
  {
    if '/' in last then SubstringBefore(last, '/') else last
  }

  /** A number read from a column text after `%` is removed, 0 when it does not read; a missing column (the empty text) reads 0. */
  function ColumnValue(text: string, toDouble: string -> Option<real>): (v: real)
    ensures text == "" ==> v == 0.0
    ensures ReadDouble(RemoveChar(text, '%'), toDouble).Some? ==> v == ReadDouble(RemoveChar(text, '%'), toDouble).value
  {
    ReadDouble(RemoveChar(text, '%'), toDouble).GetOr(0.0)
  }

  /**
   * One line after the header: None when it is blank, has fewer than five
   * whitespace-separated tokens or does not start with an `Int` pid.  The
   * record has no resident size and one thread.
   */
  function FallbackRow(line: string, toDouble: string -> Option<real>): (r: Option<ProcessInfo>)
    ensures r.Some? ==> |SplitWhitespace(Trim(line))| >= 5 && ToIntOrNull(SplitWhitespace(Trim(line))[0]) == Some(r.value.pid)
    ensures r.Some? ==> r.value.memRssKb == 0 && r.value.threads == 1 && '/' !in r.value.name
  {
    var t := Trim(line);
    if |t| == 0 then None else RowOfTokens(SplitWhitespace(t), toDouble)
  }

  /**
   * The record of a row's tokens, once the row is known not to be blank.  A
   * column the row has no percentage-like token for reads 0.
   */
  function RowOfTokens(parts: seq<string>, toDouble: string -> Option<real>): (r: Option<ProcessInfo>)
    ensures r.Some? ==> |parts| >= 5 && ToIntOrNull(parts[0]) == Some(r.value.pid)
    ensures r.Some? ==> r.value.memRssKb == 0 && r.value.threads == 1 && '/' !in r.value.name
    ensures r.Some? && |PercentTokens(parts, toDouble)| == 0 ==> r.value.cpuPercent == 0.0
    ensures r.Some? && |PercentTokens(parts, toDouble)| <= 1 ==> r.value.memPercent == 0.0
  {
    if |parts| < 5 then None
    else
      match ToIntOrNull(parts[0])
      case None => None
      case Some(pid) =>
        var tokens := PercentTokens(parts, toDouble);
        var cpu := ColumnValue(NthOrEmpty(tokens, 0), toDouble);
        var mem := ColumnValue(NthOrEmpty(tokens, 1), toDouble);
        Some(ProcessInfo(pid, NameOf(parts[|parts| - 1]), cpu, mem, 0, 1))
  }

  /** The records of the lines after the header, in order. */
  function FallbackRows(lines: seq<string>, toDouble: string -> Option<real>): (r: seq<ProcessInfo>)
    ensures |r| <= |lines|
  {
    if |lines| == 0 then []
    else
      var before := FallbackRows(lines[..|lines| - 1], toDouble);
      match FallbackRow(lines[|lines| - 1], toDouble)
      case None => before
      case Some(row) => before + [row]
  }

  /** `parseFallbackTop` on the lines of the output: nothing without a header, else the rows after it. */
  function FallbackTopLines(lines: seq<string>, toDouble: string -> Option<real>): seq<ProcessInfo> {
    var h := HeaderIndex(lines);
    if h < 0 then [] else FallbackRows(lines[h + 1..], toDouble)
  }

  function ParsedFallbackTop(output: string, toDouble: string -> Option<real>): seq<ProcessInfo> {
    FallbackTopLines(Lines(output), toDouble)
  }

  /** `parseFallbackTop`: find the header, then parse every later line. */
  method ParseFallbackTop(output: string, toDouble: string -> Option<real>) returns (processes: seq<ProcessInfo>)
    ensures processes == ParsedFallbackTop(output, toDouble)
  {
    var lines := Lines(output);
    var headerIdx := FindHeader(lines);
    if headerIdx < 0 {
      return [];
    }
    processes := ParseRows(lines[headerIdx + 1..], toDouble);
  }

  /** The header loop of `parseFallbackTop`: the first header line, or -1. */
  method FindHeader(lines: seq<string>) returns (headerIdx: int)
    ensures headerIdx == HeaderIndex(lines)
  {
    headerIdx := -1;
    var i := 0;
    while i < |lines|
      invariant 0 <= i <= |lines|
      invariant forall j :: 0 <= j < i ==> !IsHeaderLine(lines[j])
    {
      if IsHeaderLine(lines[i]) {
        HeaderIndexAt(lines, i);
        return i;
      }
      i := i + 1;
    }
    HeaderIndexNone(lines);
  }

  /** The row loop of `parseFallbackTop`: every line that parses, in order. */
  method ParseRows(rest: seq<string>, toDouble: string -> Option<real>) returns (processes: seq<ProcessInfo>)
    ensures processes == FallbackRows(rest, toDouble)
  {
    processes := [];
    var k := 0;
    while k < |rest|
      invariant 0 <= k <= |rest|
      invariant processes == FallbackRows(rest[..k], toDouble)
    {
      assert rest[..k + 1][..k] == rest[..k];
      var row := ParseRow(rest[k], toDouble);
      if row.Some? {
        processes := processes + [row.value];
      }
      k := k + 1;
    }
    assert rest[..k] == rest;
  }

  /** The body of the row loop of `parseFallbackTop`. */
  method ParseRow(text: string, toDouble: string -> Option<real>) returns (row: Option<ProcessInfo>)
    ensures row == FallbackRow(text, toDouble)
  {
    var line := Trim(text);
    if |line| == 0 {
      return None;
    }
    row := ParseTokens(SplitWhitespace(line), toDouble);
  }

  /** Reads the pid, the two percentage columns and the name of a non-blank row. */
  method ParseTokens(parts: seq<string>, toDouble: string -> Option<real>) returns (row: Option<ProcessInfo>)
    ensures row == RowOfTokens(parts, toDouble)
  {
    if |parts| < 5 {
      return None;
    }
    var pid := ToIntOrNull(parts[0]);
    if pid.None? {
      return None;
    }
    var cpuStr, memStr := PickColumns(parts, toDouble);
    var name := parts[|parts| - 1];
    if '/' in name {
      name := SubstringBefore(name, '/');
    }
    var cpu := ReadDouble(RemoveChar(cpuStr, '%'), toDouble).GetOr(0.0);
    var mem := ReadDouble(RemoveChar(memStr, '%'), toDouble).GetOr(0.0);
    row := Some(ProcessInfo(pid.value, name, cpu, mem, 0, 1));
  }

  /** The lines before the first header line are never parsed as rows, and the header itself is skipped. */
  lemma SkipsPreamble(preamble: seq<string>, header: string, rest: seq<string>, toDouble: string -> Option<real>)
    requires forall j :: 0 <= j < |preamble| ==> !IsHeaderLine(preamble[j])
    requires IsHeaderLine(header)
    ensures FallbackTopLines(preamble + [header] + rest, toDouble) == FallbackRows(rest, toDouble)
  {
    var lines := preamble + [header] + rest;
    forall j | 0 <= j < |preamble| ensures !IsHeaderLine(lines[j]) {
      assert lines[j] == preamble[j];
    }
    HeaderIndexAt(lines, |preamble|);
    assert lines[|preamble| + 1..] == rest;
  }

  /** Output without a header line gives no records. */
  lemma NoHeaderNoRows(lines: seq<string>, toDouble: string -> Option<real>)
    requires forall j :: 0 <= j < |lines| ==> !IsHeaderLine(lines[j])
    ensures FallbackTopLines(lines, toDouble) == []
  {
    HeaderIndexNone(lines);
  }

  /** Every fallback record has no resident size, one thread and a name without `/`. */
  lemma {:induction false} FallbackRowsDefaults(lines: seq<string>, toDouble: string -> Option<real>)
    ensures forall i :: 0 <= i < |FallbackRows(lines, toDouble)| ==>
      var r := FallbackRows(lines, toDouble)[i];
      r.memRssKb == 0 && r.threads == 1 && '/' !in r.name
  {
    if |lines| > 0 {
      FallbackRowsDefaults(lines[..|lines| - 1], toDouble);
    }
  }

  /**
   * A row of single-space-separated tokens: the pid is the first token, the
   * CPU and memory columns are the first two percentage-like tokens (0 when
   * missing) and the name is the last token up to its first `/`.
   */
  lemma FallbackRowOfTokens(parts: seq<string>, toDouble: string -> Option<real>)
    requires |parts| >= 5
    requires forall i :: 0 <= i < |parts| ==> Token(parts[i])
    requires ToIntOrNull(parts[0]).Some?
    ensures FallbackRow(Join(parts, ' '), toDouble) == Some(ProcessInfo(
      ToIntOrNull(parts[0]).value, NameOf(parts[|parts| - 1]),
      ColumnValue(NthOrEmpty(PercentTokens(parts, toDouble), 0), toDouble),
      ColumnValue(NthOrEmpty(PercentTokens(parts, toDouble), 1), toDouble), 0, 1))
  {
    JoinedTokens(parts);
  }

  /** Without percentage-like tokens both columns read 0. */
  lemma NoPercentColumns(parts: seq<string>, toDouble: string -> Option<real>)
    requires forall i :: 0 <= i < |parts| ==> !PercentLike(parts[i], toDouble)
    ensures ColumnValue(NthOrEmpty(PercentTokens(parts, toDouble), 0), toDouble) == 0.0
    ensures ColumnValue(NthOrEmpty(PercentTokens(parts, toDouble), 1), toDouble) == 0.0
  {
    PercentTokensNone(parts, toDouble);
  }

  /** When token `k` is the only percentage-like token it is the whole list. */
  lemma {:induction false} PercentTokensOnly(parts: seq<string>, toDouble: string -> Option<real>, k: int)
    requires 0 <= k < |parts| && PercentLike(parts[k], toDouble)
    requires forall i :: 0 <= i < |parts| && i != k ==> !PercentLike(parts[i], toDouble)
    ensures PercentTokens(parts, toDouble) == [parts[k]]
  {
    var n := |parts|;
    var prefix := parts[..n - 1];
    if k < n - 1 {
      PercentTokensOnly(prefix, toDouble, k);
    } else {
      PercentTokensNone(prefix, toDouble);
    }
  }

  /**
   * A row with a single percentage-like token: the CPU column is that
   * token's number and the memory column, missing, reads 0.
   */
  lemma OnePercentColumn(parts: seq<string>, toDouble: string -> Option<real>, k: int)
    requires 0 <= k < |parts| && PercentLike(parts[k], toDouble)
    requires forall i :: 0 <= i < |parts| && i != k ==> !PercentLike(parts[i], toDouble)
    ensures ColumnValue(NthOrEmpty(PercentTokens(parts, toDouble), 0), toDouble) == ReadDouble(RemoveChar(parts[k], '%'), toDouble).value
    ensures ColumnValue(NthOrEmpty(PercentTokens(parts, toDouble), 1), toDouble) == 0.0
  {
    PercentTokensOnly(parts, toDouble, k);
  }
}
