/**
 * The text parsers of the privileged sampler (`ProcessMonitorUserService`):
 * one /proc/[pid]/stat line, the aggregate `cpu` line of /proc/stat,
 * /proc/meminfo and /proc/cpuinfo, and the system description built from them.
 * File contents are inputs: a first line as `Option<string>` (None when the
 * file cannot be read) or the lines `BufferedReader.readLine` yields.
 */
module ProcReaders {
  import opened Wrappers
  import opened Text
  import opened Numeric
  import opened Records

  // ---------------------------------------------------------------------------
  // /proc/[pid]/stat

  /** What `parseProcStat` extracts from one stat line. */
  datatype ProcStat = ProcStat(pid: int, name: string, utime: int, stime: int, threads: int)

  /** `rest.getOrNull(i)?.toLongOrNull()` */
  function LongField(rest: seq<string>, i: nat): (r: Option<int>)
    ensures r.Some? ==> i < |rest| && ToLongOrNull(rest[i]) == r
  {
    if i < |rest| then ToLongOrNull(rest[i]) else None
  }

  /** `rest.getOrNull(i)?.toIntOrNull()` */
  function IntField(rest: seq<string>, i: nat): (r: Option<int>)
    ensures r.Some? ==> i < |rest| && ToIntOrNull(rest[i]) == r
  {
    if i < |rest| then ToIntOrNull(rest[i]) else None
  }

  /**
   * `parseProcStat`: the name is the text between the first `(` and the last `)`;
   * the fields after the last `)` are split on single spaces starting two
   * characters further on, and fields 14, 15 and 20 of proc(5) (utime, stime,
   * num_threads) are at offsets 11, 12 and 17 of that list. Every exception of
   * the source (`toInt`, an out-of-range `substring`) is a `None`.
   */
  function ParseProcStat(line: string): (r: Option<ProcStat>)
    ensures IndexOf(line, '(') < 0 || LastIndexOf(line, ')') < 0 ==> r == None
    ensures r.Some? ==>
      var open, close := IndexOf(line, '('), LastIndexOf(line, ')');
      0 <= open && open + 1 <= close && close + 2 <= |line|
      && Located(line, open, close, line[..open], line[open + 1..close], line[close + 2..])
  {
    ParseStatAt(line, IndexOf(line, '('), LastIndexOf(line, ')'))
  }

  /** `parseProcStat` once the positions of the first `(` and the last `)` are known. */
  function ParseStatAt(line: string, open: int, close: int): (r: Option<ProcStat>)
    ensures r.Some? ==> 0 <= open && open + 1 <= close && close + 2 <= |line| && ToIntOrNull(Trim(line[..open])).Some?
  {
    if open < 0 || close < 0 then None
    // `substring(0, openParen).trim().toInt()`
    else if open > |line| then None
    else
      var pid := ToIntOrNull(Trim(line[..open]));
      // `substring(openParen + 1, closeParen)` and `substring(closeParen + 2)` throw when out of order or range
      if pid.None? || close < open + 1 || close + 2 > |line| then None
      else StatCounters(pid.value, line[open + 1..close], SplitOn(line[close + 2..], ' '))
  }

  /** The record built from the fields after the name: utime and stime must parse, threads default to 1. */
  function StatCounters(pid: int, name: string, rest: seq<string>): (r: Option<ProcStat>)
    ensures r.Some? <==> LongField(rest, 11).Some? && LongField(rest, 12).Some?
    ensures r.Some? ==> r.value.pid == pid && r.value.name == name
    ensures r.Some? ==> IsLong(r.value.utime) && IsLong(r.value.stime) && IsInt(r.value.threads)
  {
    var utime := LongField(rest, 11);
    var stime := LongField(rest, 12);
    if utime.None? || stime.None? then None
    else Some(ProcStat(pid, name, utime.value, stime.value, IntField(rest, 17).GetOr(1)))
  }

  /** A stat line as the kernel writes it: `<pid> (<comm>) <field 3> <field 4> ...`. */
  function StatLine(pidText: string, comm: string, fields: seq<string>): string
    requires |fields| > 0
  {
    pidText + " (" + comm + ") " + Join(fields, ' ')
  }

  /** A decimal `Int` text is its own trim once the separating space is dropped. */
  lemma PidTextTrimmed(pidText: string)
    requires ToIntOrNull(pidText).Some?
    ensures Trim(pidText + " ") == pidText
  {
    var s := pidText + " ";
    assert !IsWhitespace(s[0]);
    assert TrimStart(s) == s;
    assert s[..|s| - 1] == pidText;
    assert TrimEnd(s) == TrimEnd(pidText);
  }

  /**
   * Whatever the command name holds (spaces, slashes, parentheses of either
   * kind), parsing a well-formed stat line gives back the pid, the name and the
   * counters written into it.
   */
  lemma ParseStatLine(pidText: string, comm: string, fields: seq<string>)
    requires ToIntOrNull(pidText).Some?
    requires |fields| >= 13
    requires forall i :: 0 <= i < |fields| ==> ' ' !in fields[i] && ')' !in fields[i]
    requires ToLongOrNull(fields[11]).Some? && ToLongOrNull(fields[12]).Some?
    ensures ParseProcStat(StatLine(pidText, comm, fields))
         == Some(ProcStat(ToIntOrNull(pidText).value, comm, ToLongOrNull(fields[11]).value,
                          ToLongOrNull(fields[12]).value, IntField(fields, 17).GetOr(1)))
  {
    var joined := Join(fields, ' ');
    var head := pidText + " ";
    var tail := " " + joined;
    assert StatLine(pidText, comm, fields) == head + "(" + comm + ")" + tail;
    assert '(' !in head;
    JoinWithout(fields, ' ', ')');
    PidTextTrimmed(pidText);
    assert tail[1..] == joined;
    SplitJoin(fields, ' ');
    ParseBracketed(StatLine(pidText, comm, fields), head, comm, tail);
    StatCountersOf(ToIntOrNull(pidText).value, comm, fields);
  }

  /** The parse of `head(comm)tail` when `head` holds no `(` and `tail` no `)`. */
  lemma ParseBracketed(line: string, head: string, comm: string, tail: string)
    requires line == head + "(" + comm + ")" + tail
    requires '(' !in head && ')' !in tail && |tail| >= 1
    requires ToIntOrNull(Trim(head)).Some?
    ensures ParseProcStat(line) == StatCounters(ToIntOrNull(Trim(head)).value, comm, SplitOn(tail[1..], ' '))
  {
    BracketedLocated(head, comm, tail);
    ParseLocated(line, |head|, |head| + 1 + |comm|, head, comm, tail[1..]);
  }

  lemma BracketedLocated(head: string, comm: string, tail: string)
    requires '(' !in head && ')' !in tail && |tail| >= 1
    requires ToIntOrNull(Trim(head)).Some?
    ensures Located(head + "(" + comm + ")" + tail, |head|, |head| + 1 + |comm|, head, comm, tail[1..])
  {
    Bracketed(head, comm, tail);
  }

  /**
   * The first `(` of `line` is at `open` and the last `)` at `close`, with
   * `head` before the `(`, `name` between them and `after` from two
   * characters past the `)`.
   */
  predicate Located(line: string, open: int, close: int, head: string, name: string, after: string) {
    && 0 <= open && open + 1 <= close && close + 2 <= |line|
    && IndexOf(line, '(') == open && LastIndexOf(line, ')') == close
    && line[..open] == head && ToIntOrNull(Trim(head)).Some?
    && line[open + 1..close] == name
    && line[close + 2..] == after
  }

  lemma StatCountersOf(pid: int, name: string, rest: seq<string>)
    requires |rest| >= 13 && ToLongOrNull(rest[11]).Some? && ToLongOrNull(rest[12]).Some?
    ensures StatCounters(pid, name, rest)
         == Some(ProcStat(pid, name, ToLongOrNull(rest[11]).value, ToLongOrNull(rest[12]).value, IntField(rest, 17).GetOr(1)))
  {
  }

  /** The parse of a line whose parentheses and the text around them are known. */
  lemma ParseLocated(line: string, open: int, close: int, head: string, name: string, after: string)
    requires Located(line, open, close, head, name, after)
    ensures ParseProcStat(line) == StatCounters(ToIntOrNull(Trim(head)).value, name, SplitOn(after, ' '))
  {
    assert ParseProcStat(line) == ParseStatAt(line, open, close);
  }

  // ---------------------------------------------------------------------------
  // /proc/stat

  /** The exact sum of the counters, with a token that is not a `Long` counting 0. */
  function ExactSum(parts: seq<string>): int {
    if |parts| == 0 then 0 else ExactSum(parts[..|parts| - 1]) + ToLongOrNull(parts[|parts| - 1]).GetOr(0)
  }

  /** `parts.sumOf { it.toLongOrNull() ?: 0L }`: a running `Long` sum, wrapping at every step. */
  function SumLongs(parts: seq<string>): (r: int)
    ensures r == Wrap64(ExactSum(parts))
  {
    if |parts| == 0 then 0
    else
      var prefix := parts[..|parts| - 1];
      var r := Wrap64(SumLongs(prefix) + ToLongOrNull(parts[|parts| - 1]).GetOr(0));
      Wrap64Add(ExactSum(prefix), ToLongOrNull(parts[|parts| - 1]).GetOr(0));
      r
  }

  /** The counters of the aggregate line: everything after the `cpu ` tag, trimmed and split on whitespace runs. */
  function CpuFields(line: string): seq<string>
    requires StartsWith(line, "cpu ")
  {
    SplitWhitespace(Trim(line[4..]))
  }

  /**
   * `readTotalCpuJiffies`, given the first line of /proc/stat (None when it
   * cannot be read): 0 unless the line starts with `cpu `, else the wrapped
   * `Long` sum of its counters.
   */
  function TotalCpuJiffies(firstLine: Option<string>): (r: int)
    ensures IsLong(r)
    ensures firstLine.None? || !StartsWith(firstLine.value, "cpu ") ==> r == 0
    ensures firstLine.Some? && StartsWith(firstLine.value, "cpu ") ==> r == Wrap64(ExactSum(CpuFields(firstLine.value)))
  {
    match firstLine
    case None => 0
    case Some(line) => if !StartsWith(line, "cpu ") then 0 else SumLongs(CpuFields(line))
  }

  lemma {:induction false} SplitWhitespaceWithout(a: string)
    requires NoRegexSpace(a)
    ensures SplitWhitespace(a) == [a]
  {
    if |a| > 0 {
      SplitWhitespaceWithout(a[1..]);
      assert [a[0]] + a[1..] == a;
    }
  }

  lemma {:induction false} SplitWhitespaceFirst(a: string, b: string)
    requires NoRegexSpace(a)
    requires |b| > 0 && !IsRegexSpace(b[0])
    ensures SplitWhitespace(a + [' '] + b) == [a] + SplitWhitespace(b)
  {
    var s := a + [' '] + b;
    if |a| == 0 {
      assert s == [' '] + b && s[1..] == b;
    } else {
      assert s[1..] == a[1..] + [' '] + b;
      SplitWhitespaceFirst(a[1..], b);
      assert [a[0]] + a[1..] == a;
    }
  }

  /** Decimal counters separated by single spaces split back into the same tokens. */
  lemma {:induction false} SplitWhitespaceJoin(parts: seq<string>)
    requires |parts| > 0
    requires forall i :: 0 <= i < |parts| ==> |parts[i]| > 0 && NoRegexSpace(parts[i])
    ensures SplitWhitespace(Join(parts, ' ')) == parts
  {
    if |parts| == 1 {
      SplitWhitespaceWithout(parts[0]);
    } else {
      SplitWhitespaceJoin(parts[1..]);
      var rest := Join(parts[1..], ' ');
      JoinStartsWith(parts[1..]);
      SplitWhitespaceFirst(parts[0], rest);
      assert [parts[0]] + parts[1..] == parts;
    }
  }

  lemma {:induction false} JoinStartsWith(parts: seq<string>)
    requires |parts| > 0 && |parts[0]| > 0
    ensures |Join(parts, ' ')| > 0 && Join(parts, ' ')[0] == parts[0][0]
  {
  }

  lemma {:induction false} JoinEndsWith(parts: seq<string>)
    requires |parts| > 0 && |parts[|parts| - 1]| > 0
    ensures |Join(parts, ' ')| > 0
    ensures Join(parts, ' ')[|Join(parts, ' ')| - 1] == parts[|parts| - 1][|parts[|parts| - 1]| - 1]
  {
    if |parts| > 1 {
      JoinEndsWith(parts[1..]);
    }
  }

  /** The decimal texts of a list of counters. */
  function Formatted(values: seq<int>): (r: seq<string>)
    ensures |r| == |values|
    ensures forall i :: 0 <= i < |r| ==> r[i] == FormatDecimal(values[i])
  {
    seq(|values|, i requires 0 <= i < |values| => FormatDecimal(values[i]))
  }

  function Sum(values: seq<int>): int {
    if |values| == 0 then 0 else Sum(values[..|values| - 1]) + values[|values| - 1]
  }

  lemma {:induction false} ExactSumFormatted(values: seq<int>)
    requires forall i :: 0 <= i < |values| ==> IsLong(values[i])
    ensures ExactSum(Formatted(values)) == Sum(values)
  {
    if |values| > 0 {
      var n := |values|;
      assert Formatted(values)[..n - 1] == Formatted(values[..n - 1]);
      ExactSumFormatted(values[..n - 1]);
      ParseFormat(values[n - 1], LONG_MIN, LONG_MAX);
    }
  }

  /**
   * The kernel's aggregate line `cpu  <user> <nice> <system> ...` yields the
   * sum of its counters, wrapped to a `Long`.
   */
  lemma TotalOfCounters(values: seq<int>)
    requires |values| > 0
    requires forall i :: 0 <= i < |values| ==> IsLong(values[i])
    ensures TotalCpuJiffies(Some("cpu  " + Join(Formatted(values), ' '))) == Wrap64(Sum(values))
  {
    var parts := Formatted(values);
    var joined := Join(parts, ' ');
    var line := "cpu  " + joined;
    FormattedTokens(values);
    AggregateLine(joined);
    TrimJoined(parts);
    SplitWhitespaceJoin(parts);
    assert CpuFields(line) == parts;
    ExactSumFormatted(values);
  }

  lemma AggregateLine(x: string)
    ensures StartsWith("cpu  " + x, "cpu ") && ("cpu  " + x)[4..] == " " + x
  {
    var line := "cpu  " + x;
    assert line[..4] == "cpu ";
    assert forall k :: 0 <= k < |line| - 4 ==> line[4..][k] == (" " + x)[k];
  }

  /** Decimal texts are non-empty and hold no regular-expression space. */
  lemma FormattedTokens(values: seq<int>)
    ensures forall i :: 0 <= i < |Formatted(values)| ==> Token(Formatted(values)[i])
  {
    var parts := Formatted(values);
    forall i | 0 <= i < |parts| ensures Token(parts[i]) {
      var d := FormatDecimal(values[i]);
      assert forall k :: 0 <= k < |d| ==> IsDigit(d[k]) || d[k] == '-';
    }
  }

  /** A non-empty token without spaces inside or whitespace at its ends. */
  predicate Token(t: string) {
    |t| > 0 && NoRegexSpace(t) && !IsWhitespace(t[0]) && !IsWhitespace(t[|t| - 1])
  }

  /** Tokens joined by single spaces trim to themselves and split back into the same tokens. */
  lemma JoinedTokens(parts: seq<string>)
    requires |parts| > 0
    requires forall i :: 0 <= i < |parts| ==> Token(parts[i])
    ensures |Join(parts, ' ')| > 0
    ensures Trim(Join(parts, ' ')) == Join(parts, ' ')
    ensures SplitWhitespace(Join(parts, ' ')) == parts
  {
    assert Token(parts[0]) && Token(parts[|parts| - 1]);
    JoinStartsWith(parts);
    JoinEndsWith(parts);
    TrimIdentity(Join(parts, ' '));
    SplitWhitespaceJoin(parts);
  }

  /** Trimming a space-led join of decimal texts leaves the join itself. */
  lemma TrimJoined(parts: seq<string>)
    requires |parts| > 0
    requires forall i :: 0 <= i < |parts| ==> Token(parts[i])
    ensures Trim(" " + Join(parts, ' ')) == Join(parts, ' ')
  {
    var joined := Join(parts, ' ');
    assert Token(parts[0]) && Token(parts[|parts| - 1]);
    JoinStartsWith(parts);
    JoinEndsWith(parts);
    assert (" " + joined)[1..] == joined;
    assert TrimStart(" " + joined) == joined;
    TrimIdentity(joined);
  }

  // ---------------------------------------------------------------------------
  // /proc/meminfo

  /** One meminfo line: split on whitespace runs; key = first token without trailing `:`, value = second token as a `Long`. */
  function MemInfoEntry(line: string): (r: Option<(string, int)>)
    ensures r.Some? ==> IsLong(r.value.1) && (r.value.0 == [] || r.value.0[|r.value.0| - 1] != ':')
  {
    var parts := SplitWhitespace(line);
    if |parts| < 2 then None
    else
      match ToLongOrNull(parts[1])
      case None => None
      case Some(v) => Some((TrimEndChar(parts[0], ':'), v))
  }

  predicate DefinesKey(line: string, key: string) {
    MemInfoEntry(line).Some? && MemInfoEntry(line).value.0 == key
  }

  /** The key-to-kB table `readMemInfo` builds, line after line; a later line overwrites an earlier key. */
  function MemInfoTable(lines: seq<string>): map<string, int> {
    if |lines| == 0 then map[]
    else
      var table := MemInfoTable(lines[..|lines| - 1]);
      match MemInfoEntry(lines[|lines| - 1])
      case None => table
      case Some((key, value)) => table[key := value]
  }

  /** `readMemInfo` / `readProcMemInfo`: the loop over the lines of /proc/meminfo. */
  method ReadMemInfo(lines: seq<string>) returns (result: map<string, int>)
    ensures result == MemInfoTable(lines)
  {
    result := map[];
    var i := 0;
    while i < |lines|
      invariant 0 <= i <= |lines|
      invariant result == MemInfoTable(lines[..i])
    {
      assert lines[..i + 1][..i] == lines[..i];
      var parts := SplitWhitespace(lines[i]);
      if |parts| >= 2 {
        var key := TrimEndChar(parts[0], ':');
        var value := ToLongOrNull(parts[1]);
        if value.Some? {
          result := result[key := value.value];
        }
      }
      i := i + 1;
    }
    assert lines[..|lines|] == lines;
  }

  /** A key is in the table exactly when some line defines it. */
  lemma MemInfoTableKeys(lines: seq<string>, key: string)
    ensures key in MemInfoTable(lines) <==> exists i :: 0 <= i < |lines| && DefinesKey(lines[i], key)
  {
    if key in MemInfoTable(lines) {
      var i := MemInfoTableKeySource(lines, key);
    }
    if exists i :: 0 <= i < |lines| && DefinesKey(lines[i], key) {
      var i :| 0 <= i < |lines| && DefinesKey(lines[i], key);
      MemInfoTableKeyDefined(lines, i, key);
    }
  }

  lemma {:induction false} MemInfoTableKeySource(lines: seq<string>, key: string) returns (i: int)
    requires key in MemInfoTable(lines)
    ensures 0 <= i < |lines| && DefinesKey(lines[i], key)
  {
    var n := |lines|;
    MemInfoTableStep(lines, key);
    if DefinesKey(lines[n - 1], key) {
      i := n - 1;
    } else {
      var prefix := lines[..n - 1];
      i := MemInfoTableKeySource(prefix, key);
      assert prefix[i] == lines[i];
    }
  }

  lemma {:induction false} MemInfoTableKeyDefined(lines: seq<string>, i: int, key: string)
    requires 0 <= i < |lines| && DefinesKey(lines[i], key)
    ensures key in MemInfoTable(lines)
  {
    var n := |lines|;
    MemInfoTableStep(lines, key);
    if i < n - 1 {
      var prefix := lines[..n - 1];
      assert prefix[i] == lines[i];
      MemInfoTableKeyDefined(prefix, i, key);
    }
  }

  /** The last line adds its key to the table of the lines before it. */
  lemma MemInfoTableStep(lines: seq<string>, key: string)
    requires |lines| > 0
    ensures key in MemInfoTable(lines) <==> key in MemInfoTable(lines[..|lines| - 1]) || DefinesKey(lines[|lines| - 1], key)
  {
  }

  /** The value of a key is the one on the last line that defines it. */
  lemma {:induction false} MemInfoLastWins(lines: seq<string>, i: int, key: string, value: int)
    requires 0 <= i < |lines|
    requires MemInfoEntry(lines[i]) == Some((key, value))
    requires forall j :: i < j < |lines| ==> !DefinesKey(lines[j], key)
    ensures key in MemInfoTable(lines) && MemInfoTable(lines)[key] == value
  {
    var n := |lines|;
    if i < n - 1 {
      assert !DefinesKey(lines[n - 1], key);
      assert lines[..n - 1][i] == lines[i];
      MemInfoLastWins(lines[..n - 1], i, key, value);
    }
  }

  /** `memInfo[key] ?: 0L` */
  function MemField(table: map<string, int>, key: string): int {
    if key in table then table[key] else 0
  }

  /** A key that no line defines reads as 0. */
  lemma MemFieldDefault(lines: seq<string>, key: string)
    requires forall i :: 0 <= i < |lines| ==> !DefinesKey(lines[i], key)
    ensures MemField(MemInfoTable(lines), key) == 0
  {
    MemInfoTableKeys(lines, key);
  }

  // ---------------------------------------------------------------------------
  // /proc/cpuinfo

  /** The record being filled for the current stanza (only the keys `CoreInfo` keeps). */
  datatype PendingCore = PendingCore(implementer: Option<string>, part: Option<string>)

  /** The loop variables of `readCpuInfo`: the emitted cores, `currentCore` and `coreIndex`. */
  datatype CpuInfoScan = CpuInfoScan(cores: seq<CoreInfo>, current: PendingCore, coreIndex: int)

  const EmptyCore := PendingCore(None, None)
  const ScanStart := CpuInfoScan([], EmptyCore, -1)

  /**
   * The max frequency of core `index`: the first line of its `cpuinfo_max_freq`
   * file (given as `maxFreqLine`) as a `Long`, or 0 when unreadable.
   */
  function MaxFreqKhz(maxFreqLine: int -> Option<string>, index: int): (f: int)
    ensures IsLong(f)
  {
    match maxFreqLine(index)
    case None => 0
    case Some(l) => ToLongOrNull(l).GetOr(0)
  }

  /** The record emitted for a stanza, with its index and max frequency added. */
  function Emit(current: PendingCore, index: int, maxFreqLine: int -> Option<string>): CoreInfo {
    CoreInfo(index, current.implementer.GetOr(""), current.part.GetOr(""), MaxFreqKhz(maxFreqLine, index))
  }

  /** The key and value of a `key: value` line (both trimmed), or None when the trimmed line has no colon. */
  function KeyValue(trimmed: string): Option<(string, string)> {
    var colon := IndexOf(trimmed, ':');
    if colon < 0 then None else Some((Trim(trimmed[..colon]), Trim(trimmed[colon + 1..])))
  }

  predicate IsProcessorLine(line: string) {
    var kv := KeyValue(Trim(line));
    |Trim(line)| > 0 && kv.Some? && kv.value.0 == "processor"
  }

  /** `value.toIntOrNull() ?: -1` of a `processor` line. */
  function ProcessorValue(line: string): int
    requires IsProcessorLine(line)
  {
    ToIntOrNull(KeyValue(Trim(line)).value.1).GetOr(-1)
  }

  /** One iteration of the `readCpuInfo` loop. A blank line flushes without resetting `coreIndex`. */
  function ScanLine(s: CpuInfoScan, line: string, maxFreqLine: int -> Option<string>): CpuInfoScan {
    var trimmed := Trim(line);
    if |trimmed| == 0 then
      if s.coreIndex >= 0 then CpuInfoScan(s.cores + [Emit(s.current, s.coreIndex, maxFreqLine)], EmptyCore, s.coreIndex)
      else s
    else
      match KeyValue(trimmed)
      case None => s
      case Some((key, value)) => ScanEntry(s, key, value)
  }

  /** A `key: value` line: `processor` sets `coreIndex`, the implementer and part fill the pending record. */
  function ScanEntry(s: CpuInfoScan, key: string, value: string): (t: CpuInfoScan)
    ensures t.cores == s.cores
    ensures t.coreIndex == if key == "processor" then ToIntOrNull(value).GetOr(-1) else s.coreIndex
  {
    if key == "processor" then s.(coreIndex := ToIntOrNull(value).GetOr(-1))
    else if key == "CPU implementer" then s.(current := s.current.(implementer := Some(value)))
    else if key == "CPU part" then s.(current := s.current.(part := Some(value)))
    else s
  }

  function ScanLines(lines: seq<string>, maxFreqLine: int -> Option<string>): CpuInfoScan {
    if |lines| == 0 then ScanStart
    else ScanLine(ScanLines(lines[..|lines| - 1], maxFreqLine), lines[|lines| - 1], maxFreqLine)
  }

  /**
   * The cores `readCpuInfo` returns. The pending record never holds `index`
   * (a record is replaced by a fresh one right after `index` is put into it),
   * so the end-of-input test reduces to `coreIndex >= 0`.
   */
  function CpuInfoRecords(lines: seq<string>, maxFreqLine: int -> Option<string>): seq<CoreInfo> {
    var s := ScanLines(lines, maxFreqLine);
    if s.coreIndex >= 0 then s.cores + [Emit(s.current, s.coreIndex, maxFreqLine)] else s.cores
  }

  /** `readCpuInfo`: the loop over the lines of /proc/cpuinfo and the end-of-input flush. */
  method ReadCpuInfo(lines: seq<string>, maxFreqLine: int -> Option<string>) returns (cores: seq<CoreInfo>)
    ensures cores == CpuInfoRecords(lines, maxFreqLine)
  {
    cores := [];
    var currentCore := EmptyCore;
    var coreIndex := -1;
    var i := 0;
    while i < |lines|
      invariant 0 <= i <= |lines|
      invariant CpuInfoScan(cores, currentCore, coreIndex) == ScanLines(lines[..i], maxFreqLine)
    {
      assert lines[..i + 1][..i] == lines[..i];
      ScanLinesStep(lines[..i + 1], maxFreqLine);
      var trimmed := Trim(lines[i]);
      if |trimmed| == 0 {
        if coreIndex >= 0 {
          var freq := MaxFreqKhz(maxFreqLine, coreIndex);
          cores := cores + [CoreInfo(coreIndex, currentCore.implementer.GetOr(""), currentCore.part.GetOr(""), freq)];
          currentCore := EmptyCore;
        }
      } else {
        var colonIdx := IndexOf(trimmed, ':');
        if colonIdx >= 0 {
          var key := Trim(trimmed[..colonIdx]);
          var value := Trim(trimmed[colonIdx + 1..]);
          if key == "processor" {
            coreIndex := ToIntOrNull(value).GetOr(-1);
          } else if key == "CPU implementer" {
            currentCore := currentCore.(implementer := Some(value));
          } else if key == "CPU part" {
            currentCore := currentCore.(part := Some(value));
          }
        }
      }
      i := i + 1;
    }
    assert lines[..|lines|] == lines;
    if coreIndex >= 0 {
      var freq := MaxFreqKhz(maxFreqLine, coreIndex);
      cores := cores + [CoreInfo(coreIndex, currentCore.implementer.GetOr(""), currentCore.part.GetOr(""), freq)];
    }
  }

  /** One line changes `coreIndex` exactly when it is a `processor` line. */
  lemma ScanLineIndex(s: CpuInfoScan, line: string, maxFreqLine: int -> Option<string>)
    ensures ScanLine(s, line, maxFreqLine).coreIndex == if IsProcessorLine(line) then ProcessorValue(line) else s.coreIndex
  {
  }

  /** One line emits at most the pending record, and only when `coreIndex` is set. */
  lemma ScanLineCores(s: CpuInfoScan, line: string, maxFreqLine: int -> Option<string>)
    ensures var t := ScanLine(s, line, maxFreqLine);
      t.cores == s.cores || (s.coreIndex >= 0 && t.cores == s.cores + [Emit(s.current, s.coreIndex, maxFreqLine)])
  {
  }

  lemma ScanLinesStep(lines: seq<string>, maxFreqLine: int -> Option<string>)
    requires |lines| > 0
    ensures ScanLines(lines, maxFreqLine)
         == ScanLine(ScanLines(lines[..|lines| - 1], maxFreqLine), lines[|lines| - 1], maxFreqLine)
  {
  }

  lemma ScanLinesIndexStep(lines: seq<string>, maxFreqLine: int -> Option<string>)
    requires |lines| > 0
    ensures var last := lines[|lines| - 1];
      ScanLines(lines, maxFreqLine).coreIndex
      == if IsProcessorLine(last) then ProcessorValue(last) else ScanLines(lines[..|lines| - 1], maxFreqLine).coreIndex
  {
    ScanLinesStep(lines, maxFreqLine);
    ScanLineIndex(ScanLines(lines[..|lines| - 1], maxFreqLine), lines[|lines| - 1], maxFreqLine);
  }

  /** `coreIndex` is the value of the last `processor` line, whatever blank lines follow it. */
  lemma {:induction false} CoreIndexIsLastProcessor(lines: seq<string>, i: int, maxFreqLine: int -> Option<string>)
    requires 0 <= i < |lines| && IsProcessorLine(lines[i])
    requires forall j {:trigger IsProcessorLine(lines[j])} :: i < j < |lines| ==> !IsProcessorLine(lines[j])
    ensures ScanLines(lines, maxFreqLine).coreIndex == ProcessorValue(lines[i])
  {
    var n := |lines|;
    if i == n - 1 {
      ScanLinesIndexStep(lines, maxFreqLine);
    } else {
      var prefix := lines[..n - 1];
      NoLaterProcessorInPrefix(lines, i);
      CoreIndexIsLastProcessor(prefix, i, maxFreqLine);
      assert !IsProcessorLine(lines[n - 1]);
      SkipsOtherLine(lines, maxFreqLine);
    }
  }

  lemma NoLaterProcessorInPrefix(lines: seq<string>, i: int)
    requires 0 <= i < |lines| - 1 && IsProcessorLine(lines[i])
    requires forall j {:trigger IsProcessorLine(lines[j])} :: i < j < |lines| ==> !IsProcessorLine(lines[j])
    ensures lines[..|lines| - 1][i] == lines[i]
    ensures forall j {:trigger IsProcessorLine(lines[..|lines| - 1][j])} :: i < j < |lines| - 1 ==> !IsProcessorLine(lines[..|lines| - 1][j])
  {
    var prefix := lines[..|lines| - 1];
    assert prefix[i] == lines[i];
    forall j | i < j < |prefix| ensures !IsProcessorLine(prefix[j]) {
      assert prefix[j] == lines[j];
      assert !IsProcessorLine(lines[j]);
    }
  }

  /** A last line that is not a `processor` line leaves `coreIndex` alone. */
  lemma SkipsOtherLine(lines: seq<string>, maxFreqLine: int -> Option<string>)
    requires |lines| > 0 && !IsProcessorLine(lines[|lines| - 1])
    ensures ScanLines(lines, maxFreqLine).coreIndex == ScanLines(lines[..|lines| - 1], maxFreqLine).coreIndex
  {
    ScanLinesIndexStep(lines, maxFreqLine);
  }

  /** Without a `processor` line nothing is emitted. */
  lemma {:induction false} NoProcessorNoCores(lines: seq<string>, maxFreqLine: int -> Option<string>)
    requires forall j {:trigger IsProcessorLine(lines[j])} :: 0 <= j < |lines| ==> !IsProcessorLine(lines[j])
    ensures ScanLines(lines, maxFreqLine).coreIndex == -1 && ScanLines(lines, maxFreqLine).cores == []
    ensures CpuInfoRecords(lines, maxFreqLine) == []
  {
    if |lines| > 0 {
      var n := |lines|;
      var prefix := lines[..n - 1];
      var last := lines[n - 1];
      forall j | 0 <= j < |prefix| ensures !IsProcessorLine(prefix[j]) {
        assert prefix[j] == lines[j];
        assert !IsProcessorLine(lines[j]);
      }
      NoProcessorNoCores(prefix, maxFreqLine);
      assert !IsProcessorLine(last);
      ScanLinesStep(lines, maxFreqLine);
      ScanLineIndex(ScanLines(prefix, maxFreqLine), last, maxFreqLine);
      ScanLineCores(ScanLines(prefix, maxFreqLine), last, maxFreqLine);
    }
  }

  /** Every emitted core carries a non-negative index and that core's max frequency. */
  lemma {:induction false} ScanCoresIndexed(lines: seq<string>, maxFreqLine: int -> Option<string>)
    ensures forall c :: c in ScanLines(lines, maxFreqLine).cores ==> c.index >= 0 && c.maxFreqKhz == MaxFreqKhz(maxFreqLine, c.index)
  {
    if |lines| > 0 {
      var prefix := lines[..|lines| - 1];
      ScanCoresIndexed(prefix, maxFreqLine);
      ScanLinesStep(lines, maxFreqLine);
      ScanLineCores(ScanLines(prefix, maxFreqLine), lines[|lines| - 1], maxFreqLine);
    }
  }

  lemma CpuInfoRecordsIndexed(lines: seq<string>, maxFreqLine: int -> Option<string>)
    ensures forall c :: c in CpuInfoRecords(lines, maxFreqLine) ==> c.index >= 0 && c.maxFreqKhz == MaxFreqKhz(maxFreqLine, c.index)
  {
    ScanCoresIndexed(lines, maxFreqLine);
  }

  /**
   * A blank line at the end of the file (as the kernel writes it) flushes the
   * last stanza and, because `coreIndex` is not reset, the end-of-input check
   * then emits one more, empty record with the same index.
   */
  lemma TrailingBlankLineRepeatsLastCore(lines: seq<string>, blank: string, maxFreqLine: int -> Option<string>)
    requires Trim(blank) == ""
    requires ScanLines(lines, maxFreqLine).coreIndex >= 0
    ensures var idx := ScanLines(lines, maxFreqLine).coreIndex;
      CpuInfoRecords(lines + [blank], maxFreqLine)
      == CpuInfoRecords(lines, maxFreqLine) + [CoreInfo(idx, "", "", MaxFreqKhz(maxFreqLine, idx))]
  {
    var s := ScanLines(lines, maxFreqLine);
    assert (lines + [blank])[..|lines|] == lines;
    ScanLinesStep(lines + [blank], maxFreqLine);
    assert ScanLines(lines + [blank], maxFreqLine)
        == CpuInfoScan(s.cores + [Emit(s.current, s.coreIndex, maxFreqLine)], EmptyCore, s.coreIndex);
  }

  // ---------------------------------------------------------------------------
  // getSystemInfo

  /**
   * `getSystemInfo`: the core count, the cores of /proc/cpuinfo and the seven
   * memory fields of /proc/meminfo, each defaulting to 0 when absent.
   */
  function GetSystemInfo(numCores: int, cpuInfoLines: seq<string>, maxFreqLine: int -> Option<string>,
                         memInfoLines: seq<string>): (info: SystemInfoData)
    ensures info.coreCount == numCores
    ensures info.coreTypes == CpuInfoRecords(cpuInfoLines, maxFreqLine)
    ensures forall c :: c in info.coreTypes ==> c.index >= 0
    ensures (forall i :: 0 <= i < |memInfoLines| ==> !DefinesKey(memInfoLines[i], "MemTotal")) ==> info.totalMemKb == 0
    ensures (forall i :: 0 <= i < |memInfoLines| ==> !DefinesKey(memInfoLines[i], "SwapTotal")) ==> info.swapTotalKb == 0
    ensures info == MemorySystemInfo(numCores, info.coreTypes, MemInfoTable(memInfoLines))
  {
    CpuInfoRecordsIndexed(cpuInfoLines, maxFreqLine);
    MemInfoTableKeys(memInfoLines, "MemTotal");
    MemInfoTableKeys(memInfoLines, "SwapTotal");
    MemorySystemInfo(numCores, CpuInfoRecords(cpuInfoLines, maxFreqLine), MemInfoTable(memInfoLines))
  }

  /** A `SystemInfoData` whose memory fields are read from a meminfo table with default 0. */
  function MemorySystemInfo(coreCount: int, cores: seq<CoreInfo>, table: map<string, int>): SystemInfoData {
    SystemInfoData(
      coreCount, cores,
      MemField(table, "MemTotal"), MemField(table, "MemFree"), MemField(table, "MemAvailable"),
      MemField(table, "Buffers"), MemField(table, "Cached"),
      MemField(table, "SwapTotal"), MemField(table, "SwapFree"))
  }
}
