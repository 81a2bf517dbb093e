/**
 * What the main screen computes from the service's data (`MainActivity`):
 * the CPU summary with cores grouped by part number, the memory and swap
 * lines in whole megabytes, and the process list sorted for display.
 */
module Display {
  import opened Text
  import opened Numeric
  import opened Records

  // ---------------------------------------------------------------------------
  // Part numbers

  /** The ARM part numbers `mapCpuPart` knows, keyed by their lower-case text. */
  const CpuParts: map<string, string> := map[
    "0xd03" := "Cortex-A53", "0xd04" := "Cortex-A35", "0xd05" := "Cortex-A55",
    "0xd06" := "Cortex-A65", "0xd07" := "Cortex-A57", "0xd08" := "Cortex-A72",
    "0xd09" := "Cortex-A73", "0xd0a" := "Cortex-A75", "0xd0b" := "Cortex-A76",
    "0xd0c" := "Neoverse-N1", "0xd0d" := "Cortex-A77", "0xd0e" := "Cortex-A76AE",
    "0xd40" := "Neoverse-V1", "0xd41" := "Cortex-A78", "0xd42" := "Cortex-A78AE",
    "0xd43" := "Cortex-A65AE", "0xd44" := "Cortex-X1", "0xd46" := "Cortex-A510",
    "0xd47" := "Cortex-A710", "0xd48" := "Cortex-X2", "0xd49" := "Neoverse-N2",
    "0xd4a" := "Neoverse-E1", "0xd4b" := "Cortex-A78C", "0xd4d" := "Cortex-A715",
    "0xd4e" := "Cortex-X3", "0xd80" := "Cortex-A520", "0xd81" := "Cortex-A720",
    "0xd82" := "Cortex-X4"]

  /** `mapCpuPart`: the core name of a part number in any letter case, or the text itself when unknown. */
  function MapCpuPart(part: string): (name: string)
    ensures Lowercase(part) in CpuParts ==> name == CpuParts[Lowercase(part)]
    ensures Lowercase(part) !in CpuParts ==> name == part
  {
    var key := Lowercase(part);
    if key in CpuParts then CpuParts[key] else part
  }

  /** Two spellings of a known part number that differ only in letter case get the same label. */
  lemma MapCpuPartIgnoresCase(a: string, b: string)
    requires Lowercase(a) == Lowercase(b)
    requires Lowercase(a) in CpuParts
    ensures MapCpuPart(a) == MapCpuPart(b)
  {
  }

  /** An upper-case part number is recognised: `0xD05` is a Cortex-A55. */
  lemma UpperCasePart()
    ensures MapCpuPart("0xD05") == "Cortex-A55"
  {
    assert Lowercase("0xD05") == "0xd05";
  }

  /** Every key of the table is already lower case, so the lookup can reach each entry. */
  lemma CpuPartKeysLowercase(key: string)
    requires key in CpuParts
    ensures Lowercase(key) == key
    ensures MapCpuPart(key) == CpuParts[key]
  {
  }

  // ---------------------------------------------------------------------------
  // Memory and swap lines

  /** The figures of the memory line, each a `Long` division by 1024. */
  datatype MemoryMb = MemoryMb(totalMb: int, usedMb: int, freeMb: int, buffersMb: int, cachedMb: int)

  /** The used memory is the `Long` difference `totalMemKb - availMemKb`, which wraps around. */
  function MemoryFigures(info: SystemInfoData): (m: MemoryMb) {
    MemoryMb(
      DivTrunc(info.totalMemKb, 1024), DivTrunc(Wrap64(info.totalMemKb - info.availMemKb), 1024),
      DivTrunc(info.availMemKb, 1024), DivTrunc(info.buffersKb, 1024), DivTrunc(info.cachedKb, 1024))
  }

  /**
   * When the available memory lies within the total, the used and available
   * megabytes are non-negative and add up to the total megabytes or one less,
   * the truncation losing at most one megabyte.
   */
  lemma MemoryFiguresAddUp(info: SystemInfoData)
    requires 0 <= info.availMemKb <= info.totalMemKb <= LONG_MAX
    ensures var m := MemoryFigures(info);
      0 <= m.usedMb && 0 <= m.freeMb && m.usedMb + m.freeMb <= m.totalMb <= m.usedMb + m.freeMb + 1
  {
  }

  /** The memory line. */
  function MemoryText(info: SystemInfoData): string {
    var m := MemoryFigures(info);
    "Mem: " + FormatDecimal(m.totalMb) + "MB total, " + FormatDecimal(m.usedMb) + "MB used, "
      + FormatDecimal(m.freeMb) + "MB avail, " + FormatDecimal(m.buffersMb) + "MB buf, "
      + FormatDecimal(m.cachedMb) + "MB cache"
  }

  /** The swap line: the three figures, or `Swap: none` when the total is under a megabyte; the used swap is a wrapping `Long` difference. */
  function SwapText(info: SystemInfoData): string {
    var totalMb := DivTrunc(info.swapTotalKb, 1024);
    if totalMb > 0 then
      "Swap: " + FormatDecimal(totalMb) + "MB total, "
        + FormatDecimal(DivTrunc(Wrap64(info.swapTotalKb - info.swapFreeKb), 1024)) + "MB used, "
        + FormatDecimal(DivTrunc(info.swapFreeKb, 1024)) + "MB free"
    else "Swap: none"
  }

  /** The swap line reads `Swap: none` exactly when less than 1024 kB of swap exist. */
  lemma SwapNoneIff(info: SystemInfoData)
    ensures SwapText(info) == "Swap: none" <==> DivTrunc(info.swapTotalKb, 1024) <= 0
    ensures DivTrunc(info.swapTotalKb, 1024) <= 0 <==> info.swapTotalKb < 1024
  {
    var totalMb := DivTrunc(info.swapTotalKb, 1024);
    if totalMb > 0 {
      var digits := FormatDecimal(totalMb);
      var text := SwapText(info);
      assert digits == NatDigits(totalMb);
      assert text[6] == digits[0];
      assert "Swap: none"[6] == 'n';
    }
  }

  // ---------------------------------------------------------------------------
  // CPU summary

  /** One entry of `coreTypes.groupBy { it.part }`: a part number and its cores, in order. */
  datatype Group = Group(part: string, cores: seq<CoreInfo>)

  function Keys(groups: seq<Group>): (keys: seq<string>)
    ensures |keys| == |groups|
    ensures forall i :: 0 <= i < |groups| ==> keys[i] == groups[i].part
  {
    seq(|groups|, i requires 0 <= i < |groups| => groups[i].part)
  }

  predicate Distinct(s: seq<string>) {
    forall i, j :: 0 <= i < j < |s| ==> s[i] != s[j]
  }

  /** Add a core to the group of its part, or open a new group at the end. */
  function AddToGroups(groups: seq<Group>, c: CoreInfo): (r: seq<Group>)
    ensures |r| == |groups| + (if c.part in Keys(groups) then 0 else 1)
  {
    if |groups| == 0 then [Group(c.part, [c])]
    else if groups[0].part == c.part then [groups[0].(cores := groups[0].cores + [c])] + groups[1..]
    else
      assert Keys(groups[1..]) == Keys(groups)[1..];
      [groups[0]] + AddToGroups(groups[1..], c)
  }

  /** `groupBy { it.part }`: the groups in order of first appearance, each in the cores' order. */
  function GroupByPart(cores: seq<CoreInfo>): seq<Group> {
    if |cores| == 0 then [] else AddToGroups(GroupByPart(cores[..|cores| - 1]), cores[|cores| - 1])
  }

  /** The reference: the part numbers in order of first appearance. */
  function FirstParts(cores: seq<CoreInfo>): seq<string> {
    if |cores| == 0 then []
    else
      var parts := FirstParts(cores[..|cores| - 1]);
      if cores[|cores| - 1].part in parts then parts else parts + [cores[|cores| - 1].part]
  }

  /** The reference: the cores of one part, in order. */
  function CoresOf(cores: seq<CoreInfo>, part: string): (r: seq<CoreInfo>)
    ensures |r| <= |cores|
  {
    if |cores| == 0 then []
    else
      var before := CoresOf(cores[..|cores| - 1], part);
      if cores[|cores| - 1].part == part then before + [cores[|cores| - 1]] else before
  }

  /** A new group only changes the keys when its part is new. */
  lemma {:induction false} AddToGroupsKeys(groups: seq<Group>, c: CoreInfo)
    ensures Keys(AddToGroups(groups, c)) ==
      (if c.part in Keys(groups) then Keys(groups) else Keys(groups) + [c.part])
  {
    if |groups| > 0 && groups[0].part != c.part {
      assert Keys(groups[1..]) == Keys(groups)[1..];
      AddToGroupsKeys(groups[1..], c);
    }
  }

  /** With distinct keys, adding a core extends exactly the group of its part. */
  lemma {:induction false} AddToGroupsCores(groups: seq<Group>, c: CoreInfo, i: int)
    requires Distinct(Keys(groups))
    requires 0 <= i < |AddToGroups(groups, c)|
    ensures AddToGroups(groups, c)[i].cores ==
      (if i < |groups| then groups[i].cores + (if groups[i].part == c.part then [c] else []) else [c])
  {
    if |groups| > 0 && groups[0].part != c.part && i > 0 {
      assert Keys(groups[1..]) == Keys(groups)[1..];
      AddToGroupsCores(groups[1..], c, i - 1);
    } else if |groups| > 0 && groups[0].part == c.part && i > 0 {
      assert Keys(groups)[0] == c.part;
      assert groups[i].part != c.part by {
        assert Keys(groups)[i] == groups[i].part;
      }
    }
  }

  /** A part number is listed exactly when some core has it. */
  lemma {:induction false} FirstPartsMembers(cores: seq<CoreInfo>, p: string)
    ensures p in FirstParts(cores) <==> exists i :: 0 <= i < |cores| && cores[i].part == p
  {
    if |cores| > 0 {
      var n := |cores| - 1;
      var prefix := cores[..n];
      FirstPartsMembers(prefix, p);
      if p in FirstParts(cores) {
        if p in FirstParts(prefix) {
          var i :| 0 <= i < |prefix| && prefix[i].part == p;
          assert cores[i].part == p;
        } else {
          assert cores[n].part == p;
        }
      } else {
        forall i | 0 <= i < |cores| ensures cores[i].part != p {
          if i < n {
            assert prefix[i] == cores[i];
          }
        }
      }
    }
  }

  lemma {:induction false} FirstPartsDistinct(cores: seq<CoreInfo>)
    ensures Distinct(FirstParts(cores))
  {
    if |cores| > 0 {
      FirstPartsDistinct(cores[..|cores| - 1]);
    }
  }

  /**
   * `groupBy` agrees with the reference: its keys are the part numbers in
   * order of first appearance, and each group holds exactly the cores of its
   * part, in order.
   */
  lemma {:induction false} GroupByPartSpec(cores: seq<CoreInfo>)
    ensures Keys(GroupByPart(cores)) == FirstParts(cores)
    ensures forall i :: 0 <= i < |GroupByPart(cores)| ==>
      GroupByPart(cores)[i].cores == CoresOf(cores, GroupByPart(cores)[i].part)
  {
    if |cores| > 0 {
      var prefix := cores[..|cores| - 1];
      var c := cores[|cores| - 1];
      var before := GroupByPart(prefix);
      GroupByPartSpec(prefix);
      FirstPartsDistinct(prefix);
      AddToGroupsKeys(before, c);
      var after := GroupByPart(cores);
      forall i | 0 <= i < |after| ensures after[i].cores == CoresOf(cores, after[i].part) {
        AddToGroupsCores(before, c, i);
        if i < |before| {
          assert Keys(after)[i] == Keys(before)[i];
        } else {
          assert Keys(after)[i] == c.part;
          assert c.part !in Keys(before);
          CoresOfAbsent(prefix, c.part);
        }
      }
    }
  }

  lemma {:induction false} CoresOfAbsent(cores: seq<CoreInfo>, p: string)
    requires p !in FirstParts(cores)
    ensures CoresOf(cores, p) == []
  {
    FirstPartsMembers(cores, p);
    if |cores| > 0 {
      var prefix := cores[..|cores| - 1];
      FirstPartsMembers(prefix, p);
      assert forall i :: 0 <= i < |prefix| ==> prefix[i] == cores[i];
      CoresOfAbsent(prefix, p);
    }
  }

  /** Every group is non-empty: each key comes from some core. */
  lemma GroupsNonEmpty(cores: seq<CoreInfo>, i: int)
    requires 0 <= i < |GroupByPart(cores)|
    ensures |GroupByPart(cores)[i].cores| > 0
  {
    GroupByPartSpec(cores);
    var p := GroupByPart(cores)[i].part;
    assert Keys(GroupByPart(cores))[i] == p;
    FirstPartsMembers(cores, p);
    var k :| 0 <= k < |cores| && cores[k].part == p;
    CoresOfHas(cores, p, k);
  }

  lemma AllGroupsNonEmpty(cores: seq<CoreInfo>)
    ensures NonEmptyGroups(GroupByPart(cores))
  {
    forall i | 0 <= i < |GroupByPart(cores)| ensures |GroupByPart(cores)[i].cores| > 0 {
      GroupsNonEmpty(cores, i);
    }
  }

  lemma {:induction false} CoresOfHas(cores: seq<CoreInfo>, p: string, k: int)
    requires 0 <= k < |cores| && cores[k].part == p
    ensures |CoresOf(cores, p)| > 0
  {
    if k < |cores| - 1 {
      CoresOfHas(cores[..|cores| - 1], p, k);
    }
  }

  /** `cores.maxOf { it.maxFreqKhz }` over a non-empty group. */
  function MaxFreq(cores: seq<CoreInfo>): (m: int)
    requires |cores| > 0
    ensures forall c :: c in cores ==> c.maxFreqKhz <= m
    ensures exists c :: c in cores && c.maxFreqKhz == m
  {
    if |cores| == 1 then cores[0].maxFreqKhz
    else
      var prefix := cores[..|cores| - 1];
      var best := MaxFreq(prefix);
      assert forall c :: c in cores ==> c in prefix || c == cores[|cores| - 1];
      var last := cores[|cores| - 1].maxFreqKhz;
      if best < last then last else best
  }

  /** One line of the CPU summary: the count, the label and the top frequency when it is positive. */
  function GroupLine(g: Group): string
    requires |g.cores| > 0
  {
    var freqMhz := DivTrunc(MaxFreq(g.cores), 1000);
    var coreName := MapCpuPart(g.part);
    if freqMhz > 0 then "\n  " + FormatDecimal(|g.cores|) + "x " + coreName + " @ " + FormatDecimal(freqMhz) + "MHz"
    else "\n  " + FormatDecimal(|g.cores|) + "x " + coreName
  }

  predicate NonEmptyGroups(groups: seq<Group>) {
    forall i :: 0 <= i < |groups| ==> |groups[i].cores| > 0
  }

  function GroupLines(groups: seq<Group>): string
    requires NonEmptyGroups(groups)
  {
    if |groups| == 0 then "" else GroupLines(groups[..|groups| - 1]) + GroupLine(groups[|groups| - 1])
  }

  /** After a header, the lines of one more group are the previous lines followed by that group's line. */
  lemma GroupLinesStep(header: string, groups: seq<Group>, k: int)
    requires NonEmptyGroups(groups) && 0 <= k < |groups|
    ensures header + GroupLines(groups[..k + 1]) == (header + GroupLines(groups[..k])) + GroupLine(groups[k])
  {
    assert groups[..k + 1][..k] == groups[..k];
  }

  /** The CPU summary of `displaySystemInfo`: the core count, then one line per part. */
  function CpuText(info: SystemInfoData): string {
    var groups := GroupByPart(info.coreTypes);
    AllGroupsNonEmpty(info.coreTypes);
    "CPU: " + FormatDecimal(info.coreCount) + " cores" + GroupLines(groups)
  }

  /** Without core records the summary is the core count alone. */
  lemma CpuTextWithoutCores(info: SystemInfoData)
    requires info.coreTypes == []
    ensures CpuText(info) == "CPU: " + FormatDecimal(info.coreCount) + " cores"
  {
  }

  /**
   * The summary is the core count followed by one line per distinct part
   * number, in order of first appearance, each over exactly that part's cores.
   */
  lemma CpuTextGroups(info: SystemInfoData)
    ensures var parts := FirstParts(info.coreTypes);
      var gs := seq(|parts|, i requires 0 <= i < |parts| => Group(parts[i], CoresOf(info.coreTypes, parts[i])));
      NonEmptyGroups(gs) && CpuText(info) == "CPU: " + FormatDecimal(info.coreCount) + " cores" + GroupLines(gs)
  {
    var parts := FirstParts(info.coreTypes);
    var gs := seq(|parts|, i requires 0 <= i < |parts| => Group(parts[i], CoresOf(info.coreTypes, parts[i])));
    GroupByPartSpec(info.coreTypes);
    AllGroupsNonEmpty(info.coreTypes);
    assert GroupByPart(info.coreTypes) == gs;
  }

  /** `buildString` in `displaySystemInfo`: the core count, then the group lines when there are cores. */
  method CpuSummary(info: SystemInfoData) returns (text: string)
    ensures text == CpuText(info)
  {
    text := "CPU: " + FormatDecimal(info.coreCount) + " cores";
    if |info.coreTypes| > 0 {
      var grouped := GroupByPart(info.coreTypes);
      AllGroupsNonEmpty(info.coreTypes);
      text := AppendGroupLines(text, grouped);
    }
  }

  /** The loop over the groups, one line appended per group. */
  method AppendGroupLines(header: string, groups: seq<Group>) returns (text: string)
    requires NonEmptyGroups(groups)
    ensures text == header + GroupLines(groups)
  {
    text := header;
    for k := 0 to |groups|
      invariant text == header + GroupLines(groups[..k])
    {
      var line := GroupLine(groups[k]);
      GroupLinesStep(header, groups, k);
      text := text + line;
    }
    assert groups[..|groups|] == groups;
  }

  // ---------------------------------------------------------------------------
  // Sorting

  /** The column the list is sorted by. */
  datatype SortKey = ByCpu | ByMem

  function KeyOf(p: ProcessInfo, key: SortKey): real {
    if key == ByCpu then p.cpuPercent else p.memPercent
  }

  predicate Descending(s: seq<ProcessInfo>, key: SortKey) {
    forall i, j :: 0 <= i < j < |s| ==> KeyOf(s[i], key) >= KeyOf(s[j], key)
  }

  /** Insert before the first element whose key is not larger, so an earlier element stays ahead of equal ones. */
  function Insert(x: ProcessInfo, s: seq<ProcessInfo>, key: SortKey): (r: seq<ProcessInfo>)
    ensures |r| == |s| + 1
  {
    if |s| == 0 || KeyOf(x, key) >= KeyOf(s[0], key) then [x] + s
    else [s[0]] + Insert(x, s[1..], key)
  }

  /** `sortedByDescending`, a stable sort. */
  function SortDescending(ps: seq<ProcessInfo>, key: SortKey): (r: seq<ProcessInfo>)
    ensures |r| == |ps|
  {
    if |ps| == 0 then [] else Insert(ps[0], SortDescending(ps[1..], key), key)
  }

  /** `applySortAndDisplay`: by CPU share or by memory share, largest first. */
  function SortForDisplay(ps: seq<ProcessInfo>, sortByCpu: bool): seq<ProcessInfo> {
    SortDescending(ps, if sortByCpu then ByCpu else ByMem)
  }

  /** The elements of `s` whose key equals `v`, in order. */
  function WithKey(s: seq<ProcessInfo>, key: SortKey, v: real): seq<ProcessInfo> {
    if |s| == 0 then [] else (if KeyOf(s[0], key) == v then [s[0]] else []) + WithKey(s[1..], key, v)
  }

  lemma {:induction false} InsertDescending(x: ProcessInfo, s: seq<ProcessInfo>, key: SortKey)
    requires Descending(s, key)
    ensures Descending(Insert(x, s, key), key)
  {
    var r := Insert(x, s, key);
    if |s| == 0 || KeyOf(x, key) >= KeyOf(s[0], key) {
      assert r == [x] + s;
      forall i, j | 0 <= i < j < |r| ensures KeyOf(r[i], key) >= KeyOf(r[j], key) {
        assert r[j] == s[j - 1];
        if i > 0 {
          assert r[i] == s[i - 1];
        }
      }
    } else {
      var tail := s[1..];
      var rest := Insert(x, tail, key);
      InsertDescending(x, tail, key);
      InsertBounded(x, tail, key, KeyOf(s[0], key));
      assert r == [s[0]] + rest;
      forall i, j | 0 <= i < j < |r| ensures KeyOf(r[i], key) >= KeyOf(r[j], key) {
        assert r[j] == rest[j - 1];
        if i > 0 {
          assert r[i] == rest[i - 1];
        }
      }
    }
  }

  /** Inserting keeps every key under a common bound. */
  lemma {:induction false} InsertBounded(x: ProcessInfo, s: seq<ProcessInfo>, key: SortKey, b: real)
    requires KeyOf(x, key) <= b
    requires forall i :: 0 <= i < |s| ==> KeyOf(s[i], key) <= b
    ensures forall i :: 0 <= i < |Insert(x, s, key)| ==> KeyOf(Insert(x, s, key)[i], key) <= b
  {
    var r := Insert(x, s, key);
    if |s| == 0 || KeyOf(x, key) >= KeyOf(s[0], key) {
      assert r == [x] + s;
      forall i | 0 < i < |r| ensures KeyOf(r[i], key) <= b {
        assert r[i] == s[i - 1];
      }
    } else {
      InsertBounded(x, s[1..], key, b);
      assert r == [s[0]] + Insert(x, s[1..], key);
      forall i | 0 < i < |r| ensures KeyOf(r[i], key) <= b {
        assert r[i] == Insert(x, s[1..], key)[i - 1];
      }
    }
  }

  lemma {:induction false} InsertMultiset(x: ProcessInfo, s: seq<ProcessInfo>, key: SortKey)
    ensures multiset(Insert(x, s, key)) == multiset(s) + multiset{x}
  {
    if |s| > 0 && KeyOf(x, key) < KeyOf(s[0], key) {
      InsertMultiset(x, s[1..], key);
      assert s == [s[0]] + s[1..];
    }
  }

  lemma {:induction false} InsertWithKey(x: ProcessInfo, s: seq<ProcessInfo>, key: SortKey, v: real)
    requires Descending(s, key)
    ensures WithKey(Insert(x, s, key), key, v) == (if KeyOf(x, key) == v then [x] else []) + WithKey(s, key, v)
  {
    var r := Insert(x, s, key);
    if |s| == 0 || KeyOf(x, key) >= KeyOf(s[0], key) {
      assert r[1..] == s;
    } else {
      InsertWithKey(x, s[1..], key, v);
      assert r[1..] == Insert(x, s[1..], key);
      if KeyOf(x, key) == v {
        assert KeyOf(s[0], key) != v;
      }
    }
  }

  /**
   * The displayed list is the current list reordered: the keys never
   * increase along it, it has the same elements, and among elements with an
   * equal key the original order is kept.
   */
  lemma {:induction false} SortDescendingSpec(ps: seq<ProcessInfo>, key: SortKey)
    ensures Descending(SortDescending(ps, key), key)
    ensures multiset(SortDescending(ps, key)) == multiset(ps)
    ensures forall v :: WithKey(SortDescending(ps, key), key, v) == WithKey(ps, key, v)
  {
    SortDescendingOrdered(ps, key);
    SortDescendingPermutes(ps, key);
    forall v ensures WithKey(SortDescending(ps, key), key, v) == WithKey(ps, key, v) {
      SortDescendingStable(ps, key, v);
    }
  }

  lemma {:induction false} SortDescendingOrdered(ps: seq<ProcessInfo>, key: SortKey)
    ensures Descending(SortDescending(ps, key), key)
  {
    if |ps| > 0 {
      SortDescendingOrdered(ps[1..], key);
      InsertDescending(ps[0], SortDescending(ps[1..], key), key);
    }
  }

  lemma {:induction false} SortDescendingPermutes(ps: seq<ProcessInfo>, key: SortKey)
    ensures multiset(SortDescending(ps, key)) == multiset(ps)
  {
    if |ps| > 0 {
      SortDescendingPermutes(ps[1..], key);
      InsertMultiset(ps[0], SortDescending(ps[1..], key), key);
      assert ps == [ps[0]] + ps[1..];
    }
  }

  lemma {:induction false} SortDescendingStable(ps: seq<ProcessInfo>, key: SortKey, v: real)
    ensures WithKey(SortDescending(ps, key), key, v) == WithKey(ps, key, v)
  {
    if |ps| > 0 {
      SortDescendingStable(ps[1..], key, v);
      SortDescendingOrdered(ps[1..], key);
      InsertWithKey(ps[0], SortDescending(ps[1..], key), key, v);
    }
  }

}
