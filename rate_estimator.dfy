/**
 * The per-process CPU-rate estimator of the privileged sampler
 * (`ProcessMonitorUserService.getProcessSnapshot`).  The service keeps the
 * cumulative tick counts of the previous call and turns the difference to
 * this call's counts into percentages.  The directory listing of /proc and
 * the file reads are inputs: one `PidDir` per directory under /proc, holding
 * the first lines of its `stat` and `statm` files.
 */
module RateEstimator {
  import opened Wrappers
  import opened Text
  import opened Numeric
  import opened Records
  import opened ProcReaders

  /** A directory under /proc and the first lines of its `stat` and `statm` files (None when unreadable). */
  datatype PidDir = PidDir(name: string, stat: Option<string>, statm: Option<string>)

  /** What a snapshot computes each row from: the previous tick map, the elapsed total ticks, the core count, MemTotal and the page size. */
  datatype Sampling = Sampling(prev: map<int, int>, deltaTotal: int, numCores: int, totalMemKb: int, pageSize: int)

  /** A process whose stat line parsed: its pid, its stat fields and its `statm` line. */
  datatype Sampled = Sampled(pid: int, stat: ProcStat, statm: Option<string>)

  /**
   * What one directory contributes: None when the listing filter drops it
   * (a name with a character other than a decimal digit), when `toInt`
   * throws on its name (skipped by the catch) or when its stat file is
   * unreadable or its line does not parse (both `continue`).
   */
  function Sample(d: PidDir): (r: Option<Sampled>)
    ensures r.Some? <==> AllDigits(d.name) && ToIntOrNull(d.name).Some? && d.stat.Some? && ParseProcStat(d.stat.value).Some?
    ensures r.Some? ==> r.value == Sampled(ToIntOrNull(d.name).value, ParseProcStat(d.stat.value).value, d.statm)
    ensures r.Some? ==> r.value.pid >= 0
  {
    if !AllDigits(d.name) then None
    else
    match ToIntOrNull(d.name)
    case None => None
    case Some(pid) =>
      match d.stat
      case None => None
      case Some(line) =>
        match ParseProcStat(line)
        case None => None
        case Some(st) => Some(Sampled(pid, st, d.statm))
  }

  /** `utime + stime` as a Kotlin `Long` sum. */
  function ProcJiffies(st: ProcStat): (r: int)
    ensures IsLong(r)
    ensures IsLong(st.utime + st.stime) ==> r == st.utime + st.stime
  {
    Wrap64(st.utime + st.stime)
  }

  /** Ticks elapsed since the previous call; 0 on the first call, when the stored total is still 0. */
  function DeltaTotal(previousTotal: int, total: int): (r: int)
    ensures previousTotal <= 0 ==> r == 0
    ensures previousTotal > 0 && IsLong(total - previousTotal) ==> r == total - previousTotal
  {
    if previousTotal > 0 then Wrap64(total - previousTotal) else 0
  }

  /**
   * A process's CPU share: its ticks since the previous call over the
   * elapsed total ticks, scaled by the core count and by 100.  A pid the
   * previous call did not see is compared with itself.
   */
  function CpuPercent(prev: map<int, int>, deltaTotal: int, numCores: int, pid: int, jiffies: int): (r: real)
    ensures numCores >= 0 ==> r >= 0.0
    ensures deltaTotal <= 0 || pid !in prev ==> r == 0.0
    ensures pid in prev && LONG_MIN <= jiffies - prev[pid] < 0 ==> r == 0.0
  {
    if deltaTotal > 0 then
      var previous := if pid in prev then prev[pid] else jiffies;
      var deltaProc := Wrap64(jiffies - previous);
      if deltaProc >= 0 then
        NonNegativeRate(deltaProc, deltaTotal, numCores);
        (deltaProc as real / deltaTotal as real) * numCores as real * 100.0
      else 0.0
    else 0.0
  }

  lemma NonNegativeRate(deltaProc: int, deltaTotal: int, numCores: int)
    requires deltaProc >= 0 && deltaTotal > 0
    ensures numCores >= 0 ==> (deltaProc as real / deltaTotal as real) * numCores as real * 100.0 >= 0.0
  {
    var share := deltaProc as real / deltaTotal as real;
    assert share >= 0.0;
    if numCores >= 0 {
      assert share * numCores as real >= 0.0;
    }
  }

  /**
   * When time has passed and the pid was seen before, its percentage times
   * the elapsed total equals its own elapsed ticks times cores times 100.
   */
  lemma CpuPercentRate(prev: map<int, int>, deltaTotal: int, numCores: int, pid: int, jiffies: int, previous: int)
    requires deltaTotal > 0 && pid in prev && prev[pid] == previous
    requires 0 <= jiffies - previous <= LONG_MAX
    ensures CpuPercent(prev, deltaTotal, numCores, pid, jiffies) * deltaTotal as real
         == (jiffies - previous) as real * numCores as real * 100.0
  {
    var d := jiffies - previous;
    var share := d as real / deltaTotal as real;
    assert share * deltaTotal as real == d as real;
    calc {
      CpuPercent(prev, deltaTotal, numCores, pid, jiffies) * deltaTotal as real;
      share * numCores as real * 100.0 * deltaTotal as real;
      (share * deltaTotal as real) * numCores as real * 100.0;
    }
  }

  /** For a pid seen before whose ticks did not fall, the percentage is its tick share times cores times 100. */
  lemma CpuPercentFormula(prev: map<int, int>, deltaTotal: int, numCores: int, pid: int, jiffies: int, previous: int)
    requires deltaTotal > 0 && pid in prev && prev[pid] == previous
    requires 0 <= jiffies - previous <= LONG_MAX
    ensures CpuPercent(prev, deltaTotal, numCores, pid, jiffies)
         == ((jiffies - previous) as real / deltaTotal as real) * numCores as real * 100.0
  {
    assert Wrap64(jiffies - previous) == jiffies - previous;
  }

  /** A process that used at most the elapsed ticks shows at most `numCores * 100` percent. */
  lemma CpuPercentAtMostAllCores(prev: map<int, int>, deltaTotal: int, numCores: int, pid: int, jiffies: int)
    requires 0 < deltaTotal <= LONG_MAX && numCores >= 0
    requires pid in prev ==> LONG_MIN <= jiffies - prev[pid] <= deltaTotal
    ensures CpuPercent(prev, deltaTotal, numCores, pid, jiffies) <= numCores as real * 100.0
  {
    if pid in prev && 0 <= jiffies - prev[pid] {
      var d := jiffies - prev[pid];
      assert Wrap64(d) == d;
      var share := d as real / deltaTotal as real;
      ShareAtMostOne(d as real, deltaTotal as real);
      ScaledShare(share, numCores as real);
    }
  }

  lemma ShareAtMostOne(d: real, total: real)
    requires 0.0 <= d <= total && total > 0.0
    ensures 0.0 <= d / total <= 1.0
  {
    assert (d / total) * total == d;
  }

  lemma ScaledShare(share: real, n: real)
    requires 0.0 <= share <= 1.0 && n >= 0.0
    ensures share * n * 100.0 <= n * 100.0
  {
    assert share * n <= n;
  }

  /** The resident pages of a `statm` line: its second single-space field as a `Long`, else 0. */
  function StatmPages(statm: Option<string>): (r: int)
    ensures IsLong(r)
    ensures statm.None? ==> r == 0
  {
    match statm
    case None => 0
    case Some(line) =>
      var fields := SplitOn(line, ' ');
      if |fields| >= 2 then ToLongOrNull(fields[1]).GetOr(0) else 0
  }

  /** `(rssPages * pageSize) / 1024` in `Long` arithmetic: a wrapping product and a truncating division. */
  function RssKb(statm: Option<string>, pageSize: int): (r: int)
    ensures statm.None? ==> r == 0
    ensures 0 <= StatmPages(statm) * pageSize <= LONG_MAX ==>
      0 <= r && r * 1024 <= StatmPages(statm) * pageSize < r * 1024 + 1024
  {
    DivTrunc(Wrap64(StatmPages(statm) * pageSize), 1024)
  }

  /** A `statm` line of single-space fields reports its second field. */
  lemma StatmPagesOfFields(fields: seq<string>)
    requires |fields| >= 2
    requires forall i :: 0 <= i < |fields| ==> ' ' !in fields[i]
    ensures StatmPages(Some(Join(fields, ' '))) == ToLongOrNull(fields[1]).GetOr(0)
  {
    SplitJoin(fields, ' ');
  }

  /** A `statm` line without a space has no second field, so no pages. */
  lemma StatmPagesWithoutSpace(line: string)
    requires ' ' !in line
    ensures StatmPages(Some(line)) == 0
  {
    SplitOnWithout(line, ' ');
  }

  /** The resident size as a percentage of MemTotal; 0 when MemTotal is missing or not positive. */
  function MemPercent(rssKb: int, totalMemKb: int): (r: real)
    ensures totalMemKb <= 0 ==> r == 0.0
    ensures totalMemKb > 0 && rssKb >= 0 ==> r >= 0.0
    ensures totalMemKb > 0 && 0 <= rssKb <= totalMemKb ==> r <= 100.0
  {
    if totalMemKb > 0 then
      var share := rssKb as real / totalMemKb as real;
      assert rssKb <= totalMemKb ==> share <= 1.0;
      share * 100.0
    else 0.0
  }

  /** The record one sampled process contributes. */
  function Row(c: Sampling, pid: int, st: ProcStat, statm: Option<string>): (r: ProcessInfo)
    ensures r.pid == pid && r.name == st.name && r.threads == st.threads
    ensures r.memRssKb == RssKb(statm, c.pageSize)
    ensures r.cpuPercent == CpuPercent(c.prev, c.deltaTotal, c.numCores, pid, ProcJiffies(st))
    ensures r.memPercent == MemPercent(r.memRssKb, c.totalMemKb)
  {
    var rss := RssKb(statm, c.pageSize);
    ProcessInfo(pid, st.name, CpuPercent(c.prev, c.deltaTotal, c.numCores, pid, ProcJiffies(st)),
                MemPercent(rss, c.totalMemKb), rss, st.threads)
  }

  /** What each directory of the listing contributes, in listing order. */
  function Outcomes(dirs: seq<PidDir>): (r: seq<Option<Sampled>>)
    ensures |r| == |dirs| && forall i :: 0 <= i < |dirs| ==> r[i] == Sample(dirs[i])
  {
    seq(|dirs|, i requires 0 <= i < |dirs| => Sample(dirs[i]))
  }

  /** The present outcomes, in order: the loop's `continue` and `catch` drop the others. */
  function Kept(outcomes: seq<Option<Sampled>>): (r: seq<Sampled>)
    ensures |r| <= |outcomes|
  {
    if |outcomes| == 0 then []
    else
      var rest := Kept(outcomes[..|outcomes| - 1]);
      match outcomes[|outcomes| - 1]
      case None => rest
      case Some(x) => rest + [x]
  }

  /** The samples of a directory listing. */
  function Samples(dirs: seq<PidDir>): seq<Sampled> {
    Kept(Outcomes(dirs))
  }

  lemma PrefixSnoc<T>(s: seq<T>, i: int)
    requires 0 <= i < |s|
    ensures s[..i + 1] == s[..i] + [s[i]]
  {
  }

  lemma KeptSnoc(outcomes: seq<Option<Sampled>>, o: Option<Sampled>)
    ensures Kept(outcomes + [o]) == Kept(outcomes) + (if o.Some? then [o.value] else [])
  {
    assert (outcomes + [o])[..|outcomes|] == outcomes;
  }

  /** Nothing present is dropped. */
  lemma {:induction false} KeptComplete(outcomes: seq<Option<Sampled>>, i: int)
    requires 0 <= i < |outcomes| && outcomes[i].Some?
    ensures outcomes[i].value in Kept(outcomes)
  {
    var n := |outcomes|;
    var prefix := outcomes[..n - 1];
    if i < n - 1 {
      assert prefix[i] == outcomes[i];
      KeptComplete(prefix, i);
    }
  }

  /** Nothing is invented. */
  lemma {:induction false} KeptSound(outcomes: seq<Option<Sampled>>, x: Sampled)
    requires x in Kept(outcomes)
    ensures exists i :: 0 <= i < |outcomes| && outcomes[i] == Some(x)
  {
    var n := |outcomes|;
    var prefix := outcomes[..n - 1];
    if x in Kept(prefix) {
      KeptSound(prefix, x);
      var i :| 0 <= i < n - 1 && prefix[i] == Some(x);
      assert outcomes[i] == Some(x);
    }
  }

  /** A directory is sampled exactly when its name is an `Int` and its stat line parses. */
  lemma SamplesExactly(dirs: seq<PidDir>, x: Sampled)
    ensures x in Samples(dirs) <==> exists i :: 0 <= i < |dirs| && Sample(dirs[i]) == Some(x)
  {
    var outcomes := Outcomes(dirs);
    if x in Samples(dirs) {
      KeptSound(outcomes, x);
    }
    if exists i :: 0 <= i < |dirs| && Sample(dirs[i]) == Some(x) {
      var i :| 0 <= i < |dirs| && Sample(dirs[i]) == Some(x);
      KeptComplete(outcomes, i);
    }
  }

  /** The records of a snapshot, one per sample, in listing order. */
  function SnapshotRows(c: Sampling, samples: seq<Sampled>): (r: seq<ProcessInfo>)
    ensures |r| == |samples|
  {
    if |samples| == 0 then []
    else
      var x := samples[|samples| - 1];
      SnapshotRows(c, samples[..|samples| - 1]) + [Row(c, x.pid, x.stat, x.statm)]
  }

  lemma RowsSnoc(c: Sampling, samples: seq<Sampled>, x: Sampled)
    ensures SnapshotRows(c, samples + [x]) == SnapshotRows(c, samples) + [Row(c, x.pid, x.stat, x.statm)]
  {
    assert (samples + [x])[..|samples|] == samples;
  }

  /** Record `i` is the record of sample `i`. */
  lemma {:induction false} RowAt(c: Sampling, samples: seq<Sampled>, i: int)
    requires 0 <= i < |samples|
    ensures SnapshotRows(c, samples)[i] == Row(c, samples[i].pid, samples[i].stat, samples[i].statm)
  {
    var n := |samples|;
    if i < n - 1 {
      RowAt(c, samples[..n - 1], i);
    }
  }

  /** The tick map a snapshot leaves behind: each sampled pid to its `utime + stime`. */
  function SnapshotJiffies(samples: seq<Sampled>): map<int, int> {
    if |samples| == 0 then map[]
    else
      var x := samples[|samples| - 1];
      SnapshotJiffies(samples[..|samples| - 1])[x.pid := ProcJiffies(x.stat)]
  }

  lemma JiffiesSnoc(samples: seq<Sampled>, x: Sampled)
    ensures SnapshotJiffies(samples + [x]) == SnapshotJiffies(samples)[x.pid := ProcJiffies(x.stat)]
  {
    assert (samples + [x])[..|samples|] == samples;
  }

  /** The stored map holds exactly the sampled pids, each with a Long tick count. */
  lemma {:induction false} SnapshotJiffiesKeys(samples: seq<Sampled>, pid: int)
    ensures pid in SnapshotJiffies(samples) <==> exists i :: 0 <= i < |samples| && samples[i].pid == pid
    ensures pid in SnapshotJiffies(samples) ==> IsLong(SnapshotJiffies(samples)[pid])
  {
    if |samples| > 0 {
      var n := |samples|;
      var prefix := samples[..n - 1];
      SnapshotJiffiesKeys(prefix, pid);
      if exists i :: 0 <= i < n - 1 && prefix[i].pid == pid {
        var i :| 0 <= i < n - 1 && prefix[i].pid == pid;
        assert samples[i].pid == pid;
      }
      if exists i :: 0 <= i < n && samples[i].pid == pid {
        var i :| 0 <= i < n && samples[i].pid == pid;
        if i < n - 1 {
          assert prefix[i].pid == pid;
        }
      }
    }
  }

  /** The ticks stored for a pid are those of its last sample. */
  lemma {:induction false} SnapshotJiffiesLastWins(samples: seq<Sampled>, i: int)
    requires 0 <= i < |samples|
    requires forall j :: i < j < |samples| ==> samples[j].pid != samples[i].pid
    ensures samples[i].pid in SnapshotJiffies(samples)
    ensures SnapshotJiffies(samples)[samples[i].pid] == ProcJiffies(samples[i].stat)
  {
    var n := |samples|;
    var prefix := samples[..n - 1];
    if i < n - 1 {
      forall j | i < j < n - 1 ensures prefix[j].pid != prefix[i].pid {
        assert prefix[j] == samples[j];
      }
      SnapshotJiffiesLastWins(prefix, i);
    }
  }

  /** With no time elapsed (in particular on the first call) every process shows 0% CPU. */
  lemma IdleRows(c: Sampling, samples: seq<Sampled>)
    requires c.deltaTotal <= 0
    ensures forall i :: 0 <= i < |samples| ==> SnapshotRows(c, samples)[i].cpuPercent == 0.0
  {
    forall i | 0 <= i < |samples| ensures SnapshotRows(c, samples)[i].cpuPercent == 0.0 {
      RowAt(c, samples, i);
    }
  }

  /** Every record's CPU share is non-negative when the core count is. */
  lemma RowsCpuNonNegative(c: Sampling, samples: seq<Sampled>)
    requires c.numCores >= 0
    ensures forall i :: 0 <= i < |samples| ==> SnapshotRows(c, samples)[i].cpuPercent >= 0.0
  {
    forall i | 0 <= i < |samples| ensures SnapshotRows(c, samples)[i].cpuPercent >= 0.0 {
      RowAt(c, samples, i);
    }
  }

  /** A process the previous call did not record shows 0% CPU. */
  lemma NewPidsIdle(c: Sampling, samples: seq<Sampled>)
    ensures forall i :: 0 <= i < |samples| && samples[i].pid !in c.prev ==> SnapshotRows(c, samples)[i].cpuPercent == 0.0
  {
    forall i | 0 <= i < |samples| && samples[i].pid !in c.prev ensures SnapshotRows(c, samples)[i].cpuPercent == 0.0 {
      RowAt(c, samples, i);
    }
  }

  /** Without a positive MemTotal every memory share is 0. */
  lemma RowsMemWithoutTotal(c: Sampling, samples: seq<Sampled>)
    requires c.totalMemKb <= 0
    ensures forall i :: 0 <= i < |samples| ==> SnapshotRows(c, samples)[i].memPercent == 0.0
  {
    forall i | 0 <= i < |samples| ensures SnapshotRows(c, samples)[i].memPercent == 0.0 {
      RowAt(c, samples, i);
    }
  }

  /** The records and the stored map cover the same pids. */
  lemma RowsMatchJiffies(c: Sampling, samples: seq<Sampled>, pid: int)
    ensures (exists i :: 0 <= i < |samples| && SnapshotRows(c, samples)[i].pid == pid) <==> pid in SnapshotJiffies(samples)
  {
    SnapshotJiffiesKeys(samples, pid);
    var rows := SnapshotRows(c, samples);
    if exists i :: 0 <= i < |samples| && rows[i].pid == pid {
      var i :| 0 <= i < |samples| && rows[i].pid == pid;
      RowAt(c, samples, i);
    }
    if pid in SnapshotJiffies(samples) {
      var i :| 0 <= i < |samples| && samples[i].pid == pid;
      RowAt(c, samples, i);
    }
  }

  /**
   * Two consecutive snapshots: for a pid sampled by the first call and again
   * by the second, after the total has advanced, the second call's CPU share
   * is its ticks in between over the elapsed total, times cores times 100.
   */
  lemma SecondSnapshotRate(first: seq<Sampled>, i: int, previousTotal: int, total: int, numCores: int, x: Sampled)
    requires 0 <= i < |first|
    requires forall j :: i < j < |first| ==> first[j].pid != first[i].pid
    requires x.pid == first[i].pid
    requires IsLong(previousTotal) && previousTotal > 0 && IsLong(total) && total > previousTotal
    requires 0 <= ProcJiffies(first[i].stat) <= ProcJiffies(x.stat)
    ensures CpuPercent(SnapshotJiffies(first), DeltaTotal(previousTotal, total), numCores, x.pid, ProcJiffies(x.stat))
      == ((ProcJiffies(x.stat) - ProcJiffies(first[i].stat)) as real / (total - previousTotal) as real) * numCores as real * 100.0
  {
    SnapshotJiffiesLastWins(first, i);
    RateSincePrevious(SnapshotJiffies(first), x.pid, ProcJiffies(first[i].stat), ProcJiffies(x.stat), previousTotal, total, numCores);
  }

  /** The share of a pid whose previous tick count is known, with the elapsed total taken from two stored totals. */
  lemma RateSincePrevious(prev: map<int, int>, pid: int, before: int, after: int, previousTotal: int, total: int, numCores: int)
    requires pid in prev && prev[pid] == before && 0 <= before <= after <= LONG_MAX
    requires previousTotal > 0 && IsLong(total - previousTotal) && total > previousTotal
    ensures CpuPercent(prev, DeltaTotal(previousTotal, total), numCores, pid, after)
         == ((after - before) as real / (total - previousTotal) as real) * numCores as real * 100.0
  {
    CpuPercentFormula(prev, total - previousTotal, numCores, pid, after, before);
  }

  /** The loop of `getProcessSnapshot` over the /proc directories: the tick map it fills and the records it emits. */
  method SampleDirectories(c: Sampling, dirs: seq<PidDir>) returns (currentProcJiffies: map<int, int>, processes: seq<ProcessInfo>)
    ensures currentProcJiffies == SnapshotJiffies(Samples(dirs))
    ensures processes == SnapshotRows(c, Samples(dirs))
  {
    ghost var outcomes := Outcomes(dirs);
    currentProcJiffies := map[];
    processes := [];
    var i := 0;
    while i < |dirs|
      invariant 0 <= i <= |dirs|
      invariant currentProcJiffies == SnapshotJiffies(Kept(outcomes[..i]))
      invariant processes == SnapshotRows(c, Kept(outcomes[..i]))
    {
      // `toInt`, `readFileFirstLine(...) ?: continue` and `parseProcStat(...) ?: continue`
      var sample := Sample(dirs[i]);
      assert outcomes[i] == sample;
      PrefixSnoc(outcomes, i);
      KeptSnoc(outcomes[..i], sample);
      if sample.Some? {
        var x := sample.value;
        JiffiesSnoc(Kept(outcomes[..i]), x);
        RowsSnoc(c, Kept(outcomes[..i]), x);
        currentProcJiffies := currentProcJiffies[x.pid := ProcJiffies(x.stat)];
        processes := processes + [Row(c, x.pid, x.stat, x.statm)];
      }
      i := i + 1;
    }
    assert outcomes[..i] == outcomes;
  }

  /** The sampler: the stored tick map, the stored total and the core count. */
  class ProcessMonitorUserService {
    var previousProcJiffies: map<int, int>
    var previousTotalJiffies: int
    const numCores: int

    /** A fresh service has seen nothing: an empty map and a total of 0. */
    constructor(numCores: int)
      ensures previousProcJiffies == map[] && previousTotalJiffies == 0
      ensures this.numCores == numCores
    {
      previousProcJiffies := map[];
      previousTotalJiffies := 0;
      this.numCores := numCores;
    }

    /** The sampling context of a call, given this call's total ticks, MemTotal and page size. */
    function Context(total: int, totalMemKb: int, pageSize: int): Sampling
      reads this
    {
      Sampling(previousProcJiffies, DeltaTotal(previousTotalJiffies, total), numCores, totalMemKb, pageSize)
    }

    /**
     * `getProcessSnapshot`: one record per sampled directory, then the
     * stored map and total are replaced by this call's values, so nothing
     * from earlier calls survives.
     */
    method GetProcessSnapshot(statLine: Option<string>, memInfoLines: seq<string>, pageSize: int, dirs: seq<PidDir>)
      returns (processes: seq<ProcessInfo>)
      modifies this
      ensures processes == SnapshotRows(
        old(Context(TotalCpuJiffies(statLine), MemField(MemInfoTable(memInfoLines), "MemTotal"), pageSize)), Samples(dirs))
      ensures previousProcJiffies == SnapshotJiffies(Samples(dirs))
      ensures previousTotalJiffies == TotalCpuJiffies(statLine)
    {
      var totalJiffies := TotalCpuJiffies(statLine);
      var deltaTotalJiffies := if previousTotalJiffies > 0 then Wrap64(totalJiffies - previousTotalJiffies) else 0;
      var memInfo := ReadMemInfo(memInfoLines);
      var totalMemKb := if "MemTotal" in memInfo then memInfo["MemTotal"] else 0;
      var c := Sampling(previousProcJiffies, deltaTotalJiffies, numCores, totalMemKb, pageSize);
      assert c == Context(totalJiffies, MemField(MemInfoTable(memInfoLines), "MemTotal"), pageSize);
      var currentProcJiffies;
      currentProcJiffies, processes := SampleDirectories(c, dirs);
      previousProcJiffies := currentProcJiffies;
      previousTotalJiffies := totalJiffies;
    }
  }
}
