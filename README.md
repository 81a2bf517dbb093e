# androTOP core, modelled in Dafny

androTOP is an Android process monitor in the style of `top`. It has two sources of data.

- **Privileged sampler.** `ProcessMonitorUserService` runs with shell rights through Shizuku. It reads `/proc/[pid]/stat`, `/proc/[pid]/statm`, `/proc/stat`, `/proc/meminfo` and `/proc/cpuinfo`. From these it builds per-process CPU and memory percentages and a system summary.
- **Fallback.** When Shizuku is unavailable, `MonitorService` runs `top -bn1` and parses its text heuristically.

`MonitorService` is a small event-driven state machine. It decides which of the two sources the next poll uses. `MainActivity` turns the results into text: memory and swap lines in MB, a CPU summary grouped by core part, and the process list sorted by CPU or memory.

## Modules

Each module is one file.

- **`Wrappers`**: `Option`.
- **`Records`**: `ProcessInfo`, `CoreInfo`, `SystemInfoData`.
- **`Numeric`**
  - Kotlin's `toLongOrNull`/`toIntOrNull`, decimal formatting, and 64-bit `Long` wrap-around (`Wrap64`).
  - `Long` division, which truncates toward zero (`DivTrunc`).
- **`Text`**: the Kotlin string operations the core uses.
  - `trim`, `split(" ")`, `split("\\s+".toRegex())`, `lines()`.
  - `indexOf`/`lastIndexOf`, `contains`, `replace`, `trimEnd`, `substringBefore`, `lowercase`.
- **`ProcReaders`** (`ProcessMonitorUserService.kt`)
  - `parseProcStat` and `readTotalCpuJiffies`.
  - `readMemInfo` (also used for `readProcMemInfo`) and `readCpuInfo`, each a loop proved against a fold over the lines.
  - `getSystemInfo`.
- **`RateEstimator`**: the sampling loop of `getProcessSnapshot`.
  - It is the class `ProcessMonitorUserService`, with the fields `previousProcJiffies` and `previousTotalJiffies`.
  - The snapshot method is proved to produce exactly the rows of a specification function, and to replace both fields.
- **`FallbackTop`**: `parseFallbackTop`. Its loops are methods proved against functions.
- **`Monitor`**: the service's state machine.
  - A functional `Step`/`Run` over events states the transitions.
  - The class `MonitorService` has the source's fields. Each method is proved to move its state exactly as `Step` does.
- **`Display`** (`MainActivity.kt`)
  - `mapCpuPart`, the memory and swap arithmetic, the CPU summary loop and `applySortAndDisplay`.
  - `applySortAndDisplay` is proved sorted, a permutation, and stable.

## Model

| member | source | states |
|---|---|---|
| ProcReaders.ParseProcStat | app/src/main/java/com/example/androtop/ProcessMonitorUserService.kt:125-149 | null when the line has no `(` or no `)`; a record only when the first `(` and the last `)` are in order with room for the fields after `)` and the trimmed text before `(` is an Int (with `ParseLocated`, exactly the lines that parse) |
| ProcReaders.ParseLocated | app/src/main/java/com/example/androtop/ProcessMonitorUserService.kt:125-149 | once the first `(` and the last `)` are located and the trimmed text before `(` is an Int, the record is built from the text strictly between them and from the fields split on single spaces two characters after `)` |
| ProcReaders.ParseBracketed | app/src/main/java/com/example/androtop/ProcessMonitorUserService.kt:128-136 | for `head(comm)tail` with no `(` in head and no `)` in tail, the name is exactly `comm` (which may itself contain parentheses) and the fields come from `tail` after its first character |
| ProcReaders.StatCounters | app/src/main/java/com/example/androtop/ProcessMonitorUserService.kt:141-145 | a record exists iff fields 11 and 12 both parse as Long; it carries the given pid and name, Long utime/stime and an Int thread count |
| ProcReaders.StatCountersOf | app/src/main/java/com/example/androtop/ProcessMonitorUserService.kt:141-145 | utime = rest[11], stime = rest[12], threads = rest[17] as Int or 1 when missing or not numeric |
| ProcReaders.ParseStatLine | app/src/main/java/com/example/androtop/ProcessMonitorUserService.kt:125-149 | round trip: a stat line assembled from a pid text, a name and at least 13 space-free fields parses back to that pid, name, utime, stime and thread count |
| ProcReaders.LongField | app/src/main/java/com/example/androtop/ProcessMonitorUserService.kt:141-142 | `getOrNull(i)?.toLongOrNull()`: a value only for an index in range whose text parses |
| ProcReaders.IntField | app/src/main/java/com/example/androtop/ProcessMonitorUserService.kt:143 | `getOrNull(i)?.toIntOrNull()`: a value only for an index in range whose text parses as Int |
| ProcReaders.SumLongs | app/src/main/java/com/example/androtop/ProcessMonitorUserService.kt:155 | the `Long` running sum equals the exact sum of the parsed tokens (unparsable tokens count 0) wrapped to 64 bits |
| ProcReaders.TotalCpuJiffies | app/src/main/java/com/example/androtop/ProcessMonitorUserService.kt:151-156 | 0 when the first line is missing or does not start with `cpu `; otherwise the wrapped sum of the whitespace-separated tokens after the tag |
| ProcReaders.TotalOfCounters | app/src/main/java/com/example/androtop/ProcessMonitorUserService.kt:151-156 | for an aggregate line `cpu  v1 v2 ...` of Long counters the total is the wrapped sum of the counters |
| ProcReaders.MemInfoEntry | app/src/main/java/com/example/androtop/ProcessMonitorUserService.kt:169-173 | a line with at least two whitespace tokens whose second parses as Long gives that value, under the first token with trailing colons removed |
| ProcReaders.ReadMemInfo | app/src/main/java/com/example/androtop/ProcessMonitorUserService.kt:163-181 | the loop builds exactly the key-to-kB table of the lines, later lines overwriting earlier ones |
| ProcReaders.MemInfoTableKeys | app/src/main/java/com/example/androtop/ProcessMonitorUserService.kt:168-175 | a key is in the table iff some line defines it |
| ProcReaders.MemInfoLastWins | app/src/main/java/com/example/androtop/ProcessMonitorUserService.kt:173 | the value of a key is the one on the last line that defines it |
| ProcReaders.MemFieldDefault | app/src/main/java/com/example/androtop/ProcessMonitorUserService.kt:106-112 | a key no line defines reads as 0 |
| ProcReaders.ReadCpuInfo | app/src/main/java/com/example/androtop/ProcessMonitorUserService.kt:183-233 | the loop over /proc/cpuinfo lines and the end-of-input flush return exactly the records of the stanza fold |
| ProcReaders.ScanEntry | app/src/main/java/com/example/androtop/ProcessMonitorUserService.kt:211-218 | a `key: value` line never emits a record; only `processor` changes `coreIndex`, to the value as Int or -1 |
| ProcReaders.ScanLineCores | app/src/main/java/com/example/androtop/ProcessMonitorUserService.kt:192-204 | a line emits at most the pending record, and only when `coreIndex` is set |
| ProcReaders.CoreIndexIsLastProcessor | app/src/main/java/com/example/androtop/ProcessMonitorUserService.kt:194-212 | `coreIndex` is the value of the last `processor` line, whatever blank lines follow it (a flush does not reset it) |
| ProcReaders.NoProcessorNoCores | app/src/main/java/com/example/androtop/ProcessMonitorUserService.kt:186-227 | without a `processor` line no record is emitted, at a blank line or at the end |
| ProcReaders.CpuInfoRecordsIndexed | app/src/main/java/com/example/androtop/ProcessMonitorUserService.kt:194-227 | every record carries a non-negative index and the max frequency read for that index (0 when unreadable) |
| ProcReaders.TrailingBlankLineRepeatsLastCore | app/src/main/java/com/example/androtop/ProcessMonitorUserService.kt:192-227 | a trailing blank line adds one more record with the last index and no implementer or part |
| ProcReaders.MaxFreqKhz | app/src/main/java/com/example/androtop/ProcessMonitorUserService.kt:197-198 | the max frequency is a Long: the first line of the core's `cpuinfo_max_freq` as Long, else 0 |
| ProcReaders.GetSystemInfo | app/src/main/java/com/example/androtop/ProcessMonitorUserService.kt:96-115 | the core count is passed through, the cores are the cpuinfo records, and each memory field comes from the meminfo table with 0 for a missing key |
| RateEstimator.Sample | app/src/main/java/com/example/androtop/ProcessMonitorUserService.kt:41-49 | a directory is sampled iff its name consists of decimal digits only (the listing filter), reads as an Int, its stat line was read and it parses; a sampled pid is never negative |
| RateEstimator.ProcJiffies | app/src/main/java/com/example/androtop/ProcessMonitorUserService.kt:51 | utime + stime as a Long, exact when it does not overflow |
| RateEstimator.DeltaTotal | app/src/main/java/com/example/androtop/ProcessMonitorUserService.kt:24-28 | 0 while the stored total is 0, else the difference of the totals |
| RateEstimator.CpuPercent | app/src/main/java/com/example/androtop/ProcessMonitorUserService.kt:54-64 | 0 when no ticks elapsed, when the pid is new or when its ticks decreased; never negative for a non-negative core count |
| RateEstimator.CpuPercentFormula | app/src/main/java/com/example/androtop/ProcessMonitorUserService.kt:55-58 | otherwise the share is deltaProc / deltaTotal × numCores × 100 |
| RateEstimator.CpuPercentAtMostAllCores | app/src/main/java/com/example/androtop/ProcessMonitorUserService.kt:54-64 | a process that used at most the elapsed ticks shows at most numCores × 100 percent |
| RateEstimator.RssKb | app/src/main/java/com/example/androtop/ProcessMonitorUserService.kt:66-68 | resident kB is pages × page size divided by 1024, 0 without a statm line |
| RateEstimator.StatmPagesOfFields | app/src/main/java/com/example/androtop/ProcessMonitorUserService.kt:67 | the page count is the second single-space field of the statm line as Long, or 0 |
| RateEstimator.MemPercent | app/src/main/java/com/example/androtop/ProcessMonitorUserService.kt:70-74 | 0 when the total memory is not positive; otherwise between 0 and 100 for a resident size within the total |
| RateEstimator.Row | app/src/main/java/com/example/androtop/ProcessMonitorUserService.kt:51-83 | a record carries the pid, name and thread count of the stat line and the CPU and memory figures above |
| RateEstimator.SamplesExactly | app/src/main/java/com/example/androtop/ProcessMonitorUserService.kt:45-88 | the sampled processes are exactly the directories whose sample succeeded (unreadable ones are skipped) |
| RateEstimator.SampleDirectories | app/src/main/java/com/example/androtop/ProcessMonitorUserService.kt:37-88 | the loop fills exactly the tick map of the sampled processes and emits exactly their records, in order |
| RateEstimator.SnapshotJiffiesKeys | app/src/main/java/com/example/androtop/ProcessMonitorUserService.kt:52 | the new tick map holds exactly the pids sampled in this call, each with a Long value |
| RateEstimator.SnapshotJiffiesLastWins | app/src/main/java/com/example/androtop/ProcessMonitorUserService.kt:52 | a pid maps to the utime + stime of its last sample |
| RateEstimator.IdleRows | app/src/main/java/com/example/androtop/ProcessMonitorUserService.kt:24-64 | on the first call (no elapsed ticks) every CPU share is 0 |
| RateEstimator.NewPidsIdle | app/src/main/java/com/example/androtop/ProcessMonitorUserService.kt:55 | a pid the previous call did not see shows 0 |
| RateEstimator.RowsCpuNonNegative | app/src/main/java/com/example/androtop/ProcessMonitorUserService.kt:57-61 | no row has a negative CPU share |
| RateEstimator.RowsMemWithoutTotal | app/src/main/java/com/example/androtop/ProcessMonitorUserService.kt:70-74 | without MemTotal every memory share is 0 |
| RateEstimator.RowsMatchJiffies | app/src/main/java/com/example/androtop/ProcessMonitorUserService.kt:49-84 | a pid has a row iff it is in the new tick map |
| RateEstimator.SecondSnapshotRate | app/src/main/java/com/example/androtop/ProcessMonitorUserService.kt:22-94 | across two calls, a pid's share in the second is its tick increase over the elapsed total, times cores times 100 |
| RateEstimator.ProcessMonitorUserService.constructor | app/src/main/java/com/example/androtop/ProcessMonitorUserService.kt:14-16 | a fresh sampler has an empty tick map and a stored total of 0 |
| RateEstimator.ProcessMonitorUserService.GetProcessSnapshot | app/src/main/java/com/example/androtop/ProcessMonitorUserService.kt:22-94 | returns the rows of this call, computed against the previous state, then replaces the stored map and total with this call's values |
| FallbackTop.HeaderIndexAt | app/src/main/java/com/example/androtop/MonitorService.kt:235-242 | the header is the first line whose trimmed form starts with `PID` or contains `PID`, `CPU` and `NAME` |
| FallbackTop.HeaderIndexNone | app/src/main/java/com/example/androtop/MonitorService.kt:235-243 | no header is found iff no line is a header line |
| FallbackTop.FindHeader | app/src/main/java/com/example/androtop/MonitorService.kt:235-242 | the search loop finds exactly that header index |
| FallbackTop.ParseFallbackTop | app/src/main/java/com/example/androtop/MonitorService.kt:230-287 | the parser returns exactly the rows of the lines after the header, empty without a header |
| FallbackTop.SkipsPreamble | app/src/main/java/com/example/androtop/MonitorService.kt:243-246 | the header and every line before it are never parsed as rows |
| FallbackTop.NoHeaderNoRows | app/src/main/java/com/example/androtop/MonitorService.kt:243 | without a header the result is empty |
| FallbackTop.ParseRows | app/src/main/java/com/example/androtop/MonitorService.kt:246-285 | the row loop keeps exactly the lines that parse, in order |
| FallbackTop.ParseRow | app/src/main/java/com/example/androtop/MonitorService.kt:247-249 | a blank trimmed row is skipped, otherwise its whitespace tokens are parsed |
| FallbackTop.ParseTokens | app/src/main/java/com/example/androtop/MonitorService.kt:250-281 | fewer than 5 tokens or a non-Int first token drop the row; otherwise the record of pid, name and the two columns |
| FallbackTop.FallbackRow | app/src/main/java/com/example/androtop/MonitorService.kt:247-281 | a kept row has at least 5 tokens, its first token is its Int pid, rss 0, one thread, and a name without `/` |
| FallbackTop.FallbackRowOfTokens | app/src/main/java/com/example/androtop/MonitorService.kt:247-281 | a row of single-space tokens gives pid, name of the last token, and the first two percentage-like tokens as cpu and mem |
| FallbackTop.FallbackRowsDefaults | app/src/main/java/com/example/androtop/MonitorService.kt:281 | every fallback record has rss 0, one thread and a name without `/` |
| FallbackTop.PickColumns | app/src/main/java/com/example/androtop/MonitorService.kt:257-271 | the scan keeps the first and the second percentage-like token, or the empty string |
| FallbackTop.PercentTokensFrom | app/src/main/java/com/example/androtop/MonitorService.kt:262-271 | every candidate column is a token of the row that ends with `%` or contains `.` and parses once `%` is removed |
| FallbackTop.PercentTokensFirst | app/src/main/java/com/example/androtop/MonitorService.kt:262-271 | the CPU column is the first such token in row order |
| FallbackTop.NoPercentColumns | app/src/main/java/com/example/androtop/MonitorService.kt:278-279 | without such tokens cpu and mem are both 0.0 |
| FallbackTop.OnePercentColumn | app/src/main/java/com/example/androtop/MonitorService.kt:262-279 | with exactly one such token, cpu is that token's number and mem, having no column, is 0.0 |
| FallbackTop.PercentTokensOnly | app/src/main/java/com/example/androtop/MonitorService.kt:262-271 | when one token alone is percentage-like, it is the only column candidate |
| FallbackTop.ReadDouble | app/src/main/java/com/example/androtop/MonitorService.kt:278-279 | the empty text never reads as a number, so a missing column falls back to 0.0 |
| FallbackTop.RowOfTokens | app/src/main/java/com/example/androtop/MonitorService.kt:252-281 | a kept row has at least 5 tokens and an Int pid, rss 0, one thread, a name without `/`; cpu is 0.0 without a percentage-like token and mem is 0.0 with fewer than two |
| FallbackTop.NameOf | app/src/main/java/com/example/androtop/MonitorService.kt:273-276 | the name is a prefix of the last token without `/`, the whole token when it has none |
| Monitor.MaxByCpu | app/src/main/java/com/example/androtop/MonitorService.kt:140 | no top process iff the list is empty; otherwise a member of the list |
| Monitor.TopIndexIsFirstMaximum | app/src/main/java/com/example/androtop/MonitorService.kt:140 | the top process has the largest CPU share and is the first one with it |
| Monitor.Publish | app/src/main/java/com/example/androtop/MonitorService.kt:134-145 | publishing replaces the list, moves the overlay to the top process when there is one, and changes nothing else |
| Monitor.LocalSystemInfo | app/src/main/java/com/example/androtop/MonitorService.kt:183-204 | local system info has the processor count, no core types, and 0 for a missing meminfo key |
| Monitor.Fetch | app/src/main/java/com/example/androtop/MonitorService.kt:117-155 | a fetch never changes whether monitoring is on, the bound monitor or the poll schedule |
| Monitor.FetchUsesSource | app/src/main/java/com/example/androtop/MonitorService.kt:117-181 | a fetch uses the privileged snapshot iff a monitor is bound, else the fallback; a privileged success posts `Monitoring active`, a privileged failure keeps the list and posts `Error: <message>`, a fallback failure changes only the status to `Fallback failed: <message>` |
| Monitor.FetchedOnlyOnSuccess | app/src/main/java/com/example/androtop/MonitorService.kt:120-204 | `systemInfoFetched` becomes true only on a fetch whose system-info read (privileged or local) succeeded |
| Monitor.SystemInfoFetchedOnce | app/src/main/java/com/example/androtop/MonitorService.kt:122-176 | once fetched, system info is never fetched or replaced again, whatever events follow |
| Monitor.StartMonitoringOnce | app/src/main/java/com/example/androtop/MonitorService.kt:85-101 | a no-op when already monitoring; otherwise monitoring starts and it binds iff available and permitted, requests permission iff available but not permitted, and schedules fallback polling iff unavailable |
| Monitor.MonitoringFlag | app/src/main/java/com/example/androtop/MonitorService.kt:85-106 | only start and stop change `isMonitoring`; stop clears it and the poll schedule |
| Monitor.MonitorBinding | app/src/main/java/com/example/androtop/MonitorService.kt:393-432 | only service-connected sets the monitor; only channel-unavailable and service-disconnected clear it |
| Monitor.PollScheduling | app/src/main/java/com/example/androtop/MonitorService.kt:393-432 | polling is newly scheduled only while monitoring, by start, a poll, channel-unavailable, service-connected or permission-denied; a poll reschedules itself iff monitoring |
| Monitor.PollStep | app/src/main/java/com/example/androtop/MonitorService.kt:51-58 | a poll fetches and reschedules while monitoring, and lapses otherwise |
| Monitor.QuietAfterStop | app/src/main/java/com/example/androtop/MonitorService.kt:103-106 | after a stop, nothing but a new start turns monitoring or polling back on |
| Monitor.MonitorService.constructor | app/src/main/java/com/example/androtop/MonitorService.kt:37-49 | a new service is not monitoring, has no monitor, has fetched nothing and has nothing scheduled |
| Monitor.MonitorService.StartMonitoring | app/src/main/java/com/example/androtop/MonitorService.kt:85-101 | moves the state and issues the request exactly as the start transition does |
| Monitor.MonitorService.StopMonitoring | app/src/main/java/com/example/androtop/MonitorService.kt:103-106 | moves the state exactly as the stop transition does |
| Monitor.MonitorService.StartPolling | app/src/main/java/com/example/androtop/MonitorService.kt:112-115 | marks a poll scheduled and changes nothing else |
| Monitor.MonitorService.Poll | app/src/main/java/com/example/androtop/MonitorService.kt:51-58 | moves the state exactly as the poll transition does |
| Monitor.MonitorService.RefreshNow | app/src/main/java/com/example/androtop/MonitorService.kt:108-110 | moves the state exactly as a fetch does |
| Monitor.MonitorService.PostProcesses | app/src/main/java/com/example/androtop/MonitorService.kt:137-145 | publishes a list as `Publish` does |
| Monitor.MonitorService.FetchProcessData | app/src/main/java/com/example/androtop/MonitorService.kt:117-155 | moves the state exactly as `Fetch` does |
| Monitor.MonitorService.FetchFallbackData | app/src/main/java/com/example/androtop/MonitorService.kt:157-181 | moves the state exactly as the fallback fetch does, with the fallback parser |
| Monitor.MonitorService.ShowFallbackRows | app/src/main/java/com/example/androtop/MonitorService.kt:164-176 | publishes the parsed rows, then stores the local system info only when it was not fetched before |
| Monitor.MonitorService.FetchLocalSystemInfo | app/src/main/java/com/example/androtop/MonitorService.kt:183-224 | stores the local system info and marks it fetched, nothing else |
| Monitor.MonitorService.OnShizukuAvailable | app/src/main/java/com/example/androtop/MonitorService.kt:393-399 | binds when permitted, else posts that permission is needed |
| Monitor.MonitorService.OnShizukuUnavailable | app/src/main/java/com/example/androtop/MonitorService.kt:401-407 | clears the monitor and restarts polling while monitoring |
| Monitor.MonitorService.OnServiceConnected | app/src/main/java/com/example/androtop/MonitorService.kt:409-415 | sets the monitor and restarts polling while monitoring |
| Monitor.MonitorService.OnServiceDisconnected | app/src/main/java/com/example/androtop/MonitorService.kt:417-420 | clears the monitor and does not touch polling |
| Monitor.MonitorService.OnPermissionResult | app/src/main/java/com/example/androtop/MonitorService.kt:422-432 | granted only binds; denied restarts polling while monitoring |
| Display.MapCpuPart | app/src/main/java/com/example/androtop/MainActivity.kt:259-291 | a code known in lower case maps to its Cortex/Neoverse name; an unknown one is returned unchanged, not lowercased |
| Display.MapCpuPartIgnoresCase | app/src/main/java/com/example/androtop/MainActivity.kt:261 | two spellings of a known part number that differ only in letter case map to the same name |
| Display.UpperCasePart | app/src/main/java/com/example/androtop/MainActivity.kt:261-264 | `0xD05` maps to `Cortex-A55` |
| Display.CpuPartKeysLowercase | app/src/main/java/com/example/androtop/MainActivity.kt:262-289 | every table key is already lower case and maps to its own entry |
| Display.MemoryFiguresAddUp | app/src/main/java/com/example/androtop/MainActivity.kt:241-243 | with available memory within the total, the wrapping `Long` difference is exact, and used and free MB are non-negative and add up to the total MB or one less |
| Display.SwapNoneIff | app/src/main/java/com/example/androtop/MainActivity.kt:249-256 | the swap line reads `Swap: none` iff swap total / 1024 is not positive, i.e. iff the total is under 1024 kB |
| Display.GroupByPartSpec | app/src/main/java/com/example/androtop/MainActivity.kt:226 | the groups are the distinct parts in order of first appearance, each with exactly the cores of that part, in order |
| Display.FirstPartsMembers | app/src/main/java/com/example/androtop/MainActivity.kt:226 | a part is a group key iff some core has it |
| Display.FirstPartsDistinct | app/src/main/java/com/example/androtop/MainActivity.kt:226 | no part is grouped twice |
| Display.GroupsNonEmpty | app/src/main/java/com/example/androtop/MainActivity.kt:226-228 | every group has at least one core, so its maximum frequency exists |
| Display.MaxFreq | app/src/main/java/com/example/androtop/MainActivity.kt:228 | the maximum frequency is at least every core's and is some core's |
| Display.CpuTextWithoutCores | app/src/main/java/com/example/androtop/MainActivity.kt:224-225 | without core types the CPU text is just `CPU: n cores` |
| Display.CpuTextGroups | app/src/main/java/com/example/androtop/MainActivity.kt:226-235 | the summary text is `CPU: n cores` followed by one line per distinct part, in first-appearance order, each over exactly that part's cores |
| Display.CpuSummary | app/src/main/java/com/example/androtop/MainActivity.kt:223-237 | the builder loop produces exactly the CPU text |
| Display.AppendGroupLines | app/src/main/java/com/example/androtop/MainActivity.kt:227-235 | appending group lines one at a time gives the header followed by all group lines |
| Display.SortDescendingSpec | app/src/main/java/com/example/androtop/MainActivity.kt:212-219 | the sorted list is non-increasing in the chosen key, a permutation of the input, and stable (records with equal keys keep their order) |
| Display.InsertDescending | app/src/main/java/com/example/androtop/MainActivity.kt:214-216 | inserting into a non-increasing list keeps it non-increasing |
| Display.InsertWithKey | app/src/main/java/com/example/androtop/MainActivity.kt:214-216 | an insertion puts the new record ahead of the old records with its key |
| Numeric.ParseFormat | app/src/main/java/com/example/androtop/ProcessMonitorUserService.kt:155 | round trip: a number in range formats to a decimal that `toLongOrNull`/`toIntOrNull` reads back |
| Numeric.Wrap64Add | app/src/main/java/com/example/androtop/ProcessMonitorUserService.kt:155 | wrapping each partial sum gives the same Long as wrapping the exact sum |
| Numeric.DivTrunc | app/src/main/java/com/example/androtop/MainActivity.kt:241-251 | Long division truncates toward zero: for a non-negative dividend the floor quotient; for a negative one the quotient rounded up |
| Text.LastIndexOfSpec | app/src/main/java/com/example/androtop/ProcessMonitorUserService.kt:129-130 | -1 iff the character is absent; otherwise the position of its last occurrence |
| Text.IndexOfSpec | app/src/main/java/com/example/androtop/ProcessMonitorUserService.kt:128-130 | -1 iff the character is absent; otherwise the position of its first occurrence |
| Text.SplitJoin | app/src/main/java/com/example/androtop/ProcessMonitorUserService.kt:136 | splitting on single spaces undoes joining with them |
| Text.Lowercase | app/src/main/java/com/example/androtop/MainActivity.kt:261 | lowercases every ASCII letter and keeps everything else, character by character |

## Left out

- File and process I/O are inputs, not reads:
  - `/proc` and `/sys` reads, `listFiles`, `Runtime.exec("top")`, `Os.sysconf`.
  - A file's lines or first line are parameters.
  - The pid-directory listing is a sequence of directories with optional stat and statm lines.
  - The page size, the processor count and the per-core max-frequency line are parameters.
  - The `top` output and any exception message arrive in `FetchInputs`.
- `Thread { }.start()` and `Handler` scheduling are not modelled: a fetch runs to completion as one step, and polling is a `pollScheduled` flag rather than time.
- JSON (`parseProcessList`, `parseSystemInfo`, `JSONObject` building): records are passed directly between the models.
- Floating point is modelled as `real`:
  - `toDoubleOrNull` is an abstract parameter `toDouble` for non-empty text; the empty text always reads as null (`FallbackTop.ReadDouble`).
  - NaN, rounding and `formatCpu`/`formatMem` are not modelled.
  - `maxByOrNull` and `sortedByDescending` are modelled on `real` keys, so NaN ordering is not modelled.
- The overlay and notification text are left out; the state keeps the top process instead. Status messages are an enumeration, and `Monitor.StatusText` gives their exact wording.
- Android lifecycle (`onCreate`, `onStartCommand`, `onDestroy`), OverlayManager, ProcessAdapter, MainActivity's UI handling and ShizukuHelper are not part of this model. Shizuku's callbacks appear only as events of the state machine.
- `readCpuInfo` drops the `model name`, `Hardware` and `BogoMIPS` keys, which `CoreInfo` never keeps.
- `readTotalMemoryKb` is `MemField(MemInfoTable(lines), "MemTotal")`. It is inlined into `GetProcessSnapshot`.
- Digits and case are ASCII only. Kotlin's `toLongOrNull` also accepts non-ASCII Unicode digits, and `lowercase` also folds non-ASCII letters; neither is modelled.
- Caught exceptions:
  - The `catch` in `parseFallbackTop`'s row loop cannot be reached in the model: every operation on that path is total.
  - `parseProcStat`'s exceptions become the out-of-range cases of `ProcReaders.ParseStatAt`.
- RateEstimator.RssKb: the product of pages and page size is a 64-bit `Long`. The bounds are stated only when that product does not overflow.
