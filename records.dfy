/**
 * The value types the sampler, the service and the screen pass around.
 * Kotlin `Int`/`Long` fields are `int` (their ranges are kept by the producers),
 * `Double` percentages are `real`.
 */
module Records {

  /** One row of the process list: `ProcessInfo`. */
  datatype ProcessInfo = ProcessInfo(
    pid: int,
    name: string,
    cpuPercent: real,
    memPercent: real,
    memRssKb: int,
    threads: int
  )

  /** One CPU core as described by /proc/cpuinfo: `CoreInfo`. */
  datatype CoreInfo = CoreInfo(
    index: int,
    implementer: string,
    part: string,
    maxFreqKhz: int
  )

  /** Whole-machine description, fetched once per monitoring session: `SystemInfoData`. */
  datatype SystemInfoData = SystemInfoData(
    coreCount: int,
    coreTypes: seq<CoreInfo>,
    totalMemKb: int,
    freeMemKb: int,
    availMemKb: int,
    buffersKb: int,
    cachedKb: int,
    swapTotalKb: int,
    swapFreeKb: int
  )
}
