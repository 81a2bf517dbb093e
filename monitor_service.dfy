/**
 * The foreground service that decides where each poll reads its process list
 * from: the privileged sampler behind a bound `IProcessMonitor`, or the
 * unprivileged `top` fallback (`MonitorService`).  The Shizuku listener
 * callbacks, `startMonitoring`, `stopMonitoring` and the poll runnable change
 * four flags; the `Handler` queue is the flag `pollScheduled`, and the
 * background thread of a fetch runs to completion inside the event.
 */
module Monitor {
  import opened Wrappers
  import opened Records
  import opened ProcReaders
  import opened FallbackTop

  /** What a call into code outside the model produced: a value, or an exception with its message. */
  datatype Outcome<+T> = Done(value: T) | Thrown(message: string)

  /** The Shizuku call a step asks for; the answer comes back later as a callback event. */
  datatype Request = NoRequest | BindService | RequestPermission

  /**
   * What the outside world answers during one fetch: the privileged system
   * info and snapshot (already decoded from JSON), the output of `top`, the
   * processor count and the lines of /proc/meminfo.
   */
  datatype FetchInputs = FetchInputs(
    systemInfo: Outcome<SystemInfoData>,
    snapshot: Outcome<seq<ProcessInfo>>,
    topOutput: Outcome<string>,
    availableProcessors: int,
    memInfoLines: seq<string>)

  /** The messages posted to `statusMessage`; `NoStatus` before the first one. */
  datatype Status =
    | NoStatus
    | Connecting
    | RequestingPermission
    | NotAvailableTryingFallback
    | MonitoringActive
    | FetchError(message: string)
    | FallbackFailed(message: string)
    | PermissionNeeded
    | DisconnectedUsingFallback
    | Connected
    | ServiceDisconnectedMessage
    | PermissionGranted
    | PermissionDenied

  /** The text each status shows. */
  function StatusText(st: Status): string {
    match st
    case NoStatus => ""
    case Connecting => "Connecting to Shizuku..."
    case RequestingPermission => "Requesting Shizuku permission..."
    case NotAvailableTryingFallback => "Shizuku not available. Trying fallback..."
    case MonitoringActive => "Monitoring active"
    case FetchError(m) => "Error: " + m
    case FallbackFailed(m) => "Fallback failed: " + m
    case PermissionNeeded => "Shizuku available. Permission needed."
    case DisconnectedUsingFallback => "Shizuku disconnected. Using fallback."
    case Connected => "Connected to Shizuku. Monitoring..."
    case ServiceDisconnectedMessage => "Shizuku service disconnected."
    case PermissionGranted => "Shizuku permission granted. Connecting..."
    case PermissionDenied => "Shizuku permission denied. Using fallback."
  }

  /** The events the service reacts to. */
  datatype Event =
    | StartMonitoring(shizukuAvailable: bool, hasPermission: bool)
    | StopMonitoring
    | Poll(inputs: FetchInputs)
    | RefreshNow(inputs: FetchInputs)
    | ShizukuAvailable(hasPermission: bool)
    | ShizukuUnavailable
    | ServiceConnected
    | ServiceDisconnected
    | PermissionResult(granted: bool)

  /**
   * The fields of the service, with the last value posted to each `LiveData`
   * and the process the overlay shows.  `hasMonitor` stands for
   * `processMonitor != null`.
   */
  datatype ServiceState = ServiceState(
    isMonitoring: bool,
    hasMonitor: bool,
    systemInfoFetched: bool,
    pollScheduled: bool,
    status: Status,
    processes: seq<ProcessInfo>,
    systemInfo: Option<SystemInfoData>,
    overlay: Option<ProcessInfo>)

  const Initial := ServiceState(false, false, false, false, NoStatus, [], None, None)

  datatype Source = Privileged | Fallback

  /** The source the next fetch reads: the privileged monitor exactly when one is bound. */
  function SourceOf(s: ServiceState): Source {
    if s.hasMonitor then Privileged else Fallback
  }

  // ---------------------------------------------------------------------------
  // The process the overlay shows: `maxByOrNull { it.cpuPercent }`

  /** The index `maxByOrNull` settles on: a later element replaces the best only when strictly larger. */
  function TopIndex(ps: seq<ProcessInfo>): (k: int)
    requires |ps| > 0
    ensures 0 <= k < |ps|
  {
    if |ps| == 1 then 0
    else
      var k := TopIndex(ps[..|ps| - 1]);
      if ps[k].cpuPercent < ps[|ps| - 1].cpuPercent then |ps| - 1 else k
  }

  /** `maxByOrNull` picks the first element of largest CPU share. */
  lemma {:induction false} TopIndexIsFirstMaximum(ps: seq<ProcessInfo>)
    requires |ps| > 0
    ensures forall j :: 0 <= j < |ps| ==> ps[j].cpuPercent <= ps[TopIndex(ps)].cpuPercent
    ensures forall j :: 0 <= j < TopIndex(ps) ==> ps[j].cpuPercent < ps[TopIndex(ps)].cpuPercent
  {
    if |ps| > 1 {
      var prefix := ps[..|ps| - 1];
      TopIndexIsFirstMaximum(prefix);
      assert forall j :: 0 <= j < |prefix| ==> prefix[j] == ps[j];
    }
  }

  function MaxByCpu(ps: seq<ProcessInfo>): (r: Option<ProcessInfo>)
    ensures r.None? <==> |ps| == 0
    ensures r.Some? ==> r.value in ps
  {
    if |ps| == 0 then None else Some(ps[TopIndex(ps)])
  }

  /** A fetched list is posted; the overlay switches to its top process when there is one. */
  function Publish(s: ServiceState, ps: seq<ProcessInfo>): (t: ServiceState)
    ensures t.processes == ps
    ensures t.overlay == (if |ps| == 0 then s.overlay else MaxByCpu(ps))
    ensures t.(processes := s.processes, overlay := s.overlay) == s
  {
    var top := MaxByCpu(ps);
    s.(processes := ps, overlay := if top.Some? then top else s.overlay)
  }

  // ---------------------------------------------------------------------------
  // Fetching

  /** `fetchLocalSystemInfo`: the processor count and the meminfo fields, no cores. */
  function LocalSystemInfo(availableProcessors: int, memInfoLines: seq<string>): (info: SystemInfoData)
    ensures info.coreCount == availableProcessors && info.coreTypes == []
    ensures (forall i :: 0 <= i < |memInfoLines| ==> !DefinesKey(memInfoLines[i], "MemTotal")) ==> info.totalMemKb == 0
    ensures (forall i :: 0 <= i < |memInfoLines| ==> !DefinesKey(memInfoLines[i], "MemAvailable")) ==> info.availMemKb == 0
  {
    MemInfoTableKeys(memInfoLines, "MemTotal");
    MemInfoTableKeys(memInfoLines, "MemAvailable");
    MemorySystemInfo(availableProcessors, [], MemInfoTable(memInfoLines))
  }

  /**
   * `fetchProcessData` with a bound monitor: the system info once, then the
   * snapshot.  An exception from the system info is logged and the snapshot
   * still taken; one from the snapshot leaves the list as it was.
   */
  function FetchPrivileged(s: ServiceState, f: FetchInputs): ServiceState {
    var s1 :=
      if !s.systemInfoFetched && f.systemInfo.Done? then
        s.(systemInfo := Some(f.systemInfo.value), systemInfoFetched := true)
      else s;
    match f.snapshot
    case Done(ps) => Publish(s1, ps).(status := MonitoringActive)
    case Thrown(m) => s1.(status := FetchError(m))
  }

  /**
   * `fetchFallbackData`: the parsed `top` output, then, while the system info
   * is missing, the unprivileged system info.  Success posts no status.
   */
  function FetchFallback(s: ServiceState, f: FetchInputs, parse: string -> seq<ProcessInfo>): ServiceState {
    match f.topOutput
    case Thrown(m) => s.(status := FallbackFailed(m))
    case Done(output) =>
      var s1 := Publish(s, parse(output));
      if s1.systemInfoFetched then s1
      else s1.(systemInfo := Some(LocalSystemInfo(f.availableProcessors, f.memInfoLines)), systemInfoFetched := true)
  }

  function Fetch(s: ServiceState, f: FetchInputs, parse: string -> seq<ProcessInfo>): (t: ServiceState)
    ensures t.isMonitoring == s.isMonitoring && t.hasMonitor == s.hasMonitor && t.pollScheduled == s.pollScheduled
  {
    if s.hasMonitor then FetchPrivileged(s, f) else FetchFallback(s, f, parse)
  }

  /** The fallback parser the service runs on the output of `top`. */
  function FallbackParser(toDouble: string -> Option<real>): string -> seq<ProcessInfo> {
    output => ParsedFallbackTop(output, toDouble)
  }

  // ---------------------------------------------------------------------------
  // Events

  /** The state after an event, and the Shizuku call it asks for. */
  function Step(s: ServiceState, e: Event, parse: string -> seq<ProcessInfo>): (ServiceState, Request) {
    match e
    case StartMonitoring(available, permitted) =>
      if s.isMonitoring then (s, NoRequest)
      else if available && permitted then
        (s.(isMonitoring := true, status := Connecting), BindService)
      else if available then
        (s.(isMonitoring := true, status := RequestingPermission), RequestPermission)
      else
        (s.(isMonitoring := true, status := NotAvailableTryingFallback, pollScheduled := true), NoRequest)
    case StopMonitoring =>
      (s.(isMonitoring := false, pollScheduled := false), NoRequest)
    case Poll(f) =>
      if s.isMonitoring then (Fetch(s, f, parse).(pollScheduled := true), NoRequest)
      else (s.(pollScheduled := false), NoRequest)
    case RefreshNow(f) =>
      (Fetch(s, f, parse), NoRequest)
    case ShizukuAvailable(permitted) =>
      if permitted then (s, BindService)
      else (s.(status := PermissionNeeded), NoRequest)
    case ShizukuUnavailable =>
      (s.(hasMonitor := false, status := DisconnectedUsingFallback,
          pollScheduled := s.pollScheduled || s.isMonitoring), NoRequest)
    case ServiceConnected =>
      (s.(hasMonitor := true, status := Connected,
          pollScheduled := s.pollScheduled || s.isMonitoring), NoRequest)
    case ServiceDisconnected =>
      (s.(hasMonitor := false, status := ServiceDisconnectedMessage), NoRequest)
    case PermissionResult(granted) =>
      if granted then (s.(status := PermissionGranted), BindService)
      else
        (s.(status := PermissionDenied,
            pollScheduled := s.pollScheduled || s.isMonitoring), NoRequest)
  }

  function Next(s: ServiceState, e: Event, parse: string -> seq<ProcessInfo>): ServiceState {
    Step(s, e, parse).0
  }

  /** The state after a sequence of events, applied in order. */
  function Run(s: ServiceState, events: seq<Event>, parse: string -> seq<ProcessInfo>): ServiceState
    decreases |events|
  {
    if |events| == 0 then s else Run(Next(s, events[0], parse), events[1..], parse)
  }

  /** A poll fetches and reschedules itself while monitoring, and lapses otherwise. */
  lemma PollStep(s: ServiceState, f: FetchInputs, parse: string -> seq<ProcessInfo>)
    ensures Next(s, Event.Poll(f), parse)
         == if s.isMonitoring then Fetch(s, f, parse).(pollScheduled := true) else s.(pollScheduled := false)
  {
  }

  predicate IsFetch(e: Event) {
    e.Poll? || e.RefreshNow?
  }

  /** The inputs a fetch event runs with. */
  function FetchOf(e: Event): FetchInputs
    requires IsFetch(e)
  {
    if e.Poll? then e.inputs else e.inputs
  }

  /** A fetch reads the privileged snapshot exactly when a monitor is bound, else the fallback. */
  lemma FetchUsesSource(s: ServiceState, f: FetchInputs, parse: string -> seq<ProcessInfo>)
    ensures SourceOf(s) == Privileged && f.snapshot.Done? ==>
      Fetch(s, f, parse).processes == f.snapshot.value && Fetch(s, f, parse).status == MonitoringActive
    ensures SourceOf(s) == Fallback && f.topOutput.Done? ==>
      Fetch(s, f, parse).processes == parse(f.topOutput.value)
    ensures SourceOf(s) == Privileged && f.snapshot.Thrown? ==>
      Fetch(s, f, parse).processes == s.processes && Fetch(s, f, parse).status == FetchError(f.snapshot.message)
    ensures SourceOf(s) == Fallback && f.topOutput.Thrown? ==> Fetch(s, f, parse) == s.(status := FallbackFailed(f.topOutput.message))
  {
  }

  /** `startMonitoring` does nothing while monitoring; otherwise it always starts monitoring. */
  lemma StartMonitoringOnce(s: ServiceState, available: bool, permitted: bool, parse: string -> seq<ProcessInfo>)
    ensures s.isMonitoring ==> Step(s, StartMonitoring(available, permitted), parse) == (s, NoRequest)
    ensures Next(s, StartMonitoring(available, permitted), parse).isMonitoring
    ensures !s.isMonitoring ==>
      var (t, r) := Step(s, StartMonitoring(available, permitted), parse);
      (r == BindService <==> available && permitted) &&
      (r == RequestPermission <==> available && !permitted) &&
      (t.pollScheduled <==> s.pollScheduled || !available)
  {
  }

  /** Only `startMonitoring` and `stopMonitoring` change `isMonitoring`. */
  lemma MonitoringFlag(s: ServiceState, e: Event, parse: string -> seq<ProcessInfo>)
    ensures !e.StartMonitoring? && !e.StopMonitoring? ==> Next(s, e, parse).isMonitoring == s.isMonitoring
    ensures e.StopMonitoring? ==> !Next(s, e, parse).isMonitoring && !Next(s, e, parse).pollScheduled
  {
  }

  /** Only the callbacks change whether a monitor is bound: the service connection sets it, the two disconnections clear it. */
  lemma MonitorBinding(s: ServiceState, e: Event, parse: string -> seq<ProcessInfo>)
    ensures Next(s, e, parse).hasMonitor ==
      (if e.ServiceConnected? then true
       else if e.ShizukuUnavailable? || e.ServiceDisconnected? then false
       else s.hasMonitor)
  {
  }

  /**
   * Polling is (re)started by `startMonitoring` without Shizuku, by the
   * callbacks that fall back or connect, and only while monitoring; a poll
   * keeps itself scheduled exactly while monitoring.
   */
  lemma PollScheduling(s: ServiceState, e: Event, parse: string -> seq<ProcessInfo>)
    ensures !s.pollScheduled && Next(s, e, parse).pollScheduled ==>
      Next(s, e, parse).isMonitoring &&
      (e.StartMonitoring? || e.Poll? || e.ShizukuUnavailable? || e.ServiceConnected? || (e.PermissionResult? && !e.granted))
    ensures e.Poll? ==> Next(s, e, parse).pollScheduled == s.isMonitoring
  {
  }

  /** `systemInfoFetched` turns true only in a fetch whose system info arrived, from the source in use. */
  lemma FetchedOnlyOnSuccess(s: ServiceState, e: Event, parse: string -> seq<ProcessInfo>)
    requires !s.systemInfoFetched
    ensures Next(s, e, parse).systemInfoFetched <==>
      IsFetch(e) && (e.Poll? ==> s.isMonitoring) &&
      (if s.hasMonitor then FetchOf(e).systemInfo.Done? else FetchOf(e).topOutput.Done?)
  {
  }

  /** Once the system info is fetched it stays fetched and is never replaced, whatever happens next. */
  lemma {:induction false} SystemInfoFetchedOnce(s: ServiceState, events: seq<Event>, parse: string -> seq<ProcessInfo>)
    requires s.systemInfoFetched
    ensures Run(s, events, parse).systemInfoFetched
    ensures Run(s, events, parse).systemInfo == s.systemInfo
    decreases |events|
  {
    if |events| > 0 {
      var t := Next(s, events[0], parse);
      assert t.systemInfoFetched && t.systemInfo == s.systemInfo;
      SystemInfoFetchedOnce(t, events[1..], parse);
    }
  }

  /** After `stopMonitoring`, and until the next `startMonitoring`, nothing schedules a poll again. */
  lemma {:induction false} QuietAfterStop(s: ServiceState, events: seq<Event>, parse: string -> seq<ProcessInfo>)
    requires forall i :: 0 <= i < |events| ==> !events[i].StartMonitoring?
    ensures !Run(Next(s, StopMonitoring, parse), events, parse).isMonitoring
    ensures !Run(Next(s, StopMonitoring, parse), events, parse).pollScheduled
  {
    QuietStays(Next(s, StopMonitoring, parse), events, parse);
  }

  lemma {:induction false} QuietStays(s: ServiceState, events: seq<Event>, parse: string -> seq<ProcessInfo>)
    requires !s.isMonitoring && !s.pollScheduled
    requires forall i :: 0 <= i < |events| ==> !events[i].StartMonitoring?
    ensures !Run(s, events, parse).isMonitoring && !Run(s, events, parse).pollScheduled
    decreases |events|
  {
    if |events| > 0 {
      var t := Next(s, events[0], parse);
      assert !t.isMonitoring && !t.pollScheduled;
      assert forall i :: 0 <= i < |events| - 1 ==> events[1..][i] == events[i + 1];
      QuietStays(t, events[1..], parse);
    }
  }

  // ---------------------------------------------------------------------------
  // The service object

  class MonitorService {
    var isMonitoring: bool
    var processMonitorBound: bool
    var systemInfoFetched: bool
    var pollScheduled: bool
    var statusMessage: Status
    var processListData: seq<ProcessInfo>
    var systemInfoData: Option<SystemInfoData>
    var overlayTop: Option<ProcessInfo>
    /** `String.toDoubleOrNull`, which the fallback parser uses. */
    const toDouble: string -> Option<real>

    function State(): ServiceState
      reads this
    {
      ServiceState(isMonitoring, processMonitorBound, systemInfoFetched, pollScheduled,
                   statusMessage, processListData, systemInfoData, overlayTop)
    }

    constructor(toDouble: string -> Option<real>)
      ensures State() == Initial && this.toDouble == toDouble
    {
      isMonitoring := false;
      processMonitorBound := false;
      systemInfoFetched := false;
      pollScheduled := false;
      statusMessage := NoStatus;
      processListData := [];
      systemInfoData := None;
      overlayTop := None;
      this.toDouble := toDouble;
    }

    method StartMonitoring(shizukuAvailable: bool, hasPermission: bool) returns (request: Request)
      modifies this
      ensures (State(), request) == Step(old(State()), Event.StartMonitoring(shizukuAvailable, hasPermission), FallbackParser(toDouble))
    {
      request := NoRequest;
      if isMonitoring {
        return;
      }
      isMonitoring := true;
      if shizukuAvailable {
        if hasPermission {
          request := BindService;
          statusMessage := Connecting;
        } else {
          request := RequestPermission;
          statusMessage := RequestingPermission;
        }
      } else {
        statusMessage := NotAvailableTryingFallback;
        StartPolling();
      }
    }

    method StopMonitoring()
      modifies this
      ensures State() == Next(old(State()), Event.StopMonitoring, FallbackParser(toDouble))
    {
      isMonitoring := false;
      pollScheduled := false;
    }

    /** `startPolling`: drop a queued poll and queue one now. */
    method StartPolling()
      modifies this
      ensures State() == old(State()).(pollScheduled := true)
    {
      pollScheduled := true;
    }

    /** The poll runnable: while monitoring, fetch and queue the next poll. */
    method Poll(inputs: FetchInputs)
      modifies this
      ensures State() == Next(old(State()), Event.Poll(inputs), FallbackParser(toDouble))
    {
      PollStep(State(), inputs, FallbackParser(toDouble));
      pollScheduled := false;
      if isMonitoring {
        FetchProcessData(inputs);
        pollScheduled := true;
      }
    }

    method RefreshNow(inputs: FetchInputs)
      modifies this
      ensures State() == Next(old(State()), Event.RefreshNow(inputs), FallbackParser(toDouble))
    {
      FetchProcessData(inputs);
    }

    /** Publish a list and show its top process in the overlay. */
    method PostProcesses(processes: seq<ProcessInfo>)
      modifies this
      ensures State() == Publish(old(State()), processes)
    {
      processListData := processes;
      var top := MaxByCpu(processes);
      if top.Some? {
        overlayTop := top;
      }
    }

    method FetchProcessData(inputs: FetchInputs)
      modifies this
      ensures State() == Fetch(old(State()), inputs, FallbackParser(toDouble))
    {
      if processMonitorBound {
        if !systemInfoFetched {
          match inputs.systemInfo
          case Done(info) =>
            systemInfoData := Some(info);
            systemInfoFetched := true;
          case Thrown(_) =>
        }
        match inputs.snapshot
        case Done(processes) =>
          PostProcesses(processes);
          statusMessage := MonitoringActive;
        case Thrown(m) =>
          statusMessage := FetchError(m);
      } else {
        FetchFallbackData(inputs);
      }
    }

    method FetchFallbackData(inputs: FetchInputs)
      modifies this
      ensures State() == FetchFallback(old(State()), inputs, FallbackParser(toDouble))
    {
      match inputs.topOutput
      case Thrown(m) =>
        statusMessage := FallbackFailed(m);
      case Done(output) =>
        var processes := ParseFallbackTop(output, toDouble);
        assert processes == FallbackParser(toDouble)(output);
        ShowFallbackRows(processes, inputs.availableProcessors, inputs.memInfoLines);
    }

    /** Posts the parsed rows, then reads the local system info unless it was already fetched. */
    method ShowFallbackRows(processes: seq<ProcessInfo>, availableProcessors: int, memInfoLines: seq<string>)
      modifies this
      ensures var s1 := Publish(old(State()), processes);
        State() == if s1.systemInfoFetched then s1
                   else s1.(systemInfo := Some(LocalSystemInfo(availableProcessors, memInfoLines)), systemInfoFetched := true)
    {
      PostProcesses(processes);
      if !systemInfoFetched {
        FetchLocalSystemInfo(availableProcessors, memInfoLines);
      }
    }

    method FetchLocalSystemInfo(availableProcessors: int, memInfoLines: seq<string>)
      modifies this
      ensures State() == old(State()).(systemInfo := Some(LocalSystemInfo(availableProcessors, memInfoLines)),
                                       systemInfoFetched := true)
    {
      var memInfo := ReadMemInfo(memInfoLines);
      systemInfoData := Some(MemorySystemInfo(availableProcessors, [], memInfo));
      systemInfoFetched := true;
    }

    method OnShizukuAvailable(hasPermission: bool) returns (request: Request)
      modifies this
      ensures (State(), request) == Step(old(State()), ShizukuAvailable(hasPermission), FallbackParser(toDouble))
    {
      request := NoRequest;
      if hasPermission {
        request := BindService;
      } else {
        statusMessage := PermissionNeeded;
      }
    }

    method OnShizukuUnavailable()
      modifies this
      ensures State() == Next(old(State()), ShizukuUnavailable, FallbackParser(toDouble))
    {
      processMonitorBound := false;
      statusMessage := DisconnectedUsingFallback;
      if isMonitoring {
        StartPolling();
      }
    }

    method OnServiceConnected()
      modifies this
      ensures State() == Next(old(State()), ServiceConnected, FallbackParser(toDouble))
    {
      processMonitorBound := true;
      statusMessage := Connected;
      if isMonitoring {
        StartPolling();
      }
    }

    method OnServiceDisconnected()
      modifies this
      ensures State() == Next(old(State()), ServiceDisconnected, FallbackParser(toDouble))
    {
      processMonitorBound := false;
      statusMessage := ServiceDisconnectedMessage;
    }

    method OnPermissionResult(granted: bool) returns (request: Request)
      modifies this
      ensures (State(), request) == Step(old(State()), PermissionResult(granted), FallbackParser(toDouble))
    {
      request := NoRequest;
      if granted {
        request := BindService;
        statusMessage := PermissionGranted;
      } else {
        statusMessage := PermissionDenied;
        if isMonitoring {
          StartPolling();
        }
      }
    }
  }
}
