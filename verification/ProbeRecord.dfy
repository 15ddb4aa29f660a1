/** The record of one residency probe run, the outcome the probe decides from it and
    the scalar observation it emits. */
module ProbeRecord {
  import opened Common

  const BASIC_INFO_COUNT: int := 12
  const ALLOCATION_BYTES: int := 8 * 1024 * 1024
  const PROBE_NAME := "darwin_residency_counters"

  /** One MACH_TASK_BASIC_INFO query. */
  datatype Sample = Sample(queried: bool, complete: bool, kr: int, count: nat, size: nat, peak: nat)

  const NO_SAMPLE := Sample(false, false, 0, 0, 0, 0)

  predicate SampleOk(s: Sample) {
    s.complete ==> s.queried && s.kr == 0 && s.count == BASIC_INFO_COUNT
  }

  // A wait status: its low seven bits are 0 for an exit and 127 for a stop, else the
  // terminating signal.

  function Low(status: nat): nat {
    status % 128
  }

  predicate Exited(status: nat) {
    Low(status) == 0
  }

  predicate Signaled(status: nat) {
    Low(status) != 0 && Low(status) != 127
  }

  function ExitStatus(status: nat): nat {
    status / 256 % 256
  }

  datatype Detail =
    | NoDetail | ForkFailed | PipeFailed | Timeout | HandshakeFailed | ChildExitedEarly | NotOurChild | KillFailed
    | NamePortRejected | CounterIncomplete | ZeroPeak | PeakDecreased | AllocationNotObserved | PeakOutOfOrder
    | Fine | ReapNotConfirmed

  datatype Run = Run(
    child: int, childReaped: bool, status: Option<nat>, timedOut: bool, killFailed: bool,
    deallocOk: bool, deallocKr: Option<int>, nameKr: Option<int>, namePortIsNull: bool,
    baseline: Sample, live: Sample, post: Sample, childRss: Option<nat>, detail: Detail)

  const INITIAL_RUN: Run := Run(
    0, false, None, false, false, true, None, None, false, NO_SAMPLE, NO_SAMPLE, NO_SAMPLE, None, ForkFailed)

  predicate AboutPeaks(d: Detail) {
    d == ZeroPeak || d == PeakDecreased || d == AllocationNotObserved || d == PeakOutOfOrder || d == Fine
  }

  predicate RunOk(r: Run) {
    SampleOk(r.baseline) && SampleOk(r.live) && SampleOk(r.post)
  }

  datatype Outcome =
    | LiveCounterOk | NamePortDenied | ZeroPeakRss | CounterMissing | ChildOrCleanupFailure
    | PeakOrAllocationCheckFailed | ChildPeakOutOfOrder

  function Decide(r: Run): Outcome {
    var clean := r.status.Some? && Exited(r.status.value) && ExitStatus(r.status.value) == 0;
    if r.timedOut || !r.childReaped || !r.deallocOk || r.killFailed || !clean then
      ChildOrCleanupFailure
    else if r.nameKr.None? then
      ChildOrCleanupFailure
    else if r.nameKr.value != 0 then
      NamePortDenied
    else if r.namePortIsNull || !r.baseline.complete || !r.live.complete || r.childRss.None? then
      CounterMissing
    else if r.live.peak == 0 then
      ZeroPeakRss
    else if r.live.peak < r.baseline.peak || r.live.size <= r.baseline.size then
      PeakOrAllocationCheckFailed
    else if r.childRss.value < r.baseline.peak || r.childRss.value > r.live.peak then
      ChildPeakOutOfOrder
    else
      LiveCounterOk
  }

  function ExitFor(o: Outcome): (code: int)
    ensures code == 0 <==> o == LiveCounterOk
    ensures code == 2 <==> o == NamePortDenied
    ensures code == 3 <==> o == CounterMissing
    ensures code == 4 <==> o == ChildOrCleanupFailure
    ensures code == 0 || 2 <= code <= 5
  {
    match o
    case LiveCounterOk => 0
    case NamePortDenied => 2
    case CounterMissing => 3
    case ChildOrCleanupFailure => 4
    case _ => 5
  }

  // -------------------------------------------------------------- observation

  datatype Json = Null | Bool(b: bool) | Int(i: int) | Text(s: string) | Other

  datatype Observation = Observation(
    probe: Json, allocationBytes: Json, telemetryAcceptance: Json, workloadAcceptance: Json, budgetAcceptance: Json,
    source: Json, sourceRejected: Json, os: Json, osRelease: Json, arch: Json, detail: Json, outcome: Json,
    sizeUnit: Json, sizeMaxUnit: Json, maxrssUnit: Json, childPid: Json,
    nameKr: Json, baselineKr: Json, liveKr: Json, postKr: Json, deallocKr: Json,
    baselineCount: Json, liveCount: Json, postCount: Json,
    baselineSize: Json, baselinePeak: Json, liveSize: Json, livePeak: Json, childMaxrss: Json, postSize: Json, postPeak: Json,
    childExitStatus: Json, childTermSignal: Json, childExitKind: Json,
    namePortIsNull: Json, childReaped: Json, timedOut: Json, cleanupOk: Json, postQueried: Json,
    peaksNondecreasing: Json, allocationObserved: Json, postSupported: Json)

  function OutcomeText(o: Outcome): string {
    match o
    case LiveCounterOk => "live_counter_ok"
    case NamePortDenied => "name_port_denied"
    case ZeroPeakRss => "zero_peak_rss"
    case CounterMissing => "counter_missing"
    case ChildOrCleanupFailure => "child_or_cleanup_failure"
    case PeakOrAllocationCheckFailed => "peak_or_allocation_check_failed"
    case ChildPeakOutOfOrder => "child_peak_out_of_order"
  }

  function DetailText(d: Detail): string {
    match d
    case NoDetail => ""
    case ForkFailed => "fork_failed"
    case PipeFailed => "pipe_failed"
    case Timeout => "timeout"
    case HandshakeFailed => "handshake_failed"
    case ChildExitedEarly => "child_exited_early"
    case NotOurChild => "not_our_child"
    case KillFailed => "kill_failed"
    case NamePortRejected => "name_port_rejected"
    case CounterIncomplete => "counter_incomplete"
    case ZeroPeak => "zero_peak"
    case PeakDecreased => "peak_decreased"
    case AllocationNotObserved => "allocation_not_observed"
    case PeakOutOfOrder => "child_peak_out_of_order"
    case Fine => "ok"
    case ReapNotConfirmed => "reap_not_confirmed"
  }

  const EXITED := "exited"
  const SIGNALED := "signaled"
  const UNEXITED := "unexited"
  const BYTES := "bytes"

  /** The names the host reports, or none if it cannot be asked, and the source text
      from the environment. */
  datatype Host = Host(names: Option<(string, string, string)>, source: Option<string>)

  predicate HexDigit(c: char) {
    '0' <= c <= '9' || 'a' <= c <= 'f'
  }

  predicate IsSha(s: string) {
    |s| == 40 && forall i :: 0 <= i < 40 ==> HexDigit(s[i])
  }

  function Present(known: bool, value: int): Json {
    if known then Int(value) else Null
  }

  function Optional(v: Option<int>): Json {
    if v.Some? then Int(v.value) else Null
  }

  function ExitKind(status: Option<nat>): string {
    if status.Some? && Exited(status.value) then EXITED
    else if status.Some? && Signaled(status.value) then SIGNALED
    else UNEXITED
  }

  function Named(host: Host): (string, string, string) {
    if host.names.Some? then host.names.value else ("unknown", "unknown", "unknown")
  }

  function Emit(r: Run, outcome: Outcome, host: Host): Observation {
    var known := r.baseline.complete && r.live.complete;
    var exited := r.status.Some? && Exited(r.status.value);
    var signaled := r.status.Some? && Signaled(r.status.value);
    var shaGiven := host.source.Some? && IsSha(host.source.value);
    Observation(
      probe := Text(PROBE_NAME),
      allocationBytes := Int(ALLOCATION_BYTES),
      telemetryAcceptance := Bool(false),
      workloadAcceptance := Bool(false),
      budgetAcceptance := Bool(false),
      source := if shaGiven then Text(host.source.value) else Null,
      sourceRejected := Bool(host.source.Some? && !shaGiven),
      os := Text(Named(host).0),
      osRelease := Text(Named(host).1),
      arch := Text(Named(host).2),
      detail := Text(DetailText(r.detail)),
      outcome := Text(OutcomeText(outcome)),
      sizeUnit := Text(BYTES),
      sizeMaxUnit := Text(BYTES),
      maxrssUnit := Text(BYTES),
      childPid := Present(r.child > 1, r.child),
      nameKr := Optional(r.nameKr),
      baselineKr := Present(r.baseline.queried, r.baseline.kr),
      liveKr := Present(r.live.queried, r.live.kr),
      postKr := Present(r.post.queried, r.post.kr),
      deallocKr := Optional(r.deallocKr),
      baselineCount := Present(r.baseline.queried, r.baseline.count),
      liveCount := Present(r.live.queried, r.live.count),
      postCount := Present(r.post.queried, r.post.count),
      baselineSize := Present(r.baseline.complete, r.baseline.size),
      baselinePeak := Present(r.baseline.complete, r.baseline.peak),
      liveSize := Present(r.live.complete, r.live.size),
      livePeak := Present(r.live.complete, r.live.peak),
      childMaxrss := Optional(r.childRss),
      postSize := Present(r.post.complete, r.post.size),
      postPeak := Present(r.post.complete, r.post.peak),
      childExitStatus := if exited then Int(ExitStatus(r.status.value)) else Null,
      childTermSignal := if signaled then Int(Low(r.status.value)) else Null,
      childExitKind := Text(ExitKind(r.status)),
      namePortIsNull := Bool(r.namePortIsNull),
      childReaped := Bool(r.childReaped),
      timedOut := Bool(r.timedOut),
      cleanupOk := Bool(r.deallocOk && !r.killFailed && (r.child <= 1 || r.childReaped)),
      postQueried := Bool(r.post.queried),
      peaksNondecreasing := if known then Bool(r.live.peak >= r.baseline.peak) else Null,
      allocationObserved := if known then Bool(r.live.size > r.baseline.size) else Null,
      postSupported := if r.post.queried then Bool(r.post.complete) else Null)
  }
}
