/** Phase accounting: the owner marks phases of a launch; each phase keeps two
    clock readings, two lifetime-counter readings and two operation counts. The
    launch object updates its open phase and its phase list in place; the theorems
    are about every run, for any monotone clock and any monotone counter that may
    be unreadable at any moment. */
module Phases {
  import opened Common

  datatype Phase = Phase(
    name: string, active: bool,
    startNs: int, endNs: int, cpuStart: Option<int>, cpuEnd: Option<int>,
    countStart: int, countEnd: Option<int>)

  /** One reading of the clock followed by one reading of the lifetime counter. */
  datatype Reading = Reading(ns: int, cpu: Option<int>)

  // ------------------------------------------------------------- active totals

  predicate CpuKnown(p: Phase) {
    p.cpuStart.Some? && p.cpuEnd.Some? && p.cpuStart.value <= p.cpuEnd.value
  }

  predicate TimeKnown(p: Phase) {
    p.startNs <= p.endNs
  }

  function ActiveCpu(phases: seq<Phase>): int
    requires forall i :: 0 <= i < |phases| && phases[i].active ==> CpuKnown(phases[i])
  {
    if phases == [] then 0 else
      var p := phases[|phases| - 1];
      assert phases[|phases| - 1].active ==> CpuKnown(phases[|phases| - 1]);
      ActiveCpu(phases[..|phases| - 1]) + if p.active then p.cpuEnd.value - p.cpuStart.value else 0
  }

  function ActiveWall(phases: seq<Phase>): int {
    if phases == [] then 0 else
      var p := phases[|phases| - 1];
      ActiveWall(phases[..|phases| - 1]) + if p.active then (p.endNs - p.startNs) / 1000 else 0
  }

  predicate AnyActive(phases: seq<Phase>) {
    exists i :: 0 <= i < |phases| && phases[i].active
  }

  predicate AllKnown(phases: seq<Phase>) {
    forall i :: 0 <= i < |phases| && phases[i].active ==> CpuKnown(phases[i]) && TimeKnown(phases[i])
  }

  lemma OneMorePhase(phases: seq<Phase>, i: nat)
    requires i < |phases|
    ensures var before, more, p := phases[..i], phases[..i + 1], phases[i];
      && (AnyActive(more) <==> AnyActive(before) || p.active)
      && (AllKnown(more) <==> AllKnown(before) && (p.active ==> CpuKnown(p) && TimeKnown(p)))
      && ActiveWall(more) == ActiveWall(before) + (if p.active then (p.endNs - p.startNs) / 1000 else 0)
      && (AllKnown(more) ==>
            ActiveCpu(more) == ActiveCpu(before) + if p.active then p.cpuEnd.value - p.cpuStart.value else 0)
  {
    var before, more, p := phases[..i], phases[..i + 1], phases[i];
    assert more[..i] == before && more[i] == p;
    assert forall j :: 0 <= j < i ==> more[j] == before[j];
  }

  /** CPU and wall microseconds of the active phases. The total is missing exactly
      when no phase is active or some active phase lacks a usable reading. */
  method CombineActiveCpu(phases: seq<Phase>) returns (total: Option<(int, int)>)
    ensures total.None? <==>
      || (forall i :: 0 <= i < |phases| ==> !phases[i].active)
      || exists i :: 0 <= i < |phases| && phases[i].active &&
           (|| phases[i].cpuStart.None? || phases[i].cpuEnd.None? || phases[i].cpuEnd.value < phases[i].cpuStart.value
            || phases[i].endNs < phases[i].startNs)
    ensures total.None? <==> !AnyActive(phases) || !AllKnown(phases)
    ensures total.Some? ==> total.value == (ActiveCpu(phases), ActiveWall(phases))
  {
    var saw, cpu, wall := false, 0, 0;
    for i := 0 to |phases|
      invariant AllKnown(phases[..i]) && (saw <==> AnyActive(phases[..i]))
      invariant cpu == ActiveCpu(phases[..i]) && wall == ActiveWall(phases[..i])
    {
      var p := phases[i];
      OneMorePhase(phases, i);
      if !p.active {
        continue;
      }
      saw := true;
      if p.cpuStart.None? || p.cpuEnd.None? || p.cpuEnd.value < p.cpuStart.value {
        return None;
      }
      if p.endNs < p.startNs {
        return None;
      }
      cpu := cpu + (p.cpuEnd.value - p.cpuStart.value);
      wall := wall + (p.endNs - p.startNs) / 1000;
    }
    assert phases[..|phases|] == phases;
    if !saw {
      return None;
    }
    return Some((cpu, wall));
  }

  // -------------------------------------------------------------------- the run

  const MAX_COUNT := 1_000_000

  predicate NameCharacter(c: char) {
    'a' <= c <= 'z' || '0' <= c <= '9'
  }

  predicate ValidName(name: string) {
    && 1 <= |name| <= 64 && NameCharacter(name[0])
    && forall i :: 0 <= i < |name| ==> NameCharacter(name[i]) || name[i] == '-'
  }

  /** A name is one letter or digit and up to 63 more, or hyphens. */
  lemma NamesByPattern(name: string)
    ensures ValidName(name) <==> exists first: char, rest: string ::
      && name == [first] + rest && ('a' <= first <= 'z' || '0' <= first <= '9') && |rest| <= 63
      && forall i :: 0 <= i < |rest| ==> 'a' <= rest[i] <= 'z' || '0' <= rest[i] <= '9' || rest[i] == '-'
  {
    if ValidName(name) {
      var rest := name[1..];
      assert name == [name[0]] + rest;
      forall i | 0 <= i < |rest| ensures 'a' <= rest[i] <= 'z' || '0' <= rest[i] <= '9' || rest[i] == '-' {
        assert rest[i] == name[i + 1];
      }
    }
  }

  const INACTIVE_NAMES: set<string> := {"before-first-mark", "idle", "settlement", "send-settlement", "wait"}

  datatype MarkResult = Marked | AlreadyFinished | InvalidPhase | InactivePhaseMarkedActive

  function Verdict(finished: bool, name: string, count: int, active: bool): MarkResult {
    if finished then AlreadyFinished
    else if !ValidName(name) || count < 0 || count > MAX_COUNT then InvalidPhase
    else if active && name in INACTIVE_NAMES then InactivePhaseMarkedActive
    else Marked
  }

  /** An accepted mark: its arguments, the reading that ends the open phase and the
      reading that starts the next one. */
  datatype Mark = Mark(name: string, count: int, active: bool, closing: Reading, opening: Reading)

  function FirstPhase(start: Reading): Phase {
    Phase("before-first-mark", false, start.ns, start.ns, start.cpu, None, 0, None)
  }

  function OpenedBy(m: Mark): Phase {
    Phase(m.name, m.active, m.opening.ns, m.opening.ns, m.opening.cpu, None, m.count, None)
  }

  function Closed(p: Phase, closing: Reading, count: Option<int>): Phase {
    p.(endNs := closing.ns, cpuEnd := closing.cpu, countEnd := count)
  }

  /** The phase that is open after `marks`. */
  function OpenPhase(start: Reading, marks: seq<Mark>): Phase {
    if marks == [] then FirstPhase(start) else OpenedBy(marks[|marks| - 1])
  }

  /** The phases already closed after `marks`. */
  function ClosedPhases(start: Reading, marks: seq<Mark>): seq<Phase> {
    if marks == [] then [] else
      var before, m := marks[..|marks| - 1], marks[|marks| - 1];
      ClosedPhases(start, before) + [Closed(OpenPhase(start, before), m.closing, Some(m.count))]
  }

  class OwnedLaunch {
    const start: Reading
    var open: Option<Phase>
    var phases: seq<Phase>
    var finished: bool
    ghost var marks: seq<Mark>

    ghost predicate Valid()
      reads this
    {
      && (!finished ==> open == Some(OpenPhase(start, marks)) && phases == ClosedPhases(start, marks))
      && (finished ==> open == None)
    }

    constructor (start: Reading)
      ensures Valid() && !finished && this.start == start && marks == []
    {
      this.start := start;
      open, phases, finished := Some(FirstPhase(start)), [], false;
      marks := [];
    }

    method CloseOpen(count: Option<int>, closing: Reading)
      modifies this`open, this`phases
      ensures open == None
      ensures phases == if old(open).None? then old(phases)
                        else old(phases) + [Closed(old(open.value), closing, count)]
    {
      if open.None? {
        return;
      }
      var p := open.value;
      p := p.(endNs := closing.ns);
      p := p.(cpuEnd := closing.cpu);
      p := p.(countEnd := count);
      phases := phases + [p];
      open := None;
    }

    /** A refused mark changes nothing. */
    method MarkPhase(name: string, count: int, active: bool, closing: Reading, opening: Reading)
      returns (r: MarkResult)
      requires Valid()
      modifies this`open, this`phases, this`marks
      ensures Valid()
      ensures r == Verdict(finished, name, count, active)
      ensures marks == if r.Marked? then old(marks) + [Mark(name, count, active, closing, opening)] else old(marks)
      ensures !r.Marked? ==> open == old(open) && phases == old(phases)
    {
      if finished {
        return AlreadyFinished;
      }
      if !ValidName(name) || !(0 <= count <= MAX_COUNT) {
        return InvalidPhase;
      }
      if active && name in INACTIVE_NAMES {
        return InactivePhaseMarkedActive;
      }
      CloseOpen(Some(count), closing);
      open := Some(Phase(name, active, opening.ns, opening.ns, opening.cpu, None, count, None));
      ghost var before := marks;
      marks := marks + [Mark(name, count, active, closing, opening)];
      assert marks[..|marks| - 1] == before;
      return Marked;
    }

    /** Ends the open phase; an operation count out of range is replaced by null. */
    method Finish(count: Option<int>, closing: Reading) returns (r: Result<Option<(int, int)>>)
      requires Valid()
      modifies this`open, this`phases, this`finished
      ensures Valid() && finished
      ensures r.Refused? <==> old(finished)
      ensures r.Refused? ==> phases == old(phases)
      ensures r.Ok? ==> phases == Report(start, marks, closing, count)
      ensures r.Ok? ==> r.value == ActiveTotal(phases)
    {
      if finished {
        return Refused;
      }
      finished := true;
      var kept := if count.Some? && 0 <= count.value <= MAX_COUNT then count else None;
      CloseOpen(kept, closing);
      var total := CombineActiveCpu(phases);
      return Ok(total);
    }
  }

  function ActiveTotal(phases: seq<Phase>): Option<(int, int)> {
    if AnyActive(phases) && AllKnown(phases) then Some((ActiveCpu(phases), ActiveWall(phases))) else None
  }

  /** All phases of a finished run. */
  function Report(start: Reading, marks: seq<Mark>, closing: Reading, count: Option<int>): seq<Phase> {
    ClosedPhases(start, marks)
    + [Closed(OpenPhase(start, marks), closing, if count.Some? && 0 <= count.value <= MAX_COUNT then count else None)]
  }

  // ------------------------------------------------------- monotone environments

  /** All readings of a run, in the order in which they were taken. */
  function Readings(start: Reading, marks: seq<Mark>): seq<Reading> {
    if marks == [] then [start] else
      var m := marks[|marks| - 1];
      Readings(start, marks[..|marks| - 1]) + [m.closing, m.opening]
  }

  /** The clock never goes back. */
  ghost predicate ClockAscends(rs: seq<Reading>) {
    forall i, j :: 0 <= i < j < |rs| ==> rs[i].ns <= rs[j].ns
  }

  /** Of two counter readings that exist the later one is not smaller, and none is
      negative. */
  ghost predicate CounterAscends(rs: seq<Reading>) {
    && (forall i, j :: 0 <= i < j < |rs| && rs[i].cpu.Some? && rs[j].cpu.Some?
          ==> rs[i].cpu.value <= rs[j].cpu.value)
    && (forall i :: 0 <= i < |rs| && rs[i].cpu.Some? ==> rs[i].cpu.value >= 0)
  }

  /** Phase k of a run reads the readings number 2k and 2k + 1. */
  lemma {:induction false} PhaseReadings(start: Reading, marks: seq<Mark>, k: int)
    requires 0 <= k < |marks|
    ensures |Readings(start, marks)| == 2 * |marks| + 1
    ensures |ClosedPhases(start, marks)| == |marks|
    ensures var rs, p := Readings(start, marks), ClosedPhases(start, marks)[k];
            p.startNs == rs[2 * k].ns && p.cpuStart == rs[2 * k].cpu
            && p.endNs == rs[2 * k + 1].ns && p.cpuEnd == rs[2 * k + 1].cpu
    ensures var p := ClosedPhases(start, marks)[k];
            p.countEnd == Some(marks[k].count) && p.countStart == (if k == 0 then 0 else marks[k - 1].count)
            && p.active == (k > 0 && marks[k - 1].active)
  {
    var before := marks[..|marks| - 1];
    LastReading(start, before);
    if k < |before| {
      PhaseReadings(start, before, k);
    } else if |before| > 0 {
      PhaseReadings(start, before, 0);
    }
  }

  lemma {:induction false} LastReading(start: Reading, marks: seq<Mark>)
    ensures |Readings(start, marks)| == 2 * |marks| + 1
    ensures var rs, p := Readings(start, marks), OpenPhase(start, marks);
            p.startNs == rs[|rs| - 1].ns && p.cpuStart == rs[|rs| - 1].cpu
  {
    if marks != [] { LastReading(start, marks[..|marks| - 1]); }
  }

  lemma ReportReadings(start: Reading, marks: seq<Mark>, closing: Reading, count: Option<int>, k: int)
    requires 0 <= k <= |marks|
    ensures |Report(start, marks, closing, count)| == |marks| + 1
    ensures |Readings(start, marks)| == 2 * |marks| + 1
    ensures var rs, p := Readings(start, marks) + [closing], Report(start, marks, closing, count)[k];
            p.startNs == rs[2 * k].ns && p.cpuStart == rs[2 * k].cpu
            && p.endNs == rs[2 * k + 1].ns && p.cpuEnd == rs[2 * k + 1].cpu
  {
    LastReading(start, marks);
    if |marks| > 0 { PhaseReadings(start, marks, if k < |marks| then k else 0); }
  }

  /** Phases of a run under a monotone clock are ordered and disjoint, and the
      operation count that ends a phase is the one that starts the next. */
  lemma PhasesOrderedAndChained(start: Reading, marks: seq<Mark>, closing: Reading, count: Option<int>)
    requires ClockAscends(Readings(start, marks) + [closing])
    ensures var ps := Report(start, marks, closing, count);
            && (forall i :: 0 <= i < |ps| ==> ps[i].startNs <= ps[i].endNs)
            && (forall i, j :: 0 <= i < j < |ps| ==> ps[i].endNs <= ps[j].startNs)
            && (forall i :: 0 <= i < |ps| - 1 ==> ps[i].countEnd == Some(ps[i + 1].countStart))
            && ps[0].countStart == 0 && !ps[0].active
  {
    var ps := Report(start, marks, closing, count);
    ReportReadings(start, marks, closing, count, 0);
    forall i | 0 <= i < |ps| ensures ps[i].startNs <= ps[i].endNs {
      ReportReadings(start, marks, closing, count, i);
    }
    forall i, j | 0 <= i < j < |ps| ensures ps[i].endNs <= ps[j].startNs {
      ReportReadings(start, marks, closing, count, i);
      ReportReadings(start, marks, closing, count, j);
    }
    forall i | 0 <= i < |ps| - 1 ensures ps[i].countEnd == Some(ps[i + 1].countStart) {
      PhaseReadings(start, marks, i);
      if i + 1 < |marks| { PhaseReadings(start, marks, i + 1); }
    }
    if |marks| > 0 { PhaseReadings(start, marks, 0); }
  }

  /** Active deltas of ordered phases fit below any bound on their last readings. */
  lemma {:induction false} ActiveCpuBelow(ps: seq<Phase>, bound: int)
    requires AllKnown(ps)
    requires forall i :: 0 <= i < |ps| && ps[i].active ==> 0 <= ps[i].cpuStart.value && ps[i].cpuEnd.value <= bound
    requires forall i, j :: 0 <= i < j < |ps| && ps[i].active && ps[j].active ==> ps[i].cpuEnd.value <= ps[j].cpuStart.value
    requires 0 <= bound
    ensures 0 <= ActiveCpu(ps) <= bound
  {
    if ps != [] {
      var front, p := ps[..|ps| - 1], ps[|ps| - 1];
      ActiveCpuBelow(front, if p.active then p.cpuStart.value else bound);
    }
  }

  lemma {:induction false} ActiveWallBelow(ps: seq<Phase>, from: int, to: int)
    requires forall i :: 0 <= i < |ps| ==> from <= ps[i].startNs <= ps[i].endNs <= to
    requires forall i, j :: 0 <= i < j < |ps| ==> ps[i].endNs <= ps[j].startNs
    requires from <= to
    ensures 0 <= 1000 * ActiveWall(ps) <= to - from
  {
    if ps != [] {
      var front, p := ps[..|ps| - 1], ps[|ps| - 1];
      ActiveWallBelow(front, from, p.startNs);
    }
  }

  /** Counter readings of two phases, and of one phase and a later reading. */
  lemma CpuChained(start: Reading, marks: seq<Mark>, closing: Reading, count: Option<int>, lifetime: Reading, i: int, j: int)
    requires CounterAscends(Readings(start, marks) + [closing] + [lifetime])
    requires 0 <= i <= j <= |marks|
    ensures var ps := Report(start, marks, closing, count);
            && |ps| == |marks| + 1
            && (CpuKnown(ps[i]) ==> ps[i].cpuStart.value >= 0)
            && (CpuKnown(ps[i]) && lifetime.cpu.Some? ==> ps[i].cpuEnd.value <= lifetime.cpu.value)
            && (i < j && CpuKnown(ps[i]) && CpuKnown(ps[j]) ==> ps[i].cpuEnd.value <= ps[j].cpuStart.value)
  {
    var rs := Readings(start, marks) + [closing];
    ReportReadings(start, marks, closing, count, i);
    ReportReadings(start, marks, closing, count, j);
    var all := rs + [lifetime];
    assert all[2 * i] == rs[2 * i] && all[2 * i + 1] == rs[2 * i + 1] && all[2 * j] == rs[2 * j];
    assert all[|rs|] == lifetime;
  }

  /** Every phase lies between the first reading and the last. */
  lemma PhaseWithinRun(start: Reading, marks: seq<Mark>, closing: Reading, count: Option<int>, i: int)
    requires ClockAscends(Readings(start, marks) + [closing]) && 0 <= i <= |marks|
    ensures var ps := Report(start, marks, closing, count);
      i < |ps| && start.ns <= ps[i].startNs && ps[i].endNs <= closing.ns
  {
    var rs := Readings(start, marks) + [closing];
    FirstReading(start, marks);
    ReportReadings(start, marks, closing, count, i);
    assert rs[0] == start && rs[|rs| - 1] == closing;
  }

  lemma WallWithinElapsed(start: Reading, marks: seq<Mark>, closing: Reading, count: Option<int>)
    requires ClockAscends(Readings(start, marks) + [closing])
    ensures 0 <= 1000 * ActiveWall(Report(start, marks, closing, count)) <= closing.ns - start.ns
  {
    var ps := Report(start, marks, closing, count);
    PhasesOrderedAndChained(start, marks, closing, count);
    ReportReadings(start, marks, closing, count, 0);
    forall i | 0 <= i < |ps| ensures start.ns <= ps[i].startNs && ps[i].endNs <= closing.ns {
      PhaseWithinRun(start, marks, closing, count, i);
    }
    ActiveWallBelow(ps, start.ns, closing.ns);
  }

  lemma CpuWithinLifetime(start: Reading, marks: seq<Mark>, closing: Reading, count: Option<int>, lifetime: Reading)
    requires CounterAscends(Readings(start, marks) + [closing] + [lifetime])
    requires AllKnown(Report(start, marks, closing, count))
    ensures var cpu := ActiveCpu(Report(start, marks, closing, count));
            0 <= cpu && (lifetime.cpu.Some? ==> cpu <= lifetime.cpu.value)
  {
    var ps := Report(start, marks, closing, count);
    CpuChained(start, marks, closing, count, lifetime, 0, 0);
    forall i, j | 0 <= i < j < |ps| && ps[i].active && ps[j].active
      ensures ps[i].cpuEnd.value <= ps[j].cpuStart.value
    {
      CpuChained(start, marks, closing, count, lifetime, i, j);
    }
    var bound := if lifetime.cpu.Some? then lifetime.cpu.value else MaxEnd(ps);
    forall i | 0 <= i < |ps| && ps[i].active
      ensures 0 <= ps[i].cpuStart.value && ps[i].cpuEnd.value <= bound
    {
      CpuChained(start, marks, closing, count, lifetime, i, i);
    }
    if lifetime.cpu.Some? {
      var rs := Readings(start, marks) + [closing] + [lifetime];
      assert rs[|rs| - 1] == lifetime;
    }
    ActiveCpuBelow(ps, bound);
  }

  /** Whatever is marked and whichever counter readings fail, the reported active
      CPU is at most the lifetime counter read after the last phase, and the active
      wall time is at most the elapsed time although every phase is rounded. */
  lemma ActiveWithinLifetime(start: Reading, marks: seq<Mark>, closing: Reading, count: Option<int>, lifetime: Reading)
    requires ClockAscends(Readings(start, marks) + [closing])
    requires CounterAscends(Readings(start, marks) + [closing] + [lifetime])
    ensures var total := ActiveTotal(Report(start, marks, closing, count));
            total.Some? ==>
              && 0 <= total.value.0 && (lifetime.cpu.Some? ==> total.value.0 <= lifetime.cpu.value)
              && 0 <= total.value.1 && 1000 * total.value.1 <= closing.ns - start.ns
  {
    if ActiveTotal(Report(start, marks, closing, count)).Some? {
      CpuWithinLifetime(start, marks, closing, count, lifetime);
      WallWithinElapsed(start, marks, closing, count);
    }
  }

  lemma {:induction false} FirstReading(start: Reading, marks: seq<Mark>)
    ensures Readings(start, marks) != [] && Readings(start, marks)[0] == start
  {
    if marks != [] { FirstReading(start, marks[..|marks| - 1]); }
  }

  /** A bound on the last readings of the active phases. */
  function MaxEnd(ps: seq<Phase>): (bound: int)
    requires AllKnown(ps)
    ensures 0 <= bound && forall i :: 0 <= i < |ps| && ps[i].active ==> ps[i].cpuEnd.value <= bound
  {
    if ps == [] then 0 else
      var p, rest := ps[|ps| - 1], MaxEnd(ps[..|ps| - 1]);
      if p.active && p.cpuEnd.value > rest then p.cpuEnd.value else rest
  }
}
