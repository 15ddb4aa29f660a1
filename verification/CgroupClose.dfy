/** Closing the Linux launch: drain the owned control group, read its lifetime
    counter once, remove the leaf. The group answers as it likes; every answer of the
    close is kept in a log, and the theorems speak about every such log. */
module CgroupClose {
  import opened Common

  datatype MemberState = Empty | Populated | Unreadable

  /** The answers of the group's files, of its removal, of the clock and of the root
      process, and what was done in between. A file that cannot be read gives none;
      `Procs` says whether the member list holds a process, `EventsFile` whether the
      events file says that the group is populated. */
  datatype Event =
    | Procs(held: Option<bool>)
    | EventsFile(populated: Option<bool>)
    | Read(cpu: Option<int>)
    | Removal(gone: bool)
    | Clock(now: int)
    | Polled(exited: bool)
    | Signalled
    | Slept(milliseconds: nat)

  datatype ClockPart = Ascends | IsPast

  predicate ClockHas(log: seq<Event>, now: int, part: ClockPart) {
    match part
    case Ascends => forall i, j :: 0 <= i < j < |log| && log[i].Clock? && log[j].Clock? ==> log[i].now <= log[j].now
    case IsPast => forall i :: 0 <= i < |log| && log[i].Clock? ==> log[i].now <= now
  }

  /** The clock never goes back. The two parts are behind a quantifier, so that a proof that
      only hands this on does not meet them. */
  ghost predicate Timely(log: seq<Event>, now: int) {
    forall part: ClockPart :: ClockHas(log, now, part)
  }

  lemma TimelyNext(log: seq<Event>, now: int, e: Event, later: int)
    requires Timely(log, now) && now <= later && (e.Clock? ==> e.now == later)
    ensures Timely(log + [e], later) && Timely(log, later)
  {
    assert ClockHas(log, now, Ascends) && ClockHas(log, now, IsPast);
  }

  /** One control group, its root process and one clock. Reading a file may fail, a
      removal may fail, and a sleep lasts at least as long as asked. Nothing is asked and
      no time is spent without a trace in the log. */
  class Group {
    var now: int
    var log: seq<Event>

    ghost predicate Valid()
      reads this
    {
      Timely(log, now)
    }

    constructor ()
      ensures Valid() && log == []
    {
      now, log := *, [];
    }

    /** Anything may take time. */
    method Pass()
      requires Valid()
      modifies this`now
      ensures Valid() && old(now) <= now
    {
      var passed: int := *;
      if passed > 0 {
        TimelyNext(log, now, Signalled, now + passed);
        now := now + passed;
      }
    }

    method Monotonic() returns (t: int)
      requires Valid()
      modifies this
      ensures Valid() && t == now && old(now) <= now && log == old(log) + [Clock(t)]
    {
      Pass();
      t := now;
      TimelyNext(log, now, Clock(t), now);
      log := log + [Clock(t)];
    }

    method Sleep(milliseconds: nat)
      requires Valid()
      modifies this
      ensures Valid() && now >= old(now) + milliseconds && log == old(log) + [Slept(milliseconds)]
    {
      TimelyNext(log, now, Slept(milliseconds), now + milliseconds);
      now, log := now + milliseconds, log + [Slept(milliseconds)];
      Pass();
    }

    method ReadProcs() returns (held: Option<bool>)
      requires Valid()
      modifies this`log
      ensures Valid() && log == old(log) + [Procs(held)]
    {
      held := *;
      TimelyNext(log, now, Procs(held), now);
      log := log + [Procs(held)];
    }

    method ReadEvents() returns (populated: Option<bool>)
      requires Valid()
      modifies this`log
      ensures Valid() && log == old(log) + [EventsFile(populated)]
    {
      populated := *;
      TimelyNext(log, now, EventsFile(populated), now);
      log := log + [EventsFile(populated)];
    }

    method Usage() returns (cpu: Option<int>)
      requires Valid()
      modifies this`log
      ensures Valid() && log == old(log) + [Read(cpu)]
    {
      cpu := *;
      TimelyNext(log, now, Read(cpu), now);
      log := log + [Read(cpu)];
    }

    /** One removal attempt; it counts as done only if the leaf is seen to be gone. */
    method RemoveLeaf() returns (gone: bool)
      requires Valid()
      modifies this`log
      ensures Valid() && log == old(log) + [Removal(gone)]
    {
      gone := *;
      TimelyNext(log, now, Removal(gone), now);
      log := log + [Removal(gone)];
    }

    method RootExited() returns (exited: bool)
      requires Valid()
      modifies this`log
      ensures Valid() && log == old(log) + [Polled(exited)]
    {
      exited := *;
      TimelyNext(log, now, Polled(exited), now);
      log := log + [Polled(exited)];
    }

    method Signal()
      requires Valid()
      modifies this`log
      ensures Valid() && log == old(log) + [Signalled]
    {
      TimelyNext(log, now, Signalled, now);
      log := log + [Signalled];
    }
  }

  function Removals(log: seq<Event>): nat {
    if log == [] then 0
    else Removals(log[..|log| - 1]) + if log[|log| - 1].Removal? then 1 else 0
  }

  function Reads(log: seq<Event>): nat {
    if log == [] then 0
    else Reads(log[..|log| - 1]) + if log[|log| - 1].Read? then 1 else 0
  }

  function Looks(log: seq<Event>): nat {
    if log == [] then 0
    else Looks(log[..|log| - 1]) + if log[|log| - 1].Procs? then 1 else 0
  }

  lemma Appended(log: seq<Event>, e: Event)
    ensures Looks(log + [e]) == Looks(log) + if e.Procs? then 1 else 0
    ensures Removals(log + [e]) == Removals(log) + if e.Removal? then 1 else 0
    ensures Reads(log + [e]) == Reads(log) + if e.Read? then 1 else 0
  {
    assert (log + [e])[..|log|] == log;
  }

  /** The last two answers before `k` showed the group empty: its member list was readable
      and held no process, and its events file, if readable, did not say populated. */
  predicate SeenEmpty(log: seq<Event>, k: int) {
    && 2 <= k <= |log| && log[k - 2] == Procs(Some(false))
    && log[k - 1].EventsFile? && log[k - 1].populated != Some(true)
  }

  /** The lifetime reading at `k` came right after the group was seen empty and
      before any removal attempt. */
  ghost predicate DrainedReading(log: seq<Event>, k: int, cpu: Option<int>) {
    && k < |log| && SeenEmpty(log, k) && log[k] == Read(cpu)
    && forall j :: 0 <= j < k ==> !log[j].Removal?
  }

  ghost predicate ReadAfterDrain(log: seq<Event>, cpu: Option<int>) {
    exists k :: DrainedReading(log, k, cpu)
  }

  /** A reading of the lifetime counter gave this. */
  ghost predicate WasRead(log: seq<Event>, cpu: Option<int>) {
    exists k :: 0 <= k < |log| && log[k] == Read(cpu)
  }

  ghost predicate NeverRemoved(log: seq<Event>) {
    forall j :: 0 <= j < |log| ==> log[j] != Removal(true)
  }

  /** The leaf went with the last event, and with that one only. */
  ghost predicate RemovedLast(log: seq<Event>) {
    && log != [] && log[|log| - 1] == Removal(true)
    && NeverRemoved(log[..|log| - 1])
  }

  // ------------------------------------------------------- waiting for the root

  /** Turns of the wait that found time left and the root running: each reads the clock,
      polls the root and sleeps 20 ms. */
  predicate Waiting(w: seq<Event>, until: int) {
    w == [] ||
    (&& |w| >= 3 && w[|w| - 3].Clock? && w[|w| - 3].now < until
     && w[|w| - 2] == Polled(false) && w[|w| - 1] == Slept(20)
     && Waiting(w[..|w| - 3], until))
  }

  /** A whole wait: such turns, then one reading of the clock and one last poll, which is
      the last because the time is over or the root has exited. */
  predicate Waits(w: seq<Event>, until: int) {
    && |w| >= 2 && Waiting(w[..|w| - 2], until)
    && w[|w| - 2].Clock? && w[|w| - 1].Polled? && (w[|w| - 2].now < until ==> w[|w| - 1].exited)
  }

  /** What a close does before it looks at the group: a root that still runs is signalled
      and, if any time is left, waited for. The wait counts the remaining time from its
      own first reading of the clock. */
  predicate RootWait(w: seq<Event>, process: bool, deadline: int) {
    if !process then w == []
    else
      || w == [Polled(true)]
      || (&& |w| >= 3 && w[0] == Polled(false) && w[1] == Signalled && w[2].Clock?
          && if w[2].now >= deadline then |w| == 3
             else |w| > 3 && w[3].Clock? && Waits(w[4..], w[3].now + (deadline - w[2].now)))
  }

  lemma {:induction false} WaitingLooksAtNothing(w: seq<Event>, until: int)
    requires Waiting(w, until)
    ensures forall i :: 0 <= i < |w| ==> w[i].Clock? || w[i].Polled? || w[i].Slept?
  {
    if w != [] {
      WaitingLooksAtNothing(w[..|w| - 3], until);
    }
  }

  lemma RootWaitLooksAtNothing(w: seq<Event>, process: bool, deadline: int)
    requires RootWait(w, process, deadline)
    ensures forall i :: 0 <= i < |w| ==> w[i].Clock? || w[i].Polled? || w[i].Slept? || w[i].Signalled?
  {
    if |w| > 3 {
      var v := w[4..];
      WaitingLooksAtNothing(v[..|v| - 2], w[3].now + (deadline - w[2].now));
      forall i | 4 <= i < |w| ensures w[i].Clock? || w[i].Polled? || w[i].Slept? {
        assert w[i] == v[i - 4];
        assert i - 4 < |v| - 2 ==> v[i - 4] == v[..|v| - 2][i - 4];
      }
    }
  }

  // ------------------------------------------------------------ the order of events

  /** What may come at `i`, from the first look on. The first look follows the wait for
      the root; every later one follows a sleep of 50 ms, and that a clock reading before
      the deadline. An empty look is followed by the lifetime reading, if that was not
      taken, and a removal attempt; any other look and a failed attempt by the clock. */
  predicate InTime(log: seq<Event>, i: int, deadline: int, first: int)
    requires 0 <= first && 0 <= i < |log|
  {
    i >= first ==>
      match log[i]
      case Procs(_) => i == first || log[i - 1] == Slept(50)
      case EventsFile(_) => i > first && log[i - 1] == Procs(Some(false))
      case Read(_) => i > first && (SeenEmpty(log, i) || (log[i - 1].Clock? && log[i - 1].now >= deadline))
      case Removal(_) => i > first && ReadyAt(log, i)
      case Clock(_) => i > first && AfterRound(log, i)
      case Slept(duration) => i > first && duration == 50 && log[i - 1].Clock? && log[i - 1].now < deadline
      case _ => false
  }

  /** A look is over that led to no removal attempt, or the attempt failed. */
  predicate AfterRound(log: seq<Event>, i: int)
    requires 0 < i <= |log|
  {
    var last := log[i - 1];
    || (last.Procs? && last.held != Some(false)) || (last.EventsFile? && !SeenEmpty(log, i))
    || last == Removal(false)
  }

  /** The group was just seen empty, and perhaps its lifetime reading taken. */
  predicate ReadyAt(log: seq<Event>, i: int)
    requires 0 <= i <= |log|
  {
    SeenEmpty(log, i) || (i > 0 && log[i - 1].Read? && SeenEmpty(log, i - 1))
  }

  ghost predicate AllInTime(log: seq<Event>, deadline: int, first: int)
    requires 0 <= first
  {
    forall i :: 0 <= i < |log| ==> InTime(log, i, deadline, first)
  }

  lemma InTimeNext(log: seq<Event>, e: Event, deadline: int, first: int)
    requires 0 <= first && AllInTime(log, deadline, first) && InTime(log + [e], |log|, deadline, first)
    ensures AllInTime(log + [e], deadline, first)
  {
    forall i | 0 <= i < |log + [e]| ensures InTime(log + [e], i, deadline, first) {
      if i < |log| {
        assert InTime(log, i, deadline, first);
      }
    }
  }

  /** A removal attempt when the group was just seen empty, or the clock after a round. */
  lemma InTimeNow(log: seq<Event>, e: Event, deadline: int, first: int)
    requires 0 <= first < |log|
    requires (e.Removal? && ReadyAt(log, |log|)) || (e.Clock? && AfterRound(log, |log|))
             || (e == Slept(50) && log[|log| - 1].Clock? && log[|log| - 1].now < deadline)
    ensures InTime(log + [e], |log|, deadline, first)
  {
    var more := log + [e];
    assert forall i :: 0 <= i < |log| ==> more[i] == log[i];
  }

  /** The clock was read at or past the deadline. */
  ghost predicate RanOut(log: seq<Event>, deadline: int) {
    exists i :: 0 <= i < |log| && log[i].Clock? && log[i].now >= deadline
  }

  /** A look comes after a clock reading at or past the deadline if and only if it is the
      first one and the wait for the root ran out of time. */
  lemma OnlyFirstLookPast(log: seq<Event>, now: int, deadline: int, first: int, i: int)
    requires 0 <= first <= i < |log| && log[i].Procs?
    requires Timely(log, now) && AllInTime(log, deadline, first)
    ensures RanOut(log[..i], deadline) <==> i == first && RanOut(log[..first], deadline)
  {
    if i > first {
      assert ClockHas(log, now, Ascends);
      assert InTime(log, i, deadline, first);
      assert i > first + 1 && log[i - 1].Slept? by {
        assert InTime(log, i - 1, deadline, first);
      }
      assert InTime(log, i - 1, deadline, first);
      forall j | 0 <= j < i && log[..i][j].Clock? ensures log[..i][j].now < deadline {
        assert log[..i][j] == log[j];
        assert j <= i - 2;
      }
    }
  }

  /** That takes a root that still ran when the close began. */
  lemma WaitRanOut(log: seq<Event>, process: bool, deadline: int, first: int)
    requires 1 <= first <= |log| && log[0].Clock? && log[0].now < deadline
    requires RootWait(log[1..first], process, deadline)
    ensures RanOut(log[..first], deadline) ==> process && log[1] == Polled(false)
  {
  }

  /** And a root that was never seen to exit is enough. */
  lemma RootStillRunning(log: seq<Event>, now: int, deadline: int, first: int)
    requires 2 <= first <= |log| && Timely(log, now) && RootWait(log[1..first], true, deadline)
    requires forall i :: 1 <= i < first ==> log[i] != Polled(true)
    ensures RanOut(log[..first], deadline)
  {
    var w := log[1..first];
    assert ClockHas(log, now, Ascends);
    assert w[0] == log[1] && |w| >= 3 && log[3] == w[2];
    if |w| == 3 {
      assert log[..first][3] == w[2];
    } else {
      assert w[3] == log[4] && w[2].now <= w[3].now;
      var v := w[4..];
      assert v[|v| - 1] == w[|w| - 1] == log[first - 1];
      assert v[|v| - 2] == w[|w| - 2] == log[..first][first - 2];
    }
  }

  lemma KeepsReading(log: seq<Event>, cpu: Option<int>, e: Event)
    requires ReadAfterDrain(log, cpu)
    ensures ReadAfterDrain(log + [e], cpu)
  {
    var k :| DrainedReading(log, k, cpu);
    assert DrainedReading(log + [e], k, cpu);
  }

  datatype Lifetime = Lifetime(cpu: Option<int>, complete: bool)

  datatype Failure = CgroupMissing | CgroupRmdirFailed

  datatype Outcome = Removed | Failed(failure: Failure)

  /** What the drain has established so far, from the events it caused. */
  ghost predicate DrainedWith(log: seq<Event>, deadline: int, first: nat, final: Option<Lifetime>, retried: bool) {
    && AllInTime(log, deadline, first) && first <= |log|
    && (retried <==> Removals(log) >= 2)
    && (final.None? ==> Reads(log) == 0 && Removals(log) == 0)
    && (final.Some? ==>
          && Reads(log) == 1 && ReadAfterDrain(log, final.value.cpu)
          && final.value.complete == final.value.cpu.Some?)
  }

  lemma RemovalStep(log: seq<Event>, gone: bool, deadline: int, first: nat, final: Option<Lifetime>, retried: bool)
    requires DrainedWith(log, deadline, first, final, retried) && NeverRemoved(log) && final.Some?
    requires first < |log| && ReadyAt(log, |log|)
    ensures DrainedWith(log + [Removal(gone)], deadline, first, final, retried || Removals(log) > 0)
    ensures Removals(log + [Removal(gone)]) == Removals(log) + 1 && Looks(log + [Removal(gone)]) == Looks(log)
    ensures if gone then RemovedLast(log + [Removal(gone)]) else NeverRemoved(log + [Removal(gone)])
  {
    Appended(log, Removal(gone));
    InTimeNow(log, Removal(gone), deadline, first);
    InTimeNext(log, Removal(gone), deadline, first);
    KeepsReading(log, final.value.cpu, Removal(gone));
    assert (log + [Removal(gone)])[..|log|] == log;
  }

  /** The drain's time in milliseconds; anything but 0 to 5 seconds means 5. */
  function Budget(drain: Option<int>): (budget: int)
    ensures drain.Some? && 0 < drain.value <= 5000 ==> budget == drain.value
    ensures drain.None? || drain.value <= 0 || drain.value > 5000 ==> budget == 5000
  {
    if drain.Some? && 0 < drain.value <= 5000 then drain.value else 5000
  }

  /** The parts of what holds of a close; see `Closed`. */
  datatype ClosePart = InOrder | OneReading | Ending

  class LinuxCgroupBackend {
    const group: Group
    var leaf: bool
    var process: bool
    var closed: bool
    var result: Outcome
    var retried: bool
    var final: Option<Lifetime>

    constructor (group: Group, leaf: bool, process: bool)
      ensures this.group == group && this.leaf == leaf && !closed && final == None
    {
      this.group, this.leaf, this.process := group, leaf, process;
      closed, result, retried, final := false, Failed(CgroupRmdirFailed), false, None;
    }

    method Snapshot() returns (s: Lifetime)
      requires group.Valid()
      modifies group`log
      ensures group.Valid() && group.log == old(group.log) + [Read(s.cpu)] && s.complete == s.cpu.Some?
    {
      var cpu := group.Usage();
      s := Lifetime(cpu, cpu.Some?);
    }

    /** Polls the root until it has exited or the time is over, counted from the wait's own
        first reading of the clock. */
    method WaitRoot(timeout: int) returns (exited: bool)
      requires group.Valid()
      modifies group
      ensures group.Valid() && old(group.log) <= group.log && old(group.now) <= group.now
      ensures var w := group.log[|old(group.log)|..];
        if !process then w == [] && !exited
        else w != [] && w[0].Clock? && Waits(w[1..], w[0].now + timeout) && exited == w[|w| - 1].exited
    {
      if !process {
        return false;
      }
      var started := group.Monotonic();
      exited := PollUntil(started + timeout);
      assert group.log[|old(group.log)|..] == [Clock(started)] + group.log[|old(group.log)| + 1..];
    }

    method PollUntil(until: int) returns (exited: bool)
      requires group.Valid()
      modifies group
      ensures group.Valid() && old(group.log) <= group.log && old(group.now) <= group.now
      ensures var w := group.log[|old(group.log)|..];
        Waits(w, until) && exited == w[|w| - 1].exited
    {
      ghost var w: seq<Event> := [];
      var t := group.Monotonic();
      while t < until
        invariant group.Valid() && t == group.now && old(group.now) <= group.now
        invariant group.log == old(group.log) + w + [Clock(t)] && Waiting(w, until)
        decreases until - t
      {
        exited := group.RootExited();
        if exited {
          WaitEnds(old(group.log), w, t, until, exited, group.log);
          return;
        }
        group.Sleep(20);
        ghost var more := w + [Clock(t), Polled(false), Slept(20)];
        assert more[..|more| - 3] == w;
        assert group.log == old(group.log) + more;
        w := more;
        t := group.Monotonic();
      }
      exited := group.RootExited();
      WaitEnds(old(group.log), w, t, until, exited, group.log);
    }

    static lemma WaitEnds(before: seq<Event>, w: seq<Event>, t: int, until: int, exited: bool, after: seq<Event>)
      requires after == before + w + [Clock(t)] + [Polled(exited)]
      requires Waiting(w, until) && (t < until ==> exited)
      ensures before <= after && Waits(after[|before|..], until) && after[|after| - 1].exited == exited
    {
      var all := w + [Clock(t), Polled(exited)];
      assert after == before + all && after[|before|..] == all && all[..|all| - 2] == w;
    }

    /** The group is empty exactly if its member list was readable and held no process and
        its events file, when readable, does not say that it is populated. */
    method State() returns (state: MemberState)
      requires group.Valid()
      modifies group`log
      ensures group.Valid() && Answered(old(group.log), group.log)
      ensures state == Empty <==> |group.log| == |old(group.log)| + 2 && SeenEmpty(group.log, |group.log|)
      ensures state == Unreadable <==> group.log[|old(group.log)|] == Procs(None)
    {
      var held := group.ReadProcs();
      if held.None? {
        return Unreadable;
      }
      if held.value {
        return Populated;
      }
      var populated := group.ReadEvents();
      return if populated == Some(true) then Populated else Empty;
    }

    /** One look asks for the member list and, if that is empty, for the events. */
    static predicate Answered(before: seq<Event>, after: seq<Event>) {
      && before < after && after[|before|].Procs?
      && ((|after| == |before| + 1 && after[|before|].held != Some(false))
          || (|after| == |before| + 2 && after[|before|] == Procs(Some(false)) && after[|before| + 1].EventsFile?))
    }

    ghost predicate Drained(log: seq<Event>, deadline: int, first: nat)
      reads this`final, this`retried
    {
      DrainedWith(log, deadline, first, final, retried)
    }

    lemma DrainedStep(log: seq<Event>, e: Event, deadline: int, first: nat)
      requires Drained(log, deadline, first) && NeverRemoved(log) && !e.Removal? && !e.Read?
      requires InTime(log + [e], |log|, deadline, first)
      ensures Drained(log + [e], deadline, first) && NeverRemoved(log + [e]) && Removals(log + [e]) == Removals(log)
      ensures Looks(log + [e]) == Looks(log) + if e.Procs? then 1 else 0
    {
      Appended(log, e);
      InTimeNext(log, e, deadline, first);
      if final.Some? { KeepsReading(log, final.value.cpu, e); }
    }

    /** The lifetime counter is read once, right after the group was seen empty. */
    method ReadLifetime(ghost deadline: int, ghost first: nat)
      requires group.Valid() && Drained(group.log, deadline, first) && NeverRemoved(group.log) && final.None?
      requires first + 2 <= |group.log| && SeenEmpty(group.log, |group.log|)
      modifies group`log, this`final
      ensures group.Valid() && Drained(group.log, deadline, first) && NeverRemoved(group.log) && final.Some?
      ensures old(group.log) + [Read(final.value.cpu)] == group.log
      ensures Removals(group.log) == Removals(old(group.log)) && Looks(group.log) == Looks(old(group.log))
    {
      ghost var before := group.log;
      NoRemovalSoFar(before);
      var s := Snapshot();
      final := Some(s);
      Appended(before, Read(s.cpu));
      InTimeNext(before, Read(s.cpu), deadline, first);
      assert DrainedReading(group.log, |before|, s.cpu);
    }

    /** One removal attempt on a drained group. */
    method Attempt(attempts: nat, ghost deadline: int, ghost first: nat) returns (gone: bool)
      requires group.Valid() && leaf && Drained(group.log, deadline, first) && NeverRemoved(group.log) && final.Some?
      requires attempts == Removals(group.log) + 1 && first + 2 <= |group.log| && ReadyAt(group.log, |group.log|)
      modifies group`log, this`leaf, this`retried
      ensures group.Valid() && Drained(group.log, deadline, first) && leaf == !gone
      ensures group.log == old(group.log) + [Removal(gone)]
      ensures if gone then RemovedLast(group.log) else NeverRemoved(group.log)
      ensures Removals(group.log) == attempts && Looks(group.log) == Looks(old(group.log))
    {
      RemovalStep(group.log, true, deadline, first, final, retried);
      RemovalStep(group.log, false, deadline, first, final, retried);
      if attempts > 1 {
        retried := true;
      }
      gone := group.RemoveLeaf();
      if gone {
        leaf := false;
      }
    }

    /** A group just seen empty has its lifetime reading. */
    method EnsureLifetime(ghost deadline: int, ghost first: nat)
      requires group.Valid() && Drained(group.log, deadline, first) && NeverRemoved(group.log)
      requires first + 2 <= |group.log| && SeenEmpty(group.log, |group.log|)
      modifies group`log, this`final
      ensures group.Valid() && Drained(group.log, deadline, first) && NeverRemoved(group.log)
      ensures ReadyAt(group.log, |group.log|) && final.Some? && old(group.log) <= group.log
      ensures Removals(group.log) == Removals(old(group.log)) && Looks(group.log) == Looks(old(group.log))
    {
      if final.None? {
        ReadLifetime(deadline, first);
      }
    }

    /** The group may be looked at: for the first time, or 50 ms after the last reading of
        the clock, which was before the deadline. */
    static predicate MayLook(log: seq<Event>, first: nat) {
      |log| == first || (|log| > first && log[|log| - 1] == Slept(50))
    }

    method Look(ghost deadline: int, ghost first: nat) returns (empty: bool)
      requires group.Valid() && Drained(group.log, deadline, first) && NeverRemoved(group.log) && MayLook(group.log, first)
      modifies group`log
      ensures group.Valid() && Drained(group.log, deadline, first) && NeverRemoved(group.log)
      ensures Removals(group.log) == Removals(old(group.log)) && Looks(group.log) == Looks(old(group.log)) + 1
      ensures old(group.log) < group.log
      ensures if empty then SeenEmpty(group.log, |group.log|) && |group.log| == |old(group.log)| + 2
              else !SeenEmpty(group.log, |old(group.log)| + 2) && AfterRound(group.log, |group.log|)
    {
      ghost var before := group.log;
      var state := State();
      ghost var asked := group.log[|before|];
      DrainedStep(before, asked, deadline, first);
      if |group.log| == |before| + 2 {
        DrainedStep(before + [asked], group.log[|before| + 1], deadline, first);
        assert group.log == before + [asked] + [group.log[|before| + 1]];
      } else {
        assert group.log == before + [asked];
      }
      empty := state == Empty;
    }

    /** One look at the group and, if it is empty, what follows from that. */
    method Round(attempts: nat, ghost deadline: int, ghost first: nat) returns (removed: bool, tried: nat)
      requires group.Valid() && leaf && Drained(group.log, deadline, first) && NeverRemoved(group.log)
      requires attempts == Removals(group.log) && MayLook(group.log, first)
      modifies group`log, this`leaf, this`final, this`retried
      ensures group.Valid() && Drained(group.log, deadline, first) && leaf == !removed && tried == Removals(group.log)
      ensures old(group.log) < group.log && Looks(group.log) == Looks(old(group.log)) + 1
      ensures tried == attempts + if SeenEmpty(group.log, |old(group.log)| + 2) then 1 else 0
      ensures if removed then RemovedLast(group.log) && final.Some?
              else NeverRemoved(group.log) && AfterRound(group.log, |group.log|)
    {
      var empty := Look(deadline, first);
      if !empty {
        return false, attempts;
      }
      EnsureLifetime(deadline, first);
      tried := attempts + 1;
      removed := Attempt(tried, deadline, first);
    }

    /** The last event is a clock reading at or past the deadline. */
    static predicate EndsLate(log: seq<Event>, deadline: int) {
      log != [] && log[|log| - 1].Clock? && log[|log| - 1].now >= deadline
    }

    /** Rounds of one look each, 50 ms apart, until the leaf is removed or a reading of the
        clock after a round is at or past the deadline. */
    method Drain(deadline: int, ghost first: nat, ghost started: int) returns (removed: bool)
      requires group.Valid() && leaf && final == None && !retried && |group.log| == first
      requires Looks(group.log) == Reads(group.log) == Removals(group.log) == 0 && NeverRemoved(group.log)
      requires started <= group.now
      modifies group, this`leaf, this`final, this`retried
      ensures group.Valid() && Drained(group.log, deadline, first) && leaf == !removed
      ensures old(group.log) < group.log && group.log[first].Procs?
      ensures if removed then RemovedLast(group.log) && final.Some?
              else NeverRemoved(group.log) && EndsLate(group.log, deadline)
      ensures FewLooks(Looks(group.log), deadline - started)
    {
      var attempts := 0;
      while true
        invariant group.Valid() && leaf && Drained(group.log, deadline, first) && attempts == Removals(group.log)
        invariant NeverRemoved(group.log) && MayLook(group.log, first) && old(group.log) <= group.log
        invariant |group.log| > first ==> group.log[first].Procs?
        invariant started + 50 * Looks(group.log) <= group.now
        invariant Looks(group.log) == 0 || 50 * (Looks(group.log) - 1) < deadline - started
        decreases deadline - group.now
      {
        ghost var start := group.log;
        removed, attempts := Round(attempts, deadline, first);
        assert group.log[|start|].Procs? by {
          assert InTime(group.log, |start|, deadline, first);
        }
        if removed {
          return;
        }
        var over := PauseUnlessOver(deadline, first);
        if over {
          return false;
        }
      }
    }

    /** Reads the clock after a round and sleeps if there is time left. */
    method PauseUnlessOver(deadline: int, ghost first: nat) returns (over: bool)
      requires group.Valid() && Drained(group.log, deadline, first) && NeverRemoved(group.log)
      requires |group.log| > first && AfterRound(group.log, |group.log|)
      modifies group
      ensures group.Valid() && Drained(group.log, deadline, first) && NeverRemoved(group.log)
      ensures Removals(group.log) == Removals(old(group.log)) && Looks(group.log) == Looks(old(group.log))
      ensures old(group.log) < group.log
      ensures if over then EndsLate(group.log, deadline)
              else MayLook(group.log, first) && old(group.now) + 50 <= group.now && old(group.now) < deadline
    {
      var t := TimeAfterRound(deadline, first);
      if t >= deadline {
        return true;
      }
      SleepBetween(deadline, first);
      return false;
    }

    method SleepBetween(ghost deadline: int, ghost first: nat)
      requires group.Valid() && Drained(group.log, deadline, first) && NeverRemoved(group.log)
      requires |group.log| > first && group.log[|group.log| - 1].Clock? && group.log[|group.log| - 1].now < deadline
      modifies group
      ensures group.Valid() && Drained(group.log, deadline, first) && NeverRemoved(group.log)
      ensures Removals(group.log) == Removals(old(group.log)) && Looks(group.log) == Looks(old(group.log))
      ensures group.log == old(group.log) + [Slept(50)] && old(group.now) + 50 <= group.now
    {
      group.Sleep(50);
      InTimeNow(old(group.log), Slept(50), deadline, first);
      DrainedStep(old(group.log), Slept(50), deadline, first);
    }

    method TimeAfterRound(ghost deadline: int, ghost first: nat) returns (t: int)
      requires group.Valid() && Drained(group.log, deadline, first) && NeverRemoved(group.log)
      requires |group.log| > first && AfterRound(group.log, |group.log|)
      modifies group
      ensures group.Valid() && Drained(group.log, deadline, first) && NeverRemoved(group.log)
      ensures Removals(group.log) == Removals(old(group.log)) && Looks(group.log) == Looks(old(group.log))
      ensures group.log == old(group.log) + [Clock(t)] && old(group.now) <= t == group.now
    {
      t := group.Monotonic();
      InTimeNow(old(group.log), Clock(t), deadline, first);
      DrainedStep(old(group.log), Clock(t), deadline, first);
    }

    /** Closes the launch once. Afterwards the stored result never changes. `first` is the
        number of events before the first look. */
    method Close(drain: Option<int>) returns (r: Outcome, ghost first: nat)
      requires group.Valid() && (!closed ==> group.log == [] && final == None)
      modifies this, group
      ensures group.Valid() && closed && r == result
      ensures old(closed) ==>
        r == old(result) && final == old(final) && retried == old(retried) && group.log == old(group.log)
      ensures !old(closed) ==>
        && 1 <= first <= |group.log| && group.log[0].Clock?
        && RootWait(group.log[1..first], process, group.log[0].now + Budget(drain))
        && if old(leaf) then Closed(group.log[0].now + Budget(drain), Budget(drain), first)
           else r == Failed(CgroupMissing) && |group.log| == first && final == Some(Lifetime(None, false)) && !retried
    {
      first := 0;
      if closed {
        return result, first;
      }
      closed, retried, final := true, false, None;
      var deadline := Begin(drain);
      first := |group.log|;
      ghost var waited := group.log;
      if leaf {
        result := DrainAndRead(deadline, first, group.log[0].now);
      } else {
        final := Some(Lifetime(None, false));
        result := Failed(CgroupMissing);
      }
      assert group.log[1..first] == waited[1..] && group.log[0] == waited[0];
      return result, first;
    }

    /** Sets the deadline and waits for the root. */
    method Begin(drain: Option<int>) returns (deadline: int)
      requires group.Valid() && group.log == []
      modifies group
      ensures group.Valid() && group.log != [] && group.log[0].Clock? && group.log[0].now <= group.now
      ensures deadline == group.log[0].now + Budget(drain) && RootWait(group.log[1..], process, deadline)
      ensures Looks(group.log) == Reads(group.log) == Removals(group.log) == 0 && NeverRemoved(group.log)
    {
      var started := group.Monotonic();
      deadline := started + Budget(drain);
      WaitForRoot(deadline);
      RootWaitLooksAtNothing(group.log[1..], process, deadline);
      NothingYet(group.log);
    }

    static lemma WaitedFor(before: seq<Event>, t: int, w: seq<Event>, deadline: int, after: seq<Event>)
      requires after == before + [Polled(false)] + [Signalled] + [Clock(t)] + w && t < deadline
      requires w != [] && w[0].Clock? && Waits(w[1..], w[0].now + (deadline - t))
      ensures before <= after && RootWait(after[|before|..], true, deadline)
    {
      var all := [Polled(false), Signalled, Clock(t)] + w;
      assert after == before + all && after[|before|..] == all && all[4..] == w[1..];
    }

    /** Signals a root that still runs and waits for it while there is time. */
    method WaitForRoot(deadline: int)
      requires group.Valid()
      modifies group
      ensures group.Valid() && old(group.log) <= group.log && old(group.now) <= group.now
      ensures RootWait(group.log[|old(group.log)|..], process, deadline)
    {
      if !process {
        return;
      }
      var exited := group.RootExited();
      if exited {
        return;
      }
      group.Signal();
      var t := group.Monotonic();
      var remaining := deadline - t;
      if remaining > 0 {
        ghost var before := group.log;
        exited := WaitRoot(remaining);
        WaitedFor(old(group.log), t, group.log[|before|..], deadline, group.log);
      }
    }

    /** What holds of the log and the stored result of a close that had a leaf. From the
        first look on the events come as `InTime` says. One lifetime reading is made and its
        value kept; it is complete exactly if it exists and was taken right after an empty
        look and before any removal attempt, as it always is before a removal.
        The close succeeds exactly if the leaf was removed, which is then the last thing that
        happened; it fails only after a round that ended at or past the deadline, and then
        nothing follows but the lifetime reading, if that was still missing. A retry is
        reported exactly from the second attempt on. The parts are behind a quantifier, so
        that `Close` only hands them on. */
    ghost predicate Closed(deadline: int, budget: int, first: nat)
      reads this, group
    {
      forall part: ClosePart :: ClosedHas(deadline, budget, first, part)
    }

    ghost predicate ClosedHas(deadline: int, budget: int, first: nat, part: ClosePart)
      reads this, group
    {
      match part
      case InOrder =>
        && AllInTime(group.log, deadline, first)
        && first < |group.log| && group.log[first].Procs? && FewLooks(Looks(group.log), budget)
      case OneReading =>
        && final.Some? && Reads(group.log) == 1 && WasRead(group.log, final.value.cpu)
        && (final.value.complete <==> final.value.cpu.Some? && ReadAfterDrain(group.log, final.value.cpu))
        && (result == Removed ==> ReadAfterDrain(group.log, final.value.cpu))
      case Ending =>
        && group.log != [] && (result == Removed <==> RemovedLast(group.log))
        && (result == Removed <==> !leaf)
        && (result != Removed ==> NeverRemoved(group.log) && result == Failed(CgroupRmdirFailed))
        && (result != Removed ==>
              || EndsLate(group.log, deadline)
              || (group.log[|group.log| - 1].Read? && EndsLate(group.log[..|group.log| - 1], deadline)))
        && (retried <==> Removals(group.log) >= 2)
    }

    method DrainAndRead(deadline: int, ghost first: nat, ghost started: int) returns (r: Outcome)
      requires group.Valid() && leaf && final == None && !retried && |group.log| == first
      requires Looks(group.log) == Reads(group.log) == Removals(group.log) == 0 && NeverRemoved(group.log)
      requires started <= group.now
      modifies group, this`leaf, this`final, this`retried, this`result
      ensures group.Valid() && Closed(deadline, deadline - started, first) && result == r && old(group.log) <= group.log
    {
      var removed := Drain(deadline, first, started);
      if removed {
        result := Removed;
        return result;
      }
      if final.None? {
        ghost var before := group.log;
        var partial := Snapshot();
        Appended(before, Read(partial.cpu));
        InTimeNext(before, Read(partial.cpu), deadline, first);
        final := Some(partial.(complete := false));
        assert group.log[..|group.log| - 1] == before;
        assert group.log[|before|] == Read(partial.cpu);
        NotAfterDrain(before, partial.cpu);
      }
      result := Failed(CgroupRmdirFailed);
      return result;
    }
  }

  /** Two looks are at least 50 ms apart and all but the last two come that long before the
      time is over. */
  predicate FewLooks(looks: nat, budget: int) {
    looks <= 1 || 50 * (looks - 2) < budget
  }

  lemma {:induction false} NothingYet(log: seq<Event>)
    requires forall i :: 0 <= i < |log| ==> log[i].Clock? || log[i].Polled? || log[i].Slept? || log[i].Signalled?
    ensures Looks(log) == Reads(log) == Removals(log) == 0 && NeverRemoved(log)
  {
    if log != [] { NothingYet(log[..|log| - 1]); }
  }

  // ----------------------------------------------------- a look past the deadline

  /** The root does not exit, and the clock runs past the deadline while it is waited for. */
  function SlowWait(): seq<Event> {
    [Polled(false), Signalled, Clock(0), Clock(0), Clock(0), Polled(false), Slept(20), Clock(5000), Polled(false)]
  }

  function SlowClose(): seq<Event> {
    [Clock(0)] + SlowWait() + [Procs(Some(false)), EventsFile(Some(false)), Read(Some(7)), Removal(true)]
  }

  lemma SlowWaitIsAWait()
    ensures RootWait(SlowWait(), true, 5000)
  {
    var w, turn := SlowWait(), [Clock(0), Polled(false), Slept(20)];
    assert turn[..|turn| - 3] == [] && Waiting(turn, 5000);
    assert w[4..][..|w[4..]| - 2] == turn;
  }

  lemma SlowCloseIsTimely()
    ensures Timely(SlowClose(), 5000)
  {
    var log := SlowClose();
    forall i | 0 <= i < |log| && log[i].Clock? ensures log[i].now == if i == 8 then 5000 else 0 {
    }
    assert forall i :: 8 < i < |log| ==> !log[i].Clock?;
    assert ClockHas(log, 5000, Ascends) && ClockHas(log, 5000, IsPast);
  }

  /** A close with 5 seconds that looks at the group after they are over, and removes it. */
  lemma LookPastDeadline()
    ensures var log := SlowClose();
      && RootWait(log[1..10], true, 5000) && Timely(log, 5000) && AllInTime(log, 5000, 10)
      && log[10].Procs? && RanOut(log[..10], 5000) && log[13] == Removal(true)
  {
    var log := SlowClose();
    SlowWaitIsAWait();
    SlowCloseIsTimely();
    assert log[1..10] == SlowWait();
    assert log[..10][8] == Clock(5000);
    assert SeenEmpty(log, 12) && SeenEmpty(log, |log| - 2);
    forall i | 0 <= i < |log| ensures InTime(log, i, 5000, 10) {
      assert i < 10 || i == 10 || i == 11 || i == 12 || i == 13;
    }
  }

  /** Without a reading before, one right after the clock is not one of a drained group. */
  lemma NotAfterDrain(before: seq<Event>, cpu: Option<int>)
    requires Reads(before) == 0 && before != [] && before[|before| - 1].Clock?
    ensures !ReadAfterDrain(before + [Read(cpu)], cpu)
  {
    NoReadSoFar(before);
    forall k | 0 <= k < |before| + 1 ensures !DrainedReading(before + [Read(cpu)], k, cpu) {
    }
  }

  lemma {:induction false} NoReadSoFar(log: seq<Event>)
    requires Reads(log) == 0
    ensures forall i :: 0 <= i < |log| ==> !log[i].Read?
  {
    if log != [] {
      NoReadSoFar(log[..|log| - 1]);
    }
  }

  lemma {:induction false} NoRemovalSoFar(log: seq<Event>)
    requires Removals(log) == 0
    ensures forall j :: 0 <= j < |log| ==> !log[j].Removal?
  {
    if log != [] { NoRemovalSoFar(log[..|log| - 1]); }
  }
}
