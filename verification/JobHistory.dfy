/** Histories of a Windows launch: the calls on its ledger, the answers of the system, and
    what one tells about the other. */
module JobHistory {
  import opened Common
  import opened LedgerHistory
  import opened NativeJob

  /** A size in the call was read from the very process it is filed under. */
  ghost predicate Measured(call: Call, readings: set<Reading>) {
    && (call.Observe? ==>
          && call.current.Some? && call.high.Some? && call.residency.None?
          && Reading(call.id, call.current.value, call.high.value) in readings)
    && (call.Final? && call.high.Some? ==> exists current :: Reading(call.id, current, call.high.value) in readings)
  }

  ghost predicate Proven(calls: seq<Call>, readings: set<Reading>) {
    forall call :: call in calls ==> Measured(call, readings)
  }

  lemma ProvenStep(calls: seq<Call>, call: Call, readings: set<Reading>)
    requires Proven(calls, readings) && Measured(call, readings)
    ensures Proven(calls + [call], readings)
  {
  }

  lemma ProvenGrows(calls: seq<Call>, readings: set<Reading>, more: set<Reading>)
    requires Proven(calls, readings) && readings <= more
    ensures Proven(calls, more)
  {
    forall call | call in calls ensures Measured(call, more) {
      assert Measured(call, readings);
      if call.Final? && call.high.Some? {
        var current :| Reading(call.id, current, call.high.value) in readings;
        assert Reading(call.id, current, call.high.value) in more;
      }
    }
  }

  // ------------------------------------------------------- one look at one pid

  /** What a moment of the backend leaves behind: the calls on its ledger, the answers it
      heard, the identities it holds a query handle for, and the looks it counted as gaps. */
  datatype Trace = Trace(calls: seq<Call>, log: seq<Answer>, held: set<Identity>, counted: nat)

  /** Time passed: nothing was forgotten, and nothing let a thread run. */
  ghost predicate Onward(a: Trace, b: Trace) {
    && a.calls <= b.calls && a.log <= b.log && a.held <= b.held
    && forall i :: |a.log| <= i < |b.log| ==> !b.log[i].Resumed?
  }

  lemma OnwardOnward(a: Trace, b: Trace, c: Trace)
    requires Onward(a, b) && Onward(b, c)
    ensures Onward(a, c)
  {
    forall i | |a.log| <= i < |c.log| ensures !c.log[i].Resumed? {
      if i < |b.log| {
        assert c.log[i] == b.log[i];
      }
    }
  }

  /** Nothing was read between two histories. */
  predicate NoReading(before: seq<Call>, after: seq<Call>) {
    before <= after && forall i :: |before| <= i < |after| ==> !after[i].Observe?
  }

  /** What a look at one pid reports is what was read and filed, last and only. */
  predicate OneReading(before: seq<Call>, after: seq<Call>, pid: int, current: Option<int>) {
    if current.None? then NoReading(before, after)
    else
      && after != [] && NoReading(before, after[..|after| - 1])
      && after[|after| - 1].Observe? && after[|after| - 1].id.pid == pid && after[|after| - 1].current == current
  }

  /** Some handle is held under this pid. */
  ghost predicate Holds(held: set<Identity>, pid: int) {
    exists id :: id in held && id.pid == pid
  }

  /** The ledger was told between `a` and `b` that it is cut short. */
  ghost predicate CutShort(a: Trace, b: Trace) {
    exists i :: |a.calls| <= i < |b.calls| && b.calls[i].Truncate?
  }

  /** The system was asked between `a` and `b` for this pid: which process it is now, or
      whether the process followed under it is alive. */
  ghost predicate AskedFor(a: Trace, b: Trace, pid: int) {
    exists i :: |a.log| <= i < |b.log| && AsksFor(b.log[i], pid)
  }

  predicate AsksFor(a: Answer, pid: int) {
    (a.OpenedAs? && a.pid == pid) || (a.LiveOf? && a.process.pid == pid)
  }

  /** The answers up to `n` end with the proof that `id` is a member of the job and the
      process meant: found alive under its own handle or opened by its pid just now, in
      the job, and created when the identity says. */
  predicate ProvenAt(log: seq<Answer>, n: int, id: Identity) {
    && 3 <= n <= |log| && log[n - 1] == TicksOf(id, Some(id.creation)) && log[n - 2] == JobOf(id, Some(true))
    && (log[n - 3] == LiveOf(id, Some(true)) || log[n - 3] == OpenedAs(id.pid, Some(id)))
  }

  /** The last call files what the last answer read, right after the proof that the
      process read is the one it is filed under. */
  predicate ReadWithProof(b: Trace) {
    && b.calls != [] && var call := b.calls[|b.calls| - 1];
    && call.Observe? && call.current.Some? && call.high.Some?
    && b.log != [] && b.log[|b.log| - 1] == MemoryOf(call.id, Some((call.current.value, call.high.value)))
    && ProvenAt(b.log, |b.log| - 1, call.id)
  }

  /** The process opened under the pid has an identity that no ledger takes. */
  ghost predicate FoundInadmissible(a: Trace, b: Trace, pid: int) {
    exists i :: |a.log| <= i < |b.log| && b.log[i].OpenedAs? && b.log[i].pid == pid
                && b.log[i].found.Some? && b.log[i].found.value.pid == pid && !Admissible(b.log[i].found.value)
  }

  /** One look at one pid. It asks for the pid, unless it finds the tables full and says so.
      A size is reported only if it was read within this look right after a full proof.
      A look that reports none either counts as one gap, or finds the ledger cut short, or
      leaves a handle held for the pid. */
  ghost predicate Looked(a: Trace, b: Trace, pid: int, current: Option<int>) {
    && Onward(a, b) && OneReading(a.calls, b.calls, pid, current)
    && (AskedFor(a, b, pid) || (CutShort(a, b) && |a.held| >= MAX_LEDGER))
    && (CutShort(a, b) ==> |b.held| >= MAX_LEDGER || FoundInadmissible(a, b, pid))
    && if current.Some? then
         ReadWithProof(b) && |a.log| + 4 <= |b.log| && b.counted == a.counted
       else
         || b.counted == a.counted + 1
         || (b.counted == a.counted && (CutShort(a, b) || Holds(b.held, pid)))
  }

  /** One memory query was made, of `id`, and exactly what it answered was filed. */
  ghost predicate ReadAs(a: Trace, b: Trace, id: Identity, current: Option<int>) {
    && Onward(a, b) && b.counted == a.counted && id in b.held && !CutShort(a, b)
    && |b.log| == |a.log| + 1 && b.log[|a.log|].MemoryOf? && b.log[|a.log|].process == id
    && OneReading(a.calls, b.calls, id.pid, current)
    && match b.log[|a.log|].memory
       case None => current.None?
       case Some(m) => current == Some(m.0) && b.calls[|b.calls| - 1] == Observe(id, current, Some(m.1), None)
  }

  /** There was no room for a new handle; the ledger was told so. */
  ghost predicate NoRoom(a: Trace, b: Trace) {
    b == a.(calls := a.calls + [Truncate])
  }

  /** The questions to a held handle, each asked only after a yes to the one before. */
  predicate SameAnswers(answers: seq<Answer>, id: Identity, same: bool) {
    && answers != [] && answers[0].LiveOf? && answers[0].process == id
    && if answers[0].live != Some(true) then |answers| == 1 && !same else
         && |answers| >= 2 && answers[1].JobOf? && answers[1].process == id
         && if answers[1].inJob != Some(true) then |answers| == 2 && !same else
              && |answers| == 3 && answers[2].TicksOf? && answers[2].process == id
              && same == (answers[2].ticks == Some(id.creation))
  }

  ghost predicate AskedHeld(a: Trace, b: Trace, id: Identity, same: bool) {
    && b == a.(log := b.log) && a.log <= b.log && SameAnswers(b.log[|a.log|..], id, same)
  }

  /** The two questions to a handle that is to be admitted, and what they make of it. */
  predicate AdmissionAnswers(answers: seq<Answer>, process: Identity, id: Option<Identity>) {
    && |answers| == 2 && answers[0].JobOf? && answers[0].process == process
    && answers[1].TicksOf? && answers[1].process == process
    && id == if answers[0].inJob == Some(true) && answers[1].ticks.Some?
             then Some(Identity(process.pid, answers[1].ticks.value)) else None
  }

  /** The pid was opened, and the process found proved membership and creation. */
  ghost predicate OpenedOk(a: Trace, b: Trace, id: Identity) {
    b == a.(log := a.log + [OpenedAs(id.pid, Some(id)), JobOf(id, Some(true)), TicksOf(id, Some(id.creation))])
  }

  /** The pid was opened in vain; unless a handle for it is held that is one gap. */
  ghost predicate OpenedNot(a: Trace, b: Trace, pid: int) {
    && b == a.(log := b.log, counted := b.counted) && Onward(a, b)
    && |a.log| < |b.log| && b.log[|a.log|].OpenedAs? && b.log[|a.log|].pid == pid
    && (b.counted == a.counted + 1 || (b.counted == a.counted && Holds(b.held, pid)))
  }

  lemma AdmittedIsOpened(a: Trace, b: Trace, c: Trace, id: Identity)
    requires b == a.(log := a.log + [OpenedAs(id.pid, Some(id))])
    requires c == b.(log := c.log) && b.log <= c.log && AdmissionAnswers(c.log[|b.log|..], id, Some(id))
    ensures OpenedOk(a, c, id)
  {
    var answers := c.log[|b.log|..];
    assert answers == [JobOf(id, Some(true)), TicksOf(id, Some(id.creation))];
    assert c.log == b.log + answers;
  }

  lemma LookedNoRoom(a: Trace, b: Trace, pid: int)
    requires NoRoom(a, b) && |a.held| >= MAX_LEDGER
    ensures Looked(a, b, pid, None)
  {
    assert b.calls[|a.calls|].Truncate?;
  }

  lemma LookedInVain(a: Trace, b: Trace, pid: int)
    requires OpenedNot(a, b, pid)
    ensures Looked(a, b, pid, None)
  {
    assert AsksFor(b.log[|a.log|], pid);
  }

  lemma LookedNew(a: Trace, b: Trace, c: Trace, id: Identity, current: Option<int>)
    requires OpenedOk(a, b, id)
    requires ReadAs(b, c, id, current)
             || (current.None? && NoRoom(b, c) && (|b.held| >= MAX_LEDGER || !Admissible(id)))
    ensures Looked(a, c, id.pid, current)
  {
    assert AsksFor(c.log[|a.log|], id.pid);
    assert c.log[|a.log|] == OpenedAs(id.pid, Some(id));
    if NoRoom(b, c) {
      assert c.calls[|a.calls|].Truncate?;
    }
  }

  lemma LookedHeld(a: Trace, b: Trace, c: Trace, id: Identity, current: Option<int>)
    requires AskedHeld(a, b, id, true) && ReadAs(b, c, id, current)
    ensures Looked(a, c, id.pid, current)
  {
    var answers := b.log[|a.log|..];
    assert forall i :: 0 <= i < 3 ==> c.log[|a.log| + i] == answers[i];
    assert AsksFor(c.log[|a.log|], id.pid);
    assert CutShort(a, c) ==> CutShort(b, c);
  }

  lemma LookedAgain(a: Trace, b: Trace, c: Trace, id: Identity, current: Option<int>)
    requires AskedHeld(a, b, id, false) && Looked(b, c, id.pid, current)
    ensures Looked(a, c, id.pid, current)
  {
    var answers := b.log[|a.log|..];
    assert forall i :: 0 <= i < |answers| ==> c.log[|a.log| + i] == answers[i];
    assert AsksFor(c.log[|a.log|], id.pid);
    OnwardOnward(a, b, c);
  }

  lemma ReadAfterKeeping(a: Trace, b: Trace, c: Trace, id: Identity, current: Option<int>)
    requires ReadAs(b, c, id, current) && NoReading(a.calls, b.calls) && !CutShort(a, b)
    requires b == a.(calls := b.calls, held := a.held + {id})
    ensures ReadAs(a, c, id, current)
  {
  }

  // --------------------------------------------------------------- one pass

  datatype Look = Look(pid: int, current: Option<int>, after: Trace)

  function Before(a: Trace, trail: seq<Look>, i: nat): Trace
    requires i <= |trail|
  {
    if i < 1 then a else trail[i - 1].after
  }

  /** A trail of looks, each starting where the one before ended. */
  ghost predicate Pass(a: Trace, trail: seq<Look>, b: Trace) {
    && b == Before(a, trail, |trail|)
    && forall i :: 0 <= i < |trail| ==> LookAt(a, trail, i)
  }

  ghost predicate LookAt(a: Trace, trail: seq<Look>, i: nat)
    requires i < |trail|
  {
    Looked(Before(a, trail, i), trail[i].after, trail[i].pid, trail[i].current)
  }

  lemma PassNext(a: Trace, trail: seq<Look>, b: Trace, look: Look)
    requires Pass(a, trail, b) && Looked(b, look.after, look.pid, look.current)
    ensures Pass(a, trail + [look], look.after)
    ensures PidsOf(trail + [look]) == PidsOf(trail) + [look.pid]
    ensures TallyOf(trail + [look]) == Grown(TallyOf(trail), look.current)
  {
    var more := trail + [look];
    assert more[..|trail|] == trail;
    forall i | 0 <= i < |more| ensures LookAt(a, more, i) {
      if i < |trail| {
        assert LookAt(a, trail, i);
      }
    }
  }

  lemma {:induction false} PassIsOnward(a: Trace, trail: seq<Look>, b: Trace)
    requires Pass(a, trail, b)
    ensures Onward(a, b)
  {
    if trail != [] {
      var last := |trail| - 1;
      var rest, middle := trail[..last], Before(a, trail, last);
      forall i | 0 <= i < |rest| ensures LookAt(a, rest, i) {
        assert LookAt(a, trail, i);
      }
      PassIsOnward(a, rest, middle);
      assert LookAt(a, trail, last);
      OnwardOnward(a, middle, b);
    }
  }

  /** The pids to look at: each listed pid once, where it first appears, but the observer. */
  function Others(pids: seq<int>, observer: int): seq<int> {
    if pids == [] then [] else
      var before, pid := Others(pids[..|pids| - 1], observer), pids[|pids| - 1];
      if pid == observer || pid in before then before else before + [pid]
  }

  lemma OthersNext(pids: seq<int>, i: nat, observer: int)
    requires i < |pids|
    ensures Others(pids[..i + 1], observer) ==
      var before := Others(pids[..i], observer);
      if pids[i] == observer || pids[i] in before then before else before + [pids[i]]
  {
    assert pids[..i + 1][..i] == pids[..i];
  }

  function PidsOf(trail: seq<Look>): (pids: seq<int>)
    ensures |pids| == |trail| && forall i :: 0 <= i < |trail| ==> pids[i] == trail[i].pid
  {
    if trail == [] then [] else PidsOf(trail[..|trail| - 1]) + [trail[|trail| - 1].pid]
  }

  /** None is passed over, none is looked at twice, and the observer never. */
  lemma {:induction false} OthersAreAll(pids: seq<int>, observer: int)
    ensures forall pid :: pid in Others(pids, observer) <==> pid in pids && pid != observer
    ensures forall i, j :: 0 <= i < j < |Others(pids, observer)| ==>
      Others(pids, observer)[i] != Others(pids, observer)[j]
  {
    if pids != [] {
      var last := |pids| - 1;
      OthersAreAll(pids[..last], observer);
      assert forall pid :: pid in pids <==> pid in pids[..last] || pid == pids[last];
    }
  }

  function TallyOf(trail: seq<Look>): Tally {
    if trail == [] then Tally(0, 0) else Grown(TallyOf(trail[..|trail| - 1]), trail[|trail| - 1].current)
  }

  /** The state of a pass after the first `i` listed pids: the trail of its looks, the
      pids seen, and the sum and number of the sizes reported. */
  ghost predicate Sweeping(
      a: Trace, trail: seq<Look>, b: Trace, pids: seq<int>, i: int, observer: int, seen: set<int>, sum: int, saw: nat)
    requires 0 <= i <= |pids|
  {
    && Pass(a, trail, b) && PidsOf(trail) == Others(pids[..i], observer) && TallyOf(trail) == Tally(sum, saw)
    && forall pid :: pid in seen <==> pid in PidsOf(trail)
  }

  lemma SweepFirst(a: Trace, pids: seq<int>, observer: int)
    ensures Sweeping(a, [], a, pids, 0, observer, {}, 0, 0)
  {
  }

  lemma SweepSkips(
      a: Trace, trail: seq<Look>, b: Trace, pids: seq<int>, i: int, observer: int, seen: set<int>, sum: int, saw: nat)
    requires 0 <= i < |pids| && Sweeping(a, trail, b, pids, i, observer, seen, sum, saw)
    requires pids[i] == observer || pids[i] in seen
    ensures Sweeping(a, trail, b, pids, i + 1, observer, seen, sum, saw)
  {
    OthersNext(pids, i, observer);
  }

  lemma SweepNext(
      a: Trace, trail: seq<Look>, b: Trace, pids: seq<int>, i: int, observer: int, seen: set<int>, sum: int, saw: nat,
      look: Look)
    requires 0 <= i < |pids| && Sweeping(a, trail, b, pids, i, observer, seen, sum, saw)
    requires pids[i] != observer && pids[i] !in seen
    requires look.pid == pids[i] && Looked(b, look.after, look.pid, look.current)
    ensures var t := Grown(Tally(sum, saw), look.current);
      Sweeping(a, trail + [look], look.after, pids, i + 1, observer, seen + {look.pid}, t.sum, t.saw)
  {
    OthersNext(pids, i, observer);
    PassNext(a, trail, b, look);
  }

  /** The calls of a stretch read distinct pids, all of them among `pids`. */
  predicate DistinctReadings(calls: seq<Call>, pids: set<int>) {
    && (forall i :: 0 <= i < |calls| && calls[i].Observe? ==> calls[i].id.pid in pids)
    && (forall i, j :: 0 <= i < j < |calls| && calls[i].Observe? && calls[j].Observe? ==>
          calls[i].id.pid != calls[j].id.pid)
  }

  lemma {:induction false} FiledUnchanged(part: seq<Call>, more: seq<Call>)
    requires NoReading(part, more)
    ensures Filed(more) == Filed(part)
    decreases |more|
  {
    if |more| > |part| {
      FiledUnchanged(part, more[..|more| - 1]);
    } else {
      assert more == part;
    }
  }

  /** Since `base`, distinct pids of `seen` were read, and their sizes add up to `t`. */
  predicate PassedOver(base: seq<Call>, calls: seq<Call>, seen: set<int>, t: Tally) {
    base <= calls && DistinctReadings(calls[|base|..], seen) && Filed(calls[|base|..]) == t
  }

  function Grown(t: Tally, current: Option<int>): Tally {
    if current.Some? then Tally(t.sum + current.value, t.saw + 1) else t
  }

  /** One more pid was looked at. */
  lemma FiledNext(
      base: seq<Call>, before: seq<Call>, after: seq<Call>, pid: int, current: Option<int>, seen: set<int>, t: Tally)
    requires PassedOver(base, before, seen, t) && OneReading(before, after, pid, current) && pid !in seen
    ensures PassedOver(base, after, seen + {pid}, Grown(t, current))
  {
    var part, more := before[|base|..], after[|base|..];
    if current.None? {
      assert more[..|part|] == part;
      FiledUnchanged(part, more);
    } else {
      var middle := after[..|after| - 1][|base|..];
      assert middle[..|part|] == part && more == middle + [after[|after| - 1]];
      assert more[..|more| - 1] == middle;
      FiledUnchanged(part, middle);
    }
  }

  /** The sizes reported by a pass over distinct pids are those it filed. */
  lemma {:induction false} TallyIsFiled(a: Trace, trail: seq<Look>, b: Trace)
    requires Pass(a, trail, b)
    requires forall i, j :: 0 <= i < j < |trail| ==> trail[i].pid != trail[j].pid
    ensures PassedOver(a.calls, b.calls, set i | 0 <= i < |trail| :: trail[i].pid, TallyOf(trail))
    ensures Onward(a, b)
  {
    var seen := set i | 0 <= i < |trail| :: trail[i].pid;
    if trail == [] {
      assert b.calls[|a.calls|..] == [];
    } else {
      var last := |trail| - 1;
      var rest, look := trail[..last], trail[last];
      var middle := Before(a, trail, last);
      forall i | 0 <= i < |rest| ensures LookAt(a, rest, i) {
        assert LookAt(a, trail, i);
      }
      TallyIsFiled(a, rest, middle);
      assert LookAt(a, trail, last);
      var before := set i | 0 <= i < |rest| :: rest[i].pid;
      assert seen == before + {look.pid};
      FiledNext(a.calls, middle.calls, b.calls, look.pid, look.current, before, TallyOf(rest));
      OnwardOnward(a, middle, b);
    }
  }

  /** Where the looks of a pass start: the list was read, and a cut list noted. */
  function AfterListing(a: Trace, list: Answer): Trace
    requires list.Listed?
  {
    a.(log := a.log + [list], calls := if list.pids.Some? && list.truncated then a.calls + [Truncate] else a.calls)
  }

  /** One sample: the job is listed, then each listed pid but the observer is looked at
      once, in the order of the list, and the sum of what was reported is compared with
      the highest sum so far. Without a list nothing is looked at. */
  ghost predicate Sampled(
      a: Trace, trail: seq<Look>, b: Trace, observer: int, before: Option<int>, peak: Option<int>) {
    && |a.log| < |b.log| && b.log[|a.log|].Listed?
    && var list := b.log[|a.log|];
       match list.pids
       case None => trail == [] && b == AfterListing(a, list) && peak == before
       case Some(pids) =>
         && Pass(AfterListing(a, list), trail, b)
         && PidsOf(trail) == Others(pids, observer) && peak == HigherSum(before, TallyOf(trail))
  }

  /** No listed process but the observer is passed over, none is read twice, and the sum
      compared is that of the sizes that the pass filed. */
  lemma SampleMeans(a: Trace, trail: seq<Look>, b: Trace, observer: int, before: Option<int>, peak: Option<int>)
    requires Sampled(a, trail, b, observer, before, peak) && b.log[|a.log|].pids.Some?
    ensures var pids := b.log[|a.log|].pids.value;
      && (forall pid :: pid in pids && pid != observer ==> exists i :: 0 <= i < |trail| && trail[i].pid == pid)
      && (forall i, j :: 0 <= i < j < |trail| ==> trail[i].pid != trail[j].pid)
      && (forall i :: 0 <= i < |trail| ==> trail[i].pid in pids && trail[i].pid != observer)
    ensures var start := AfterListing(a, b.log[|a.log|]);
      && start.calls <= b.calls && peak == HigherSum(before, Filed(b.calls[|start.calls|..]))
    ensures Onward(a, b)
  {
    var list := b.log[|a.log|];
    var start := AfterListing(a, list);
    OthersAreAll(list.pids.value, observer);
    var pids := PidsOf(trail);
    forall i, j | 0 <= i < j < |trail| ensures trail[i].pid != trail[j].pid {
      assert pids[i] == trail[i].pid && pids[j] == trail[j].pid;
    }
    forall i | 0 <= i < |trail| ensures trail[i].pid in list.pids.value && trail[i].pid != observer {
      assert pids[i] == trail[i].pid && pids[i] in pids;
    }
    forall pid | pid in list.pids.value && pid != observer ensures exists i :: 0 <= i < |trail| && trail[i].pid == pid {
      var i :| 0 <= i < |pids| && pids[i] == pid;
      assert trail[i].pid == pid;
    }
    TallyIsFiled(start, trail, b);
    OnwardOnward(a, start, b);
  }

  lemma SampledIsOnward(a: Trace, trail: seq<Look>, b: Trace, observer: int, before: Option<int>, peak: Option<int>)
    requires Sampled(a, trail, b, observer, before, peak)
    ensures Onward(a, b)
  {
    var list := b.log[|a.log|];
    if list.pids.Some? {
      PassIsOnward(AfterListing(a, list), trail, b);
      OnwardOnward(a, AfterListing(a, list), b);
    }
  }

  // --------------------------------------------------------------- the spawn

  function Answered(a: Trace, answer: Answer): Trace {
    a.(log := a.log + [answer])
  }

  /** The root could not be resumed, and its job was terminated. */
  ghost predicate NotResumed(a: Trace, b: Trace, thread: int) {
    exists done: bool :: b == Answered(Answered(a, Resumed(thread, false)), Touched(TerminatingJob, done))
  }

  /** The last call was to terminate the root or its job. */
  predicate WasTerminated(log: seq<Answer>) {
    && log != []
    && var last := log[|log| - 1];
       last.Touched? && (last.purpose == TerminatingProcess || last.purpose == TerminatingJob)
  }

  /** The last three answers: the root's own handle proves it a member created when it
      should be, and its memory was asked for under that handle. */
  predicate RootProven(log: seq<Answer>, id: Identity) {
    var n := |log|;
    && n >= 3 && log[n - 3] == JobOf(id, Some(true)) && log[n - 2] == TicksOf(id, Some(id.creation))
    && log[n - 1].MemoryOf? && log[n - 1].process == id
  }

  /** An answer that keeps the root from running: something could not be made or asked, or
      a handle does not prove that it names `root`, a member of the job. */
  predicate Denies(a: Answer, root: Identity) {
    match a
    case JobMade(ok) => !ok
    case RootMade(ok) => !ok
    case KillOnClose(ok) => !ok
    case Resumed(_, ok) => !ok
    case OpenedAs(_, found) => found.None?
    case TicksOf(_, ticks) => ticks != Some(root.creation)
    case JobOf(_, inJob) => inJob != Some(true)
    case _ => false
  }

  ghost predicate Denied(before: seq<Answer>, after: seq<Answer>, root: Identity) {
    exists i :: |before| <= i < |after| && Denies(after[i], root)
  }

  /** The root could not be held: it has a row without a handle, and one gap was counted. */
  predicate RowOnly(a: Trace, b: Trace, root: Identity) {
    b.calls == a.calls + [Add(root)] && b.counted == a.counted + 1
  }

  lemma StillDenied(first: seq<Answer>, before: seq<Answer>, after: seq<Answer>, last: seq<Answer>, root: Identity)
    requires first <= before <= after <= last && Denied(before, after, root)
    ensures Denied(first, last, root)
  {
    var i :| |before| <= i < |after| && Denies(after[i], root);
    assert last[i] == after[i];
  }

  /** The process handle answered for this root, which is a member of the job, but has a
      pid or a creation that no ledger takes. */
  ghost predicate NoSuchIdentity(before: seq<Answer>, after: seq<Answer>, root: Identity) {
    && !Admissible(root) && |before| + 2 <= |after|
    && exists i :: |before| <= i < |after| && after[i] == TicksOf(root, Some(root.creation))
  }

  lemma StillNoSuch(first: seq<Answer>, before: seq<Answer>, after: seq<Answer>, last: seq<Answer>, root: Identity)
    requires first <= before <= after <= last && NoSuchIdentity(before, after, root)
    ensures NoSuchIdentity(first, last, root)
  {
    var i :| |before| <= i < |after| && after[i] == TicksOf(root, Some(root.creation));
    assert last[i] == after[i];
  }

  // ---------------------------------------------------------- the final questions

  /** One retained process was asked for its final peak: its creation, and only if that is
      right its memory. */
  datatype Asked = Asked(id: Identity, ticks: Option<int>, memory: Option<(int, int)>)

  predicate StillIt(a: Asked) {
    a.ticks == Some(a.id.creation)
  }

  function Heard(a: Asked): seq<Answer> {
    if StillIt(a) then [TicksOf(a.id, a.ticks), MemoryOf(a.id, a.memory)] else [TicksOf(a.id, a.ticks)]
  }

  function PeakOf(a: Asked): Option<int> {
    if StillIt(a) && a.memory.Some? then Some(a.memory.value.1) else None
  }

  /** What the ledger is told: the peak that was answered, or that none was. */
  function Told(a: Asked): Call {
    if PeakOf(a).Some? then Final(a.id, PeakOf(a)) else Unfinal(a.id)
  }

  predicate Succeeded(a: Asked) {
    Counter(PeakOf(a))
  }

  function HeardAll(list: seq<Asked>): seq<Answer> {
    if list == [] then [] else HeardAll(list[..|list| - 1]) + Heard(list[|list| - 1])
  }

  function ToldAll(list: seq<Asked>): seq<Call> {
    if list == [] then [] else ToldAll(list[..|list| - 1]) + [Told(list[|list| - 1])]
  }

  function FailedOf(list: seq<Asked>): nat {
    if list == [] then 0 else FailedOf(list[..|list| - 1]) + if Succeeded(list[|list| - 1]) then 0 else 1
  }

  /** Each of `ids` was asked, once. */
  ghost predicate EachOnce(list: seq<Asked>, ids: set<Identity>) {
    && (forall id :: id in ids <==> exists i :: 0 <= i < |list| && list[i].id == id)
    && (forall i, j :: 0 <= i < j < |list| ==> list[i].id != list[j].id)
  }

  lemma AskedNext(list: seq<Asked>, a: Asked, ids: set<Identity>)
    requires EachOnce(list, ids) && a.id !in ids
    ensures EachOnce(list + [a], ids + {a.id})
    ensures HeardAll(list + [a]) == HeardAll(list) + Heard(a) && ToldAll(list + [a]) == ToldAll(list) + [Told(a)]
    ensures FailedOf(list + [a]) == FailedOf(list) + if Succeeded(a) then 0 else 1
  {
    var more := list + [a];
    assert more[..|list|] == list;
    forall id ensures id in ids + {a.id} <==> exists i :: 0 <= i < |more| && more[i].id == id {
      if id == a.id {
        assert more[|list|].id == id;
      } else if id in ids {
        var i :| 0 <= i < |list| && list[i].id == id;
        assert more[i].id == id;
      }
    }
  }

  /** From one history to another exactly these questions were asked and told. */
  predicate Followed(log: seq<Answer>, calls: seq<Call>, list: seq<Asked>, after: seq<Answer>, told: seq<Call>) {
    after == log + HeardAll(list) && told == calls + ToldAll(list)
  }

  lemma FollowedNext(
      log: seq<Answer>, calls: seq<Call>, list: seq<Asked>, after: seq<Answer>, told: seq<Call>, a: Asked)
    requires Followed(log, calls, list, after, told)
    ensures Followed(log, calls, list + [a], after + Heard(a), told + [Told(a)])
  {
    var more := list + [a];
    assert more[..|list|] == list;
    assert log + (HeardAll(list) + Heard(a)) == after + Heard(a);
    assert calls + (ToldAll(list) + [Told(a)]) == told + [Told(a)];
  }

  ghost predicate AllSucceeded(list: seq<Asked>) {
    forall i :: 0 <= i < |list| ==> Succeeded(list[i])
  }

  /** No failures were counted exactly if every question was answered. */
  lemma {:induction false} NoneFailed(list: seq<Asked>)
    ensures FailedOf(list) == 0 <==> AllSucceeded(list)
  {
    if list != [] {
      NoneFailed(list[..|list| - 1]);
    }
  }

  /** A row is final exactly if the question to its process was answered. */
  ghost predicate FinalRows(rows: map<Identity, Row>, asked: seq<Asked>) {
    forall i :: 0 <= i < |asked| ==> asked[i].id in rows && (rows[asked[i].id].final <==> Succeeded(asked[i]))
  }

  /** User and kernel time together, from 100-nanosecond units to whole microseconds. */
  predicate InMicroseconds(cpu: Option<int>, info: Option<Accounting>) {
    && (cpu.Some? <==> info.Some?)
    && (info.Some? ==> 10 * cpu.value <= info.value.user + info.value.kernel < 10 * cpu.value + 10)
  }

  function CpuOf(info: Option<Accounting>): (cpu: Option<int>)
    ensures InMicroseconds(cpu, info)
  {
    if info.None? then None else Some((info.value.user + info.value.kernel) / 10)
  }

  /** What a snapshot asked: the job's counters, its limits, then after a drain every
      retained process, then the list of pids. */
  datatype Inquiry = Inquiry(
    counted: set<Identity>, info: Option<Accounting>, limits: bool, asked: seq<Asked>,
    pids: Option<seq<int>>, truncated: bool)

  function Drained(e: Inquiry): bool {
    e.info.Some? && e.info.value.active == 0
  }

  function AnswersTo(e: Inquiry): seq<Answer> {
    [CountedAs(e.counted, e.info), Touched(ReadingLimits, e.limits)] + HeardAll(e.asked) + [Listed(e.pids, e.truncated)]
  }

  function NotesOn(e: Inquiry): seq<Call> {
    ToldAll(e.asked) + if e.truncated then [Truncate] else []
  }

  lemma AnswersInOrder(log: seq<Answer>, calls: seq<Call>, e: Inquiry)
    ensures log + [CountedAs(e.counted, e.info)] + [Touched(ReadingLimits, e.limits)] + HeardAll(e.asked)
            + [Listed(e.pids, e.truncated)] == log + AnswersTo(e)
    ensures calls + ToldAll(e.asked) + (if e.truncated then [Truncate] else []) == calls + NotesOn(e)
  {
  }

  // ---------------------------------------------------------------- giving back

  /** The first error among the handles given back. */
  function FirstFailure(list: seq<Closing>): Option<int> {
    if list == [] then None else
      var before := FirstFailure(list[..|list| - 1]);
      if before.Some? then before else list[|list| - 1].failure
  }

  /** Each of the handles was given back, once. */
  ghost predicate GaveBack(list: seq<Closing>, handles: set<int>) {
    && (forall h :: h in handles <==> exists i :: 0 <= i < |list| && list[i].handle == h)
    && (forall i, j :: 0 <= i < j < |list| ==> list[i].handle != list[j].handle)
  }

  /** There is an error exactly if some handle could not be given back, and it is that of
      the first such handle. */
  lemma {:induction false} FirstFailureIsFirst(list: seq<Closing>)
    ensures FirstFailure(list).None? <==> forall i :: 0 <= i < |list| ==> list[i].failure.None?
    ensures FirstFailure(list).Some? ==>
      exists i :: 0 <= i < |list| && list[i].failure == FirstFailure(list) && forall k :: 0 <= k < i ==> list[k].failure.None?
  {
    if list != [] {
      var last := |list| - 1;
      FirstFailureIsFirst(list[..last]);
      if FirstFailure(list[..last]).None? {
        assert list[last].failure == FirstFailure(list);
      }
    }
  }

  // --------------------------------------------------------------- attribution

  /** What a row holds was measured on one process only, the one named by its
      identity, whatever happened to its pid before and after. */
  lemma RowIsOneProcess(calls: seq<Call>, readings: set<Reading>, id: Identity)
    requires Proven(calls, readings) && id in After(calls).rows
    ensures var row := After(calls).rows[id];
      && (row.peak.Some? ==> exists current :: Reading(id, current, row.peak.value) in readings)
      && (row.first.Some? ==> exists peak :: Reading(id, row.first.value, peak) in readings)
      && (row.last.Some? ==> exists peak :: Reading(id, row.last.value, peak) in readings)
  {
    var row, currents := After(calls).rows[id], Currents(calls, id);
    RowsRefineHistory(calls, id);
    SizesWereMeasured(calls, readings, id);
    assert row.first.Some? ==> row.first.value in currents;
    assert row.last.Some? ==> row.last.value in currents;
  }

  lemma {:induction false} SizesWereMeasured(calls: seq<Call>, readings: set<Reading>, id: Identity)
    requires Proven(calls, readings)
    ensures forall v :: v in Highs(calls, id) ==> exists current :: Reading(id, current, v) in readings
    ensures forall v :: v in Currents(calls, id) ==> exists peak :: Reading(id, v, peak) in readings
  {
    if calls != [] {
      var before, call := calls[..|calls| - 1], calls[|calls| - 1];
      assert call in calls && Measured(call, readings);
      SizesWereMeasured(before, readings, id);
    }
  }
}
