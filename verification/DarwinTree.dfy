/** The Darwin backend: a walk over the owned process tree that re-checks identities
    around every reading, the once-only root creation, wait4 total and group signal,
    and the close. The process table may change between any two queries. */
module DarwinTree {
  import opened Common
  import opened LedgerHistory
  import opened TaskPort

  const MAX_WALK: nat := 64

  datatype Usage = Usage(start: int, resident: int, cpu: Option<int>)

  datatype Event =
    | UsageOf(pid: int, usage: Option<Usage>)
    | ParentOf(pid: int, parent: Option<int>)
    | PortOf(pid: int, rss: TaskRss)
    | ChildrenOf(pid: int, children: Option<seq<int>>)
    | Members(pgid: int, pids: Option<seq<int>>)

  datatype Wait = NoChild | Failure | NotYet | Reported(status: int, cpu: Option<int>)

  /** A signal to a group, how many queries had been answered by then, and whether it was
      sent or nobody was left to send it to. */
  datatype Signal = Signal(pgid: int, at: nat, ok: bool)

  /** A BSD wait status; a stopped child has not exited. */
  function ReturnCode(status: int): Option<int> {
    if status < 0 then None
    else
      var low := status % 128;
      if low == 0 then Some(status / 256 % 256)
      else if low == 127 then None
      else Some(-low)
  }

  /** The word of an exit gives its code, that of a signal, with or without a core, the
      negative signal, and that of a stop nothing. */
  lemma ReturnCodeMeans(code: nat, signal: int, status: int)
    requires code < 256 && 0 < signal < 127
    ensures ReturnCode(code * 256) == Some(code)
    ensures ReturnCode(signal) == ReturnCode(128 + signal) == Some(-signal)
    ensures ReturnCode(status).None? <==> status < 0 || status % 128 == 127
    ensures status >= 0 && status % 128 == 0 ==>
      0 <= ReturnCode(status).value < 256 && (status / 256 - ReturnCode(status).value) % 256 == 0
  {
    assert code * 256 == 128 * (2 * code) && code * 256 / 256 == code;
    assert code * 256 % 128 == 0;
  }

  /** After this answer the root is no longer waited for. */
  predicate Decisive(w: Wait) {
    w.NoChild? || (w.Reported? && ReturnCode(w.status).Some?)
  }

  function TotalOf(w: Wait): Option<int> {
    if w.Reported? then w.cpu else None
  }

  function CodeOf(w: Wait): Option<int> {
    if w.Reported? then ReturnCode(w.status) else None
  }

  /** The process table; it logs its answers, the waits and the signals. Only one thing
      is certain: while the root has not been reaped its pid still means the root, so it
      cannot have been reused. If the launch is the only one to wait for its child, nobody
      else reaps it. */
  class ProcessTable {
    const root: int
    const rootStart: int
    const exclusive: bool
    var gone: bool
    var now: int
    var log: seq<Event>
    var waits: seq<Wait>
    var signals: seq<Signal>

    constructor (root: int, rootStart: int, exclusive: bool)
      ensures this.root == root && this.rootStart == rootStart && this.exclusive == exclusive
      ensures !gone && log == [] && waits == [] && signals == []
    {
      this.root, this.rootStart, this.exclusive := root, rootStart, exclusive;
      gone, now, log, waits, signals := false, *, [], [], [];
    }

    method UsageQuery(pid: int) returns (usage: Option<Usage>)
      modifies this`log
      ensures log == old(log) + [UsageOf(pid, usage)]
      ensures pid == root && exclusive && !gone && usage.Some? ==> usage.value.start == rootStart
    {
      usage := *;
      if pid == root && exclusive && !gone && usage.Some? {
        usage := Some(usage.value.(start := rootStart));
      }
      log := log + [UsageOf(pid, usage)];
    }

    method ParentQuery(pid: int) returns (parent: Option<int>)
      modifies this`log
      ensures log == old(log) + [ParentOf(pid, parent)]
    {
      parent := *;
      log := log + [ParentOf(pid, parent)];
    }

    method ChildrenQuery(pid: int) returns (children: Option<seq<int>>)
      modifies this`log
      ensures log == old(log) + [ChildrenOf(pid, children)]
    {
      children := *;
      log := log + [ChildrenOf(pid, children)];
    }

    method GroupQuery(pgid: int) returns (pids: Option<seq<int>>)
      modifies this`log
      ensures log == old(log) + [Members(pgid, pids)]
    {
      pids := *;
      log := log + [Members(pgid, pids)];
    }

    method LogPort(pid: int, rss: TaskRss)
      modifies this`log
      ensures log == old(log) + [PortOf(pid, rss)]
    {
      log := log + [PortOf(pid, rss)];
    }

    method KillGroup(pgid: int) returns (ok: bool)
      modifies this`signals
      ensures signals == old(signals) + [Signal(pgid, |log|, ok)]
    {
      ok := *;
      signals := signals + [Signal(pgid, |log|, ok)];
    }

    method Wait4() returns (w: Wait)
      modifies this`gone, this`waits
      ensures waits == old(waits) + [w]
      ensures old(gone) ==> gone
      ensures exclusive && !old(gone) ==> !w.NoChild? && (gone <==> Decisive(w))
    {
      w := *;
      if exclusive && !gone && w.NoChild? { w := NotYet; }
      if Decisive(w) { gone := true; }
      waits := waits + [w];
    }

    method Now() returns (t: int)
      modifies this`now
      ensures t == now >= old(now)
    {
      var passed: int := *;
      if passed > 0 { now := now + passed; }
      t := now;
    }

    method Sleep(milliseconds: nat)
      modifies this`now
      ensures now >= old(now) + milliseconds
    {
      now := now + milliseconds;
      var _ := Now();
    }
  }

  // ----------------------------------------------------------- what a walk proves

  datatype Charge = Charge(start: int, resident: Option<int>, high: Option<int>)

  /** An accepted pid, its accepted parent with that parent's frozen creation, and
      the stretch of the log that charged it. */
  datatype Accepted = Accepted(pid: int, parent: Option<(int, int)>, charge: Charge, from: nat, to: nat)

  predicate StartedAt(e: Event, pid: int, start: int) {
    e.UsageOf? && e.pid == pid && e.usage.Some? && e.usage.value.start == start
  }

  predicate SizeOf(e: Event, resident: Option<int>) {
    && e.UsageOf? && e.usage.Some?
    && resident == if e.usage.value.resident < 0 then None else Some(e.usage.value.resident)
  }

  /** The peak that a task query gives: only of an accepted, complete, valid answer. */
  function AcceptedPeak(rss: TaskRss): (peak: Option<int>)
    ensures peak.Some? ==> peak == rss.peak
    ensures peak.Some? <==>
      && rss.accepted && rss.kr == Some(0) && rss.count == Some(BASIC_INFO_COUNT)
      && rss.peak.Some? && rss.peak.value >= 0
  {
    if rss.accepted && rss.kr == Some(0) && rss.count == Some(BASIC_INFO_COUNT) then Clean(rss.peak) else None
  }

  predicate PeakOf(e: Event, pid: int, high: Option<int>) {
    e.PortOf? && e.pid == pid && high == AcceptedPeak(e.rss)
  }

  /** The queries that charged `pid`: its creation is the same before and after the
      port query; for a child, the parent and the parent's frozen creation too. */
  predicate Evidence(w: seq<Event>, pid: int, parent: Option<(int, int)>, c: Charge) {
    match parent
    case None =>
      && |w| == 3 && StartedAt(w[0], pid, c.start) && PeakOf(w[1], pid, c.high)
      && StartedAt(w[2], pid, c.start) && SizeOf(w[2], c.resident)
    case Some(q) =>
      && |w| == 7 && StartedAt(w[0], pid, c.start) && w[1] == ParentOf(pid, Some(q.0)) && StartedAt(w[2], q.0, q.1)
      && PeakOf(w[3], pid, c.high)
      && StartedAt(w[4], pid, c.start) && SizeOf(w[4], c.resident)
      && w[5] == ParentOf(pid, Some(q.0)) && StartedAt(w[6], q.0, q.1)
  }

  /** The second half of the evidence. */
  predicate Confirmed(w: seq<Event>, pid: int, parent: Option<(int, int)>, c: Charge) {
    && |w| == (if parent.None? then 2 else 4) && PeakOf(w[0], pid, c.high)
    && StartedAt(w[1], pid, c.start) && SizeOf(w[1], c.resident)
    && (parent.Some? ==> w[2] == ParentOf(pid, Some(parent.value.0)) && StartedAt(w[3], parent.value.0, parent.value.1))
  }

  /** The first half of the evidence. */
  predicate FirstHalf(w: seq<Event>, pid: int, parent: Option<(int, int)>, start: int) {
    && |w| == (if parent.None? then 1 else 3) && StartedAt(w[0], pid, start)
    && (parent.Some? ==> w[1] == ParentOf(pid, Some(parent.value.0)) && StartedAt(w[2], parent.value.0, parent.value.1))
  }

  lemma Joined(v: seq<Event>, w: seq<Event>, pid: int, parent: Option<(int, int)>, c: Charge)
    requires FirstHalf(v, pid, parent, c.start)
    requires Confirmed(w, pid, parent, c)
    ensures Evidence(v + w, pid, parent, c)
  {
  }

  predicate Evident(a: Accepted, log: seq<Event>) {
    a.from <= a.to <= |log| && Evidence(log[a.from..a.to], a.pid, a.parent, a.charge)
  }

  /** `q` is the pid and frozen creation of an accepted process. */
  predicate FrozenIn(q: (int, int), accepted: seq<Accepted>) {
    exists j :: 0 <= j < |accepted| && accepted[j].pid == q.0 && accepted[j].charge.start == q.1
  }

  predicate ParentAccepted(a: Accepted, earlier: seq<Accepted>) {
    a.parent.Some? ==> FrozenIn(a.parent.value, earlier)
  }

  predicate Linked(accepted: seq<Accepted>, k: int)
    requires 0 <= k < |accepted|
  {
    ParentAccepted(accepted[k], accepted[..k])
  }

  datatype ChainPart = OnEvidence | FromTheRoot | AfterParents | Apart

  predicate ChainHas(accepted: seq<Accepted>, log: seq<Event>, root: int, part: ChainPart) {
    match part
    case OnEvidence => forall k :: 0 <= k < |accepted| ==> Evident(accepted[k], log)
    case FromTheRoot => forall k :: 0 <= k < |accepted| ==> (accepted[k].parent.None? <==> accepted[k].pid == root)
    case AfterParents => forall k :: 0 <= k < |accepted| ==> Linked(accepted, k)
    case Apart =>
      forall i, j :: 0 <= i < j < |accepted| ==> accepted[i].pid != accepted[j].pid && accepted[i].to <= accepted[j].from
  }

  /** Everything a walk accepted is proved by its log: distinct pids, each with its own
      evidence, and each child after its parent. The parts are behind a quantifier so that
      a walk only hands them on; `ChainMeans` names them. */
  ghost predicate Chain(accepted: seq<Accepted>, log: seq<Event>, root: int) {
    forall part: ChainPart :: ChainHas(accepted, log, root, part)
  }

  lemma ChainMeans(accepted: seq<Accepted>, log: seq<Event>, root: int)
    requires Chain(accepted, log, root)
    ensures ChainHas(accepted, log, root, OnEvidence) && ChainHas(accepted, log, root, FromTheRoot)
    ensures ChainHas(accepted, log, root, AfterParents) && ChainHas(accepted, log, root, Apart)
  {
  }

  lemma ChainGrows(accepted: seq<Accepted>, log: seq<Event>, more: seq<Event>, root: int)
    requires Chain(accepted, log, root) && log <= more
    ensures Chain(accepted, more, root)
  {
    ChainMeans(accepted, log, root);
    forall k | 0 <= k < |accepted| ensures Evident(accepted[k], more) {
      var a := accepted[k];
      assert Evident(a, log) && more[a.from..a.to] == log[a.from..a.to];
    }
  }

  lemma ChainStep(accepted: seq<Accepted>, log: seq<Event>, root: int, a: Accepted)
    requires Chain(accepted, log, root) && Evident(a, log) && ParentAccepted(a, accepted)
    requires a.parent.None? <==> a.pid == root
    requires forall k :: 0 <= k < |accepted| ==> accepted[k].pid != a.pid && accepted[k].to <= a.from
    ensures Chain(accepted + [a], log, root)
  {
    ChainMeans(accepted, log, root);
    var more := accepted + [a];
    forall k | 0 <= k < |more| ensures Linked(more, k) {
      if k < |accepted| {
        assert Linked(accepted, k) && more[..k] == accepted[..k];
      } else {
        assert more[..k] == accepted;
      }
    }
  }

  /** Positions of accepted pids from the root down, each the accepted parent, with the
      creation frozen for it, of the next. */
  ghost predicate Lineage(path: seq<int>, accepted: seq<Accepted>, root: int) {
    && path != [] && (forall i :: 0 <= i < |path| ==> 0 <= path[i] < |accepted|)
    && accepted[path[0]].pid == root
    && forall i :: 0 <= i < |path| - 1 ==>
         && path[i] < path[i + 1]
         && accepted[path[i + 1]].parent == Some((accepted[path[i]].pid, accepted[path[i]].charge.start))
  }

  lemma ParentAt(accepted: seq<Accepted>, log: seq<Event>, root: int, k: int) returns (j: int)
    requires Chain(accepted, log, root) && 0 <= k < |accepted| && accepted[k].parent.Some?
    ensures 0 <= j < k && accepted[k].parent == Some((accepted[j].pid, accepted[j].charge.start))
  {
    ChainMeans(accepted, log, root);
    assert Linked(accepted, k);
    var q := accepted[k].parent.value;
    j :| 0 <= j < k && accepted[..k][j].pid == q.0 && accepted[..k][j].charge.start == q.1;
    assert accepted[..k][j] == accepted[j];
  }

  lemma LineageStep(path: seq<int>, k: int, accepted: seq<Accepted>, root: int)
    requires Lineage(path, accepted, root) && 0 <= k < |accepted| && path[|path| - 1] < k
    requires var above := accepted[path[|path| - 1]];
      accepted[k].parent == Some((above.pid, above.charge.start))
    ensures Lineage(path + [k], accepted, root)
  {
  }

  /** Every accepted pid descends from the accepted root through accepted parents. */
  lemma {:induction false} AcceptedDescends(accepted: seq<Accepted>, log: seq<Event>, root: int, k: int)
    returns (path: seq<int>)
    requires Chain(accepted, log, root) && 0 <= k < |accepted|
    ensures Lineage(path, accepted, root) && path[|path| - 1] == k
    decreases k
  {
    ChainMeans(accepted, log, root);
    if accepted[k].parent.None? {
      path := [k];
    } else {
      var j := ParentAt(accepted, log, root, k);
      var above := AcceptedDescends(accepted, log, root, j);
      LineageStep(above, k, accepted, root);
      path := above + [k];
    }
  }

  function Observation(a: Accepted): Call {
    Observe(Identity(a.pid, a.charge.start), a.charge.resident, a.charge.high, None)
  }

  function Observations(accepted: seq<Accepted>): seq<Call> {
    seq(|accepted|, k requires 0 <= k < |accepted| => Observation(accepted[k]))
  }

  function Plus(t: Tally, c: Charge): Tally {
    if c.resident.Some? then Tally(t.sum + c.resident.value, t.saw + 1) else t
  }

  /** Each accepted pid's resident size, added once. */
  function TallyOf(accepted: seq<Accepted>): Tally {
    if accepted == [] then Tally(0, 0)
    else Plus(TallyOf(accepted[..|accepted| - 1]), accepted[|accepted| - 1].charge)
  }

  /** Every size that is known adds to the sum, once. */
  lemma SizesAddUp(accepted: seq<Accepted>, a: Accepted)
    ensures TallyOf([]) == Tally(0, 0)
    ensures TallyOf(accepted + [a]).sum
         == TallyOf(accepted).sum + if a.charge.resident.Some? then a.charge.resident.value else 0
    ensures TallyOf(accepted + [a]).saw == TallyOf(accepted).saw + if a.charge.resident.Some? then 1 else 0
  {
    assert (accepted + [a])[..|accepted|] == accepted;
  }

  // ----------------------------------------------------------- what a walk covers

  /** A pid that was looked at and not accepted, with its accepted parent if it named one,
      and the stretch of the log that speaks against it. */
  datatype Refusal = Refusal(pid: int, parent: Option<(int, int)>, from: nat, to: nat)

  /** The last of these answers is not what it would be for `pid` with this creation, below
      this parent. */
  predicate Mismatch(w: seq<Event>, pid: int, start: Option<int>, parent: Option<(int, int)>) {
    if |w| == 1 then
      w[0].UsageOf? && w[0].pid == pid && (w[0].usage.None? || (start.Some? && w[0].usage.value.start != start.value))
    else if |w| == 2 then
      parent.Some? && w[1].ParentOf? && w[1].pid == pid && w[1].parent != Some(parent.value.0)
    else
      && |w| == 3 && parent.Some? && w[2].UsageOf? && w[2].pid == parent.value.0
      && !StartedAt(w[2], parent.value.0, parent.value.1)
  }

  /** A charge that failed at the first look or, after the port query, at the second.
      `frozen` is the creation frozen for the root. */
  predicate ChargeRefused(w: seq<Event>, pid: int, parent: Option<(int, int)>, frozen: Option<int>) {
    var n := if parent.None? then 1 else 3;
    || Mismatch(w, pid, if parent.None? then frozen else None, parent)
    || (&& |w| > n && w[0].UsageOf? && w[0].usage.Some? && w[n].PortOf? && w[n].pid == pid
        && Mismatch(w[n + 1..], pid, Some(w[0].usage.value.start), parent))
  }

  /** A second look that failed. */
  predicate RefusedAfterPort(w: seq<Event>, pid: int, start: int, parent: Option<(int, int)>) {
    |w| > 0 && w[0].PortOf? && w[0].pid == pid && Mismatch(w[1..], pid, Some(start), parent)
  }

  lemma RefusedLater(
    v: seq<Event>, w: seq<Event>, pid: int, start: int, parent: Option<(int, int)>, frozen: Option<int>)
    requires FirstHalf(v, pid, parent, start)
    requires RefusedAfterPort(w, pid, start, parent)
    ensures ChargeRefused(v + w, pid, parent, frozen)
  {
    assert (v + w)[|v| + 1..] == w[1..];
  }

  /** No process accepted by then is the parent that was named. */
  predicate Unowned(named: Option<int>, accepted: seq<Accepted>, at: nat) {
    named.Some? ==> forall j :: 0 <= j < |accepted| && accepted[j].pid == named.value ==> at < accepted[j].from
  }

  /** The log gives the reason of the refusal. */
  predicate Grounded(f: Refusal, accepted: seq<Accepted>, log: seq<Event>, v: View) {
    && v.since <= f.from < f.to <= |log|
    && (f.parent.Some? ==> FrozenIn(f.parent.value, accepted))
    && if f.pid == v.root then
         f.parent.None? && ChargeRefused(log[f.from..f.to], v.root, None, v.frozen)
       else
         && log[f.from].ParentOf? && log[f.from].pid == f.pid
         && if f.parent.None? then Unowned(log[f.from].parent, accepted, f.from)
            else log[f.from].parent == Some(f.parent.value.0)
                 && ChargeRefused(log[f.from + 1..f.to], f.pid, f.parent, v.frozen)
  }

  /** What a walk starts from: the root, the observer, the creation frozen for the root,
      and how many queries had been answered. */
  datatype View = View(root: int, observer: int, frozen: Option<int>, since: nat)

  /** How far a walk has come. */
  datatype Sweep = Sweep(accepted: seq<Accepted>, refused: seq<Refusal>, pending: seq<int>)

  predicate IsAccepted(pid: int, accepted: seq<Accepted>) {
    exists k :: 0 <= k < |accepted| && accepted[k].pid == pid
  }

  predicate Settled(pid: int, s: Sweep, v: View) {
    || pid <= 0 || pid == v.observer || pid in s.pending || IsAccepted(pid, s.accepted)
    || (exists k :: 0 <= k < |s.refused| && s.refused[k].pid == pid)
  }

  /** Which parent the child has was asked. */
  predicate ParentAsked(e: Event, child: int) {
    e.ParentOf? && e.pid == child
  }

  /** At `at` the children of `pid` were asked for, and after that for the parent of each. */
  predicate ChildrenAsked(log: seq<Event>, at: nat, pid: int) {
    && at < |log| && log[at].ChildrenOf? && log[at].pid == pid
    && (log[at].children.Some? ==>
          && at + |log[at].children.value| < |log|
          && forall i :: 0 <= i < |log[at].children.value| ==> ParentAsked(log[at + 1 + i], log[at].children.value[i]))
  }

  /** One of these children, and it still names `pid` as its parent. */
  predicate ChildConfirmed(log: seq<Event>, at: nat, pid: int, child: int)
    requires ChildrenAsked(log, at, pid)
  {
    && log[at].children.Some?
    && exists i :: 0 <= i < |log[at].children.value| && log[at].children.value[i] == child
                   && log[at + 1 + i].parent == Some(pid)
  }

  ghost predicate ChildrenSettled(a: Accepted, s: Sweep, log: seq<Event>, v: View) {
    ChildrenAsked(log, a.to, a.pid)
    && forall child :: ChildConfirmed(log, a.to, a.pid, child) ==> Settled(child, s, v)
  }

  datatype CoverPart = OfTheRoot | OfChildren | OfRefusals

  ghost predicate CoverHas(s: Sweep, log: seq<Event>, v: View, part: CoverPart) {
    match part
    case OfTheRoot => Settled(v.root, s, v)
    case OfChildren =>
      forall k :: 0 <= k < |s.accepted| ==> v.since <= s.accepted[k].from && ChildrenSettled(s.accepted[k], s, log, v)
    case OfRefusals => forall k :: 0 <= k < |s.refused| ==> Grounded(s.refused[k], s.accepted, log, v)
  }

  /** The root, and every child confirmed for an accepted pid, was accepted, refused by a
      logged answer, is still pending, or is the observer or no pid. In parts, as `Chain`. */
  ghost predicate Covered(s: Sweep, log: seq<Event>, v: View) {
    forall part: CoverPart :: CoverHas(s, log, v, part)
  }

  lemma CoveredMeans(s: Sweep, log: seq<Event>, v: View)
    requires Covered(s, log, v)
    ensures CoverHas(s, log, v, OfTheRoot) && CoverHas(s, log, v, OfChildren) && CoverHas(s, log, v, OfRefusals)
  {
  }

  lemma StillAsked(log: seq<Event>, more: seq<Event>, at: nat, pid: int)
    requires ChildrenAsked(log, at, pid) && log <= more
    ensures ChildrenAsked(more, at, pid)
    ensures forall child :: ChildConfirmed(more, at, pid, child) ==> ChildConfirmed(log, at, pid, child)
  {
  }

  lemma StillRefused(f: Refusal, accepted: seq<Accepted>, log: seq<Event>, later: seq<Accepted>, more: seq<Event>, v: View)
    requires Grounded(f, accepted, log, v) && log <= more && accepted <= later
    requires forall k :: |accepted| <= k < |later| ==> |log| <= later[k].from
    ensures Grounded(f, later, more, v)
  {
    assert more[f.from..f.to] == log[f.from..f.to];
    assert f.pid != v.root ==> more[f.from + 1..f.to] == log[f.from + 1..f.to];
    if f.parent.Some? {
      var j :| 0 <= j < |accepted| && accepted[j].pid == f.parent.value.0 && accepted[j].charge.start == f.parent.value.1;
      assert later[j] == accepted[j];
    }
  }

  /** Nothing that was settled is lost. */
  ghost predicate Carries(s: Sweep, t: Sweep, v: View) {
    && s.accepted <= t.accepted && s.refused <= t.refused
    && forall pid :: pid in s.pending ==> Settled(pid, t, v)
  }

  lemma SettledOn(pid: int, s: Sweep, t: Sweep, v: View)
    requires Carries(s, t, v) && Settled(pid, s, v)
    ensures Settled(pid, t, v)
  {
  }

  lemma ChildrenStillSettled(a: Accepted, s: Sweep, log: seq<Event>, t: Sweep, more: seq<Event>, v: View)
    requires ChildrenSettled(a, s, log, v) && log <= more && Carries(s, t, v)
    ensures ChildrenSettled(a, t, more, v)
  {
    StillAsked(log, more, a.to, a.pid);
    forall child | ChildConfirmed(more, a.to, a.pid, child) ensures Settled(child, t, v) {
      SettledOn(child, s, t, v);
    }
  }

  /** What a walk adds: accepted pids that were charged since, with their children settled,
      and refusals with their reasons. */
  ghost predicate Adds(s: Sweep, log: seq<Event>, t: Sweep, more: seq<Event>, v: View)
    requires s.accepted <= t.accepted && s.refused <= t.refused
  {
    && (forall k :: |s.accepted| <= k < |t.accepted| ==>
          |log| <= t.accepted[k].from && ChildrenSettled(t.accepted[k], t, more, v))
    && (forall k :: |s.refused| <= k < |t.refused| ==> Grounded(t.refused[k], t.accepted, more, v))
  }

  lemma CoveredOn(s: Sweep, log: seq<Event>, t: Sweep, more: seq<Event>, v: View)
    requires Covered(s, log, v) && v.since <= |log| && log <= more
    requires Carries(s, t, v) && Adds(s, log, t, more, v)
    ensures Covered(t, more, v)
  {
    CoveredMeans(s, log, v);
    SettledOn(v.root, s, t, v);
    forall k | 0 <= k < |t.accepted| ensures v.since <= t.accepted[k].from && ChildrenSettled(t.accepted[k], t, more, v) {
      if k < |s.accepted| {
        ChildrenStillSettled(s.accepted[k], s, log, t, more, v);
      }
    }
    forall k | 0 <= k < |t.refused| ensures Grounded(t.refused[k], t.accepted, more, v) {
      if k < |s.refused| {
        StillRefused(s.refused[k], s.accepted, log, t.accepted, more, v);
      }
    }
  }

  /** The creation frozen for the root, once there is one, does not change. */
  lemma CoveredFrozen(s: Sweep, log: seq<Event>, v: View, frozen: Option<int>)
    requires Covered(s, log, v) && (v.frozen.Some? ==> frozen == v.frozen)
    ensures Covered(s, log, v.(frozen := frozen))
  {
    CoveredMeans(s, log, v);
    var w := v.(frozen := frozen);
    forall k | 0 <= k < |s.accepted| ensures ChildrenSettled(s.accepted[k], s, log, w) {
      var a := s.accepted[k];
      assert ChildrenSettled(a, s, log, v);
      forall child | ChildConfirmed(log, a.to, a.pid, child) ensures Settled(child, s, w) {
        assert Settled(child, s, v);
      }
    }
    forall k | 0 <= k < |s.refused| ensures Grounded(s.refused[k], s.accepted, log, w) {
      assert Grounded(s.refused[k], s.accepted, log, v);
    }
  }

  lemma CoveredFirst(log: seq<Event>, v: View)
    ensures Covered(Sweep([], [], [v.root]), log, v)
  {
  }

  /** A pid that need not be looked at. */
  lemma CoveredSkip(accepted: seq<Accepted>, refused: seq<Refusal>, rest: seq<int>, pid: int, log: seq<Event>, v: View)
    requires Covered(Sweep(accepted, refused, rest + [pid]), log, v) && v.since <= |log|
    requires pid <= 0 || pid == v.observer || IsAccepted(pid, accepted)
    ensures Covered(Sweep(accepted, refused, rest), log, v)
  {
    CoveredOn(Sweep(accepted, refused, rest + [pid]), log, Sweep(accepted, refused, rest), log, v);
  }

  lemma CoveredRefuse(s: Sweep, log: seq<Event>, rest: seq<int>, f: Refusal, more: seq<Event>, v: View)
    requires Covered(s, log, v) && v.since <= |log| && log <= more && s.pending == rest + [f.pid]
    requires Grounded(f, s.accepted, more, v)
    ensures Covered(s.(refused := s.refused + [f], pending := rest), more, v)
  {
    var t := s.(refused := s.refused + [f], pending := rest);
    assert t.refused[|s.refused|] == f;
    CoveredOn(s, log, t, more, v);
  }

  lemma CoveredAccept(s: Sweep, log: seq<Event>, rest: seq<int>, a: Accepted, children: seq<int>, more: seq<Event>, v: View)
    requires Covered(s, log, v) && v.since <= |log| && log <= more && s.pending == rest + [a.pid]
    requires |log| <= a.from && ChildrenAsked(more, a.to, a.pid)
    requires forall child :: ChildConfirmed(more, a.to, a.pid, child) ==> child in children
    ensures Covered(s.(accepted := s.accepted + [a], pending := rest + children), more, v)
  {
    var t := s.(accepted := s.accepted + [a], pending := rest + children);
    assert t.accepted[|s.accepted|] == a;
    CoveredOn(s, log, t, more, v);
  }

  /** Nothing speaks against `pid`. */
  predicate Unopposed(pid: int, s: Sweep, v: View) {
    pid > 0 && pid != v.observer && forall k :: 0 <= k < |s.refused| ==> s.refused[k].pid != pid
  }

  /** Wherever `pid` was accepted, `child` was confirmed as its child. */
  predicate NamedBelow(pid: int, child: int, s: Sweep, log: seq<Event>) {
    forall k :: 0 <= k < |s.accepted| && s.accepted[k].pid == pid ==>
      ChildrenAsked(log, s.accepted[k].to, pid) && ChildConfirmed(log, s.accepted[k].to, pid, child)
  }

  /** A finished walk accepted every descendant of the root that can be reached through
      confirmed children none of which was refused. */
  lemma {:induction false} ReachesDown(path: seq<int>, s: Sweep, log: seq<Event>, v: View)
    requires Covered(s, log, v) && s.pending == [] && path != [] && path[0] == v.root
    requires forall i :: 0 <= i < |path| ==> Unopposed(path[i], s, v)
    requires forall i :: 0 < i < |path| ==> NamedBelow(path[i - 1], path[i], s, log)
    ensures IsAccepted(path[|path| - 1], s.accepted)
  {
    CoveredMeans(s, log, v);
    var n := |path| - 1;
    if n > 0 {
      ReachesDown(path[..n], s, log, v);
      var k :| 0 <= k < |s.accepted| && s.accepted[k].pid == path[n - 1];
      assert NamedBelow(path[n - 1], path[n], s, log);
      assert ChildrenSettled(s.accepted[k], s, log, v);
    }
    assert Settled(path[n], s, v) && Unopposed(path[n], s, v);
  }

  /** The answer lists another process of the group than the observer. */
  predicate ListsOther(pids: seq<int>, observer: int) {
    exists i :: 0 <= i < |pids| && pids[i] > 0 && pids[i] != observer
  }

  /** What the answers since `from` show of the group of `root`: first the usage of the
      leader, and unless that has another creation than the frozen one, last the members. */
  predicate GroupShown(log: seq<Event>, from: nat, root: int, frozen: int, observer: int, state: GroupState) {
    && from < |log| && log[from].UsageOf? && log[from].pid == root
    && if log[from].usage.Some? && log[from].usage.value.start != frozen then
         state == Reused && |log| == from + 1
       else
         && |log| > from + 1 && log[|log| - 1].Members? && log[|log| - 1].pgid == root
         && match log[|log| - 1].pids
            case None => state == Unverified
            case Some(pids) => state == if ListsOther(pids, observer) then Occupied else GroupEmpty
  }

  /** A look within the first `k` answers showed this state. */
  predicate ShownAt(
      log: seq<Event>, since: nat, k: nat, from: nat, state: GroupState, root: int, frozen: int, observer: int)
  {
    since <= from < k <= |log| && GroupShown(log[..k], from, root, frozen, observer, state)
  }

  ghost predicate Seen(log: seq<Event>, since: nat, state: GroupState, root: int, frozen: int, observer: int) {
    exists k: nat, from: nat :: ShownAt(log, since, k, from, state, root, frozen, observer)
  }

  lemma SeenLater(
      log: seq<Event>, since: nat, more: seq<Event>, earlier: nat, state: GroupState, root: int, frozen: int,
      observer: int)
    requires log <= more && earlier <= since
    ensures Seen(log, since, state, root, frozen, observer) ==> Seen(more, earlier, state, root, frozen, observer)
  {
    if k: nat, from: nat :| ShownAt(log, since, k, from, state, root, frozen, observer) {
      assert more[..k] == log[..k];
      assert ShownAt(more, earlier, k, from, state, root, frozen, observer);
    }
  }

  /** What the attempt to stop the group comes to: the leader is looked at, and unless it
      has another creation than the frozen one, a signal goes to the group. */
  predicate StopShown(
      log: seq<Event>, from: nat, root: int, frozen: int, before: seq<Signal>, after: seq<Signal>, failure: Option<Failing>)
  {
    && from < |log| && log[from].UsageOf? && log[from].pid == root
    && if log[from].usage.Some? && log[from].usage.value.start != frozen then
         after == before && failure == Some(PidReused)
       else
         && |after| == |before| + 1 && before <= after
         && after[|before|].pgid == root && from < after[|before|].at <= |log|
         && failure == if after[|before|].ok then None else Some(SignalFailed)
  }

  /** What a close says after its last look at the group. */
  function FailureAfter(state: GroupState): Option<Failing> {
    match state
    case GroupEmpty => None
    case Reused => Some(PidReused)
    case Occupied => Some(DescendantsSurvived)
    case Unverified => Some(GroupUnverified)
  }

  /** A task query that left its port behind. */
  predicate LeftPort(e: Event) {
    e.PortOf? && e.rss.dropFailed
  }

  datatype GroupState = GroupEmpty | Occupied | Reused | Unverified

  datatype Failing = ProcessMissing | AlreadyAttempted | GroupUnverified | PidReused | SignalFailed
                   | DescendantsSurvived | PortReleaseFailed

  class DarwinBackend {
    const table: ProcessTable
    const mach: Mach
    const observer: int
    const tasks: bool
    var spawned: bool
    var rootCreation: Option<int>
    var waited: Option<int>
    var returnCode: Option<int>
    var reaped: bool
    var terminateAttempted: bool
    var portFailed: bool
    var closed: bool
    var closeResult: Option<Failing>
    var sumPeak: Option<int>
    var ledger: Ledger
    ghost var calls: seq<Call>
    /** Which answer of the table the root creation was frozen from. */
    ghost var frozenAt: nat
    /** Which task query first left a port behind. */
    ghost var failedAt: nat

    /** At most one signal was sent, and none before the attempt was noted; the total is
        that of the one decisive wait, which was the last; the root creation was read
        from the table; and every port left behind is remembered. */
    ghost predicate Valid()
      reads this, table, mach
    {
      LedgerIsHistory() && SignalOnce() && Waited() && RootSeen() && PortsAccounted() && Exclusively()
    }

    ghost predicate LedgerIsHistory()
      reads this`ledger, this`calls
    {
      ledger == After(calls)
    }

    ghost predicate SignalOnce()
      reads this`terminateAttempted, table`signals
    {
      |table.signals| <= if terminateAttempted then 1 else 0
    }

    /** The frozen creation of the root is one that the table showed. */
    ghost predicate RootSeen()
      reads this`rootCreation, this`frozenAt, table`log
    {
      rootCreation.Some? ==>
        frozenAt < |table.log| && StartedAt(table.log[frozenAt], table.root, rootCreation.value)
    }

    ghost predicate PortsAccounted()
      reads this`portFailed, this`failedAt, mach`held, table`log
    {
      && (mach.held != {} ==> portFailed)
      && (portFailed ==> failedAt < |table.log| && LeftPort(table.log[failedAt]))
    }

    /** What holds if nobody else reaps the root. */
    ghost predicate Exclusively()
      reads this`reaped, this`rootCreation, table`gone
    {
      && (table.exclusive ==> table.gone == reaped)
      && (table.exclusive && rootCreation.Some? ==> rootCreation == Some(table.rootStart))
    }

    ghost predicate Waited()
      reads this`reaped, this`waited, this`returnCode, table`waits
    {
      var n := |table.waits|;
      && (reaped <==> n > 0 && Decisive(table.waits[n - 1]))
      && (forall i :: 0 <= i < n - 1 ==> !Decisive(table.waits[i]))
      && waited == (if reaped then TotalOf(table.waits[n - 1]) else None)
      && returnCode == if reaped then CodeOf(table.waits[n - 1]) else None
    }

    /** What never changes once it is set. */
    twostate predicate WriteOnce()
      reads this, table
    {
      && (old(rootCreation).Some? ==> rootCreation == old(rootCreation))
      && (old(reaped) ==>
            && reaped && waited == old(waited) && returnCode == old(returnCode) && rootCreation == old(rootCreation)
            && table.waits == old(table.waits))
      && (old(terminateAttempted) ==> terminateAttempted && table.signals == old(table.signals))
      && (old(portFailed) ==> portFailed)
      && (old(closed) ==> closed && closeResult == old(closeResult))
    }

    constructor (table: ProcessTable, mach: Mach, observer: int, tasks: bool)
      requires !table.gone && table.waits == [] && table.signals == [] && mach.held == {}
      ensures Valid() && this.table == table && this.mach == mach && !spawned && !closed && calls == []
      ensures rootCreation == None && !reaped && !terminateAttempted
    {
      this.table, this.mach, this.observer, this.tasks := table, mach, observer, tasks;
      spawned, rootCreation, waited, returnCode, reaped := false, None, None, None, false;
      terminateAttempted, portFailed, closed, closeResult := false, false, false, None;
      sumPeak, ledger, calls := None, EMPTY, [];
      frozenAt, failedAt := 0, 0;
    }

    method Spawn()
      requires Valid() && !spawned
      modifies this, mach, table`log
      ensures Valid() && spawned && WriteOnce()
    {
      spawned := true;
      ghost var _, _ := Sample();
    }

    // --------------------------------------------------------------- one reading

    method PortQuery(pid: int) returns (rss: TaskRss)
      requires Valid()
      modifies this`portFailed, this`failedAt, mach, table`log
      ensures Valid() && (portFailed <==> old(portFailed) || rss.dropFailed)
      ensures table.log == old(table.log) + [PortOf(pid, rss)]
      ensures old(mach.log) <= mach.log
      ensures if tasks then Reports(rss, mach.log[|old(mach.log)|..], pid)
              else rss == TaskRss(false, None, None, None, [], None, false) && mach.log == old(mach.log)
    {
      if tasks {
        rss := QueryTask(mach, pid);
        if rss.dropFailed {
          portFailed, failedAt := true, if portFailed then failedAt else |table.log|;
        }
      } else {
        rss := TaskRss(false, None, None, None, [], None, false);
      }
      table.LogPort(pid, rss);
    }

    /** The pid's creation (if one is expected, that one), and for a child its parent
        and the parent's creation. */
    method Identify(pid: int, expected: Option<int>, parent: Option<(int, int)>) returns (usage: Option<Usage>, ghost w: seq<Event>)
      modifies table`log
      ensures table.log == old(table.log) + w
      ensures usage.Some? ==> |w| >= 1 && w[0] == UsageOf(pid, usage)
      ensures usage.Some? && expected.Some? ==> usage.value.start == expected.value
      ensures usage.Some? && pid == table.root && table.exclusive && !table.gone ==> usage.value.start == table.rootStart
      ensures usage.Some? ==> |w| == if parent.None? then 1 else 3
      ensures usage.Some? && parent.Some? ==>
        && w[1] == ParentOf(pid, Some(parent.value.0)) && StartedAt(w[2], parent.value.0, parent.value.1)
      ensures usage.None? ==> Mismatch(w, pid, expected, parent)
    {
      var found := table.UsageQuery(pid);
      w := [UsageOf(pid, found)];
      if found.Some? && expected.Some? && found.value.start != expected.value {
        return None, w;
      }
      if found.None? || parent.None? {
        return found, w;
      }
      var current := table.ParentQuery(pid);
      w := w + [ParentOf(pid, current)];
      if current != Some(parent.value.0) {
        return None, w;
      }
      var above := table.UsageQuery(parent.value.0);
      w := w + [UsageOf(parent.value.0, above)];
      if above.None? || above.value.start != parent.value.1 {
        return None, w;
      }
      return found, w;
    }

    /** Freezes the root creation the first time, unless the root was reaped. */
    method FreezeRoot(start: int, ghost at: nat) returns (same: bool)
      requires Valid() && at < |table.log| && StartedAt(table.log[at], table.root, start)
      requires (table.exclusive && !table.gone ==> start == table.rootStart)
      modifies this`rootCreation, this`frozenAt
      ensures Valid()
      ensures old(rootCreation).Some? || reaped ==> rootCreation == old(rootCreation)
      ensures !reaped ==> rootCreation.Some?
      ensures same <==> rootCreation == Some(start)
    {
      if rootCreation.None? {
        if reaped {
          return false;
        }
        rootCreation := Some(start);
        frozenAt := at;
      }
      return rootCreation.value == start;
    }

    /** Charges one owned pid, or nothing. A root whose creation is not the frozen one
        is never charged, so a process that reuses the root's pid is not. */
    method ChargeOwned(pid: int, parent: Option<(int, int)>) returns (c: Option<Charge>, ghost w: seq<Event>)
      requires Valid() && (parent.None? <==> pid == table.root) && MaySample()
      modifies this`rootCreation, this`frozenAt, this`portFailed, this`failedAt, mach, table`log
      ensures Valid() && WriteOnce() && MaySample()
      ensures table.log == old(table.log) + w
      ensures c.None? ==> ChargeRefused(w, pid, parent, rootCreation)
      ensures c.Some? ==> Evidence(w, pid, parent, c.value)
      ensures c.Some? && pid == table.root ==> rootCreation == Some(c.value.start)
    {
      var start;
      start, w := FirstLook(pid, parent);
      if start.None? {
        return None, w;
      }
      ghost var w';
      c, w' := Confirm(pid, start.value, parent);
      if c.Some? {
        Joined(w, w', pid, parent, c.value);
      } else {
        RefusedLater(w, w', pid, start.value, parent, rootCreation);
      }
      w := w + w';
    }

    /** The creation under which the pid may be charged. */
    method FirstLook(pid: int, parent: Option<(int, int)>) returns (start: Option<int>, ghost w: seq<Event>)
      requires Valid() && (parent.None? <==> pid == table.root) && MaySample()
      modifies this`rootCreation, this`frozenAt, table`log
      ensures Valid() && WriteOnce() && MaySample()
      ensures table.log == old(table.log) + w
      ensures start.None? ==> ChargeRefused(w, pid, parent, rootCreation)
      ensures start.Some? ==> FirstHalf(w, pid, parent, start.value)
      ensures start.Some? && pid == table.root ==> rootCreation == start
    {
      var before;
      before, w := Identify(pid, None, parent);
      if before.None? {
        return None, w;
      }
      if pid == table.root {
        var same := FreezeRoot(before.value.start, |old(table.log)|);
        if !same {
          return None, w;
        }
      }
      return Some(before.value.start), w;
    }

    /** Once a reaped root has no frozen creation, no later process may be taken for it. */
    ghost predicate MaySample()
      reads this`reaped, this`rootCreation
    {
      reaped ==> rootCreation.Some?
    }

    /** The port query and the second look at the identity. */
    method Confirm(pid: int, start: int, parent: Option<(int, int)>) returns (c: Option<Charge>, ghost w: seq<Event>)
      requires Valid()
      modifies this`portFailed, this`failedAt, mach, table`log
      ensures Valid() && (old(portFailed) ==> portFailed)
      ensures table.log == old(table.log) + w
      ensures c.Some? ==> Confirmed(w, pid, parent, c.value) && c.value.start == start
      ensures c.None? ==> RefusedAfterPort(w, pid, start, parent)
    {
      var rss := PortQuery(pid);
      var after;
      ghost var w';
      after, w' := Identify(pid, Some(start), parent);
      w := [PortOf(pid, rss)] + w';
      if after.None? {
        return None, w;
      }
      return Some(Charge(start, Clean(Some(after.value.resident)), AcceptedPeak(rss))), w;
    }

    // ------------------------------------------------------------------ the walk

    ghost predicate SeenIs(seen: map<int, int>, accepted: seq<Accepted>) {
      && |seen| == |accepted|
      && (forall k :: 0 <= k < |accepted| ==> accepted[k].pid in seen && seen[accepted[k].pid] == accepted[k].charge.start)
      && (forall pid :: pid in seen ==> exists k :: 0 <= k < |accepted| && accepted[k].pid == pid)
    }

    /** The owned parent of a pid that was accepted in this sample already. */
    method OwnedParent(pid: int, seen: map<int, int>, ghost accepted: seq<Accepted>) returns (parent: Option<(int, int)>)
      requires SeenIs(seen, accepted)
      modifies table`log
      ensures exists above ::
        && table.log == old(table.log) + [ParentOf(pid, above)]
        && if parent.Some? then above == Some(parent.value.0) && FrozenIn(parent.value, accepted)
           else Unowned(above, accepted, |old(table.log)|)
    {
      var above := table.ParentQuery(pid);
      if above.None? || above.value !in seen {
        return None;
      }
      ghost var j :| 0 <= j < |accepted| && accepted[j].pid == above.value;
      assert accepted[j].charge.start == seen[above.value];
      return Some((above.value, seen[above.value]));
    }

    /** The children that still name `pid` as their parent. */
    method ConfirmedChildren(pid: int) returns (confirmed: seq<int>)
      modifies table`log
      ensures old(table.log) <= table.log && ChildrenAsked(table.log, |old(table.log)|, pid)
      ensures forall child :: child in confirmed <==> ChildConfirmed(table.log, |old(table.log)|, pid, child)
    {
      confirmed := [];
      var children := table.ChildrenQuery(pid);
      if children.None? {
        return;
      }
      for i := 0 to |children.value|
        invariant |table.log| == |old(table.log)| + 1 + i && old(table.log) + [ChildrenOf(pid, children)] <= table.log
        invariant forall j :: 0 <= j < i ==> ParentAsked(table.log[|old(table.log)| + 1 + j], children.value[j])
        invariant forall child :: child in confirmed <==>
            exists j :: 0 <= j < i && children.value[j] == child && table.log[|old(table.log)| + 1 + j].parent == Some(pid)
      {
        var above := table.ParentQuery(children.value[i]);
        if above == Some(pid) {
          confirmed := confirmed + [children.value[i]];
        }
      }
    }

    method Record(call: Call)
      requires LedgerIsHistory()
      modifies this`ledger, this`calls
      ensures LedgerIsHistory() && calls == old(calls) + [call]
    {
      ledger := Apply(ledger, call);
      ghost var before := calls;
      calls := calls + [call];
      assert calls[..|calls| - 1] == before;
    }

    /** What one look at a pid comes to: it is accepted and filed, or the log says why not. */
    ghost predicate LookedAt(pid: int, a: Option<Accepted>, f: Refusal, accepted: seq<Accepted>, earlier: seq<Call>, since: nat)
      reads this`calls, this`rootCreation, table`log
    {
      if a.Some? then
        && a.value.pid == pid && Chain(accepted + [a.value], table.log, table.root)
        && since <= a.value.from && a.value.to == |table.log|
        && calls == earlier + [Observation(a.value)]
        && (pid == table.root ==> rootCreation == Some(a.value.charge.start))
      else
        f.pid == pid && Grounded(f, accepted, table.log, ViewFrom(since)) && calls == earlier
    }

    /** Looks at one pending pid and accepts it if it is proved to be owned. */
    method Visit(pid: int, seen: map<int, int>, ghost accepted: seq<Accepted>) returns (a: Option<Accepted>, ghost f: Refusal)
      requires Valid() && SeenIs(seen, accepted) && Chain(accepted, table.log, table.root) && MaySample()
      requires pid !in seen
      modifies this`rootCreation, this`frozenAt, this`portFailed, this`failedAt, this`ledger, this`calls, mach, table`log
      ensures Valid() && WriteOnce() && MaySample() && old(table.log) <= table.log
      ensures LookedAt(pid, a, f, accepted, old(calls), |old(table.log)|)
    {
      var parent := None;
      if pid != table.root {
        parent := OwnedParent(pid, seen, accepted);
        if parent.None? {
          return None, Refusal(pid, None, |old(table.log)|, |table.log|);
        }
      }
      ChainGrows(accepted, old(table.log), table.log, table.root);
      a, f := Charged(pid, parent, seen, accepted, |old(table.log)|);
    }

    ghost function ViewFrom(since: nat): View
      reads this`rootCreation
    {
      View(table.root, observer, rootCreation, since)
    }

    /** Charges a pid whose place in the tree is known; the look began at `since`. */
    method Charged(pid: int, parent: Option<(int, int)>, seen: map<int, int>, ghost accepted: seq<Accepted>, ghost since: nat)
      returns (a: Option<Accepted>, ghost f: Refusal)
      requires Valid() && SeenIs(seen, accepted) && Chain(accepted, table.log, table.root) && MaySample()
      requires pid !in seen && (parent.None? <==> pid == table.root)
      requires parent.Some? ==> FrozenIn(parent.value, accepted)
      requires if parent.None? then since == |table.log|
               else since + 1 == |table.log| && table.log[since] == ParentOf(pid, Some(parent.value.0))
      modifies this`rootCreation, this`frozenAt, this`portFailed, this`failedAt, this`ledger, this`calls, mach, table`log
      ensures Valid() && WriteOnce() && MaySample() && old(table.log) <= table.log
      ensures LookedAt(pid, a, f, accepted, old(calls), since)
    {
      var from := |table.log|;
      ghost var w;
      var c;
      c, w := ChargeOwned(pid, parent);
      assert table.log[from..] == w;
      f := Refusal(pid, parent, since, |table.log|);
      if c.None? {
        assert table.log[from..|table.log|] == w;
        return None, f;
      }
      var accept := Accepted(pid, parent, c.value, from, |table.log|);
      Accept(accept, seen, accepted, old(table.log), w);
      return Some(accept), f;
    }

    /** Files a pid that was charged by the last stretch `w` of the log. */
    method Accept(a: Accepted, seen: map<int, int>, ghost accepted: seq<Accepted>, ghost log: seq<Event>, ghost w: seq<Event>)
      requires Valid() && SeenIs(seen, accepted) && a.pid !in seen && Chain(accepted, log, table.root) && log <= table.log
      requires |log| <= a.from <= a.to == |table.log| && table.log[a.from..] == w
      requires Evidence(w, a.pid, a.parent, a.charge) && (a.parent.None? <==> a.pid == table.root)
      requires ParentAccepted(a, accepted)
      modifies this`ledger, this`calls
      ensures Valid() && calls == old(calls) + [Observation(a)] && Chain(accepted + [a], table.log, table.root)
    {
      Accepts(accepted, seen, a, log, w);
      Record(Observe(Identity(a.pid, a.charge.start), a.charge.resident, a.charge.high, None));
    }

    lemma Accepts(accepted: seq<Accepted>, seen: map<int, int>, a: Accepted, log: seq<Event>, w: seq<Event>)
      requires SeenIs(seen, accepted) && a.pid !in seen && Chain(accepted, log, table.root) && log <= table.log
      requires |log| <= a.from <= a.to == |table.log| && table.log[a.from..] == w
      requires Evidence(w, a.pid, a.parent, a.charge) && (a.parent.None? <==> a.pid == table.root)
      requires ParentAccepted(a, accepted)
      ensures Chain(accepted + [a], table.log, table.root)
    {
      assert Evident(a, table.log) by {
        assert table.log[a.from..a.to] == w;
      }
      assert ParentAccepted(a, accepted);
      NewIsDistinct(accepted, seen, a.pid, log, a.from);
      ChainGrows(accepted, log, table.log, table.root);
      ChainStep(accepted, table.log, table.root, a);
    }

    lemma NewIsDistinct(accepted: seq<Accepted>, seen: map<int, int>, pid: int, log: seq<Event>, from: nat)
      requires SeenIs(seen, accepted) && pid !in seen && Chain(accepted, log, table.root) && |log| <= from
      ensures forall k :: 0 <= k < |accepted| ==> accepted[k].pid != pid && accepted[k].to <= from
    {
      ChainMeans(accepted, log, table.root);
      forall k | 0 <= k < |accepted| ensures accepted[k].pid != pid && accepted[k].to <= from {
        assert Evident(accepted[k], log);
      }
    }

    lemma NothingSwept()
      ensures Swept([], calls) && sumPeak == HigherSum(sumPeak, TallyOf([]))
    {
    }

    /** One sample. It ends for every behaviour of the table, accepts at most MAX_WALK
        pids, each on its own evidence, and counts each of them once. Unless it reached
        MAX_WALK, it left out neither the root nor any child confirmed for a pid it
        accepted without a logged answer against it. */
    method Sample() returns (ghost accepted: seq<Accepted>, ghost refused: seq<Refusal>)
      requires Valid()
      modifies this`rootCreation, this`frozenAt, this`portFailed, this`failedAt, this`ledger, this`calls, this`sumPeak
      modifies mach, table`log
      ensures Valid() && WriteOnce() && old(table.log) <= table.log
      ensures Swept(accepted, old(calls))
      ensures spawned && old(MaySample()) && |accepted| < MAX_WALK ==>
                Covered(Sweep(accepted, refused, []), table.log, ViewFrom(|old(table.log)|))
      ensures sumPeak == HigherSum(old(sumPeak), TallyOf(accepted))
      ensures reaped && rootCreation.None? ==> accepted == []
    {
      if !spawned || (reaped && rootCreation.None?) {
        NothingSwept();
        return [], [];
      }
      var tally;
      tally, accepted, refused := Walk();
      if tally.saw > 0 {
        sumPeak := if sumPeak.None? || sumPeak.value < tally.sum then Some(tally.sum) else sumPeak;
      }
    }

    /** Visits the last pending pid and, if it is accepted, asks for its children. */
    method Expand(pid: int, seen: map<int, int>, ghost s: Sweep, ghost rest: seq<int>, ghost since: nat)
      returns (a: Option<Accepted>, children: seq<int>, ghost s': Sweep)
      requires Valid() && SeenIs(seen, s.accepted) && Chain(s.accepted, table.log, table.root) && MaySample()
      requires pid !in seen && s.pending == rest + [pid]
      requires since <= |table.log| && Covered(s, table.log, ViewFrom(since))
      modifies this`rootCreation, this`frozenAt, this`portFailed, this`failedAt, this`ledger, this`calls, mach, table`log
      ensures Valid() && WriteOnce() && MaySample() && old(table.log) <= table.log
      ensures Covered(s', table.log, ViewFrom(since)) && s'.pending == rest + children
      ensures Chain(s'.accepted, table.log, table.root)
      ensures a.None? ==> calls == old(calls) && children == [] && s'.accepted == s.accepted
      ensures a.Some? ==>
        && a.value.pid == pid && calls == old(calls) + [Observation(a.value)] && s'.accepted == s.accepted + [a.value]
        && (pid == table.root ==> rootCreation == Some(a.value.charge.start))
    {
      ghost var f;
      a, f := Visit(pid, seen, s.accepted);
      CoveredFrozen(s, old(table.log), old(ViewFrom(since)), rootCreation);
      if a.None? {
        Left(pid, f, s, rest, since, old(table.log), old(calls));
        return a, [], s.(refused := s.refused + [f], pending := rest);
      }
      children := Descend(a.value, s, rest, since, old(table.log));
      s' := s.(accepted := s.accepted + [a.value], pending := rest + children);
    }

    /** A refused pid is settled. */
    lemma Left(
      pid: int, f: Refusal, s: Sweep, rest: seq<int>, since: nat, before: seq<Event>, earlier: seq<Call>)
      requires Chain(s.accepted, before, table.root) && s.pending == rest + [pid] && before <= table.log
      requires since <= |before| && Covered(s, before, ViewFrom(since))
      requires LookedAt(pid, None, f, s.accepted, earlier, |before|)
      ensures Covered(s.(refused := s.refused + [f], pending := rest), table.log, ViewFrom(since))
      ensures Chain(s.accepted, table.log, table.root)
    {
      ChainGrows(s.accepted, before, table.log, table.root);
      CoveredRefuse(s, before, rest, f, table.log, ViewFrom(since));
    }

    /** Asks for the children of a pid that was just accepted. */
    method Descend(a: Accepted, ghost s: Sweep, ghost rest: seq<int>, ghost since: nat, ghost before: seq<Event>)
      returns (children: seq<int>)
      requires s.pending == rest + [a.pid] && before <= table.log && |before| <= a.from && a.to == |table.log|
      requires since <= |before| && Covered(s, before, ViewFrom(since))
      requires Chain(s.accepted + [a], table.log, table.root)
      modifies table`log
      ensures old(table.log) <= table.log && Chain(s.accepted + [a], table.log, table.root)
      ensures Covered(s.(accepted := s.accepted + [a], pending := rest + children), table.log, ViewFrom(since))
    {
      children := ConfirmedChildren(a.pid);
      ChainGrows(s.accepted + [a], old(table.log), table.log, table.root);
      CoveredAccept(s, before, rest, a, children, table.log, ViewFrom(since));
    }

    /** At most MAX_WALK pids were accepted, each on its own evidence, the root only under
        its frozen creation, and exactly they were filed, each once. */
    ghost predicate Swept(accepted: seq<Accepted>, earlier: seq<Call>)
      reads this`calls, this`rootCreation, table`log
    {
      && |accepted| <= MAX_WALK && Chain(accepted, table.log, table.root) && RootFrozen(accepted) && Foreign(accepted)
      && calls == earlier + Observations(accepted)
    }

    /** The observer is never accepted, nor what is no pid. */
    ghost predicate Foreign(accepted: seq<Accepted>) {
      forall k :: 0 <= k < |accepted| ==> accepted[k].pid > 0 && accepted[k].pid != observer
    }

    /** The root, if it was accepted, was charged under its frozen creation. */
    ghost predicate RootFrozen(accepted: seq<Accepted>)
      reads this`rootCreation
    {
      forall k :: 0 <= k < |accepted| && accepted[k].pid == table.root ==> rootCreation == Some(accepted[k].charge.start)
    }

    /** The state of a walk: the accepted pids with their creations, in a map for the
        code and in order for the proof, and the sum of their sizes. */
    ghost predicate Walked(seen: map<int, int>, tally: Tally, accepted: seq<Accepted>, earlier: seq<Call>)
      reads this`calls, this`rootCreation, table`log
    {
      && SeenIs(seen, accepted) && |accepted| <= MAX_WALK
      && Chain(accepted, table.log, table.root) && RootFrozen(accepted) && Foreign(accepted)
      && calls == earlier + Observations(accepted)
      && tally == TallyOf(accepted)
    }

    /** The walk so far, and what it covers. */
    ghost predicate Underway(seen: map<int, int>, tally: Tally, s: Sweep, since: nat, earlier: seq<Call>)
      reads this`calls, this`rootCreation, table`log
    {
      Walked(seen, tally, s.accepted, earlier) && since <= |table.log| && Covered(s, table.log, ViewFrom(since))
    }

    /** One pid of the walk; if it is accepted it is counted, once. */
    method Advance(
      pid: int, seen: map<int, int>, tally: Tally,
      ghost s: Sweep, ghost rest: seq<int>, ghost since: nat, ghost earlier: seq<Call>)
      returns (seen': map<int, int>, tally': Tally, children: seq<int>, ghost s': Sweep)
      requires Valid() && Underway(seen, tally, s, since, earlier) && pid !in seen && |seen| < MAX_WALK && MaySample()
      requires pid > 0 && pid != observer
      requires s.pending == rest + [pid]
      modifies this`rootCreation, this`frozenAt, this`portFailed, this`failedAt, this`ledger, this`calls, mach, table`log
      ensures Valid() && WriteOnce() && MaySample() && old(table.log) <= table.log
      ensures Underway(seen', tally', s', since, earlier) && s'.pending == rest + children
      ensures |seen'| > |seen| || (seen' == seen && children == [])
    {
      var a;
      a, children, s' := Expand(pid, seen, s, rest, since);
      StillFrozen(s.accepted);
      if a.None? {
        return seen, tally, children, s';
      }
      WalkedOneMore(seen, tally, s.accepted, earlier, a.value);
      return seen[pid := a.value.charge.start], Plus(tally, a.value.charge), children, s';
    }

    lemma WalkedOneMore(seen: map<int, int>, tally: Tally, accepted: seq<Accepted>, earlier: seq<Call>, a: Accepted)
      requires SeenIs(seen, accepted) && |accepted| < MAX_WALK && a.pid !in seen && tally == TallyOf(accepted)
      requires Chain(accepted + [a], table.log, table.root)
      requires RootFrozen(accepted) && (a.pid == table.root ==> rootCreation == Some(a.charge.start))
      requires Foreign(accepted) && a.pid > 0 && a.pid != observer
      requires calls == earlier + Observations(accepted) + [Observation(a)]
      ensures Walked(seen[a.pid := a.charge.start], Plus(tally, a.charge), accepted + [a], earlier)
    {
      Counted(accepted, a, seen, earlier, tally);
    }

    /** A pid that need not be looked at: seen already, the observer or no pid. */
    lemma Skipped(pid: int, seen: map<int, int>, tally: Tally, s: Sweep, rest: seq<int>, since: nat, earlier: seq<Call>)
      requires Underway(seen, tally, s, since, earlier) && (pid in seen || pid <= 0 || pid == observer)
      requires s.pending == rest + [pid]
      ensures Underway(seen, tally, s.(pending := rest), since, earlier)
    {
      CoveredSkip(s.accepted, s.refused, rest, pid, table.log, ViewFrom(since));
    }

    lemma SetOut()
      ensures Underway(map[], Tally(0, 0), Sweep([], [], [table.root]), |table.log|, calls)
    {
      CoveredFirst(table.log, ViewFrom(|table.log|));
    }

    /** Pops one pid and looks at it, if need be. */
    method Next(seen: map<int, int>, tally: Tally, pending: seq<int>, ghost s: Sweep, ghost since: nat, ghost earlier: seq<Call>)
      returns (seen': map<int, int>, tally': Tally, pending': seq<int>, ghost s': Sweep)
      requires Valid() && Underway(seen, tally, s, since, earlier) && MaySample()
      requires s.pending == pending != [] && |seen| < MAX_WALK
      modifies this`rootCreation, this`frozenAt, this`portFailed, this`failedAt, this`ledger, this`calls, mach, table`log
      ensures Valid() && WriteOnce() && MaySample() && old(table.log) <= table.log
      ensures Underway(seen', tally', s', since, earlier) && s'.pending == pending'
      ensures |seen'| > |seen| || (seen' == seen && |pending'| < |pending|)
    {
      var pid := pending[|pending| - 1];
      pending' := pending[..|pending| - 1];
      assert pending == pending' + [pid];
      if pid in seen || pid <= 0 || pid == observer {
        Skipped(pid, seen, tally, s, pending', since, earlier);
        return seen, tally, pending', s.(pending := pending');
      }
      var children;
      seen', tally', children, s' := Advance(pid, seen, tally, s, pending', since, earlier);
      pending' := pending' + children;
    }

    /** From the root down, until nothing is pending or MAX_WALK pids were accepted. */
    method Walk() returns (tally: Tally, ghost accepted: seq<Accepted>, ghost refused: seq<Refusal>)
      requires Valid() && MaySample()
      modifies this`rootCreation, this`frozenAt, this`portFailed, this`failedAt, this`ledger, this`calls, mach, table`log
      ensures Valid() && WriteOnce() && old(table.log) <= table.log
      ensures Swept(accepted, old(calls))
      ensures |accepted| < MAX_WALK ==> Covered(Sweep(accepted, refused, []), table.log, ViewFrom(|old(table.log)|))
      ensures tally == TallyOf(accepted)
    {
      var seen: map<int, int> := map[];
      var pending := [table.root];
      tally := Tally(0, 0);
      ghost var s := Sweep([], [], pending);
      SetOut();
      while pending != [] && |seen| < MAX_WALK
        invariant Valid() && WriteOnce() && MaySample() && old(table.log) <= table.log
        invariant Underway(seen, tally, s, |old(table.log)|, old(calls)) && s.pending == pending
        decreases MAX_WALK - |seen|, |pending|
      {
        seen, tally, pending, s := Next(seen, tally, pending, s, |old(table.log)|, old(calls));
      }
      accepted, refused := s.accepted, s.refused;
    }

    twostate lemma StillFrozen(accepted: seq<Accepted>)
      requires old(RootFrozen(accepted)) && (old(rootCreation).Some? ==> rootCreation == old(rootCreation))
      ensures RootFrozen(accepted)
    {
    }

    lemma Counted(accepted: seq<Accepted>, a: Accepted, seen: map<int, int>, earlier: seq<Call>, tally: Tally)
      requires SeenIs(seen, accepted) && a.pid !in seen && tally == TallyOf(accepted)
      ensures SeenIs(seen[a.pid := a.charge.start], accepted + [a])
      ensures earlier + Observations(accepted) + [Observation(a)] == earlier + Observations(accepted + [a])
      ensures Plus(tally, a.charge) == TallyOf(accepted + [a])
    {
      var more, list := seen[a.pid := a.charge.start], accepted + [a];
      assert list[..|accepted|] == accepted;
      forall pid | pid in more ensures exists k :: 0 <= k < |list| && list[k].pid == pid {
        if pid == a.pid {
          assert list[|accepted|].pid == pid;
        } else {
          var k :| 0 <= k < |accepted| && accepted[k].pid == pid;
          assert list[k].pid == pid;
        }
      }
    }

    // ------------------------------------------------- exit, counter and signal

    /** The sampler thread takes the lock any number of times. */
    method SamplerRuns()
      requires Valid()
      modifies this`rootCreation, this`frozenAt, this`portFailed, this`failedAt, this`ledger, this`calls, this`sumPeak
      modifies mach, table`log
      ensures Valid() && WriteOnce() && old(table.log) <= table.log
    {
      var more: bool := *;
      var turns: int := *;
      while more && turns > 0
        invariant Valid() && WriteOnce() && old(table.log) <= table.log
        decreases turns
      {
        ghost var _, _ := Sample();
        turns := turns - 1;
        more := *;
      }
    }

    /** Reaps the root if it has exited; the total of that wait is kept from then on. */
    method CaptureWait4()
      requires Valid()
      modifies this`reaped, this`waited, this`returnCode, table`gone, table`waits
      ensures Valid() && WriteOnce()
      ensures if !spawned || old(reaped) then table.waits == old(table.waits)
              else |table.waits| == |old(table.waits)| + 1 && old(table.waits) <= table.waits
    {
      if !spawned || reaped {
        return;
      }
      var w := table.Wait4();
      match w
      case NoChild =>
        reaped := true;
      case Reported(status, cpu) =>
        var code := ReturnCode(status);
        if code.Some? {
          reaped := true;
          returnCode := code;
          waited := cpu;
        }
      case _ =>
    }

    /** After the root was reaped this is the wait4 total, a missing one included;
        before, the counter of one answer that has the frozen creation. */
    method CpuMicroseconds() returns (cpu: Option<int>)
      requires Valid()
      modifies table`log
      ensures Valid()
      ensures reaped || !spawned ==> cpu == waited && table.log == old(table.log)
      ensures !reaped && spawned ==> exists usage ::
        && table.log == old(table.log) + [UsageOf(table.root, usage)]
        && cpu == if usage.Some? && rootCreation == Some(usage.value.start) then usage.value.cpu else None
    {
      if waited.Some? {
        return waited;
      }
      if reaped || !spawned {
        return None;
      }
      var usage := table.UsageQuery(table.root);
      if usage.None? || rootCreation != Some(usage.value.start) {
        return None;
      }
      return usage.value.cpu;
    }

    /** The last look at the group began after `from` answers and showed this, or no look was
        possible. */
    ghost predicate LookedFrom(from: nat, state: GroupState)
      reads this`spawned, this`rootCreation, table`log
    {
      if MayLook() then GroupShown(table.log, from, table.root, rootCreation.value, observer, state)
      else state == Unverified
    }

    method StillActive() returns (active: Option<bool>)
      requires Valid()
      modifies this`rootCreation, this`frozenAt, this`portFailed, this`failedAt, this`ledger, this`calls, this`sumPeak, mach
      modifies this`reaped, this`waited, this`returnCode, table`gone, table`waits, table`log
      ensures Valid() && WriteOnce() && old(table.log) <= table.log
      ensures active == Some(false) ==> reaped && LastSeenEmpty()
      ensures if !spawned then active.None? else !reaped ==> active == Some(true)
      ensures spawned && reaped ==> exists state, from: nat ::
        && LookedFrom(from, state)
        && active == if state == Occupied then Some(true) else if state == GroupEmpty then Some(false) else None
      ensures spawned && !old(reaped) ==> |old(table.waits)| < |table.waits|
    {
      if !spawned {
        return None;
      }
      CaptureWait4();
      if !reaped {
        return Some(true);
      }
      SamplerRuns();
      ghost var from := |table.log|;
      var state := QueryGroup();
      assert LookedFrom(from, state);
      return if state == Occupied then Some(true) else if state == GroupEmpty then Some(false) else None;
    }

    /** The sampler may run between any two captures. */
    method WaitRoot(timeout: int) returns (exited: bool)
      requires Valid()
      modifies this`rootCreation, this`frozenAt, this`portFailed, this`failedAt, this`ledger, this`calls, this`sumPeak, mach
      modifies this`reaped, this`waited, this`returnCode, table`gone, table`waits, table`log, table`now
      ensures Valid() && WriteOnce() && old(table.log) <= table.log && (exited <==> spawned && reaped)
      ensures spawned && !exited ==> old(table.now) + timeout <= table.now
      ensures spawned && !old(reaped) ==> |old(table.waits)| < |table.waits|
    {
      if !spawned {
        return false;
      }
      var t := table.Now();
      var deadline := t + timeout;
      ghost var first := true;
      while true
        invariant Valid() && WriteOnce() && old(table.log) <= table.log && old(table.now) + timeout <= deadline
        invariant reaped == old(reaped) && |old(table.waits)| <= |table.waits|
        invariant !first && !old(reaped) ==> |old(table.waits)| < |table.waits|
        decreases deadline - table.now
      {
        CaptureWait4();
        if reaped {
          return true;
        }
        t := table.Now();
        if t >= deadline {
          return false;
        }
        first := false;
        Pause();
      }
    }

    /** Nothing holds the lock for a while. */
    method Pause()
      requires Valid()
      modifies this`rootCreation, this`frozenAt, this`portFailed, this`failedAt, this`ledger, this`calls, this`sumPeak, mach
      modifies table`log, table`now
      ensures Valid() && WriteOnce() && old(table.log) <= table.log && old(table.now) + 20 <= table.now
    {
      SamplerRuns();
      table.Sleep(20);
    }

    /** The last answer lists no process of the group but the observer. */
    ghost predicate LastSeenEmpty()
      reads table`log
    {
      && table.log != []
      && var last := table.log[|table.log| - 1];
         last.Members? && last.pgid == table.root && last.pids.Some? && !ListsOther(last.pids.value, observer)
    }

    /** The group can be looked at. */
    ghost predicate MayLook()
      reads this`spawned, this`rootCreation
    {
      spawned && table.root > 1 && rootCreation.Some?
    }

    /** Two queries without the lock; the sampler may run between them. */
    method QueryGroup() returns (state: GroupState)
      requires Valid()
      modifies this`rootCreation, this`frozenAt, this`portFailed, this`failedAt, this`ledger, this`calls, this`sumPeak
      modifies mach, table`log
      ensures Valid() && WriteOnce() && old(table.log) <= table.log
      ensures state == GroupEmpty ==> LastSeenEmpty()
      ensures rootCreation == old(rootCreation) && LookedFrom(|old(table.log)|, state)
      ensures !MayLook() ==> table.log == old(table.log)
    {
      if !spawned || table.root <= 1 || rootCreation.None? {
        return Unverified;
      }
      var leader := table.UsageQuery(table.root);
      if leader.Some? && leader.value.start != rootCreation.value {
        return Reused;
      }
      SamplerRuns();
      var pids := table.GroupQuery(table.root);
      if pids.None? {
        return Unverified;
      }
      if exists i :: 0 <= i < |pids.value| && pids.value[i] > 0 && pids.value[i] != observer {
        return Occupied;
      }
      return GroupEmpty;
    }

    /** What a first attempt to stop the group, begun after `from` answers, came to. */
    ghost predicate Stopped(frozen: Option<int>, from: nat, before: seq<Signal>, failure: Option<Failing>)
      reads table`log, table`signals
    {
      if table.root <= 1 || table.root == observer || frozen.None? then
        failure == Some(GroupUnverified) && table.signals == before
      else
        StopShown(table.log, from, table.root, frozen.value, before, table.signals, failure)
    }

    /** Signals the group at most once over the whole life of the launch. It takes no
        lock, so the sampler may run between the look at the leader and the signal. */
    method Terminate() returns (failure: Option<Failing>)
      requires Valid()
      modifies this`rootCreation, this`frozenAt, this`portFailed, this`failedAt, this`ledger, this`calls, this`sumPeak, mach
      modifies this`terminateAttempted, table`signals, table`log
      ensures Valid() && WriteOnce() && (spawned ==> terminateAttempted) && old(table.log) <= table.log
      ensures !spawned || old(terminateAttempted) ==>
                && failure == Some(if !spawned then ProcessMissing else AlreadyAttempted)
                && table.signals == old(table.signals) && table.log == old(table.log)
      ensures rootCreation == old(rootCreation)
      ensures spawned && !old(terminateAttempted) ==> Stopped(rootCreation, |old(table.log)|, old(table.signals), failure)
    {
      if !spawned {
        return Some(ProcessMissing);
      }
      if terminateAttempted {
        return Some(AlreadyAttempted);
      }
      terminateAttempted := true;
      if table.root <= 1 || table.root == observer || rootCreation.None? {
        return Some(GroupUnverified);
      }
      var leader := table.UsageQuery(table.root);
      if leader.Some? && leader.value.start != rootCreation.value {
        return Some(PidReused);
      }
      SamplerRuns();
      var ok := table.KillGroup(table.root);
      return if ok then None else Some(SignalFailed);
    }

    // ------------------------------------------------------------------- close

    method Close() returns (failure: Option<Failing>)
      requires Valid()
      modifies this`rootCreation, this`frozenAt, this`portFailed, this`failedAt, this`ledger, this`calls, this`sumPeak, mach
      modifies this`closed, this`closeResult, this`reaped, this`waited, this`returnCode, this`terminateAttempted, table
      ensures Valid() && WriteOnce() && closed && failure == closeResult && old(table.log) <= table.log
      ensures !old(closed) && failure.None? ==> mach.held == {} && LastSeenEmpty()
      ensures !old(closed) ==> exists group ::
        && GroupClosed(group, old(terminateAttempted), |old(table.log)|, old(table.signals))
        && failure == if group.None? && portFailed then Some(PortReleaseFailed) else group
    {
      if closed {
        return closeResult;
      }
      var group := CloseGroup();
      failure := group;
      if failure.None? && portFailed {
        failure := Some(PortReleaseFailed);
      }
      closed := true;
      closeResult := failure;
      assert GroupClosed(group, old(terminateAttempted), |old(table.log)|, old(table.signals));
    }

    /** What becomes of the group in a close that began after `since` answers and these
        signals. A group that nobody tried to stop is tried to be stopped, unless it was
        seen empty first. The result is what that came to, if it failed, else what the last
        look at the group showed. */
    ghost predicate GroupClosed(failure: Option<Failing>, attempted: bool, since: nat, before: seq<Signal>)
      reads this`spawned, this`terminateAttempted, this`rootCreation, table`log, table`signals
    {
      if !spawned then failure == Some(ProcessMissing)
      else
        && (attempted ==> table.signals == before)
        && (!attempted ==> if terminateAttempted then StopTried(since, before) else WasEmpty(since) && table.signals == before)
        && ((!attempted && failure.Some? && StopFailed(since, before, failure))
            || exists from: nat, state :: LookedFrom(from, state) && failure == FailureAfter(state))
    }

    ghost predicate StopFailed(since: nat, before: seq<Signal>, failure: Option<Failing>)
      reads this`rootCreation, table`log, table`signals
    {
      exists from: nat :: since <= from && Stopped(rootCreation, from, before, failure)
    }

    ghost predicate StopTried(since: nat, before: seq<Signal>)
      reads this`rootCreation, table`log, table`signals
    {
      exists failure :: StopFailed(since, before, failure)
    }

    /** An answer since `since` showed the group empty. */
    ghost predicate WasEmpty(since: nat)
      reads table`log
    {
      exists k :: since <= k < |table.log| && ShowsEmpty(table.log[k])
    }

    ghost predicate ShowsEmpty(e: Event) {
      e.Members? && e.pgid == table.root && e.pids.Some? && !ListsOther(e.pids.value, observer)
    }

    method CloseGroup() returns (failure: Option<Failing>)
      requires Valid()
      modifies this`rootCreation, this`frozenAt, this`portFailed, this`failedAt, this`ledger, this`calls, this`sumPeak, mach
      modifies this`reaped, this`waited, this`returnCode, this`terminateAttempted, table
      ensures Valid() && WriteOnce() && old(table.log) <= table.log
      ensures failure.None? ==> LastSeenEmpty()
      ensures GroupClosed(failure, old(terminateAttempted), |old(table.log)|, old(table.signals))
    {
      if !spawned {
        return Some(ProcessMissing);
      }
      failure := StopGroup();
      if failure.Some? {
        return;
      }
      ghost var log, from := table.log, 0;
      if terminateAttempted && !old(terminateAttempted) {
        from :| |old(table.log)| <= from && Stopped(rootCreation, from, old(table.signals), None);
      }
      failure := LastLook();
      Later(|old(table.log)|, log);
      if terminateAttempted && !old(terminateAttempted) {
        assert Stopped(rootCreation, from, old(table.signals), None);
        assert StopFailed(|old(table.log)|, old(table.signals), None);
      }
    }

    /** Tries to stop the group, unless that was tried or the group is seen empty. */
    method StopGroup() returns (failure: Option<Failing>)
      requires Valid() && spawned
      modifies this`rootCreation, this`frozenAt, this`portFailed, this`failedAt, this`ledger, this`calls, this`sumPeak, mach
      modifies this`reaped, this`waited, this`returnCode, this`terminateAttempted, table
      ensures Valid() && WriteOnce() && old(table.log) <= table.log
      ensures old(terminateAttempted) ==> failure.None?
      ensures !old(terminateAttempted) ==>
                if terminateAttempted then StopFailed(|old(table.log)|, old(table.signals), failure)
                else failure.None? && WasEmpty(|old(table.log)|) && table.signals == old(table.signals)
      ensures !old(reaped) ==> |old(table.waits)| < |table.waits|
    {
      CaptureWait4();
      SamplerRuns();
      ghost var since := |table.log|;
      failure := TerminateUnlessEmpty();
      if !old(terminateAttempted) {
        FromEarlier(|old(table.log)|, since, old(table.signals), failure);
      }
    }

    lemma FromEarlier(earlier: nat, since: nat, before: seq<Signal>, failure: Option<Failing>)
      requires earlier <= since
      ensures StopFailed(since, before, failure) ==> StopFailed(earlier, before, failure)
      ensures WasEmpty(since) ==> WasEmpty(earlier)
    {
    }

    /** What the answers showed stays shown. */
    lemma Later(since: nat, log: seq<Event>)
      requires log <= table.log
      ensures (exists k :: since <= k < |log| && ShowsEmpty(log[k])) ==> WasEmpty(since)
    {
      if k :| since <= k < |log| && ShowsEmpty(log[k]) {
        assert ShowsEmpty(table.log[k]);
      }
    }

    /** Waits for the group to be empty and says what it is then. */
    method LastLook() returns (failure: Option<Failing>)
      requires Valid() && spawned
      modifies this`rootCreation, this`frozenAt, this`portFailed, this`failedAt, this`ledger, this`calls, this`sumPeak, mach
      modifies this`reaped, this`waited, this`returnCode, table`gone, table`waits, table`log, table`now
      ensures Valid() && WriteOnce() && old(table.log) <= table.log
      ensures failure.None? ==> LastSeenEmpty()
      ensures exists from: nat, state :: LookedFrom(from, state) && failure == FailureAfter(state)
      ensures old(table.now) + 2000 <= table.now || WasFree(|old(table.log)|)
    {
      AwaitEmpty();
      ghost var log := table.log;
      var state := QueryGroup();
      assert LookedFrom(|log|, state);
      if MayLook() {
        forall other: GroupState
          ensures Seen(log, |old(table.log)|, other, table.root, rootCreation.value, observer)
              ==> WasSeen(|old(table.log)|, other)
        {
          SeenLater(
            log, |old(table.log)|, table.log, |old(table.log)|, other, table.root, rootCreation.value, observer);
        }
      }
      match state
      case GroupEmpty => failure := None;
      case Reused => failure := Some(PidReused);
      case Occupied => failure := Some(DescendantsSurvived);
      case Unverified => failure := Some(GroupUnverified);
    }

    method TerminateUnlessEmpty() returns (failure: Option<Failing>)
      requires Valid() && spawned
      modifies this`rootCreation, this`frozenAt, this`portFailed, this`failedAt, this`ledger, this`calls, this`sumPeak, mach
      modifies this`terminateAttempted, table`signals, table`log
      ensures Valid() && WriteOnce() && old(table.log) <= table.log
      ensures old(terminateAttempted) ==> failure.None? && table.log == old(table.log)
      ensures !old(terminateAttempted) ==>
                if terminateAttempted then StopFailed(|old(table.log)|, old(table.signals), failure)
                else failure.None? && WasEmpty(|old(table.log)|) && table.signals == old(table.signals)
      ensures !old(terminateAttempted) && terminateAttempted && old(MayLook()) ==>
                MayLook() && exists state :: state != GroupEmpty && WasSeen(|old(table.log)|, state)
    {
      if terminateAttempted {
        return None;
      }
      var state := QueryGroup();
      LookCounts(|old(table.log)|, state);
      ghost var log := table.log;
      if state == GroupEmpty {
        assert ShowsEmpty(table.log[|table.log| - 1]);
        return None;
      }
      SamplerRuns();
      ghost var from := |table.log|;
      failure := Terminate();
      assert Stopped(rootCreation, from, old(table.signals), failure);
      if old(MayLook()) {
        SeenLater(
          log, |old(table.log)|, table.log, |old(table.log)|, state, table.root, rootCreation.value, observer);
        assert WasSeen(|old(table.log)|, state);
      }
    }

    /** A look since `since` did not show the group occupied, or it could not be looked at. */
    ghost predicate WasFree(since: nat)
      reads this`spawned, this`rootCreation, table`log
    {
      MayLook() ==> exists state :: state != Occupied && WasSeen(since, state)
    }

    /** A look since `since` showed the group in this state. */
    ghost predicate WasSeen(since: nat, state: GroupState)
      reads this`spawned, this`rootCreation, table`log
      requires MayLook()
    {
      Seen(table.log, since, state, table.root, rootCreation.value, observer)
    }

    /** Waits until a look does not show the group occupied, but not longer than 2 seconds. */
    method AwaitEmpty()
      requires Valid()
      modifies this`rootCreation, this`frozenAt, this`portFailed, this`failedAt, this`ledger, this`calls, this`sumPeak, mach
      modifies this`reaped, this`waited, this`returnCode, table`gone, table`waits, table`log, table`now
      ensures Valid() && WriteOnce() && old(table.log) <= table.log && old(table.now) <= table.now
      ensures old(table.now) + 2000 <= table.now || WasFree(|old(table.log)|)
    {
      var t := table.Now();
      var deadline := t + 2000;
      while true
        invariant Valid() && WriteOnce() && old(table.log) <= table.log && old(table.now) + 2000 <= deadline
        invariant old(table.now) <= table.now
        decreases deadline - table.now
      {
        t := table.Now();
        if t >= deadline {
          return;
        }
        ghost var from := |table.log|;
        var more := StillOccupied();
        if !more {
          if MayLook() {
            ghost var state :| state != Occupied && WasSeen(from, state);
            SeenLater(table.log, from, table.log, |old(table.log)|, state, table.root, rootCreation.value, observer);
            assert WasSeen(|old(table.log)|, state);
          }
          return;
        }
      }
    }

    /** One look at the group; while it is occupied, one capture and a pause. */
    method StillOccupied() returns (more: bool)
      requires Valid()
      modifies this`rootCreation, this`frozenAt, this`portFailed, this`failedAt, this`ledger, this`calls, this`sumPeak, mach
      modifies this`reaped, this`waited, this`returnCode, table`gone, table`waits, table`log, table`now
      ensures Valid() && WriteOnce() && old(table.log) <= table.log && old(table.now) + (if more then 20 else 0) <= table.now
      ensures if more then MayLook() && WasSeen(|old(table.log)|, Occupied) else WasFree(|old(table.log)|)
      ensures more && spawned && !old(reaped) ==> |old(table.waits)| < |table.waits|
    {
      var state := QueryGroup();
      LookCounts(|old(table.log)|, state);
      ghost var log := table.log;
      if state != Occupied {
        return false;
      }
      CaptureWait4();
      Pause();
      SeenLater(
        log, |old(table.log)|, table.log, |old(table.log)|, Occupied, table.root, rootCreation.value, observer);
      return true;
    }

    /** A look that just ended was one since it began. */
    lemma LookCounts(from: nat, state: GroupState)
      requires LookedFrom(from, state)
      ensures MayLook() ==> WasSeen(from, state)
    {
      if MayLook() {
        assert table.log[..|table.log|] == table.log;
        assert ShownAt(table.log, from, |table.log|, from, state, table.root, rootCreation.value, observer);
      }
    }
  }

  // ---------------------------------------------------------------- every run

  /** What one thread does next. The sampler also runs inside the owner's longer calls,
      wherever those do not hold the lock. */
  datatype Turn = TakeSample | AskCpu | AskActive | AwaitRoot(timeout: int) | Stop | Finish

  /** Over every schedule of both threads, by the table's own account: at most one signal,
      no wait after the decisive one, whose total is the one kept, and a frozen root
      creation that some answer of the table gave, the root's own whenever nobody else
      can reap the root. */
  method AnyRun(table: ProcessTable, mach: Mach, observer: int, tasks: bool, schedule: seq<Turn>)
    returns (backend: DarwinBackend)
    requires !table.gone && table.waits == [] && table.signals == [] && mach.held == {}
    modifies table, mach
    ensures backend.table == table && backend.mach == mach && backend.Valid() && backend.spawned
    ensures |table.signals| <= 1
    ensures forall i :: 0 <= i < |table.waits| - 1 ==> !Decisive(table.waits[i])
    ensures backend.waited == if table.waits != [] && Decisive(table.waits[|table.waits| - 1])
                              then TotalOf(table.waits[|table.waits| - 1]) else None
    ensures backend.returnCode == if table.waits != [] && Decisive(table.waits[|table.waits| - 1])
                                  then CodeOf(table.waits[|table.waits| - 1]) else None
    ensures backend.rootCreation.Some? ==>
              exists k :: 0 <= k < |table.log| && StartedAt(table.log[k], table.root, backend.rootCreation.value)
    ensures table.exclusive && backend.rootCreation.Some? ==> backend.rootCreation.value == table.rootStart
  {
    backend := new DarwinBackend(table, mach, observer, tasks);
    backend.Spawn();
    for i := 0 to |schedule|
      invariant backend.Valid() && backend.table == table && backend.mach == mach && fresh(backend) && backend.spawned
    {
      Take(backend, schedule[i]);
    }
  }

  /** No turn undoes what was written once. */
  method Take(backend: DarwinBackend, turn: Turn)
    requires backend.Valid()
    modifies backend, backend.mach, backend.table
    ensures backend.Valid() && backend.WriteOnce() && backend.spawned == old(backend.spawned)
  {
    match turn
    case TakeSample => ghost var _, _ := backend.Sample();
    case AskCpu => var _ := backend.CpuMicroseconds();
    case AskActive => var _ := backend.StillActive();
    case AwaitRoot(timeout) => var _ := backend.WaitRoot(timeout);
    case Stop => var _ := backend.Terminate();
    case Finish => var _ := backend.Close();
  }
}
