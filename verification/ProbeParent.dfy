/** The parent of the residency probe, call by call, against the kernel and the child.
    An accepted run has exactly one order of events; the child is reaped at most once
    and never signalled afterwards; every name port is dropped exactly once. */
module ProbeParent {
  import opened Common
  import opened ProbeRecord
  import opened ProbeChild
  import opened ProbeKernel
  import opened ProbeEvidence

  predicate CleanStatus(status: Option<nat>) {
    status.Some? && Exited(status.value) && ExitStatus(status.value) == 0
  }

  /** What the parent says of a complete pair of samples. */
  function LiveDetail(r: Run): Detail
    requires r.childRss.Some?
  {
    if r.live.peak == 0 then ZeroPeak
    else if r.live.peak < r.baseline.peak then PeakDecreased
    else if r.live.size <= r.baseline.size then AllocationNotObserved
    else if r.childRss.value < r.baseline.peak || r.childRss.value > r.live.peak then PeakOutOfOrder
    else Fine
  }

  /** The record is consistent in itself. */
  predicate RecordOk(r: Run) {
    && RunOk(r)
    && (r.childReaped <==> r.status.Some?)
    && (r.live.complete ==>
          && r.baseline.complete && r.childRss.Some?
          && (r.killFailed || r.detail == LiveDetail(r)))
    && (AboutPeaks(r.detail) ==> r.live.complete && r.detail == LiveDetail(r))
  }

  type Record = r: Run | RecordOk(r) witness INITIAL_RUN

  /** The peaks lie in the order of a counter that never decreases. */
  predicate Ascending(r: Record) {
    r.live.complete ==> r.baseline.peak <= r.childRss.value <= r.live.peak
  }

  /** The handshake has come exactly this far. */
  predicate At(s: World, stage: nat) {
    !s.astray && !s.partial && s.stage == stage
  }

  /** The record and the kernel hold the same peaks, taken in the handshake's order. */
  predicate SamePeaks(r: Record, s: World) {
    && !s.astray && s.stage >= 5
    && s.base == r.baseline.peak && r.childRss == Some(s.rss) && s.live == r.live.peak
  }

  /** Nothing but the measurements and what is said of them changed. */
  predicate OnlyMeasured(a: Run, b: Run) {
    && b.child == a.child && b.childReaped == a.childReaped && b.timedOut == a.timedOut && b.killFailed == a.killFailed
    && b.nameKr == a.nameKr && b.namePortIsNull == a.namePortIsNull && b.deallocKr == a.deallocKr
  }

  /** Nothing but what became of the child changed. */
  predicate OnlyReaped(a: Run, b: Run) {
    && b == a.(childReaped := b.childReaped, status := b.status, killFailed := b.killFailed, timedOut := b.timedOut,
               detail := b.detail)
    && (b.detail == a.detail || b.detail == ChildExitedEarly || b.detail == NotOurChild || b.detail == KillFailed)
  }

  /** What the parent decides once both samples are complete and the child is gone. */
  function OutcomeOf(d: Detail): Outcome {
    match d
    case ZeroPeak => ZeroPeakRss
    case PeakDecreased => PeakOrAllocationCheckFailed
    case AllocationNotObserved => PeakOrAllocationCheckFailed
    case PeakOutOfOrder => ChildPeakOutOfOrder
    case Fine => LiveCounterOk
    case _ => ChildOrCleanupFailure
  }

  /** The last wait failed for good. */
  predicate WaitFailed(waits: seq<Wait>) {
    waits != [] && (waits[|waits| - 1].NoChild? || waits[|waits| - 1].OtherError?)
  }

  predicate Confirms(r: Record) {
    r.live.complete && CleanStatus(r.status)
  }

  /** What the record and the order of events say together when a run is over. */
  lemma Verdict(r: Record, s: World)
    requires Confirms(r) ==> SamePeaks(r, s) && s.stage == 9 && s.post == Shown(r.post)
    requires s.honest ==> Ascending(r)
    ensures Decide(r) == LiveCounterOk ==>
              && r.detail == Fine && r.childRss.Some?
              && s.log == Accepted(r.baseline.peak, r.childRss.value, r.live.peak, Shown(r.post))
    ensures s.honest ==>
              && Decide(r) != ChildPeakOutOfOrder && r.detail != PeakOutOfOrder && r.detail != PeakDecreased
              && (Decide(r) == PeakOrAllocationCheckFailed ==> r.live.size <= r.baseline.size)
  {
    if Decide(r) == LiveCounterOk {
      AllEventsInOrder(s);
    }
  }

  /** Both samples are complete, and the child was reaped in time after a clean exit. */
  predicate FullyMeasured(r: Run) {
    && r.live.complete && r.childReaped && CleanStatus(r.status) && !r.timedOut && !r.killFailed
    && r.nameKr == Some(0) && !r.namePortIsNull
  }

  /** With both samples and a clean exit the outcome is what the detail says. */
  lemma DecideMeasured(r: Record)
    requires FullyMeasured(r) && r.deallocOk
    ensures Decide(r) == OutcomeOf(LiveDetail(r))
  {
  }

  // ------------------------------------------------------------ a run that is accepted

  /** The child announced itself and the parent heard it. */
  function Heard(): State {
    Hear(Step(Initial(true), GoOn(0)))
  }

  /** The child reads the order, touches its memory, takes its reading and reports it, and
      the parent hears the report. */
  function Reported(base: nat, rss: nat): State {
    var touched := Step(Step(Ordered(base), GoOn(0)), GoOn(0));
    Hear(Step(Step(touched, GoOn(rss)), GoOn(0)))
  }

  /** The live sample was taken and the release written; the child exits and is reaped. */
  function ReapedInTime(base: nat, rss: nat, live: nat): State {
    var released := Send(Answer(Reported(base, rss), Some(live)), ReleaseMessage, []);
    Reap(Step(released, GoOn(0)))
  }

  /** The last query and the drop. */
  function Finished(base: nat, rss: nat, live: nat, post: Option<nat>): State {
    Drop(Answer(ReapedInTime(base, rss, live), post))
  }

  function Answered(size: nat, peak: nat): Sample {
    Sample(true, true, 0, BASIC_INFO_COUNT, size, peak)
  }

  /** For all peaks in order and a size that grew, some run of an honest kernel and child
      takes the handshake to its end, and the record it leaves is accepted. */
  lemma AcceptedRun(pid: int, small: nat, large: nat, base: nat, rss: nat, live: nat)
    requires pid > 1 && small < large && base <= rss <= live && live > 0
    ensures var s := Finished(base, rss, live, None);
      Invariant(s) && !s.astray && s.stage == 9 && s.log == Accepted(base, rss, live, None)
    ensures HonestPeak(Heard(), Some(base)) && HonestPeak(Reported(base, rss), Some(live))
    ensures var r := INITIAL_RUN.(
        child := pid, childReaped := true, status := Some(0), deallocKr := Some(0), nameKr := Some(0),
        namePortIsNull := false, baseline := Answered(small, base), live := Answered(large, live),
        childRss := Some(rss), detail := Fine);
      RecordOk(r) && FullyMeasured(r) && SamePeaks(r, Finished(base, rss, live, None)) && Decide(r) == LiveCounterOk
  {
    OrderedIs(base);
    ReportedIs(base, rss);
    ReapedIs(base, rss, live);
    FinishedIs(base, rss, live, None);
  }

  /** The baseline was taken and the allocation ordered. */
  function Ordered(base: nat): State {
    Send(Answer(Heard(), Some(base)), AllocMessage, [])
  }

  lemma OrderedIs(base: nat)
    ensures Heard().counter == 0
    ensures Ordered(base) == State(
        AwaitCommand, [], [AllocMessage], 3, false, false, true, base, base, 0, 0, None,
        [ChildWrote(ReadyMessage), Queried(Some(base)), ParentWrote(AllocMessage)])
  {
    var ready := Heard();
    assert ready == Initial(true).(pc := AwaitCommand, stage := 1, log := [ChildWrote(ReadyMessage)]);
  }

  lemma ReportedIs(base: nat, rss: nat)
    requires base <= rss
    ensures Reported(base, rss) == State(
        AwaitRelease, [], [], 4, false, false, true, rss, base, rss, 0, None, Accepted(base, rss, 0, None)[..6])
  {
    OrderedIs(base);
  }

  lemma ReapedIs(base: nat, rss: nat, live: nat)
    requires base <= rss <= live
    ensures ReapedInTime(base, rss, live) == State(
        Ended(ExitedWith(0)), [], [], 7, false, false, true, live, base, rss, live, None,
        Accepted(base, rss, live, None)[..10])
  {
    ReportedIs(base, rss);
  }

  lemma FinishedIs(base: nat, rss: nat, live: nat, post: Option<nat>)
    requires base <= rss <= live && (post.Some? ==> live <= post.value)
    ensures Invariant(Finished(base, rss, live, post))
    ensures var s := Finished(base, rss, live, post);
      && !s.astray && s.stage == 9 && s.log == Accepted(base, rss, live, post)
      && s.base == base && s.rss == rss && s.live == live && s.post == post
  {
    ReapedIs(base, rss, live);
    var s := Finished(base, rss, live, post);
    assert s == State(
      Ended(ExitedWith(0)), [], [], 9, false, false, true, if post.Some? then post.value else live, base, rss, live, post,
      Accepted(base, rss, live, post));
    EndsInOrder(s);
  }

  /** A finished run whose log is the accepted one is in order. */
  lemma EndsInOrder(s: State)
    requires s.pc == Ended(ExitedWith(0)) && s.toParent == s.toChild == [] && s.stage == 9
    requires s.log == Accepted(s.base, s.rss, s.live, s.post)
    requires s.base <= s.rss <= s.live <= s.counter
    ensures Invariant(s)
  {
    assert InOrder(s);
    assert Possible(s.pc.how);
    Meaning(s);
  }

  datatype PeakPart = WhileRunning | OnceReaped

  predicate PeaksAre(r: Record, s: World, held: bool, part: PeakPart) {
    match part
    case WhileRunning => r.live.complete && !r.childReaped ==> SamePeaks(r, s) && s.stage <= 6 && held
    case OnceReaped => Confirms(r) ==> SamePeaks(r, s) && s.stage == 7 && held
  }

  /** What ties the record to the handshake until the port is dropped. The two parts are
      behind a quantifier, as those of `Recorded`. */
  ghost predicate Peaks(r: Record, s: World, held: bool) {
    forall part: PeakPart :: PeaksAre(r, s, held, part)
  }

  lemma PeaksMean(r: Record, s: World, held: bool)
    requires Peaks(r, s, held)
    ensures PeaksAre(r, s, held, WhileRunning) && PeaksAre(r, s, held, OnceReaped)
  {
  }

  /** The child runs on. */
  lemma PeaksStay(r: Record, s: World, t: World, held: bool)
    requires Peaks(r, s, held) && ChildOnly(s, t)
    ensures Peaks(r, t, held)
    ensures r.live.complete && !r.childReaped ==> SamePeaks(r, t) && t.stage <= 6 && held
  {
    PeaksMean(r, s, held);
  }

  class Parent {
    const kernel: Kernel
    const deadline: int
    var r: Record
    var portHeld: bool

    ghost predicate Basic()
      reads this, kernel
    {
      Placed() && (r.childReaped <==> kernel.reaped)
    }

    /** What holds even while the answer of a wait is not yet in the record. */
    ghost predicate Placed()
      reads this, kernel
    {
      && kernel.Valid() && r.child == kernel.pid
      && (kernel.s.honest ==> Ascending(r))
      && (portHeld <==> kernel.held)
      && (r.timedOut ==> deadline <= kernel.now)
      && (portHeld ==> r.deallocKr.None?)
    }

    /** The record is what the kernel answered so far. */
    ghost predicate Noted()
      reads this`r, kernel`seen
    {
      Recorded(r, kernel.seen, deadline)
    }

    /** Until the port is dropped. */
    ghost predicate Sound()
      reads this, kernel
    {
      Basic() && !r.post.queried && Peaks(r, kernel.s, kernel.held)
    }

    constructor (kernel: Kernel, deadline: int)
      requires kernel.Valid() && !kernel.held && !kernel.reaped && kernel.seen == NOTHING_SEEN
      ensures this.kernel == kernel && this.deadline == deadline && Sound() && Noted()
      ensures r == INITIAL_RUN.(child := kernel.pid)
    {
      this.kernel, this.deadline := kernel, deadline;
      r, portHeld := INITIAL_RUN.(child := kernel.pid), false;
      NothingRecorded(INITIAL_RUN.(child := kernel.pid), deadline);
    }

    // ------------------------------------------------------------------- reaping

    /** A wait just brought the child, whose state was `before`, and the record does not yet
        say so. */
    ghost predicate JustReaped(status: nat, before: World)
      reads this, kernel
    {
      && Placed() && !r.childReaped && kernel.reaped && !r.post.queried
      && before.pc.Ended? && status == Word(before.pc.how) && kernel.s == Reap(before)
      && (r.live.complete ==> SamePeaks(r, before) && before.stage <= 6 && kernel.held)
    }

    /** The child was reaped with this status. */
    method Reaped(status: nat, detail: Detail, ghost before: World)
      requires JustReaped(status, before)
      requires (r.live.complete ==> detail == r.detail) && (!AboutPeaks(detail) || detail == r.detail)
      requires Recorded(r.(status := Some(status), childReaped := true, detail := detail), kernel.seen, deadline)
      modifies this`r
      ensures Sound() && Noted() && r == old(r).(status := Some(status), childReaped := true, detail := detail)
    {
      Meaning(before);
      WordDecodes(before.pc.how);
      ReapKeeps(before);
      r := r.(status := Some(status), childReaped := true, detail := detail);
    }

    /** Asks after the child until it is not interrupted. */
    method Ask() returns (w: Wait, ghost before: World)
      requires kernel.Valid()
      modifies kernel`s, kernel`now, kernel`reaped, kernel`interrupts, kernel`reaps, kernel`seen, kernel`smooth
      ensures kernel.Valid() && ChildOnly(old(kernel.s), before) && old(kernel.now) <= kernel.now
      ensures !w.Interrupted? && (old(kernel.reaped) ==> !w.Child?)
      ensures w.Child? ==>
                before.pc.Ended? && w.status == Word(before.pc.how) && kernel.s == Reap(before) && kernel.reaped
      ensures !w.Child? ==> kernel.s == before && kernel.reaped == old(kernel.reaped)
      ensures w.NotYet? ==> old(kernel.reaped) || !before.pc.Ended?
      ensures kernel.smooth ==> old(kernel.smooth) && Expected(w, old(kernel.reaped))
      ensures kernel.smooth && !old(kernel.s).astray && old(kernel.s).stage <= 5 ==> !w.Child?
      ensures kernel.seen == old(kernel.seen).(waits := kernel.seen.waits)
      ensures Idled(old(kernel.seen).waits, kernel.seen.waits, w)
    {
      w, before := kernel.WaitNoHang();
      while w.Interrupted?
        invariant kernel.seen == old(kernel.seen).(waits := kernel.seen.waits)
        invariant Idled(old(kernel.seen).waits, kernel.seen.waits, w)
        invariant kernel.Valid() && ChildOnly(old(kernel.s), before) && old(kernel.now) <= kernel.now
        invariant old(kernel.reaped) ==> !w.Child?
        invariant w.Child? ==>
            before.pc.Ended? && w.status == Word(before.pc.how) && kernel.s == Reap(before) && kernel.reaped
        invariant !w.Child? ==> kernel.s == before && kernel.reaped == old(kernel.reaped)
        invariant w.NotYet? ==> old(kernel.reaped) || !before.pc.Ended?
        invariant kernel.smooth ==> old(kernel.smooth) && Expected(w, old(kernel.reaped))
        decreases kernel.interrupts, w.Interrupted?
      {
        w, before := kernel.WaitNoHang();
      }
      if w.Child? && !before.astray && before.stage <= 5 {
        NoEarlyExit(before);
      }
    }

    /** What the run says of a child it cannot wait for or signal. */
    method Fail(detail: Detail)
      requires Sound() && (detail == NotOurChild || detail == KillFailed)
      requires Recorded(r.(killFailed := true, detail := detail), kernel.seen, deadline)
      modifies this`r
      ensures Sound() && Noted() && r == old(r).(detail := detail, killFailed := true)
    {
      PeaksMean(r, kernel.s, kernel.held);
      r := r.(detail := detail, killFailed := true);
    }

    /** A wait brought the child, or failed. */
    method Heed(w: Wait, detail: Detail, ghost before: World)
      requires (w.Child? || w.NoChild? || w.OtherError?) && !r.childReaped
      requires Recorded(WithNews(r, w, detail), kernel.seen, deadline)
      requires if w.Child? then JustReaped(w.status, before) else Sound()
      requires w.Child? ==> (r.live.complete ==> detail == r.detail) && (!AboutPeaks(detail) || detail == r.detail)
      modifies this`r
      ensures Sound() && Noted()
      ensures r == if w.Child? then old(r).(status := Some(w.status), childReaped := true, detail := detail)
                   else old(r).(killFailed := true, detail := NotOurChild)
    {
      if w.Child? {
        Reaped(w.status, detail, before);
      } else {
        Fail(NotOurChild);
      }
    }

    /** A wait during the handshake brought the child, or failed. `s` and `k` were before it. */
    method HeedEarly(w: Wait, ghost before: World, ghost s: World, ghost k: Seen)
      requires (w.Child? || w.NoChild? || w.OtherError?) && !r.childReaped && !r.live.complete && k.kills == []
      requires Recorded(r, k, deadline) && kernel.seen == k.(waits := kernel.seen.waits)
      requires Idled(k.waits, kernel.seen.waits, w)
      requires Placed() && !r.post.queried && Peaks(r, s, kernel.held) && ChildOnly(s, before)
      requires if w.Child? then
                 before.pc.Ended? && w.status == Word(before.pc.how) && kernel.s == Reap(before) && kernel.reaped
               else kernel.s == before && !kernel.reaped
      modifies this`r
      ensures Sound() && Noted()
      ensures r == if w.Child? then old(r).(status := Some(w.status), childReaped := true, detail := ChildExitedEarly)
                   else old(r).(killFailed := true, detail := NotOurChild)
    {
      News(r, k, deadline, kernel.seen.waits, w, ChildExitedEarly);
      PeaksStay(r, s, before, kernel.held);
      Heed(w, ChildExitedEarly, before);
    }

    /** Whether the child is still there to be waited for: it has not been reaped, and at
        the answer it had not ended. A child that has ended is reaped here. */
    method StillUnreaped() returns (still: bool)
      requires Sound() && Noted() && !r.live.complete && kernel.kills == 0
      modifies this`r, kernel`s, kernel`now, kernel`reaped, kernel`interrupts, kernel`reaps, kernel`seen, kernel`smooth
      ensures Sound() && Noted() && !r.live.complete
      ensures still ==>
                && r == old(r) && ChildOnly(old(kernel.s), kernel.s)
                && r.child > 1 && !r.childReaped && !kernel.reaped && !kernel.s.pc.Ended?
      ensures !still ==>
                || (r == old(r) && (r.child <= 1 || r.childReaped))
                || (r.childReaped && r.detail == ChildExitedEarly) || (r.killFailed && r.detail == NotOurChild)
      ensures kernel.smooth ==> old(kernel.smooth)
      ensures kernel.smooth && r.child > 1 && !old(r).childReaped ==>
                still || old(kernel.s).astray || old(kernel.s).stage > 5
      ensures kernel.seen == old(kernel.seen).(waits := kernel.seen.waits)
      ensures OnlyReaped(old(r), r)
    {
      if r.child <= 1 || r.childReaped {
        return false;
      }
      still := NotEnded();
    }

    /** Whether a child that was not reaped had not ended at the answer. */
    method NotEnded() returns (still: bool)
      requires Sound() && Noted() && !r.live.complete && kernel.kills == 0 && r.child > 1 && !r.childReaped
      modifies this`r, kernel`s, kernel`now, kernel`reaped, kernel`interrupts, kernel`reaps, kernel`seen, kernel`smooth
      ensures Sound() && Noted()
      ensures still ==> r == old(r) && ChildOnly(old(kernel.s), kernel.s) && !kernel.reaped && !kernel.s.pc.Ended?
      ensures !still ==>
                || (r.childReaped && r.detail == ChildExitedEarly) || (r.killFailed && r.detail == NotOurChild)
      ensures kernel.smooth ==> old(kernel.smooth) && (still || old(kernel.s).astray || old(kernel.s).stage > 5)
      ensures kernel.seen == old(kernel.seen).(waits := kernel.seen.waits)
      ensures OnlyReaped(old(r), r)
    {
      still := false;
      var w, before := Ask();
      if w.NotYet? {
        NoNews(r, old(kernel.seen), deadline, kernel.seen.waits, w);
        PeaksStay(r, old(kernel.s), kernel.s, kernel.held);
        still := true;
      } else {
        HeedEarly(w, before, old(kernel.s), old(kernel.seen));
      }
    }

    /** Waits until it is not interrupted for a child that has ended. */
    method WaitForEnded() returns (w: Wait, ghost before: World)
      requires kernel.Valid() && !kernel.reaped && kernel.s.pc.Ended?
      modifies kernel`s, kernel`now, kernel`reaped, kernel`interrupts, kernel`reaps, kernel`seen, kernel`smooth
      ensures kernel.Valid() && before == old(kernel.s) && old(kernel.now) <= kernel.now
      ensures w.Child? ==> w.status == Word(before.pc.how) && kernel.s == Reap(before) && kernel.reaped
      ensures !w.Child? ==> kernel.s == before && !kernel.reaped && (w.NoChild? || w.OtherError?)
      ensures kernel.smooth ==> old(kernel.smooth)
      ensures kernel.seen == old(kernel.seen).(waits := kernel.seen.waits)
      ensures Idled(old(kernel.seen).waits, kernel.seen.waits, w)
    {
      w, before := kernel.WaitEnded();
      while w.Interrupted?
        invariant kernel.seen == old(kernel.seen).(waits := kernel.seen.waits)
        invariant Idled(old(kernel.seen).waits, kernel.seen.waits, w)
        invariant kernel.Valid() && before == old(kernel.s) && old(kernel.now) <= kernel.now
        invariant w.Child? ==> w.status == Word(before.pc.how) && kernel.s == Reap(before) && kernel.reaped
        invariant !w.Child? ==> kernel.s == before && !kernel.reaped
        invariant kernel.smooth ==> old(kernel.smooth)
        invariant !w.NotYet?
        decreases kernel.interrupts, w.Interrupted?
      {
        w, before := kernel.WaitEnded();
      }
    }

    /** Past the deadline the child is killed and waited for. */
    method KillAndWait()
      requires Sound() && Noted() && !r.childReaped && deadline <= kernel.now && kernel.kills == 0
      modifies this`r, kernel`s, kernel`now, kernel`reaped, kernel`interrupts, kernel`reaps, kernel`seen, kernel`kills
      modifies kernel`smooth
      ensures OnlyReaped(old(r), r)
      ensures kernel.seen.writes == old(kernel.seen.writes)
      ensures Sound() && Noted() && kernel.kills == 1 && old(kernel.now) <= kernel.now
      ensures r.childReaped || r.killFailed || (r.timedOut && WaitFailed(kernel.seen.waits))
      ensures kernel.smooth ==> old(kernel.smooth)
    {
      PeaksMean(r, kernel.s, kernel.held);
      ghost var start := r;
      r := r.(timedOut := true);
      var k, alive := kernel.SendKill();
      KillStep(start, old(kernel.seen), deadline, k);
      if k.Refused? {
        Fail(KillFailed);
        return;
      }
      ReapKilled();
    }

    method ReapKilled()
      requires Sound() && Noted() && !r.childReaped && r.timedOut && kernel.kills == 1 && kernel.s.pc.Ended?
      modifies this`r, kernel`s, kernel`now, kernel`reaped, kernel`interrupts, kernel`reaps, kernel`seen, kernel`smooth
      ensures OnlyReaped(old(r), r)
      ensures kernel.seen.writes == old(kernel.seen.writes)
      ensures Sound() && Noted() && old(kernel.now) <= kernel.now
      ensures r.childReaped || (r.timedOut && WaitFailed(kernel.seen.waits))
      ensures kernel.smooth ==> old(kernel.smooth)
    {
      PeaksMean(r, kernel.s, kernel.held);
      var w, before := WaitForEnded();
      if w.Child? {
        News(r, old(kernel.seen), deadline, kernel.seen.waits, w, r.detail);
        Reaped(w.status, r.detail, before);
      } else {
        NoNewsOfKilled(r, old(kernel.seen), deadline, kernel.seen.waits, w);
      }
    }

    /** Waits for the child until the deadline and kills it then. Afterwards the child is
        reaped, or it could not be waited for or killed, or the wait after the kill failed. */
    method ReapOwned()
      requires Sound() && Noted() && kernel.kills == 0
      modifies this`r, kernel`s, kernel`now, kernel`reaped, kernel`interrupts, kernel`reaps, kernel`seen, kernel`kills
      modifies kernel`smooth
      ensures OnlyReaped(old(r), r)
      ensures kernel.seen.writes == old(kernel.seen.writes)
      ensures Sound() && Noted() && kernel.kills <= 1 && old(kernel.now) <= kernel.now
      ensures || r.child <= 1 || r.childReaped || r.killFailed
              || (r.timedOut && kernel.kills == 1 && WaitFailed(kernel.seen.waits))
      ensures kernel.smooth ==> old(kernel.smooth)
      ensures kernel.smooth && kernel.now < deadline && r.child > 1 && !old(r).childReaped ==>
                r == old(r).(childReaped := true, status := Some(0))
      ensures r.child <= 1 || old(r.childReaped) ==> r == old(r) && kernel.seen == old(kernel.seen)
    {
      if r.child <= 1 || r.childReaped {
        return;
      }
      AwaitReap();
    }

    method AwaitReap()
      requires Sound() && Noted() && !r.childReaped && kernel.kills == 0
      modifies this`r, kernel`s, kernel`now, kernel`reaped, kernel`interrupts, kernel`reaps, kernel`seen, kernel`kills
      modifies kernel`smooth
      ensures OnlyReaped(old(r), r) && kernel.seen.writes == old(kernel.seen.writes)
      ensures Sound() && Noted() && kernel.kills <= 1 && old(kernel.now) <= kernel.now
      ensures r.childReaped || r.killFailed || (r.timedOut && kernel.kills == 1 && WaitFailed(kernel.seen.waits))
      ensures kernel.smooth ==> old(kernel.smooth)
      ensures kernel.smooth && kernel.now < deadline ==> r == old(r).(childReaped := true, status := Some(0))
    {
      while true
        invariant Sound() && Noted() && !r.childReaped && kernel.kills == 0 && r == old(r) && old(kernel.now) <= kernel.now
        invariant kernel.seen.writes == old(kernel.seen.writes)
        invariant kernel.smooth ==> old(kernel.smooth)
        decreases kernel.interrupts, if kernel.now < deadline then deadline - kernel.now else 0
      {
        var w := TryReap();
        if w.Interrupted? {
          continue;
        }
        if !w.NotYet? {
          return;
        }
        var over := KillIfLate();
        if over {
          return;
        }
      }
    }

    /** Kills the child and waits for it if the deadline is reached; else sleeps. */
    method KillIfLate() returns (late: bool)
      requires Sound() && Noted() && !r.childReaped && kernel.kills == 0
      modifies this`r, kernel`s, kernel`now, kernel`reaped, kernel`interrupts, kernel`reaps, kernel`seen, kernel`kills
      modifies kernel`smooth
      ensures OnlyReaped(old(r), r)
      ensures kernel.seen.writes == old(kernel.seen.writes)
      ensures Sound() && Noted() && old(kernel.now) <= kernel.now && (kernel.smooth ==> old(kernel.smooth))
      ensures late ==>
                && kernel.kills == 1 && deadline <= kernel.now
                && (r.childReaped || r.killFailed || (r.timedOut && WaitFailed(kernel.seen.waits)))
      ensures !late ==>
                && r == old(r) && kernel.kills == 0
                && (|| kernel.interrupts < old(kernel.interrupts)
                    || (&& kernel.interrupts == old(kernel.interrupts)
                        && old(kernel.now) < kernel.now && old(kernel.now) < deadline))
    {
      PeaksMean(r, kernel.s, kernel.held);
      var t := kernel.Now();
      ClockStep(r, old(kernel.seen), deadline, t);
      late := t >= deadline;
      if late {
        KillAndWait();
      } else {
        kernel.Sleep();
      }
    }

    method AskOnce() returns (w: Wait, ghost before: World)
      requires kernel.Valid() && !kernel.reaped
      modifies kernel`s, kernel`now, kernel`reaped, kernel`interrupts, kernel`reaps, kernel`seen, kernel`smooth
      ensures kernel.Valid() && ChildOnly(old(kernel.s), before) && old(kernel.now) <= kernel.now
      ensures kernel.interrupts <= old(kernel.interrupts)
      ensures w.Interrupted? ==> kernel.interrupts < old(kernel.interrupts)
      ensures if w.Child? then
                before.pc.Ended? && w.status == Word(before.pc.how) && kernel.s == Reap(before) && kernel.reaped
              else kernel.s == before && !kernel.reaped
      ensures kernel.smooth ==> old(kernel.smooth) && Expected(w, false)
      ensures kernel.seen == old(kernel.seen).(waits := kernel.seen.waits)
      ensures Idled(old(kernel.seen).waits, kernel.seen.waits, w)
    {
      w, before := kernel.WaitNoHang();
    }

    /** Asks once for the child. */
    method TryReap() returns (w: Wait)
      requires Sound() && Noted() && !r.childReaped && kernel.kills == 0
      modifies this`r, kernel`s, kernel`now, kernel`reaped, kernel`interrupts, kernel`reaps, kernel`seen, kernel`smooth
      ensures Sound() && Noted() && old(kernel.now) <= kernel.now && r == Tried(old(r), w)
      ensures kernel.seen.writes == old(kernel.seen.writes)
      ensures kernel.interrupts <= old(kernel.interrupts)
      ensures w.Interrupted? ==> kernel.interrupts < old(kernel.interrupts)
      ensures kernel.smooth ==> old(kernel.smooth) && Expected(w, false)
    {
      ghost var before;
      w, before := AskOnce();
      PeaksStay(r, old(kernel.s), before, kernel.held);
      if w.NotYet? || w.Interrupted? {
        NoNews(r, old(kernel.seen), deadline, kernel.seen.waits, w);
      } else {
        News(r, old(kernel.seen), deadline, kernel.seen.waits, w, r.detail);
        Heed(w, r.detail, before);
      }
    }

    method ReleaseAndReap()
      requires Sound() && Noted() && kernel.kills == 0 && (r.live.complete && !r.childReaped ==> At(kernel.s, 5))
      modifies this`r, kernel`s, kernel`now, kernel`reaped, kernel`interrupts, kernel`reaps, kernel`seen, kernel`kills
      modifies kernel`smooth
      ensures OnlyReaped(old(r), r)
      ensures Sound() && Noted() && kernel.kills <= 1 && old(kernel.now) <= kernel.now
      ensures kernel.smooth ==> old(kernel.smooth)
      ensures kernel.smooth && kernel.now < deadline && r.child > 1 && !old(r).childReaped ==>
                r == old(r).(childReaped := true, status := Some(0))
      ensures r.child <= 1 || old(r.childReaped || r.timedOut) ==> kernel.seen.writes == old(kernel.seen.writes)
      ensures r.child > 1 && !old(r.childReaped || r.timedOut) ==>
                || ReleaseTried(old(kernel.seen))
                || (kernel.seen.writes == old(kernel.seen.writes) && deadline <= kernel.now)
      ensures r.child <= 1 || old(r.childReaped) ==> r == old(r) && kernel.seen == old(kernel.seen)
    {
      if r.child <= 1 || r.childReaped {
        return;
      }
      if !r.timedOut {
        WriteRelease();
      }
      ReapOwned();
    }

    /** The release was the one frame written since. */
    ghost predicate ReleaseTried(before: Seen)
      reads kernel`seen
    {
      exists rc :: kernel.seen.writes == before.writes + [(ReleaseMessage, rc)]
    }

    /** Writes the release if there is time. */
    method WriteRelease()
      requires Sound() && Noted() && !r.childReaped && (r.live.complete ==> At(kernel.s, 5))
      modifies this`r, kernel`s, kernel`now, kernel`seen, kernel`smooth
      ensures Sound() && Noted() && old(kernel.now) <= kernel.now && r == old(r).(timedOut := r.timedOut)
      ensures kernel.smooth ==> old(kernel.smooth) && r == old(r)
      ensures |kernel.seen.readings| == |old(kernel.seen.readings)| + 1
      ensures if kernel.seen.readings[|old(kernel.seen.readings)|] < deadline then ReleaseTried(old(kernel.seen))
              else kernel.seen.writes == old(kernel.seen.writes) && deadline <= kernel.now
    {
      var t := kernel.Now();
      ClockStep(r, old(kernel.seen), deadline, t);
      PeaksStay(r, old(kernel.s), kernel.s, kernel.held);
      if t < deadline {
        SendRelease();
      }
    }

    method SendRelease()
      requires Sound() && Noted() && !r.childReaped && (r.live.complete ==> At(kernel.s, 5))
      modifies this`r, kernel`s, kernel`now, kernel`seen, kernel`smooth
      ensures Sound() && Noted() && old(kernel.now) <= kernel.now && r == old(r).(timedOut := r.timedOut)
      ensures kernel.smooth ==> old(kernel.smooth) && r == old(r)
      ensures kernel.seen.readings == old(kernel.seen).readings && ReleaseTried(old(kernel.seen))
    {
      PeaksMean(r, kernel.s, kernel.held);
      var rc, before, noise := kernel.WriteFrame(ReleaseMessage, deadline);
      WroteStep(r, old(kernel.seen), deadline, ReleaseMessage, rc);
      if rc == TIMED_OUT {
        r := r.(timedOut := true);
      }
    }

    // ------------------------------------------------------------------ handshake

    /** The handshake ends before the live sample. */
    method Stop(late: bool, detail: Detail)
      requires Sound() && !r.live.complete && !AboutPeaks(detail) && (late ==> deadline <= kernel.now)
      requires Recorded(r.(timedOut := r.timedOut || late, detail := detail), kernel.seen, deadline)
      modifies this`r
      ensures Sound() && Noted() && !r.live.complete && r == old(r).(timedOut := r.timedOut, detail := detail)
    {
      r := r.(timedOut := late || r.timedOut, detail := detail);
    }

    /** Frames were read so many times, and nothing was written, nor the clock read. */
    ghost predicate FramesRead(n: nat)
      reads kernel`seen
    {
      |kernel.seen.heard| == n && kernel.seen.writes == [] && kernel.seen.readings == []
    }

    /** The live sample, of a child that has not been reaped. */
    method TakeLive(value: nat)
      requires Sound() && Noted() && !r.childReaped && !r.live.complete && !r.killFailed && kernel.held
      requires r.baseline.complete && !AboutPeaks(r.detail)
      requires At(kernel.s, 4) && kernel.s.rss == value && kernel.s.base == r.baseline.peak
      requires r.baseline.queried && !r.live.queried
      requires |kernel.seen.heard| == 2 && kernel.seen.heard[1] == (0, DoneMessage(value))
      modifies this`r, kernel`s, kernel`now, kernel`seen, kernel`smooth
      ensures Sound() && Noted() && (r.live.complete ==> At(kernel.s, 5))
      ensures kernel.smooth ==> old(kernel.smooth)
      ensures kernel.smooth ==> r.live.complete && OnlyMeasured(old(r), r)
      ensures r.baseline == old(r).baseline
      ensures Told(r.detail)
    {
      var sample, before := kernel.QueryBasic();
      AnswerKeeps(before, Shown(sample));
      var detail := JudgeLive(sample, value);
      LiveStep(r, old(kernel.seen), deadline, sample, value, detail);
      r := r.(childRss := Some(value), live := sample, detail := detail);
    }

    /** What is said of the live sample. */
    method JudgeLive(sample: Sample, value: nat) returns (detail: Detail)
      ensures detail == if sample.complete then LiveDetail(r.(live := sample, childRss := Some(value)))
                        else CounterIncomplete
    {
      if !sample.complete {
        detail := CounterIncomplete;
      } else if sample.peak == 0 {
        detail := ZeroPeak;
      } else if sample.peak < r.baseline.peak {
        detail := PeakDecreased;
      } else if sample.size <= r.baseline.size {
        detail := AllocationNotObserved;
      } else if value < r.baseline.peak || value > sample.peak {
        detail := PeakOutOfOrder;
      } else {
        detail := Fine;
      }
    }

    method AwaitDone()
      requires Sound() && Noted() && !r.childReaped && !r.live.complete && !r.killFailed && kernel.held
      requires r.baseline.complete && !AboutPeaks(r.detail)
      requires At(kernel.s, 3) && kernel.s.base == r.baseline.peak
      requires r.baseline.queried && !r.live.queried && |kernel.seen.heard| == 1 && kernel.kills == 0
      modifies this`r, kernel`s, kernel`now, kernel`reaped, kernel`interrupts, kernel`reaps, kernel`seen, kernel`smooth
      ensures Sound() && Noted() && (r.live.complete && !r.childReaped ==> At(kernel.s, 5))
      ensures kernel.smooth ==> old(kernel.smooth)
      ensures r.baseline.queried
      ensures kernel.smooth && r.child > 1 ==> r.live.complete && OnlyMeasured(old(r), r)
      ensures r.child > 1 ==> Told(r.detail)
    {
      var rc, m, before := kernel.ReadFrame(deadline);
      HearKeeps(before);
      if rc == TIMED_OUT {
        HeardLate(r, old(kernel.seen), deadline, m);
        Stop(true, Timeout);
      } else if rc != 0 || !m.DoneMessage? {
        HeardBadly(r, old(kernel.seen), deadline, rc, m);
        Stop(false, HandshakeFailed);
      } else {
        HeardStep(r, old(kernel.seen), deadline, rc, m);
        AfterDone(m.rss);
      }
    }

    method AfterDone(value: nat)
      requires Sound() && Noted() && !r.childReaped && !r.live.complete && !r.killFailed && kernel.held
      requires r.baseline.complete && !AboutPeaks(r.detail) && r.baseline.queried && !r.live.queried
      requires At(kernel.s, 4) && kernel.s.rss == value && kernel.s.base == r.baseline.peak
      requires |kernel.seen.heard| == 2 && kernel.seen.heard[1] == (0, DoneMessage(value)) && kernel.kills == 0
      modifies this`r, kernel`s, kernel`now, kernel`reaped, kernel`interrupts, kernel`reaps, kernel`seen, kernel`smooth
      ensures Sound() && Noted() && (r.live.complete && !r.childReaped ==> At(kernel.s, 5))
      ensures kernel.smooth ==> old(kernel.smooth)
      ensures r.baseline.queried
      ensures kernel.smooth && r.child > 1 ==> r.live.complete && OnlyMeasured(old(r), r)
      ensures r.child > 1 ==> Told(r.detail)
    {
      var still := StillUnreaped();
      if still {
        TakeLive(value);
      } else if r.detail == NoDetail {
        NotThere(r, kernel.seen, deadline);
        Stop(false, ChildExitedEarly);
      }
    }

    method OrderMemory()
      requires Sound() && Noted() && !r.childReaped && !r.live.complete && !r.killFailed && kernel.held
      requires r.baseline.complete && !AboutPeaks(r.detail)
      requires At(kernel.s, 2) && kernel.s.base == r.baseline.peak
      requires r.baseline.queried && !r.live.queried && FramesRead(1) && kernel.kills == 0
      modifies this`r, kernel`s, kernel`now, kernel`reaped, kernel`interrupts, kernel`reaps, kernel`seen, kernel`smooth
      ensures Sound() && Noted() && (r.live.complete && !r.childReaped ==> At(kernel.s, 5))
      ensures kernel.smooth ==> old(kernel.smooth)
      ensures r.baseline.queried
      ensures kernel.smooth && r.child > 1 ==> r.live.complete && OnlyMeasured(old(r), r)
      ensures r.child > 1 ==> Told(r.detail)
    {
      var rc, before, noise := kernel.WriteFrame(AllocMessage, deadline);
      if rc == 0 {
        WroteStep(r, old(kernel.seen), deadline, AllocMessage, rc);
        AwaitDone();
        return;
      }
      LoseOrder(rc, old(kernel.seen));
    }

    /** The order to allocate could not be written; `k` was before that. */
    method LoseOrder(rc: int, ghost k: Seen)
      requires Sound() && !r.live.complete && rc != 0 && (rc == TIMED_OUT ==> deadline <= kernel.now)
      requires Recorded(r, k, deadline) && k.writes == [] && k.readings == []
      requires kernel.seen == k.(writes := k.writes + [(AllocMessage, rc)])
      modifies this`r, kernel`s, kernel`now, kernel`seen
      ensures Sound() && Noted() && !r.live.complete && r.baseline == old(r).baseline
      ensures Told(r.detail)
    {
      var first := kernel.Now();
      var second := kernel.Now();
      OrderLostStep(r, k, deadline, rc, first, second);
      Stop(second >= deadline, if first >= deadline then Timeout else HandshakeFailed);
    }

    method TakeBaseline()
      requires Sound() && Noted() && !r.childReaped && !r.live.complete && !r.killFailed && kernel.held
      requires !AboutPeaks(r.detail) && At(kernel.s, 1)
      requires !r.baseline.queried && !r.live.queried && FramesRead(1) && kernel.kills == 0
      modifies this`r, kernel`s, kernel`now, kernel`reaped, kernel`interrupts, kernel`reaps, kernel`seen, kernel`smooth
      ensures Sound() && Noted() && (r.live.complete && !r.childReaped ==> At(kernel.s, 5))
      ensures kernel.smooth ==> old(kernel.smooth)
      ensures r.baseline.queried
      ensures kernel.smooth && r.child > 1 ==> r.live.complete && OnlyMeasured(old(r), r)
      ensures r.child > 1 ==> Told(r.detail)
    {
      var sample, before := kernel.QueryBasic();
      BaselineStep(r, old(kernel.seen), deadline, sample);
      r := r.(baseline := sample);
      if !sample.complete {
        r := r.(detail := CounterIncomplete);
        return;
      }
      OrderMemory();
    }

    /** Both samples were taken through a name port, and nothing went wrong. */
    ghost predicate AllTaken(before: Run)
      reads this
    {
      && r.live.complete && portHeld && r.nameKr == Some(0) && !r.namePortIsNull
      && OnlyMeasured(before.(nameKr := Some(0), namePortIsNull := false), r)
    }

    method NamePort()
      requires Sound() && Noted() && !r.childReaped && !r.live.complete && !r.killFailed && !kernel.held && kernel.kills == 0
      requires !AboutPeaks(r.detail) && At(kernel.s, 1) && kernel.grants == 0
      requires r.nameKr.None? && r.deallocKr.None? && !r.baseline.queried && !r.live.queried && FramesRead(1)
      modifies this, kernel
      ensures Sound() && Noted() && (r.live.complete && !r.childReaped ==> At(kernel.s, 5))
      ensures kernel.grants <= 1 && kernel.kills == 0 && (portHeld ==> r.baseline.queried)
      ensures kernel.smooth ==> old(kernel.smooth)
      ensures kernel.smooth && r.child > 1 ==> AllTaken(old(r))
      ensures r.child > 1 ==> Told(r.detail)
    {
      var kr, absent := kernel.TaskNameForPid();
      NameStep(r, old(kernel.seen), deadline, kr, absent);
      r := r.(nameKr := Some(kr), namePortIsNull := absent);
      portHeld := !absent;
      if kr != 0 || absent {
        RejectPort(absent);
      } else {
        TakeBaseline();
      }
    }

    /** The answer about the name port was refused; a port that came with it goes back. */
    method RejectPort(absent: bool)
      requires Sound() && !r.live.complete && portHeld == !absent && r.deallocKr.None?
      requires Recorded(r.(detail := NamePortRejected), kernel.seen, deadline)
      modifies this, kernel
      ensures Sound() && Noted() && !r.live.complete && !portHeld
      ensures kernel.grants == old(kernel.grants) && kernel.kills == old(kernel.kills)
      ensures kernel.smooth ==> old(kernel.smooth)
      ensures Told(r.detail)
    {
      r := r.(detail := NamePortRejected);
      if !absent {
        GiveBack();
      }
    }

    method Handshake()
      requires Sound() && Noted() && !r.childReaped && !r.live.complete && !r.killFailed && !kernel.held && kernel.kills == 0
      requires !AboutPeaks(r.detail) && At(kernel.s, 0) && kernel.grants == 0
      requires r.nameKr.None? && r.deallocKr.None? && !r.baseline.queried && !r.live.queried && FramesRead(0)
      modifies this, kernel
      ensures Sound() && Noted() && (r.live.complete && !r.childReaped ==> At(kernel.s, 5))
      ensures kernel.grants <= 1 && kernel.kills == 0 && (portHeld ==> r.baseline.queried)
      ensures kernel.smooth ==> old(kernel.smooth)
      ensures kernel.smooth && r.child > 1 ==> AllTaken(old(r))
      ensures r.child > 1 ==> Told(r.detail)
    {
      var rc, m, before := kernel.ReadFrame(deadline);
      HearKeeps(before);
      if rc == TIMED_OUT {
        HeardLate(r, old(kernel.seen), deadline, m);
        Stop(true, Timeout);
      } else if rc != 0 || m != ReadyMessage {
        HeardBadly(r, old(kernel.seen), deadline, rc, m);
        Stop(false, HandshakeFailed);
      } else {
        HeardStep(r, old(kernel.seen), deadline, rc, m);
        AfterReady();
      }
    }

    method AfterReady()
      requires Sound() && Noted() && !r.childReaped && !r.live.complete && !r.killFailed && !kernel.held && kernel.kills == 0
      requires !AboutPeaks(r.detail) && At(kernel.s, 1) && kernel.grants == 0
      requires r.nameKr.None? && r.deallocKr.None? && !r.baseline.queried && !r.live.queried && FramesRead(1)
      modifies this, kernel
      ensures Sound() && Noted() && (r.live.complete && !r.childReaped ==> At(kernel.s, 5))
      ensures kernel.grants <= 1 && kernel.kills == 0 && (portHeld ==> r.baseline.queried)
      ensures kernel.smooth ==> old(kernel.smooth)
      ensures kernel.smooth && r.child > 1 ==> AllTaken(old(r))
      ensures r.child > 1 ==> Told(r.detail)
    {
      var still := StillUnreaped();
      if still {
        NamePort();
      } else if r.detail == NoDetail {
        NotThere(r, kernel.seen, deadline);
        Stop(false, ChildExitedEarly);
      }
    }

    // ------------------------------------------------------------------- the end

    /** After the port was dropped. */
    ghost predicate Over()
      reads this, kernel
    {
      && Basic() && !kernel.held
      && (Confirms(r) ==> SamePeaks(r, kernel.s) && kernel.s.stage == 9 && kernel.s.post == Shown(r.post))
    }

    /** A last query of a child that was reaped. */
    method QueryOnceMore()
      requires Sound() && Noted() && r.childReaped && kernel.held && r.baseline.queried
      modifies this`r, kernel`s, kernel`now, kernel`seen, kernel`smooth
      ensures Basic() && Noted() && r.childReaped && kernel.held
      ensures Confirms(r) ==> SamePeaks(r, kernel.s) && kernel.s.stage == 8 && kernel.s.post == Shown(r.post)
      ensures r == old(r).(post := r.post) && (kernel.smooth ==> old(kernel.smooth)) && portHeld == old(portHeld)
      ensures old(kernel.now) <= kernel.now
    {
      PeaksMean(r, kernel.s, kernel.held);
      var sample, before := kernel.QueryBasic();
      PostStep(r, old(kernel.seen), deadline, sample);
      r := r.(post := sample);
    }

    method DropPort()
      requires Sound() && Noted() && (portHeld ==> r.baseline.queried)
      modifies this`r, this`portHeld, kernel`s, kernel`now, kernel`held, kernel`drops, kernel`seen, kernel`smooth
      ensures Over() && Noted()
      ensures kernel.smooth ==> old(kernel.smooth)
      ensures kernel.smooth && old(portHeld) ==>
                r == old(r).(post := r.post, deallocKr := Some(0), deallocOk := true)
      ensures old(kernel.now) <= kernel.now
      ensures r.detail == old(r).detail
    {
      PeaksMean(r, kernel.s, kernel.held);
      if !portHeld {
        if r.deallocKr.None? {
          RecordedMeans(r, kernel.seen, deadline);
          r := r.(deallocOk := true);
        }
        return;
      }
      if r.childReaped {
        QueryOnceMore();
      }
      GiveBack();
    }

    method GiveBack()
      requires Basic() && Noted() && kernel.held
      requires Confirms(r) ==> SamePeaks(r, kernel.s) && kernel.s.stage == 8 && kernel.s.post == Shown(r.post)
      modifies this`r, this`portHeld, kernel`s, kernel`now, kernel`held, kernel`drops, kernel`seen, kernel`smooth
      ensures Over() && Noted() && !portHeld
      ensures exists kr :: r == old(r).(deallocKr := Some(kr), deallocOk := kr == 0)
      ensures kernel.smooth ==> old(kernel.smooth) && r == old(r).(deallocKr := Some(0), deallocOk := true)
      ensures old(kernel.now) <= kernel.now
    {
      var kr, held := kernel.Deallocate();
      DropStep(r, old(kernel.seen), deadline, kr);
      portHeld := false;
      r := r.(deallocKr := Some(kr), deallocOk := kr == 0);
    }

    /** A reaped child is asked for once more. Any answer but that there is none fails
        the run. */
    method ConfirmReap()
      requires Over() && Noted()
      modifies this`r, kernel`s, kernel`now, kernel`reaped, kernel`interrupts, kernel`reaps, kernel`seen, kernel`smooth
      ensures Over() && Noted()
      ensures r.child <= 1 || !old(r).childReaped ==> r == old(r) && kernel.seen.waits == old(kernel.seen.waits)
      ensures r.child > 1 && old(r).childReaped ==>
                && |kernel.seen.waits| == |old(kernel.seen.waits)| + 1
                && r == if LastAnswer().NoChild? then old(r) else old(r).(killFailed := true, detail := ReapNotConfirmed)
      ensures kernel.smooth ==> old(kernel.smooth) && (old(r).childReaped ==> r == old(r))
      ensures old(kernel.now) <= kernel.now
    {
      if r.child > 1 && r.childReaped {
        var again, before := kernel.WaitNoHang();
        Confirmation(r, old(kernel.seen), deadline, again);
        if !again.NoChild? {
          r := r.(killFailed := true, detail := ReapNotConfirmed);
        }
      }
    }

    ghost function LastAnswer(): Wait
      reads kernel
    {
      if kernel.seen.waits == [] then NotYet else kernel.seen.waits[|kernel.seen.waits| - 1]
    }

    /** What a run without a port comes to. */
    method Conclude() returns (outcome: Outcome, code: int)
      requires Over() && Noted()
      modifies this`r, kernel`s, kernel`now, kernel`reaped, kernel`interrupts, kernel`reaps, kernel`seen, kernel`smooth
      ensures Over() && Noted() && outcome == Decide(r) && code == ExitFor(outcome)
      ensures outcome == LiveCounterOk ==>
                && r.detail == Fine && r.childRss.Some?
                && kernel.s.log == Accepted(r.baseline.peak, r.childRss.value, r.live.peak, Shown(r.post))
      ensures kernel.s.honest ==>
                && outcome != ChildPeakOutOfOrder && r.detail != PeakOutOfOrder && r.detail != PeakDecreased
                && (outcome == PeakOrAllocationCheckFailed ==> r.live.size <= r.baseline.size)
      ensures outcome != ChildOrCleanupFailure && r.child > 1 ==> LastAnswer().NoChild?
      ensures old(kernel.now) <= kernel.now
      ensures kernel.smooth ==> old(kernel.smooth)
      ensures kernel.smooth && FullyMeasured(old(r)) && old(r).deallocOk ==>
                FullyMeasured(r) && outcome == OutcomeOf(LiveDetail(r))
      ensures r.detail == old(r).detail || r.detail == ReapNotConfirmed
    {
      ConfirmReap();
      outcome := Decide(r);
      Verdict(r, kernel.s);
      code := ExitFor(outcome);
      if FullyMeasured(r) && r.deallocOk {
        DecideMeasured(r);
      }
    }

    /** The handshake, the release and the reap. */
    method Measure()
      requires Sound() && Noted() && r == INITIAL_RUN.(child := kernel.pid)
      requires kernel.s == Initial(kernel.s.honest) && kernel.grants == kernel.kills == 0 && FramesRead(0)
      modifies this, kernel
      ensures Sound() && Noted() && kernel.grants <= 1 && kernel.kills <= 1 && (portHeld ==> r.baseline.queried)
      ensures kernel.smooth && kernel.now < deadline && kernel.pid > 1 ==> FullyMeasured(r) && portHeld
      ensures r.child > 1 ==> Told(r.detail)
    {
      Handshake();
      ReleaseAndReap();
    }

    /** The whole run of the parent, whatever the child, the kernel and the clock do. If no
        call is answered in a way that ends the run early, and the deadline is not reached,
        the run measures, and the outcome is what the two samples and the child's reading
        say. */
    method Probe() returns (outcome: Outcome, code: int)
      requires Sound() && Noted() && r == INITIAL_RUN.(child := kernel.pid)
      requires kernel.s == Initial(kernel.s.honest) && kernel.grants == kernel.kills == 0 && kernel.seen == NOTHING_SEEN
      modifies this, kernel
      ensures Recorded(r, kernel.seen, deadline)
      ensures outcome == NamePortDenied <==>
                CleanEnd(kernel.seen, deadline) && kernel.seen.names != [] && kernel.seen.names[0].0 != 0
      ensures outcome == ChildOrCleanupFailure <==> !CleanEnd(kernel.seen, deadline) || kernel.seen.names == []
      ensures RunOk(r) && outcome == Decide(r) && code == ExitFor(outcome)
      ensures outcome == LiveCounterOk ==>
                && r.detail == Fine && r.childRss.Some?
                && kernel.s.log == Accepted(r.baseline.peak, r.childRss.value, r.live.peak, Shown(r.post))
      ensures kernel.s.honest ==>
                && outcome != ChildPeakOutOfOrder && r.detail != PeakOutOfOrder && r.detail != PeakDecreased
                && (outcome == PeakOrAllocationCheckFailed ==> r.live.size <= r.baseline.size)
      ensures !kernel.held && kernel.drops == kernel.grants <= 1
      ensures kernel.reaps <= 1 && kernel.kills <= 1 && (r.childReaped <==> kernel.reaps == 1)
      ensures r.timedOut ==> deadline <= kernel.now
      ensures outcome != ChildOrCleanupFailure && r.child > 1 ==> LastAnswer().NoChild?
      ensures kernel.smooth && kernel.now < deadline && kernel.pid > 1 ==>
                r.live.complete && outcome == OutcomeOf(LiveDetail(r))
      ensures r.child > 1 ==> Told(r.detail)
    {
      Measure();
      DropPort();
      outcome, code := Conclude();
      OutcomeFromAnswers(r, kernel.seen, deadline);
    }
  }
}
