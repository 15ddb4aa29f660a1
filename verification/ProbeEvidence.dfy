/** The record of a residency probe against the kernel's answers: every field that decides
    the outcome is what the answers say, whatever course the run took. */
module ProbeEvidence {
  import opened Common
  import opened ProbeRecord
  import opened ProbeChild
  import opened ProbeKernel

  function Taken(s: Sample): seq<Sample> {
    if s.queried then [s] else []
  }

  /** The status with which the child was reaped. */
  function StatusIn(waits: seq<Wait>): Option<nat> {
    if waits == [] then None else
      var before, last := StatusIn(waits[..|waits| - 1]), waits[|waits| - 1];
      if before.Some? then before else if last.Child? then Some(last.status) else None
  }

  /** Some wait failed before the kill, if there was one, or the child was still found after
      it had been reaped. */
  predicate Troubled(waits: seq<Wait>, kill: Option<nat>) {
    waits != [] &&
    var n := |waits| - 1;
    || Troubled(waits[..n], kill)
    || if StatusIn(waits[..n]).Some? then !waits[n].NoChild?
       else (kill.None? || n < kill.value) && (waits[n].NoChild? || waits[n].OtherError?)
  }

  function KillAt(k: Seen): Option<nat> {
    if k.kills == [] then None else Some(k.kills[0].1)
  }

  /** The child could not be waited for or signalled, or was found after it was reaped. */
  predicate Unmanageable(k: Seen) {
    (k.kills != [] && k.kills[0].0.Refused?) || Troubled(k.waits, KillAt(k))
  }

  /** The order to allocate could not be written. */
  predicate OrderLost(k: Seen) {
    k.writes != [] && k.writes[0].0 == AllocMessage && k.writes[0].1 != 0
  }

  predicate ReadLate(k: Seen) {
    exists i :: 0 <= i < |k.heard| && k.heard[i].0 == TIMED_OUT
  }

  /** A frame came or went too late, the child had to be killed, or the order to allocate
      was lost and the second reading of the clock after that was too late. */
  predicate RanLate(k: Seen, deadline: int) {
    || k.kills != []
    || ReadLate(k)
    || (exists i :: 0 <= i < |k.writes| && k.writes[i].1 == TIMED_OUT)
    || (OrderLost(k) && |k.readings| >= 2 && k.readings[1] >= deadline)
  }

  /** A frame that was not the one waited for, or did not come. */
  predicate Misheard(heard: seq<(int, Message)>) {
    exists i :: 0 <= i < |heard| && heard[i].0 != TIMED_OUT
                && (heard[i].0 != 0 || if i == 0 then heard[i].1 != ReadyMessage else !heard[i].1.DoneMessage?)
  }

  /** What is said of the run has its ground in the answers. */
  predicate DetailFits(r: Run, k: Seen, deadline: int) {
    match r.detail
    case Timeout => ReadLate(k) || (OrderLost(k) && k.readings != [] && k.readings[0] >= deadline)
    case HandshakeFailed => Misheard(k.heard) || (OrderLost(k) && k.readings != [] && k.readings[0] < deadline)
    case ChildExitedEarly => r.child <= 1 || StatusIn(k.waits).Some?
    case NotOurChild => Unmanageable(k)
    case KillFailed => k.kills != [] && k.kills[0].0.Refused?
    case NamePortRejected => k.names != [] && (k.names[0].0 != 0 || k.names[0].1)
    case CounterIncomplete => (r.baseline.queried && !r.baseline.complete) || (r.live.queried && !r.live.complete)
    case ReapNotConfirmed => StatusIn(k.waits).Some? && Unmanageable(k)
    case _ => true
  }

  /** Something is said of the run that is not from before it began. */
  predicate Told(d: Detail) {
    !d.NoDetail? && !d.ForkFailed? && !d.PipeFailed?
  }

  datatype Part = OfDetail | OfName | OfSamples | OfReading | OfDrop | OfStatus | OfTime | OfFailure

  /** One part of the record is what the kernel answered. */
  predicate Tied(r: Run, k: Seen, deadline: int, part: Part) {
    match part
    case OfDetail => DetailFits(r, k, deadline)
    case OfName =>
      if k.names == [] then r.nameKr.None? && !r.namePortIsNull
      else |k.names| == 1 && r.nameKr == Some(k.names[0].0) && r.namePortIsNull == k.names[0].1
    case OfSamples =>
      && k.samples == Taken(r.baseline) + Taken(r.live) + Taken(r.post)
      && (!r.baseline.queried ==> r.baseline == NO_SAMPLE && r.live == NO_SAMPLE && r.post == NO_SAMPLE)
      && (!r.live.queried ==> r.live == NO_SAMPLE) && (!r.post.queried ==> r.post == NO_SAMPLE)
    case OfReading =>
      && (r.childRss.Some? <==> r.live.queried)
      && (r.childRss.Some? ==> |k.heard| == 2 && k.heard[1] == (0, DoneMessage(r.childRss.value)))
    case OfDrop =>
      && k.dropped == (if r.deallocKr.Some? then [r.deallocKr.value] else [])
      && (r.deallocOk <==> r.deallocKr.None? || r.deallocKr == Some(0))
    case OfStatus => r.status == StatusIn(k.waits)
    case OfTime => (OrderLost(k) ==> |k.readings| >= 2) && (r.timedOut <==> RanLate(k, deadline))
    case OfFailure =>
      && (k.kills == [] || (|k.kills| == 1 && k.kills[0].1 <= |k.waits|))
      && (r.killFailed <==> Unmanageable(k))
  }

  /** The whole record is. The parts are behind a quantifier, so that a call of the parent
      only hands this on; `RecordedMeans` names them. */
  ghost predicate Recorded(r: Run, k: Seen, deadline: int) {
    forall part: Part :: Tied(r, k, deadline, part)
  }

  lemma RecordedMeans(r: Run, k: Seen, deadline: int)
    requires Recorded(r, k, deadline)
    ensures Tied(r, k, deadline, OfName) && Tied(r, k, deadline, OfSamples) && Tied(r, k, deadline, OfReading)
    ensures Tied(r, k, deadline, OfDrop) && Tied(r, k, deadline, OfStatus) && Tied(r, k, deadline, OfTime)
    ensures Tied(r, k, deadline, OfFailure) && Tied(r, k, deadline, OfDetail)
  {
  }

  /** Other words for the same run. */
  lemma InOtherWords(r: Run, s: Run, k: Seen, deadline: int)
    requires Recorded(r, k, deadline) && s == r.(detail := s.detail, childReaped := s.childReaped)
    requires DetailFits(s, k, deadline)
    ensures Recorded(s, k, deadline)
  {
    RecordedMeans(r, k, deadline);
  }

  /** A child that is not there, or not any more. */
  lemma NotThere(r: Run, k: Seen, deadline: int)
    requires Recorded(r, k, deadline) && (r.child <= 1 || r.status.Some?)
    ensures Recorded(r.(detail := ChildExitedEarly), k, deadline)
  {
    RecordedMeans(r, k, deadline);
    InOtherWords(r, r.(detail := ChildExitedEarly), k, deadline);
  }

  lemma NameStep(r: Run, k: Seen, deadline: int, kr: int, absent: bool)
    requires Recorded(r, k, deadline) && r.nameKr.None?
    ensures Recorded(r.(nameKr := Some(kr), namePortIsNull := absent), k.(names := k.names + [(kr, absent)]), deadline)
    ensures kr != 0 || absent ==> Recorded(
        r.(nameKr := Some(kr), namePortIsNull := absent, detail := NamePortRejected),
        k.(names := k.names + [(kr, absent)]), deadline)
  {
    RecordedMeans(r, k, deadline);
  }

  lemma BaselineStep(r: Run, k: Seen, deadline: int, sample: Sample)
    requires Recorded(r, k, deadline) && !r.baseline.queried && sample.queried
    ensures Recorded(r.(baseline := sample), k.(samples := k.samples + [sample]), deadline)
    ensures !sample.complete ==>
      Recorded(r.(baseline := sample, detail := CounterIncomplete), k.(samples := k.samples + [sample]), deadline)
  {
    RecordedMeans(r, k, deadline);
  }

  lemma LiveStep(r: Run, k: Seen, deadline: int, sample: Sample, rss: nat, detail: Detail)
    requires Recorded(r, k, deadline) && r.baseline.queried && !r.live.queried && !r.post.queried && sample.queried
    requires |k.heard| == 2 && k.heard[1] == (0, DoneMessage(rss))
    requires if sample.complete then AboutPeaks(detail) else detail == CounterIncomplete
    ensures Recorded(
        r.(live := sample, childRss := Some(rss), detail := detail), k.(samples := k.samples + [sample]), deadline)
  {
    RecordedMeans(r, k, deadline);
  }

  lemma PostStep(r: Run, k: Seen, deadline: int, sample: Sample)
    requires Recorded(r, k, deadline) && r.baseline.queried && !r.post.queried && sample.queried
    ensures Recorded(r.(post := sample), k.(samples := k.samples + [sample]), deadline)
  {
    RecordedMeans(r, k, deadline);
  }

  lemma HeardStep(r: Run, k: Seen, deadline: int, rc: int, m: Message)
    requires Recorded(r, k, deadline) && !r.live.queried
    ensures Recorded(
        r.(timedOut := r.timedOut || rc == TIMED_OUT), k.(heard := k.heard + [(rc, m)]), deadline)
  {
    var s, more := r.(timedOut := r.timedOut || rc == TIMED_OUT), k.(heard := k.heard + [(rc, m)]);
    RecordedMeans(r, k, deadline);
    HearIsLate(k.heard, rc, m);
    StillMisheard(k.heard, rc, m);
    assert DetailFits(s, more, deadline);
  }

  /** A frame came too late. */
  lemma HeardLate(r: Run, k: Seen, deadline: int, m: Message)
    requires Recorded(r, k, deadline) && !r.live.queried
    ensures Recorded(
        r.(timedOut := true, detail := Timeout), k.(heard := k.heard + [(TIMED_OUT, m)]), deadline)
  {
    var more := k.(heard := k.heard + [(TIMED_OUT, m)]);
    HeardStep(r, k, deadline, TIMED_OUT, m);
    HearIsLate(k.heard, TIMED_OUT, m);
    InOtherWords(r.(timedOut := true), r.(timedOut := true, detail := Timeout), more, deadline);
  }

  /** A frame did not come, or another one did. */
  lemma HeardBadly(r: Run, k: Seen, deadline: int, rc: int, m: Message)
    requires Recorded(r, k, deadline) && !r.live.queried && rc != TIMED_OUT
    requires rc != 0 || if k.heard == [] then m != ReadyMessage else !m.DoneMessage?
    ensures Recorded(r.(detail := HandshakeFailed), k.(heard := k.heard + [(rc, m)]), deadline)
  {
    var more := k.(heard := k.heard + [(rc, m)]);
    HeardStep(r, k, deadline, rc, m);
    assert more.heard[|k.heard|] == (rc, m);
    InOtherWords(r, r.(detail := HandshakeFailed), more, deadline);
  }

  lemma StillMisheard(heard: seq<(int, Message)>, rc: int, m: Message)
    ensures Misheard(heard) ==> Misheard(heard + [(rc, m)])
  {
    if Misheard(heard) {
      var i :| 0 <= i < |heard| && heard[i].0 != TIMED_OUT
               && (heard[i].0 != 0 || if i == 0 then heard[i].1 != ReadyMessage else !heard[i].1.DoneMessage?);
      assert (heard + [(rc, m)])[i] == heard[i];
    }
  }

  lemma HearIsLate(heard: seq<(int, Message)>, rc: int, m: Message)
    ensures (exists i :: 0 <= i < |heard + [(rc, m)]| && (heard + [(rc, m)])[i].0 == TIMED_OUT)
       <==> (exists i :: 0 <= i < |heard| && heard[i].0 == TIMED_OUT) || rc == TIMED_OUT
  {
    var more := heard + [(rc, m)];
    assert more[|heard|] == (rc, m);
    if i :| 0 <= i < |heard| && heard[i].0 == TIMED_OUT {
      assert more[i].0 == TIMED_OUT;
    }
  }

  lemma WriteIsLate(writes: seq<(Message, int)>, m: Message, rc: int)
    ensures (exists i :: 0 <= i < |writes + [(m, rc)]| && (writes + [(m, rc)])[i].1 == TIMED_OUT)
       <==> (exists i :: 0 <= i < |writes| && writes[i].1 == TIMED_OUT) || rc == TIMED_OUT
  {
    var more := writes + [(m, rc)];
    assert more[|writes|] == (m, rc);
    if i :| 0 <= i < |writes| && writes[i].1 == TIMED_OUT {
      assert more[i].1 == TIMED_OUT;
    }
  }

  lemma WroteStep(r: Run, k: Seen, deadline: int, m: Message, rc: int)
    requires Recorded(r, k, deadline) && (m == AllocMessage && rc != 0 ==> k.writes != [])
    ensures Recorded(
        r.(timedOut := r.timedOut || rc == TIMED_OUT), k.(writes := k.writes + [(m, rc)]), deadline)
  {
    RecordedMeans(r, k, deadline);
    WriteIsLate(k.writes, m, rc);
  }

  /** The order to allocate failed, and the clock was read twice after that. */
  lemma OrderLostStep(r: Run, k: Seen, deadline: int, rc: int, first: int, second: int)
    requires Recorded(r, k, deadline) && k.writes == [] && k.readings == []
    requires rc != 0 && (rc == TIMED_OUT ==> second >= deadline)
    ensures Recorded(
        r.(timedOut := r.timedOut || second >= deadline, detail := if first >= deadline then Timeout else HandshakeFailed),
        k.(writes := k.writes + [(AllocMessage, rc)], readings := k.readings + [first] + [second]), deadline)
  {
    RecordedMeans(r, k, deadline);
    WriteIsLate(k.writes, AllocMessage, rc);
  }

  lemma ClockStep(r: Run, k: Seen, deadline: int, t: int)
    requires Recorded(r, k, deadline)
    ensures Recorded(r, k.(readings := k.readings + [t]), deadline)
  {
    RecordedMeans(r, k, deadline);
  }

  lemma DropStep(r: Run, k: Seen, deadline: int, kr: int)
    requires Recorded(r, k, deadline) && r.deallocKr.None?
    ensures Recorded(r.(deallocKr := Some(kr), deallocOk := kr == 0), k.(dropped := k.dropped + [kr]), deadline)
  {
    RecordedMeans(r, k, deadline);
  }

  /** What an answer of waitpid changes in the record. */
  function AfterWait(r: Run, k: Seen, w: Wait): Run {
    if r.status.Some? then
      r.(killFailed := r.killFailed || !w.NoChild?)
    else if w.Child? then
      r.(status := Some(w.status), childReaped := true)
    else
      r.(killFailed := r.killFailed || (k.kills == [] && (w.NoChild? || w.OtherError?)))
  }

  lemma WaitNext(waits: seq<Wait>, w: Wait, kill: Option<nat>)
    requires kill.None? || kill.value <= |waits|
    ensures StatusIn(waits + [w])
         == if StatusIn(waits).Some? then StatusIn(waits) else if w.Child? then Some(w.status) else None
    ensures Troubled(waits + [w], kill)
       <==> Troubled(waits, kill)
            || if StatusIn(waits).Some? then !w.NoChild? else kill.None? && (w.NoChild? || w.OtherError?)
  {
    var more := waits + [w];
    assert more[..|more| - 1] == waits && more[|more| - 1] == w;
  }

  /** A wait has nothing to do with the other parts. */
  lemma BesideWaits(r: Run, k: Seen, s: Run, more: Seen, deadline: int, part: Part)
    requires Tied(r, k, deadline, part) && part != OfStatus && part != OfFailure && part != OfDetail
    requires s == r.(status := s.status, childReaped := s.childReaped, killFailed := s.killFailed)
    requires more == k.(waits := more.waits)
    ensures Tied(s, more, deadline, part)
  {
  }

  lemma WaitStep(r: Run, k: Seen, deadline: int, w: Wait)
    requires Recorded(r, k, deadline)
    ensures Recorded(AfterWait(r, k, w), k.(waits := k.waits + [w]), deadline)
  {
    var s, more := AfterWait(r, k, w), k.(waits := k.waits + [w]);
    forall part: Part ensures Tied(s, more, deadline, part) {
      assert Tied(r, k, deadline, OfStatus) && Tied(r, k, deadline, OfFailure) && Tied(r, k, deadline, OfDetail);
      assert Tied(r, k, deadline, part);
      if part == OfDetail {
        DetailStep(r, k, deadline, w);
      } else if part == OfStatus || part == OfFailure {
        FailureStep(r, k, deadline, w);
      } else {
        BesideWaits(r, k, s, more, deadline, part);
      }
    }
  }

  /** What was said stays right. */
  lemma DetailStep(r: Run, k: Seen, deadline: int, w: Wait)
    requires Tied(r, k, deadline, OfFailure) && Tied(r, k, deadline, OfDetail)
    ensures Tied(AfterWait(r, k, w), k.(waits := k.waits + [w]), deadline, OfDetail)
  {
    WaitNext(k.waits, w, KillAt(k));
    var s, more := AfterWait(r, k, w), k.(waits := k.waits + [w]);
    assert s.detail == r.detail && s.child == r.child && s.baseline == r.baseline && s.live == r.live;
    assert (Unmanageable(k) ==> Unmanageable(more)) && OrderLost(more) == OrderLost(k) && ReadLate(more) == ReadLate(k);
  }

  lemma FailureStep(r: Run, k: Seen, deadline: int, w: Wait)
    requires Tied(r, k, deadline, OfStatus) && Tied(r, k, deadline, OfFailure)
    ensures Tied(AfterWait(r, k, w), k.(waits := k.waits + [w]), deadline, OfStatus)
    ensures Tied(AfterWait(r, k, w), k.(waits := k.waits + [w]), deadline, OfFailure)
  {
    WaitNext(k.waits, w, KillAt(k));
  }

  /** The waits since were interrupted, but for the last, which was answered with `w`. */
  predicate Idled(before: seq<Wait>, after: seq<Wait>, w: Wait) {
    && |before| < |after| && before <= after && after[|after| - 1] == w
    && forall i :: |before| <= i < |after| - 1 ==> after[i] == Interrupted
  }

  lemma {:induction false} IdledStep(r: Run, k: Seen, deadline: int, waits: seq<Wait>, w: Wait)
    requires Recorded(r, k, deadline) && r.status.None? && Idled(k.waits, waits, w)
    ensures Recorded(AfterWait(r, k, w), k.(waits := waits), deadline)
    decreases |waits|
  {
    var front := waits[..|waits| - 1];
    assert waits == front + [w];
    if |front| > |k.waits| {
      IdledStep(r, k, deadline, front, Interrupted);
      WaitStep(r, k.(waits := front), deadline, w);
    } else {
      assert front == k.waits;
      WaitStep(r, k, deadline, w);
    }
  }

  /** The child was reaped, with something to say of that, or could not be waited for. */
  function WithNews(r: Run, w: Wait, detail: Detail): Run {
    if w.Child? then r.(status := Some(w.status), childReaped := true, detail := detail)
    else r.(killFailed := true, detail := NotOurChild)
  }

  /** What a wait in the loop that waits for the child changes; it asks again unless there
      is news. */
  function Tried(r: Run, w: Wait): Run {
    if w.NotYet? || w.Interrupted? then r else WithNews(r, w, r.detail)
  }

  lemma NoNews(r: Run, k: Seen, deadline: int, waits: seq<Wait>, w: Wait)
    requires Recorded(r, k, deadline) && r.status.None? && Idled(k.waits, waits, w) && (w.NotYet? || w.Interrupted?)
    ensures Recorded(r, k.(waits := waits), deadline)
  {
    IdledStep(r, k, deadline, waits, w);
    assert AfterWait(r, k, w) == r;
  }

  lemma News(r: Run, k: Seen, deadline: int, waits: seq<Wait>, w: Wait, detail: Detail)
    requires Recorded(r, k, deadline) && r.status.None? && Idled(k.waits, waits, w) && !w.NotYet? && !w.Interrupted?
    requires (w.Child? || k.kills == []) && (detail == r.detail || detail == ChildExitedEarly)
    ensures Recorded(WithNews(r, w, detail), k.(waits := waits), deadline)
  {
    IdledStep(r, k, deadline, waits, w);
    var s, more := AfterWait(r, k, w), k.(waits := waits);
    RecordedMeans(s, more, deadline);
    InOtherWords(s, WithNews(r, w, detail), more, deadline);
  }

  /** One more wait for a child that was reaped. */
  lemma Confirmation(r: Run, k: Seen, deadline: int, w: Wait)
    requires Recorded(r, k, deadline) && r.status.Some?
    ensures Recorded(
        if w.NoChild? then r else r.(killFailed := true, detail := ReapNotConfirmed), k.(waits := k.waits + [w]),
        deadline)
  {
    var more := k.(waits := k.waits + [w]);
    WaitStep(r, k, deadline, w);
    if w.NoChild? {
      assert AfterWait(r, k, w) == r;
    } else {
      RecordedMeans(r.(killFailed := true), more, deadline);
      InOtherWords(r.(killFailed := true), r.(killFailed := true, detail := ReapNotConfirmed), more, deadline);
    }
  }

  /** A wait that fails after the kill is not held against the run. */
  lemma NoNewsOfKilled(r: Run, k: Seen, deadline: int, waits: seq<Wait>, w: Wait)
    requires Recorded(r, k, deadline) && r.status.None? && Idled(k.waits, waits, w) && !w.Child? && k.kills != []
    ensures Recorded(r, k.(waits := waits), deadline)
  {
    IdledStep(r, k, deadline, waits, w);
    assert AfterWait(r, k, w) == r;
  }

  /** A kill counts only for the waits after it. */
  lemma {:induction false} TroubledSoFar(waits: seq<Wait>, at: nat)
    requires |waits| <= at
    ensures Troubled(waits, None) <==> Troubled(waits, Some(at))
  {
    if waits != [] {
      TroubledSoFar(waits[..|waits| - 1], at);
    }
  }

  lemma KillStep(r: Run, k: Seen, deadline: int, answer: KillResult)
    requires Recorded(r, k, deadline) && k.kills == []
    ensures Recorded(
        r.(timedOut := true, killFailed := r.killFailed || answer.Refused?,
           detail := if answer.Refused? then KillFailed else r.detail),
        k.(kills := k.kills + [(answer, |k.waits|)]), deadline)
  {
    RecordedMeans(r, k, deadline);
    TroubledSoFar(k.waits, |k.waits|);
  }

  lemma NothingRecorded(r: Run, deadline: int)
    requires r == INITIAL_RUN.(child := r.child)
    ensures Recorded(r, NOTHING_SEEN, deadline)
  {
  }

  /** The child exited with 0 in time, and everything obtained was given back. */
  predicate CleanEnd(k: Seen, deadline: int) {
    && StatusIn(k.waits).Some? && Exited(StatusIn(k.waits).value) && ExitStatus(StatusIn(k.waits).value) == 0
    && !RanLate(k, deadline) && !Unmanageable(k) && (forall i :: 0 <= i < |k.dropped| ==> k.dropped[i] == 0)
  }

  /** The outcomes that no sample decides, from the answers alone. */
  lemma OutcomeFromAnswers(r: Run, k: Seen, deadline: int)
    requires Recorded(r, k, deadline) && (r.childReaped <==> r.status.Some?)
    ensures Decide(r) == ChildOrCleanupFailure <==> !CleanEnd(k, deadline) || k.names == []
    ensures Decide(r) == NamePortDenied <==> CleanEnd(k, deadline) && k.names != [] && k.names[0].0 != 0
  {
    RecordedMeans(r, k, deadline);
    assert r.deallocOk <==> forall i :: 0 <= i < |k.dropped| ==> k.dropped[i] == 0 by {
      assert k.dropped != [] ==> k.dropped[0] == r.deallocKr.value;
    }
  }
}
