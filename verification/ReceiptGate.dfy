/** The gate that recomputes the probe's outcome from the emitted observation, and the
    proof that it agrees with the probe on every record the probe can emit. */
module ReceiptGate {
  import opened Common
  import opened ProbeRecord

  predicate IsInt(j: Json) {
    j.Int?
  }

  predicate AtLeast(j: Json, minimum: int) {
    j.Int? && j.i >= minimum
  }

  predicate OptionalInt(j: Json) {
    j.Null? || j.Int?
  }

  predicate OptionalAtLeast(j: Json, minimum: int) {
    j.Null? || AtLeast(j, minimum)
  }

  predicate OptionalBool(j: Json) {
    j.Null? || j.Bool?
  }

  predicate Printable(s: string) {
    |s| <= 64 && forall i :: 0 <= i < |s| ==> 32 <= s[i] as int < 127
  }

  predicate ShortText(j: Json) {
    j.Text? && Printable(j.s)
  }

  predicate KnownOutcome(j: Json) {
    exists o: Outcome :: j == Text(OutcomeText(o))
  }

  predicate LabelsOk(obs: Observation) {
    && obs.probe == Text(PROBE_NAME) && obs.allocationBytes == Int(ALLOCATION_BYTES)
    && obs.telemetryAcceptance == Bool(false) && obs.workloadAcceptance == Bool(false)
    && obs.budgetAcceptance == Bool(false)
    && (obs.source.Null? || (obs.source.Text? && IsSha(obs.source.s)))
    && obs.sourceRejected.Bool?
    && ShortText(obs.os) && ShortText(obs.osRelease) && ShortText(obs.arch) && ShortText(obs.detail)
    && KnownOutcome(obs.outcome)
    && obs.sizeUnit == Text(BYTES) && obs.sizeMaxUnit == Text(BYTES) && obs.maxrssUnit == Text(BYTES)
  }

  predicate NumbersOk(obs: Observation) {
    && OptionalAtLeast(obs.childPid, 2)
    && OptionalInt(obs.nameKr) && OptionalInt(obs.baselineKr) && OptionalInt(obs.liveKr)
    && OptionalInt(obs.postKr) && OptionalInt(obs.deallocKr)
    && OptionalAtLeast(obs.baselineCount, 0) && OptionalAtLeast(obs.liveCount, 0) && OptionalAtLeast(obs.postCount, 0)
    && OptionalAtLeast(obs.baselineSize, 0) && OptionalAtLeast(obs.baselinePeak, 0)
    && OptionalAtLeast(obs.liveSize, 0) && OptionalAtLeast(obs.livePeak, 0)
    && OptionalAtLeast(obs.childMaxrss, 0) && OptionalAtLeast(obs.postSize, 0) && OptionalAtLeast(obs.postPeak, 0)
    && OptionalAtLeast(obs.childExitStatus, 0) && OptionalAtLeast(obs.childTermSignal, 1)
  }

  predicate StatesOk(obs: Observation) {
    && (obs.childExitKind == Text(EXITED) || obs.childExitKind == Text(SIGNALED) || obs.childExitKind == Text(UNEXITED))
    && obs.namePortIsNull.Bool? && obs.childReaped.Bool? && obs.timedOut.Bool? && obs.cleanupOk.Bool?
    && obs.postQueried.Bool?
    && OptionalBool(obs.peaksNondecreasing) && OptionalBool(obs.allocationObserved) && OptionalBool(obs.postSupported)
  }

  predicate WellFormed(obs: Observation) {
    LabelsOk(obs) && NumbersOk(obs) && StatesOk(obs)
  }

  predicate PostExitShapeOk(obs: Observation) {
    if obs.postQueried == Bool(false) then
      obs.postSupported.Null? && obs.postKr.Null? && obs.postCount.Null? && obs.postSize.Null? && obs.postPeak.Null?
    else if obs.postSupported == Bool(true) then
      obs.postKr == Int(0) && AtLeast(obs.postSize, 0) && AtLeast(obs.postPeak, 0)
    else if obs.postSupported == Bool(false) then
      IsInt(obs.postKr) && obs.postSize.Null? && obs.postPeak.Null?
    else
      false
  }

  predicate CleanLifecycle(obs: Observation) {
    && obs.childReaped == Bool(true) && obs.cleanupOk == Bool(true) && obs.timedOut == Bool(false)
    && obs.childExitKind == Text(EXITED) && obs.childExitStatus == Int(0)
  }

  predicate SampleComplete(kr: Json, count: Json, size: Json, peak: Json) {
    kr == Int(0) && AtLeast(count, 1) && AtLeast(size, 0) && AtLeast(peak, 0)
  }

  function Recompute(obs: Observation): Outcome
    requires WellFormed(obs)
  {
    if !CleanLifecycle(obs) then
      ChildOrCleanupFailure
    else if obs.nameKr.Null? then
      ChildOrCleanupFailure
    else if obs.nameKr != Int(0) then
      NamePortDenied
    else if obs.namePortIsNull == Bool(true)
            || !SampleComplete(obs.baselineKr, obs.baselineCount, obs.baselineSize, obs.baselinePeak) then
      CounterMissing
    else if !SampleComplete(obs.liveKr, obs.liveCount, obs.liveSize, obs.livePeak) || obs.childMaxrss.Null? then
      CounterMissing
    else if obs.livePeak == Int(0) then
      ZeroPeakRss
    else if !(obs.livePeak.i >= obs.baselinePeak.i) || !(obs.liveSize.i > obs.baselineSize.i) then
      PeakOrAllocationCheckFailed
    else if obs.childMaxrss.i < obs.baselinePeak.i || obs.childMaxrss.i > obs.livePeak.i then
      ChildPeakOutOfOrder
    else if obs.peaksNondecreasing != Bool(true) || obs.allocationObserved != Bool(true) then
      PeakOrAllocationCheckFailed
    else
      LiveCounterOk
  }

  datatype Verdict = Malformed | Classified(outcome: Outcome)

  /** None stands for an observation that is not an object at all. */
  function Classify(obs: Option<Observation>): Verdict {
    if obs.None? || !WellFormed(obs.value) || !PostExitShapeOk(obs.value) then
      Malformed
    else
      var result := Recompute(obs.value);
      if obs.value.outcome != Text(OutcomeText(result)) then Malformed else Classified(result)
  }

  function WorkflowMachine(arch: string): Option<string> {
    if arch == "arm64" then Some("arm64") else if arch == "x64" then Some("x86_64") else None
  }

  predicate Demonstrated(obs: Option<Observation>, source: string, workflowArch: string, returncode: int, outerTimeout: bool) {
    && !outerTimeout && Classify(obs) == Classified(LiveCounterOk) && returncode == 0
    && obs.value.source == Text(source) && obs.value.os == Text("Darwin")
    && WorkflowMachine(workflowArch).Some? && obs.value.arch == Text(WorkflowMachine(workflowArch).value)
    && obs.value.telemetryAcceptance == Bool(false) && obs.value.workloadAcceptance == Bool(false)
    && obs.value.budgetAcceptance == Bool(false)
  }

  // ------------------------------------------------------------- main results

  /** At most 64 characters, each from the space to the tilde. */
  predicate ShortAscii(s: string) {
    |s| < 65 && forall c :: c in s ==> ' ' <= c <= '~'
  }

  lemma PrintableIsShortAscii(s: string)
    ensures Printable(s) <==> ShortAscii(s)
  {
    forall i | ShortAscii(s) && 0 <= i < |s| ensures 32 <= s[i] as int < 127 {
      assert s[i] in s;
    }
  }

  predicate PrintableNames(host: Host) {
    ShortAscii(Named(host).0) && ShortAscii(Named(host).1) && ShortAscii(Named(host).2)
  }

  lemma SetupDetailsArePrintable(d: Detail)
    requires d.NoDetail? || d.ForkFailed? || d.PipeFailed? || d.Timeout? || d.HandshakeFailed?
    ensures Printable(DetailText(d))
  {
  }

  lemma ChildDetailsArePrintable(d: Detail)
    requires d.ChildExitedEarly? || d.NotOurChild? || d.KillFailed? || d.ReapNotConfirmed? || d.NamePortRejected?
    ensures Printable(DetailText(d))
  {
  }

  lemma CounterDetailsArePrintable(d: Detail)
    requires d.CounterIncomplete? || d.ZeroPeak? || d.PeakDecreased? || d.AllocationNotObserved?
          || d.PeakOutOfOrder? || d.Fine?
    ensures Printable(DetailText(d))
  {
  }

  lemma DetailsArePrintable(d: Detail)
    ensures Printable(DetailText(d))
  {
    if d.NoDetail? || d.ForkFailed? || d.PipeFailed? || d.Timeout? || d.HandshakeFailed? {
      SetupDetailsArePrintable(d);
    } else if d.ChildExitedEarly? || d.NotOurChild? || d.KillFailed? || d.ReapNotConfirmed? || d.NamePortRejected? {
      ChildDetailsArePrintable(d);
    } else {
      CounterDetailsArePrintable(d);
    }
  }

  lemma KindsDiffer()
    ensures EXITED != SIGNALED && EXITED != UNEXITED && SIGNALED != UNEXITED
  {
    assert |EXITED| == 6 && |SIGNALED| == 8 && |UNEXITED| == 8;
    assert SIGNALED[0] == 's' && UNEXITED[0] == 'u';
  }

  lemma EmittedLabels(r: Run, outcome: Outcome, host: Host)
    ensures LabelsOk(Emit(r, outcome, host)) <==> PrintableNames(host)
  {
    DetailsArePrintable(r.detail);
    PrintableIsShortAscii(Named(host).0);
    PrintableIsShortAscii(Named(host).1);
    PrintableIsShortAscii(Named(host).2);
  }

  lemma EmittedNumbers(r: Run, outcome: Outcome, host: Host)
    requires RunOk(r)
    ensures NumbersOk(Emit(r, outcome, host)) && PostExitShapeOk(Emit(r, outcome, host))
  {
  }

  /** Apart from the host's names, every emitted record has the required form. */
  lemma EmittedWellFormed(r: Run, outcome: Outcome, host: Host)
    requires RunOk(r)
    ensures var obs := Emit(r, outcome, host);
      (WellFormed(obs) <==> PrintableNames(host)) && PostExitShapeOk(obs)
  {
    EmittedLabels(r, outcome, host);
    EmittedNumbers(r, outcome, host);
    assert StatesOk(Emit(r, outcome, host));
  }

  /** The gate recomputes what the probe decided. */
  lemma RecomputeIsDecide(r: Run, outcome: Outcome, host: Host)
    requires RunOk(r) && PrintableNames(host) && WellFormed(Emit(r, outcome, host))
    ensures Recompute(Emit(r, outcome, host)) == Decide(r)
  {
    KindsDiffer();
    var obs := Emit(r, outcome, host);
    assert CleanLifecycle(obs) <==>
      r.childReaped && r.deallocOk && !r.killFailed && !r.timedOut
      && r.status.Some? && Exited(r.status.value) && ExitStatus(r.status.value) == 0;
    assert SampleComplete(obs.baselineKr, obs.baselineCount, obs.baselineSize, obs.baselinePeak) <==> r.baseline.complete;
    assert SampleComplete(obs.liveKr, obs.liveCount, obs.liveSize, obs.livePeak) <==> r.live.complete;
  }

  /** For every record a run can leave, the gate classifies the emitted observation as
      exactly the outcome the probe chose, and never as malformed, if and only if the
      host's names are printable and at most 64 characters long. */
  lemma ClassifiersAgree(r: Run, host: Host)
    requires RunOk(r)
    ensures Classify(Some(Emit(r, Decide(r), host))) == Classified(Decide(r)) <==> PrintableNames(host)
    ensures Classify(Some(Emit(r, Decide(r), host))).Malformed? <==> !PrintableNames(host)
  {
    EmittedWellFormed(r, Decide(r), host);
    if PrintableNames(host) {
      RecomputeIsDecide(r, Decide(r), host);
    }
  }

  /** Two hosts whose receipts are refused whatever the run: a release name of 65
      characters, and one that holds a tab. */
  lemma RefusedHosts(r: Run, long: string, tabbed: string)
    requires RunOk(r) && long == seq(65, _ => '5') && tabbed == "25.0\tgeneric"
    ensures Classify(Some(Emit(r, Decide(r), Host(Some(("Darwin", long, "arm64")), None)))).Malformed?
    ensures Classify(Some(Emit(r, Decide(r), Host(Some(("Darwin", tabbed, "arm64")), None)))).Malformed?
  {
    assert !Printable(long);
    assert tabbed[4] == '\t' && !Printable(tabbed);
    ClassifiersAgree(r, Host(Some(("Darwin", long, "arm64")), None));
    ClassifiersAgree(r, Host(Some(("Darwin", tabbed, "arm64")), None));
  }

  /** Every outcome has a text of its own. */
  lemma OutcomeTextsDiffer(a: Outcome, b: Outcome)
    requires a != b
    ensures OutcomeText(a) != OutcomeText(b)
  {
    assert |OutcomeText(LiveCounterOk)| == |OutcomeText(CounterMissing)| == 15;
    assert OutcomeText(LiveCounterOk)[0] == 'l' && OutcomeText(CounterMissing)[0] == 'c';
    assert |OutcomeText(NamePortDenied)| == 16 && |OutcomeText(ZeroPeakRss)| == 13;
    assert |OutcomeText(ChildOrCleanupFailure)| == 24 && |OutcomeText(PeakOrAllocationCheckFailed)| == 31;
    assert |OutcomeText(ChildPeakOutOfOrder)| == 23;
  }

  /** A record that claims any other outcome is refused. */
  lemma OtherClaimsAreRefused(r: Run, claim: Outcome, host: Host)
    requires RunOk(r) && claim != Decide(r)
    ensures Classify(Some(Emit(r, claim, host))).Malformed?
  {
    OutcomeTextsDiffer(claim, Decide(r));
    EmittedWellFormed(r, claim, host);
    if PrintableNames(host) {
      RecomputeIsDecide(r, claim, host);
    }
  }

  /** The probe exits with 0 exactly when the gate accepts the live counter. */
  lemma ExitMatchesGate(r: Run, host: Host)
    requires RunOk(r) && PrintableNames(host)
    ensures ExitFor(Decide(r)) == 0 <==> Classify(Some(Emit(r, Decide(r), host))) == Classified(LiveCounterOk)
  {
    ClassifiersAgree(r, host);
  }

  /** Whatever produced it, an observation that demonstrates the counter has the
      measured order: baseline peak, child peak, live peak, and a larger live size. */
  lemma DemonstrationIsOrdered(obs: Option<Observation>, source: string, workflowArch: string, returncode: int, outerTimeout: bool)
    requires Demonstrated(obs, source, workflowArch, returncode, outerTimeout)
    ensures var o := obs.value;
      && o.baselinePeak.Int? && o.childMaxrss.Int? && o.livePeak.Int? && o.baselineSize.Int? && o.liveSize.Int?
      && o.baselinePeak.i <= o.childMaxrss.i <= o.livePeak.i && 0 < o.livePeak.i
      && o.baselineSize.i < o.liveSize.i
      && o.childExitStatus == Int(0) && o.timedOut == Bool(false)
  {
    assert SampleComplete(obs.value.liveKr, obs.value.liveCount, obs.value.liveSize, obs.value.livePeak);
  }

  /** The demonstration is accepted exactly for a run that found the live counter in order,
      on a Darwin host of the expected machine, from the expected source, in time. */
  lemma DemonstratedExactly(r: Run, host: Host, source: string, workflowArch: string, outerTimeout: bool)
    requires RunOk(r)
    ensures Demonstrated(Some(Emit(r, Decide(r), host)), source, workflowArch, ExitFor(Decide(r)), outerTimeout) <==>
      && !outerTimeout && Decide(r) == LiveCounterOk && PrintableNames(host)
      && host.source == Some(source) && IsSha(source) && host.names.Some? && host.names.value.0 == "Darwin"
      && ((workflowArch == "arm64" && host.names.value.2 == "arm64")
          || (workflowArch == "x64" && host.names.value.2 == "x86_64"))
  {
    ClassifiersAgree(r, host);
    if host.names.None? {
      assert "unknown" != "Darwin" by {
        assert "unknown"[0] == 'u' && "Darwin"[0] == 'D';
      }
    }
  }

  /** Forty digits, or letters from a to f. */
  predicate IsCommit(s: string) {
    |s| == 40 && forall c :: c in s ==> '0' <= c <= '9' || 'a' <= c <= 'f'
  }

  lemma ShaIsCommit(s: string)
    ensures IsSha(s) <==> IsCommit(s)
  {
    forall i | IsCommit(s) && 0 <= i < 40 ensures HexDigit(s[i]) {
      assert s[i] in s;
    }
  }

  predicate NoneOr(j: Json, minimum: int) {
    j.Null? || (j.Int? && j.i >= minimum)
  }

  /** Whatever produced it, an observation that is classified makes no claim of acceptance,
      names a probe, units and an outcome as it must, and holds no value out of range. */
  lemma ClassifiedObservation(obs: Observation)
    requires Classify(Some(obs)).Classified?
    ensures obs.telemetryAcceptance == obs.workloadAcceptance == obs.budgetAcceptance == Bool(false)
    ensures obs.probe == Text(PROBE_NAME) && obs.allocationBytes == Int(8388608)
    ensures obs.source.Null? || (obs.source.Text? && IsCommit(obs.source.s))
    ensures obs.sourceRejected.Bool? && obs.outcome == Text(OutcomeText(Classify(Some(obs)).outcome))
    ensures obs.sizeUnit == obs.sizeMaxUnit == obs.maxrssUnit == Text("bytes")
    ensures obs.os.Text? && obs.osRelease.Text? && obs.arch.Text? && obs.detail.Text?
    ensures ShortAscii(obs.os.s) && ShortAscii(obs.osRelease.s) && ShortAscii(obs.arch.s) && ShortAscii(obs.detail.s)
    ensures NoneOr(obs.childPid, 2) && NoneOr(obs.childExitStatus, 0) && NoneOr(obs.childTermSignal, 1)
    ensures NoneOr(obs.baselineCount, 0) && NoneOr(obs.liveCount, 0) && NoneOr(obs.postCount, 0)
    ensures NoneOr(obs.baselineSize, 0) && NoneOr(obs.baselinePeak, 0) && NoneOr(obs.liveSize, 0)
    ensures NoneOr(obs.livePeak, 0) && NoneOr(obs.postSize, 0) && NoneOr(obs.postPeak, 0) && NoneOr(obs.childMaxrss, 0)
    ensures forall kr :: kr in [obs.nameKr, obs.baselineKr, obs.liveKr, obs.postKr, obs.deallocKr] ==> kr.Null? || kr.Int?
    ensures obs.childExitKind in [Text("exited"), Text("signaled"), Text("unexited")]
    ensures forall flag :: flag in [obs.namePortIsNull, obs.childReaped, obs.timedOut, obs.cleanupOk, obs.postQueried]
              ==> flag.Bool?
    ensures forall flag :: flag in [obs.peaksNondecreasing, obs.allocationObserved, obs.postSupported]
              ==> flag.Null? || flag.Bool?
    ensures obs.postQueried == Bool(true) ==>
      && obs.postKr.Int?
      && if obs.postSupported == Bool(true) then obs.postKr.i == 0 && obs.postSize.Int? && obs.postPeak.Int?
         else obs.postSupported == Bool(false) && obs.postSize.Null? && obs.postPeak.Null?
    ensures obs.postQueried == Bool(false) ==>
      forall j :: j in [obs.postSupported, obs.postKr, obs.postCount, obs.postSize, obs.postPeak] ==> j.Null?
  {
    PrintableIsShortAscii(obs.os.s);
    PrintableIsShortAscii(obs.osRelease.s);
    PrintableIsShortAscii(obs.arch.s);
    PrintableIsShortAscii(obs.detail.s);
    if obs.source.Text? {
      ShaIsCommit(obs.source.s);
    }
  }

  // ----------------------------------------------------------- reading the record back

  function Number(j: Json): Option<int> {
    if j.Int? then Some(j.i) else None
  }

  /** One query as the observation shows it. */
  datatype Shown = Shown(kr: Option<int>, count: Option<int>, size: Option<int>, peak: Option<int>)

  /** The query in the record: its answer if there was one, and sizes only of a complete
      answer. */
  predicate Shows(v: Shown, s: Sample) {
    && v.kr == (if s.queried then Some(s.kr) else None) && v.count == (if s.queried then Some(s.count) else None)
    && v.size == (if s.complete then Some(s.size) else None) && v.peak == (if s.complete then Some(s.peak) else None)
  }

  function Baseline(obs: Observation): Shown {
    Shown(Number(obs.baselineKr), Number(obs.baselineCount), Number(obs.baselineSize), Number(obs.baselinePeak))
  }

  function Live(obs: Observation): Shown {
    Shown(Number(obs.liveKr), Number(obs.liveCount), Number(obs.liveSize), Number(obs.livePeak))
  }

  function Post(obs: Observation): Shown {
    Shown(Number(obs.postKr), Number(obs.postCount), Number(obs.postSize), Number(obs.postPeak))
  }

  /** Everything that decides an outcome can be read back from the emitted record. */
  lemma EmissionReadsBack(r: Run, outcome: Outcome, host: Host)
    ensures var obs := Emit(r, outcome, host);
      && Shows(Baseline(obs), r.baseline) && Shows(Live(obs), r.live) && Shows(Post(obs), r.post)
      && Number(obs.nameKr) == r.nameKr && Number(obs.deallocKr) == r.deallocKr && Number(obs.childMaxrss) == r.childRss
      && Number(obs.childPid) == (if r.child > 1 then Some(r.child) else None)
    ensures var obs := Emit(r, outcome, host);
      && obs.namePortIsNull == Bool(r.namePortIsNull) && obs.childReaped == Bool(r.childReaped)
      && obs.timedOut == Bool(r.timedOut)
    ensures var obs := Emit(r, outcome, host);
      && (obs.childExitKind == Text(EXITED) <==> r.status.Some? && Exited(r.status.value))
      && (obs.childExitKind == Text(SIGNALED) <==> r.status.Some? && Signaled(r.status.value))
      && (r.status.Some? && Exited(r.status.value) ==> Number(obs.childExitStatus) == Some(ExitStatus(r.status.value)))
      && (r.status.Some? && Signaled(r.status.value) ==> Number(obs.childTermSignal) == Some(Low(r.status.value)))
    ensures var obs := Emit(r, outcome, host);
      host.names.Some? ==>
        (obs.os, obs.osRelease, obs.arch)
        == (Text(host.names.value.0), Text(host.names.value.1), Text(host.names.value.2))
  {
    KindsDiffer();
  }

  /** So can the source, and what the record concludes. */
  lemma ConclusionsReadBack(r: Run, outcome: Outcome, host: Host)
    ensures var obs := Emit(r, outcome, host);
      && (obs.source.Null? <==> host.source.None? || !IsCommit(host.source.value))
      && (obs.source.Text? ==> host.source == Some(obs.source.s))
      && obs.sourceRejected == Bool(host.source.Some? && obs.source.Null?)
    ensures var obs, both := Emit(r, outcome, host), r.baseline.complete && r.live.complete;
      && (obs.cleanupOk == Bool(true) <==> r.deallocOk && !r.killFailed && !(r.child > 1 && !r.childReaped))
      && (obs.peaksNondecreasing == Bool(true) <==> both && r.baseline.peak <= r.live.peak)
      && (obs.allocationObserved == Bool(true) <==> both && r.baseline.size < r.live.size)
      && (obs.peaksNondecreasing.Null? <==> !both) && (obs.allocationObserved.Null? <==> !both)
  {
    if host.source.Some? {
      ShaIsCommit(host.source.value);
    }
  }
}
