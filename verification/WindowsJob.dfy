/** The Windows job backend: retained query handles, live pids, the identity
    ledger and the close that gives every handle back. */
module WindowsJob {
  import opened Common
  import opened JobHistory
  import opened LedgerHistory
  import opened NativeJob

  datatype Gaps = Gaps(unavailable: nat, rejected: nat, unproven: nat, finalFailed: nat, unreadable: bool)
  {
    /** Looks at a process that led to no handle. */
    function Total(): nat {
      unavailable + rejected + unproven
    }
  }

  datatype SizeState = FinalOnObservedHandles | LatestObservation | Unavailable

  datatype Snapshot = Snapshot(
    cpu: Option<int>, missing: Option<int>, drained: bool, state: SizeState, gaps: Gaps, truncated: bool,
    observer: Option<bool>, sumPeak: Option<int>)

  /** The place of an open handle: one of the three of the launch, the query handle of
      one retained identity, or one just opened and not yet kept or closed. */
  datatype Role = TheJob | TheProcess | TheThread | Query(id: Identity) | Loose

  /** The parts of the invariant about handles; see `Owns`. */
  datatype Part = OpenHandles | HeldRoles | QueryHandles | LaunchHandles | OwnerHandles

  /** The parts of what a snapshot reports; see `Reported`. */
  datatype ReportPart = Counters | Identities | Questions | Sizes

  /** The parts of the invariant about the ledger; see `LedgerOk`. */
  datatype LedgerPart = IsItsHistory | WasMeasured

  class WindowsJobBackend {
    const api: NativeApi
    const observer: int
    var job: int
    var process: int
    var thread: int
    var rootPid: int
    var closed: bool
    /** Success, or the first error of the close. */
    var closeResult: Option<int>
    var retained: map<Identity, int>
    var livePid: map<int, Identity>
    var ledger: Ledger
    var gaps: Gaps
    var sumPeak: Option<int>
    ghost var calls: seq<Call>

    /** Where each open handle lives. */
    ghost var role: map<int, Role>

    /** Every open handle has exactly one role, and every table entry that holds a
        handle is that handle's role. A query handle names its identity. The parts
        are behind a quantifier so that a proof sees only those it names. */
    ghost predicate Owns()
      reads this`role, this`retained, this`job, this`process, this`thread, api`live, api`names, api`owners
    {
      api.Valid() && forall part: Part :: Owned(part)
    }

    ghost predicate Owned(part: Part)
      reads this`role, this`retained, this`job, this`process, this`thread, api`live, api`names, api`owners
    {
      match part
      case OpenHandles => forall h :: h in role <==> h in api.live
      case HeldRoles => forall h :: h in role ==> RoleHolds(h, role[h])
      case QueryHandles => forall id :: id in retained ==> retained[id] in role && role[retained[id]] == Query(id)
      case LaunchHandles =>
        && (job != 0 ==> job in role && role[job] == TheJob)
        && (process != 0 ==> process in role && role[process] == TheProcess)
        && (thread != 0 ==> thread in role && role[thread] == TheThread)
      case OwnerHandles =>
        forall h :: h in api.owners ==> h in role && (role[h].TheJob? || role[h].TheProcess? || role[h].TheThread?)
    }

    lemma AllParts()
      requires Owns()
      ensures Owned(OpenHandles) && Owned(HeldRoles) && Owned(QueryHandles) && Owned(LaunchHandles) && Owned(OwnerHandles)
    {
    }

    lemma HeldHandle(id: Identity)
      requires Owns() && id in retained
      ensures retained[id] in api.names && api.names[retained[id]] == id
    {
      AllParts();
      assert RoleHolds(retained[id], Query(id));
    }

    lemma LaunchHandle()
      requires Owns()
      ensures job != 0 ==> job in api.live
      ensures process != 0 ==> process in api.live && process in api.names
      ensures thread != 0 ==> thread in api.live
    {
      AllParts();
      assert process != 0 ==> RoleHolds(process, TheProcess);
    }

    /** A handle just opened, not yet kept or closed. */
    ghost predicate IsLoose(h: int)
      reads this`role, api`names
    {
      h in role && role[h].Loose? && h in api.names
    }

    ghost predicate RoleHolds(h: int, r: Role)
      reads this`retained, this`job, this`process, this`thread, api`names
    {
      match r
      case TheJob => h == job
      case TheProcess => h == process && h in api.names
      case TheThread => h == thread
      case Query(id) => id in retained && retained[id] == h && h in api.names && api.names[h] == id
      case Loose => h in api.names
    }

    /** No handle is loose except `h`. */
    ghost predicate OnlyLoose(h: int)
      reads this`role
    {
      forall k :: k in role && role[k].Loose? ==> k == h
    }

    /** The ledger is what its history says, and the history was measured. */
    ghost predicate LedgerOk()
      reads this`ledger, this`calls, api`readings
    {
      forall part: LedgerPart :: LedgerHas(part)
    }

    ghost predicate LedgerHas(part: LedgerPart)
      reads this`ledger, this`calls, api`readings
    {
      match part
      case IsItsHistory => ledger == After(calls)
      case WasMeasured => Proven(calls, api.readings)
    }

    /** A live pid points to a retained identity with that pid. */
    ghost predicate LivePids()
      reads this`retained, this`livePid
    {
      forall pid :: pid in livePid ==> livePid[pid] in retained && livePid[pid].pid == pid
    }

    /** Every row belongs to a process that was proven a member of the job, and its
        query handle is still held. */
    ghost predicate Attributed()
      reads this`ledger, this`retained, api`members
    {
      RowsAreMembers() && forall id :: id in ledger.rows <==> id in retained
    }

    /** Every row belongs to a process that was proven a member of the job. */
    ghost predicate RowsAreMembers()
      reads this`ledger, api`members
    {
      forall id :: id in ledger.rows ==> id in api.members
    }

    ghost predicate Tables()
      reads this`ledger, this`calls, this`retained, this`livePid, api`readings, api`members
    {
      LivePids() && LedgerOk() && Attributed()
    }

    ghost predicate Valid()
      reads this, api
    {
      && Owns() && OnlyLoose(0) && LivePids() && LedgerOk()
      && (closed ==> api.live == {} && retained == map[] && livePid == map[])
      && (!closed ==> Attributed())
    }

    ghost function Seen(): Trace
      reads this`calls, this`retained, this`gaps, api`log
    {
      Trace(calls, api.log, retained.Keys, gaps.Total())
    }

    constructor (api: NativeApi, observer: int)
      requires api.Valid() && api.live == {} && api.owners == {}
      ensures Valid() && this.api == api && !closed && job == process == thread == 0 && retained == map[] && calls == []
      ensures gaps == Gaps(0, 0, 0, 0, false) && sumPeak == None
    {
      this.api, this.observer := api, observer;
      job, process, thread, rootPid, closed, closeResult := 0, 0, 0, 0, false, None;
      retained, livePid, ledger := map[], map[], EMPTY;
      gaps, sumPeak, calls, role := Gaps(0, 0, 0, 0, false), None, [], map[];
    }

    /** Every ledger call goes through here, so the ledger is its history's value. */
    method Record(call: Call)
      requires LedgerOk() && Measured(call, api.readings)
      modifies this`ledger, this`calls
      ensures LedgerOk() && calls == old(calls) + [call]
      ensures call.Truncate? ==> ledger.rows == old(ledger.rows) && ledger.truncated
      ensures call.Add? && Admissible(call.id) && |old(ledger.rows)| < MAX_LEDGER
          ==> ledger.rows.Keys == old(ledger.rows.Keys) + {call.id}
      ensures !call.Truncate? && call.id in old(ledger.rows) ==> ledger.rows.Keys == old(ledger.rows.Keys)
    {
      assert LedgerHas(IsItsHistory) && LedgerHas(WasMeasured);
      ProvenStep(calls, call, api.readings);
      ledger := Apply(ledger, call);
      ghost var before := calls;
      calls := calls + [call];
      assert calls[..|calls| - 1] == before;
    }

    /** Closes a handle that was not kept. */
    method Discard(h: int)
      requires Owns() && OnlyLoose(h) && IsLoose(h)
      modifies this`role, api`live, api`names, api`members, api`closes
      ensures Owns() && OnlyLoose(0) && role == old(role) - {h} && old(api.members) <= api.members
    {
      AllParts();
      var _ := api.Close(h);
      role := role - {h};
    }

    /** Gives up on a handle whose identity does not fit into the ledger. */
    method Drop(h: int)
      requires Owns() && OnlyLoose(h) && IsLoose(h) && Tables()
      modifies this`role, this`ledger, this`calls, api`live, api`names, api`members, api`closes
      ensures Owns() && OnlyLoose(0) && Tables() && NoRoom(old(Seen()), Seen())
    {
      Record(Truncate);
      Discard(h);
    }

    /** Files a loose handle as the query handle of a new identity. */
    method File(id: Identity, h: int)
      requires Owns() && OnlyLoose(h) && IsLoose(h) && LivePids()
      requires api.names[h] == id && id !in retained
      modifies this`role, this`retained, this`livePid
      ensures Owns() && OnlyLoose(0) && LivePids()
      ensures retained == old(retained)[id := h] && livePid == old(livePid)[id.pid := id]
    {
      AllParts();
      role, retained, livePid := role[h := Query(id)], retained[id := h], livePid[id.pid := id];
      forall k | k in role ensures RoleHolds(k, role[k]) {
        assert k != h ==> old(RoleHolds(k, role[k]));
      }
    }

    /** The identity already has its query handle; the second one is closed. */
    method KeepKnown(id: Identity, h: int)
      requires Owns() && OnlyLoose(h) && IsLoose(h) && Tables()
      requires id in retained
      modifies this`role, this`livePid, api`live, api`names, api`members, api`closes
      ensures Owns() && OnlyLoose(0) && Tables() && livePid == old(livePid)[id.pid := id]
    {
      Discard(h);
      livePid := livePid[id.pid := id];
    }

    method KeepNew(id: Identity, h: int)
      requires Owns() && OnlyLoose(h) && IsLoose(h) && Tables()
      requires api.names[h] == id && id in api.members
      requires id !in retained && |ledger.rows| < MAX_LEDGER && Admissible(id)
      modifies this`role, this`retained, this`livePid, this`ledger, this`calls
      ensures Owns() && OnlyLoose(0) && Tables()
      ensures retained.Keys == old(retained.Keys) + {id} && NoReading(old(calls), calls)
      ensures livePid == old(livePid)[id.pid := id] && calls == old(calls) + [Add(id)]
    {
      Record(Add(id));
      File(id, h);
    }

    /** Keeps `h` for `id`, or closes it; either way it is accounted for. */
    method KeepHandle(id: Identity, h: int) returns (kept: bool)
      requires Owns() && OnlyLoose(h) && IsLoose(h) && Tables()
      requires api.names[h] == id && id in api.members
      modifies this`role, this`retained, this`livePid, this`ledger, this`calls, api`live, api`names, api`members, api`closes
      ensures Owns() && OnlyLoose(0) && Tables()
      ensures kept ==> retained.Keys == old(retained.Keys) + {id} && NoReading(old(calls), calls)
      ensures !kept ==> NoRoom(old(Seen()), Seen())
      ensures kept <==> id in old(retained) || (|old(retained)| < MAX_LEDGER && Admissible(id))
      ensures livePid == if kept then old(livePid)[id.pid := id] else old(livePid)
      ensures kept ==> calls == old(calls) + if id in old(retained) then [] else [Add(id)]
    {
      assert ledger.rows.Keys == retained.Keys;
      if id in retained {
        KeepKnown(id, h);
        return true;
      }
      if |retained| >= MAX_LEDGER || (|ledger.rows| >= MAX_LEDGER && id !in ledger.rows) || !Admissible(id) {
        Drop(h);
        return false;
      }
      KeepNew(id, h);
      return true;
    }

    /** Reads a retained process; the reading is filed under that process. */
    method ReadLive(id: Identity) returns (current: Option<int>)
      requires Owns() && OnlyLoose(0) && Tables() && id in retained
      modifies this`ledger, this`calls, api`members, api`readings, api`log
      ensures Owns() && OnlyLoose(0) && Tables()
      ensures ReadAs(old(Seen()), Seen(), id, current)
    {
      HeldHandle(id);
      var memory := api.WorkingSet(retained[id]);
      GrewStillOk();
      if memory.None? {
        return None;
      }
      Record(Observe(id, Some(memory.value.0), Some(memory.value.1), None));
      return Some(memory.value.0);
    }

    /** More readings only back the history better. */
    twostate lemma GrewStillOk()
      requires old(LedgerOk()) && old(api.readings) <= api.readings
      requires ledger == old(ledger) && calls == old(calls)
      ensures LedgerOk()
    {
      assert old(LedgerHas(IsItsHistory) && LedgerHas(WasMeasured));
      ProvenGrows(calls, old(api.readings), api.readings);
    }

    /** Asks a held handle whether it still names a live member of the job. */
    method SameLiveMember(id: Identity) returns (same: bool)
      requires Owns() && id in retained && job != 0
      modifies api`members, api`log
      ensures old(api.members) <= api.members
      ensures AskedHeld(old(Seen()), Seen(), id, same)
    {
      HeldHandle(id);
      LaunchHandle();
      var h := retained[id];
      var live := api.ProcessIsLive(h);
      if live != Some(true) {
        return false;
      }
      var member := api.IsInJob(h, job);
      if member != Some(true) {
        return false;
      }
      var ticks := api.CreationTicks(h);
      return ticks == Some(id.creation);
    }

    /** A process that could not be opened counts unless some handle names its pid. */
    method CountUnavailable(pid: int)
      modifies this`gaps
      ensures gaps == if Holds(retained.Keys, pid) then old(gaps)
                      else old(gaps).(unavailable := old(gaps).unavailable + 1)
    {
      if forall id :: id in retained ==> id.pid != pid {
        gaps := gaps.(unavailable := gaps.unavailable + 1);
      }
    }

    /** At most the process just opened under this pid is followed in addition. */
    ghost predicate FollowsOnly(before: map<int, Identity>, since: nat, pid: int)
      reads this`livePid, api`log
    {
      || livePid == before
      || (&& pid in livePid && livePid == before[pid := livePid[pid]]
          && since < |api.log| && api.log[since] == OpenedAs(pid, Some(livePid[pid])))
    }

    /** Opens the process that has this pid now and keeps it only when the handle
        itself proves that it is in the job. */
    method OpenMember(pid: int) returns (current: Option<int>)
      requires Owns() && OnlyLoose(0) && Tables() && job != 0
      modifies this`role, this`retained, this`livePid, this`ledger, this`calls, this`gaps
      modifies api`live, api`names, api`members, api`readings, api`closes, api`log
      ensures Owns() && OnlyLoose(0) && Tables()
      ensures Looked(old(Seen()), Seen(), pid, current)
      ensures |old(retained)| >= MAX_LEDGER ==> NoRoom(old(Seen()), Seen())
      ensures FollowsOnly(old(livePid), |old(api.log)|, pid)
    {
      if |retained| >= MAX_LEDGER {
        Record(Truncate);
        LookedNoRoom(old(Seen()), Seen(), pid);
        return None;
      }
      var id, h := OpenAdmitted(pid);
      ghost var middle := Seen();
      if id.None? {
        LookedInVain(old(Seen()), middle, pid);
        return None;
      }
      current := KeepAndRead(id.value, h);
      LookedNew(old(Seen()), middle, Seen(), id.value, current);
    }

    /** A loose handle for this pid that proves membership and creation, or none. */
    method OpenAdmitted(pid: int) returns (id: Option<Identity>, h: int)
      requires Owns() && OnlyLoose(0) && Tables() && job != 0
      modifies this`role, this`gaps, api`live, api`names, api`members, api`closes, api`log
      ensures Owns() && Tables()
      ensures id.None? ==> OnlyLoose(0) && OpenedNot(old(Seen()), Seen(), pid)
      ensures id.Some? ==>
        && OnlyLoose(h) && IsLoose(h) && OpenedOk(old(Seen()), Seen(), id.value)
        && api.names[h] == id.value && id.value in api.members && id.value.pid == pid
    {
      h := OpenLoose(pid);
      if h == 0 {
        CountUnavailable(pid);
        return None, h;
      }
      ghost var middle := Seen();
      id := Admitted(pid, h);
      if id.Some? {
        AdmittedIsOpened(old(Seen()), middle, Seen(), id.value);
      }
    }

    /** Keeps the handle of a proved member, if there is room, and reads it. */
    method KeepAndRead(id: Identity, h: int) returns (current: Option<int>)
      requires Owns() && OnlyLoose(h) && IsLoose(h) && Tables()
      requires api.names[h] == id && id in api.members
      modifies this`role, this`retained, this`livePid, this`ledger, this`calls
      modifies api`live, api`names, api`members, api`readings, api`closes, api`log
      ensures Owns() && OnlyLoose(0) && Tables()
      ensures || ReadAs(old(Seen()), Seen(), id, current)
              || (current.None? && NoRoom(old(Seen()), Seen()) && (|old(retained)| >= MAX_LEDGER || !Admissible(id)))
      ensures livePid == old(livePid) || livePid == old(livePid)[id.pid := id]
      ensures old(api.log) <= api.log
    {
      var kept := KeepHandle(id, h);
      if !kept {
        return None;
      }
      ghost var middle := Seen();
      current := ReadLive(id);
      ReadAfterKeeping(old(Seen()), middle, Seen(), id, current);
    }

    /** The identity of a loose handle, if the handle proves both membership and
        creation; otherwise the handle is closed and the refusal counted. */
    method Admitted(pid: int, h: int) returns (id: Option<Identity>)
      requires Owns() && OnlyLoose(h) && IsLoose(h) && Tables() && job != 0
      requires api.names[h].pid == pid
      modifies this`role, this`gaps, api`live, api`names, api`members, api`closes, api`log
      ensures Owns() && Tables()
      ensures old(api.log) <= api.log
      ensures AdmissionAnswers(api.log[|old(api.log)|..], old(api.names)[h], id)
      ensures gaps == if id.Some? then old(gaps)
                      else if api.log[|old(api.log)|].inJob == Some(false) then
                        old(gaps).(rejected := old(gaps).rejected + 1)
                      else
                        old(gaps).(unproven := old(gaps).unproven + 1)
      ensures id.None? ==> OnlyLoose(0)
      ensures id.Some? ==>
        && OnlyLoose(h) && IsLoose(h) && old(api.names)[h] == id.value
        && api.names[h] == id.value && id.value in api.members && id.value.pid == pid
    {
      LaunchHandle();
      var member := api.IsInJob(h, job);
      var ticks := api.CreationTicks(h);
      if member != Some(true) || ticks.None? {
        gaps := if member == Some(false)
                then gaps.(rejected := gaps.rejected + 1)
                else gaps.(unproven := gaps.unproven + 1);
        Discard(h);
        return None;
      }
      return Some(Identity(pid, ticks.value));
    }

    /** A process that is followed is asked through its held handle first; only if that no
        longer proves it is it given up and the pid opened again. */
    ghost predicate StillFollowed(a: Trace, before: map<int, Identity>, id: Identity, current: Option<int>)
      reads this`livePid, this`calls, this`retained, this`gaps, api`log
    {
      exists middle: Trace, same: bool :: FollowedVia(a, middle, before, id, same, current)
    }

    ghost predicate FollowedVia(
        a: Trace, middle: Trace, before: map<int, Identity>, id: Identity, same: bool, current: Option<int>)
      reads this`livePid, this`calls, this`retained, this`gaps, api`log
    {
      && AskedHeld(a, middle, id, same)
      && if same then ReadAs(middle, Seen(), id, current) && livePid == before
         else Looked(middle, Seen(), id.pid, current) && FollowsOnly(before - {id.pid}, |middle.log|, id.pid)
    }

    method SamplePid(pid: int) returns (current: Option<int>)
      requires Owns() && OnlyLoose(0) && Tables() && job != 0
      modifies this`role, this`retained, this`livePid, this`ledger, this`calls, this`gaps
      modifies api`live, api`names, api`members, api`readings, api`closes, api`log
      ensures Owns() && OnlyLoose(0) && Tables()
      ensures Looked(old(Seen()), Seen(), pid, current)
      ensures if pid in old(livePid) then StillFollowed(old(Seen()), old(livePid), old(livePid)[pid], current)
              else FollowsOnly(old(livePid), |old(api.log)|, pid)
    {
      if pid !in livePid {
        current := OpenMember(pid);
        return;
      }
      var id := livePid[pid];
      var same := SameLiveMember(id);
      ghost var middle := Seen();
      if same {
        current := ReadLive(id);
        LookedHeld(old(Seen()), middle, Seen(), id, current);
      } else {
        livePid := livePid - {pid};
        current := OpenMember(pid);
        LookedAgain(old(Seen()), middle, Seen(), id, current);
      }
      assert FollowedVia(old(Seen()), middle, old(livePid), id, same, current);
    }

    /** One pass over the job's processes, as the sampler thread does it while it
        holds the lock; after the close it does nothing. */
    method Sample() returns (ghost trail: seq<Look>)
      requires Valid()
      modifies this`role, this`retained, this`livePid, this`ledger, this`calls, this`gaps, this`sumPeak
      modifies api`live, api`names, api`members, api`readings, api`closes, api`log
      ensures Valid() && (old(RowsAreMembers()) ==> RowsAreMembers())
      ensures closed || job == 0 ==> Seen() == old(Seen()) && ledger == old(ledger) && sumPeak == old(sumPeak)
      ensures !closed && job != 0 ==>
        && Sampled(old(Seen()), trail, Seen(), observer, old(sumPeak), sumPeak)
        && (api.log[|old(api.log)|].pids.None? ==> gaps.unreadable)
    {
      if closed || job == 0 {
        trail := [];
        return;
      }
      trail := SampleLocked();
    }

    method SampleLocked() returns (ghost trail: seq<Look>)
      requires Owns() && OnlyLoose(0) && Tables() && job != 0
      modifies this`role, this`retained, this`livePid, this`ledger, this`calls, this`gaps, this`sumPeak
      modifies api`live, api`names, api`members, api`readings, api`closes, api`log
      ensures Owns() && OnlyLoose(0) && Tables()
      ensures Sampled(old(Seen()), trail, Seen(), observer, old(sumPeak), sumPeak)
      ensures api.log[|old(api.log)|].pids.None? ==> gaps.unreadable
    {
      LaunchHandle();
      var pids, truncated := api.JobPids(job);
      if pids.None? {
        gaps := gaps.(unreadable := true);
        trail := [];
        return;
      }
      if truncated {
        Record(Truncate);
      }
      ghost var start := Seen();
      trail := SampleMembers(pids.value);
      PassIsOnward(start, trail, Seen());
    }

    /** One look, of which only that it is one matters to a pass. */
    method LookAtPid(pid: int) returns (current: Option<int>)
      requires Owns() && OnlyLoose(0) && Tables() && job != 0
      modifies this`role, this`retained, this`livePid, this`ledger, this`calls, this`gaps
      modifies api`live, api`names, api`members, api`readings, api`closes, api`log
      ensures Owns() && OnlyLoose(0) && Tables()
      ensures Looked(old(Seen()), Seen(), pid, current)
    {
      current := SamplePid(pid);
    }

    /** Looks at the next listed pid and adds what the look reports. */
    method SampleNext(
        pids: seq<int>, i: nat, ghost seen: set<int>, sum: int, saw: nat, ghost start: Trace, ghost trail: seq<Look>)
      returns (newSum: int, newSaw: nat, ghost more: seq<Look>)
      requires Owns() && OnlyLoose(0) && Tables() && job != 0
      requires i < |pids| && Sweeping(start, trail, Seen(), pids, i, observer, seen, sum, saw)
      requires pids[i] != observer && pids[i] !in seen
      modifies this`role, this`retained, this`livePid, this`ledger, this`calls, this`gaps
      modifies api`live, api`names, api`members, api`readings, api`closes, api`log
      ensures Owns() && OnlyLoose(0) && Tables()
      ensures Sweeping(start, more, Seen(), pids, i + 1, observer, seen + {pids[i]}, newSum, newSaw)
    {
      ghost var before := Seen();
      var current := LookAtPid(pids[i]);
      ghost var look := Look(pids[i], current, Seen());
      SweepNext(start, trail, before, pids, i, observer, seen, sum, saw, look);
      more := trail + [look];
      newSum, newSaw := sum, saw;
      if current.Some? {
        newSum, newSaw := sum + current.value, saw + 1;
      }
    }

    /** Each listed process but the observer is looked at once, and the sum of what
        the looks report is compared with the highest sum so far. */
    method SampleMembers(pids: seq<int>) returns (ghost trail: seq<Look>)
      requires Owns() && OnlyLoose(0) && Tables() && job != 0
      modifies this`role, this`retained, this`livePid, this`ledger, this`calls, this`gaps, this`sumPeak
      modifies api`live, api`names, api`members, api`readings, api`closes, api`log
      ensures Owns() && OnlyLoose(0) && Tables()
      ensures Pass(old(Seen()), trail, Seen()) && PidsOf(trail) == Others(pids, observer)
      ensures sumPeak == HigherSum(old(sumPeak), TallyOf(trail))
    {
      var sum, saw, seen := 0, 0, {};
      trail := [];
      SweepFirst(Seen(), pids, observer);
      for i := 0 to |pids|
        invariant Owns() && OnlyLoose(0) && Tables() && sumPeak == old(sumPeak)
        invariant saw >= 0 && Sweeping(old(Seen()), trail, Seen(), pids, i, observer, seen, sum, saw)
      {
        var pid := pids[i];
        if pid == observer || pid in seen {
          SweepSkips(old(Seen()), trail, Seen(), pids, i, observer, seen, sum, saw);
          continue;
        }
        sum, saw, trail := SampleNext(pids, i, seen, sum, saw, old(Seen()), trail);
        seen := seen + {pid};
      }
      assert pids[..|pids|] == pids;
      if saw > 0 {
        sumPeak := if sumPeak.None? || sumPeak.value < sum then Some(sum) else sumPeak;
      }
    }

    /** A loose handle for the root: a narrowed copy of the process handle, else one
        looked by pid whose creation matches, else none. */
    method RootHandle(id: Identity) returns (h: int)
      requires Owns() && OnlyLoose(0) && Tables() && process in api.names && process != 0
      requires retained == map[] && api.names[process] == id
      modifies this`role, this`ledger, this`calls, this`gaps, api`live, api`names, api`members, api`closes, api`log
      ensures Owns() && OnlyLoose(h) && LivePids() && LedgerOk() && Onward(old(Seen()), Seen())
      ensures h != 0 ==> Tables() && retained == map[] && IsLoose(h) && api.names[h] == id && calls == old(calls)
      ensures h == 0 ==> Denied(old(api.log), api.log, id) && RowOnly(old(Seen()), Seen(), id)
      ensures gaps == if h != 0 then old(gaps)
                      else if api.log[|api.log| - 1] == OpenedAs(id.pid, None) then CountedGap(old(gaps), false)
                      else CountedGap(old(gaps), true)
    {
      h := DuplicateLoose();
      if h == 0 {
        h := OpenLoose(id.pid);
        ghost var looked := api.log;
        if h == 0 {
          assert Denies(api.log[|old(api.log)| + 1], id);
          RefuseRoot(id, false);
        } else {
          h := CheckedRoot(id, h);
          if h == 0 {
            StillDenied(old(api.log), looked, api.log, api.log, id);
          }
        }
      }
    }

    method CheckedRoot(id: Identity, candidate: int) returns (h: int)
      requires Owns() && OnlyLoose(candidate) && Tables() && IsLoose(candidate)
      requires retained == map[] && api.names[candidate].pid == id.pid
      modifies this`role, this`ledger, this`calls, this`gaps, api`live, api`names, api`members, api`closes, api`log
      ensures Owns() && OnlyLoose(h) && LivePids() && LedgerOk() && Onward(old(Seen()), Seen())
      ensures h != 0 ==> Tables() && IsLoose(h) && api.names[h] == id && calls == old(calls) && gaps == old(gaps)
      ensures h == 0 ==> Denied(old(api.log), api.log, id) && RowOnly(old(Seen()), Seen(), id)
      ensures h == 0 ==> gaps == CountedGap(old(gaps), true) && api.log[|api.log| - 1].TicksOf?
    {
      var ticks := api.CreationTicks(candidate);
      assert ticks != Some(id.creation) ==> Denies(api.log[|old(api.log)|], id);
      if ticks == Some(id.creation) {
        return candidate;
      }
      Discard(candidate);
      RefuseRoot(id, true);
      return 0;
    }

    /** One more refusal: a no, or no proof. */
    static function CountedGap(gaps: Gaps, rejected: bool): Gaps {
      if rejected then gaps.(rejected := gaps.rejected + 1) else gaps.(unproven := gaps.unproven + 1)
    }

    /** The root could not be held: it gets a row without a handle and the spawn fails. */
    method RefuseRoot(id: Identity, rejected: bool)
      requires LedgerOk()
      modifies this`ledger, this`calls, this`gaps
      ensures LedgerOk() && calls == old(calls) + [Add(id)]
      ensures gaps == CountedGap(old(gaps), rejected)
    {
      gaps := if rejected
              then gaps.(rejected := gaps.rejected + 1)
              else gaps.(unproven := gaps.unproven + 1);
      Record(Add(id));
    }

    method OpenLoose(pid: int) returns (h: int)
      requires Owns() && OnlyLoose(0)
      modifies this`role, api`live, api`names, api`members, api`log
      ensures Owns() && OnlyLoose(h) && old(api.members) <= api.members
      ensures h != 0 ==> IsLoose(h) && api.names[h].pid == pid
      ensures api.log == old(api.log) + [OpenedAs(pid, if h == 0 then None else Some(api.names[h]))]
    {
      AllParts();
      h := api.OpenQuery(pid);
      if h != 0 {
        role := role[h := Loose];
      }
    }

    method DuplicateLoose() returns (h: int)
      requires Owns() && OnlyLoose(0) && process in api.names
      modifies this`role, api`live, api`names, api`members, api`log
      ensures Owns() && OnlyLoose(h) && old(api.members) <= api.members
      ensures h != 0 ==> IsLoose(h) && api.names[h] == old(api.names)[process]
      ensures api.log == old(api.log) + [Duplicated(old(api.names)[process], h != 0)]
    {
      AllParts();
      h := api.DuplicateQuery(process);
      if h != 0 {
        role := role[h := Loose];
      }
    }

    /** Holds a query handle for the root before it may run. */
    method RetainRoot(id: Identity) returns (ok: bool)
      requires Owns() && OnlyLoose(0) && Tables() && job != 0 && process in api.names && process != 0
      requires retained == map[] && api.names[process] == id
      modifies this`role, this`retained, this`livePid, this`ledger, this`calls, this`gaps
      modifies api`live, api`names, api`members, api`readings, api`closes, api`log
      ensures Owns() && OnlyLoose(0) && LivePids() && LedgerOk() && Onward(old(Seen()), Seen())
      ensures ok ==> Attributed() && id in retained && RootProven(api.log, id) && |old(api.log)| + 3 <= |api.log|
      ensures !ok ==>
        || (Denied(old(api.log), api.log, id) && RowOnly(old(Seen()), Seen(), id))
        || (!Admissible(id) && calls == old(calls) + [Truncate] && gaps == old(gaps))
    {
      var h := RootHandle(id);
      if h == 0 {
        return false;
      }
      ok := ProvedRoot(id, h);
      if !ok {
        return;
      }
      ok := KeepAndReadRoot(id, h);
    }

    method KeepAndReadRoot(id: Identity, h: int) returns (ok: bool)
      requires Owns() && OnlyLoose(h) && IsLoose(h) && Tables()
      requires api.names[h] == id && id in api.members && retained == map[]
      modifies this`role, this`retained, this`livePid, this`ledger, this`calls
      modifies api`live, api`names, api`members, api`readings, api`closes, api`log
      ensures Owns() && OnlyLoose(0) && Tables() && Onward(old(Seen()), Seen())
      ensures ok <==> Admissible(id)
      ensures !ok ==> calls == old(calls) + [Truncate]
      ensures ok ==>
        && id in retained && |api.log| == |old(api.log)| + 1
        && api.log[|old(api.log)|].MemoryOf? && api.log[|old(api.log)|].process == id
    {
      ok := KeepHandle(id, h);
      if ok {
        var _ := ReadLive(id);
      }
    }

    /** Checks a root handle; a handle that fails the check is closed. */
    method ProvedRoot(id: Identity, h: int) returns (ok: bool)
      requires Owns() && OnlyLoose(h) && IsLoose(h) && Tables() && job != 0
      requires retained == map[] && api.names[h].pid == id.pid
      modifies this`role, this`ledger, this`calls, this`gaps, api`live, api`names, api`members, api`closes, api`log
      ensures Owns() && LivePids() && LedgerOk() && Onward(old(Seen()), Seen())
      ensures !ok ==> OnlyLoose(0)
      ensures ok ==>
        && Tables() && OnlyLoose(h) && IsLoose(h)
        && api.names[h] == id && id in api.members
        && api.log == old(api.log) + [JobOf(id, Some(true)), TicksOf(id, Some(id.creation))]
      ensures !ok ==> Denied(old(api.log), api.log, id) && RowOnly(old(Seen()), Seen(), id)
      ensures ok ==> calls == old(calls) && gaps == old(gaps)
      ensures !ok ==>
        && |api.log| == |old(api.log)| + 2 && api.log[|old(api.log)|].JobOf? && api.log[|old(api.log)| + 1].TicksOf?
        && var inJob, ticks := api.log[|old(api.log)|].inJob, api.log[|old(api.log)| + 1].ticks;
           gaps == CountedGap(old(gaps), inJob == Some(false) || (ticks.Some? && ticks != Some(id.creation)))
    {
      LaunchHandle();
      var member := api.IsInJob(h, job);
      var copied := api.CreationTicks(h);
      ghost var n := |old(api.log)|;
      assert api.log[n] == JobOf(api.names[h], member) && api.log[n + 1] == TicksOf(api.names[h], copied);
      if member == Some(true) && copied == Some(id.creation) {
        return true;
      }
      Discard(h);
      RefuseRoot(id, member == Some(false) || (copied.Some? && copied.value != id.creation));
      return false;
    }

    /** Creates the job and the suspended root, proves the root a member, retains its
        query handle and only then lets it run, once. `before` is the moment before the
        root runs. A failed spawn lets nothing run; the handles obtained so far are
        still owned, and a close gives them back. */
    method Spawn() returns (ok: bool, ghost root: Identity, ghost before: Trace)
      requires Valid() && !closed && job == process == thread == 0 && retained == map[]
      modifies this, api
      ensures Owns() && OnlyLoose(0) && LivePids() && LedgerOk() && !closed
      ensures Onward(old(Seen()), before)
      ensures ok ==> Valid() && job != 0 && root.pid == rootPid && root in retained && root in ledger.rows
      ensures ok ==> root in before.held && RootProven(before.log, root) && |old(api.log)| + 3 <= |before.log|
      ensures ok ==> Onward(Answered(before, Resumed(thread, true)), Seen()) && FirstSampled(before, old(sumPeak))
      ensures !ok ==> Seen() == before || NotResumed(before, Seen(), thread)
      ensures !ok && process != 0 ==> WasTerminated(api.log)
      ensures !ok ==> Denied(old(api.log), api.log, root) || NoSuchIdentity(old(api.log), api.log, root)
    {
      ok, root := PrepareRoot();
      before := Seen();
      if ok {
        ok := Resume();
        assert !ok ==> Denies(api.log[|before.log|], root);
      }
    }

    /** Everything up to the moment before the root may run. */
    method PrepareRoot() returns (ok: bool, ghost root: Identity)
      requires Valid() && !closed && job == process == thread == 0 && retained == map[]
      modifies this`job, this`process, this`thread, this`rootPid
      modifies this`role, this`retained, this`livePid, this`ledger, this`calls, this`gaps
      modifies api`live, api`names, api`members, api`readings, api`closes, api`log
      ensures Owns() && OnlyLoose(0) && LivePids() && LedgerOk() && Onward(old(Seen()), Seen())
      ensures ok ==>
        && Attributed() && root.pid == rootPid && root in retained && job != 0 && process != 0 && thread != 0
        && RootProven(api.log, root) && |old(api.log)| + 3 <= |api.log|
      ensures !ok && process != 0 ==> WasTerminated(api.log)
      ensures !ok ==> Denied(old(api.log), api.log, root) || NoSuchIdentity(old(api.log), api.log, root)
    {
      root := Identity(0, 0);
      ok := CreateRoot();
      if ok {
        ghost var made := api.log;
        ok, root := AdmitRoot();
        if !ok {
          if Denied(made, api.log, root) {
            StillDenied(old(api.log), made, api.log, api.log, root);
          } else {
            StillNoSuch(old(api.log), made, api.log, api.log, root);
          }
        }
      }
    }

    method AdmitRoot() returns (ok: bool, ghost root: Identity)
      requires Owns() && OnlyLoose(0) && Tables() && job != 0 && process in api.names && process != 0 && retained == map[]
      requires api.names[process].pid == rootPid
      modifies this`role, this`retained, this`livePid, this`ledger, this`calls, this`gaps
      modifies api`live, api`names, api`members, api`readings, api`closes, api`log
      ensures Owns() && OnlyLoose(0) && LivePids() && LedgerOk() && Onward(old(Seen()), Seen())
      ensures ok ==>
        && Attributed() && root.pid == rootPid && root in retained
        && RootProven(api.log, root) && |old(api.log)| + 3 <= |api.log|
      ensures !ok ==> WasTerminated(api.log)
      ensures !ok ==> Denied(old(api.log), api.log, root) || NoSuchIdentity(old(api.log), api.log, root)
    {
      root := api.names[process];
      var id := RootIdentity();
      ghost var known := api.log;
      if id.None? {
        TerminateRoot();
        StillDenied(old(api.log), old(api.log), known, api.log, root);
        return false, root;
      }
      ok := RetainRoot(id.value);
      if !ok {
        ghost var refused := api.log;
        TerminateRoot();
        if Denied(known, refused, root) {
          StillDenied(old(api.log), known, refused, api.log, root);
        } else {
          assert api.log[|old(api.log)|] == TicksOf(root, Some(root.creation));
        }
      }
    }

    /** The root as its own process handle proves it, or none. */
    method RootIdentity() returns (id: Option<Identity>)
      requires Owns() && job != 0 && process in api.names && process != 0 && api.names[process].pid == rootPid
      modifies api`members, api`log
      ensures old(api.members) <= api.members && Onward(old(Seen()), Seen())
      ensures id.Some? ==> id.value == api.names[process] && |old(api.log)| + 2 <= |api.log|
      ensures id.Some? ==> api.log[|old(api.log)|] == TicksOf(id.value, Some(id.value.creation))
      ensures id.None? ==> Denied(old(api.log), api.log, api.names[process])
      ensures api.names == old(api.names)
    {
      LaunchHandle();
      var ticks := api.CreationTicks(process);
      var member := api.IsInJob(process, job);
      ghost var n, root := |old(api.log)|, api.names[process];
      assert api.log[n] == TicksOf(root, ticks) && api.log[n + 1] == JobOf(root, member);
      if ticks.None? || member != Some(true) {
        return None;
      }
      return Some(Identity(rootPid, ticks.value));
    }

    method TerminateRoot()
      requires Owns() && process != 0
      modifies api`members, api`log
      ensures old(api.members) <= api.members && Onward(old(Seen()), Seen()) && WasTerminated(api.log)
    {
      LaunchHandle();
      var _ := api.Touch(process, TerminatingProcess);
    }

    method CreateRoot() returns (ok: bool)
      requires Valid() && !closed && job == process == thread == 0 && retained == map[]
      modifies this`job, this`process, this`thread, this`rootPid, this`role, api`live, api`names, api`members, api`log
      ensures Owns() && OnlyLoose(0) && Tables() && Onward(old(Seen()), Seen())
      ensures ok ==> job != 0 && process != 0 && thread != 0 && process in api.names && api.names[process].pid == rootPid
      ensures !ok ==> process == 0 && forall root :: Denied(old(api.log), api.log, root)
    {
      ok := CreateJob();
      if ok {
        ghost var before := api.log;
        ok := CreateProcess();
        assert api.log[|before|] == RootMade(ok);
      }
    }

    method CreateJob() returns (ok: bool)
      requires Owns() && OnlyLoose(0) && job == process == thread == 0
      modifies this`job, this`role, api`live, api`members, api`log
      ensures Owns() && OnlyLoose(0) && old(api.members) <= api.members
      ensures Onward(old(Seen()), Seen())
      ensures ok ==> job != 0
      ensures !ok ==> forall root :: Denied(old(api.log), api.log, root)
    {
      AllParts();
      job := api.CreateJob();
      if job == 0 {
        forall root ensures Denied(old(api.log), api.log, root) {
          assert Denies(api.log[|old(api.log)|], root);
        }
        return false;
      }
      role := role[job := TheJob];
      ok := api.SetKillOnClose(job);
      if !ok {
        forall root ensures Denied(old(api.log), api.log, root) {
          assert Denies(api.log[|old(api.log)| + 1], root);
        }
      }
    }

    method CreateProcess() returns (ok: bool)
      requires Owns() && OnlyLoose(0) && job != 0 && process == thread == 0
      modifies this`process, this`thread, this`rootPid, this`role, api`live, api`names, api`members, api`log
      ensures Owns() && OnlyLoose(0) && old(api.members) <= api.members
      ensures api.log == old(api.log) + [RootMade(ok)]
      ensures ok ==> process != 0 && thread != 0 && process in api.names && api.names[process].pid == rootPid
      ensures !ok ==> process == 0
    {
      AllParts();
      process, thread, rootPid := api.CreateSuspended(job);
      if process == 0 {
        return false;
      }
      role := role[process := TheProcess][thread := TheThread];
      return true;
    }

    /** The root was let run, and then one sample was taken. */
    ghost predicate FirstSampled(before: Trace, peak: Option<int>)
      reads this`calls, this`retained, this`gaps, this`sumPeak, this`thread, api`log
    {
      exists trail :: Sampled(Answered(before, Resumed(thread, true)), trail, Seen(), observer, peak, sumPeak)
    }

    /** The root runs; from here on the owner thread uses its handles at any time. */
    method Resume() returns (ok: bool)
      requires Owns() && OnlyLoose(0) && Tables() && job != 0 && process != 0 && thread != 0 && !closed
      modifies this`role, this`retained, this`livePid, this`ledger, this`calls, this`gaps, this`sumPeak, api
      ensures Owns() && OnlyLoose(0) && LivePids() && LedgerOk()
      ensures ok ==> Valid() && Onward(Answered(old(Seen()), Resumed(thread, true)), Seen())
      ensures ok ==> api.owners == {job, process} && FirstSampled(old(Seen()), old(sumPeak))
      ensures !ok ==> NotResumed(old(Seen()), Seen(), thread)
    {
      LaunchHandle();
      ok := api.Resume(thread);
      if !ok {
        var _ := api.Touch(job, TerminatingJob);
        return;
      }
      HandToOwner();
      ghost var start, peak := Seen(), sumPeak;
      ghost var trail := Sample();
      SampledIsOnward(start, trail, Seen(), observer, peak, sumPeak);
    }

    method HandToOwner()
      requires Owns() && job != 0 && process != 0
      modifies api`owners
      ensures Owns() && api.owners == {job, process}
    {
      AllParts();
      api.owners := {job, process};
    }

    // ----------------------------------- the owner's calls outside the lock

    method CpuMicroseconds() returns (cpu: Option<int>)
      requires Valid()
      modifies api`members, api`log
      ensures Valid() && (cpu.Some? ==> job != 0) && old(api.members) <= api.members
      ensures job != 0 ==>
        && |api.log| == |old(api.log)| + 1 && api.log[|old(api.log)|].CountedAs?
        && InMicroseconds(cpu, api.log[|old(api.log)|].info)
    {
      if job == 0 {
        return None;
      }
      LaunchHandle();
      var info := api.AccountingOf(job);
      return CpuOf(info);
    }

    method StillActive() returns (active: Option<bool>)
      requires Valid()
      modifies api`members, api`log
      ensures Valid() && (active.Some? ==> job != 0) && old(api.members) <= api.members
      ensures job != 0 ==>
        && |api.log| == |old(api.log)| + 1 && api.log[|old(api.log)|].CountedAs?
        && var info := api.log[|old(api.log)|].info;
           active == if info.None? then None else Some(info.value.active > 0)
    {
      if job == 0 {
        return None;
      }
      LaunchHandle();
      var info := api.AccountingOf(job);
      return if info.None? then None else Some(info.value.active > 0);
    }

    method WaitRoot() returns (signaled: bool)
      requires Valid()
      modifies api`members, api`log
      ensures Valid() && old(api.members) <= api.members
      ensures if process == 0 then !signaled && api.log == old(api.log)
              else api.log == old(api.log) + [Touched(WaitingForRoot, signaled)]
    {
      if process == 0 {
        return false;
      }
      LaunchHandle();
      signaled := api.Touch(process, WaitingForRoot);
    }

    method Terminate() returns (ok: bool)
      requires Valid()
      modifies api`members, api`log
      ensures Valid() && old(api.members) <= api.members
      ensures if job == 0 then !ok && api.log == old(api.log)
              else api.log == old(api.log) + [Touched(TerminatingJob, ok)]
    {
      if job == 0 {
        return false;
      }
      LaunchHandle();
      ok := api.Touch(job, TerminatingJob);
    }

    // ---------------------------------------------------------- final readings

    /** Tells the ledger what the question to one retained process came to. */
    method RecordVerdict(ghost a: Asked, id: Identity, high: Option<int>) returns (noted: bool)
      requires LedgerOk() && id in ledger.rows && a.id == id && high == PeakOf(a)
      requires high.Some? ==> Measured(Final(id, high), api.readings)
      modifies this`ledger, this`calls
      ensures LedgerOk() && noted == Succeeded(a) && calls == old(calls) + [Told(a)]
      ensures ledger.rows.Keys == old(ledger.rows.Keys)
      ensures forall other :: other in ledger.rows && other != id ==> ledger.rows[other] == old(ledger.rows)[other]
      ensures ledger.rows[id].final <==> noted
    {
      ghost var before := calls;
      var call := if high.Some? then Final(id, high) else Unfinal(id);
      assert LedgerHas(IsItsHistory) && LedgerHas(WasMeasured);
      ProvenStep(calls, call, api.readings);
      ledger := Apply(ledger, call);
      calls := calls + [call];
      assert calls[..|calls| - 1] == before;
      return Counter(high);
    }

    /** The peak of a retained process, if its handle still answers for it. */
    method AskPeak(id: Identity) returns (high: Option<int>, ghost a: Asked)
      requires Owns() && LedgerOk() && id in retained
      modifies api`members, api`readings, api`log
      ensures LedgerOk() && old(api.members) <= api.members
      ensures high.Some? ==> Measured(Final(id, high), api.readings)
      ensures a.id == id && high == PeakOf(a) && api.log == old(api.log) + Heard(a)
    {
      HeldHandle(id);
      var h := retained[id];
      var ticks := api.CreationTicks(h);
      a := Asked(id, ticks, None);
      if ticks != Some(id.creation) {
        return None, a;
      }
      var memory := api.WorkingSet(h);
      a := Asked(id, ticks, memory);
      GrewStillOk();
      if memory.None? {
        return None, a;
      }
      assert Reading(id, memory.value.0, memory.value.1) in api.readings;
      return Some(memory.value.1), a;
    }

    /** Asks one retained process for its final peak. Its row is final afterwards exactly
        if the question just asked was answered. */
    method FinalPeak(id: Identity) returns (noted: bool, ghost a: Asked)
      requires Owns() && LedgerOk() && Attributed() && id in retained
      modifies this`ledger, this`calls, api`members, api`readings, api`log
      ensures LedgerOk() && Attributed() && old(api.members) <= api.members
      ensures a.id == id && api.log == old(api.log) + Heard(a) && calls == old(calls) + [Told(a)]
      ensures ledger.rows.Keys == old(ledger.rows.Keys)
      ensures forall other :: other in ledger.rows && other != id ==> ledger.rows[other] == old(ledger.rows)[other]
      ensures ledger.rows[id].final <==> noted
      ensures noted <==> Succeeded(a)
    {
      var high;
      high, a := AskPeak(id);
      noted := RecordVerdict(a, id, high);
    }

    /** After the drain every retained process is asked once more, each exactly once. Its
        row is final afterwards exactly if that question was answered, and the number of
        unanswered ones is reported. */
    method ReadFinalPeaks() returns (ghost asked: seq<Asked>)
      requires Owns() && LedgerOk() && Attributed()
      modifies this`ledger, this`calls, this`gaps, api`members, api`readings, api`log
      ensures LedgerOk() && Attributed() && old(api.members) <= api.members
      ensures api.log == old(api.log) + HeardAll(asked) && calls == old(calls) + ToldAll(asked)
      ensures EachOnce(asked, retained.Keys) && FinalIfAnswered(asked)
      ensures ledger.rows.Keys == old(ledger.rows.Keys)
      ensures gaps == old(gaps).(finalFailed := FailedOf(asked))
    {
      var left := retained.Keys;
      var failed := 0;
      asked := [];
      while left != {}
        invariant LedgerOk() && Attributed() && old(api.members) <= api.members
        invariant left <= retained.Keys
        invariant Followed(old(api.log), old(calls), asked, api.log, calls)
        invariant EachOnce(asked, retained.Keys - left) && FinalIfAnswered(asked)
        invariant ledger.rows.Keys == old(ledger.rows.Keys)
        invariant failed == FailedOf(asked) && gaps == old(gaps)
        decreases left
      {
        var id :| id in left;
        assert retained.Keys - (left - {id}) == (retained.Keys - left) + {id};
        var noted;
        noted, asked := AskNext(id, old(api.log), old(calls), asked, retained.Keys - left);
        left := left - {id};
        if !noted {
          failed := failed + 1;
        }
      }
      assert retained.Keys - left == retained.Keys;
      gaps := gaps.(finalFailed := failed);
    }

    /** Asks the next retained process, after those in `done`. */
    method AskNext(
        id: Identity, ghost log: seq<Answer>, ghost told: seq<Call>, ghost asked: seq<Asked>, ghost done: set<Identity>)
      returns (noted: bool, ghost more: seq<Asked>)
      requires Owns() && LedgerOk() && Attributed() && id in retained && id !in done
      requires Followed(log, told, asked, api.log, calls) && EachOnce(asked, done) && FinalIfAnswered(asked)
      modifies this`ledger, this`calls, api`members, api`readings, api`log
      ensures LedgerOk() && Attributed() && old(api.members) <= api.members
      ensures Followed(log, told, more, api.log, calls) && EachOnce(more, done + {id}) && FinalIfAnswered(more)
      ensures ledger.rows.Keys == old(ledger.rows.Keys)
      ensures FailedOf(more) == FailedOf(asked) + if noted then 0 else 1
    {
      ghost var a;
      noted, a := FinalPeak(id);
      AskedNext(asked, a, done);
      FollowedNext(log, told, asked, old(api.log), old(calls), a);
      FinalNext(old(ledger.rows), asked, a, done);
      more := asked + [a];
    }

    ghost predicate FinalIfAnswered(asked: seq<Asked>)
      reads this`ledger
    {
      FinalRows(ledger.rows, asked)
    }

    /** One more process was asked; the verdicts on the earlier ones stand. */
    lemma FinalNext(rows: map<Identity, Row>, asked: seq<Asked>, a: Asked, done: set<Identity>)
      requires EachOnce(asked, done) && a.id !in done && FinalRows(rows, asked)
      requires ledger.rows.Keys == rows.Keys && a.id in rows
      requires forall other :: other in rows && other != a.id ==> ledger.rows[other] == rows[other]
      requires ledger.rows[a.id].final <==> Succeeded(a)
      ensures FinalIfAnswered(asked + [a])
    {
      var more := asked + [a];
      forall i | 0 <= i < |more|
        ensures more[i].id in ledger.rows && (ledger.rows[more[i].id].final <==> Succeeded(more[i]))
      {
        if i < |asked| {
          assert more[i] == asked[i] && asked[i].id in done;
        }
      }
    }

    function SizesState(drained: bool): SizeState
      reads this`ledger
    {
      if drained && ledger.rows != map[] && (forall id :: id in ledger.rows ==> ledger.rows[id].final) then
        FinalOnObservedHandles
      else if exists id :: id in ledger.rows && ledger.rows[id].peak.Some? then
        LatestObservation
      else
        Unavailable
    }

    /** What a snapshot with these answers says. The number of identities missing is
        exactly the number of processes the job counted that have no row, so it is never
        negative, and it is null only when the job could not be queried. The sizes are
        called final only after a drain, when there is a row and every retained process
        has just been asked and has answered. The parts are behind a quantifier, as those of
        `Owns`. */
    ghost predicate Reported(s: Snapshot, e: Inquiry)
      reads this`ledger, this`gaps, this`retained, this`sumPeak
    {
      forall part: ReportPart :: Reports(s, e, part)
    }

    ghost predicate Reports(s: Snapshot, e: Inquiry, part: ReportPart)
      reads this`ledger, this`gaps, this`retained, this`sumPeak
    {
      match part
      case Counters =>
        && InMicroseconds(s.cpu, e.info) && s.drained == Drained(e)
        && s.gaps == gaps && s.truncated == ledger.truncated && s.sumPeak == sumPeak
        && s.observer == if e.pids.None? then None else Some(observer in e.pids.value)
      case Identities =>
        && (forall id :: id in ledger.rows ==> id in e.counted)
        && s.missing == if e.info.None? then None else Some(|e.counted - ledger.rows.Keys|)
      case Questions => if Drained(e) then EachOnce(e.asked, retained.Keys) && FinalIfAnswered(e.asked) else e.asked == []
      case Sizes =>
        && (s.state.FinalOnObservedHandles? <==> Drained(e) && e.asked != [] && AllSucceeded(e.asked))
        && (s.state.Unavailable? ==> forall id :: id in ledger.rows ==> ledger.rows[id].peak.None?)
        && (s.state.LatestObservation? ==> exists id :: id in ledger.rows && ledger.rows[id].peak.Some?)
    }

    method TakeSnapshot() returns (s: Snapshot, ghost e: Inquiry)
      requires Valid()
      modifies this`ledger, this`calls, this`gaps, api`members, api`readings, api`log
      ensures Valid() && (old(RowsAreMembers()) ==> RowsAreMembers())
      ensures job == 0 ==> s == NoJobSnapshot() && Seen() == old(Seen()) && ledger == old(ledger)
      ensures job != 0 ==> Inquired(e) && Reported(s, e)
    {
      if job == 0 {
        s := NoJobSnapshot();
        e := Inquiry({}, None, false, [], None, false);
        return;
      }
      LaunchHandle();
      s, e := SnapshotLocked();
    }

    /** The answers heard and the calls made since are exactly those of the inquiry, and
        the processes counted are those the job had at that moment. */
    twostate predicate Inquired(e: Inquiry)
      reads this`calls, this`gaps, api`log, api`members
    {
      && old(api.members) <= e.counted && e.counted <= api.members
      && (e.info.Some? ==> e.info.value.total == |e.counted|)
      && api.log == old(api.log) + AnswersTo(e) && calls == old(calls) + NotesOn(e)
      && gaps == if Drained(e) then old(gaps).(finalFailed := FailedOf(e.asked)) else old(gaps)
    }

    function NoJobSnapshot(): (s: Snapshot)
      reads this`ledger, this`gaps, this`sumPeak
      ensures s.cpu == s.missing == None && s.observer == None && !s.drained && !s.state.FinalOnObservedHandles?
      ensures s.gaps == gaps && s.truncated == ledger.truncated && s.sumPeak == sumPeak
      ensures s.state.Unavailable? <==> forall id :: id in ledger.rows ==> ledger.rows[id].peak.None?
    {
      Assembled(None, false, None)
    }

    method SnapshotLocked() returns (s: Snapshot, ghost e: Inquiry)
      requires Owns() && LedgerOk() && Attributed() && job != 0
      modifies this`ledger, this`calls, this`gaps, api`members, api`readings, api`log
      ensures LedgerOk() && Attributed() && Inquired(e) && Reported(s, e)
    {
      var info, drained, inside;
      info, drained, inside, e := Gather();
      s := Assembled(info, drained, inside);
      AssembledReports(info, drained, inside, e);
    }

    lemma AssembledReports(info: Option<Accounting>, drained: bool, inside: Option<bool>, e: Inquiry)
      requires Attributed() && e.info == info && drained == Drained(e)
      requires inside == if e.pids.None? then None else Some(observer in e.pids.value)
      requires info.Some? ==> info.value.total == |e.counted|
      requires forall id :: id in ledger.rows ==> id in e.counted
      requires if drained then EachOnce(e.asked, retained.Keys) && FinalIfAnswered(e.asked) else e.asked == []
      ensures Reported(Assembled(info, drained, inside), e)
    {
      var s := Assembled(info, drained, inside);
      CountMissing(e.counted);
      if drained {
        AllFinal(e.asked);
      }
      assert Reports(s, e, Counters) && Reports(s, e, Identities) && Reports(s, e, Questions) && Reports(s, e, Sizes);
    }

    /** Asks everything a snapshot is made of. */
    method Gather() returns (info: Option<Accounting>, drained: bool, inside: Option<bool>, ghost e: Inquiry)
      requires Owns() && LedgerOk() && Attributed() && job != 0
      modifies this`ledger, this`calls, this`gaps, api`members, api`readings, api`log
      ensures LedgerOk() && Attributed() && Inquired(e)
      ensures e.info == info && drained == Drained(e)
      ensures inside == if e.pids.None? then None else Some(observer in e.pids.value)
      ensures forall id :: id in ledger.rows ==> id in e.counted
      ensures if drained then EachOnce(e.asked, retained.Keys) && FinalIfAnswered(e.asked) else e.asked == []
    {
      LaunchHandle();
      info := api.AccountingOf(job);
      ghost var counted := api.members;
      ghost var limits, asked;
      var known := api.Touch(job, ReadingLimits);
      limits := known;
      drained, asked := FinalPass(info);
      var pids, truncated := ListPids();
      inside := if pids.None? then None else Some(observer in pids.value);
      e := Inquiry(counted, info, limits, asked, pids, truncated);
      AnswersInOrder(old(api.log), old(calls), e);
    }

    function Assembled(info: Option<Accounting>, drained: bool, inside: Option<bool>): Snapshot
      reads this`ledger, this`gaps, this`sumPeak
    {
      Snapshot(
        CpuOf(info), if info.None? then None else Missing(info.value.total),
        drained, SizesState(drained), gaps, ledger.truncated, inside, sumPeak)
    }

    method FinalPass(info: Option<Accounting>) returns (drained: bool, ghost asked: seq<Asked>)
      requires Owns() && LedgerOk() && Attributed() && job != 0
      modifies this`ledger, this`calls, this`gaps, api`members, api`readings, api`log
      ensures LedgerOk() && Attributed() && old(api.members) <= api.members
      ensures ledger.rows.Keys == old(ledger.rows.Keys)
      ensures drained <==> info.Some? && info.value.active == 0
      ensures api.log == old(api.log) + HeardAll(asked) && calls == old(calls) + ToldAll(asked)
      ensures if drained then EachOnce(asked, retained.Keys) && FinalIfAnswered(asked) else asked == []
      ensures gaps == if drained then old(gaps).(finalFailed := FailedOf(asked)) else old(gaps)
    {
      drained := info.Some? && info.value.active == 0;
      asked := [];
      if drained {
        asked := ReadFinalPeaks();
      }
    }

    function Missing(total: int): Option<int>
      reads this`ledger
    {
      var missing := total - |ledger.rows|;
      if missing < 0 then None else Some(missing)
    }

    /** The pid list is read once more. */
    method ListPids() returns (pids: Option<seq<int>>, truncated: bool)
      requires Owns() && LedgerOk() && Attributed() && job != 0
      modifies this`ledger, this`calls, api`members, api`log
      ensures LedgerOk() && Attributed() && old(api.members) <= api.members && ledger.rows == old(ledger.rows)
      ensures api.log == old(api.log) + [Listed(pids, truncated)]
      ensures calls == old(calls) + if truncated then [Truncate] else []
    {
      LaunchHandle();
      pids, truncated := api.JobPids(job);
      if truncated {
        Record(Truncate);
      }
    }

    lemma CountMissing(counted: set<Identity>)
      requires Attributed() && forall id :: id in ledger.rows ==> id in counted
      ensures |counted| - |ledger.rows| == |counted - ledger.rows.Keys|
    {
      assert counted == ledger.rows.Keys + (counted - ledger.rows.Keys);
    }

    /** After everyone was asked, all rows are final exactly if all questions were
        answered, and there is a row exactly if there was a question. */
    lemma AllFinal(asked: seq<Asked>)
      requires Attributed() && EachOnce(asked, retained.Keys) && FinalIfAnswered(asked)
      ensures (forall id :: id in ledger.rows ==> ledger.rows[id].final)
        <==> AllSucceeded(asked)
      ensures ledger.rows == map[] <==> asked == []
    {
      forall id | id in ledger.rows ensures exists i :: 0 <= i < |asked| && asked[i].id == id {
        assert id in retained.Keys;
      }
      if asked != [] {
        assert asked[0].id in retained.Keys;
      }
    }

    // ------------------------------------------------------------------- close

    /** All open handles, each once. */
    method CollectHandles() returns (ordered: seq<int>)
      requires Owns() && OnlyLoose(0)
      ensures forall h :: h in ordered <==> h in api.live
      ensures forall i, j :: 0 <= i < j < |ordered| ==> ordered[i] != ordered[j]
    {
      AllParts();
      ordered := [];
      var left := retained.Keys;
      while left != {}
        invariant left <= retained.Keys
        invariant forall h :: h in ordered ==> h in role && role[h].Query? && role[h].id !in left
        invariant forall id :: id in retained && id !in left ==> retained[id] in ordered
        invariant forall i, j :: 0 <= i < j < |ordered| ==> ordered[i] != ordered[j]
        decreases left
      {
        var id :| id in left;
        ordered := ordered + [retained[id]];
        left := left - {id};
      }
      if thread != 0 { ordered := ordered + [thread]; }
      if process != 0 { ordered := ordered + [process]; }
      if job != 0 { ordered := ordered + [job]; }
      forall h | h in api.live ensures h in ordered { assert RoleHolds(h, role[h]); }
    }

    /** Gives each handle of the list back, once, in order. */
    method CloseAll(ordered: seq<int>) returns (failure: Option<int>)
      requires api.Valid() && api.owners == {}
      requires forall h :: h in ordered <==> h in api.live
      requires forall i, j :: 0 <= i < j < |ordered| ==> ordered[i] != ordered[j]
      modifies api`live, api`names, api`members, api`closes
      ensures api.Valid() && api.live == {} && old(api.closes) <= api.closes && old(api.members) <= api.members
      ensures var list := api.closes[|old(api.closes)|..];
        && |list| == |ordered| && (forall i :: 0 <= i < |ordered| ==> list[i].handle == ordered[i])
        && failure == FirstFailure(list)
    {
      failure := None;
      ghost var list: seq<Closing> := [];
      for i := 0 to |ordered|
        invariant api.Valid() && api.owners == {} && old(api.members) <= api.members
        invariant forall h :: h in ordered[i..] <==> h in api.live
        invariant api.closes == old(api.closes) + list && |list| == i && failure == FirstFailure(list)
        invariant forall k :: 0 <= k < i ==> list[k].handle == ordered[k]
      {
        assert ordered[i] in ordered[i..];
        var answer := api.Close(ordered[i]);
        assert (list + [Closing(ordered[i], answer)])[..|list|] == list;
        list := list + [Closing(ordered[i], answer)];
        if failure.None? {
          failure := answer;
        }
        assert ordered[i + 1..] == ordered[i..][1..];
        assert forall h :: h in ordered[i..] <==> h == ordered[i] || h in ordered[i + 1..];
      }
      ghost var rest := ordered[|ordered|..];
      assert forall h :: h in rest <==> h in api.live;
      assert rest == [];
      assert forall h :: h !in rest;
      assert api.closes[|old(api.closes)|..] == list;
    }

    /** Gives every handle back, once. The tables and the owner's handles are cleared
        first, so a thread that takes the lock afterwards finds nothing to use. The result
        is the first error, if any handle could not be given back; a later close only
        repeats it. */
    method Close() returns (failure: Option<int>)
      requires Owns() && OnlyLoose(0) && LivePids() && LedgerOk()
      requires closed ==> Valid()
      modifies this`closed, this`closeResult, this`retained, this`livePid, this`role
      modifies this`job, this`process, this`thread, api`owners, api`live, api`names, api`members, api`closes
      ensures Valid() && closed && api.live == {} && failure == closeResult
      ensures ledger == old(ledger) && calls == old(calls) && old(api.members) <= api.members
      ensures old(closed) ==> failure == old(closeResult) && api.closes == old(api.closes)
      ensures !old(closed) ==>
        && old(api.closes) <= api.closes
        && var list := api.closes[|old(api.closes)|..];
           GaveBack(list, old(api.live)) && failure == FirstFailure(list)
    {
      if closed {
        return closeResult;
      }
      closed := true;
      var ordered := CollectHandles();
      ClearTables();
      closeResult := CloseAll(ordered);
      AllGaveBack(ordered, api.closes[|old(api.closes)|..], old(api.live));
      return closeResult;
    }

    static lemma AllGaveBack(ordered: seq<int>, list: seq<Closing>, handles: set<int>)
      requires |list| == |ordered| && forall i :: 0 <= i < |ordered| ==> list[i].handle == ordered[i]
      requires forall h :: h in ordered <==> h in handles
      requires forall i, j :: 0 <= i < j < |ordered| ==> ordered[i] != ordered[j]
      ensures GaveBack(list, handles)
    {
      forall h ensures h in handles <==> exists i :: 0 <= i < |list| && list[i].handle == h {
        if h in handles {
          var i :| 0 <= i < |ordered| && ordered[i] == h;
          assert list[i].handle == h;
        }
      }
    }

    method ClearTables()
      modifies this`retained, this`livePid, this`role, this`job, this`process, this`thread, api`owners
      ensures retained == map[] && livePid == map[] && role == map[] && api.owners == {}
      ensures job == process == thread == 0
    {
      retained, livePid, role := map[], map[], map[];
      job, process, thread, api.owners := 0, 0, 0, {};
    }
  }

  // ------------------------------------------------------- all interleavings

  /** A turn of one of the two threads. The sampler's turn holds the lock throughout;
      during it, any query may coincide with one of the owner's unlocked calls,
      whose handles are kept open by `NativeApi.Valid`. */
  datatype Turn = SamplerSample | OwnerCpu | OwnerStillActive | OwnerWait | OwnerTerminate | OwnerSnapshot | OwnerClose

  /** A launch under any schedule of the sampler and the owner and any answers of the
      system. At the end no handle is open: since a handle can only be closed while
      it is open, each one that was obtained was closed exactly once. */
  method AnySchedule(observer: int, schedule: seq<Turn>) returns (backend: WindowsJobBackend, spawned: bool)
    ensures backend.closed && backend.api.live == {}
    ensures backend.LedgerOk() && backend.retained == map[] && backend.livePid == map[]
    ensures spawned ==> backend.RowsAreMembers()
  {
    var api := new NativeApi();
    backend := new WindowsJobBackend(api, observer);
    spawned := Launch(backend);
    if spawned {
      Turns(backend, schedule);
    }
    var _ := backend.Close();
    if spawned {
      Turns(backend, schedule);
    }
  }

  method Launch(backend: WindowsJobBackend) returns (spawned: bool)
    requires backend.Valid() && !backend.closed && backend.job == backend.process == backend.thread == 0
    requires backend.retained == map[]
    modifies backend, backend.api
    ensures backend.Owns() && backend.OnlyLoose(0) && backend.LivePids() && backend.LedgerOk() && !backend.closed
    ensures spawned ==> backend.Valid() && backend.RowsAreMembers()
  {
    ghost var root, before;
    spawned, root, before := backend.Spawn();
  }

  method Turns(backend: WindowsJobBackend, schedule: seq<Turn>)
    requires backend.Valid()
    modifies backend, backend.api
    ensures backend.Valid() && (old(backend.closed) ==> backend.closed)
    ensures old(backend.RowsAreMembers()) ==> backend.RowsAreMembers()
  {
    for i := 0 to |schedule|
      invariant backend.Valid() && (old(backend.closed) ==> backend.closed)
      invariant old(backend.RowsAreMembers()) ==> backend.RowsAreMembers()
    {
      Take(backend, schedule[i]);
    }
  }

  method Take(backend: WindowsJobBackend, turn: Turn)
    requires backend.Valid()
    modifies backend, backend.api
    ensures backend.Valid() && (old(backend.closed) ==> backend.closed)
    ensures old(backend.RowsAreMembers()) ==> backend.RowsAreMembers()
  {
    match turn
    case SamplerSample => ghost var _ := backend.Sample();
    case OwnerCpu => var _ := backend.CpuMicroseconds();
    case OwnerStillActive => var _ := backend.StillActive();
    case OwnerWait => var _ := backend.WaitRoot();
    case OwnerTerminate => var _ := backend.Terminate();
    case OwnerSnapshot => var _, _ := backend.TakeSnapshot();
    case OwnerClose => var _ := backend.Close();
  }
}
