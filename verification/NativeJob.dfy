/** The operating system as the Windows backend sees it: an adversary that may fail
    any query, start and end processes, reuse pids and reuse handle values. Its
    truthful part is small: an open handle keeps naming one process, a process that
    is reported to be in the job is in it, and the job counts its processes. A call
    on a handle that is not open does not verify, so neither does a second close. */
module NativeJob {
  import opened Common
  import opened LedgerHistory

  /** One successful memory query: which process it measured and what it returned. */
  datatype Reading = Reading(process: Identity, current: int, peak: int)

  datatype Accounting = Accounting(user: nat, kernel: nat, total: nat, active: nat)

  /** What the system answered, in order. A query on a handle is an answer about the
      process that the handle names. */
  datatype Answer =
    | OpenedAs(pid: int, found: Option<Identity>)
    | TicksOf(process: Identity, ticks: Option<int>)
    | JobOf(process: Identity, inJob: Option<bool>)
    | LiveOf(process: Identity, live: Option<bool>)
    | MemoryOf(process: Identity, memory: Option<(int, int)>)
    | CountedAs(counted: set<Identity>, info: Option<Accounting>)
    | Listed(pids: Option<seq<int>>, truncated: bool)
    | JobMade(ok: bool)
    | RootMade(ok: bool)
    | Resumed(thread: int, ok: bool)
    | Duplicated(process: Identity, ok: bool)
    | KillOnClose(ok: bool)
    | Touched(purpose: Purpose, ok: bool)

  /** What else an open handle is used for. */
  datatype Purpose = WaitingForRoot | TerminatingProcess | TerminatingJob | ReadingLimits

  /** A handle that was given back, and the error if that failed. */
  datatype Closing = Closing(handle: int, failure: Option<int>)

  class NativeApi {
    /** Handles that were handed out and not yet passed to CloseHandle. */
    var live: set<int>
    /** The process that an open process handle names. */
    var names: map<int, Identity>
    /** Every process that was ever in the job. */
    var members: set<Identity>
    ghost var readings: set<Reading>
    ghost var log: seq<Answer>
    ghost var closes: seq<Closing>
    /** Handles that the owner thread may use at any moment without the lock. */
    ghost var owners: set<int>

    ghost predicate Valid()
      reads this`live, this`names, this`owners
    {
      names.Keys <= live && 0 !in live && owners <= live
    }

    /** What every query keeps: handles, their meaning, and all that was learnt. */
    twostate predicate Calm()
      reads this
    {
      && live == old(live) && names == old(names) && owners == old(owners)
      && old(members) <= members && old(readings) <= readings
    }

    constructor ()
      ensures Valid() && live == {} && readings == {} && owners == {} && log == [] && closes == []
    {
      live, names, members := {}, map[], {};
      readings, owners, log, closes := {}, {}, [], [];
    }

    /** The world moves on: any processes may have entered the job. */
    method Tick()
      requires Valid()
      modifies this`members
      ensures Valid() && Calm() && readings == old(readings)
    {
      var entered: set<Identity> := *;
      members := members + entered;
    }

    method Obtain() returns (h: int)
      requires Valid()
      modifies this`live, this`members
      ensures Valid() && old(members) <= members
      ensures h == 0 ==> live == old(live)
      ensures h != 0 ==> h !in old(live) && live == old(live) + {h}
    {
      Tick();
      h := *;
      if h in live { h := 0; }
      if h != 0 { live := live + {h}; }
    }

    method CreateJob() returns (h: int)
      requires Valid()
      modifies this`live, this`members, this`log
      ensures Valid() && old(members) <= members
      ensures h == 0 ==> live == old(live)
      ensures h != 0 ==> h !in old(live) && live == old(live) + {h}
      ensures log == old(log) + [JobMade(h != 0)]
    {
      h := Obtain();
      log := log + [JobMade(h != 0)];
    }

    method SetKillOnClose(job: int) returns (ok: bool)
      requires Valid() && job in live
      modifies this`members, this`log
      ensures Valid() && Calm() && log == old(log) + [KillOnClose(ok)]
    {
      Tick();
      ok := *;
      log := log + [KillOnClose(ok)];
    }

    /** A suspended process with a process handle and a thread handle, or nothing. */
    method CreateSuspended(job: int) returns (process: int, thread: int, pid: int)
      requires Valid() && job in live
      modifies this`live, this`names, this`members, this`log
      ensures Valid() && old(members) <= members
      ensures log == old(log) + [RootMade(process != 0)]
      ensures process == 0 ==> thread == 0 && live == old(live) && names == old(names)
      ensures process != 0 ==>
        && process !in old(live) && process in names && names[process].pid == pid
        && names == old(names)[process := names[process]]
        && thread !in old(live) + {process, 0}
        && live == old(live) + {process, thread}
    {
      Tick();
      process, thread, pid := *, *, *;
      var creation: int := *;
      if process == 0 || process in live || thread == 0 || thread in live || process == thread {
        log := log + [RootMade(false)];
        return 0, 0, 0;
      }
      log := log + [RootMade(true)];
      live := live + {process, thread};
      names := names[process := Identity(pid, creation)];
    }

    method CreationTicks(h: int) returns (ticks: Option<int>)
      requires Valid() && h in names
      modifies this`members, this`log
      ensures Valid() && Calm()
      ensures ticks.Some? ==> ticks.value == names[h].creation
      ensures log == old(log) + [TicksOf(names[h], ticks)]
    {
      Tick();
      var known: bool := *;
      ticks := if known then Some(names[h].creation) else None;
      log := log + [TicksOf(names[h], ticks)];
    }

    method IsInJob(h: int, job: int) returns (answer: Option<bool>)
      requires Valid() && h in names && job in live
      modifies this`members, this`log
      ensures Valid() && Calm()
      ensures answer == Some(true) ==> names[h] in members
      ensures log == old(log) + [JobOf(names[h], answer)]
    {
      Tick();
      answer := *;
      if answer == Some(true) && names[h] !in members { answer := Some(false); }
      log := log + [JobOf(names[h], answer)];
    }

    method ProcessIsLive(h: int) returns (answer: Option<bool>)
      requires Valid() && h in names
      modifies this`members, this`log
      ensures Valid() && Calm()
      ensures log == old(log) + [LiveOf(names[h], answer)]
    {
      Tick();
      answer := *;
      log := log + [LiveOf(names[h], answer)];
    }

    /** Opens whatever process has this pid now; the pid may have been reused. */
    method OpenQuery(pid: int) returns (h: int)
      requires Valid()
      modifies this`live, this`names, this`members, this`log
      ensures Valid() && old(members) <= members
      ensures h == 0 ==> live == old(live) && names == old(names)
      ensures h != 0 ==>
        && h !in old(live) && live == old(live) + {h}
        && h in names && names == old(names)[h := names[h]] && names[h].pid == pid
      ensures log == old(log) + [OpenedAs(pid, if h == 0 then None else Some(names[h]))]
    {
      h := Obtain();
      if h != 0 {
        var creation: int := *;
        names := names[h := Identity(pid, creation)];
      }
      log := log + [OpenedAs(pid, if h == 0 then None else Some(names[h]))];
    }

    method DuplicateQuery(process: int) returns (h: int)
      requires Valid() && process in names
      modifies this`live, this`names, this`members, this`log
      ensures Valid() && old(members) <= members
      ensures h == 0 ==> live == old(live) && names == old(names)
      ensures h != 0 ==>
        && h !in old(live) && live == old(live) + {h}
        && names == old(names)[h := old(names)[process]]
      ensures log == old(log) + [Duplicated(old(names)[process], h != 0)]
    {
      h := Obtain();
      log := log + [Duplicated(names[process], h != 0)];
      if h != 0 { names := names[h := names[process]]; }
    }

    method WorkingSet(h: int) returns (memory: Option<(int, int)>)
      requires Valid() && h in names
      modifies this`members, this`readings, this`log
      ensures Valid() && Calm()
      ensures memory.Some? ==> Reading(names[h], memory.value.0, memory.value.1) in readings
      ensures log == old(log) + [MemoryOf(names[h], memory)]
    {
      Tick();
      memory := *;
      if memory.Some? {
        readings := readings + {Reading(names[h], memory.value.0, memory.value.1)};
      }
      log := log + [MemoryOf(names[h], memory)];
    }

    method AccountingOf(job: int) returns (info: Option<Accounting>)
      requires Valid() && job in live
      modifies this`members, this`log
      ensures Valid() && Calm()
      ensures info.Some? ==> info.value.total == |members| && info.value.active <= info.value.total
      ensures log == old(log) + [CountedAs(members, info)]
    {
      Tick();
      var known: bool := *;
      var times: (nat, nat) := *;
      var active: nat := *;
      if active > |members| { active := 0; }
      info := if known then Some(Accounting(times.0, times.1, |members|, active)) else None;
      log := log + [CountedAs(members, info)];
    }

    method JobPids(job: int) returns (pids: Option<seq<int>>, truncated: bool)
      requires Valid() && job in live
      modifies this`members, this`log
      ensures Valid() && Calm()
      ensures log == old(log) + [Listed(pids, truncated)]
    {
      Tick();
      pids, truncated := *, *;
      log := log + [Listed(pids, truncated)];
    }

    method Resume(thread: int) returns (ok: bool)
      requires Valid() && thread in live
      modifies this`members, this`log
      ensures Valid() && Calm()
      ensures log == old(log) + [Resumed(thread, ok)]
    {
      Tick();
      ok := *;
      log := log + [Resumed(thread, ok)];
    }

    /** Any other call on an open handle. */
    method Touch(h: int, purpose: Purpose) returns (ok: bool)
      requires Valid() && h in live
      modifies this`members, this`log
      ensures Valid() && Calm() && log == old(log) + [Touched(purpose, ok)]
    {
      Tick();
      ok := *;
      log := log + [Touched(purpose, ok)];
    }

    /** Gives back an open handle that no other thread is still using. Whatever the answer,
        the handle is not used again. */
    method Close(h: int) returns (failure: Option<int>)
      requires Valid() && h in live && h !in owners
      modifies this`live, this`names, this`members, this`closes
      ensures Valid() && old(members) <= members
      ensures live == old(live) - {h} && names == old(names) - {h}
      ensures closes == old(closes) + [Closing(h, failure)]
    {
      Tick();
      live := live - {h};
      names := names - {h};
      failure := *;
      closes := closes + [Closing(h, failure)];
    }
  }
}
