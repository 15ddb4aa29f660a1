/** One resident-size query through a Mach task-name port. Any call may raise, and the
    name call may hand out a port even when it fails. The system logs every call and
    keeps a port until a drop of it succeeds. */
module TaskPort {
  import opened Common

  const BASIC_INFO_COUNT: int := 12

  datatype MachCall =
    | SelfAsked(raised: bool)
    | NameAsked(pid: int, raised: bool, kr: int, port: int)
    | InfoAsked(port: int, raised: bool, kr: int, count: int, peak: int)
    | DropAsked(port: int, raised: bool, kr: int)

  class Mach {
    /** Name ports handed out and not yet dropped with success. */
    var held: set<int>
    var log: seq<MachCall>

    constructor ()
      ensures held == {} && log == []
    {
      held, log := {}, [];
    }

    method TaskSelf() returns (raised: bool)
      modifies this`log
      ensures log == old(log) + [SelfAsked(raised)]
    {
      raised := *;
      log := log + [SelfAsked(raised)];
    }

    method TaskNameForPid(pid: int) returns (raised: bool, kr: int, port: int)
      modifies this
      ensures log == old(log) + [NameAsked(pid, raised, kr, port)]
      ensures port == 0 ==> held == old(held)
      ensures port != 0 ==> port !in old(held) && held == old(held) + {port}
    {
      raised, kr, port := *, *, *;
      if port in held { port := 0; }
      if port != 0 { held := held + {port}; }
      log := log + [NameAsked(pid, raised, kr, port)];
    }

    method TaskInfo(port: int) returns (raised: bool, kr: int, count: int, peak: int)
      requires port in held
      modifies this`log
      ensures log == old(log) + [InfoAsked(port, raised, kr, count, peak)]
    {
      raised, kr, count, peak := *, *, *, *;
      log := log + [InfoAsked(port, raised, kr, count, peak)];
    }

    /** A drop that raises or returns nonzero has not dropped the port. */
    method Deallocate(port: int) returns (raised: bool, kr: int)
      requires port in held
      modifies this
      ensures log == old(log) + [DropAsked(port, raised, kr)]
      ensures held == if raised || kr != 0 then old(held) else old(held) - {port}
    {
      raised, kr := *, *;
      if !raised && kr == 0 { held := held - {port}; }
      log := log + [DropAsked(port, raised, kr)];
    }
  }

  datatype TaskRss = TaskRss(
    accepted: bool, kr: Option<int>, count: Option<int>, peak: Option<int>,
    released: seq<int>, dropKr: Option<int>, dropFailed: bool)

  // -------------------------------------------------------- what a query may ask

  /** The calls that drop `port`: none without a port, else one question after the own
      task and, unless that raises, one drop. */
  predicate Drops(w: seq<MachCall>, port: int) {
    if port == 0 then w == []
    else w == [SelfAsked(true)] || (|w| == 2 && w[0] == SelfAsked(false) && w[1].DropAsked? && w[1].port == port)
  }

  predicate Denied(c: MachCall)
    requires c.NameAsked?
  {
    c.raised || c.kr != 0 || c.port == 0
  }

  /** The calls of one whole query. */
  predicate Queries(w: seq<MachCall>, pid: int) {
    if pid <= 0 then w == []
    else
      && w != [] && w[0].SelfAsked?
      && (if w[0].raised then |w| == 1 else Asks(w[1..], pid))
  }

  predicate Asks(w: seq<MachCall>, pid: int) {
    && w != [] && w[0].NameAsked? && w[0].pid == pid
    && if Denied(w[0]) then Drops(w[1..], w[0].port)
       else |w| > 1 && w[1].InfoAsked? && w[1].port == w[0].port && Drops(w[2..], w[0].port)
  }

  /** The port that a query obtained, 0 for none. */
  function PortOf(w: seq<MachCall>): int {
    if |w| > 1 && w[1].NameAsked? then w[1].port else 0
  }

  predicate DropSucceeds(c: MachCall) {
    c.DropAsked? && !c.raised && c.kr == 0
  }

  /** A port was obtained, and asking after the own task raised while it was being
      dropped, or the drop itself raised or returned nonzero. */
  predicate LeavesBehind(w: seq<MachCall>) {
    PortOf(w) != 0 && !DropSucceeds(w[|w| - 1])
  }

  /** The reading that the answers of a query amount to. */
  function ReadingOf(w: seq<MachCall>): (bool, Option<int>, Option<int>, Option<int>)
    requires |w| > 2 ==> w[1].NameAsked? && (Denied(w[1]) || w[2].InfoAsked?)
    requires |w| == 2 ==> w[1].NameAsked? && Denied(w[1])
  {
    if |w| < 2 || (!Denied(w[1]) && w[2].raised) then (false, None, None, None)
    else if Denied(w[1]) then (false, if w[1].raised then None else Some(w[1].kr), None, None)
    else if w[2].kr != 0 || w[2].count != BASIC_INFO_COUNT then (false, Some(w[2].kr), Some(w[2].count), None)
    else (true, Some(0), Some(w[2].count), Some(w[2].peak))
  }

  /** What a query reports follows from the answers it got. */
  predicate Reports(r: TaskRss, w: seq<MachCall>, pid: int) {
    && Queries(w, pid)
    && (r.accepted, r.kr, r.count, r.peak) == ReadingOf(w)
    && r.dropFailed == LeavesBehind(w)
    && r.released == (if PortOf(w) == 0 || LeavesBehind(w) then [] else [PortOf(w)])
    && r.dropKr == (if w != [] && w[|w| - 1].DropAsked? && !w[|w| - 1].raised then Some(w[|w| - 1].kr) else None)
  }

  /** What the record says of dropping `port`, by the calls `d` that dropped it. */
  predicate DropReported(r: TaskRss, port: int, d: seq<MachCall>) {
    if port == 0 then !r.dropFailed && r.released == [] && r.dropKr == None
    else
      && d != []
      && var last := d[|d| - 1];
      && r.dropFailed == !DropSucceeds(last) && r.released == (if DropSucceeds(last) then [port] else [])
      && r.dropKr == (if last.DropAsked? && !last.raised then Some(last.kr) else None)
  }

  lemma DeniedReport(pid: int, named: MachCall, d: seq<MachCall>, r: TaskRss)
    requires pid > 0 && named.NameAsked? && named.pid == pid && Denied(named) && Drops(d, named.port)
    requires (r.accepted, r.kr, r.count, r.peak) == (false, if named.raised then None else Some(named.kr), None, None)
    requires DropReported(r, named.port, d)
    ensures Reports(r, [SelfAsked(false)] + ([named] + d), pid)
  {
    var w := [SelfAsked(false)] + ([named] + d);
    assert w[1..] == [named] + d && w[1..][1..] == d;
  }

  lemma ReadReport(pid: int, named: MachCall, info: MachCall, d: seq<MachCall>, r: TaskRss)
    requires pid > 0 && named.NameAsked? && named.pid == pid && !Denied(named) && Drops(d, named.port)
    requires info.InfoAsked? && info.port == named.port && DropReported(r, named.port, d)
    requires (r.accepted, r.kr, r.count, r.peak) == ReadingOf([SelfAsked(false), named, info])
    ensures Reports(r, [SelfAsked(false)] + ([named, info] + d), pid)
  {
    var w := [SelfAsked(false)] + ([named, info] + d);
    assert w[1..] == [named, info] + d && w[1..][2..] == d;
  }

  /** How often a drop of `port` was asked for. */
  function Issued(w: seq<MachCall>, port: int): nat {
    if w == [] then 0 else (if w[0].DropAsked? && w[0].port == port then 1 else 0) + Issued(w[1..], port)
  }

  lemma DropsIssued(w: seq<MachCall>, obtained: int, port: int)
    requires Drops(w, obtained)
    ensures Issued(w, port) == if port != 0 && port == obtained && w[|w| - 1] != SelfAsked(true) then 1 else 0
  {
    if |w| == 2 {
      var v := w[1..];
      assert v[1..] == [];
      assert Issued(v, port) == if v[0].DropAsked? && v[0].port == port then 1 else 0;
    } else if |w| == 1 {
      assert w[1..] == [];
    }
  }

  /** A query drops the port it obtained once, and nothing else, unless asking after the
      own task raises. */
  lemma DroppedOnce(w: seq<MachCall>, pid: int, port: int)
    requires Queries(w, pid)
    ensures Issued(w, port) == if port != 0 && port == PortOf(w) && w[|w| - 1] != SelfAsked(true) then 1 else 0
  {
    if |w| > 1 {
      var v := w[1..];
      assert PortOf(w) == v[0].port;
      if Denied(v[0]) {
        DropsIssued(v[1..], v[0].port, port);
      } else {
        DropsIssued(v[2..], v[0].port, port);
        assert v[1..][1..] == v[2..];
        assert Issued(v, port) == Issued(v[1..], port) == Issued(v[2..], port);
      }
    } else if w != [] {
      assert w[1..] == [];
    }
  }

  /** Both ways to leave a port behind: an accepted reading whose port could not be
      dropped, because the own task could not be named or because the drop failed. */
  lemma PortsCanBeLeftBehind()
    ensures var w := [SelfAsked(false), NameAsked(7, false, 0, 5), InfoAsked(5, false, 0, 12, 4096), SelfAsked(true)];
      Queries(w, 7) && LeavesBehind(w) && ReadingOf(w).0 && Issued(w, 5) == 0
    ensures var w := [SelfAsked(false), NameAsked(7, false, 0, 5), InfoAsked(5, false, 0, 12, 4096),
                      SelfAsked(false), DropAsked(5, false, 15)];
      Queries(w, 7) && LeavesBehind(w) && ReadingOf(w).0 && Issued(w, 5) == 1
  {
    var asked := [SelfAsked(false), NameAsked(7, false, 0, 5), InfoAsked(5, false, 0, 12, 4096)];
    var w, v := asked + [SelfAsked(true)], asked + [SelfAsked(false), DropAsked(5, false, 15)];
    assert w[1..][2..] == [SelfAsked(true)] && v[1..][2..] == [SelfAsked(false), DropAsked(5, false, 15)];
    DroppedOnce(w, 7, 5);
    DroppedOnce(v, 7, 5);
  }

  // ------------------------------------------------------------------- the query

  /** The query with its local state: the port and what became of dropping it. */
  class Query {
    const mach: Mach
    var port: int
    var released: seq<int>
    var dropKr: Option<int>
    var dropFailed: bool

    constructor (mach: Mach)
      ensures this.mach == mach && port == 0 && released == [] && dropKr == None && !dropFailed
    {
      this.mach := mach;
      port, released, dropKr, dropFailed := 0, [], None, false;
    }

    /** Whatever happens, the port is given up and what became of it is recorded; the
        system holds it still exactly if no drop of it succeeded. */
    method Release()
      requires port != 0 ==> port in mach.held && released == [] && dropKr == None && !dropFailed
      modifies this, mach
      ensures port == 0 && old(mach.log) <= mach.log
      ensures Drops(mach.log[|old(mach.log)|..], old(port))
      ensures Recorded(old(port), mach.log[|old(mach.log)|..], old(mach.held), mach.held)
      ensures old(port) == 0 ==> released == old(released) && dropKr == old(dropKr) && dropFailed == old(dropFailed)
    {
      if port == 0 {
        return;
      }
      var name := port;
      port := 0;
      var unnamed := mach.TaskSelf();
      if unnamed {
        dropFailed := true;
        return;
      }
      var raised, returned := mach.Deallocate(name);
      if raised {
        dropFailed := true;
        return;
      }
      dropKr := Some(returned);
      if returned != 0 {
        dropFailed := true;
        return;
      }
      released := released + [name];
    }

    /** The record agrees with the calls `w` that dropped `port`. */
    ghost predicate Recorded(port: int, w: seq<MachCall>, before: set<int>, after: set<int>)
      reads this
    {
      if port == 0 then after == before
      else
        && DropReported(Pack(false, None, None, None), port, w)
        && after == if DropSucceeds(w[|w| - 1]) then before - {port} else before
    }

    function Pack(accepted: bool, kr: Option<int>, count: Option<int>, peak: Option<int>): TaskRss
      reads this
    {
      TaskRss(accepted, kr, count, peak, released, dropKr, dropFailed)
    }

    /** One task_info call; the port is given up whatever it answered. */
    method ReadAndRelease() returns (info: MachCall)
      requires port != 0 && port in mach.held && released == [] && dropKr == None && !dropFailed
      modifies this, mach
      ensures port == 0 && old(mach.log) + [info] <= mach.log
      ensures info.InfoAsked? && info.port == old(port)
      ensures Drops(mach.log[|old(mach.log)| + 1..], old(port))
      ensures Recorded(old(port), mach.log[|old(mach.log)| + 1..], old(mach.held), mach.held)
    {
      var raised, kr, count, peak := mach.TaskInfo(port);
      info := InfoAsked(port, raised, kr, count, peak);
      Release();
    }

    method Run(pid: int) returns (r: TaskRss)
      requires port == 0 && released == [] && dropKr == None && !dropFailed
      modifies this, mach
      ensures old(mach.log) <= mach.log && Reports(r, mach.log[|old(mach.log)|..], pid)
      ensures Keeps(mach.log[|old(mach.log)|..], old(mach.held), mach.held)
    {
      if pid <= 0 {
        return Pack(false, None, None, None);
      }
      var raised := mach.TaskSelf();
      if raised {
        Release();
        return Pack(false, None, None, None);
      }
      ghost var w;
      r, w := Ask(pid);
      assert mach.log[|old(mach.log)|..] == [SelfAsked(false)] + w;
    }

    /** The query from the name call on. */
    method Ask(pid: int) returns (r: TaskRss, ghost w: seq<MachCall>)
      requires pid > 0 && port == 0 && released == [] && dropKr == None && !dropFailed
      modifies this, mach
      ensures mach.log == old(mach.log) + w && Reports(r, [SelfAsked(false)] + w, pid)
      ensures Keeps([SelfAsked(false)] + w, old(mach.held), mach.held)
    {
      var raised, kr;
      raised, kr, port := mach.TaskNameForPid(pid);
      ghost var named, log := NameAsked(pid, raised, kr, port), mach.log;
      if raised || kr != 0 || port == 0 {
        Release();
        r := Pack(false, if raised then None else Some(kr), None, None);
        ghost var d := mach.log[|log|..];
        w := [named] + d;
        DeniedReport(pid, named, d, r);
        return;
      }
      r, w := Read(named);
    }

    /** The query from the task_info call on. */
    method Read(ghost named: MachCall) returns (r: TaskRss, ghost w: seq<MachCall>)
      requires named.NameAsked? && named.pid > 0 && !Denied(named) && named.port == port
      requires port in mach.held && released == [] && dropKr == None && !dropFailed
      modifies this, mach
      ensures old(mach.log) <= mach.log && w == [named] + mach.log[|old(mach.log)|..]
      ensures Reports(r, [SelfAsked(false)] + w, named.pid)
      ensures mach.held == if LeavesBehind([SelfAsked(false)] + w) then old(mach.held) else old(mach.held) - {named.port}
    {
      var info := ReadAndRelease();
      ghost var d := mach.log[|old(mach.log)| + 1..];
      w := [named, info] + d;
      if info.raised {
        r := Pack(false, None, None, None);
      } else if info.kr != 0 || info.count != BASIC_INFO_COUNT {
        r := Pack(false, Some(info.kr), Some(info.count), None);
      } else {
        r := Pack(true, Some(0), Some(info.count), Some(info.peak));
      }
      ReadReport(named.pid, named, info, d, r);
    }
  }

  /** What a query adds to the ports held: the one it left behind, if any. */
  ghost predicate Keeps(w: seq<MachCall>, before: set<int>, after: set<int>) {
    && (PortOf(w) != 0 ==> PortOf(w) !in before)
    && after == if LeavesBehind(w) then before + {PortOf(w)} else before
  }

  /** A query leaves a port behind if and only if it obtained one and, while dropping it,
      asking after the own task raised, or the drop raised or returned nonzero. That is
      reported always and nothing else is. */
  method QueryTask(mach: Mach, pid: int) returns (r: TaskRss)
    modifies mach
    ensures old(mach.log) <= mach.log && Reports(r, mach.log[|old(mach.log)|..], pid)
    ensures Keeps(mach.log[|old(mach.log)|..], old(mach.held), mach.held)
    ensures mach.held == old(mach.held) <==> !LeavesBehind(mach.log[|old(mach.log)|..])
    ensures r.dropFailed <==> mach.held != old(mach.held)
  {
    var query := new Query(mach);
    r := query.Run(pid);
  }
}
