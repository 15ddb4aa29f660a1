/** What the operating system does for the parent of the residency probe. Before each
    call the child may take any number of steps; after that the call answers in any
    way a kernel may. The effect of each call on the shared state is a function, and
    no effect breaks the invariant of the handshake. */
module ProbeKernel {
  import opened Common
  import opened ProbeRecord
  import opened ProbeChild

  // ------------------------------------------------------------ effects of a call

  /** A read that fails. */
  function Lost(s: State): State {
    s.(astray := true)
  }

  /** A frame read by the parent. */
  function Hear(s: State): State {
    if s.astray || s.toParent == [] then
      Lost(s)
    else
      var t := s.(toParent := s.toParent[1..]);
      if s.stage == 0 && s.toParent[0] == ReadyMessage then t.(stage := 1)
      else if s.stage == 3 && s.toParent[0].DoneMessage? then t.(stage := 4)
      else t.(astray := true)
  }

  /** A frame written by the parent; behind part of another frame it reads as noise. */
  function Send(s: State, m: Message, noise: seq<Message>): State {
    var t := s.(log := s.log + [ParentWrote(m)]);
    if s.partial then t.(astray := true, toChild := noise)
    else if s.stage == 2 && m == AllocMessage then t.(stage := 3, toChild := s.toChild + [m])
    else if s.stage == 5 && m == ReleaseMessage then t.(stage := 6, toChild := s.toChild + [m])
    else t.(astray := true, toChild := s.toChild + [m])
  }

  /** A write that fails, perhaps after part of the frame. */
  function SendFails(s: State, torn: bool): State {
    s.(partial := torn || s.partial)
  }

  /** A task_info answer, with the peak if the answer was complete. */
  function Answer(s: State, peak: Option<nat>): State {
    var t := s.(log := s.log + [Queried(peak)], counter := if peak.Some? then peak.value else s.counter);
    if s.stage == 1 && peak.Some? then t.(stage := 2, base := peak.value)
    else if s.stage == 4 && peak.Some? then t.(stage := 5, live := peak.value)
    else if s.stage == 7 then t.(stage := 8, post := peak)
    else t.(astray := true)
  }

  /** The ended child is reaped. */
  function Reap(s: State): State {
    var t := s.(log := s.log + [ChildReaped]);
    if s.stage == 6 && Clean(s.pc) then t.(stage := 7) else t.(astray := true)
  }

  /** The name port is dropped. */
  function Drop(s: State): State {
    var t := s.(log := s.log + [PortDropped]);
    if s.stage == 8 then t.(stage := 9) else t.(astray := true)
  }

  predicate HonestPeak(s: State, peak: Option<nat>) {
    s.honest && peak.Some? ==> s.counter <= peak.value
  }

  lemma LostKeeps(s: World)
    ensures Invariant(Lost(s))
  {
    Meaning(s);
    Meaning(Lost(s));
  }

  lemma HearKeeps(s: World)
    ensures Invariant(Hear(s))
    ensures !s.astray && s.stage == 0 && s.toParent != [] ==>
              s.toParent[0] == ReadyMessage && Hear(s) == s.(toParent := [], stage := 1)
    ensures !s.astray && s.stage == 3 && s.toParent != [] ==>
              s.toParent[0] == DoneMessage(s.rss) && Hear(s) == s.(toParent := [], stage := 4)
  {
    Meaning(s);
    Meaning(Hear(s));
  }

  lemma SendKeeps(s: World, m: Message, noise: seq<Message>)
    ensures Invariant(Send(s, m, noise))
  {
    Meaning(s);
    Meaning(Send(s, m, noise));
  }

  lemma SendFailsKeeps(s: World, torn: bool)
    ensures Invariant(SendFails(s, torn))
  {
    Meaning(s);
    Meaning(SendFails(s, torn));
  }

  lemma AnswerKeeps(s: World, peak: Option<nat>)
    requires HonestPeak(s, peak)
    ensures Invariant(Answer(s, peak))
    ensures !s.astray && s.honest && s.stage == 4 && peak.Some? ==> s.base <= s.rss <= peak.value
  {
    Meaning(s);
    Meaning(Answer(s, peak));
  }

  lemma ReapKeeps(s: World)
    requires s.pc.Ended?
    ensures Invariant(Reap(s))
    ensures Clean(s.pc) && !s.astray && 5 <= s.stage <= 6 ==> Reap(s).stage == 7 && !Reap(s).astray
  {
    Meaning(s);
    Meaning(Reap(s));
  }

  /** A child exits with 0 only after the parent wrote the release. */
  lemma NoEarlyExit(s: World)
    requires !s.astray && s.stage <= 5 && s.pc.Ended?
    ensures Word(s.pc.how) != 0
  {
    Meaning(s);
    WordDecodes(s.pc.how);
  }

  lemma DropKeeps(s: World)
    ensures Invariant(Drop(s))
  {
    Meaning(s);
    Meaning(Drop(s));
  }

  // --------------------------------------------------------------------- the calls

  /** What waitpid answers. `NoChild` is the error that says there is no such child. */
  datatype Wait = NotYet | Child(status: nat) | Interrupted | NoChild | OtherError
  datatype KillResult = Sent | NoSuchProcess | Refused

  const TIMED_OUT: int := -2

  /** Everything the kernel answered, by kind: frames read and written with their result, name
      requests, samples, drops, waits, readings of the clock, and kills with the number of
      waits answered before. */
  datatype Seen = Seen(
    heard: seq<(int, Message)>, writes: seq<(Message, int)>, names: seq<(int, bool)>, samples: seq<Sample>,
    dropped: seq<int>, waits: seq<Wait>, readings: seq<int>, kills: seq<(KillResult, nat)>)

  const NOTHING_SEEN: Seen := Seen([], [], [], [], [], [], [], [])

  /** Before the reap a child that still runs or has exited with 0, after it none. */
  predicate Expected(w: Wait, reaped: bool) {
    match w
    case NotYet => !reaped
    case Interrupted => !reaped
    case Child(status) => status == 0
    case NoChild => reaped
    case OtherError => false
  }

  /** The effect of signal 9. */
  predicate KilledNow(s: State, t: State) {
    t == Kill(s, 9, false)
  }

  class Kernel {
    const pid: int
    var s: World
    var held: bool
    var reaped: bool
    var now: int
    var interrupts: nat
    /** No call was answered in a way that ends the run early. */
    ghost var smooth: bool
    ghost var seen: Seen
    ghost var grants: nat
    ghost var drops: nat
    ghost var reaps: nat
    ghost var kills: nat

    ghost predicate Valid()
      reads this
    {
      && (reaped ==> s.pc.Ended?)
      && grants == drops + (if held then 1 else 0)
      && reaps == (if reaped then 1 else 0) && |seen.kills| == kills
    }

    /** A forked child of which nothing has been heard; interruptions come finitely
        often. */
    constructor (pid: int, honest: bool, now: int, interrupts: nat)
      ensures Valid() && s == Initial(honest) && this.pid == pid
      ensures !held && !reaped && grants == kills == 0 && seen == NOTHING_SEEN && smooth
    {
      InitialInvariant(honest);
      this.pid, s, held, reaped := pid, Initial(honest), false, false;
      this.now, this.interrupts := now, interrupts;
      grants, drops, reaps, kills, seen, smooth := 0, 0, 0, 0, NOTHING_SEEN, true;
    }

    /** The child runs for a while and time passes. */
    method Others()
      requires Valid()
      modifies `s, `now
      ensures Valid() && ChildOnly(old(s), s) && old(now) <= now
    {
      var more: bool := *;
      var fuel: nat := 0;
      if more {
        var some: int := *;
        fuel := if some < 0 then 0 else some;
      }
      while fuel > 0
        invariant Valid() && ChildOnly(old(s), s) && now == old(now)
      {
        var c: Choice := *;
        if c.GoOn? || c.CallFails? || c.CallTimesOut? || c.Killed? {
          StepKeeps(s, c);
          s := Step(s, c);
        }
        fuel := fuel - 1;
      }
      var later: int := *;
      if now <= later {
        now := later;
      }
    }

    method Now() returns (t: int)
      requires Valid()
      modifies `s, `now, `seen
      ensures Valid() && ChildOnly(old(s), s) && old(now) <= now == t
      ensures seen == old(seen).(readings := old(seen).readings + [t])
    {
      Others();
      t := now;
      seen := seen.(readings := seen.readings + [t]);
    }

    /** `poll` without descriptors: it sleeps, unless it is interrupted. */
    method Sleep()
      requires Valid()
      modifies `s, `now, `interrupts
      ensures Valid() && ChildOnly(old(s), s) && old(now) <= now
      ensures interrupts < old(interrupts) || (interrupts == old(interrupts) && old(now) < now)
    {
      Others();
      var cut: bool := *;
      if cut && interrupts > 0 {
        interrupts := interrupts - 1;
      } else {
        now := now + 1;
      }
    }

    method Failure(deadline: int) returns (rc: int)
      modifies `now
      ensures rc == -1 || (rc == TIMED_OUT && deadline <= now)
      ensures old(now) <= now
    {
      rc := -1;
      var late: bool := *;
      if late {
        rc := TIMED_OUT;
        now := if now < deadline then deadline else now;
      }
    }

    /** What a read brings: the next frame, or a failure. A parent that went astray may hear
        anything. */
    method Receive(deadline: int) returns (rc: int, m: Message)
      requires Valid()
      modifies `s, `now
      ensures Valid() && old(now) <= now
      ensures rc == 0 || rc == -1 || (rc == TIMED_OUT && deadline <= now)
      ensures rc == 0 && !old(s).astray ==> old(s).toParent != [] && m == old(s).toParent[0] && s == Hear(old(s))
      ensures rc != 0 || old(s).astray ==> s == Lost(old(s))
    {
      m := OtherMessage;
      HearKeeps(s);
      rc := Failure(deadline);
      var fails: bool := *;
      if s.astray {
        var any: Message := *;
        if any.ReadyMessage? || any.DoneMessage? {
          m := any;
        }
        if !fails {
          rc := 0;
        }
      } else if fails || s.toParent == [] {
        LostKeeps(s);
        s := Lost(s);
      } else {
        rc, m := 0, s.toParent[0];
        s := Hear(s);
      }
    }

    method ReadFrame(deadline: int) returns (rc: int, m: Message, ghost before: World)
      requires Valid()
      modifies `s, `now, `seen, `smooth
      ensures Valid() && ChildOnly(old(s), before) && old(now) <= now
      ensures rc == 0 || rc == -1 || (rc == TIMED_OUT && deadline <= now)
      ensures rc == 0 && !before.astray ==> before.toParent != [] && m == before.toParent[0] && s == Hear(before)
      ensures rc != 0 || before.astray ==> s == Lost(before)
      ensures seen == old(seen).(heard := old(seen).heard + [(rc, m)])
      ensures smooth <==> old(smooth) && rc == 0
    {
      Others();
      before := s;
      rc, m := Receive(deadline);
      seen := seen.(heard := seen.heard + [(rc, m)]);
      smooth := smooth && rc == 0;
    }

    /** What becomes of a frame that is written. */
    method Transmit(m: Message, deadline: int) returns (rc: int, ghost noise: seq<Message>)
      requires Valid()
      modifies `s, `now
      ensures Valid() && old(now) <= now
      ensures rc == 0 || rc == -1 || (rc == TIMED_OUT && deadline <= now)
      ensures rc == 0 ==> s == Send(old(s), m, noise)
      ensures rc != 0 ==> s == SendFails(old(s), s.partial)
    {
      rc := Failure(deadline);
      var garbage: seq<Message> := *;
      noise := garbage;
      var fails, torn: bool := *, *;
      if fails {
        SendFailsKeeps(s, torn);
        s := SendFails(s, torn);
      } else {
        rc := 0;
        SendKeeps(s, m, garbage);
        s := Send(s, m, garbage);
      }
    }

    method WriteFrame(m: Message, deadline: int) returns (rc: int, ghost before: World, ghost noise: seq<Message>)
      requires Valid()
      modifies `s, `now, `seen, `smooth
      ensures Valid() && ChildOnly(old(s), before) && old(now) <= now
      ensures rc == 0 || rc == -1 || (rc == TIMED_OUT && deadline <= now)
      ensures rc == 0 ==> s == Send(before, m, noise)
      ensures rc != 0 ==> s == SendFails(before, s.partial)
      ensures seen == old(seen).(writes := old(seen).writes + [(m, rc)])
      ensures smooth <==> old(smooth) && rc == 0
    {
      Others();
      before := s;
      rc, noise := Transmit(m, deadline);
      seen := seen.(writes := seen.writes + [(m, rc)]);
      smooth := smooth && rc == 0;
    }

    method TaskNameForPid() returns (kr: int, absent: bool)
      requires Valid() && !held
      modifies `s, `now, `held, `grants, `seen, `smooth
      ensures Valid() && ChildOnly(old(s), s) && old(now) <= now
      ensures held == !absent && grants <= old(grants) + 1
      ensures seen == old(seen).(names := old(seen).names + [(kr, absent)])
      ensures smooth <==> old(smooth) && kr == 0 && !absent
    {
      Others();
      kr, absent := *, *;
      if !absent {
        held, grants := true, grants + 1;
      }
      seen := seen.(names := seen.names + [(kr, absent)]);
      smooth := smooth && kr == 0 && !absent;
    }

    /** task_info on the held port. */
    method QueryBasic() returns (sample: Sample, ghost before: World)
      requires Valid() && held
      modifies `s, `now, `seen, `smooth
      ensures Valid() && ChildOnly(old(s), before) && old(now) <= now
      ensures sample.queried && (sample.complete <==> sample.kr == 0 && sample.count == BASIC_INFO_COUNT)
      ensures !sample.complete ==> sample.size == sample.peak == 0
      ensures HonestPeak(before, Shown(sample)) && s == Answer(before, Shown(sample))
      ensures seen == old(seen).(samples := old(seen).samples + [sample])
      ensures smooth <==> old(smooth) && (sample.complete || reaped)
    {
      Others();
      before := s;
      var kr: int := *;
      var count, size, peak: int := *, *, *;
      sample := Sample(true, false, kr, if count < 0 then 0 else count, 0, 0);
      if kr == 0 && count == BASIC_INFO_COUNT {
        sample := sample.(
          complete := true, size := if size < 0 then 0 else size, peak := Reading(s, if peak < 0 then 0 else peak));
      }
      AnswerKeeps(s, Shown(sample));
      s := Answer(s, Shown(sample));
      seen := seen.(samples := seen.samples + [sample]);
      smooth := smooth && (sample.complete || reaped);
    }

    /** Dropping needs a port that is held. */
    method Deallocate() returns (kr: int, ghost before: World)
      requires Valid() && held
      modifies `s, `held, `now, `drops, `seen, `smooth
      ensures Valid() && !held && old(now) <= now && drops == old(drops) + 1
      ensures ChildOnly(old(s), before) && s == Drop(before)
      ensures seen == old(seen).(dropped := old(seen).dropped + [kr])
      ensures smooth <==> old(smooth) && kr == 0
    {
      Others();
      DropKeeps(s);
      before := s;
      s := Drop(s);
      held, drops := false, drops + 1;
      kr := *;
      seen := seen.(dropped := seen.dropped + [kr]);
      smooth := smooth && kr == 0;
    }

    /** What waitpid finds. */
    method Found() returns (w: Wait)
      requires Valid()
      modifies `s, `reaped, `interrupts, `reaps
      ensures Valid() && interrupts <= old(interrupts) && (w.Interrupted? ==> interrupts < old(interrupts))
      ensures w.Child? ==>
                !old(reaped) && old(s).pc.Ended? && w.status == Word(old(s).pc.how) && s == Reap(old(s)) && reaped
      ensures !w.Child? ==> s == old(s) && reaped == old(reaped)
      ensures w.NotYet? ==> reaped || !s.pc.Ended?
    {
      var any: Wait := *;
      if any.Interrupted? && interrupts > 0 {
        w := Interrupted;
        interrupts := interrupts - 1;
      } else if any.NoChild? || any.OtherError? {
        w := any;
      } else if reaped || !s.pc.Ended? {
        w := NotYet;
      } else {
        w := Child(Word(s.pc.how));
        ReapKeeps(s);
        s, reaped, reaps := Reap(s), true, reaps + 1;
      }
    }

    /** waitpid with WNOHANG. */
    method WaitNoHang() returns (w: Wait, ghost before: World)
      requires Valid()
      modifies `s, `now, `reaped, `interrupts, `reaps, `seen, `smooth
      ensures Valid() && ChildOnly(old(s), before) && old(now) <= now
      ensures seen == old(seen).(waits := old(seen).waits + [w])
      ensures interrupts <= old(interrupts) && (w.Interrupted? ==> interrupts < old(interrupts))
      ensures old(reaped) ==> !w.Child? && s == before && reaped
      ensures w.Child? ==> before.pc.Ended? && w.status == Word(before.pc.how) && s == Reap(before) && reaped
      ensures !w.Child? ==> s == before && reaped == old(reaped)
      ensures w.NotYet? ==> old(reaped) || !before.pc.Ended?
      ensures smooth <==> old(smooth) && Expected(w, old(reaped))
    {
      Others();
      before := s;
      w := Found();
      seen := seen.(waits := seen.waits + [w]);
      smooth := smooth && Expected(w, old(reaped));
    }

    /** waitpid without WNOHANG, for a child that has ended. */
    method WaitEnded() returns (w: Wait, ghost before: World)
      requires Valid() && !reaped && s.pc.Ended?
      modifies `s, `now, `reaped, `interrupts, `reaps, `seen, `smooth
      ensures Valid() && before == old(s) && old(now) <= now
      ensures interrupts <= old(interrupts) && !w.NotYet? && (w.Interrupted? ==> interrupts < old(interrupts))
      ensures w.Child? ==> w.status == Word(before.pc.how) && s == Reap(before) && reaped
      ensures !w.Child? ==> s == before && !reaped
      ensures seen == old(seen).(waits := old(seen).waits + [w]) && (smooth ==> old(smooth))
    {
      w, before := WaitNoHang();
    }

    /** A signal goes only to a child that has not been reaped. */
    method SendKill() returns (k: KillResult, ghost before: World)
      requires Valid() && !reaped
      modifies `s, `now, `seen, `kills
      ensures Valid() && ChildOnly(old(s), before) && old(now) <= now && kills == old(kills) + 1
      ensures ChildOnly(old(s), s) && (s == before || KilledNow(before, s))
      ensures seen == old(seen).(kills := old(seen).kills + [(k, |old(seen).waits|)])
      ensures k.Refused? || s.pc.Ended?
    {
      Others();
      before := s;
      kills := kills + 1;
      var any: KillResult := *;
      if any.Refused? {
        k := KillResult.Refused;
      } else {
        k := if s.pc.Ended? && any.NoSuchProcess? then NoSuchProcess else Sent;
        StepKeeps(s, Killed(9, false));
        s := Kill(s, 9, false);
      }
      seen := seen.(kills := seen.kills + [(k, |seen.waits|)]);
    }
  }

  function Shown(sample: Sample): Option<nat> {
    if sample.complete then Some(sample.peak) else None
  }
}
