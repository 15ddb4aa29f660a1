/** The child of the residency probe as a step system, together with everything the
    kernel keeps between it and its parent: frames in flight, the peak counter and
    the order of events. The invariant says that as long as the parent has followed
    the handshake, the events so far are exactly the first part of the one accepted
    order. */
module ProbeChild {
  import opened Common
  import opened ProbeRecord

  datatype Message = ReadyMessage | AllocMessage | DoneMessage(rss: nat) | ReleaseMessage | OtherMessage

  datatype Ending = ExitedWith(code: nat) | KilledBy(signal: nat, core: bool)

  /** The wait status of an ending; a core dump sets the eighth bit. */
  function Word(e: Ending): nat {
    match e
    case ExitedWith(code) => code * 256
    case KilledBy(signal, core) => if core then 128 + signal else signal
  }

  predicate Possible(e: Ending) {
    match e
    case ExitedWith(code) => code < 256
    case KilledBy(signal, _) => 0 < signal < 127
  }

  /** A wait status tells every ending apart. */
  lemma WordDecodes(e: Ending)
    requires Possible(e)
    ensures e.ExitedWith? <==> Exited(Word(e))
    ensures e.KilledBy? <==> Signaled(Word(e))
    ensures e.ExitedWith? ==> ExitStatus(Word(e)) == e.code
    ensures e.KilledBy? ==> Low(Word(e)) == e.signal && (e.core <==> Word(e) / 128 % 2 == 1)
  {
    if e.ExitedWith? {
      assert Word(e) == 128 * (2 * e.code);
      assert Low(Word(e)) == 0;
    }
  }

  datatype Pc =
    | Starting | AwaitCommand | Allocating | Touched | Measured | AwaitRelease
    | Ended(how: Ending)

  datatype Event =
    | ChildWrote(sent: Message) | ParentWrote(message: Message) | MemoryTouched | ChildMeasured(rss: nat)
    | Queried(peak: Option<nat>) | ChildEnded | ChildReaped | PortDropped

  /** Every call logs its event. `stage` is how far the parent followed the handshake: 1
      heard ready, 2 took the baseline, 3 wrote the allocation order, 4 heard done, 5
      took the live sample, 6 wrote the release, 7 reaped the child after a clean exit,
      8 queried it once more, 9 dropped the port. `partial` says that a failed write
      left part of a frame in the pipe, `astray` that the parent left this order. */
  datatype State = State(
    pc: Pc, toParent: seq<Message>, toChild: seq<Message>,
    stage: nat, partial: bool, astray: bool, honest: bool, counter: nat,
    base: nat, rss: nat, live: nat, post: Option<nat>, log: seq<Event>)

  function Initial(honest: bool): State {
    State(Starting, [], [], 0, false, false, honest, 0, 0, 0, 0, None, [])
  }

  predicate Clean(pc: Pc) {
    pc == Ended(ExitedWith(0))
  }

  /** What may happen to the child next: it goes on (with a counter reading, if it
      takes one), its call fails or times out, or a signal ends it. */
  datatype Choice = GoOn(reading: nat) | CallFails | CallTimesOut | Killed(signal: nat, core: bool)

  function End(s: State, how: Ending): State {
    s.(pc := Ended(how), log := s.log + [ChildEnded])
  }

  /** A counter that never decreases, if it is honest. */
  function Reading(s: State, reading: nat): (v: nat)
    ensures s.honest ==> s.counter <= v
  {
    if s.honest && reading < s.counter then s.counter else reading
  }

  function Command(s: State, c: Choice): State {
    if c.CallTimesOut? then End(s, ExitedWith(9))
    else if !c.GoOn? then End(s, ExitedWith(3))
    else if s.toChild == [] then s
    else
      var t := s.(toChild := s.toChild[1..]);
      match s.toChild[0]
      case ReleaseMessage => End(t, ExitedWith(0))
      case AllocMessage => t.(pc := Allocating)
      case _ => End(t, ExitedWith(3))
  }

  function Measure(s: State, c: Choice): State {
    if c.GoOn? then
      var v := Reading(s, c.reading);
      s.(pc := Measured, rss := v, counter := v, log := s.log + [ChildMeasured(v)])
    else
      End(s, ExitedWith(5))
  }

  function Finish(s: State, c: Choice): State {
    if !c.GoOn? then End(s, ExitedWith(7))
    else if s.toChild == [] then s
    else
      var t := s.(toChild := s.toChild[1..]);
      if s.toChild[0] == ReleaseMessage then End(t, ExitedWith(0)) else End(t, ExitedWith(7))
  }

  function Announce(s: State, c: Choice): State {
    if c.GoOn? then
      s.(pc := AwaitCommand, toParent := s.toParent + [ReadyMessage], log := s.log + [ChildWrote(ReadyMessage)])
    else
      End(s, ExitedWith(2))
  }

  function Touch(s: State, c: Choice): State {
    if c.GoOn? then s.(pc := Touched, log := s.log + [MemoryTouched]) else End(s, ExitedWith(4))
  }

  function Report(s: State, c: Choice): State {
    if c.GoOn? then
      s.(pc := AwaitRelease, toParent := s.toParent + [DoneMessage(s.rss)],
         log := s.log + [ChildWrote(DoneMessage(s.rss))])
    else
      End(s, ExitedWith(6))
  }

  function Step(s: State, c: Choice): State {
    if c.Killed? then
      Kill(s, c.signal, c.core)
    else
      match s.pc
      case Starting => Announce(s, c)
      case AwaitCommand => Command(s, c)
      case Allocating => Touch(s, c)
      case Touched => Measure(s, c)
      case Measured => Report(s, c)
      case AwaitRelease => Finish(s, c)
      case Ended(_) => s
  }

  function Kill(s: State, signal: nat, core: bool): State {
    if !s.pc.Ended? && 0 < signal < 127 then End(s, KilledBy(signal, core)) else s
  }

  // --------------------------------------------------------------- the invariant

  /** Frames in flight while the child is alive or has ended cleanly. */
  predicate FramesFit(s: State) {
    match s.pc
    case Starting => s.stage == 0 && s.toParent == [] && s.toChild == []
    case AwaitCommand =>
      && s.stage <= 3 && s.toParent == (if s.stage == 0 then [ReadyMessage] else [])
      && s.toChild == (if s.stage == 3 then [AllocMessage] else [])
    case AwaitRelease =>
      && 3 <= s.stage <= 6 && s.toParent == (if s.stage == 3 then [DoneMessage(s.rss)] else [])
      && s.toChild == (if s.stage == 6 then [ReleaseMessage] else [])
    case Ended(_) => 6 <= s.stage <= 9 && s.toParent == [] && s.toChild == []
    case _ => s.stage == 3 && s.toParent == [] && s.toChild == []
  }

  /** Frames the parent may still hear from a child that ended in any other way. */
  predicate FramesLeft(s: State) {
    && s.stage <= 6
    && (s.toParent == []
        || (s.stage == 0 && s.toParent == [ReadyMessage])
        || (s.stage == 3 && s.toParent == [DoneMessage(s.rss)]))
  }

  /** How many events of the accepted order have happened. */
  function Progress(s: State): int {
    match s.pc
    case Starting => 0
    case AwaitCommand => if s.stage <= 1 then 1 else s.stage
    case Allocating => 3
    case Touched => 4
    case Measured => 5
    case AwaitRelease => if s.stage <= 4 then 6 else s.stage + 2
    case Ended(_) => s.stage + 3
  }

  /** The one accepted order of events. */
  predicate InOrder(s: State) {
    && |s.log| <= 12
    && (|s.log| > 0 ==> s.log[0] == ChildWrote(ReadyMessage))
    && (|s.log| > 1 ==> s.log[1] == Queried(Some(s.base)))
    && (|s.log| > 2 ==> s.log[2] == ParentWrote(AllocMessage))
    && (|s.log| > 3 ==> s.log[3] == MemoryTouched)
    && (|s.log| > 4 ==> s.log[4] == ChildMeasured(s.rss))
    && (|s.log| > 5 ==> s.log[5] == ChildWrote(DoneMessage(s.rss)))
    && (|s.log| > 6 ==> s.log[6] == Queried(Some(s.live)))
    && (|s.log| > 7 ==> s.log[7] == ParentWrote(ReleaseMessage))
    && (|s.log| > 8 ==> s.log[8] == ChildEnded)
    && (|s.log| > 9 ==> s.log[9] == ChildReaped)
    && (|s.log| > 10 ==> s.log[10] == Queried(s.post))
    && (|s.log| > 11 ==> s.log[11] == PortDropped)
  }

  function Accepted(base: nat, rss: nat, live: nat, post: Option<nat>): seq<Event> {
    [ ChildWrote(ReadyMessage), Queried(Some(base)), ParentWrote(AllocMessage), MemoryTouched, ChildMeasured(rss),
      ChildWrote(DoneMessage(rss)), Queried(Some(live)), ParentWrote(ReleaseMessage), ChildEnded, ChildReaped,
      Queried(post), PortDropped ]
  }

  predicate ListensStill(s: State) {
    if s.pc.Ended? && !Clean(s.pc) then FramesLeft(s)
    else FramesFit(s) && |s.log| == Progress(s) && InOrder(s)
  }

  /** The child has taken its own reading. */
  predicate HasMeasured(s: State) {
    s.pc.Measured? || s.pc.AwaitRelease? || (s.stage == 3 && s.toParent == [DoneMessage(s.rss)]) || s.stage >= 4
  }

  predicate PeaksOrdered(s: State) {
    && (s.stage >= 2 ==> s.base <= s.counter)
    && (!s.astray && HasMeasured(s) ==> s.base <= s.rss <= s.counter)
    && (!s.astray && s.stage >= 5 ==> s.rss <= s.live)
  }

  predicate Consistent(s: State) {
    && (!s.astray ==> ListensStill(s))
    && (s.honest ==> PeaksOrdered(s))
    && (s.pc.Ended? ==> Possible(s.pc.how))
  }

  /** What the child cannot change. */
  predicate ChildOnly(s: State, t: State) {
    && t.stage == s.stage && t.partial == s.partial && t.astray == s.astray
    && t.honest == s.honest && t.base == s.base && t.live == s.live && t.post == s.post
    && (s.honest ==> s.counter <= t.counter)
    && (s.stage >= 4 && !s.astray ==> t.rss == s.rss)
    && (s.pc.Ended? ==> t == s)
  }

  // The invariant by clauses. A proof that mentions only `Invariant` sees a quantifier
  // over `Clause` that no term in it instantiates, so the three clauses, with their case
  // analyses over frames and events, stay out of it. `Meaning` is the way in.

  datatype Clause = Listening | Ordering | Ending

  predicate Holds(s: State, c: Clause) {
    match c
    case Listening => !s.astray ==> ListensStill(s)
    case Ordering => s.honest ==> PeaksOrdered(s)
    case Ending => s.pc.Ended? ==> Possible(s.pc.how)
  }

  /** Hides `Consistent`: the quantifier ranges over the three names of its clauses. */
  ghost predicate Invariant(s: State) {
    forall c: Clause :: Holds(s, c)
  }

  lemma Meaning(s: State)
    ensures Invariant(s) <==> Consistent(s)
  {
    assert Consistent(s) <==> Holds(s, Listening) && Holds(s, Ordering) && Holds(s, Ending);
    assert Invariant(s) ==> Holds(s, Listening) && Holds(s, Ordering) && Holds(s, Ending);
    if Consistent(s) {
      forall c: Clause ensures Holds(s, c) {
        assert c == Listening || c == Ordering || c == Ending;
      }
    }
  }

  lemma InitialInvariant(honest: bool)
    ensures Invariant(Initial(honest))
  {
    Meaning(Initial(honest));
  }

  /** A state that a run can be in. */
  type World = s: State | Invariant(s) ghost witness First()

  ghost function First(): (s: State)
    ensures Invariant(s)
  {
    InitialInvariant(true);
    Initial(true)
  }

  lemma AllEventsInOrder(s: World)
    requires !s.astray && s.stage == 9
    ensures s.log == Accepted(s.base, s.rss, s.live, s.post)
  {
    Meaning(s);
    var all := Accepted(s.base, s.rss, s.live, s.post);
    assert |s.log| == 12 && InOrder(s);
    assert forall i :: 0 <= i < 12 ==> s.log[i] == all[i];
  }

  lemma EndKeeps(s: State, how: Ending)
    requires Consistent(s) && !s.pc.Ended? && Possible(how) && how != ExitedWith(0)
    ensures Consistent(End(s, how)) && ChildOnly(s, End(s, how))
  {
  }

  lemma AnnounceKeeps(s: State, c: Choice)
    requires Consistent(s) && s.pc == Starting
    ensures Consistent(Announce(s, c)) && ChildOnly(s, Announce(s, c))
  {
    if !c.GoOn? {
      EndKeeps(s, ExitedWith(2));
    }
  }

  lemma TouchKeeps(s: State, c: Choice)
    requires Consistent(s) && s.pc == Allocating
    ensures Consistent(Touch(s, c)) && ChildOnly(s, Touch(s, c))
  {
    if !c.GoOn? {
      EndKeeps(s, ExitedWith(4));
    }
  }

  lemma ReportKeeps(s: State, c: Choice)
    requires Consistent(s) && s.pc == Measured
    ensures Consistent(Report(s, c)) && ChildOnly(s, Report(s, c))
  {
    if !c.GoOn? {
      EndKeeps(s, ExitedWith(6));
    }
  }

  lemma CommandKeeps(s: State, c: Choice)
    requires Consistent(s) && s.pc == AwaitCommand
    ensures Consistent(Command(s, c)) && ChildOnly(s, Command(s, c))
  {
    if !c.GoOn? {
      EndKeeps(s, if c.CallTimesOut? then ExitedWith(9) else ExitedWith(3));
    }
  }

  lemma MeasureKeeps(s: State, c: Choice)
    requires Consistent(s) && s.pc == Touched
    ensures Consistent(Measure(s, c)) && ChildOnly(s, Measure(s, c))
  {
    if !c.GoOn? {
      EndKeeps(s, ExitedWith(5));
    }
  }

  lemma FinishKeeps(s: State, c: Choice)
    requires Consistent(s) && s.pc == AwaitRelease
    ensures Consistent(Finish(s, c)) && ChildOnly(s, Finish(s, c))
  {
    if !c.GoOn? {
      EndKeeps(s, ExitedWith(7));
    }
  }

  lemma KillKeeps(s: State, signal: nat, core: bool)
    requires Consistent(s)
    ensures Consistent(Kill(s, signal, core)) && ChildOnly(s, Kill(s, signal, core))
  {
    if !s.pc.Ended? && 0 < signal < 127 {
      EndKeeps(s, KilledBy(signal, core));
    }
  }

  lemma StepConsistent(s: State, c: Choice)
    requires Consistent(s)
    ensures Consistent(Step(s, c)) && ChildOnly(s, Step(s, c))
  {
    if c.Killed? {
      KillKeeps(s, c.signal, c.core);
    } else {
      match s.pc
      case Starting => AnnounceKeeps(s, c);
      case AwaitCommand => CommandKeeps(s, c);
      case Allocating => TouchKeeps(s, c);
      case Touched => MeasureKeeps(s, c);
      case Measured => ReportKeeps(s, c);
      case AwaitRelease => FinishKeeps(s, c);
      case Ended(_) =>
    }
  }

  /** No step of the child, whatever fails and whenever it is killed, breaks the
      invariant or reaches what is not the child's. */
  lemma StepKeeps(s: World, c: Choice)
    ensures Invariant(Step(s, c)) && ChildOnly(s, Step(s, c))
  {
    Meaning(s);
    StepConsistent(s, c);
    Meaning(Step(s, c));
  }
}
