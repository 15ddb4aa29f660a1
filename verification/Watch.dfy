/** The maintenance watch: repeated collection with backoff, and the saved snapshot that
    has to agree with the one in memory through every failure. Time is in ticks; a
    collection takes at least one. */
module Watch {
  import opened Common

  const LONGEST_RETRY: int := 300

  function Min(a: int, b: int): int {
    if a <= b then a else b
  }

  function Pow2(n: nat): nat {
    if n == 0 then 1 else 2 * Pow2(n - 1)
  }

  /** The delay after so many failures in a row. */
  function Retry(interval: nat, failures: nat, remaining: nat): int
    requires failures > 0
  {
    Min(Min(interval * Pow2(Min(failures - 1, 4)), LONGEST_RETRY), remaining)
  }

  /** One collection: it failed, with that much time remaining, or it brought a content. */
  datatype Attempt<Content> = Failed(remaining: nat) | Brought(content: Content)

  datatype Report =
    | Unavailable(failures: nat, retry: int, retained: bool)
    | Available(changed: bool, recovered: bool)

  // ---------------------------------------------- what a history of attempts means

  /** The last content brought, or the initial one. */
  function LastSuccess<Content>(initial: Option<Content>, attempts: seq<Attempt<Content>>): Option<Content> {
    if attempts == [] then initial
    else if attempts[|attempts| - 1].Brought? then Some(attempts[|attempts| - 1].content)
    else LastSuccess(initial, attempts[..|attempts| - 1])
  }

  /** How many attempts failed since the last success. */
  function Streak<Content>(attempts: seq<Attempt<Content>>): (n: nat)
    ensures n <= |attempts|
    ensures n == 0 <==> attempts == [] || attempts[|attempts| - 1].Brought?
  {
    if attempts == [] || attempts[|attempts| - 1].Brought? then 0
    else 1 + Streak(attempts[..|attempts| - 1])
  }

  /** What is announced: every failure, and every success that is the first attempt,
      brought a change or ends a streak. */
  function Announced<Content(==)>(
      initial: Option<Content>, attempts: seq<Attempt<Content>>, interval: nat): seq<Report>
  {
    if attempts == [] then []
    else
      var before, last := attempts[..|attempts| - 1], attempts[|attempts| - 1];
      Announced(initial, before, interval) + Announcement(initial, before, last, interval)
  }

  function Announcement<Content(==)>(
      initial: Option<Content>, before: seq<Attempt<Content>>, last: Attempt<Content>, interval: nat): seq<Report>
  {
    var known := LastSuccess(initial, before);
    match last
    case Failed(remaining) =>
      [Unavailable(Streak(before) + 1, Retry(interval, Streak(before) + 1, remaining), known.Some?)]
    case Brought(content) =>
      var changed := known != Some(content);
      if before == [] || changed || Streak(before) > 0 then [Available(changed, Streak(before) > 0)] else []
  }

  lemma AttemptNext<Content>(
      initial: Option<Content>, attempts: seq<Attempt<Content>>, last: Attempt<Content>, interval: nat)
    ensures LastSuccess(initial, attempts + [last])
         == if last.Brought? then Some(last.content) else LastSuccess(initial, attempts)
    ensures Streak(attempts + [last]) == if last.Brought? then 0 else 1 + Streak(attempts)
    ensures Announced(initial, attempts + [last], interval)
         == Announced(initial, attempts, interval) + Announcement(initial, attempts, last, interval)
  {
    var more := attempts + [last];
    assert more[..|more| - 1] == attempts;
  }

  function CountFailed<Content>(attempts: seq<Attempt<Content>>): nat {
    if attempts == [] then 0
    else CountFailed(attempts[..|attempts| - 1]) + (if attempts[|attempts| - 1].Failed? then 1 else 0)
  }

  function CountUnavailable(reports: seq<Report>): nat {
    if reports == [] then 0
    else CountUnavailable(reports[..|reports| - 1]) + (if reports[|reports| - 1].Unavailable? then 1 else 0)
  }

  /** No failure goes unannounced, and none is announced twice. */
  lemma {:induction false} FailuresAreAnnounced<Content>(
      initial: Option<Content>, attempts: seq<Attempt<Content>>, interval: nat)
    ensures CountUnavailable(Announced(initial, attempts, interval)) == CountFailed(attempts)
  {
    if attempts != [] {
      var before, last := attempts[..|attempts| - 1], attempts[|attempts| - 1];
      FailuresAreAnnounced(initial, before, interval);
      var so, more := Announced(initial, before, interval), Announcement(initial, before, last, interval);
      if more == [] {
        assert so + more == so;
      } else {
        assert (so + more)[..|so|] == so;
      }
    }
  }

  /** However long a streak of failures is, it leaves the last success in place. */
  lemma {:induction false} StreakKeepsSuccess<Content>(
      initial: Option<Content>, attempts: seq<Attempt<Content>>, failed: seq<Attempt<Content>>)
    requires forall i :: 0 <= i < |failed| ==> failed[i].Failed?
    ensures LastSuccess(initial, attempts + failed) == LastSuccess(initial, attempts)
    ensures Streak(attempts + failed) == Streak(attempts) + |failed|
  {
    if failed == [] {
      assert attempts + failed == attempts;
    } else {
      assert (attempts + failed)[..|attempts + failed| - 1] == attempts + failed[..|failed| - 1];
      StreakKeepsSuccess(initial, attempts, failed[..|failed| - 1]);
    }
  }

  /** Delays grow, at most twofold, up to five minutes or the time that remains. */
  lemma RetryBounds(interval: nat, failures: nat, remaining: nat)
    requires failures > 0
    ensures 0 <= Retry(interval, failures, remaining) <= Min(LONGEST_RETRY, remaining)
    ensures Retry(interval, failures, remaining) <= Retry(interval, failures + 1, remaining)
    ensures Retry(interval, failures + 1, remaining) <= 2 * Retry(interval, failures, remaining)
  {
    var n, m := Min(failures - 1, 4), Min(failures, 4);
    assert Pow2(m) == (if n < m then 2 else 1) * Pow2(n);
    assert interval * (2 * Pow2(n)) == 2 * (interval * Pow2(n));
  }

  /** The delay of the first five failures in a row, in intervals; the fifth is that of all
      later ones. */
  const BACKOFF: seq<nat> := [1, 2, 4, 8, 16]

  lemma RetryDoubles(interval: nat, failures: nat, remaining: nat)
    requires failures > 0
    ensures Retry(interval, failures, remaining) ==
      var delay := interval * BACKOFF[if failures < 5 then failures - 1 else 4];
      var capped := if delay < 300 then delay else 300;
      if capped < remaining then capped else remaining
  {
    var n := Min(failures - 1, 4);
    assert Pow2(0) == 1 && Pow2(1) == 2 && Pow2(2) == 4 && Pow2(3) == 8 && Pow2(4) == 16;
    assert Pow2(n) == BACKOFF[n];
  }

  lemma RetryIsZero(interval: nat, failures: nat, remaining: nat)
    requires failures > 0
    ensures Retry(interval, failures, remaining) <= 0 <==> interval == 0 || remaining == 0
  {
    PowerIsPositive(Min(failures - 1, 4));
    var p := Pow2(Min(failures - 1, 4));
    if interval > 0 {
      assert interval * p >= p;
    }
  }

  lemma {:induction false} PowerIsPositive(n: nat)
    ensures Pow2(n) > 0
  {
    if n > 0 { PowerIsPositive(n - 1); }
  }

  datatype Saved<Content> = Saved(content: Content, observedAt: int)

  function ContentOf<Content>(saved: Option<Saved<Content>>): Option<Content> {
    if saved.Some? then Some(saved.value.content) else None
  }

  class Watcher<Content(==, 0)> {
    var file: Option<Saved<Content>>
    var page: Option<Saved<Content>>
    var previous: Option<Saved<Content>>
    var failures: nat
    var now: int
    var reports: seq<Report>
    ghost var initial: Option<Content>
    ghost var attempts: seq<Attempt<Content>>
    /** Every reading of the clock, and every pause asked for. */
    ghost var readings: seq<int>
    ghost var naps: seq<int>

    /** With writing, the file and the memory hold the last success. */
    ghost predicate Agrees(write: bool, interval: nat)
      reads this
    {
      && ContentOf(previous) == LastSuccess(initial, attempts)
      && (write ==> ContentOf(file) == ContentOf(previous))
      && failures == Streak(attempts)
      && reports == Announced(initial, attempts, interval)
    }

    /** The page is the one written with the file, or neither was written. */
    ghost predicate WroteBoth(earlierFile: Option<Saved<Content>>, earlierPage: Option<Saved<Content>>)
      reads `file, `page
    {
      page == file || (file == earlierFile && page == earlierPage)
    }

    constructor (file: Option<Saved<Content>>, page: Option<Saved<Content>>)
      ensures this.file == file && this.page == page
    {
      this.file, this.page, previous := file, page, None;
      failures, now, reports, initial, attempts, readings, naps := 0, 0, [], None, [], [], [];
    }

    /** Reading everything may fail at any point and then brings nothing. */
    method Collect() returns (current: Result<Content>)
      modifies `now
      ensures old(now) < now
    {
      var later: int := *;
      now := if later <= now then now + 1 else later;
      var fails: bool := *;
      if fails {
        current := Refused;
      } else {
        var content: Content := *;
        current := Ok(content);
      }
    }

    method Sleep(duration: int)
      modifies `now, `naps
      ensures old(now) <= now && old(now) + duration <= now && naps == old(naps) + [duration]
    {
      var later: int := *;
      now := if later < now || later < now + duration then now + (if duration < 0 then 0 else duration) else later;
      naps := naps + [duration];
    }

    method Monotonic() returns (t: int)
      modifies `now, `readings
      ensures old(now) <= now == t && readings == old(readings) + [t]
    {
      var later: int := *;
      if later > now {
        now := later;
      }
      t := now;
      readings := readings + [t];
    }

    /** The last reading of the clock shows no time left. */
    ghost predicate TimeIsUp(deadline: int)
      reads `readings
    {
      readings != [] && readings[|readings| - 1] >= deadline
    }

    /** A failed attempt is counted and announced; nothing else changes. */
    method OnFailure(deadline: int, interval: nat, ghost write: bool) returns (retry: int)
      requires Agrees(write, interval)
      modifies `failures, `now, `reports, `attempts, `readings
      ensures Agrees(write, interval) && old(now) <= now && old(readings) < readings
      ensures reports != [] && reports[|reports| - 1] == Unavailable(failures, retry, previous.Some?)
      ensures retry <= 0 <==> TimeIsUp(deadline) || interval == 0
      ensures exists remaining: nat :: attempts == old(attempts) + [Failed(remaining)]
    {
      var remaining := Remaining(deadline);
      retry := AnnounceFailure(remaining, interval, write);
      RetryIsZero(interval, failures, remaining);
    }

    /** What is left of the time, 0 if it is up. */
    method Remaining(deadline: int) returns (remaining: nat)
      modifies `now, `readings
      ensures old(now) <= now && old(readings) < readings && (remaining == 0 <==> TimeIsUp(deadline))
    {
      var t := Monotonic();
      remaining := if deadline - t < 0 then 0 else deadline - t;
    }

    method AnnounceFailure(remaining: nat, interval: nat, ghost write: bool) returns (retry: int)
      requires Agrees(write, interval)
      modifies `failures, `reports, `attempts
      ensures Agrees(write, interval) && failures > 0 && retry == Retry(interval, failures, remaining)
      ensures attempts == old(attempts) + [Failed(remaining)]
      ensures reports == old(reports) + [Unavailable(failures, retry, previous.Some?)]
    {
      failures := failures + 1;
      retry := Retry(interval, failures, remaining);
      reports := reports + [Unavailable(failures, retry, previous.Some?)];
      AttemptNext(initial, attempts, Failed(remaining), interval);
      attempts := attempts + [Failed(remaining)];
    }

    /** A success is saved if it changed anything and saving is wanted. */
    method OnSuccess(current: Content, write: bool, first: bool, interval: nat)
      requires Agrees(write, interval) && (first <==> attempts == [])
      modifies `file, `page, `failures, `reports, `attempts, `previous
      ensures Agrees(write, interval) && attempts == old(attempts) + [Brought(current)]
      ensures !write ==> file == old(file) && page == old(page)
      ensures write && ContentOf(old(file)) != Some(current) ==> page == file && file.Some? && file.value.content == current
      ensures write && ContentOf(old(file)) == Some(current) ==> file == old(file) && page == old(page)
    {
      AttemptNext(initial, attempts, Brought(current), interval);
      var changed := ContentOf(previous) != Some(current);
      var stamp: int := *;
      var saved := Saved(current, stamp);
      if write && changed {
        file := Some(saved);
        page := Some(saved);
      }
      if first || changed || failures > 0 {
        reports := reports + [Available(changed, failures > 0)];
      }
      failures := 0;
      previous := Some(saved);
      attempts := attempts + [Brought(current)];
    }

    /** The pause after the last attempt: the delay announced for a failure, else the
        interval or what is left of the time. */
    ghost function Pause(deadline: int, interval: nat): int
      reads this
    {
      if reports != [] && reports[|reports| - 1].Unavailable? && failures > 0 then reports[|reports| - 1].retry
      else if readings != [] then Min(interval, deadline - readings[|readings| - 1]) else 0
    }

    /** One turn of the loop; `raised` passes the error on, `more` goes on watching. */
    method Turn(write: bool, watchSeconds: nat, deadline: int, interval: nat, first: bool)
      returns (raised: bool, more: bool)
      requires Agrees(write, interval) && (first <==> attempts == [])
      modifies this
      ensures initial == old(initial) && old(now) < now && |attempts| == |old(attempts)| + 1
      ensures !write || raised ==> file == old(file) && page == old(page)
      ensures WroteBoth(old(file), old(page))
      ensures raised ==> !more && watchSeconds == 0 && previous == old(previous) && attempts == old(attempts) + [Failed(0)]
      ensures !raised ==> Agrees(write, interval)
      ensures !raised && watchSeconds == 0 ==> Streak(attempts) == 0
      ensures old(readings) <= readings
      ensures !raised && !more <==> !raised && (TimeIsUp(deadline) || (interval == 0 && Streak(attempts) > 0))
      ensures naps == old(naps) + if more then [Pause(deadline, interval)] else []
    {
      raised, more := false, true;
      var current := Collect();
      if current.Refused? {
        if watchSeconds == 0 {
          attempts := attempts + [Failed(0)];
          raised, more := true, false;
          return;
        }
        var retry := OnFailure(deadline, interval, write);
        if retry <= 0 {
          more := false;
        } else {
          Sleep(retry);
        }
        return;
      }
      OnSuccess(current.value, write, first, interval);
      more := PauseUnlessOver(deadline, interval);
    }

    method PauseUnlessOver(deadline: int, interval: nat) returns (more: bool)
      modifies `now, `readings, `naps
      ensures old(now) <= now && old(readings) < readings && (!more <==> TimeIsUp(deadline))
      ensures naps == old(naps) + if more then [Min(interval, deadline - readings[|readings| - 1])] else []
    {
      var t := Monotonic();
      var remaining := deadline - t;
      if remaining <= 0 {
        return false;
      }
      Sleep(Min(interval, remaining));
      return true;
    }

    /** The whole watch. It is refused, as the error passed on, exactly if the only
        attempt of a watch of no length failed. */
    method Observe(write: bool, watchSeconds: nat, interval: nat) returns (code: Result<int>)
      modifies this
      ensures attempts != [] && initial == ContentOf(old(file))
      ensures ContentOf(previous) == LastSuccess(initial, attempts)
      ensures if write then ContentOf(file) == ContentOf(previous) else file == old(file) && page == old(page)
      ensures WroteBoth(old(file), old(page))
      ensures code.Refused? <==> watchSeconds == 0 && Streak(attempts) > 0
      ensures code.Ok? ==> code.value == (if Streak(attempts) > 0 then 1 else 0)
      ensures code.Ok? ==> reports == Announced(initial, attempts, interval)
      ensures code.Refused? ==> |attempts| == 1 && file == old(file) && page == old(page)
      ensures old(readings) < readings
      ensures code.Ok? ==>
                TimeIsUp(readings[|old(readings)|] + watchSeconds) || (interval == 0 && Streak(attempts) > 0)
    {
      previous, failures, reports := file, 0, [];
      initial, attempts := ContentOf(file), [];
      var started := Monotonic();
      var deadline := started + watchSeconds;
      var first, raised, more := true, false, true;
      while more
        invariant initial == ContentOf(old(file)) && (first <==> attempts == [])
        invariant !raised ==> Agrees(write, interval)
        invariant !raised && watchSeconds == 0 ==> Streak(attempts) == 0
        invariant !write || first || raised ==> file == old(file) && page == old(page)
        invariant WroteBoth(old(file), old(page))
        invariant old(readings) + [started] <= readings
        invariant first ==> more && !raised && now == started
        invariant watchSeconds == 0 && !first ==> !more
        invariant more && !first ==> now < deadline
        invariant !more && !raised ==> TimeIsUp(deadline) || (interval == 0 && Streak(attempts) > 0)
        invariant raised ==> !more && watchSeconds == 0 && attempts == [Failed(0)] && ContentOf(previous) == initial
        decreases more, first, deadline - now
      {
        raised, more := Turn(write, watchSeconds, deadline, interval, first);
        first := false;
        if more {
          var t := Monotonic();
          more := t < deadline;
        }
      }
      if raised {
        return Refused;
      }
      code := Ok(if failures > 0 then 1 else 0);
    }
  }
}
