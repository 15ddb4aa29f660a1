/** The capped identity ledger: one row per (pid, creation), at most MAX_LEDGER
    rows. The first part gives the effect of each call on the ledger's value and
    proves that every row is what its own history of calls says; the second part
    is the ledger object, whose rows are updated in place. */
module LedgerHistory {
  import opened Common

  const MAX_LEDGER: nat := 512

  datatype Identity = Identity(pid: int, creation: int)

  predicate Admissible(id: Identity) {
    0 < id.pid < 0x1_0000_0000 && id.creation >= 0
  }

  /** One resident-size breakdown; a component that was not reported is missing. */
  datatype Residency = Residency(total: Option<int>, anonymous: Option<int>, file: Option<int>, shared: Option<int>)

  predicate Counter(v: Option<int>) {
    v.Some? && v.value >= 0
  }

  function Clean(v: Option<int>): Option<int> {
    if Counter(v) then v else None
  }

  /** A component that is no size goes missing; a real zero stays. */
  predicate KeptAs(given: Option<int>, kept: Option<int>) {
    if given.Some? && given.value >= 0 then kept == given else kept == None
  }

  predicate NoSize(given: Option<int>) {
    given.None? || given.value < 0
  }

  /** Keeps real zeros; a negative component goes missing, an empty breakdown too. */
  function Bounded(components: Option<Residency>): (kept: Option<Residency>)
    ensures kept.None? <==>
      || components.None?
      || (&& NoSize(components.value.total) && NoSize(components.value.anonymous)
          && NoSize(components.value.file) && NoSize(components.value.shared))
    ensures kept.Some? ==>
      && KeptAs(components.value.total, kept.value.total) && KeptAs(components.value.anonymous, kept.value.anonymous)
      && KeptAs(components.value.file, kept.value.file) && KeptAs(components.value.shared, kept.value.shared)
  {
    match components
    case None => None
    case Some(c) =>
      var kept := Residency(Clean(c.total), Clean(c.anonymous), Clean(c.file), Clean(c.shared));
      if kept == Residency(None, None, None, None) then None else Some(kept)
  }

  datatype Row = Row(
    peak: Option<int>, first: Option<int>, last: Option<int>, observedLive: bool, final: bool,
    firstResidency: Option<Residency>, lastResidency: Option<Residency>, peakResidency: Option<Residency>)

  const NEW_ROW := Row(None, None, None, false, false, None, None, None)

  datatype Ledger = Ledger(rows: map<Identity, Row>, truncated: bool)

  const EMPTY := Ledger(map[], false)

  /** The calls a backend makes on its ledger. `Unfinal` is the backend clearing the
      final flag of an existing row, `Truncate` is it reporting a truncated list. */
  datatype Call =
    | Add(id: Identity)
    | Observe(id: Identity, current: Option<int>, high: Option<int>, residency: Option<Residency>)
    | Final(id: Identity, high: Option<int>)
    | Unfinal(id: Identity)
    | Truncate

  function Raised(peak: Option<int>, high: int): Option<int> {
    if peak.None? || peak.value < high then Some(high) else peak
  }

  function SeenRow(row: Row, current: Option<int>, high: Option<int>): Row {
    var row := if Counter(current)
               then row.(first := if row.first.None? then current else row.first, last := current)
               else row;
    if Counter(high) then row.(peak := Raised(row.peak, high.value), observedLive := true) else row
  }

  function SplitRow(row: Row, residency: Option<Residency>): Row {
    match Bounded(residency)
    case None => row
    case Some(snapshot) =>
      var row := row.(firstResidency := if row.firstResidency.None? then Some(snapshot) else row.firstResidency,
                      lastResidency := Some(snapshot));
      if snapshot.total.None? then
        row
      else if row.peakResidency.None? || row.peakResidency.value.total.None?
              || row.peakResidency.value.total.value < snapshot.total.value then
        row.(peakResidency := Some(snapshot))
      else
        row
  }

  function FinalRow(row: Row, high: Option<int>): Row {
    if Counter(high) then row.(peak := Raised(row.peak, high.value), final := true)
    else row.(final := false)
  }

  function Admit(l: Ledger, id: Identity): Ledger {
    if !Admissible(id) || id in l.rows then l
    else if |l.rows| >= MAX_LEDGER then l.(truncated := true)
    else l.(rows := l.rows[id := NEW_ROW])
  }

  function Updated(l: Ledger, id: Identity, row: Row): Ledger {
    l.(rows := l.rows[id := row])
  }

  function Apply(l: Ledger, call: Call): Ledger {
    match call
    case Add(id) => Admit(l, id)
    case Observe(id, current, high, residency) =>
      var m := Admit(l, id);
      if id in m.rows then Updated(m, id, SplitRow(SeenRow(m.rows[id], current, high), residency)) else m
    case Final(id, high) =>
      var m := Admit(l, id);
      if id in m.rows then Updated(m, id, FinalRow(m.rows[id], high)) else m
    case Unfinal(id) =>
      if id in l.rows then Updated(l, id, l.rows[id].(final := false)) else l
    case Truncate => l.(truncated := true)
  }

  /** The ledger after a history of calls. */
  function After(calls: seq<Call>): Ledger {
    if calls == [] then EMPTY else Apply(After(calls[..|calls| - 1]), calls[|calls| - 1])
  }

  // --------------------------------------------- one identity's own history

  predicate Mentions(call: Call, id: Identity) {
    (call.Add? || call.Observe? || call.Final?) && call.id == id
  }

  function Currents(calls: seq<Call>, id: Identity): seq<int> {
    if calls == [] then [] else
      var before, c := Currents(calls[..|calls| - 1], id), calls[|calls| - 1];
      if c.Observe? && c.id == id && c.current.Some? && c.current.value >= 0 then before + [c.current.value] else before
  }

  /** Every valid peak reading, live or after the drain. */
  function Highs(calls: seq<Call>, id: Identity): seq<int> {
    if calls == [] then [] else
      var before, c := Highs(calls[..|calls| - 1], id), calls[|calls| - 1];
      if (c.Observe? || c.Final?) && c.id == id && c.high.Some? && c.high.value >= 0 then before + [c.high.value]
      else before
  }

  predicate LiveHigh(calls: seq<Call>, id: Identity) {
    exists i :: 0 <= i < |calls| && calls[i].Observe? && calls[i].id == id
                && calls[i].high.Some? && calls[i].high.value >= 0
  }

  function Breakdowns(calls: seq<Call>, id: Identity): seq<Residency> {
    if calls == [] then [] else
      var before, c := Breakdowns(calls[..|calls| - 1], id), calls[|calls| - 1];
      if c.Observe? && c.id == id && Bounded(c.residency).Some? then before + [Bounded(c.residency).value] else before
  }

  /** For each post-drain verdict on `id`, whether it succeeded. */
  function Verdicts(calls: seq<Call>, id: Identity): seq<bool> {
    if calls == [] then [] else
      var before, c := Verdicts(calls[..|calls| - 1], id), calls[|calls| - 1];
      if c.Final? && c.id == id then before + [c.high.Some? && c.high.value >= 0]
      else if c.Unfinal? && c.id == id then before + [false]
      else before
  }

  ghost predicate IsMaximum(r: Option<int>, values: seq<int>) {
    && (r.None? <==> values == [])
    && (r.Some? ==> r.value in values && forall i :: 0 <= i < |values| ==> values[i] <= r.value)
  }

  ghost predicate IsFirst<T>(r: Option<T>, values: seq<T>) {
    if values == [] then r == None else r == Some(values[0])
  }

  ghost predicate IsLast<T>(r: Option<T>, values: seq<T>) {
    if values == [] then r == None else r == Some(values[|values| - 1])
  }

  /** `r` is one whole breakdown of the list: the earliest with the greatest total. */
  ghost predicate IsEarliestGreatest(r: Option<Residency>, list: seq<Residency>) {
    && (r.None? ==> forall i :: 0 <= i < |list| ==> list[i].total.None?)
    && (r.Some? ==> r.value.total.Some? && exists k :: IsPeakAt(r.value, list, k))
  }

  ghost predicate IsPeakAt(r: Residency, list: seq<Residency>, k: int) {
    && 0 <= k < |list| && list[k] == r && r.total.Some?
    && (forall i :: 0 <= i < |list| && list[i].total.Some? ==> list[i].total.value <= r.total.value)
    && (forall i :: 0 <= i < k && list[i].total.Some? ==> list[i].total.value < r.total.value)
  }

  ghost predicate SizesExplained(calls: seq<Call>, id: Identity, row: Row) {
    && IsMaximum(row.peak, Highs(calls, id))
    && IsFirst(row.first, Currents(calls, id))
    && IsLast(row.last, Currents(calls, id))
  }

  ghost predicate FlagsExplained(calls: seq<Call>, id: Identity, row: Row) {
    && (row.observedLive <==> LiveHigh(calls, id))
    && (row.final <==> Verdicts(calls, id) != [] && Verdicts(calls, id)[|Verdicts(calls, id)| - 1])
  }

  ghost predicate SplitExplained(calls: seq<Call>, id: Identity, row: Row) {
    && IsFirst(row.firstResidency, Breakdowns(calls, id))
    && IsLast(row.lastResidency, Breakdowns(calls, id))
    && IsEarliestGreatest(row.peakResidency, Breakdowns(calls, id))
  }

  /** The row is a recomputation from the identity's full history. */
  ghost predicate Explains(calls: seq<Call>, id: Identity, row: Row) {
    SizesExplained(calls, id, row) && FlagsExplained(calls, id, row) && SplitExplained(calls, id, row)
  }

  // ------------------------------------------------------------------ growth

  lemma SubsetSize<T>(a: set<T>, b: set<T>)
    requires a <= b
    ensures |a| <= |b|
  {
    assert |b| == |a| + |b - a| by { assert a + (b - a) == b; }
  }

  /** Rows are only added, never beyond the cap, and a full ledger keeps its keys. */
  lemma ApplyGrows(l: Ledger, call: Call)
    requires |l.rows| <= MAX_LEDGER
    ensures l.rows.Keys <= Apply(l, call).rows.Keys
    ensures |Apply(l, call).rows| <= MAX_LEDGER
    ensures |l.rows| == MAX_LEDGER ==> Apply(l, call).rows.Keys == l.rows.Keys
    ensures l.truncated ==> Apply(l, call).truncated
  {
    if call.Observe? || call.Final? {
      var m := Admit(l, call.id);
      if call.id in m.rows {
        assert Apply(l, call).rows.Keys == m.rows.Keys;
        assert |Apply(l, call).rows.Keys| == |m.rows.Keys|;
      }
    } else if call.Unfinal? && call.id in l.rows {
      assert Apply(l, call).rows.Keys == l.rows.Keys;
      assert |Apply(l, call).rows.Keys| == |l.rows.Keys|;
    }
  }

  /** Rows never exceed the cap and are keyed by admissible identities only. */
  lemma {:induction false} RowsBounded(calls: seq<Call>)
    ensures |After(calls).rows| <= MAX_LEDGER
    ensures forall id :: id in After(calls).rows ==> 0 < id.pid < 0x1_0000_0000 && id.creation >= 0
  {
    if calls != [] {
      RowsBounded(calls[..|calls| - 1]);
      ApplyGrows(After(calls[..|calls| - 1]), calls[|calls| - 1]);
    }
  }

  /** An identity that is absent although the ledger has room was never mentioned. */
  lemma {:induction false} AbsentWithRoom(calls: seq<Call>, id: Identity)
    requires 0 < id.pid < 0x1_0000_0000 && id.creation >= 0 && id !in After(calls).rows && |After(calls).rows| < MAX_LEDGER
    ensures Highs(calls, id) == [] && Currents(calls, id) == [] && Breakdowns(calls, id) == []
    ensures !LiveHigh(calls, id)
    ensures true !in Verdicts(calls, id)
  {
    if calls != [] {
      var before, call := calls[..|calls| - 1], calls[|calls| - 1];
      RowsBounded(before);
      ApplyGrows(After(before), call);
      SubsetSize(After(before).rows.Keys, After(calls).rows.Keys);
      AbsentWithRoom(before, id);
      assert !Mentions(call, id);
      forall i | 0 <= i < |calls|
        ensures !(calls[i].Observe? && calls[i].id == id && calls[i].high.Some? && calls[i].high.value >= 0)
      {
        if i < |before| { assert calls[i] == before[i]; }
      }
    }
  }

  // -------------------------------------------------------- rows and histories

  lemma MaximumStep(r: Option<int>, values: seq<int>, high: int)
    requires IsMaximum(r, values)
    ensures IsMaximum(Raised(r, high), values + [high])
  {
    var more := values + [high];
    assert more[|values|] == high;
    if r.Some? {
      var i :| 0 <= i < |values| && values[i] == r.value;
      assert more[i] == r.value;
    }
  }

  lemma PeakStep(r: Option<Residency>, list: seq<Residency>, snapshot: Residency)
    requires IsEarliestGreatest(r, list)
    ensures snapshot.total.None? ==> IsEarliestGreatest(r, list + [snapshot])
    ensures snapshot.total.Some? && (r.None? || r.value.total.value < snapshot.total.value)
        ==> IsEarliestGreatest(Some(snapshot), list + [snapshot])
    ensures snapshot.total.Some? && r.Some? && r.value.total.value >= snapshot.total.value
        ==> IsEarliestGreatest(r, list + [snapshot])
  {
    var more := list + [snapshot];
    if snapshot.total.Some? && (r.None? || r.value.total.value < snapshot.total.value) {
      if r.Some? { var k :| IsPeakAt(r.value, list, k); }
      assert IsPeakAt(snapshot, more, |list|);
    } else if r.Some? {
      var k :| IsPeakAt(r.value, list, k);
      assert IsPeakAt(r.value, more, k);
    }
  }

  lemma LiveHighStep(before: seq<Call>, call: Call, id: Identity)
    ensures LiveHigh(before + [call], id)
       <==> LiveHigh(before, id) || (call.Observe? && call.id == id && Counter(call.high))
  {
    var calls := before + [call];
    assert calls[|before|] == call;
    if LiveHigh(before, id) {
      var i :| 0 <= i < |before| && before[i].Observe? && before[i].id == id
               && before[i].high.Some? && before[i].high.value >= 0;
      assert calls[i] == before[i];
    }
  }

  lemma FreshRowExplained(calls: seq<Call>, id: Identity)
    requires Admissible(id) && id !in After(calls).rows && |After(calls).rows| < MAX_LEDGER
    ensures Explains(calls, id, NEW_ROW)
  {
    AbsentWithRoom(calls, id);
  }

  lemma SeenExplained(before: seq<Call>, call: Call, row: Row)
    requires call.Observe? && SizesExplained(before, call.id, row) && FlagsExplained(before, call.id, row)
    ensures SizesExplained(before + [call], call.id, SeenRow(row, call.current, call.high))
    ensures FlagsExplained(before + [call], call.id, SeenRow(row, call.current, call.high))
  {
    assert (before + [call])[..|before|] == before;
    LiveHighStep(before, call, call.id);
    if Counter(call.high) { MaximumStep(row.peak, Highs(before, call.id), call.high.value); }
  }

  lemma BreakdownExplained(before: seq<Call>, call: Call, row: Row)
    requires call.Observe? && SplitExplained(before, call.id, row)
    ensures SplitExplained(before + [call], call.id, SplitRow(row, call.residency))
  {
    assert (before + [call])[..|before|] == before;
    if Bounded(call.residency).Some? {
      PeakStep(row.peakResidency, Breakdowns(before, call.id), Bounded(call.residency).value);
    }
  }

  /** The two halves of an observation touch different parts of the row. */
  lemma HalvesApart(row: Row, current: Option<int>, high: Option<int>, residency: Option<Residency>)
    ensures var seen := SeenRow(row, current, high);
            && seen.peakResidency == row.peakResidency
            && seen.firstResidency == row.firstResidency && seen.lastResidency == row.lastResidency
    ensures var split := SplitRow(row, residency);
            && split.peak == row.peak && split.first == row.first && split.last == row.last
            && split.observedLive == row.observedLive && split.final == row.final
  {
  }

  lemma ObserveExplained(before: seq<Call>, call: Call, row: Row)
    requires call.Observe? && Explains(before, call.id, row)
    ensures Explains(before + [call], call.id, SplitRow(SeenRow(row, call.current, call.high), call.residency))
  {
    var seen := SeenRow(row, call.current, call.high);
    HalvesApart(row, call.current, call.high, call.residency);
    HalvesApart(seen, None, None, call.residency);
    SeenExplained(before, call, row);
    BreakdownExplained(before, call, seen);
  }

  lemma OtherExplained(before: seq<Call>, call: Call, id: Identity, row: Row)
    requires Explains(before, id, row)
    requires call.Add? || call.Truncate? || call.id != id
    ensures Explains(before + [call], id, row)
  {
    assert (before + [call])[..|before|] == before;
    LiveHighStep(before, call, id);
  }

  lemma FinalExplained(before: seq<Call>, call: Call, row: Row)
    requires call.Final? && Explains(before, call.id, row)
    ensures Explains(before + [call], call.id, FinalRow(row, call.high))
  {
    assert (before + [call])[..|before|] == before;
    LiveHighStep(before, call, call.id);
    if Counter(call.high) { MaximumStep(row.peak, Highs(before, call.id), call.high.value); }
  }

  lemma UnfinalExplained(before: seq<Call>, call: Call, row: Row)
    requires call.Unfinal? && Explains(before, call.id, row)
    ensures Explains(before + [call], call.id, row.(final := false))
  {
    assert (before + [call])[..|before|] == before;
    LiveHighStep(before, call, call.id);
  }

  /** After any history, every row equals the recomputation from the full history
      of its identity; nothing that was reported about it before is lost. */
  lemma {:induction false} RowsRefineHistory(calls: seq<Call>, id: Identity)
    requires id in After(calls).rows
    ensures Explains(calls, id, After(calls).rows[id])
  {
    var before, call := calls[..|calls| - 1], calls[|calls| - 1];
    var l := After(before);
    assert calls == before + [call];
    if id in l.rows {
      RowsRefineHistory(before, id);
    } else {
      FreshRowExplained(before, id);
    }
    var row := if id in l.rows then l.rows[id] else NEW_ROW;
    assert Explains(before, id, row);
    if call.Truncate? || call.Add? || call.id != id {
      OtherExplained(before, call, id, row);
    } else if call.Observe? {
      ObserveExplained(before, call, row);
    } else if call.Final? {
      FinalExplained(before, call, row);
    } else {
      UnfinalExplained(before, call, row);
    }
  }

  /** An identity that was mentioned and has no row. */
  ghost predicate Dropped(calls: seq<Call>, i: int)
    requires 0 <= i < |calls|
  {
    && !calls[i].Truncate?
    && Mentions(calls[i], calls[i].id) && Admissible(calls[i].id) && calls[i].id !in After(calls).rows
  }

  ghost predicate CutShort(calls: seq<Call>) {
    exists i :: 0 <= i < |calls| && (calls[i].Truncate? || Dropped(calls, i))
  }

  /** The truncation flag is set exactly when a mentioned identity ended up without
      a row (or a backend reported a cut list itself). */
  lemma {:induction false} TruncatedMeansDropped(calls: seq<Call>)
    ensures After(calls).truncated <==> CutShort(calls)
  {
    if calls != [] {
      var before, call := calls[..|calls| - 1], calls[|calls| - 1];
      var l := After(before);
      TruncatedMeansDropped(before);
      RowsBounded(before);
      ApplyGrows(l, call);
      if l.truncated {
        var i :| 0 <= i < |before| && (before[i].Truncate? || Dropped(before, i));
        assert calls[i] == before[i];
        if Dropped(before, i) {
          DroppedMeansFull(before, i);
          assert Dropped(calls, i);
        }
      } else if After(calls).truncated {
        assert calls[|before|] == call;
        assert call.Truncate? || Dropped(calls, |before|);
      } else {
        forall i | 0 <= i < |before| ensures calls[i] == before[i] { }
      }
    }
  }

  /** Once an identity is dropped the ledger is full, and it stays full. */
  lemma {:induction false} DroppedMeansFull(calls: seq<Call>, i: int)
    requires 0 <= i < |calls| && Dropped(calls, i)
    ensures |After(calls).rows| == MAX_LEDGER
  {
    var before, call := calls[..|calls| - 1], calls[|calls| - 1];
    RowsBounded(before);
    ApplyGrows(After(before), call);
    RowsBounded(calls);
    SubsetSize(After(before).rows.Keys, After(calls).rows.Keys);
    if i < |before| {
      assert before[i] == calls[i];
      DroppedMeansFull(before, i);
    }
  }

  // ------------------------------------------------------------ sums of one sample

  /** A sum of current sizes and how many there were. */
  datatype Tally = Tally(sum: int, saw: nat)

  /** The highest sum of any sample; a sample that saw nothing changes nothing. */
  function HigherSum(peak: Option<int>, t: Tally): (highest: Option<int>)
    ensures t.saw == 0 ==> highest == peak
    ensures t.saw > 0 ==>
      && highest.Some? && highest.value >= t.sum && (peak.Some? ==> highest.value >= peak.value)
      && (highest.value == t.sum || highest == peak)
  {
    if t.saw == 0 || (peak.Some? && peak.value >= t.sum) then peak else Some(t.sum)
  }

  /** The current sizes filed in a stretch of calls, each once. */
  function Filed(calls: seq<Call>): Tally {
    if calls == [] then Tally(0, 0)
    else
      var before, last := Filed(calls[..|calls| - 1]), calls[|calls| - 1];
      if last.Observe? && last.current.Some? then Tally(before.sum + last.current.value, before.saw + 1) else before
  }
}
