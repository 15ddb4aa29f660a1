/** The ledger as an object: a table from identities to rows that are updated in
    place. Every method moves the ledger's value exactly as `Apply` says, so the
    history theorems hold of it. */
module LedgerObject {
  import opened Common
  import opened LedgerHistory
  import opened TextOrder

  // ------------------------------------------------------------- the row's key

  function Digit(d: int): (c: char)
    requires 0 <= d < 10
    ensures '0' <= c <= '9' && c as int == '0' as int + d
  {
    '0' + (d as char)
  }

  function Decimal(n: nat): (s: string)
    ensures s != "" && forall i :: 0 <= i < |s| ==> '0' <= s[i] <= '9'
    ensures n > 9 ==> |s| > 1
  {
    if n < 10 then [Digit(n)] else Decimal(n / 10) + [Digit(n % 10)]
  }

  /** The text that keys a row. */
  function KeyText(id: Identity): string
    requires Admissible(id)
  {
    Decimal(id.pid) + ":" + Decimal(id.creation)
  }

  lemma {:induction false} DecimalInjective(m: nat, n: nat)
    ensures Decimal(m) == Decimal(n) ==> m == n
  {
    if Decimal(m) == Decimal(n) && m > 9 && n > 9 {
      var s := Decimal(m);
      assert s[..|s| - 1] == Decimal(m / 10);
      assert Decimal(n)[..|s| - 1] == Decimal(n / 10);
      assert s[|s| - 1] == Digit(m % 10) && Decimal(n)[|s| - 1] == Digit(n % 10);
      DecimalInjective(m / 10, n / 10);
    } else if m < 10 && n < 10 {
      assert Decimal(m)[0] == Digit(m) && Decimal(n)[0] == Digit(n);
    }
  }

  /** Keying rows by text is keying them by (pid, creation). */
  lemma KeyTextInjective(a: Identity, b: Identity)
    requires Admissible(a) && Admissible(b)
    ensures KeyText(a) == KeyText(b) ==> a == b
  {
    var p, q := Decimal(a.pid), Decimal(b.pid);
    if KeyText(a) == KeyText(b) {
      assert KeyText(a)[|p|] == ':' && forall i :: 0 <= i < |p| ==> KeyText(a)[i] != ':';
      assert KeyText(b)[|q|] == ':' && forall i :: 0 <= i < |q| ==> KeyText(b)[i] != ':';
      assert |p| == |q|;
      assert KeyText(a)[..|p|] == p && KeyText(b)[..|p|] == q;
      assert KeyText(a)[|p| + 1..] == Decimal(a.creation);
      assert KeyText(b)[|p| + 1..] == Decimal(b.creation);
      DecimalInjective(a.pid, b.pid);
      DecimalInjective(a.creation, b.creation);
    }
  }

  // ------------------------------------------------------------------- objects

  /** One breakdown as an object of its own. `home` is the row it was made for. */
  class Breakdown {
    var components: Residency
    ghost const home: Entry?

    constructor (components: Residency, ghost home: Entry?)
      ensures this.components == components && this.home == home
    {
      this.components, this.home := components, home;
    }
  }

  function Cleaned(c: Residency): Residency {
    Residency(Clean(c.total), Clean(c.anonymous), Clean(c.file), Clean(c.shared))
  }

  ghost function Shown(b: Breakdown?): Option<Residency>
    reads b
  {
    if b == null then None else Some(b.components)
  }

  /** A new object with the real components of a breakdown, or none without any. */
  method BoundedCopy(b: Breakdown?) returns (copy: Breakdown?)
    ensures Shown(copy) == Bounded(Shown(b)) && (copy != null ==> fresh(copy) && Cleaned(copy.components) == copy.components)
  {
    if b == null {
      return null;
    }
    var kept := Cleaned(b.components);
    if kept == Residency(None, None, None, None) {
      return null;
    }
    copy := new Breakdown(kept, null);
  }

  method Copy(b: Breakdown?, ghost home: Entry) returns (copy: Breakdown?)
    requires b != null ==> Cleaned(b.components) == b.components
    ensures Shown(copy) == Shown(b) && (copy != null ==> fresh(copy) && copy.home == home)
  {
    copy := null;
    if b != null {
      copy := new Breakdown(Cleaned(b.components), home);
    }
  }

  class Entry {
    const id: Identity
    var peak: Option<int>
    var first: Option<int>
    var last: Option<int>
    var observedLive: bool
    var final: bool
    var firstResidency: Breakdown?
    var lastResidency: Breakdown?
    var peakResidency: Breakdown?

    /** The three breakdowns are three objects made for this row, without malformed
        components. So two rows never share one. */
    ghost predicate Valid()
      reads this, firstResidency, lastResidency, peakResidency
    {
      && Mine(firstResidency) && Mine(lastResidency) && Mine(peakResidency)
      && (firstResidency == null || (firstResidency != lastResidency && firstResidency != peakResidency))
      && (lastResidency == null || lastResidency != peakResidency)
    }

    ghost predicate Mine(b: Breakdown?)
      reads b
    {
      b != null ==> b.home == this && Cleaned(b.components) == b.components
    }

    ghost function Parts(): (parts: set<object>)
      reads this
      ensures forall o :: o in parts ==> o == firstResidency || o == lastResidency || o == peakResidency
      ensures firstResidency == null || firstResidency in parts
      ensures lastResidency == null || lastResidency in parts
      ensures peakResidency == null || peakResidency in parts
    {
      (if firstResidency == null then {} else {firstResidency}) + (if lastResidency == null then {} else {lastResidency})
      + if peakResidency == null then {} else {peakResidency}
    }

    /** This row and its breakdowns are among `objects`. */
    ghost predicate Inside(objects: set<object>)
      reads this
    {
      && this in objects && (firstResidency == null || firstResidency in objects)
      && (lastResidency == null || lastResidency in objects) && (peakResidency == null || peakResidency in objects)
    }

    twostate predicate Rest()
      reads this
    {
      && firstResidency == old(firstResidency) && lastResidency == old(lastResidency)
      && peakResidency == old(peakResidency)
    }

    /** Every breakdown is the one that was here before or a new object. */
    twostate predicate OnlyNew()
      reads this
    {
      && (firstResidency == old(firstResidency) || fresh(firstResidency))
      && (lastResidency == old(lastResidency) || fresh(lastResidency))
      && (peakResidency == old(peakResidency) || fresh(peakResidency))
    }

    ghost function Value(): Row
      reads this, firstResidency, lastResidency, peakResidency
    {
      Row(peak, first, last, observedLive, final, Shown(firstResidency), Shown(lastResidency), Shown(peakResidency))
    }

    twostate lemma PartsAreOldOrNew(objects: set<object>)
      requires old(Inside(objects)) && OnlyNew()
      ensures fresh(Parts() - objects)
    {
    }

    constructor (id: Identity)
      ensures Valid() && Value() == NEW_ROW && Inside({this}) && this.id == id
    {
      this.id := id;
      peak, first, last, observedLive, final := None, None, None, false, false;
      firstResidency, lastResidency, peakResidency := null, null, null;
    }

    method See(current: Option<int>, high: Option<int>)
      requires Valid()
      modifies this
      ensures Valid() && Value() == SeenRow(old(Value()), current, high) && Rest()
    {
      if Counter(current) {
        if first.None? {
          first := current;
        }
        last := current;
      }
      if Counter(high) {
        peak := Raised(peak, high.value);
        observedLive := true;
      }
    }

    /** Files a breakdown. What is kept are new objects, one for each place, so neither
        the caller's object nor one place's copy is ever kept in another place. */
    method Split(residency: Breakdown?)
      requires Valid()
      modifies this
      ensures Valid() && Value() == SplitRow(old(Value()), old(Shown(residency)))
      ensures OnlyNew()
    {
      var snapshot := BoundedCopy(residency);
      if snapshot == null {
        return;
      }
      if firstResidency == null {
        firstResidency := Copy(snapshot, this);
      }
      lastResidency := Copy(snapshot, this);
      var total := snapshot.components.total;
      if total.None? {
        return;
      }
      if peakResidency == null || peakResidency.components.total.None?
         || total.value > peakResidency.components.total.value {
        peakResidency := Copy(snapshot, this);
      }
    }

    method Take(current: Option<int>, high: Option<int>, residency: Breakdown?)
      requires Valid()
      modifies this
      ensures Valid() && Value() == SplitRow(SeenRow(old(Value()), current, high), old(Shown(residency)))
      ensures OnlyNew()
    {
      See(current, high);
      Split(residency);
    }

    method Finish(high: Option<int>) returns (noted: bool)
      requires Valid()
      modifies this
      ensures Valid() && Value() == FinalRow(old(Value()), high) && noted == Counter(high) && Rest()
    {
      if !Counter(high) {
        final := false;
        return false;
      }
      peak := Raised(peak, high.value);
      final := true;
      return true;
    }

    method Unfinish()
      requires Valid()
      modifies this
      ensures Valid() && Value() == old(Value()).(final := false) && Rest()
    {
      final := false;
    }

    /** A row of its own, with breakdowns of its own. */
    method Duplicate() returns (copy: Entry)
      requires Valid()
      ensures fresh(copy) && copy.Valid() && copy.id == id && copy.Value() == Value() && AllNew(copy)
    {
      copy := new Entry(id);
      var firstCopy := Copy(firstResidency, copy);
      var lastCopy := Copy(lastResidency, copy);
      var peakCopy := Copy(peakResidency, copy);
      copy.peak, copy.first, copy.last, copy.observedLive, copy.final := peak, first, last, observedLive, final;
      copy.firstResidency, copy.lastResidency, copy.peakResidency := firstCopy, lastCopy, peakCopy;
    }
  }

  /** The position of a row in the published list. */
  function RowKey(id: Identity): SortKey {
    if Admissible(id) then (KeyText(id), "") else ("", "")
  }

  /** The parts of a row's invariant; see `EntryOk`. */
  datatype Part = ItsName | ItsObjects | ItsValue

  function NamesOf(rows: seq<Entry>): (ids: seq<Identity>)
    ensures |ids| == |rows| && forall i :: 0 <= i < |ids| ==> ids[i] == rows[i].id
  {
    seq(|rows|, i requires 0 <= i < |rows| => rows[i].id)
  }

  class LedgerBook {
    var rows: map<Identity, Entry>
    var truncated: bool

    /** What the book holds as a value, and the objects it is made of. */
    ghost var value: Ledger
    ghost var Repr: set<object>

    /** Each identity has a row of its own in the book, and by `Entry.Valid` each row has
        breakdowns of its own; together they hold the value. */
    ghost predicate Valid()
      reads this, Repr
    {
      && this !in Repr && |rows| <= MAX_LEDGER
      && value.truncated == truncated && value.rows.Keys == rows.Keys
      && (forall id :: id in rows ==> rows[id] in Repr && rows[id].Inside(Repr))
      && (forall id :: id in rows ==> EntryOk(id, rows[id], value.rows[id]))
    }

    /** The parts are behind a quantifier so that a proof about one row does not look
        into all the others. */
    static ghost predicate EntryOk(id: Identity, entry: Entry, row: Row)
      reads entry, entry.firstResidency, entry.lastResidency, entry.peakResidency
    {
      entry.id == id && forall part: Part :: EntryHas(id, entry, row, part)
    }

    static ghost predicate EntryHas(id: Identity, entry: Entry, row: Row, part: Part)
      reads entry, entry.firstResidency, entry.lastResidency, entry.peakResidency
    {
      match part
      case ItsName => Admissible(id)
      case ItsObjects => entry.Valid()
      case ItsValue => entry.Value() == row
    }

    lemma RowFacts(id: Identity)
      requires Valid() && id in rows
      ensures Admissible(id) && rows[id].id == id && rows[id].Valid() && rows[id].Value() == value.rows[id]
    {
      assert EntryOk(id, rows[id], value.rows[id]);
      assert EntryHas(id, rows[id], value.rows[id], ItsName);
      assert EntryHas(id, rows[id], value.rows[id], ItsObjects);
      assert EntryHas(id, rows[id], value.rows[id], ItsValue);
    }

    constructor ()
      ensures Valid() && value == After([]) && fresh(Repr)
    {
      rows := map[];
      truncated := false;
      value, Repr := EMPTY, {};
    }

    lemma SameSize()
      requires Valid()
      ensures |value.rows| == |rows|
    {
      assert |value.rows| == |value.rows.Keys| && |rows| == |rows.Keys|;
    }

    method AddIdentity(id: Identity) returns (entry: Entry?)
      requires Valid()
      modifies this
      ensures Valid() && value == Apply(old(value), Add(id)) && fresh(Repr - old(Repr))
      ensures entry != null <==> id in rows
      ensures entry != null ==> rows[id] == entry
    {
      if !Admissible(id) {
        if id in rows {
          RowFacts(id);
        }
        return null;
      }
      if id in rows {
        return rows[id];
      }
      SameSize();
      if |rows| >= MAX_LEDGER {
        truncated := true;
        value := value.(truncated := true);
        return null;
      }
      entry := AddRow(id);
    }

    method AddRow(id: Identity) returns (added: Entry)
      requires Valid() && Admissible(id) && id !in rows && |rows| < MAX_LEDGER
      modifies this
      ensures Valid() && value == Updated(old(value), id, NEW_ROW) && fresh(Repr - old(Repr))
      ensures rows == old(rows)[id := added]
    {
      added := new Entry(id);
      assert EntryOk(id, added, NEW_ROW);
      rows, value, Repr := rows[id := added], Updated(value, id, NEW_ROW), Repr + {added};
      forall i | i in rows ensures EntryOk(i, rows[i], value.rows[i]) {
        assert i != id ==> old(EntryOk(i, rows[i], value.rows[i]));
      }
    }

    /** Everything is in order but for what one row holds. */
    ghost predicate ValidBut(id: Identity)
      reads this, Repr
    {
      && this !in Repr && |rows| <= MAX_LEDGER && id in rows && rows[id] in Repr
      && value.truncated == truncated && value.rows.Keys == rows.Keys
      && (forall i :: i in rows && i != id ==> rows[i] in Repr && rows[i].Inside(Repr))
      && (forall i :: i in rows && i != id ==> EntryOk(i, rows[i], value.rows[i]))
    }

    /** One row object was changed; that row changes and nothing else. */
    ghost method Refresh(id: Identity)
      requires ValidBut(id) && Admissible(id) && rows[id].id == id && rows[id].Valid()
      modifies this`value, this`Repr
      ensures Valid() && value == Updated(old(value), id, rows[id].Value()) && Repr == old(Repr) + rows[id].Parts()
    {
      ghost var row := rows[id].Value();
      assert EntryOk(id, rows[id], row);
      value, Repr := Updated(value, id, row), Repr + rows[id].Parts();
      forall i | i in rows ensures rows[i].Inside(Repr) && EntryOk(i, rows[i], value.rows[i]) {
        assert i != id ==> old(rows[i].Inside(Repr) && EntryOk(i, rows[i], value.rows[i]));
      }
    }

    method SampleRow(id: Identity, current: Option<int>, high: Option<int>, residency: Breakdown?)
      requires Valid() && id in rows
      modifies this`value, this`Repr, rows[id]
      ensures Valid()
      ensures value == Updated(old(value), id, SplitRow(SeenRow(old(value).rows[id], current, high), old(Shown(residency))))
      ensures fresh(Repr - old(Repr))
    {
      RowFacts(id);
      rows[id].Take(current, high, residency);
      rows[id].PartsAreOldOrNew(Repr);
      Refresh(id);
    }

    method FinishRow(id: Identity, high: Option<int>) returns (noted: bool)
      requires Valid() && id in rows
      modifies this`value, this`Repr, rows[id]
      ensures Valid() && value == Updated(old(value), id, FinalRow(old(value).rows[id], high))
      ensures fresh(Repr - old(Repr)) && noted == Counter(high)
    {
      RowFacts(id);
      noted := rows[id].Finish(high);
      rows[id].PartsAreOldOrNew(Repr);
      Refresh(id);
    }

    /** Files a sample. The caller's breakdown is only read. */
    method Observe(id: Identity, current: Option<int>, high: Option<int>, residency: Breakdown?)
      requires Valid()
      modifies this, Repr
      ensures Valid() && value == Apply(old(value), Call.Observe(id, current, high, old(Shown(residency))))
      ensures fresh(Repr - old(Repr)) && (residency != null ==> unchanged(residency))
    {
      var entry := AddIdentity(id);
      if entry != null {
        SampleRow(id, current, high, residency);
      }
    }

    method NoteFinalPeak(id: Identity, high: Option<int>) returns (noted: bool)
      requires Valid()
      modifies this, Repr
      ensures Valid() && value == Apply(old(value), Final(id, high)) && fresh(Repr - old(Repr))
      ensures noted <==> id in rows && Counter(high)
    {
      var entry := AddIdentity(id);
      if entry == null {
        return false;
      }
      noted := FinishRow(id, high);
    }

    /** The backend clearing the final flag of a row after a failed query. */
    method ClearFinal(id: Identity)
      requires Valid()
      modifies this, Repr
      ensures Valid() && value == Apply(old(value), Unfinal(id)) && fresh(Repr - old(Repr))
    {
      if id in rows {
        RowFacts(id);
        rows[id].Unfinish();
        rows[id].PartsAreOldOrNew(Repr);
        Refresh(id);
      }
    }

    /** The rows in the order of their text keys. Rows and breakdowns are new objects,
        none shared: changing the copy never changes the ledger, and recording more in
        the ledger never changes the copy. */
    method Public() returns (copy: seq<Entry>)
      requires Valid()
      ensures forall id :: id in NamesOf(copy) <==> id in rows
      ensures forall i, j :: 0 <= i < j < |copy| ==> KeysInOrder(copy[i].id, copy[j].id)
      ensures forall i :: 0 <= i < |copy| ==> copy[i].id in rows && IsCopy(copy[i], value.rows[copy[i].id])
    {
      var ids := SortedIds();
      copy := CopyRows(ids);
      assert NamesOf(copy) == ids;
    }

    method CopyRows(ids: seq<Identity>) returns (copy: seq<Entry>)
      requires Valid() && forall id :: id in ids ==> id in rows
      ensures |copy| == |ids|
      ensures forall i :: 0 <= i < |ids| ==> copy[i].id == ids[i] && IsCopy(copy[i], value.rows[ids[i]])
    {
      copy := [];
      for n := 0 to |ids|
        invariant |copy| == n
        invariant forall i :: 0 <= i < n ==> copy[i].id == ids[i] && IsCopy(copy[i], value.rows[ids[i]])
      {
        var row := CopyRow(ids[n]);
        copy := copy + [row];
      }
    }

    method CopyRow(id: Identity) returns (row: Entry)
      requires Valid() && id in rows
      ensures row.id == id && IsCopy(row, value.rows[id])
    {
      RowFacts(id);
      row := rows[id].Duplicate();
    }

    /** The identities in the order of their text keys. */
    method SortedIds() returns (ids: seq<Identity>)
      requires Valid()
      ensures forall id :: id in ids <==> id in rows
      ensures forall i, j :: 0 <= i < j < |ids| ==> KeysInOrder(ids[i], ids[j])
    {
      var listed := ListIds();
      forall id | id in listed ensures Admissible(id) {
        RowFacts(id);
      }
      ids := Sort(listed, RowKey);
      StrictlySorted(listed);
    }

    method ListIds() returns (listed: seq<Identity>)
      ensures forall id :: id in listed <==> id in rows
      ensures forall i, j :: 0 <= i < j < |listed| ==> listed[i] != listed[j]
    {
      listed := [];
      var left := rows.Keys;
      while left != {}
        invariant left <= rows.Keys
        invariant forall id :: id in listed <==> id in rows && id !in left
        invariant forall i, j :: 0 <= i < j < |listed| ==> listed[i] != listed[j]
        decreases left
      {
        var id :| id in left;
        listed := listed + [id];
        left := left - {id};
      }
    }
  }

  predicate KeysInOrder(a: Identity, b: Identity) {
    Admissible(a) && Admissible(b) && Before(KeyText(a), KeyText(b))
  }

  twostate predicate AllNew(new row: Entry)
    reads row
  {
    && (row.firstResidency == null || fresh(row.firstResidency))
    && (row.lastResidency == null || fresh(row.lastResidency))
    && (row.peakResidency == null || fresh(row.peakResidency))
  }

  /** A new row with this value, whose breakdowns are new too. */
  twostate predicate IsCopy(new row: Entry, value: Row)
    reads row, row.firstResidency, row.lastResidency, row.peakResidency
  {
    fresh(row) && row.Valid() && row.Value() == value && AllNew(row)
  }

  /** Different identities have different keys, so the order is strict. */
  lemma StrictlySorted(listed: seq<Identity>)
    requires forall i, j :: 0 <= i < j < |listed| ==> listed[i] != listed[j]
    requires forall id :: id in listed ==> Admissible(id)
    ensures var ids := Sort(listed, RowKey);
      && (forall id :: id in ids <==> id in listed)
      && forall i, j :: 0 <= i < j < |ids| ==> KeysInOrder(ids[i], ids[j])
  {
    var ids := Sort(listed, RowKey);
    SortInOrder(listed, RowKey);
    forall id ensures id in ids <==> id in listed {
      assert id in multiset(ids) <==> id in multiset(listed);
    }
    forall i, j | 0 <= i < j < |ids| ensures KeysInOrder(ids[i], ids[j]) {
      assert ids[i] in ids && ids[j] in ids;
      if ids[i] == ids[j] {
        TwiceInMultiset(ids, i, j);
        OnceInMultiset(listed, ids[i]);
      }
      NotAfterIsBefore(ids[i], ids[j]);
    }
  }

  lemma NotAfterIsBefore(a: Identity, b: Identity)
    requires Admissible(a) && Admissible(b) && a != b && !KeyBefore(RowKey(b), RowKey(a))
    ensures Before(KeyText(a), KeyText(b))
  {
    KeyTextInjective(a, b);
    BeforeTotal(KeyText(a), KeyText(b));
  }

  lemma TwiceInMultiset<T>(s: seq<T>, i: nat, j: nat)
    requires i < j < |s| && s[i] == s[j]
    ensures multiset(s)[s[i]] >= 2
  {
    assert s == s[..j] + [s[j]] + s[j + 1..];
    assert s[i] in s[..j];
  }

  lemma {:induction false} OnceInMultiset<T>(s: seq<T>, x: T)
    requires forall i, j :: 0 <= i < j < |s| ==> s[i] != s[j]
    ensures multiset(s)[x] <= 1
  {
    if s != [] {
      var rest := s[..|s| - 1];
      assert s == rest + [s[|s| - 1]];
      OnceInMultiset(rest, x);
      assert s[|s| - 1] !in rest;
    }
  }
}
