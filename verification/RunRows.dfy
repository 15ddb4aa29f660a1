/** Choosing the latest relevant run of every workflow and branch. */
module RunRows {
  import opened Common
  import opened TextOrder

  const WORKFLOWS: set<string> := {
    "ci.yml", "release.yml", "verify-artifacts.yml", "public-updates.yml", "website-release.yml",
    "database-cache.yml", "desktop.yml"}
  const PREFIX := ".github/workflows/"
  const VERIFY := "verify-artifacts.yml"

  datatype Raw = Raw(
    id: int, path: string, ours: bool, headSha: string, title: string, status: string, updatedAt: string,
    branch: Option<string>, attempt: int, conclusion: Option<string>)

  datatype Release = Release(target: string, publishedAt: string)

  datatype Entry = Entry(
    id: int, attempt: int, workflow: string, branch: Option<string>, sourceCommit: string, status: string,
    conclusion: Option<string>, updatedAt: string)

  type Key = (string, Option<string>)

  /** The part of a path up to an at sign. */
  function UpToAt(path: string): string {
    if path == [] || path[0] == '@' then [] else [path[0]] + UpToAt(path[1..])
  }

  function WorkflowOf(path: string): string {
    var name := UpToAt(path);
    if PREFIX <= name then name[|PREFIX|..] else name
  }

  predicate SourceMatches(row: Raw, release: Release) {
    || row.headSha == release.target
    || (WorkflowOf(row.path) == VERIFY && row.title == "Verify release / " + release.target)
  }

  predicate Eligible(row: Raw, release: Release) {
    && WorkflowOf(row.path) in WORKFLOWS && row.ours
    && !(row.status == "completed" && Before(row.updatedAt, release.publishedAt) && !SourceMatches(row, release))
  }

  function KeyOf(row: Raw): Key {
    (WorkflowOf(row.path), row.branch)
  }

  function EntryOf(row: Raw): Entry {
    Entry(row.id, row.attempt, WorkflowOf(row.path), row.branch, row.headSha, row.status, row.conclusion, row.updatedAt)
  }

  /** The path names this workflow, perhaps in its folder and perhaps at some revision. */
  ghost predicate RunsWorkflow(path: string, workflow: string) {
    exists revision: string :: IsPathOf(path, workflow, revision)
  }

  predicate IsPathOf(path: string, workflow: string, revision: string) {
    && (path == workflow + revision || path == ".github/workflows/" + workflow + revision)
    && (revision == "" || revision[0] == '@')
  }

  lemma {:induction false} UpToAtIsFront(path: string)
    ensures exists revision :: path == UpToAt(path) + revision && (revision == "" || revision[0] == '@')
    ensures '@' !in UpToAt(path)
  {
    if path == [] || path[0] == '@' {
      assert path == UpToAt(path) + path;
    } else {
      UpToAtIsFront(path[1..]);
      var revision :| path[1..] == UpToAt(path[1..]) + revision && (revision == "" || revision[0] == '@');
      assert path == UpToAt(path) + revision;
    }
  }

  lemma {:induction false} FrontIsUpToAt(front: string, revision: string)
    requires '@' !in front && (revision == "" || revision[0] == '@')
    ensures UpToAt(front + revision) == front
  {
    if front == [] {
      assert front + revision == revision;
    } else {
      FrontIsUpToAt(front[1..], revision);
      assert (front + revision)[1..] == front[1..] + revision;
    }
  }

  predicate PlainName(name: string) {
    name != "" && name[0] != '.' && '@' !in name
  }

  lemma WorkflowsArePlain()
    ensures forall w :: w in WORKFLOWS ==> PlainName(w)
    ensures '@' !in PREFIX
  {
  }

  lemma OutsideFolder(name: string)
    requires PlainName(name)
    ensures !(PREFIX <= name)
  {
    assert PREFIX[0] == '.';
  }

  /** A run is of a workflow exactly if its path names it. */
  lemma WorkflowByPath(path: string, workflow: string)
    requires workflow in WORKFLOWS
    ensures WorkflowOf(path) == workflow <==> RunsWorkflow(path, workflow)
  {
    WorkflowsArePlain();
    var name := UpToAt(path);
    UpToAtIsFront(path);
    var revision :| path == name + revision && (revision == "" || revision[0] == '@');
    if WorkflowOf(path) == workflow {
      assert PREFIX <= name ==> name == PREFIX + workflow;
      assert IsPathOf(path, workflow, revision);
    }
    if rest :| IsPathOf(path, workflow, rest) {
      if path == workflow + rest {
        FrontIsUpToAt(workflow, rest);
        OutsideFolder(workflow);
      } else {
        assert path == (PREFIX + workflow) + rest;
        FrontIsUpToAt(PREFIX + workflow, rest);
        assert (PREFIX + workflow)[|PREFIX|..] == workflow;
      }
    }
  }

  /** A run is left out exactly if it is of no listed workflow or of another repository, or
      if it was over before the release was published and does not belong to it. */
  lemma EligibleRuns(row: Raw, release: Release)
    ensures Eligible(row, release) <==>
      && row.ours && (exists workflow :: workflow in WORKFLOWS && RunsWorkflow(row.path, workflow))
      && (|| row.status != "completed" || !Before(row.updatedAt, release.publishedAt) || row.headSha == release.target
          || (RunsWorkflow(row.path, "verify-artifacts.yml") && row.title == "Verify release / " + release.target))
  {
    forall workflow | workflow in WORKFLOWS
      ensures WorkflowOf(row.path) == workflow <==> RunsWorkflow(row.path, workflow)
    {
      WorkflowByPath(row.path, workflow);
    }
    assert VERIFY in WORKFLOWS;
  }

  /** A dictionary: its keys in the order they were first put in, and its values. */
  datatype Table = Table(order: seq<Key>, latest: map<Key, Entry>)

  const EMPTY := Table([], map[])

  function Put(t: Table, row: Raw, release: Release): Table {
    if !Eligible(row, release) then t
    else if KeyOf(row) in t.latest && t.latest[KeyOf(row)].id >= row.id then t
    else Table(
      if KeyOf(row) in t.latest then t.order else t.order + [KeyOf(row)],
      t.latest[KeyOf(row) := EntryOf(row)])
  }

  function Fold(rows: seq<Raw>, release: Release): Table {
    if rows == [] then EMPTY else Put(Fold(rows[..|rows| - 1], release), rows[|rows| - 1], release)
  }

  ghost predicate Sound(t: Table) {
    && (forall k :: k in t.order <==> k in t.latest)
    && (forall i, j :: 0 <= i < j < |t.order| ==> t.order[i] != t.order[j])
    && (forall k :: k in t.latest ==> (t.latest[k].workflow, t.latest[k].branch) == k)
  }

  lemma {:induction false} FoldSound(rows: seq<Raw>, release: Release)
    ensures Sound(Fold(rows, release))
  {
    if rows != [] {
      FoldSound(rows[..|rows| - 1], release);
    }
  }

  function Values(t: Table): (v: seq<Entry>)
    requires Sound(t)
    ensures |v| == |t.order| && forall i :: 0 <= i < |v| ==> v[i] == t.latest[t.order[i]]
  {
    assert forall i :: 0 <= i < |t.order| ==> t.order[i] in t.latest;
    seq(|t.order|, i requires 0 <= i < |t.order| => t.latest[t.order[i]])
  }

  function SortKeyOf(e: Entry): SortKey {
    (e.workflow, if e.branch.Some? then e.branch.value else "")
  }

  /** What a caller gets for a list of runs. */
  function Output(rows: seq<Raw>, release: Release): seq<Entry> {
    FoldSound(rows, release);
    Sort(Values(Fold(rows, release)), SortKeyOf)
  }

  method LatestRuns(rows: seq<Raw>, release: Release) returns (result: seq<Entry>)
    ensures result == Output(rows, release)
  {
    var latest: map<Key, Entry> := map[];
    var order: seq<Key> := [];
    var i := 0;
    while i < |rows|
      invariant i <= |rows| && Table(order, latest) == Fold(rows[..i], release)
    {
      var row := rows[i];
      assert rows[..i + 1][..i] == rows[..i];
      i := i + 1;
      if !Eligible(row, release) {
        continue;
      }
      var key := KeyOf(row);
      if key in latest && latest[key].id >= row.id {
        continue;
      }
      if key !in latest {
        order := order + [key];
      }
      latest := latest[key := EntryOf(row)];
    }
    assert rows[..i] == rows;
    FoldSound(rows, release);
    result := Sort(Values(Table(order, latest)), SortKeyOf);
  }

  // ------------------------------------------------------------ which runs are kept

  predicate Candidate(rows: seq<Raw>, i: int, key: Key, release: Release) {
    0 <= i < |rows| && Eligible(rows[i], release) && KeyOf(rows[i]) == key
  }

  /** The greatest id of its key, and the first with that id. */
  ghost predicate Greatest(rows: seq<Raw>, i: int, key: Key, release: Release) {
    && Candidate(rows, i, key, release)
    && forall j :: Candidate(rows, j, key, release) ==>
         rows[j].id <= rows[i].id && (rows[j].id == rows[i].id ==> i <= j)
  }

  ghost predicate KeptAt(latest: map<Key, Entry>, rows: seq<Raw>, key: Key, release: Release) {
    if key in latest then exists i :: Greatest(rows, i, key, release) && latest[key] == EntryOf(rows[i])
    else forall i :: !Candidate(rows, i, key, release)
  }

  lemma CandidateInFront(rows: seq<Raw>, i: int, key: Key, release: Release)
    requires rows != [] && i < |rows| - 1
    ensures Candidate(rows, i, key, release) <==> Candidate(rows[..|rows| - 1], i, key, release)
  {
  }

  lemma GreatestStays(rows: seq<Raw>, i: int, key: Key, release: Release)
    requires rows != [] && Greatest(rows[..|rows| - 1], i, key, release)
    requires Candidate(rows, |rows| - 1, key, release) ==> rows[|rows| - 1].id <= rows[i].id
    ensures Greatest(rows, i, key, release)
  {
    CandidateInFront(rows, i, key, release);
    forall j | Candidate(rows, j, key, release)
      ensures rows[j].id <= rows[i].id && (rows[j].id == rows[i].id ==> i <= j)
    {
      if j < |rows| - 1 {
        CandidateInFront(rows, j, key, release);
      }
    }
  }

  lemma LastIsGreatest(rows: seq<Raw>, key: Key, release: Release)
    requires rows != [] && Candidate(rows, |rows| - 1, key, release)
    requires forall j :: Candidate(rows[..|rows| - 1], j, key, release) ==> rows[j].id < rows[|rows| - 1].id
    ensures Greatest(rows, |rows| - 1, key, release)
  {
    forall j | Candidate(rows, j, key, release)
      ensures rows[j].id <= rows[|rows| - 1].id && (rows[j].id == rows[|rows| - 1].id ==> |rows| - 1 <= j)
    {
      if j < |rows| - 1 {
        CandidateInFront(rows, j, key, release);
      }
    }
  }

  /** What is kept of a run. */
  ghost predicate TellsOf(e: Entry, row: Raw) {
    && e.id == row.id && e.attempt == row.attempt && e.sourceCommit == row.headSha && e.status == row.status
    && e.conclusion == row.conclusion && e.updatedAt == row.updatedAt && e.branch == row.branch
    && e.workflow in WORKFLOWS && RunsWorkflow(row.path, e.workflow)
  }

  /** The entry of a key tells of its run of greatest id. */
  lemma EntriesTell(rows: seq<Raw>, key: Key, release: Release)
    requires key in Fold(rows, release).latest
    ensures exists i :: Greatest(rows, i, key, release) && TellsOf(Fold(rows, release).latest[key], rows[i])
  {
    FoldKeepsGreatest(rows, key, release);
    var i :| Greatest(rows, i, key, release) && Fold(rows, release).latest[key] == EntryOf(rows[i]);
    WorkflowByPath(rows[i].path, WorkflowOf(rows[i].path));
  }

  /** A key is present exactly if it has an eligible run, with the run of greatest id. */
  lemma {:induction false} FoldKeepsGreatest(rows: seq<Raw>, key: Key, release: Release)
    ensures KeptAt(Fold(rows, release).latest, rows, key, release)
  {
    if rows != [] {
      var front, last := rows[..|rows| - 1], |rows| - 1;
      FoldKeepsGreatest(front, key, release);
      var t := Fold(front, release);
      if key in t.latest {
        var i :| Greatest(front, i, key, release) && t.latest[key] == EntryOf(front[i]);
        assert front[i] == rows[i];
        if Candidate(rows, last, key, release) && rows[last].id > rows[i].id {
          LastIsGreatest(rows, key, release);
        } else {
          GreatestStays(rows, i, key, release);
        }
      } else if Candidate(rows, last, key, release) {
        LastIsGreatest(rows, key, release);
      } else {
        forall i ensures !Candidate(rows, i, key, release) {
          if i < last {
            CandidateInFront(rows, i, key, release);
          }
        }
      }
    }
  }

  // --------------------------------------------------------------- input order

  predicate DistinctIds(rows: seq<Raw>) {
    forall i, j :: 0 <= i < j < |rows| ==> rows[i].id != rows[j].id
  }

  lemma InBoth(a: seq<Raw>, b: seq<Raw>, i: nat) returns (j: nat)
    requires multiset(a) == multiset(b) && i < |a|
    ensures j < |b| && b[j] == a[i]
  {
    assert a[i] in multiset(b);
    j :| j < |b| && b[j] == a[i];
  }

  lemma KeyMoves(a: seq<Raw>, b: seq<Raw>, release: Release, key: Key)
    requires multiset(a) == multiset(b) && key in Fold(a, release).latest
    ensures key in Fold(b, release).latest
  {
    FoldKeepsGreatest(a, key, release);
    FoldKeepsGreatest(b, key, release);
    var i :| Greatest(a, i, key, release);
    var j := InBoth(a, b, i);
    assert Candidate(b, j, key, release);
  }

  /** The kept runs do not depend on the order of the input. */
  lemma MapIndependent(a: seq<Raw>, b: seq<Raw>, release: Release)
    requires multiset(a) == multiset(b) && DistinctIds(a)
    ensures Fold(a, release).latest == Fold(b, release).latest
  {
    var s, t := Fold(a, release).latest, Fold(b, release).latest;
    forall key | key in t ensures key in s {
      KeyMoves(b, a, release, key);
    }
    forall key | key in s ensures key in t && s[key] == t[key] {
      KeyMoves(a, b, release, key);
      FoldKeepsGreatest(a, key, release);
      FoldKeepsGreatest(b, key, release);
      var i :| Greatest(a, i, key, release) && s[key] == EntryOf(a[i]);
      var j := InBoth(a, b, i);
      assert Candidate(b, j, key, release);
      var k :| Greatest(b, k, key, release) && t[key] == EntryOf(b[k]);
      var l := InBoth(b, a, k);
      assert Candidate(a, l, key, release);
      assert a[l].id == a[i].id;
    }
  }

  /** No workflow has an eligible run without a branch and one on a branch with an empty
      name. */
  ghost predicate NoTie(rows: seq<Raw>, release: Release) {
    forall w: string, i, j ::
      !(Candidate(rows, i, (w, None), release) && Candidate(rows, j, (w, Some("")), release))
  }

  lemma SameSortKey(a: Key, b: Key, x: Entry, y: Entry)
    requires (x.workflow, x.branch) == a && (y.workflow, y.branch) == b && SortKeyOf(x) == SortKeyOf(y) && a != b
    ensures a.0 == b.0
    ensures (a.1 == None && b.1 == Some("")) || (a.1 == Some("") && b.1 == None)
  {
  }

  lemma EqualSortKeysTie(rows: seq<Raw>, release: Release, i: nat, j: nat)
    requires i < |Fold(rows, release).order| && j < |Fold(rows, release).order| && i != j
    requires Sound(Fold(rows, release))
    requires SortKeyOf(Values(Fold(rows, release))[i]) == SortKeyOf(Values(Fold(rows, release))[j])
    ensures !NoTie(rows, release)
  {
    var t := Fold(rows, release);
    var a, b := t.order[i], t.order[j];
    assert a != b && a in t.latest && b in t.latest;
    SameSortKey(a, b, t.latest[a], t.latest[b]);
    FoldKeepsGreatest(rows, a, release);
    FoldKeepsGreatest(rows, b, release);
    var p :| Greatest(rows, p, a, release);
    var q :| Greatest(rows, q, b, release);
    assert Candidate(rows, p, (a.0, a.1), release) && Candidate(rows, q, (a.0, b.1), release);
  }

  /** Without a tie, a sort key has at most one value. */
  lemma OnlyWithoutTie(rows: seq<Raw>, release: Release, i: nat)
    requires NoTie(rows, release) && i < |Fold(rows, release).order|
    ensures Sound(Fold(rows, release))
    ensures var v := Values(Fold(rows, release)); Only(v, SortKeyOf, SortKeyOf(v[i])) == [v[i]]
  {
    FoldSound(rows, release);
    var v := Values(Fold(rows, release));
    forall j | 0 <= j < |v| && j != i ensures SortKeyOf(v[j]) != SortKeyOf(v[i]) {
      if SortKeyOf(v[j]) == SortKeyOf(v[i]) {
        EqualSortKeysTie(rows, release, j, i);
      }
    }
    OnlySingle(v, SortKeyOf, SortKeyOf(v[i]), i);
  }

  lemma OnlyAgree(a: seq<Raw>, b: seq<Raw>, release: Release, k: SortKey)
    requires NoTie(a, release) && NoTie(b, release) && Fold(a, release).latest == Fold(b, release).latest
    ensures Sound(Fold(a, release)) && Sound(Fold(b, release))
    ensures Only(Values(Fold(a, release)), SortKeyOf, k) != [] ==>
              Only(Values(Fold(a, release)), SortKeyOf, k) == Only(Values(Fold(b, release)), SortKeyOf, k)
  {
    FoldSound(a, release);
    FoldSound(b, release);
    var v, w := Values(Fold(a, release)), Values(Fold(b, release));
    OnlyNone(v, SortKeyOf, k);
    if Only(v, SortKeyOf, k) != [] {
      var i :| 0 <= i < |v| && SortKeyOf(v[i]) == k;
      var key := Fold(a, release).order[i];
      assert key in Fold(b, release).order;
      var j :| 0 <= j < |w| && Fold(b, release).order[j] == key;
      assert w[j] == v[i];
      OnlyWithoutTie(a, release, i);
      OnlyWithoutTie(b, release, j);
    }
  }

  lemma TieMoves(a: seq<Raw>, b: seq<Raw>, release: Release)
    requires multiset(a) == multiset(b) && NoTie(a, release)
    ensures NoTie(b, release)
  {
    forall w: string, i, j
      ensures !(Candidate(b, i, (w, None), release) && Candidate(b, j, (w, Some("")), release))
    {
      if Candidate(b, i, (w, None), release) && Candidate(b, j, (w, Some("")), release) {
        var p := InBoth(b, a, i);
        var q := InBoth(b, a, j);
        assert Candidate(a, p, (w, None), release) && Candidate(a, q, (w, Some("")), release);
      }
    }
  }

  /** Without a tie the list itself does not depend on the order of the input. */
  lemma OutputIndependent(a: seq<Raw>, b: seq<Raw>, release: Release)
    requires multiset(a) == multiset(b) && DistinctIds(a) && NoTie(a, release)
    ensures Output(a, release) == Output(b, release)
  {
    FoldSound(a, release);
    FoldSound(b, release);
    MapIndependent(a, b, release);
    TieMoves(a, b, release);
    var v, w := Values(Fold(a, release)), Values(Fold(b, release));
    SortInOrder(v, SortKeyOf);
    SortInOrder(w, SortKeyOf);
    forall k ensures Only(Sort(v, SortKeyOf), SortKeyOf, k) == Only(Sort(w, SortKeyOf), SortKeyOf, k) {
      SortStable(v, SortKeyOf, k);
      SortStable(w, SortKeyOf, k);
      OnlyAgree(a, b, release, k);
      OnlyAgree(b, a, release, k);
    }
    OrderedIsUnique(Sort(v, SortKeyOf), Sort(w, SortKeyOf), SortKeyOf);
  }

  // ----------------------------------------------------------------------- ties

  lemma {:induction false} FirstKey(rows: seq<Raw>, release: Release)
    requires rows != [] && Eligible(rows[0], release)
    ensures Fold(rows, release).order != [] && Fold(rows, release).order[0] == KeyOf(rows[0])
  {
    if |rows| == 1 {
      assert rows[..0] == [];
    } else {
      assert rows[..|rows| - 1][0] == rows[0];
      FirstKey(rows[..|rows| - 1], release);
      FoldSound(rows[..|rows| - 1], release);
    }
  }

  function MoveToFront(rows: seq<Raw>, i: nat): seq<Raw>
    requires i < |rows|
  {
    [rows[i]] + rows[..i] + rows[i + 1..]
  }

  lemma MovedIsPermutation(rows: seq<Raw>, i: nat)
    requires i < |rows|
    ensures multiset(MoveToFront(rows, i)) == multiset(rows)
  {
    assert rows == rows[..i] + [rows[i]] + rows[i + 1..];
  }

  /** The run in front decides which of two tied rows comes first in the list. */
  lemma FrontDecides(rows: seq<Raw>, release: Release)
    requires rows != [] && Eligible(rows[0], release)
    requires rows[0].branch == None || rows[0].branch == Some("")
    ensures var only := Only(Output(rows, release), SortKeyOf, (WorkflowOf(rows[0].path), ""));
            only != [] && only[0].branch == rows[0].branch
  {
    FoldSound(rows, release);
    FirstKey(rows, release);
    var v := Values(Fold(rows, release));
    OnlyFirst(v, SortKeyOf);
    SortStable(v, SortKeyOf, SortKeyOf(v[0]));
  }

  function Queued(id: int, branch: Option<string>): Raw {
    Raw(id, "ci.yml", true, "", "", "queued", "", branch, 1, None)
  }

  lemma QueuedIsEligible(id: int, branch: Option<string>, release: Release)
    ensures Eligible(Queued(id, branch), release) && WorkflowOf(Queued(id, branch).path) == "ci.yml"
  {
    assert UpToAt("ci.yml") == "ci.yml";
    assert |PREFIX| > |UpToAt("ci.yml")|;
  }

  /** Two queued runs of one workflow, one without a branch and one on a branch with an
      empty name: listing them the other way round gives another list. */
  lemma TwoTiedRuns(release: Release)
    ensures var a, b := Queued(1, None), Queued(2, Some(""));
      multiset([a, b]) == multiset([b, a]) && Output([a, b], release) != Output([b, a], release)
  {
    var a, b := Queued(1, None), Queued(2, Some(""));
    QueuedIsEligible(1, None, release);
    QueuedIsEligible(2, Some(""), release);
    FrontDecides([a, b], release);
    FrontDecides([b, a], release);
    assert multiset([a, b]) == multiset{a, b} == multiset([b, a]);
  }

  /** With distinct ids, every order of the input gives the same list exactly if there is
      no tie. */
  lemma OrderIndependentIffNoTie(rows: seq<Raw>, release: Release)
    requires DistinctIds(rows)
    ensures NoTie(rows, release)
       <==> forall other :: multiset(other) == multiset(rows) ==> Output(other, release) == Output(rows, release)
  {
    if NoTie(rows, release) {
      forall other | multiset(other) == multiset(rows) ensures Output(other, release) == Output(rows, release) {
        OutputIndependent(rows, other, release);
      }
    } else {
      var w: string, i, j :| Candidate(rows, i, (w, None), release) && Candidate(rows, j, (w, Some("")), release);
      var a, b := MoveToFront(rows, i), MoveToFront(rows, j);
      MovedIsPermutation(rows, i);
      MovedIsPermutation(rows, j);
      FrontDecides(a, release);
      FrontDecides(b, release);
      assert Output(a, release) != Output(b, release);
    }
  }
}
