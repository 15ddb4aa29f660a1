/** The order of texts, and a stable sort by a text key pair. */
module TextOrder {
  predicate Before(a: string, b: string) {
    b != [] && (a == [] || a[0] < b[0] || (a[0] == b[0] && Before(a[1..], b[1..])))
  }

  lemma {:induction false} BeforeTotal(a: string, b: string)
    ensures a == b || Before(a, b) || Before(b, a)
    ensures !(Before(a, b) && Before(b, a))
    ensures a == b ==> !Before(a, b)
  {
    if a != [] && b != [] {
      BeforeTotal(a[1..], b[1..]);
      if a[0] == b[0] && a[1..] == b[1..] {
        assert a == [a[0]] + a[1..] && b == [b[0]] + b[1..];
      }
    }
  }

  /** `a` ends within `b`, or has the smaller character where the two first differ. */
  predicate DiffersAt(a: string, b: string, k: nat) {
    k <= |a| && k < |b| && a[..k] == b[..k] && (k == |a| || a[k] < b[k])
  }

  lemma {:induction false} BeforeAtFirstDifference(a: string, b: string)
    ensures Before(a, b) <==> exists k: nat :: DiffersAt(a, b, k)
  {
    if b == [] {
    } else if a == [] || a[0] != b[0] {
      assert a == [] || a[0] < b[0] ==> DiffersAt(a, b, 0);
      assert forall k: nat | k > 0 && k <= |a| && k <= |b| :: a[..k] == b[..k] ==> a[..k][0] == b[..k][0];
    } else {
      BeforeAtFirstDifference(a[1..], b[1..]);
      if k: nat :| DiffersAt(a[1..], b[1..], k) {
        assert a[..k + 1] == [a[0]] + a[1..][..k] && b[..k + 1] == [b[0]] + b[1..][..k];
        assert DiffersAt(a, b, k + 1);
      }
      if k: nat :| DiffersAt(a, b, k) {
        assert a[1..][..k - 1] == a[..k][1..] && b[1..][..k - 1] == b[..k][1..];
        assert DiffersAt(a[1..], b[1..], k - 1);
      }
    }
  }

  lemma {:induction false} BeforeTransitive(a: string, b: string, c: string)
    requires Before(a, b) && Before(b, c)
    ensures Before(a, c)
  {
    if a != [] && a[0] == b[0] == c[0] {
      BeforeTransitive(a[1..], b[1..], c[1..]);
    }
  }

  type SortKey = (string, string)

  predicate KeyBefore(a: SortKey, b: SortKey) {
    Before(a.0, b.0) || (a.0 == b.0 && Before(a.1, b.1))
  }

  lemma KeyTotal(a: SortKey, b: SortKey)
    ensures a == b || KeyBefore(a, b) || KeyBefore(b, a)
    ensures !(KeyBefore(a, b) && KeyBefore(b, a))
    ensures a == b ==> !KeyBefore(a, b)
  {
    BeforeTotal(a.0, b.0);
    BeforeTotal(a.1, b.1);
  }

  lemma KeyTransitive(a: SortKey, b: SortKey, c: SortKey)
    requires KeyBefore(a, b) && KeyBefore(b, c)
    ensures KeyBefore(a, c)
  {
    BeforeTotal(a.0, b.0);
    BeforeTotal(b.0, c.0);
    if Before(a.0, b.0) && Before(b.0, c.0) {
      BeforeTransitive(a.0, b.0, c.0);
    }
    if Before(a.1, b.1) && Before(b.1, c.1) {
      BeforeTransitive(a.1, b.1, c.1);
    }
  }

  // ------------------------------------------------------------------- sorting

  /** Behind everything whose key is not greater. */
  function Insert<T>(sorted: seq<T>, x: T, key: T -> SortKey): seq<T> {
    if sorted == [] || !KeyBefore(key(x), key(sorted[|sorted| - 1])) then sorted + [x]
    else Insert(sorted[..|sorted| - 1], x, key) + [sorted[|sorted| - 1]]
  }

  function Sort<T>(s: seq<T>, key: T -> SortKey): seq<T> {
    if s == [] then [] else Insert(Sort(s[..|s| - 1], key), s[|s| - 1], key)
  }

  ghost predicate InOrder<T>(s: seq<T>, key: T -> SortKey) {
    forall i, j :: 0 <= i < j < |s| ==> !KeyBefore(key(s[j]), key(s[i]))
  }

  lemma {:induction false} InsertKeeps<T>(sorted: seq<T>, x: T, key: T -> SortKey)
    ensures multiset(Insert(sorted, x, key)) == multiset(sorted) + multiset{x}
  {
    if sorted != [] {
      InsertKeeps(sorted[..|sorted| - 1], x, key);
      assert sorted == sorted[..|sorted| - 1] + [sorted[|sorted| - 1]];
    }
  }

  lemma InsertHolds<T>(sorted: seq<T>, x: T, key: T -> SortKey, i: nat)
    requires i < |Insert(sorted, x, key)|
    ensures Insert(sorted, x, key)[i] == x || Insert(sorted, x, key)[i] in sorted
  {
    InsertKeeps(sorted, x, key);
    assert Insert(sorted, x, key)[i] in multiset(Insert(sorted, x, key));
  }

  lemma AppendInOrder<T>(s: seq<T>, x: T, key: T -> SortKey)
    requires InOrder(s, key) && forall i :: 0 <= i < |s| ==> !KeyBefore(key(x), key(s[i]))
    ensures InOrder(s + [x], key)
  {
  }

  lemma {:induction false} InsertInOrder<T>(sorted: seq<T>, x: T, key: T -> SortKey)
    requires InOrder(sorted, key)
    ensures InOrder(Insert(sorted, x, key), key)
  {
    if sorted != [] {
      var front, last := sorted[..|sorted| - 1], sorted[|sorted| - 1];
      KeyTotal(key(last), key(last));
      if !KeyBefore(key(x), key(last)) {
        forall i | 0 <= i < |sorted| ensures !KeyBefore(key(x), key(sorted[i])) {
          NotAfter(key(x), key(last), key(sorted[i]));
        }
        AppendInOrder(sorted, x, key);
      } else {
        InsertInOrder(front, x, key);
        var more := Insert(front, x, key);
        forall i | 0 <= i < |more| ensures !KeyBefore(key(last), key(more[i])) {
          InsertHolds(front, x, key, i);
          KeyTotal(key(x), key(last));
        }
        AppendInOrder(more, last, key);
      }
    }
  }

  lemma NotAfter(x: SortKey, last: SortKey, other: SortKey)
    requires !KeyBefore(x, last) && !KeyBefore(last, other)
    ensures !KeyBefore(x, other)
  {
    KeyTotal(x, last);
    KeyTotal(last, other);
    if KeyBefore(x, other) {
      if other != last {
        KeyTransitive(x, other, last);
      }
    }
  }

  lemma {:induction false} SortInOrder<T>(s: seq<T>, key: T -> SortKey)
    ensures InOrder(Sort(s, key), key) && multiset(Sort(s, key)) == multiset(s)
  {
    if s != [] {
      assert s == s[..|s| - 1] + [s[|s| - 1]];
      SortInOrder(s[..|s| - 1], key);
      InsertInOrder(Sort(s[..|s| - 1], key), s[|s| - 1], key);
      InsertKeeps(Sort(s[..|s| - 1], key), s[|s| - 1], key);
    }
  }

  /** The elements with one key, in their order. */
  function Only<T>(s: seq<T>, key: T -> SortKey, k: SortKey): seq<T> {
    if s == [] then []
    else Only(s[..|s| - 1], key, k) + (if key(s[|s| - 1]) == k then [s[|s| - 1]] else [])
  }

  lemma {:induction false} InsertOnly<T>(sorted: seq<T>, x: T, key: T -> SortKey, k: SortKey)
    ensures Only(Insert(sorted, x, key), key, k) == Only(sorted, key, k) + (if key(x) == k then [x] else [])
  {
    if sorted == [] || !KeyBefore(key(x), key(sorted[|sorted| - 1])) {
      assert (sorted + [x])[..|sorted|] == sorted;
    } else {
      var front, last := sorted[..|sorted| - 1], sorted[|sorted| - 1];
      InsertOnly(front, x, key, k);
      KeyTotal(key(x), key(last));
      var more := Insert(front, x, key);
      assert (more + [last])[..|more|] == more;
    }
  }

  /** The sort is stable: elements with one key keep their order. */
  lemma {:induction false} SortStable<T>(s: seq<T>, key: T -> SortKey, k: SortKey)
    ensures Only(Sort(s, key), key, k) == Only(s, key, k)
  {
    if s != [] {
      SortStable(s[..|s| - 1], key, k);
      InsertOnly(Sort(s[..|s| - 1], key), s[|s| - 1], key, k);
    }
  }

  lemma {:induction false} OnlyNone<T>(s: seq<T>, key: T -> SortKey, k: SortKey)
    ensures Only(s, key, k) == [] <==> forall i :: 0 <= i < |s| ==> key(s[i]) != k
  {
    if s != [] {
      var front := s[..|s| - 1];
      OnlyNone(front, key, k);
      if Only(front, key, k) != [] {
        var i :| 0 <= i < |front| && key(front[i]) == k;
        assert key(s[i]) == k;
      }
    }
  }

  lemma {:induction false} OnlySingle<T>(s: seq<T>, key: T -> SortKey, k: SortKey, i: nat)
    requires i < |s| && key(s[i]) == k && forall j :: 0 <= j < |s| && j != i ==> key(s[j]) != k
    ensures Only(s, key, k) == [s[i]]
  {
    var front := s[..|s| - 1];
    if i == |s| - 1 {
      OnlyNone(front, key, k);
    } else {
      OnlySingle(front, key, k, i);
    }
  }

  lemma {:induction false} OnlyFirst<T>(s: seq<T>, key: T -> SortKey)
    requires s != []
    ensures Only(s, key, key(s[0])) != [] && Only(s, key, key(s[0]))[0] == s[0]
  {
    if |s| > 1 {
      OnlyFirst(s[..|s| - 1], key);
    } else {
      assert s[..0] == [];
    }
  }

  /** The greatest key of an ordered list is that of its last element. */
  lemma LastIsGreatest<T>(a: seq<T>, b: seq<T>, key: T -> SortKey)
    requires a != [] && b != [] && InOrder(a, key) && forall k :: Only(a, key, k) == Only(b, key, k)
    ensures !KeyBefore(key(a[|a| - 1]), key(b[|b| - 1]))
  {
    var k := key(b[|b| - 1]);
    OnlyNone(b, key, k);
    assert Only(a, key, k) == Only(b, key, k);
    OnlyNone(a, key, k);
    var i :| 0 <= i < |a| && key(a[i]) == k;
    KeyTotal(k, k);
  }

  /** An ordered list is determined by its elements of each key. */
  lemma {:induction false} OrderedIsUnique<T>(a: seq<T>, b: seq<T>, key: T -> SortKey)
    requires InOrder(a, key) && InOrder(b, key) && forall k :: Only(a, key, k) == Only(b, key, k)
    ensures a == b
  {
    if a == [] || b == [] {
      if a != [] {
        OnlyFirst(a, key);
      } else if b != [] {
        OnlyFirst(b, key);
      }
    } else {
      var x, y := a[|a| - 1], b[|b| - 1];
      LastIsGreatest(a, b, key);
      LastIsGreatest(b, a, key);
      KeyTotal(key(x), key(y));
      assert Only(a, key, key(x)) == Only(b, key, key(x));
      var same := Only(a, key, key(x));
      assert same[|same| - 1] == x && same[|same| - 1] == y;
      var front, other := a[..|a| - 1], b[..|b| - 1];
      forall k ensures Only(front, key, k) == Only(other, key, k) {
        assert Only(a, key, k) == Only(b, key, k);
        var tail := if key(x) == k then [x] else [];
        assert Only(a, key, k) == Only(front, key, k) + tail && Only(b, key, k) == Only(other, key, k) + tail;
        assert Only(front, key, k) == Only(a, key, k)[..|Only(a, key, k)| - |tail|];
        assert Only(other, key, k) == Only(b, key, k)[..|Only(b, key, k)| - |tail|];
      }
      OrderedIsUnique(front, other, key);
      assert a == front + [x] && b == other + [y];
    }
  }
}
