/** A counter of exact masses, as the privacy assessment keeps them. */
module PacketLaw {
  import opened Common
  import opened Sums

  type Law<!K> = map<K, real>

  function At<K>(law: Law<K>, k: K): real {
    if k in law then law[k] else 0.0
  }

  function Entries<K>(law: Law<K>): K -> real {
    k => At(law, k)
  }

  predicate Positive<K>(law: Law<K>) {
    forall k :: k in law ==> law[k] > 0.0
  }

  ghost function Mass<K>(law: Law<K>): real {
    Sum(law.Keys, Entries(law))
  }

  /** `law[k] += x`. */
  function Add<K>(law: Law<K>, k: K, x: real): Law<K> {
    law[k := At(law, k) + x]
  }

  lemma AddMass<K>(law: Law<K>, k: K, x: real)
    ensures Mass(Add(law, k, x)) == Mass(law) + x
  {
    var more := Add(law, k, x);
    var rest := law.Keys - {k};
    SumEqual(rest, Entries(law), Entries(more));
    SumRemove(more.Keys, Entries(more), k);
    assert more.Keys - {k} == rest;
    if k in law {
      SumRemove(law.Keys, Entries(law), k);
    } else {
      assert law.Keys == rest;
    }
  }

  method Pick<K(==)>(keys: set<K>) returns (k: K)
    requires keys != {}
    ensures k in keys
  {
    k :| k in keys;
  }

  method Total<K(==)>(law: Law<K>) returns (t: real)
    ensures t == Mass(law)
  {
    t := 0.0;
    var left := law.Keys;
    while left != {}
      invariant left <= law.Keys && Mass(law) == t + Sum(left, Entries(law))
      decreases |left|
    {
      var k :| k in left;
      SumRemove(left, Entries(law), k);
      t := t + law[k];
      left := left - {k};
    }
  }

  // -------------------------------------------------------------- sorting by tag

  ghost function Tagged<K, L>(s: set<K>, tag: K -> Option<L>, l: L): set<K> {
    set k | k in s && tag(k) == Some(l)
  }

  /** A tag has an entry exactly if some element carries it: the sum over all that do. */
  ghost predicate Sorted<K, L(!new)>(sorted: Law<L>, s: set<K>, tag: K -> Option<L>, f: K -> real) {
    && (forall l :: l in sorted <==> Tagged(s, tag, l) != {})
    && (forall l :: l in sorted ==> sorted[l] == Sum(Tagged(s, tag, l), f))
  }

  lemma SortedGrows<K, L(!new)>(sorted: Law<L>, s: set<K>, tag: K -> Option<L>, f: K -> real, k: K)
    requires Sorted(sorted, s, tag, f) && k !in s && tag(k).Some?
    ensures Sorted(Add(sorted, tag(k).value, f(k)), s + {k}, tag, f)
  {
    var more := Add(sorted, tag(k).value, f(k));
    forall l ensures l in more <==> Tagged(s + {k}, tag, l) != {}
      ensures l in more ==> more[l] == Sum(Tagged(s + {k}, tag, l), f)
    {
      var before := Tagged(s, tag, l);
      if l == tag(k).value {
        assert Tagged(s + {k}, tag, l) == before + {k};
        SumAdd(before, f, k);
      } else {
        assert Tagged(s + {k}, tag, l) == before;
      }
    }
  }

  /** Elements are only sorted: nothing is lost or made. */
  lemma {:induction false} TagsHoldSum<K, L(!new)>(
      s: set<K>, tag: K -> Option<L>, f: K -> real, tags: set<L>, g: L -> real)
    requires forall l :: l in tags ==> g(l) == Sum(Tagged(s, tag, l), f)
    requires forall k :: k in s ==> tag(k).Some? && tag(k).value in tags
    ensures Sum(tags, g) == Sum(s, f)
    decreases tags
  {
    if tags == {} {
      assert s == {};
    } else {
      var l :| l in tags;
      var part := Tagged(s, tag, l);
      SumRemove(tags, g, l);
      SumSplit(s, part, f);
      forall m | m in tags - {l} ensures g(m) == Sum(Tagged(s - part, tag, m), f) {
        assert Tagged(s - part, tag, m) == Tagged(s, tag, m);
      }
      TagsHoldSum(s - part, tag, f, tags - {l}, g);
    }
  }

  lemma SortedMass<K, L(!new)>(sorted: Law<L>, s: set<K>, tag: K -> Option<L>, f: K -> real)
    requires Sorted(sorted, s, tag, f) && forall k :: k in s ==> tag(k).Some?
    ensures Mass(sorted) == Sum(s, f)
  {
    forall k | k in s ensures tag(k).value in sorted.Keys {
      assert k in Tagged(s, tag, tag(k).value);
    }
    TagsHoldSum(s, tag, f, sorted.Keys, Entries(sorted));
  }

  lemma SortedPositive<K, L(!new)>(sorted: Law<L>, s: set<K>, tag: K -> Option<L>, f: K -> real)
    requires Sorted(sorted, s, tag, f) && forall k :: k in s ==> f(k) > 0.0
    ensures Positive(sorted)
  {
    forall l | l in sorted ensures sorted[l] > 0.0 {
      SumPositive(Tagged(s, tag, l), f);
    }
  }
}
