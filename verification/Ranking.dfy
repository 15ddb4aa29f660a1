/** Two implementations of the deduplicated, discounted gain of a ranking, against one
    specification; any positive, strictly decreasing discount will do. */
module Ranking {
  import opened Common

  type Discount = nat -> real

  ghost predicate Decreasing(w: Discount) {
    && (forall i :: w(i) > 0.0)
    && (forall i, j :: i < j ==> w(j) < w(i))
  }

  // ---------------------------------------------------------------- specification

  function Elements<Id>(s: seq<Id>): set<Id> {
    set x | x in s
  }

  /** A rank gains if it holds a relevant id for the first time. */
  predicate Gains<Id(==)>(ids: seq<Id>, relevant: set<Id>, i: nat)
    requires i < |ids|
  {
    ids[i] in relevant && ids[i] !in ids[..i]
  }

  function GainsOf<Id(==)>(ids: seq<Id>, relevant: set<Id>): (g: seq<bool>)
    ensures |g| == |ids|
    ensures forall i :: 0 <= i < |ids| ==> g[i] == Gains(ids, relevant, i)
  {
    seq(|ids|, i requires 0 <= i < |ids| => Gains(ids, relevant, i))
  }

  function Score(g: seq<bool>, w: Discount): real {
    if g == [] then 0.0
    else Score(g[..|g| - 1], w) + (if g[|g| - 1] then w(|g| - 1) else 0.0)
  }

  function Ideal(m: nat, w: Discount): real {
    if m == 0 then 0.0 else Ideal(m - 1, w) + w(m - 1)
  }

  function Count(g: seq<bool>): (c: nat)
    ensures c <= |g|
  {
    if g == [] then 0 else Count(g[..|g| - 1]) + (if g[|g| - 1] then 1 else 0)
  }

  predicate AllGain(g: seq<bool>, m: nat) {
    m <= |g| && forall i :: 0 <= i < m ==> g[i]
  }

  // ---------------------------------------------------------- the exchange argument

  ghost predicate FrontBounds(g: seq<bool>, w: Discount) {
    && 0.0 <= Score(g, w) <= Ideal(Count(g), w)
    && (Score(g, w) == Ideal(Count(g), w) <==> AllGain(g, Count(g)))
  }

  /** Moving every gain to the front can only raise the score, and raises it unless they
      are there already. */
  lemma {:induction false} FrontIsBest(g: seq<bool>, w: Discount)
    requires Decreasing(w)
    ensures FrontBounds(g, w)
  {
    if g != [] {
      var last := |g| - 1;
      FrontIsBest(g[..last], w);
      if g[last] {
        LastGains(g[..last], w);
        assert g == g[..last] + [true];
      } else {
        LastMisses(g[..last], w);
        assert g == g[..last] + [false];
      }
    }
  }

  lemma LastMisses(g: seq<bool>, w: Discount)
    requires FrontBounds(g, w)
    ensures FrontBounds(g + [false], w)
  {
    assert (g + [false])[..|g|] == g;
    assert AllGain(g + [false], Count(g)) <==> AllGain(g, Count(g));
  }

  /** A gain at the end is worth at most what it would be worth after the others, and less
      unless all ranks gain. */
  lemma LastGains(g: seq<bool>, w: Discount)
    requires Decreasing(w) && FrontBounds(g, w)
    ensures FrontBounds(g + [true], w)
  {
    var more, c := g + [true], Count(g);
    assert more[..|g|] == g;
    assert w(|g|) <= w(c) && (w(|g|) == w(c) <==> |g| == c);
    if AllGain(more, c + 1) {
      assert AllGain(g, c) by {
        assert forall i :: 0 <= i < c ==> more[i] == g[i];
      }
      if c < |g| {
        assert more[c] == g[c];
        CountFront(g, c);
      }
    } else if c == |g| && AllGain(g, c) {
      assert AllGain(more, c + 1);
    }
  }

  /** If the first `c` ranks gain and no more do, then a `c`-th that gains is the last. */
  lemma {:induction false} CountFront(g: seq<bool>, c: nat)
    requires c <= |g| && AllGain(g, c)
    ensures Count(g) >= c
    ensures Count(g) == c ==> forall i :: c <= i < |g| ==> !g[i]
  {
    if |g| > c {
      CountFront(g[..|g| - 1], c);
    } else if c > 0 {
      CountFront(g[..|g| - 1], c - 1);
    }
  }

  lemma {:induction false} IdealGrows(c: nat, m: nat, w: Discount)
    requires Decreasing(w) && c <= m
    ensures Ideal(c, w) <= Ideal(m, w)
    ensures Ideal(c, w) == Ideal(m, w) <==> c == m
  {
    if c < m {
      IdealGrows(c, m - 1, w);
    }
  }

  /** As many ranks gain as there are distinct relevant ids among them. */
  lemma {:induction false} CountIsFound<Id>(ids: seq<Id>, relevant: set<Id>)
    ensures Count(GainsOf(ids, relevant)) == |Elements(ids) * relevant|
  {
    if ids == [] {
      assert Elements(ids) * relevant == {};
    } else {
      var shorter, x := ids[..|ids| - 1], ids[|ids| - 1];
      CountIsFound(shorter, relevant);
      assert GainsOf(ids, relevant)[..|ids| - 1] == GainsOf(shorter, relevant) by {
        forall i | 0 <= i < |shorter| ensures Gains(ids, relevant, i) == Gains(shorter, relevant, i) {
          assert ids[..i] == shorter[..i];
        }
      }
      assert ids == shorter + [x];
      if Gains(ids, relevant, |ids| - 1) {
        assert Elements(ids) * relevant == Elements(shorter) * relevant + {x};
      } else {
        assert Elements(ids) * relevant == Elements(shorter) * relevant;
      }
    }
  }

  lemma FoundBound<Id>(ids: seq<Id>, relevant: set<Id>, k: nat)
    requires |ids| <= k
    ensures |Elements(ids) * relevant| <= Best(relevant, k)
  {
    CountIsFound(ids, relevant);
    SubsetSmaller(Elements(ids) * relevant, relevant);
  }

  lemma {:induction false} SubsetSmaller<Id>(a: set<Id>, b: set<Id>)
    requires a <= b
    ensures |a| <= |b|
    ensures |a| == |b| ==> a == b
  {
    if a != {} {
      var x :| x in a;
      SubsetSmaller(a - {x}, b - {x});
    }
  }

  /** How many ranks can gain at all. */
  function Best<Id>(relevant: set<Id>, k: nat): nat {
    if k <= |relevant| then k else |relevant|
  }

  /** The score never exceeds the ideal, and reaches it exactly if the first ranks are
      distinct relevant ids, as many as can be. */
  lemma ScoreBound<Id>(ids: seq<Id>, relevant: set<Id>, k: nat, w: Discount)
    requires Decreasing(w) && |ids| <= k
    ensures 0.0 <= Score(GainsOf(ids, relevant), w) <= Ideal(Best(relevant, k), w)
    ensures Score(GainsOf(ids, relevant), w) == Ideal(Best(relevant, k), w)
       <==> |ids| >= Best(relevant, k) && DistinctRelevant(ids[..Best(relevant, k)], relevant)
  {
    var g, m := GainsOf(ids, relevant), Best(relevant, k);
    var c := Count(g);
    FrontIsBest(g, w);
    CountIsFound(ids, relevant);
    FoundBound(ids, relevant, k);
    IdealGrows(c, m, w);
    if AllGain(g, m) {
      CountFront(g, m);
    }
    if m <= |ids| {
      FrontIsDistinct(ids, relevant, m);
    }
  }

  predicate DistinctRelevant<Id(==)>(ids: seq<Id>, relevant: set<Id>) {
    && (forall i :: 0 <= i < |ids| ==> ids[i] in relevant)
    && (forall i, j :: 0 <= i < j < |ids| ==> ids[i] != ids[j])
  }

  lemma FrontIsDistinct<Id>(ids: seq<Id>, relevant: set<Id>, m: nat)
    requires m <= |ids|
    ensures AllGain(GainsOf(ids, relevant), m) <==> DistinctRelevant(ids[..m], relevant)
  {
    var g := GainsOf(ids, relevant);
    if AllGain(g, m) {
      forall i, j | 0 <= i < j < m ensures ids[i] != ids[j] {
        assert g[j] && ids[i] in ids[..j];
      }
      forall i | 0 <= i < m ensures ids[i] in relevant {
        assert g[i];
      }
    }
    if DistinctRelevant(ids[..m], relevant) {
      forall i | 0 <= i < m ensures g[i] {
        assert ids[..m][i] == ids[i];
        assert forall j :: 0 <= j < i ==> ids[..m][j] == ids[j];
      }
    }
  }

  // ----------------------------------------------------- the long-memory benchmark

  method Dcg(relevances: seq<bool>, k: int, w: Discount) returns (score: real)
    ensures score == Score(Slice(relevances, k), w)
  {
    score := 0.0;
    var some := Slice(relevances, k);
    var i := 0;
    while i < |some|
      invariant i <= |some| && score == Score(some[..i], w)
    {
      assert some[..i + 1][..i] == some[..i];
      score := score + (if some[i] then w(i) else 0.0);
      i := i + 1;
    }
    assert some[..i] == some;
  }

  /** A slice up to `k`, which counts from the end if it is negative. */
  function Slice<T>(s: seq<T>, k: int): (front: seq<T>)
    ensures front <= s
    ensures k >= 0 ==> |front| == if k <= |s| then k else |s|
    ensures k < 0 ==> |front| == if -k <= |s| then |s| + k else 0
  {
    if k >= |s| then s
    else if k >= 0 then s[..k]
    else if |s| + k >= 0 then s[..|s| + k]
    else []
  }

  /** A list element, from the end for a negative index. */
  function Lookup<Id>(corpus: seq<Id>, index: int): (id: Option<Id>)
    ensures id.None? <==> index < -|corpus| || index >= |corpus|
    ensures id.Some? ==> exists i :: 0 <= i < |corpus| && id == Some(corpus[i]) && (index == i || index == i - |corpus|)
  {
    if 0 <= index < |corpus| then Some(corpus[index])
    else if -|corpus| <= index < 0 then Some(corpus[|corpus| + index])
    else None
  }

  /** The ids at the given ranks. */
  ghost predicate Names<Id>(ids: seq<Id>, corpus: seq<Id>, ranks: seq<int>) {
    |ids| == |ranks| && forall i :: 0 <= i < |ids| ==> Lookup(corpus, ranks[i]) == Some(ids[i])
  }

  method RelevancesOf<Id(==)>(ranks: seq<int>, correct: seq<Id>, corpus: seq<Id>)
    returns (relevances: Result<seq<bool>>, ghost ids: seq<Id>)
    ensures relevances.Refused? <==> exists i :: 0 <= i < |ranks| && Lookup(corpus, ranks[i]).None?
    ensures relevances.Ok? ==> Names(ids, corpus, ranks) && relevances.value == GainsOf(ids, Elements(correct))
  {
    var seen: set<Id> := {};
    var found: seq<bool> := [];
    ids := [];
    var i := 0;
    while i < |ranks|
      invariant i <= |ranks| && Names(ids, corpus, ranks[..i])
      invariant seen == Elements(ids) && found == GainsOf(ids, Elements(correct))
    {
      var identifier := Lookup(corpus, ranks[i]);
      if identifier.None? {
        return Refused, ids;
      }
      GainsExtend(ids, Elements(correct), identifier.value);
      found := found + [identifier.value in correct && identifier.value !in seen];
      seen := seen + {identifier.value};
      ids := ids + [identifier.value];
      i := i + 1;
    }
    assert ranks[..i] == ranks;
    relevances := Ok(found);
  }

  lemma GainsExtend<Id>(ids: seq<Id>, relevant: set<Id>, x: Id)
    ensures GainsOf(ids + [x], relevant) == GainsOf(ids, relevant) + [x in relevant && x !in ids]
    ensures Elements(ids + [x]) == Elements(ids) + {x}
  {
    var more := ids + [x];
    assert more[..|ids|] == ids;
    forall i | 0 <= i < |ids| ensures Gains(more, relevant, i) == Gains(ids, relevant, i) {
      assert more[..i] == ids[..i];
    }
  }

  /** What either implementation means by the normalized gain of the first `k` ids. */
  function Normalized<Id(==)>(ids: seq<Id>, relevant: set<Id>, k: nat, w: Discount): real
    requires Ideal(Best(relevant, k), w) != 0.0
  {
    Score(GainsOf(ids, relevant), w) / Ideal(Best(relevant, k), w)
  }

  lemma IdealPositive(m: nat, w: Discount)
    requires Decreasing(w)
    ensures Ideal(m, w) >= 0.0 && (Ideal(m, w) == 0.0 <==> m == 0)
  {
    IdealGrows(0, m, w);
  }

  lemma {:induction false} AllTrueIsIdeal(g: seq<bool>, w: Discount)
    requires forall i :: 0 <= i < |g| ==> g[i]
    ensures Score(g, w) == Ideal(|g|, w)
  {
    if g != [] {
      AllTrueIsIdeal(g[..|g| - 1], w);
    }
  }

  method Ndcg<Id(==)>(rankings: seq<int>, correct: seq<Id>, corpus: seq<Id>, k: int, w: Discount)
    returns (value: Result<real>, ghost ids: seq<Id>)
    requires Decreasing(w)
    ensures value.Refused? <==> k > 0 && exists i :: 0 <= i < |Slice(rankings, k)| && Lookup(corpus, Slice(rankings, k)[i]).None?
    ensures value.Ok? && k > 0 ==> Names(ids, corpus, Slice(rankings, k))
    ensures value.Ok? && (k <= 0 || correct == []) ==> value.value == 0.0
    ensures value.Ok? && k > 0 && correct != [] ==>
              && Ideal(Best(Elements(correct), k), w) != 0.0
              && value.value == Normalized(ids, Elements(correct), k, w)
  {
    ids := [];
    if k <= 0 {
      return Ok(0.0), ids;
    }
    var relevances;
    relevances, ids := RelevancesOf(Slice(rankings, k), correct, corpus);
    if relevances.Refused? {
      return Refused, ids;
    }
    var relevant := Elements(correct);
    var ideal := seq(Best(relevant, k), _ => true);
    AllTrueIsIdeal(ideal, w);
    IdealPositive(Best(relevant, k), w);
    if correct == [] {
      assert relevant == {};
    } else {
      assert correct[0] in relevant;
    }
    var idcg := Dcg(ideal, k, w);
    if idcg == 0.0 {
      return Ok(0.0), ids;
    }
    var dcg := Dcg(relevances.value, k, w);
    value := Ok(dcg / idcg);
  }

  // --------------------------------------------------------- the service benchmark

  datatype Metrics = Metrics(recall: Option<real>, ndcg: Option<real>, mrr: Option<real>, complete: Option<bool>)

  /** The first rank with a relevant id, if there is one. */
  ghost predicate FirstRelevant<Id>(ids: seq<Id>, relevant: set<Id>, i: nat) {
    i < |ids| && ids[i] in relevant && forall j :: 0 <= j < i ==> ids[j] !in relevant
  }

  ghost predicate IsReciprocal<Id>(r: real, ids: seq<Id>, relevant: set<Id>) {
    if r == 0.0 then forall i :: 0 <= i < |ids| ==> ids[i] !in relevant
    else exists i :: FirstRelevant(ids, relevant, i) && r == 1.0 / (i + 1) as real
  }

  lemma ReciprocalExtends<Id>(r: real, ids: seq<Id>, relevant: set<Id>, x: Id)
    requires IsReciprocal(r, ids, relevant)
    ensures r != 0.0 || x !in relevant ==> IsReciprocal(r, ids + [x], relevant)
    ensures r == 0.0 && x in relevant ==> x !in ids && IsReciprocal(1.0 / (|ids| + 1) as real, ids + [x], relevant)
  {
    var more := ids + [x];
    if r != 0.0 {
      var i :| FirstRelevant(ids, relevant, i) && r == 1.0 / (i + 1) as real;
      assert FirstRelevant(more, relevant, i);
    } else if x in relevant {
      assert FirstRelevant(more, relevant, |ids|);
      assert 1.0 / (|ids| + 1) as real != 0.0;
    }
  }

  /** What the scan knows after some ranks. */
  ghost predicate Scanned<Id>(ids: seq<Id>, relevant: set<Id>, w: Discount, seen: set<Id>, dcg: real, reciprocal: real) {
    && seen == Elements(ids)
    && dcg == Score(GainsOf(ids, relevant), w)
    && IsReciprocal(reciprocal, ids, relevant)
  }

  lemma ScannedNext<Id>(
      ids: seq<Id>, relevant: set<Id>, w: Discount, seen: set<Id>, dcg: real, reciprocal: real, x: Id)
    requires Scanned(ids, relevant, w, seen, dcg, reciprocal)
    ensures x in relevant && x !in seen ==>
              Scanned(ids + [x], relevant, w, seen + {x}, dcg + w(|ids|),
                      if reciprocal == 0.0 then 1.0 / (|ids| + 1) as real else reciprocal)
    ensures !(x in relevant && x !in seen) ==> Scanned(ids + [x], relevant, w, seen + {x}, dcg, reciprocal)
  {
    GainsExtend(ids, relevant, x);
    ReciprocalExtends(reciprocal, ids, relevant, x);
    var gains := GainsOf(ids + [x], relevant);
    assert gains[..|ids|] == GainsOf(ids, relevant);
  }

  method ScanRanks<Id(==)>(ids: seq<Id>, relevant: set<Id>, w: Discount)
    returns (seen: set<Id>, dcg: real, reciprocal: real)
    ensures Scanned(ids, relevant, w, seen, dcg, reciprocal)
  {
    seen, dcg, reciprocal := {}, 0.0, 0.0;
    var i := 0;
    while i < |ids|
      invariant i <= |ids| && Scanned(ids[..i], relevant, w, seen, dcg, reciprocal)
    {
      var session := ids[i];
      ScannedNext(ids[..i], relevant, w, seen, dcg, reciprocal, session);
      assert ids[..i + 1] == ids[..i] + [session];
      if session in relevant && session !in seen {
        dcg := dcg + w(i);
        if reciprocal == 0.0 {
          reciprocal := 1.0 / (i + 1) as real;
        }
      }
      seen := seen + {session};
      i := i + 1;
    }
    assert ids[..i] == ids;
  }

  method RetrievalMetrics<Id(==)>(ranked: seq<Id>, relevant: set<Id>, cutoff: int, w: Discount)
    returns (m: Result<Metrics>)
    requires Decreasing(w)
    ensures relevant == {} ==> m == Ok(Metrics(None, None, None, None))
    ensures m.Refused? <==> relevant != {} && cutoff <= 0
    ensures m.Ok? && relevant != {} ==>
              var ids := Slice(ranked, cutoff);
              && m.value.recall == Some(|Elements(ids) * relevant| as real / |relevant| as real)
              && Ideal(Best(relevant, cutoff), w) != 0.0
              && m.value.ndcg == Some(Normalized(ids, relevant, cutoff, w))
              && m.value.mrr.Some? && IsReciprocal(m.value.mrr.value, ids, relevant)
              && m.value.complete == Some(relevant <= Elements(ids))
  {
    if relevant == {} {
      return Ok(Metrics(None, None, None, None));
    }
    var ids := Slice(ranked, cutoff);
    var seen, dcg, reciprocal := ScanRanks(ids, relevant, w);
    var ideal := IdealSum(cutoff, |relevant|, w);
    if ideal == 0.0 {
      if cutoff > 0 {
        IdealPositive(Best(relevant, cutoff), w);
      }
      return Refused;
    }
    var found := seen * relevant;
    m := Ok(Metrics(Some(|found| as real / |relevant| as real), Some(dcg / ideal), Some(reciprocal), Some(found == relevant)));
  }

  method IdealSum(cutoff: int, size: nat, w: Discount) returns (ideal: real)
    ensures ideal == Ideal(if cutoff <= 0 then 0 else if cutoff <= size then cutoff else size, w)
  {
    ideal := 0.0;
    var position := 1;
    while position <= cutoff && position <= size
      invariant 1 <= position
      invariant cutoff > 0 ==> position <= cutoff + 1 && position <= size + 1
      invariant cutoff <= 0 ==> position == 1
      invariant ideal == Ideal(position - 1, w)
    {
      ideal := ideal + w(position - 1);
      position := position + 1;
    }
  }

  // ------------------------------------------------------------------- the results

  /** The normalized gain is a number between 0 and 1, and 1 exactly for a ranking that
      puts distinct relevant ids first, as many as can be. */
  lemma NormalizedBound<Id>(ids: seq<Id>, relevant: set<Id>, k: nat, w: Discount)
    requires Decreasing(w) && |ids| <= k && k >= 1 && relevant != {}
    ensures Ideal(Best(relevant, k), w) != 0.0
    ensures 0.0 <= Normalized(ids, relevant, k, w) <= 1.0
    ensures Normalized(ids, relevant, k, w) == 1.0
       <==> |ids| >= Best(relevant, k) && DistinctRelevant(ids[..Best(relevant, k)], relevant)
  {
    IdealPositive(Best(relevant, k), w);
    ScoreBound(ids, relevant, k, w);
    QuotientBound(Score(GainsOf(ids, relevant), w), Ideal(Best(relevant, k), w));
  }

  lemma QuotientBound(x: real, y: real)
    requires 0.0 <= x <= y && y > 0.0
    ensures 0.0 <= x / y <= 1.0 && (x / y == 1.0 <==> x == y)
  {
    var q := x / y;
    assert q * y == x;
    assert (1.0 - q) * y == y - x;
  }

  /** Everything relevant was recalled exactly if nothing relevant is missing. */
  lemma RecallIsComplete<Id>(ids: seq<Id>, relevant: set<Id>)
    requires relevant != {}
    ensures 0.0 <= |Elements(ids) * relevant| as real / |relevant| as real <= 1.0
    ensures |Elements(ids) * relevant| as real / |relevant| as real == 1.0 <==> relevant <= Elements(ids)
  {
    var found := Elements(ids) * relevant;
    SubsetSmaller(found, relevant);
    QuotientBound(|found| as real, |relevant| as real);
    if relevant <= Elements(ids) {
      assert found == relevant;
    }
  }

  /** Both implementations on one ranking: they return the same number exactly when the
      cutoff is positive and something is relevant. */
  method CompareImplementations<Id(==)>(rankings: seq<int>, correct: seq<Id>, corpus: seq<Id>, k: int, w: Discount, ranked: seq<Id>)
    returns (one: Result<real>, other: Result<Metrics>)
    requires Decreasing(w) && Names(ranked, corpus, rankings)
    ensures one.Ok?
    ensures other.Ok? && other.value.ndcg == Some(one.value) <==> k >= 1 && correct != []
  {
    ghost var ids;
    one, ids := Ndcg(rankings, correct, corpus, k, w);
    other := RetrievalMetrics(ranked, Elements(correct), k, w);
    if k > 0 {
      NamesAreUnique(ids, Slice(ranked, k), corpus, Slice(rankings, k));
    }
    if correct != [] {
      assert correct[0] in Elements(correct);
    }
  }

  /** Two inputs on which they differ, one for each way to differ: with a cutoff of 0 one
      returns 0 where the other divides by 0, and with nothing relevant one returns 0
      where the other has no score. */
  method Disagreements<Id(==)>(x: Id, w: Discount)
    returns (zero: Result<real>, divided: Result<Metrics>, none: Result<real>, missing: Result<Metrics>)
    requires Decreasing(w)
    ensures zero == Ok(0.0) && divided.Refused?
    ensures none == Ok(0.0) && missing.Ok? && missing.value.ndcg.None?
  {
    ghost var ids;
    zero, ids := Ndcg([0], [x], [x], 0, w);
    divided := RetrievalMetrics([x], {x}, 0, w);
    none, ids := Ndcg([0], [], [x], 1, w);
    missing := RetrievalMetrics([x], {}, 1, w);
    assert Slice([0], 1) == [0] && Lookup([x], 0) == Some(x);
  }

  lemma NamesAreUnique<Id>(a: seq<Id>, b: seq<Id>, corpus: seq<Id>, ranks: seq<int>)
    requires Names(a, corpus, ranks) && Names(b, corpus, ranks)
    ensures a == b
  {
    forall i | 0 <= i < |a| ensures a[i] == b[i] {
      assert Lookup(corpus, ranks[i]) == Some(a[i]) == Some(b[i]);
    }
  }
}
