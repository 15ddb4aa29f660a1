/** Repeated convolution of a law on the exponents -1, 0 and 1. */
module Convolution {
  import opened Sums
  import opened PacketLaw
  import opened Products

  predicate ThreePoint(step: Law<int>) {
    forall e :: e in step ==> -1 <= e <= 1
  }

  /** The chance of being somewhere and then taking one step. */
  ghost function Way(chance: real, step: Law<int>, d: int): real {
    Times(chance, At(step, d))
  }

  /** A law cut down to part of its keys. */
  function Cut(law: Law<int>, part: set<int>, e: int): real {
    if e in part then At(law, e) else 0.0
  }

  ghost function Spread(p: Law<int>, part: set<int>, step: Law<int>, e: int): real {
    Way(Cut(p, part, e + 1), step, -1) + Way(Cut(p, part, e), step, 0) + Way(Cut(p, part, e - 1), step, 1)
  }

  predicate Reached(part: set<int>, step: Law<int>, e: int) {
    (e + 1 in part && -1 in step) || (e in part && 0 in step) || (e - 1 in part && 1 in step)
  }

  /** An exponent is a key exactly if a key and a step lead to it, and has the chances of
      all three ways there. */
  ghost predicate ConvolvedAt(next: Law<int>, p: Law<int>, part: set<int>, step: Law<int>, e: int) {
    && (e in next <==> Reached(part, step, e))
    && At(next, e) == Spread(p, part, step, e)
  }

  ghost predicate Convolved(next: Law<int>, p: Law<int>, part: set<int>, step: Law<int>) {
    forall e :: ConvolvedAt(next, p, part, step, e)
  }

  /** The masses that the steps from one exponent add. */
  ghost function Added(p: real, step: Law<int>): int -> real {
    e => Way(p, step, e)
  }

  /** `next` after the steps in `done` were added to one exponent. */
  ghost predicate ShiftedAt(next: Law<int>, start: Law<int>, before: int, p: real, step: Law<int>, done: set<int>, e: int) {
    && (e in next <==> e in start || e - before in done)
    && At(next, e) == At(start, e) + (if e - before in done then Added(p, step)(e - before) else 0.0)
  }

  ghost predicate Shifted(next: Law<int>, start: Law<int>, before: int, p: real, step: Law<int>, done: set<int>) {
    forall e :: ShiftedAt(next, start, before, p, step, done, e)
  }

  lemma ShiftedGrows(
      next: Law<int>, start: Law<int>, before: int, p: real, step: Law<int>, done: set<int>, added: int, share: real)
    requires Shifted(next, start, before, p, step, done) && added in step && added !in done
    requires share == Added(p, step)(added)
    ensures Shifted(Add(next, before + added, share), start, before, p, step, done + {added})
  {
    var more := Add(next, before + added, share);
    forall e ensures ShiftedAt(more, start, before, p, step, done + {added}, e) {
      assert ShiftedAt(next, start, before, p, step, done, e);
    }
  }

  lemma NothingConvolved(p: Law<int>, step: Law<int>)
    ensures Convolved(map[], p, {}, step)
  {
    TimesZero(At(step, -1));
    TimesZero(At(step, 0));
    TimesZero(At(step, 1));
    forall e ensures ConvolvedAt(map[], p, {}, step, e) {
    }
  }

  lemma ConvolvedGrows(
      next: Law<int>, start: Law<int>, p: Law<int>, part: set<int>, step: Law<int>, before: int)
    requires ThreePoint(step) && before in p && before !in part
    requires Convolved(start, p, part, step) && Shifted(next, start, before, p[before], step, step.Keys)
    ensures Convolved(next, p, part + {before}, step)
  {
    TimesZero(At(step, -1));
    TimesZero(At(step, 0));
    TimesZero(At(step, 1));
    TimesZero(p[before]);
    forall e ensures ConvolvedAt(next, p, part + {before}, step, e) {
      assert ConvolvedAt(start, p, part, step, e);
      assert ShiftedAt(next, start, before, p[before], step, step.Keys, e);
      var d := e - before;
      assert Cut(p, part + {before}, e - d) == p[before] && Cut(p, part, e - d) == 0.0;
    }
  }

  lemma MassGrows(next: Law<int>, start: real, k: int, share: real, done: set<int>, f: int -> real, added: int)
    requires Mass(next) == start + Sum(done, f) && added !in done && share == f(added)
    ensures Mass(Add(next, k, share)) == start + Sum(done + {added}, f)
  {
    AddMass(next, k, share);
    SumAdd(done, f, added);
  }

  /** All steps but those in `todo` were added to one exponent. */
  ghost predicate AddedBut(next: Law<int>, start: Law<int>, before: int, p: real, step: Law<int>, todo: set<int>) {
    && Shifted(next, start, before, p, step, step.Keys - todo)
    && Mass(next) == Mass(start) + Sum(step.Keys - todo, Added(p, step))
  }

  lemma AddedOne(
      next: Law<int>, start: Law<int>, before: int, p: real, step: Law<int>, todo: set<int>, added: int, share: real)
    requires AddedBut(next, start, before, p, step, todo) && added in todo && todo <= step.Keys
    requires share == Times(p, step[added])
    ensures AddedBut(Add(next, before + added, share), start, before, p, step, todo - {added})
  {
    var done := step.Keys - todo;
    ShiftedGrows(next, start, before, p, step, done, added, share);
    MassGrows(next, Mass(start), before + added, share, done, Added(p, step), added);
    assert step.Keys - (todo - {added}) == done + {added};
  }

  lemma AddedAll(next: Law<int>, start: Law<int>, before: int, p: real, step: Law<int>)
    requires AddedBut(next, start, before, p, step, {})
    ensures Shifted(next, start, before, p, step, step.Keys)
    ensures Mass(next) == Mass(start) + Times(p, Mass(step))
  {
    assert step.Keys - {} == step.Keys;
    AllAdded(p, step);
  }

  lemma AddedNone(start: Law<int>, before: int, p: real, step: Law<int>)
    ensures AddedBut(start, start, before, p, step, step.Keys)
  {
    assert step.Keys - step.Keys == {};
  }

  method AddSteps(start: Law<int>, before: int, p: real, step: Law<int>) returns (next: Law<int>)
    ensures Shifted(next, start, before, p, step, step.Keys)
    ensures Mass(next) == Mass(start) + Times(p, Mass(step))
  {
    next := start;
    var todo := step.Keys;
    AddedNone(start, before, p, step);
    while todo != {}
      invariant todo <= step.Keys && AddedBut(next, start, before, p, step, todo)
      decreases |todo|
    {
      var added := Pick(todo);
      var share := Multiply(p, step[added]);
      AddedOne(next, start, before, p, step, todo, added, share);
      next := Add(next, before + added, share);
      todo := todo - {added};
    }
    AddedAll(next, start, before, p, step);
  }

  lemma AllAdded(p: real, step: Law<int>)
    ensures Sum(step.Keys, Added(p, step)) == Times(p, Mass(step))
  {
    SumScaled(step.Keys, Entries(step), Added(p, step), p);
  }

  ghost function Passed(p: Law<int>, mass: real): int -> real {
    e => Times(mass, At(p, e))
  }

  lemma AllPassed(p: Law<int>, mass: real)
    ensures Sum(p.Keys, Passed(p, mass)) == mass * Mass(p)
  {
    SumScaled(p.Keys, Entries(p), Passed(p, mass), mass);
    TimesIs(mass, Mass(p));
  }

  /** All exponents but those in `todo` were passed on. */
  ghost predicate PassedBut(next: Law<int>, p: Law<int>, step: Law<int>, todo: set<int>) {
    && Convolved(next, p, p.Keys - todo, step)
    && Mass(next) == Sum(p.Keys - todo, Passed(p, Mass(step)))
  }

  lemma PassedOne(next: Law<int>, more: Law<int>, p: Law<int>, step: Law<int>, todo: set<int>, before: int)
    requires ThreePoint(step) && PassedBut(next, p, step, todo) && before in todo && todo <= p.Keys
    requires Shifted(more, next, before, p[before], step, step.Keys)
    requires Mass(more) == Mass(next) + Times(p[before], Mass(step))
    ensures PassedBut(more, p, step, todo - {before})
  {
    var done := p.Keys - todo;
    ConvolvedGrows(more, next, p, done, step, before);
    SumAdd(done, Passed(p, Mass(step)), before);
    TimesCommutes(p[before], Mass(step));
    assert p.Keys - (todo - {before}) == done + {before};
  }

  lemma PassedNone(p: Law<int>, step: Law<int>)
    ensures PassedBut(map[], p, step, p.Keys)
  {
    NothingConvolved(p, step);
    assert p.Keys - p.Keys == {};
  }

  lemma PassedAll(next: Law<int>, p: Law<int>, step: Law<int>)
    requires PassedBut(next, p, step, {})
    ensures Convolved(next, p, p.Keys, step)
    ensures Mass(next) == Mass(p) * Mass(step)
  {
    assert p.Keys - {} == p.Keys;
    AllPassed(p, Mass(step));
  }

  method Convolve(p: Law<int>, step: Law<int>) returns (next: Law<int>)
    requires ThreePoint(step)
    ensures Convolved(next, p, p.Keys, step)
    ensures Mass(next) == Mass(p) * Mass(step)
  {
    next := map[];
    var todo := p.Keys;
    PassedNone(p, step);
    while todo != {}
      invariant todo <= p.Keys && PassedBut(next, p, step, todo)
      decreases |todo|
    {
      var before := Pick(todo);
      var more := AddSteps(next, before, p[before], step);
      PassedOne(next, more, p, step, todo, before);
      next := more;
      todo := todo - {before};
    }
    PassedAll(next, p, step);
  }

  // --------------------------------------------------- every sequence of steps, once

  function Extended(words: seq<seq<int>>, last: int): seq<seq<int>> {
    if words == [] then [] else [words[0] + [last]] + Extended(words[1..], last)
  }

  lemma {:induction false} ExtendedAt(words: seq<seq<int>>, last: int, i: nat)
    ensures |Extended(words, last)| == |words|
    ensures i < |words| ==> Extended(words, last)[i] == words[i] + [last]
  {
    if words != [] {
      ExtendedAt(words[1..], last, if i == 0 then 0 else i - 1);
    }
  }

  function Words(n: nat): seq<seq<int>> {
    if n < 1 then [[]]
    else Extended(Words(n - 1), -1) + Extended(Words(n - 1), 0) + Extended(Words(n - 1), 1)
  }

  predicate IsWord(w: seq<int>, n: nat) {
    |w| == n && forall i :: 0 <= i < n ==> -1 <= w[i] <= 1
  }

  lemma InExtended(words: seq<seq<int>>, last: int, w: seq<int>)
    ensures w in Extended(words, last) <==> w != [] && w[|w| - 1] == last && w[..|w| - 1] in words
  {
    ExtendedAt(words, last, 0);
    if w in Extended(words, last) {
      var i :| 0 <= i < |words| && Extended(words, last)[i] == w;
      ExtendedAt(words, last, i);
      assert w[..|w| - 1] == words[i];
    }
    if w != [] && w[|w| - 1] == last && w[..|w| - 1] in words {
      var i :| 0 <= i < |words| && words[i] == w[..|w| - 1];
      ExtendedAt(words, last, i);
      assert w == w[..|w| - 1] + [last];
      assert Extended(words, last)[i] == w;
    }
  }

  /** The words are all sequences of steps of one length. */
  lemma {:induction false} WordsAreAllSequences(n: nat, w: seq<int>)
    ensures w in Words(n) <==> IsWord(w, n)
  {
    if n > 0 {
      InExtended(Words(n - 1), -1, w);
      InExtended(Words(n - 1), 0, w);
      InExtended(Words(n - 1), 1, w);
      if w != [] {
        WordsAreAllSequences(n - 1, w[..|w| - 1]);
        assert w == w[..|w| - 1] + [w[|w| - 1]];
      }
    }
  }

  predicate Distinct(words: seq<seq<int>>) {
    forall i, j :: 0 <= i < j < |words| ==> words[i] != words[j]
  }

  lemma ExtendedDistinct(words: seq<seq<int>>, last: int)
    requires Distinct(words)
    ensures Distinct(Extended(words, last))
  {
    var more := Extended(words, last);
    ExtendedAt(words, last, 0);
    forall i, j | 0 <= i < j < |more| ensures more[i] != more[j] {
      ExtendedAt(words, last, i);
      ExtendedAt(words, last, j);
      assert more[i][..|more[i]| - 1] == words[i] && more[j][..|more[j]| - 1] == words[j];
    }
  }

  lemma AppendDistinct(a: seq<seq<int>>, b: seq<seq<int>>)
    requires Distinct(a) && Distinct(b) && forall w :: w in a ==> w !in b
    ensures Distinct(a + b)
  {
    forall i, j | 0 <= i < j < |a + b| ensures (a + b)[i] != (a + b)[j] {
      if i < |a| <= j {
        assert (a + b)[i] in a && (a + b)[j] in b;
      }
    }
  }

  /** No word is listed twice. */
  lemma {:induction false} WordsDiffer(n: nat)
    ensures Distinct(Words(n))
  {
    if n > 0 {
      var before := Words(n - 1);
      WordsDiffer(n - 1);
      forall last | -1 <= last <= 1 ensures Distinct(Extended(before, last)) {
        ExtendedDistinct(before, last);
      }
      forall w, last ensures w in Extended(before, last) ==> w != [] && w[|w| - 1] == last {
        InExtended(before, last, w);
      }
      AppendDistinct(Extended(before, -1), Extended(before, 0));
      AppendDistinct(Extended(before, -1) + Extended(before, 0), Extended(before, 1));
    }
  }

  /** Independent steps multiply their chances. */
  ghost function Weight(step: Law<int>, w: seq<int>): real {
    if w == [] then 1.0 else Way(Weight(step, w[..|w| - 1]), step, w[|w| - 1])
  }

  function Destination(w: seq<int>): int {
    if w == [] then 0 else Destination(w[..|w| - 1]) + w[|w| - 1]
  }

  /** The weight of all listed sequences that lead to `e`. */
  ghost function WeightTo(step: Law<int>, words: seq<seq<int>>, e: int): real {
    if words == [] then 0.0
    else (if Destination(words[0]) == e then Weight(step, words[0]) else 0.0) + WeightTo(step, words[1..], e)
  }

  lemma {:induction false} WeightToAppend(step: Law<int>, a: seq<seq<int>>, b: seq<seq<int>>, e: int)
    ensures WeightTo(step, a + b, e) == WeightTo(step, a, e) + WeightTo(step, b, e)
  {
    if a == [] {
      assert a + b == b;
    } else {
      assert (a + b)[1..] == a[1..] + b;
      WeightToAppend(step, a[1..], b, e);
    }
  }

  lemma {:induction false} WeightToExtended(step: Law<int>, words: seq<seq<int>>, last: int, e: int, before: int)
    requires before + last == e
    ensures WeightTo(step, Extended(words, last), e) == Way(WeightTo(step, words, before), step, last)
  {
    TimesZero(At(step, last));
    if words != [] {
      var w := words[0] + [last];
      assert w[..|w| - 1] == words[0];
      TimesDistributes(if Destination(words[0]) == before then Weight(step, words[0]) else 0.0,
                       WeightTo(step, words[1..], before), At(step, last));
      assert Extended(words, last)[1..] == Extended(words[1..], last) && Extended(words, last)[0] == w;
      WeightToExtended(step, words[1..], last, e, before);
    }
  }

  // ------------------------------------------------------------- the law it computes

  /** The chance that `n` independent steps lead to `e`, one step after the other. */
  ghost function Chance(step: Law<int>, n: nat, e: int): real {
    if n < 1 then
      if e == 0 then 1.0 else 0.0
    else
      Way(Chance(step, n - 1, e + 1), step, -1) + Way(Chance(step, n - 1, e), step, 0)
      + Way(Chance(step, n - 1, e - 1), step, 1)
  }

  lemma WeightToLonger(step: Law<int>, n: nat, e: int)
    requires n > 0
    ensures WeightTo(step, Words(n), e)
         == Way(WeightTo(step, Words(n - 1), e + 1), step, -1) + Way(WeightTo(step, Words(n - 1), e), step, 0)
            + Way(WeightTo(step, Words(n - 1), e - 1), step, 1)
  {
    var before := Words(n - 1);
    var low, middle, high := Extended(before, -1), Extended(before, 0), Extended(before, 1);
    WeightToAppend(step, low + middle, high, e);
    WeightToAppend(step, low, middle, e);
    WeightToExtended(step, before, -1, e, e + 1);
    WeightToExtended(step, before, 0, e, e);
    WeightToExtended(step, before, 1, e, e - 1);
  }

  lemma NoSteps(step: Law<int>, n: nat, e: int)
    requires n < 1
    ensures Chance(step, n, e) == WeightTo(step, Words(n), e)
  {
    assert Words(n) == [[]] && Words(n)[1..] == [];
    assert Destination([]) == 0 && Weight(step, []) == 1.0;
  }

  lemma Longer(step: Law<int>, n: nat, e: int)
    requires n > 0
    requires Chance(step, n - 1, e + 1) == WeightTo(step, Words(n - 1), e + 1)
    requires Chance(step, n - 1, e) == WeightTo(step, Words(n - 1), e)
    requires Chance(step, n - 1, e - 1) == WeightTo(step, Words(n - 1), e - 1)
    ensures Chance(step, n, e) == WeightTo(step, Words(n), e)
  {
    WeightToLonger(step, n, e);
  }

  /** The chance computed step by step is the weight of every sequence of steps. */
  lemma {:induction false} ChanceIsEnumeration(step: Law<int>, n: nat, e: int)
    ensures Chance(step, n, e) == WeightTo(step, Words(n), e)
  {
    if n < 1 {
      NoSteps(step, n, e);
    } else {
      ChanceIsEnumeration(step, n - 1, e + 1);
      ChanceIsEnumeration(step, n - 1, e);
      ChanceIsEnumeration(step, n - 1, e - 1);
      Longer(step, n, e);
    }
  }

  /** Some sequence of `n` steps of the law leads to `e`. */
  predicate Reaches(step: Law<int>, n: nat, e: int) {
    if n < 1 then e == 0
    else
      || (Reaches(step, n - 1, e + 1) && -1 in step) || (Reaches(step, n - 1, e) && 0 in step)
      || (Reaches(step, n - 1, e - 1) && 1 in step)
  }

  ghost predicate LeadsTo(step: Law<int>, n: nat, e: int, w: seq<int>) {
    |w| == n && Destination(w) == e && forall i :: 0 <= i < n ==> w[i] in step
  }

  lemma {:induction false} ReachesByWord(step: Law<int>, n: nat, e: int)
    requires ThreePoint(step)
    ensures Reaches(step, n, e) <==> exists w :: LeadsTo(step, n, e, w)
  {
    if n < 1 {
      assert Destination([]) == 0;
      assert e == 0 ==> LeadsTo(step, n, e, []);
    } else {
      if w :| LeadsTo(step, n, e, w) {
        var last := w[n - 1];
        assert LeadsTo(step, n - 1, e - last, w[..n - 1]);
        ReachesByWord(step, n - 1, e - last);
        assert last == -1 || last == 0 || last == 1;
      }
      if Reaches(step, n, e) {
        var d := if Reaches(step, n - 1, e + 1) && -1 in step then -1
                 else if Reaches(step, n - 1, e) && 0 in step then 0 else 1;
        ReachesByWord(step, n - 1, e - d);
        var w :| LeadsTo(step, n - 1, e - d, w);
        assert (w + [d])[..n - 1] == w;
        assert LeadsTo(step, n, e, w + [d]);
      }
    }
  }

  function Power(x: real, n: nat): real {
    if n < 1 then 1.0 else Power(x, n - 1) * x
  }

  ghost predicate LawAt(p: Law<int>, step: Law<int>, n: nat, e: int) {
    (e in p <==> Reaches(step, n, e)) && At(p, e) == WeightTo(step, Words(n), e)
  }

  /** The law of the sum of `n` independent steps, by enumeration of every sequence. */
  ghost predicate IsLaw(p: Law<int>, step: Law<int>, n: nat) {
    Mass(p) == Power(Mass(step), n) && forall e :: LawAt(p, step, n, e)
  }

  lemma LawIsChance(p: Law<int>, step: Law<int>, n: nat, e: int)
    requires IsLaw(p, step, n)
    ensures (e in p <==> Reaches(step, n, e)) && At(p, e) == Chance(step, n, e)
  {
    assert LawAt(p, step, n, e);
    ChanceIsEnumeration(step, n, e);
  }

  method Start(ghost step: Law<int>) returns (p: Law<int>)
    ensures IsLaw(p, step, 0)
  {
    p := map[0 := 1.0];
    SumRemove(p.Keys, Entries(p), 0);
    assert p.Keys - {0} == {};
    forall e ensures LawAt(p, step, 0, e) {
      ChanceIsEnumeration(step, 0, e);
    }
  }

  /** One convolution goes from the law of `n` steps to that of one more. */
  method Advance(p: Law<int>, step: Law<int>, ghost n: nat) returns (next: Law<int>)
    requires ThreePoint(step) && IsLaw(p, step, n)
    ensures IsLaw(next, step, n + 1)
  {
    next := Convolve(p, step);
    LawNext(next, p, step, n, n + 1);
  }

  lemma LawNext(next: Law<int>, p: Law<int>, step: Law<int>, n: nat, more: nat)
    requires more == n + 1 && IsLaw(p, step, n)
    requires Convolved(next, p, p.Keys, step) && Mass(next) == Mass(p) * Mass(step)
    ensures IsLaw(next, step, more)
  {
    forall e ensures LawAt(next, step, more, e) {
      assert ConvolvedAt(next, p, p.Keys, step, e);
      LawIsChance(p, step, n, e + 1);
      LawIsChance(p, step, n, e);
      LawIsChance(p, step, n, e - 1);
      ChanceIsEnumeration(step, more, e);
    }
  }

  // ----------------------------------------------------------- the likelihood ratio

  function Pow3(n: nat): (p: real)
    ensures p > 0.0
  {
    if n == 0 then 1.0 else 3.0 * Pow3(n - 1)
  }

  /** An exponent is `3^e` times as likely as its opposite. */
  ghost predicate Balanced(step: Law<int>, n: nat, e: int)
    requires e >= 0
  {
    Chance(step, n, e) == Times(Pow3(e), Chance(step, n, -e))
  }

  lemma AtOrigin(step: Law<int>, n: nat, e: int)
    requires n == 0 || e == 0
    requires e >= 0
    ensures Balanced(step, n, e)
  {
    TimesZero(Pow3(e));
    TimesZero(Chance(step, n, -e));
    if n < 1 {
      assert Chance(step, n, e) == (if e == 0 then 1.0 else 0.0) == Chance(step, n, -e);
    } else {
      assert Pow3(e) == 1.0;
    }
  }

  /** If going up is three times as likely as going down, then an exponent `e` is `3^e`
      times as likely as its opposite. */
  lemma {:induction false} ChanceBalance(step: Law<int>, n: nat, e: int)
    requires e >= 0 && At(step, 1) == 3.0 * At(step, -1)
    ensures Balanced(step, n, e)
  {
    if n < 1 || e == 0 {
      AtOrigin(step, n, e);
    } else {
      ChanceBalance(step, n - 1, e + 1);
      ChanceBalance(step, n - 1, e);
      ChanceBalance(step, n - 1, e - 1);
      BalanceLonger(step, n, e);
    }
  }

  lemma BalanceLonger(step: Law<int>, n: nat, e: int)
    requires n > 0 && e > 0 && At(step, 1) == 3.0 * At(step, -1)
    requires Balanced(step, n - 1, e + 1) && Balanced(step, n - 1, e) && Balanced(step, n - 1, e - 1)
    ensures Balanced(step, n, e)
  {
    var x, y, z := Chance(step, n - 1, -e - 1), Chance(step, n - 1, -e), Chance(step, n - 1, -e + 1);
    Regroup(Pow3(e - 1), Pow3(e), Pow3(e + 1), step, x, y, z);
  }

  lemma Regroup(c: real, c3: real, c9: real, step: Law<int>, x: real, y: real, z: real)
    requires At(step, 1) == 3.0 * At(step, -1) && c3 == 3.0 * c && c9 == 9.0 * c
    ensures Way(Times(c9, x), step, -1) + Way(Times(c3, y), step, 0) + Way(Times(c, z), step, 1)
         == Times(c3, Way(z, step, -1) + Way(y, step, 0) + Way(x, step, 1))
  {
    var down, level := At(step, -1), At(step, 0);
    var u, v, w := Times(x, down), Times(y, level), Times(z, down);
    TimesAssociates(c9, x, down);
    TimesAssociates(c3, y, level);
    TimesAssociates(c, z, 3.0 * down);
    TimesMultiple(z, down);
    TimesMultiple(x, down);
    TimesMultiple(c, u);
    TimesMultiple(c, v);
    TimesMultiple(c, w);
    TimesMultiple(c, w + v + 3.0 * u);
    TimesSum(c, w + v, 3.0 * u);
    TimesSum(c, w, v);
  }
}
