/** Linked reports: the law of the likelihood exponent of one report, its repeated
    convolution, and the exact likelihood ratio after any number of reports. */
module LinkedReports {
  import opened Common
  import opened Sums
  import opened PacketLaw
  import opened Products
  import opened Convolution

  // ---------------------------------------------------------- the law of one report

  /** The exponent of base 3 of a likelihood ratio, if it has one of the three. */
  function Exponent(count: real, other: real): (exponent: Option<int>)
    ensures other == 0.0 ==> exponent.None?
    ensures other != 0.0 ==>
      var ratio := count / other;
      && (exponent == Some(-1) <==> ratio == 1.0 / 3.0) && (exponent == Some(0) <==> ratio == 1.0)
      && (exponent == Some(1) <==> ratio == 3.0)
      && (exponent.None? <==> ratio != 1.0 / 3.0 && ratio != 1.0 && ratio != 3.0)
  {
    if other == 0.0 then None
    else if 3.0 * count == other then Some(-1)
    else if count == other then Some(0)
    else if count == 3.0 * other then Some(1)
    else None
  }

  function Exponents<P>(left: Law<P>, right: Law<P>): P -> Option<int> {
    p => Exponent(At(left, p), At(right, p))
  }

  function Shares<P>(law: Law<P>, mass: real): P -> real
    requires mass != 0.0
  {
    p => At(law, p) / mass
  }

  /** An exponent has a share exactly if some packet has it: the share of all that do. */
  ghost predicate IsStep<P>(step: Law<int>, left: Law<P>, right: Law<P>, mass: real)
    requires mass != 0.0
  {
    Sorted(step, left.Keys, Exponents(left, right), Shares(left, mass))
  }

  /** Refused for a packet whose ratio is none of 1/3, 1 and 3. */
  method StepLaw<P(==)>(left: Law<P>, right: Law<P>) returns (step: Result<Law<int>>)
    requires Positive(left)
    ensures step.Refused? <==> exists p :: p in left && Exponents(left, right)(p).None?
    ensures left == map[] ==> step == Ok(map[])
    ensures step.Ok? && left != map[] ==> Mass(left) > 0.0 && IsStep(step.value, left, right, Mass(left))
  {
    if left == map[] {
      return Ok(map[]);
    }
    SumPositive(left.Keys, Entries(left));
    var mass := Total(left);
    step := CollectShares(left, right, mass);
  }

  method CollectShares<P(==)>(left: Law<P>, right: Law<P>, mass: real) returns (step: Result<Law<int>>)
    requires mass != 0.0
    ensures step.Refused? <==> exists p :: p in left && Exponents(left, right)(p).None?
    ensures step.Ok? ==> IsStep(step.value, left, right, mass)
  {
    var found: Law<int> := map[];
    var todo := left.Keys;
    while todo != {}
      invariant todo <= left.Keys
      invariant forall p :: p in left.Keys - todo ==> Exponents(left, right)(p).Some?
      invariant Sorted(found, left.Keys - todo, Exponents(left, right), Shares(left, mass))
      decreases |todo|
    {
      var p :| p in todo;
      var exponent := Exponents(left, right)(p);
      if exponent.None? {
        return Refused;
      }
      SortedGrows(found, left.Keys - todo, Exponents(left, right), Shares(left, mass), p);
      assert left.Keys - (todo - {p}) == left.Keys - todo + {p};
      found := Add(found, exponent.value, Shares(left, mass)(p));
      todo := todo - {p};
    }
    assert left.Keys - todo == left.Keys;
    step := Ok(found);
  }

  /** One packet is to the second hypothesis what another is to the first, and back. */
  predicate Counterparts<P(==)>(left: Law<P>, right: Law<P>, p: P, q: P) {
    q in left && At(right, q) == At(left, p) && At(left, q) == At(right, p)
  }

  /** Renaming the packets one to one swaps the two hypotheses. */
  ghost predicate Swaps<P(!new)>(left: Law<P>, right: Law<P>, rename: P -> P, back: P -> P) {
    && left.Keys == right.Keys
    && (forall p {:trigger rename(p)} :: p in left ==> Counterparts(left, right, p, rename(p)) && back(rename(p)) == p)
    && (forall q {:trigger back(q)} :: q in left ==> Counterparts(left, right, q, back(q)) && rename(back(q)) == q)
  }

  lemma SwappedExponents<P(!new)>(left: Law<P>, right: Law<P>, p: P, q: P)
    requires Positive(left) && left.Keys == right.Keys && p in left && Counterparts(left, right, p, q)
    ensures Exponents(left, right)(p) == Some(1) <==> Exponents(left, right)(q) == Some(-1)
    ensures Exponents(left, right)(p) == Some(-1) <==> Exponents(left, right)(q) == Some(1)
  {
  }

  lemma SwappedSums<P(!new)>(left: Law<P>, right: Law<P>, rename: P -> P, back: P -> P, mass: real)
    requires Positive(left) && Swaps(left, right, rename, back) && mass > 0.0
    ensures Sum(Tagged(left.Keys, Exponents(left, right), 1), Shares(right, mass))
         == Sum(Tagged(left.Keys, Exponents(left, right), -1), Shares(left, mass))
    ensures Tagged(left.Keys, Exponents(left, right), 1) != {} <==> Tagged(left.Keys, Exponents(left, right), -1) != {}
  {
    var up, down := Tagged(left.Keys, Exponents(left, right), 1), Tagged(left.Keys, Exponents(left, right), -1);
    forall p | p in up ensures rename(p) in down && Shares(right, mass)(p) == Shares(left, mass)(rename(p)) {
      SwappedExponents(left, right, p, rename(p));
      assert At(left, rename(p)) == At(right, p);
    }
    forall q | q in down ensures back(q) in up && rename(back(q)) == q {
      SwappedExponents(left, right, q, back(q));
    }
    forall q | q in down ensures exists p :: p in up && rename(p) == q {
      assert rename(back(q)) == q;
    }
    SumReindex(up, down, Shares(right, mass), Shares(left, mass), rename);
  }

  lemma TripledSum<P(!new)>(left: Law<P>, right: Law<P>, packets: set<P>, mass: real)
    requires mass != 0.0
    ensures Sum(Tagged(packets, Exponents(left, right), 1), Shares(left, mass))
         == 3.0 * Sum(Tagged(packets, Exponents(left, right), 1), Shares(right, mass))
  {
    var up := Tagged(packets, Exponents(left, right), 1);
    forall p | p in up ensures Shares(left, mass)(p) == Times(3.0, Shares(right, mass)(p)) {
      Third(At(left, p), At(right, p), mass);
    }
    SumScaled(up, Shares(right, mass), Shares(left, mass), 3.0);
    TimesIs(3.0, Sum(up, Shares(right, mass)));
  }

  lemma Third(x: real, y: real, m: real)
    requires m != 0.0 && x == 3.0 * y
    ensures x / m == Times(3.0, y / m)
  {
    assert (3.0 * (y / m)) * m == 3.0 * y;
    TimesIs(3.0, y / m);
  }

  /** Then reports three times likelier under one hypothesis are together three times as
      likely as their counterparts. */
  lemma SwappedShares<P(!new)>(left: Law<P>, right: Law<P>, rename: P -> P, back: P -> P, step: Law<int>)
    requires Positive(left) && left != map[] && Swaps(left, right, rename, back)
    requires Mass(left) > 0.0 && IsStep(step, left, right, Mass(left))
    ensures At(step, 1) == 3.0 * At(step, -1)
    ensures 1 in step <==> -1 in step
  {
    SwappedSums(left, right, rename, back, Mass(left));
    TripledSum(left, right, left.Keys, Mass(left));
  }

  /** What the law of one report has to be for the exact bound. */
  ghost predicate Proper(step: Law<int>) {
    && ThreePoint(step) && Positive(step) && Mass(step) == 1.0
    && 1 in step && -1 in step && At(step, 1) == 3.0 * At(step, -1)
  }

  lemma ShareFacts<P>(law: Law<P>, p: P)
    requires Positive(law) && p in law && Mass(law) > 0.0
    ensures Shares(law, Mass(law))(p) > 0.0
    ensures Shares(law, Mass(law))(p) == Times(1.0 / Mass(law), Entries(law)(p))
  {
    var x, m := law[p], Mass(law);
    TimesIs(1.0 / m, x);
    assert (1.0 / m) * m == 1.0;
    assert (1.0 / m) * x * m == x;
  }

  lemma SharesSumToOne<P>(law: Law<P>)
    requires Positive(law) && Mass(law) > 0.0
    ensures Sum(law.Keys, Shares(law, Mass(law))) == 1.0
  {
    forall p | p in law ensures Shares(law, Mass(law))(p) == Times(1.0 / Mass(law), Entries(law)(p)) {
      ShareFacts(law, p);
    }
    SumScaled(law.Keys, Entries(law), Shares(law, Mass(law)), 1.0 / Mass(law));
    TimesIs(1.0 / Mass(law), Mass(law));
  }

  /** Swapped hypotheses, with some packet that tells them apart, make a proper law. */
  lemma SwapIsProper<P(!new)>(left: Law<P>, right: Law<P>, rename: P -> P, back: P -> P, step: Law<int>)
    requires Positive(left) && left != map[] && Swaps(left, right, rename, back)
    requires Mass(left) > 0.0 && IsStep(step, left, right, Mass(left))
    requires forall p :: p in left ==> Exponents(left, right)(p).Some?
    requires exists p :: p in left && Exponents(left, right)(p) == Some(1)
    ensures Proper(step)
  {
    var exponents, shares := Exponents(left, right), Shares(left, Mass(left));
    SwappedShares(left, right, rename, back, step);
    forall p | p in left ensures shares(p) > 0.0 {
      ShareFacts(left, p);
    }
    SortedPositive(step, left.Keys, exponents, shares);
    SortedMass(step, left.Keys, exponents, shares);
    SharesSumToOne(left);
    StepSupport(left, right, step);
  }

  lemma StepIsThreePoint<P>(left: Law<P>, right: Law<P>, step: Law<int>)
    requires Mass(left) != 0.0 && IsStep(step, left, right, Mass(left))
    ensures ThreePoint(step)
  {
    forall e | e in step ensures -1 <= e <= 1 {
      var p :| p in Tagged(left.Keys, Exponents(left, right), e);
    }
  }

  lemma StepSupport<P(!new)>(left: Law<P>, right: Law<P>, step: Law<int>)
    requires Mass(left) != 0.0 && IsStep(step, left, right, Mass(left))
    requires exists p :: p in left && Exponents(left, right)(p) == Some(1)
    ensures ThreePoint(step) && 1 in step
  {
    StepIsThreePoint(left, right, step);
    var exponents := Exponents(left, right);
    var p :| p in left && exponents(p) == Some(1);
    assert p in Tagged(left.Keys, exponents, 1);
  }

  // ---------------------------------------------------------------- the horizons

  // What a proper law can reach after `n` steps.

  lemma {:induction false} ReachBounds(step: Law<int>, n: nat, e: int)
    requires Proper(step)
    ensures Reaches(step, n, e) ==> 0 - n <= e <= n
    ensures e == n ==> Reaches(step, n, e)
    ensures Reaches(step, n, e) <==> Reaches(step, n, -e)
  {
    if n > 0 {
      assert -(e + 1) == -e - 1 && -(e - 1) == -e + 1;
      ReachBounds(step, n - 1, e + 1);
      ReachBounds(step, n - 1, e);
      ReachBounds(step, n - 1, e - 1);
    }
  }

  /** A reachable exponent has a chance. */
  lemma {:induction false} ReachPositive(step: Law<int>, n: nat, e: int)
    requires Positive(step)
    ensures Chance(step, n, e) >= 0.0
    ensures Reaches(step, n, e) ==> Chance(step, n, e) > 0.0
  {
    if n > 0 {
      ReachPositive(step, n - 1, e + 1);
      ReachPositive(step, n - 1, e);
      ReachPositive(step, n - 1, e - 1);
      TimesPositive(Chance(step, n - 1, e + 1), At(step, -1));
      TimesPositive(Chance(step, n - 1, e), At(step, 0));
      TimesPositive(Chance(step, n - 1, e - 1), At(step, 1));
    }
  }

  lemma {:induction false} PowerOne(n: nat)
    ensures Power(1.0, n) == 1.0
  {
    if n > 0 {
      PowerOne(n - 1);
    }
  }

  /** The likelihood ratio of two opposite exponents. */
  ghost function OddsOf(step: Law<int>, n: nat, e: int): real {
    if Chance(step, n, -e) == 0.0 then 0.0 else Chance(step, n, e) / Chance(step, n, -e)
  }

  /** Every reachable exponent can be compared with its opposite, and there is one. */
  ghost predicate Comparable(step: Law<int>, n: nat) {
    && (exists e :: Reaches(step, n, e))
    && forall e :: Reaches(step, n, e) ==> Chance(step, n, -e) != 0.0
  }

  ghost predicate GreatestOdds(step: Law<int>, n: nat, m: real) {
    && (forall e :: Reaches(step, n, e) ==> OddsOf(step, n, e) <= m)
    && (exists e :: Reaches(step, n, e) && OddsOf(step, n, e) == m)
  }

  function Odds(p: Law<int>, e: int): real
    requires e in p && At(p, -e) != 0.0
  {
    p[e] / At(p, -e)
  }

  /** The greatest likelihood ratio; a missing opposite is a division by zero, and so is
      an empty law an error. */
  method MaximumOdds(p: Law<int>) returns (maximum: Result<real>, ghost at: int)
    ensures maximum.Ok? <==> p != map[] && forall e :: e in p ==> At(p, -e) != 0.0
    ensures maximum.Ok? ==> at in p && Odds(p, at) == maximum.value
    ensures maximum.Ok? ==> forall e :: e in p ==> Odds(p, e) <= maximum.value
  {
    maximum, at := Refused, 0;
    var todo := p.Keys;
    while todo != {}
      invariant todo <= p.Keys && (maximum.Ok? <==> todo != p.Keys)
      invariant maximum.Ok? ==> at in p && At(p, -at) != 0.0 && Odds(p, at) == maximum.value
      invariant forall e :: e in p && e !in todo ==> At(p, -e) != 0.0 && maximum.Ok? && Odds(p, e) <= maximum.value
      decreases |todo|
    {
      var e := Pick(todo);
      if At(p, -e) == 0.0 {
        return Refused, at;
      }
      var odds := Odds(p, e);
      if maximum.Refused? || odds > maximum.value {
        maximum, at := Ok(odds), e;
      }
      todo := todo - {e};
    }
  }

  lemma OddsAreEnumerated(p: Law<int>, step: Law<int>, n: nat, e: int)
    requires IsLaw(p, step, n)
    ensures e in p <==> Reaches(step, n, e)
    ensures At(p, -e) == Chance(step, n, -e)
    ensures e in p && At(p, -e) != 0.0 ==> Odds(p, e) == OddsOf(step, n, e)
  {
    LawIsChance(p, step, n, e);
    LawIsChance(p, step, n, -e);
  }

  lemma ComparableIsEnumerated(p: Law<int>, step: Law<int>, n: nat)
    requires IsLaw(p, step, n)
    ensures Comparable(step, n) <==> p != map[] && forall e :: e in p ==> At(p, -e) != 0.0
  {
    forall e ensures (e in p <==> Reaches(step, n, e)) && At(p, -e) == Chance(step, n, -e) {
      OddsAreEnumerated(p, step, n, e);
    }
    if p != map[] {
      var e := SomeKey(p);
      assert Reaches(step, n, e);
    }
  }

  lemma SomeKey<K>(p: Law<K>) returns (k: K)
    requires p != map[]
    ensures k in p
  {
    assert p.Keys != {};
    k :| k in p.Keys;
  }

  /** What the loop finds in its counter is what the enumeration says. */
  lemma MaximumIsGreatest(p: Law<int>, step: Law<int>, n: nat, maximum: real, at: int)
    requires IsLaw(p, step, n)
    requires forall e :: e in p ==> At(p, -e) != 0.0 && Odds(p, e) <= maximum
    requires at in p && Odds(p, at) == maximum
    ensures GreatestOdds(step, n, maximum)
  {
    OddsAreEnumerated(p, step, n, at);
    forall e | Reaches(step, n, e) ensures OddsOf(step, n, e) <= maximum {
      OddsAreEnumerated(p, step, n, e);
    }
  }

  /** For a proper law the exponent `n` is `3^n` times as likely as its opposite, and no
      other ratio is greater. */
  lemma OddsArePowers(step: Law<int>, n: nat, e: int)
    requires Proper(step) && Reaches(step, n, e)
    ensures Chance(step, n, -e) != 0.0 && OddsOf(step, n, e) <= Pow3(n)
    ensures e == n ==> OddsOf(step, n, e) == Pow3(n)
  {
    ReachBounds(step, n, e);
    ReachPositive(step, n, e);
    ReachPositive(step, n, -e);
    Pow3Grows(0, n);
    if e >= 0 {
      ChanceBalance(step, n, e);
      Pow3Grows(e, n);
      QuotientIs(Chance(step, n, e), Pow3(e), Chance(step, n, -e));
    } else {
      ChanceBalance(step, n, -e);
      Pow3Grows(0, -e);
      QuotientBelow(Chance(step, n, -e), Pow3(-e), Chance(step, n, e));
    }
  }

  lemma ProperOdds(step: Law<int>, n: nat)
    requires Proper(step)
    ensures Comparable(step, n) && GreatestOdds(step, n, Pow3(n)) && Power(Mass(step), n) == 1.0
  {
    ReachBounds(step, n, n);
    PowerOne(n);
    forall e | Reaches(step, n, e)
      ensures Chance(step, n, -e) != 0.0 && OddsOf(step, n, e) <= Pow3(n) && (e == n ==> OddsOf(step, n, e) == Pow3(n))
    {
      OddsArePowers(step, n, e);
    }
  }

  lemma QuotientIs(x: real, c: real, y: real)
    requires x == Times(c, y) && y > 0.0
    ensures x / y == c
  {
    TimesIs(c, y);
    assert (x / y - c) * y == 0.0;
  }

  lemma QuotientBelow(x: real, c: real, y: real)
    requires x == Times(c, y) && y > 0.0 && c >= 1.0 && x != 0.0
    ensures y / x <= 1.0
  {
    TimesIs(c, y);
    assert x >= y;
    assert (y / x) * x == y;
    if y / x > 1.0 {
      assert (y / x) * x > x;
    }
  }

  lemma {:induction false} Pow3Grows(m: nat, n: nat)
    requires m <= n
    ensures 1.0 <= Pow3(m) <= Pow3(n)
    decreases n
  {
    if n > m {
      Pow3Grows(m, n - 1);
    } else if m > 0 {
      Pow3Grows(m - 1, n - 1);
    }
  }

  datatype Row = Row(count: nat, maximum: real, passed: bool)

  function Greatest(horizons: seq<nat>): (g: nat)
    requires horizons != []
    ensures g in horizons && forall h :: h in horizons ==> h <= g
  {
    if |horizons| == 1 then horizons[0]
    else
      var rest := Greatest(horizons[1..]);
      assert horizons == [horizons[0]] + horizons[1..];
      if horizons[0] > rest then horizons[0] else rest
  }

  /** A row holds the greatest likelihood ratio after its number of reports, and passes
      exactly if the chances still sum to 1 and that ratio is `3^n`. */
  ghost predicate IsRow(row: Row, step: Law<int>) {
    && GreatestOdds(step, row.count, row.maximum)
    && (row.passed <==> Power(Mass(step), row.count) == 1.0 && row.maximum == Pow3(row.count))
  }

  /** One row for each horizon up to `count`, in order. */
  ghost predicate Reported(rows: seq<Row>, step: Law<int>, horizons: seq<nat>, count: nat) {
    && (forall i :: 0 <= i < |rows| ==> IsRow(rows[i], step) && 1 <= rows[i].count <= count && rows[i].count in horizons)
    && (forall i, j :: 0 <= i < j < |rows| ==> rows[i].count < rows[j].count)
    && (forall h :: 1 <= h <= count && h in horizons ==> exists i :: 0 <= i < |rows| && rows[i].count == h)
  }

  lemma ReportedNext(rows: seq<Row>, step: Law<int>, horizons: seq<nat>, count: nat, row: Row)
    requires Reported(rows, step, horizons, count) && IsRow(row, step) && row.count == count + 1 && row.count in horizons
    ensures Reported(rows + [row], step, horizons, count + 1)
  {
    var more := rows + [row];
    forall h | 1 <= h <= count && h in horizons ensures exists i :: 0 <= i < |more| && more[i].count == h {
      var i :| 0 <= i < |rows| && rows[i].count == h;
      assert more[i].count == h;
    }
    assert more[|rows|].count == count + 1;
  }

  /** Every horizon up to `count` can be reported. */
  ghost predicate AllComparable(step: Law<int>, horizons: seq<nat>, count: nat) {
    forall h :: 1 <= h <= count && h in horizons ==> Comparable(step, h)
  }

  lemma ComparableNext(step: Law<int>, horizons: seq<nat>, count: nat)
    requires AllComparable(step, horizons, count) && (count + 1 in horizons ==> Comparable(step, count + 1))
    ensures AllComparable(step, horizons, count + 1)
  {
  }

  /** The rows for any law of one report on the exponents -1, 0 and 1, refused exactly if
      at some horizon an exponent has no opposite to be compared with. */
  method Assess(step: Law<int>, horizons: seq<nat>) returns (rows: Result<seq<Row>>)
    requires horizons != [] && ThreePoint(step)
    ensures rows.Ok? <==> AllComparable(step, horizons, Greatest(horizons))
    ensures rows.Ok? ==> Reported(rows.value, step, horizons, Greatest(horizons))
  {
    var found: seq<Row> := [];
    var probability := Start(step);
    var count := 0;
    while count < Greatest(horizons)
      invariant count <= Greatest(horizons)
      invariant IsLaw(probability, step, count)
      invariant Reported(found, step, horizons, count) && AllComparable(step, horizons, count)
    {
      probability := Advance(probability, step, count);
      count := count + 1;
      if count !in horizons {
        ComparableNext(step, horizons, count - 1);
        continue;
      }
      var row := ReportRow(probability, step, count);
      if row.Refused? {
        return Refused;
      }
      ComparableNext(step, horizons, count - 1);
      ReportedNext(found, step, horizons, count - 1, row.value);
      found := found + [row.value];
    }
    rows := Ok(found);
  }

  method ReportRow(probability: Law<int>, ghost step: Law<int>, count: nat) returns (row: Result<Row>)
    requires IsLaw(probability, step, count)
    ensures row.Ok? <==> Comparable(step, count)
    ensures row.Ok? ==> row.value.count == count && IsRow(row.value, step)
  {
    var maximum, at := MaximumOdds(probability);
    ComparableIsEnumerated(probability, step, count);
    if maximum.Refused? {
      return Refused;
    }
    MaximumIsGreatest(probability, step, count, maximum.value, at);
    var mass := Total(probability);
    row := Ok(Row(count, maximum.value, mass == 1.0 && maximum.value == Pow3(count)));
  }

  /** For a proper law every horizon is reported with the exact ratio `3^n`, and passes. */
  lemma ProperRows(rows: seq<Row>, step: Law<int>, horizons: seq<nat>, count: nat)
    requires Proper(step)
    ensures AllComparable(step, horizons, count)
    ensures Reported(rows, step, horizons, count) ==> Exact(rows)
  {
    forall h | 1 <= h <= count && h in horizons ensures Comparable(step, h) {
      ProperOdds(step, h);
    }
    if Reported(rows, step, horizons, count) {
      forall i | 0 <= i < |rows| ensures rows[i] == Row(rows[i].count, Pow3(rows[i].count), true) {
        var row := rows[i];
        assert IsRow(row, step);
        ProperOdds(step, row.count);
      }
    }
  }

  predicate Exact(rows: seq<Row>) {
    forall i :: 0 <= i < |rows| ==> rows[i] == Row(rows[i].count, Pow3(rows[i].count), true)
  }

  /** From the packet laws of two hypotheses to the rows. Hypotheses that a renaming of
      the packets swaps always pass, with the exact ratio at every horizon. */
  method LinkedReportRows<P(==, !new)>(
      left: Law<P>, right: Law<P>, horizons: seq<nat>, ghost rename: P -> P, ghost back: P -> P)
    returns (rows: Result<seq<Row>>, ghost step: Law<int>)
    requires Positive(left) && horizons != []
    ensures (exists p :: p in left && Exponents(left, right)(p).None?) ==> rows.Refused?
    ensures left != map[] && (forall p :: p in left ==> Exponents(left, right)(p).Some?) ==>
              && Mass(left) > 0.0 && IsStep(step, left, right, Mass(left))
              && (rows.Ok? <==> AllComparable(step, horizons, Greatest(horizons)))
    ensures rows.Ok? ==> Reported(rows.value, step, horizons, Greatest(horizons))
    ensures Swaps(left, right, rename, back)
            && (forall p :: p in left ==> Exponents(left, right)(p).Some?)
            && (exists p :: p in left && Exponents(left, right)(p) == Some(1)) ==>
              rows.Ok? && Exact(rows.value)
  {
    var law := StepLaw(left, right);
    step := map[];
    if law.Refused? {
      return Refused, step;
    }
    step := law.value;
    if left != map[] {
      StepIsThreePoint(left, right, step);
    }
    rows := Assess(law.value, horizons);
    if Swaps(left, right, rename, back) && exists p :: p in left && Exponents(left, right)(p) == Some(1) {
      SwapIsProper(left, right, rename, back, step);
      ProperRows(if rows.Ok? then rows.value else [], step, horizons, Greatest(horizons));
    }
  }
}
