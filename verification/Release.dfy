/** Releasing a document from a packet: the law of the documents, and why no release
    can tell two packet laws apart better than the packets themselves could. */
module Release {
  import opened Common
  import opened Sums
  import opened PacketLaw

  /** A document has a mass exactly if some packet leads to it: the mass of all packets
      that do. */
  ghost predicate IsImage<P, R(!new)>(images: Law<R>, law: Law<P>, release: P -> Option<R>) {
    Sorted(images, law.Keys, release, Entries(law))
  }

  /** Every document of the law passes the check. */
  ghost predicate AllHide<R(!new)>(images: Law<R>, hides: R -> bool) {
    forall r :: r in images ==> hides(r)
  }

  lemma HidesNext<R(!new)>(images: Law<R>, r: R, mass: real, hides: R -> bool)
    ensures AllHide(Add(images, r, mass), hides) <==> AllHide(images, hides) && hides(r)
  {
    var more := Add(images, r, mass);
    assert r in more;
    forall s ensures s in more <==> s in images || s == r {
    }
  }

  /** The packets but those in `left` were all released, and sorted by document; all those
      documents hide what they should exactly if `absent`. */
  ghost predicate ReleasedBut<P(!new), R(!new)>(
      images: Law<R>, law: Law<P>, left: set<P>, release: P -> Option<R>, hides: R -> bool, absent: bool) {
    && Sorted(images, law.Keys - left, release, Entries(law)) && (absent <==> AllHide(images, hides))
    && forall p :: p in law && p !in left ==> release(p).Some?
  }

  lemma ReleasedNext<P(!new), R(!new)>(
      images: Law<R>, law: Law<P>, left: set<P>, release: P -> Option<R>, hides: R -> bool, absent: bool, p: P)
    requires ReleasedBut(images, law, left, release, hides, absent)
    requires left <= law.Keys && p in left && release(p).Some?
    ensures ReleasedBut(Add(images, release(p).value, law[p]), law, left - {p}, release, hides,
                        absent && hides(release(p).value))
  {
    HidesNext(images, release(p).value, law[p], hides);
    SortedGrows(images, law.Keys - left, release, Entries(law), p);
    assert law.Keys - (left - {p}) == law.Keys - left + {p};
  }

  lemma ReleasedAll<P(!new), R(!new)>(
      images: Law<R>, law: Law<P>, release: P -> Option<R>, hides: R -> bool, absent: bool)
    requires ReleasedBut(images, law, {}, release, hides, absent)
    ensures IsImage(images, law, release) && (absent <==> AllHide(images, hides))
  {
    assert law.Keys - {} == law.Keys;
  }

  /** The law of the released documents, refused if any packet or its window is, and
      whether every one of them hides the values that are to be withheld. */
  method ImageLaw<P(==, !new), R(==, !new)>(law: Law<P>, release: P -> Option<R>, hides: R -> bool)
    returns (images: Result<Law<R>>, absent: bool)
    ensures images.Refused? <==> exists p :: p in law && release(p).None?
    ensures images.Ok? ==> IsImage(images.value, law, release) && (absent <==> AllHide(images.value, hides))
  {
    var found: Law<R> := map[];
    var left := law.Keys;
    absent := true;
    while left != {}
      invariant left <= law.Keys && ReleasedBut(found, law, left, release, hides, absent)
      decreases |left|
    {
      var p := Pick(left);
      if release(p).None? {
        return Refused, absent;
      }
      ReleasedNext(found, law, left, release, hides, absent, p);
      absent := absent && hides(release(p).value);
      found := Add(found, release(p).value, law[p]);
      left := left - {p};
    }
    ReleasedAll(found, law, release, hides, absent);
    images := Ok(found);
  }

  /** Neither of two masses is more than `bound` times the other. */
  predicate Close(x: real, y: real, bound: real) {
    x > 0.0 && y > 0.0 && x <= bound * y && y <= bound * x
  }

  /** Same support, and no packet more than `bound` times as likely under either law. */
  predicate Within<K>(left: Law<K>, right: Law<K>, bound: real) {
    && left.Keys == right.Keys
    && forall k :: k in left ==> Close(left[k], right[k], bound)
  }

  /** Sums of close masses are close. */
  lemma {:induction false} SumsAreClose<P>(part: set<P>, left: Law<P>, right: Law<P>, bound: real)
    requires part != {} && part <= left.Keys && part <= right.Keys
    requires forall p :: p in part ==> Close(left[p], right[p], bound)
    ensures Close(Sum(part, Entries(left)), Sum(part, Entries(right)), bound)
    decreases part
  {
    var p :| p in part;
    SumRemove(part, Entries(left), p);
    SumRemove(part, Entries(right), p);
    if part == {p} {
      assert part - {p} == {};
    } else {
      SumsAreClose(part - {p}, left, right, bound);
      CloseAdds(left[p], right[p], Sum(part - {p}, Entries(left)), Sum(part - {p}, Entries(right)), bound);
    }
  }

  lemma CloseAdds(x: real, y: real, u: real, v: real, bound: real)
    requires Close(x, y, bound) && Close(u, v, bound)
    ensures Close(x + u, y + v, bound)
  {
    assert bound * (y + v) == bound * y + bound * v && bound * (x + u) == bound * x + bound * u;
  }

  /** The bound on packets is a bound on documents, whatever the background did to the
      release. */
  lemma ReleaseKeepsBound<P, R(!new)>(
      left: Law<P>, right: Law<P>, release: P -> Option<R>, bound: real, leftImages: Law<R>, rightImages: Law<R>)
    requires Within(left, right, bound)
    requires IsImage(leftImages, left, release) && IsImage(rightImages, right, release)
    ensures Within(leftImages, rightImages, bound)
  {
    forall r | r in leftImages ensures Close(leftImages[r], rightImages[r], bound) {
      SumsAreClose(Tagged(left.Keys, release, r), left, right, bound);
    }
  }

  // -------------------------------------------------------------- the case check

  datatype Case = Case(sameSupport: bool, sameMass: bool, maximum: real, absent: bool, passed: bool)

  /** The greater of the two ratios of two masses. */
  function Ratio(x: real, y: real): real
    requires x > 0.0 && y > 0.0
  {
    if x / y >= y / x then x / y else y / x
  }

  lemma RatioBound(x: real, y: real, bound: real)
    requires x > 0.0 && y > 0.0
    ensures Ratio(x, y) > 0.0
    ensures Ratio(x, y) <= bound <==> x <= bound * y && y <= bound * x
  {
    Quotient(x, y, bound);
    Quotient(y, x, bound);
  }

  lemma Quotient(x: real, y: real, bound: real)
    requires x > 0.0 && y > 0.0
    ensures x / y > 0.0 && (x / y <= bound <==> x <= bound * y)
  {
    var q := x / y;
    assert q * y == x;
    if q <= bound {
      assert q * y <= bound * y;
    }
  }

  /** The greatest ratio either way over the shared documents, 0 without any. */
  ghost predicate IsMaximum<R(!new)>(maximum: real, left: Law<R>, right: Law<R>)
    requires Positive(left) && Positive(right)
  {
    && (forall r :: r in left && r in right ==> Ratio(left[r], right[r]) <= maximum)
    && if left.Keys !! right.Keys then maximum == 0.0
       else exists r :: r in left && r in right && maximum == Ratio(left[r], right[r])
  }

  method MaximumRatio<R(==, !new)>(left: Law<R>, right: Law<R>) returns (maximum: real)
    requires Positive(left) && Positive(right)
    ensures IsMaximum(maximum, left, right)
  {
    maximum := 0.0;
    var todo := left.Keys * right.Keys;
    while todo != {}
      invariant todo <= left.Keys * right.Keys
      invariant forall r :: r in left && r in right && r !in todo ==> Ratio(left[r], right[r]) <= maximum
      invariant if left.Keys * right.Keys == todo then maximum == 0.0
                else exists r :: r in left && r in right && maximum == Ratio(left[r], right[r])
      decreases |todo|
    {
      var r :| r in todo;
      RatioBound(left[r], right[r], 1.0);
      assert r !in todo - {r};
      if Ratio(left[r], right[r]) > maximum {
        maximum := Ratio(left[r], right[r]);
      }
      todo := todo - {r};
    }
  }

  /** No packet of a law leads to a document that shows a withheld value. */
  ghost predicate Withholds<P(!new), R>(law: Law<P>, release: P -> Option<R>, hides: R -> bool) {
    forall p :: p in law && release(p).Some? ==> hides(release(p).value)
  }

  lemma HiddenByPacket<P(!new), R(!new)>(images: Law<R>, law: Law<P>, release: P -> Option<R>, hides: R -> bool)
    requires IsImage(images, law, release)
    ensures AllHide(images, hides) <==> Withholds(law, release, hides)
  {
    forall p | p in law && release(p).Some? ensures release(p).value in images {
      assert p in Tagged(law.Keys, release, release(p).value);
    }
    if !AllHide(images, hides) {
      var r :| r in images && !hides(r);
      var p :| p in Tagged(law.Keys, release, r);
    }
  }

  /** Two hypotheses about one participant, released through the same deterministic
      window. The check passes exactly if the two laws of documents, `l` and `r`, have one
      support, one mass, the right one, no document more than three times as likely under
      either, and nothing withheld shows. If the packets are within the bound and the masses
      right, that leaves, on every background, not only on its fixtures, the last. */
  method ReplacementCase<P(==, !new), R(==, !new)>(
      left: Law<P>, right: Law<P>, release: P -> Option<R>, hides: R -> bool, draws: real)
    returns (c: Result<Case>, ghost l: Law<R>, ghost r: Law<R>)
    requires Positive(left) && Positive(right)
    ensures c.Refused? <==> exists p :: (p in left || p in right) && release(p).None?
    ensures c.Ok? ==> IsImage(l, left, release) && IsImage(r, right, release) && Positive(l) && Positive(r)
    ensures c.Ok? ==>
              && (c.value.absent <==> Withholds(left, release, hides) && Withholds(right, release, hides))
              && (c.value.sameMass <==> Mass(left) == Mass(right) == draws)
              && (c.value.sameSupport <==> l.Keys == r.Keys) && IsMaximum(c.value.maximum, l, r)
              && (c.value.passed <==> Within(l, r, 3.0) && c.value.sameMass && c.value.absent)
    ensures c.Ok? && Within(left, right, 3.0) && Mass(left) == Mass(right) == draws ==>
              (c.value.passed <==> c.value.absent)
  {
    l, r := map[], map[];
    var images, leftAbsent := ImageLaw(left, release, hides);
    if images.Refused? {
      return Refused, l, r;
    }
    var others, rightAbsent := ImageLaw(right, release, hides);
    if others.Refused? {
      return Refused, l, r;
    }
    l, r := images.value, others.value;
    ImageFacts(l, left, release, hides);
    ImageFacts(r, right, release, hides);
    var leftMass := Total(images.value);
    var rightMass := Total(others.value);
    var sameMass := leftMass == rightMass && rightMass == draws;
    var maximum := MaximumRatio(images.value, others.value);
    var sameSupport := images.value.Keys == others.value.Keys;
    if Within(left, right, 3.0) {
      ReleaseKeepsBound(left, right, release, 3.0, l, r);
    }
    MaximumBound(maximum, l, r, 3.0);
    var absent := leftAbsent && rightAbsent;
    c := Ok(Case(sameSupport, sameMass, maximum, absent, sameSupport && sameMass && maximum <= 3.0 && absent));
  }

  lemma ImageFacts<P(!new), R(!new)>(images: Law<R>, law: Law<P>, release: P -> Option<R>, hides: R -> bool)
    requires Positive(law) && IsImage(images, law, release) && forall p :: p in law ==> release(p).Some?
    ensures Mass(images) == Mass(law) && Positive(images)
    ensures AllHide(images, hides) <==> Withholds(law, release, hides)
  {
    SortedMass(images, law.Keys, release, Entries(law));
    SortedPositive(images, law.Keys, release, Entries(law));
    HiddenByPacket(images, law, release, hides);
  }

  lemma CloseIsRatio(x: real, y: real, bound: real)
    requires x > 0.0 && y > 0.0
    ensures Close(x, y, bound) <==> Ratio(x, y) <= bound
  {
    RatioBound(x, y, bound);
  }

  /** The greatest ratio is within the bound exactly if every ratio is. */
  lemma MaximumBound<R(!new)>(maximum: real, left: Law<R>, right: Law<R>, bound: real)
    requires Positive(left) && Positive(right) && IsMaximum(maximum, left, right) && bound >= 0.0
    ensures Within(left, right, bound) <==> left.Keys == right.Keys && maximum <= bound
  {
    if left.Keys == right.Keys {
      if maximum <= bound {
        forall r | r in left ensures Close(left[r], right[r], bound) {
          CloseIsRatio(left[r], right[r], bound);
        }
      } else {
        var r :| r in left && r in right && maximum == Ratio(left[r], right[r]);
        CloseIsRatio(left[r], right[r], bound);
      }
    }
  }
}
