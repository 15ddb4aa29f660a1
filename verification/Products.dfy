/** Products as terms of their own. `Times` is the product, but its meaning is met only
    where `TimesIs` is called, so that long sums of products stay linear elsewhere. */
module Products {
  /** Has one value; a quantifier over it hides a body until that value is named. */
  datatype Request = Request

  predicate Equals(z: real, x: real, y: real, request: Request) {
    z == x * y
  }

  /** `z == x * y`, hidden: no term instantiates the quantifier but `Equals`, which only
      `TimesIs` mentions, so the solver meets no nonlinear equation anywhere else. */
  ghost predicate IsProduct(z: real, x: real, y: real) {
    forall request: Request :: Equals(z, x, y, request)
  }

  ghost function Times(x: real, y: real): real {
    assert IsProduct(x * y, x, y);
    var z :| IsProduct(z, x, y);
    z
  }

  lemma TimesIs(x: real, y: real)
    ensures Times(x, y) == x * y
  {
    assert IsProduct(x * y, x, y);
    assert IsProduct(Times(x, y), x, y);
    assert Equals(Times(x, y), x, y, Request);
  }

  method Multiply(x: real, y: real) returns (z: real)
    ensures z == Times(x, y)
  {
    TimesIs(x, y);
    z := x * y;
  }

  lemma TimesZero(x: real)
    ensures Times(0.0, x) == 0.0 && Times(x, 0.0) == 0.0 && Times(1.0, x) == x
  {
    TimesIs(0.0, x);
    TimesIs(x, 0.0);
    TimesIs(1.0, x);
  }

  lemma TimesDistributes(x: real, y: real, z: real)
    ensures Times(x + y, z) == Times(x, z) + Times(y, z)
  {
    TimesIs(x + y, z);
    TimesIs(x, z);
    TimesIs(y, z);
  }

  lemma TimesSum(x: real, y: real, z: real)
    ensures Times(x, y + z) == Times(x, y) + Times(x, z)
  {
    TimesIs(x, y + z);
    TimesIs(x, y);
    TimesIs(x, z);
  }

  lemma TimesMultiple(x: real, y: real)
    ensures Times(3.0 * x, y) == 3.0 * Times(x, y) && Times(9.0 * x, y) == 9.0 * Times(x, y)
    ensures Times(x, 3.0 * y) == 3.0 * Times(x, y)
  {
    TimesIs(3.0 * x, y);
    TimesIs(9.0 * x, y);
    TimesIs(x, 3.0 * y);
    TimesIs(x, y);
  }

  lemma TimesAssociates(x: real, y: real, z: real)
    ensures Times(Times(x, y), z) == Times(x, Times(y, z))
  {
    TimesIs(x, y);
    TimesIs(y, z);
    TimesIs(x * y, z);
    TimesIs(x, y * z);
  }

  lemma TimesCommutes(x: real, y: real)
    ensures Times(x, y) == Times(y, x)
  {
    TimesIs(x, y);
    TimesIs(y, x);
  }

  lemma TimesPositive(x: real, y: real)
    requires x >= 0.0 && y >= 0.0
    ensures Times(x, y) >= 0.0
    ensures x > 0.0 && y > 0.0 ==> Times(x, y) > 0.0
  {
    TimesIs(x, y);
  }
}
