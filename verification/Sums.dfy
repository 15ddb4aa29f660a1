/** Sums over finite sets, in whatever order a dictionary is walked. */
module Sums {
  import opened Products

  ghost function Sum<T>(s: set<T>, f: T -> real): real {
    if s == {} then 0.0 else
      var x :| x in s;
      f(x) + Sum(s - {x}, f)
  }

  /** Any element may be taken out first. */
  lemma {:induction false} SumRemove<T>(s: set<T>, f: T -> real, y: T)
    requires y in s
    ensures Sum(s, f) == f(y) + Sum(s - {y}, f)
    decreases s
  {
    var x :| x in s && Sum(s, f) == f(x) + Sum(s - {x}, f);
    if x != y {
      SumRemove(s - {x}, f, y);
      SumRemove(s - {y}, f, x);
      assert s - {x} - {y} == s - {y} - {x};
    }
  }

  lemma SumAdd<T>(s: set<T>, f: T -> real, y: T)
    requires y !in s
    ensures Sum(s + {y}, f) == Sum(s, f) + f(y)
  {
    SumRemove(s + {y}, f, y);
    assert s + {y} - {y} == s;
  }

  lemma {:induction false} SumEqual<T>(s: set<T>, f: T -> real, g: T -> real)
    requires forall x :: x in s ==> f(x) == g(x)
    ensures Sum(s, f) == Sum(s, g)
    decreases s
  {
    if s != {} {
      var x :| x in s;
      SumRemove(s, f, x);
      SumRemove(s, g, x);
      SumEqual(s - {x}, f, g);
    }
  }

  lemma {:induction false} SumScaled<T>(s: set<T>, f: T -> real, g: T -> real, c: real)
    requires forall x :: x in s ==> g(x) == Times(c, f(x))
    ensures Sum(s, g) == Times(c, Sum(s, f))
    decreases s
  {
    if s == {} {
      TimesZero(c);
    } else {
      var x :| x in s;
      SumRemove(s, f, x);
      SumRemove(s, g, x);
      SumScaled(s - {x}, f, g, c);
      TimesSum(c, f(x), Sum(s - {x}, f));
    }
  }

  lemma {:induction false} SumPositive<T>(s: set<T>, f: T -> real)
    requires forall x :: x in s ==> f(x) > 0.0
    ensures Sum(s, f) >= 0.0 && (s != {} ==> Sum(s, f) > 0.0)
    decreases s
  {
    if s != {} {
      var x :| x in s;
      SumRemove(s, f, x);
      SumPositive(s - {x}, f);
    }
  }

  /** A sum splits along any part of the set. */
  lemma {:induction false} SumSplit<T>(s: set<T>, part: set<T>, f: T -> real)
    requires part <= s
    ensures Sum(s, f) == Sum(part, f) + Sum(s - part, f)
    decreases part
  {
    if part == {} {
      assert s - part == s;
    } else {
      var x :| x in part;
      SumRemove(s, f, x);
      SumRemove(part, f, x);
      SumSplit(s - {x}, part - {x}, f);
      assert s - {x} - (part - {x}) == s - part;
    }
  }

  /** Renaming the elements one to one keeps the sum. */
  lemma {:induction false} SumReindex<T, U>(s: set<T>, t: set<U>, f: T -> real, g: U -> real, rename: T -> U)
    requires forall x :: x in s ==> rename(x) in t && f(x) == g(rename(x))
    requires forall x, y :: x in s && y in s && rename(x) == rename(y) ==> x == y
    requires forall u :: u in t ==> exists x :: x in s && rename(x) == u
    ensures Sum(s, f) == Sum(t, g)
    decreases s
  {
    if s == {} {
      if u :| u in t {
        assert false;
      }
    } else {
      var x :| x in s;
      var u := rename(x);
      SumRemove(s, f, x);
      SumRemove(t, g, u);
      forall v | v in t - {u} ensures exists y :: y in s - {x} && rename(y) == v {
        var y :| y in s && rename(y) == v;
        assert y in s - {x};
      }
      SumReindex(s - {x}, t - {u}, f, g, rename);
    }
  }
}
