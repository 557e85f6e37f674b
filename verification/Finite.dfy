/** Sizes of finite sets. */
module Finite {

  lemma Element<T>(a: set<T>) returns (x: T)
    requires a != {}
    ensures x in a
  {
    x :| x in a;
  }

  /** An element in no particular order, and the others. */
  method Pick<T(==)>(a: set<T>) returns (x: T, rest: set<T>)
    requires a != {}
    ensures x in a && rest == a - {x} && |rest| < |a|
  {
    x :| x in a;
    rest := a - {x};
  }

  lemma OneMore<T>(a: set<T>, b: set<T>, x: T)
    requires x !in a && b == a + {x}
    ensures |b| == |a| + 1
  {
  }

  lemma OneLess<T>(a: set<T>, b: set<T>, x: T)
    requires b == a - {x}
    ensures |b| == |a| - if x in a then 1 else 0
  {
    if x in a { OneMore(b, a, x); } else { assert b == a; }
  }

  /** A one-to-one map from one finite set into another. */
  lemma {:induction false} AtMostAsMany<A, B>(a: set<A>, b: set<B>, f: map<A, B>)
    requires forall x :: x in a ==> x in f && f[x] in b
    requires forall x, y :: x in a && y in a && x != y ==> f[x] != f[y]
    ensures |a| <= |b|
  {
    if a == {} {
    } else {
      var x := Element(a);
      AtMostAsMany(a - {x}, b - {f[x]}, f);
    }
  }
}
