/** Small facts about finite sets that several modules share. */
module Sets {

  ghost function Pick<T>(s: set<T>): (x: T)
    requires s != {}
    ensures x in s
  {
    var x :| x in s;
    x
  }

  /** A set and its image under an injective function have the same size. */
  lemma {:induction false} Bijection<T, U>(a: set<T>, b: set<U>, f: T -> U)
    requires forall x, y :: x in a && y in a && f(x) == f(y) ==> x == y
    requires b == set x | x in a :: f(x)
    ensures |b| == |a|
    decreases |a|
  {
    if a != {} {
      var x := Pick(a);
      assert b - {f(x)} == set y | y in a - {x} :: f(y);
      Bijection(a - {x}, b - {f(x)}, f);
    }
  }
}
