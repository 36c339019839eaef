/** Facts about finite sets: picking an element, counting, and intersecting majorities. */
module Sets {

  lemma PickOne(s: set<int>)
    ensures s != {} ==> exists x :: x in s
  {
    if forall x :: x !in s {
      assert s == {};
    }
  }

  lemma {:induction false} SubsetSize(a: set<int>, b: set<int>)
    requires a <= b
    ensures |a| <= |b|
  {
    if a != {} {
      PickOne(a);
      var x :| x in a;
      SubsetSize(a - {x}, b - {x});
    }
  }

  /** Two majorities of one set share a member. */
  lemma QuorumsIntersect(all: set<int>, q: set<int>, r: set<int>)
    requires q <= all && r <= all
    requires |q| >= |all| / 2 + 1 && |r| >= |all| / 2 + 1
    ensures exists x :: x in q && x in r
  {
    assert |q + r| + |q * r| == |q| + |r|;
    SubsetSize(q + r, all);
    PickOne(q * r);
    var x :| x in q * r;
    assert x in q && x in r;
  }
}
