/** Sizes of finite sets. */
module Sets {

  lemma SubsetSize<T>(a: set<T>, b: set<T>)
    requires a <= b
    ensures |a| <= |b|
  {
    if a != {} {
      var x :| x in a;
      SubsetSize(a - {x}, b - {x});
    }
  }

  lemma OneLess<T>(a: set<T>, x: T)
    ensures |a - {x}| == |a| - if x in a then 1 else 0
  {
    if x !in a {
      assert a - {x} == a;
    }
  }
}
