module Sets {

  lemma SubsetSize<T>(x: set<T>, y: set<T>)
    requires x <= y
    ensures |x| <= |y| && |y - x| == |y| - |x|
  {
    assert y == x + (y - x);
  }

  /** Taking one element off the list of those left to count. */
  lemma OneMore<T>(all: set<T>, todo: set<T>, x: T)
    requires x in todo
    ensures |all - (todo - {x})| == |all - todo| + if x in all then 1 else 0
  {
    assert all - (todo - {x}) == if x in all then all - todo + {x} else all - todo;
  }
}
