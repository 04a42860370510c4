/** Sizes of finite sets. */
module Sets {

  /** A subset is no larger, leaves the difference, and is the whole when it is as large. */
  lemma SubsetSize<T>(part: set<T>, all: set<T>)
    requires part <= all
    ensures |all - part| == |all| - |part|
    ensures |part| <= |all|
    ensures |part| == |all| ==> part == all
  {
    assert all == part + (all - part);
  }
}
