/** Sizes of finite sets. */
module Sets {

  lemma {:induction false} SubsetSize<T>(a: set<T>, b: set<T>)
    requires a <= b
    ensures |a| <= |b|
    ensures a != b ==> |a| < |b|
  {
    if x :| x in a {
      SubsetSize(a - {x}, b - {x});
      assert a == (a - {x}) + {x} && b == (b - {x}) + {x};
    }
  }

  /** Counting the chosen elements among those seen, one more at a time. */
  lemma OneMoreSeen<T>(seen: set<T>, x: T, chosen: set<T>)
    requires x !in seen
    ensures |(seen + {x}) * chosen| == |seen * chosen| + (if x in chosen then 1 else 0)
  {
    if x in chosen {
      assert (seen + {x}) * chosen == (seen * chosen) + {x};
    } else {
      assert (seen + {x}) * chosen == seen * chosen;
    }
  }
}
