/** Two facts about the size of finite sets that several modules count with. */
module Counting {

  lemma {:induction false} SubsetCount(a: set<nat>, b: set<nat>)
    requires a <= b
    ensures |a| <= |b|
  {
    if a != {} {
      var x :| x in a;
      SubsetCount(a - {x}, b - {x});
    }
  }

  /** A set of k numbers below k holds every number below k. */
  lemma {:induction false} Pigeonhole(s: set<nat>, k: nat)
    requires (forall x :: x in s ==> x < k) && |s| == k
    ensures forall x: nat :: x < k ==> x in s
    decreases k
  {
    if k > 0 {
      if k - 1 in s {
        var rest := s - {k - 1};
        Pigeonhole(rest, k - 1);
        forall x: nat | x < k ensures x in s {
          assert x in rest || x == k - 1;
        }
      } else {
        Fits(s, k - 1);
      }
    }
  }

  lemma {:induction false} Fits(s: set<nat>, k: nat)
    requires forall x :: x in s ==> x < k
    ensures |s| <= k
    decreases k
  {
    if k > 0 {
      Fits(s - {k - 1}, k - 1);
    } else {
      assert s == {};
    }
  }
}
