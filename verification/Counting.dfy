/** Counting arguments shared by the other modules. */
module Counting {

  ghost predicate Distinct<T>(s: seq<T>) {
    forall i, j :: 0 <= i < j < |s| ==> s[i] != s[j]
  }

  ghost function Elements<T>(s: seq<T>): set<T> {
    set x | x in s
  }

  lemma {:induction false} ElementsSize<T>(s: seq<T>)
    ensures |Elements(s)| <= |s|
    ensures Distinct(s) ==> |Elements(s)| == |s|
  {
    if s != [] {
      var front, last := s[..|s| - 1], s[|s| - 1];
      ElementsSize(front);
      assert Elements(s) == Elements(front) + {last};
      if Distinct(s) {
        assert last !in front;
      }
    }
  }

  lemma SubsetSize<T>(a: set<T>, b: set<T>)
    requires a <= b
    ensures |a| <= |b|
  {
    assert b == a + (b - a);
  }

  /** The numbers below k. */
  ghost function Below(k: nat): (r: set<nat>)
    ensures |r| == k && forall i :: i in r <==> 0 <= i < k
  {
    if k == 0 then {} else Below(k - 1) + {k - 1}
  }

  /** Numbers from lo up to hi are at most hi - lo many, and as many exactly if none is missing. */
  lemma RangeSize(s: set<nat>, lo: nat, hi: nat)
    requires lo <= hi && forall b :: b in s ==> lo <= b < hi
    ensures |s| <= hi - lo && (|s| >= hi - lo <==> forall b :: lo <= b < hi ==> b in s)
  {
    var all := Below(hi) - Below(lo);
    assert Below(lo) <= Below(hi) && Below(hi) == Below(lo) + all;
    assert all == s + (all - s);
    if forall b :: lo <= b < hi ==> b in s {
      assert s == all;
    }
  }

  /** The pigeonhole principle: distinct elements drawn from b are at most |b| many. */
  lemma DistinctWithin<T>(a: seq<T>, b: seq<T>)
    requires Distinct(a) && forall x :: x in a ==> x in b
    ensures |a| <= |b|
  {
    ElementsSize(a);
    ElementsSize(b);
    SubsetSize(Elements(a), Elements(b));
  }
}
