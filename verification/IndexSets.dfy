/** Sizes of sets of sequence positions. */
module IndexSets {
  ghost predicate Between(s: set<nat>, lo: int, hi: int) {
    forall k: nat :: k in s ==> lo <= k <= hi
  }

  lemma {:induction false} RangeSize(s: set<nat>, lo: nat, hi: int)
    requires lo <= hi + 1 && Between(s, lo, hi)
    ensures |s| <= hi - lo + 1
    decreases hi - lo + 1
  {
    if s != {} {
      var k: nat :| k in s;
      RangeSize(s - {hi}, lo, hi - 1);
    }
  }

  lemma {:induction false} RangeIn(s: set<nat>, lo: nat, n: nat)
    requires lo <= n && forall k: nat :: lo <= k < n ==> k in s
    ensures |s| >= n - lo
    decreases n - lo
  {
    if lo < n {
      RangeIn(s - {lo}, lo + 1, n);
    }
  }

  lemma {:induction false} Ends(s: set<nat>, n: nat) returns (lo: nat, hi: nat)
    requires s != {} && Between(s, 0, n - 1)
    ensures lo in s && hi in s && Between(s, lo, hi) && hi < n
    decreases n
  {
    var k: nat :| k in s;
    var top: nat := n - 1;
    if top !in s {
      lo, hi := Ends(s, top);
    } else if s == {top} {
      lo, hi := top, top;
    } else {
      var rest := s - {top};
      lo, hi := Ends(rest, top);
      hi := top;
      forall k: nat | k in s ensures lo <= k <= hi {
        assert k == top || k in rest;
      }
    }
  }
}
