/** How often a number occurs in a sequence. */
module Counting {
  import opened Sequences

  function Occurs(s: seq<int>, x: int): nat {
    if s == [] then 0 else (if s[0] == x then 1 else 0) + Occurs(s[1..], x)
  }

  lemma {:induction false} OccursConcat(a: seq<int>, b: seq<int>, x: int)
    ensures Occurs(a + b, x) == Occurs(a, x) + Occurs(b, x)
  {
    if a == [] {
      assert a + b == b;
    } else {
      OccursConcat(a[1..], b, x);
      assert (a + b)[1..] == a[1..] + b;
    }
  }

  lemma {:induction false} OccursIsMultiset(s: seq<int>, x: int)
    ensures multiset(s)[x] == Occurs(s, x)
  {
    if s != [] {
      OccursIsMultiset(s[1..], x);
      assert s == [s[0]] + s[1..];
    }
  }

  lemma {:induction false} OccursAtLeastOnce(s: seq<int>, i: nat)
    requires i < |s|
    ensures Occurs(s, s[i]) >= 1
    ensures forall j | i < j < |s| && s[j] == s[i] :: Occurs(s, s[i]) >= 2
  {
    if i > 0 {
      OccursAtLeastOnce(s[1..], i - 1);
      assert forall j | i < j < |s| :: s[j] == s[1..][j - 1];
    } else {
      forall j | 0 < j < |s| && s[j] == s[0]
        ensures Occurs(s, s[0]) >= 2
      {
        OccursAtLeastOnce(s[1..], j - 1);
      }
    }
  }

  lemma {:induction false} OccursNowhere(s: seq<int>, x: int)
    requires x !in s
    ensures Occurs(s, x) == 0
  {
    if s != [] {
      OccursNowhere(s[1..], x);
    }
  }

  lemma {:induction false} OccursAtMostOnce(s: seq<int>, x: int)
    requires Distinct(s)
    ensures Occurs(s, x) <= 1
  {
    if s != [] {
      OccursAtMostOnce(s[1..], x);
      if s[0] == x {
        OccursNowhere(s[1..], x);
      }
    }
  }

  /** Membership and distinctness, read off the counts. */
  lemma OccursTells(s: seq<int>)
    ensures forall x :: x in s <==> Occurs(s, x) >= 1
    ensures (forall x :: Occurs(s, x) <= 1) <==> Distinct(s)
  {
    forall x
      ensures x in s <==> Occurs(s, x) >= 1
      ensures Distinct(s) ==> Occurs(s, x) <= 1
    {
      if x in s {
        var i :| 0 <= i < |s| && s[i] == x;
        OccursAtLeastOnce(s, i);
      } else {
        OccursNowhere(s, x);
      }
      if Distinct(s) {
        OccursAtMostOnce(s, x);
      }
    }
    if i, j :| 0 <= i < j < |s| && s[i] == s[j] {
      OccursAtLeastOnce(s, i);
    }
  }
}
