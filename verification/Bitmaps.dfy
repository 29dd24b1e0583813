/** Allocation maps: sequences of zeros and ones, and the number of ones. */
module Bitmaps {
  import opened Sums

  function Ones(s: seq<int>): int { Sum(s, ID) }

  predicate Bits(s: seq<int>) {
    forall i :: 0 <= i < |s| ==> s[i] == 0 || s[i] == 1
  }

  lemma {:induction false} BitsCount(s: seq<int>)
    requires Bits(s)
    ensures 0 <= Ones(s) <= |s|
    ensures Ones(s) == |s| <==> forall i :: 0 <= i < |s| ==> s[i] == 1
  {
    if s != [] {
      BitsCount(s[1..]);
      assert (forall i :: 0 <= i < |s| ==> s[i] == 1) <==> s[0] == 1 && forall i :: 0 <= i < |s[1..]| ==> s[1..][i] == 1
      by {
        assert forall i :: 0 < i < |s| ==> s[i] == s[1..][i - 1];
      }
    }
  }
}
