/** The smallest and largest element of a non-empty sequence of reals. */
module Extremes {

  function Lowest(s: seq<real>): (lo: real)
    requires |s| > 0
    ensures forall k :: 0 <= k < |s| ==> lo <= s[k]
    ensures exists k :: 0 <= k < |s| && lo == s[k]
  {
    if |s| == 1 then s[0]
    else
      var rest := Lowest(s[1..]);
      assert forall k :: 1 <= k < |s| ==> s[k] == s[1..][k - 1];
      if s[0] <= rest then s[0] else rest
  }

  function Highest(s: seq<real>): (hi: real)
    requires |s| > 0
    ensures forall k :: 0 <= k < |s| ==> s[k] <= hi
    ensures exists k :: 0 <= k < |s| && hi == s[k]
  {
    if |s| == 1 then s[0]
    else
      var rest := Highest(s[1..]);
      assert forall k :: 1 <= k < |s| ==> s[k] == s[1..][k - 1];
      if s[0] >= rest then s[0] else rest
  }
}
