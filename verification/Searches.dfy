/** Searches over a list. */
module Searches {

  /** The first element with a property, from a position on; the length if there is none. */
  function First<T>(s: seq<T>, has: T -> bool, from: nat): (i: nat)
    requires from <= |s|
    ensures from <= i <= |s|
    ensures i < |s| ==> has(s[i])
    ensures forall j :: from <= j < i ==> !has(s[j])
    decreases |s| - from
  {
    if from == |s| || has(s[from]) then from else First(s, has, from + 1)
  }
}
