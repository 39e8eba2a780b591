/** Linear search, as all the scans of the program do it. */
module Seqs {

  /** The first position whose element is `good`, or the length when there is none. */
  function FirstIndex<T(!new)>(s: seq<T>, good: T -> bool): (i: nat)
    ensures i <= |s|
    ensures forall j :: 0 <= j < i ==> !good(s[j])
    ensures i < |s| ==> good(s[i])
  {
    if s == [] || good(s[0]) then 0 else 1 + FirstIndex(s[1..], good)
  }
}
