/** First-match search over a sequence, the shape of every `for ... range` loop with an early return. */
module Seqs {

  /** The position of the first element satisfying `p`, or `|s|` when none does. */
  function FirstIndex<T>(s: seq<T>, p: T -> bool): (k: nat)
    ensures k <= |s|
    ensures forall j :: 0 <= j < k ==> !p(s[j])
    ensures k < |s| ==> p(s[k])
  {
    if s == [] then 0
    else if p(s[0]) then 0
    else 1 + FirstIndex(s[1..], p)
  }

  /** The first-match position is determined by the elements before it failing and the one at it passing. */
  lemma FirstIndexAt<T>(s: seq<T>, p: T -> bool, i: nat)
    requires i <= |s|
    requires forall j :: 0 <= j < i ==> !p(s[j])
    requires i < |s| ==> p(s[i])
    ensures FirstIndex(s, p) == i
  {
  }
}
