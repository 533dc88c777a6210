/** Facts about sequences shared by the lookup, listing and seeding loops. */
module Seqs {

  /**
   * The length of the longest prefix of `s` whose elements all satisfy `ok`:
   * the position where a front-to-back loop that stops at the first element
   * failing `ok` comes to rest.
   */
  function PrefixWhile<T>(s: seq<T>, ok: T -> bool): (k: nat)
    ensures k <= |s|
    ensures forall i :: 0 <= i < k ==> ok(s[i])
    ensures k < |s| ==> !ok(s[k])
    decreases |s|
  {
    if |s| == 0 || !ok(s[0]) then 0 else 1 + PrefixWhile(s[1..], ok)
  }

  /** The prefix covers the whole sequence exactly when every element satisfies `ok`. */
  lemma PrefixWhileAll<T>(s: seq<T>, ok: T -> bool)
    ensures PrefixWhile(s, ok) == |s| <==> forall i :: 0 <= i < |s| ==> ok(s[i])
  {
  }
}
