/** Python dictionaries keep their keys in insertion order. The model keeps
    such a dictionary as a list of entries, and a lookup is the position of
    the first entry with the key. */
module Dicts {

  /** Where `k` first occurs in `keys`, or `|keys|` when it does not occur. */
  function FirstIndex(keys: seq<string>, k: string): (j: nat)
    ensures j <= |keys|
    ensures j < |keys| ==> keys[j] == k
    ensures forall i :: 0 <= i < j ==> keys[i] != k
  {
    if keys == [] then 0 else if keys[0] == k then 0 else 1 + FirstIndex(keys[1..], k)
  }

  /** The three facts above single out one position. */
  lemma FirstIndexIs(keys: seq<string>, k: string, j: nat)
    requires j <= |keys| && (j < |keys| ==> keys[j] == k)
    requires forall i :: 0 <= i < j ==> keys[i] != k
    ensures FirstIndex(keys, k) == j
  {
  }
}
