/**
 * Go slice operations used by the selection: deleting one slot with
 * `append(s[:i], s[i+1:]...)`, seen both as a new slice and as the
 * backing array it rewrites.
 */
module Slices {

  /** The slice `s` with slot `i` deleted. */
  function Without<T>(s: seq<T>, i: nat): (r: seq<T>)
    requires i < |s|
    ensures |r| == |s| - 1
    ensures forall j :: 0 <= j < i ==> r[j] == s[j]
    ensures forall j :: i <= j < |r| ==> r[j] == s[j + 1]
  {
    s[..i] + s[i + 1..]
  }

  /** Deleting a slot removes exactly that one element and keeps all others. */
  lemma WithoutMultiset<T>(s: seq<T>, i: nat)
    requires i < |s|
    ensures multiset(Without(s, i)) + multiset{s[i]} == multiset(s)
  {
    assert s == s[..i] + [s[i]] + s[i + 1..];
  }

  /**
   * The whole backing array after `append(buf[:i], buf[i+1:len]...)`:
   * the tail of the slice moves one slot to the left, and slot `len - 1`
   * and everything after it keep their old values.
   */
  function RemoveAt<T>(buf: seq<T>, len: nat, i: nat): (r: seq<T>)
    requires i < len <= |buf|
    ensures |r| == |buf|
    ensures forall j :: 0 <= j < i ==> r[j] == buf[j]
    ensures forall j :: i <= j < len - 1 ==> r[j] == buf[j + 1]
    ensures forall j :: len - 1 <= j < |buf| ==> r[j] == buf[j]
  {
    Without(buf[..len], i) + buf[len - 1..]
  }

  /** The slice seen through the backing array after the deletion. */
  lemma RemoveAtPrefix<T>(buf: seq<T>, len: nat, i: nat)
    requires i < len <= |buf|
    ensures RemoveAt(buf, len, i)[..len - 1] == Without(buf[..len], i)
  {
  }

  /** The positions `0, 1, ..., n - 1`. */
  function Range(n: nat): (r: seq<nat>)
    ensures |r| == n
    ensures forall j :: 0 <= j < n ==> r[j] == j
  {
    if n == 0 then [] else Range(n - 1) + [n - 1]
  }
}
