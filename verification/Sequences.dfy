/** Sequence operations and the option type that the other modules share. */
module Sequences {

  datatype Option<+T> = None | Some(value: T)

  ghost function InsertAt<X>(s: seq<X>, k: nat, x: X): seq<X>
    requires k <= |s|
  {
    s[..k] + [x] + s[k..]
  }

  ghost function RemoveAt<X>(s: seq<X>, k: nat): seq<X>
    requires k < |s|
  {
    s[..k] + s[k + 1..]
  }

  /** Index of the first `x`, or the length when there is none. */
  ghost function IndexOf<X>(s: seq<X>, x: X): (k: nat)
    ensures k <= |s| && (k < |s| <==> x in s) && (k < |s| ==> s[k] == x)
    ensures forall i :: 0 <= i < k ==> s[i] != x
  {
    if s == [] || s[0] == x then 0 else 1 + IndexOf(s[1..], x)
  }

  /** The sequence with the first `x`, if any, taken out. */
  ghost function Without<X>(s: seq<X>, x: X): seq<X> {
    if x in s then RemoveAt(s, IndexOf(s, x)) else s
  }

  lemma Associative<X>(a: seq<X>, b: seq<X>, c: seq<X>)
    ensures a + (b + c) == (a + b) + c
  {
  }

  lemma RemovedSubset<X>(s: seq<X>, k: nat)
    requires k < |s|
    ensures forall x :: x in RemoveAt(s, k) ==> x in s
  {
  }

  lemma RemovedGone<X>(s: seq<X>, k: nat)
    requires k < |s| && forall i :: 0 <= i < |s| && i != k ==> s[i] != s[k]
    ensures s[k] !in RemoveAt(s, k)
  {
  }

  lemma IndexOfFirst<X>(s: seq<X>, x: X, k: nat)
    requires k < |s| && s[k] == x && x !in s[..k]
    ensures IndexOf(s, x) == k
  {
  }
}
