/** The null-terminated, singly linked chains that Queue.h and Stack.h build. */
module Chains {
  import opened Sequences

  class Node<T> {
    var value: T
    var next: Node?<T>

    constructor (value: T, next: Node?<T>)
      ensures this.value == value && this.next == next
    {
      this.value, this.next := value, next;
    }
  }

  ghost function First<T>(s: seq<Node<T>>): Node?<T> {
    if s == [] then null else s[0]
  }

  ghost function Final<T>(s: seq<Node<T>>): Node?<T> {
    if s == [] then null else s[|s| - 1]
  }

  ghost function After<T>(s: seq<Node<T>>, i: nat): Node?<T> {
    if i + 1 < |s| then s[i + 1] else null
  }

  /** Following `next` from `s[0]` visits `s`, whose nodes carry `c`, and ends at null. */
  ghost predicate Chain<T>(s: seq<Node<T>>, c: seq<T>)
    reads s
  {
    && |s| == |c|
    && (forall i {:trigger s[i].next} :: 0 <= i < |s| ==> s[i].next == After(s, i))
    && (forall i {:trigger s[i].value} :: 0 <= i < |s| ==> s[i].value == c[i])
  }

  /** The heap leaves no choice: a chain is determined by its first node. */
  lemma {:induction false} ChainUnique<T>(s: seq<Node<T>>, c: seq<T>, t: seq<Node<T>>, d: seq<T>)
    requires Chain(s, c) && Chain(t, d) && First(s) == First(t)
    ensures s == t && c == d
  {
    if s != [] {
      assert s[0].value == c[0] && t[0].value == d[0];
      assert First(s[1..]) == s[0].next == t[0].next == First(t[1..]);
      TailChain(s, c);
      TailChain(t, d);
      ChainUnique(s[1..], c[1..], t[1..], d[1..]);
    }
  }

  lemma TailChain<T>(s: seq<Node<T>>, c: seq<T>)
    requires Chain(s, c) && s != []
    ensures Chain(s[1..], c[1..])
  {
  }

  /** Being null-terminated, a chain cannot pass through a node twice. */
  lemma ChainApart<T>(s: seq<Node<T>>, c: seq<T>, k: nat)
    requires Chain(s, c) && k < |s|
    ensures forall i :: 0 <= i < |s| && i != k ==> s[i] != s[k]
  {
    forall i | 0 <= i < |s| && i != k ensures s[i] != s[k] {
      if s[i] == s[k] {
        Suffix(s, c, i);
        Suffix(s, c, k);
        ChainUnique(s[i..], c[i..], s[k..], c[k..]);
      }
    }
  }

  lemma Suffix<T>(s: seq<Node<T>>, c: seq<T>, k: nat)
    requires Chain(s, c) && k < |s|
    ensures Chain(s[k..], c[k..])
  {
  }

  lemma AppendChain<T>(s: seq<Node<T>>, c: seq<T>, n: Node<T>)
    requires |s| == |c| && n.next == null
    requires forall i {:trigger s[i].value} :: 0 <= i < |s| ==> s[i].value == c[i]
    requires forall i {:trigger s[i].next} :: 0 <= i < |s| ==> s[i].next == After(s + [n], i)
    ensures Chain(s + [n], c + [n.value])
  {
  }

  lemma PrependChain<T>(s: seq<Node<T>>, c: seq<T>, n: Node<T>)
    requires Chain(s, c) && n.next == First(s)
    ensures Chain([n] + s, [n.value] + c)
  {
  }

  lemma RemovedEnds<T>(s: seq<Node<T>>, k: nat)
    requires k < |s|
    ensures First(RemoveAt(s, k)) == if k == 0 then After(s, 0) else First(s)
    ensures Final(RemoveAt(s, k)) == if k + 1 < |s| then Final(s) else if k > 0 then s[k - 1] else null
  {
  }

  /** Element `k` is bypassed: its predecessor, if any, points at its successor. */
  lemma BypassChain<T>(s: seq<Node<T>>, c: seq<T>, k: nat)
    requires |s| == |c| && k < |s|
    requires forall i {:trigger s[i].value} :: 0 <= i < |s| ==> s[i].value == c[i]
    requires forall i {:trigger s[i].next} :: 0 <= i < |s| ==> s[i].next == After(s, if i + 1 == k then k else i)
    ensures Chain(RemoveAt(s, k), RemoveAt(c, k))
  {
  }
}
