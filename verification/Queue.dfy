/** Queue.h: a FIFO list with removal by value. */
module Queues {
  import opened Chains
  import opened Sequences

  // ----- the queue as a sequence -----

  datatype Op<T> = Enqueue(x: T) | Dequeue | Remove(x: T)

  /** What an operation leaves of a queue. */
  ghost function Rest<T>(c: seq<T>, op: Op<T>): seq<T> {
    match op
    case Enqueue(x) => c + [x]
    case Dequeue => if c == [] then c else c[1..]
    case Remove(x) => Without(c, x)
  }

  /** What has gone in, what `dequeue` has handed out, what `remove` has dropped, what is left. */
  datatype Trace<T> = Trace(entered: seq<T>, left: seq<T>, dropped: seq<T>, rest: seq<T>)

  ghost function Perform<T>(t: Trace<T>, op: Op<T>): Trace<T> {
    var u := t.(rest := Rest(t.rest, op));
    match op
    case Enqueue(x) => u.(entered := t.entered + [x])
    case Dequeue => if t.rest == [] then u else u.(left := t.left + [t.rest[0]])
    case Remove(x) => if x in t.rest then u.(dropped := t.dropped + [x]) else u
  }

  ghost function PerformAll<T>(ops: seq<Op<T>>): Trace<T> {
    if ops == [] then Trace([], [], [], []) else Perform(PerformAll(ops[..|ops| - 1]), ops[|ops| - 1])
  }

  /** `a` can be obtained from `b` by leaving elements out. */
  ghost predicate Subsequence<T>(a: seq<T>, b: seq<T>) {
    if a == [] then true
    else if b == [] then false
    else
      var a', b' := a[..|a| - 1], b[..|b| - 1];
      (a[|a| - 1] == b[|b| - 1] && Subsequence(a', b')) || Subsequence(a, b')
  }

  lemma {:induction false} SubsequenceRemove<T>(a: seq<T>, b: seq<T>, k: nat)
    requires Subsequence(a, b) && k < |a|
    ensures Subsequence(RemoveAt(a, k), b)
  {
    var n, b' := |a| - 1, b[..|b| - 1];
    if Subsequence(a, b') {
      SubsequenceRemove(a, b', k);
    } else if k == n {
      assert RemoveAt(a, k) == a[..n];
    } else {
      SubsequenceRemove(a[..n], b', k);
      RemovePrefix(a, k);
    }
  }

  lemma RemovePrefix<T>(a: seq<T>, k: nat)
    requires k < |a| - 1
    ensures RemoveAt(a, k)[..|a| - 2] == RemoveAt(a[..|a| - 1], k) && RemoveAt(a, k)[|a| - 2] == a[|a| - 1]
  {
  }

  lemma SubsequenceAppend<T>(a: seq<T>, b: seq<T>, x: T)
    requires Subsequence(a, b)
    ensures Subsequence(a + [x], b + [x])
  {
  }

  lemma WithoutMultiset<T>(c: seq<T>, x: T)
    requires x in c
    ensures multiset(c) == multiset(Without(c, x)) + multiset{x}
  {
    var k := IndexOf(c, x);
    assert c == c[..k] + [x] + c[k + 1..];
  }

  /** First in, first out, whatever is removed in between: what was handed out, followed by what is
      left, appears in the order in which it went in.  And nothing is lost or made up. */
  ghost predicate Orderly<T>(t: Trace<T>) {
    && Subsequence(t.left + t.rest, t.entered)
    && multiset(t.entered) == multiset(t.left) + multiset(t.dropped) + multiset(t.rest)
  }

  lemma EnqueueOrderly<T>(t: Trace<T>, x: T)
    requires Orderly(t)
    ensures Orderly(Perform(t, Enqueue(x)))
  {
    SubsequenceAppend(t.left + t.rest, t.entered, x);
    Associative(t.left, t.rest, [x]);
    assert multiset(t.entered + [x]) == multiset(t.entered) + multiset{x};
    assert multiset(t.rest + [x]) == multiset(t.rest) + multiset{x};
  }

  lemma DequeueOrderly<T>(t: Trace<T>)
    requires Orderly(t)
    ensures Orderly(Perform(t, Dequeue))
  {
    if t.rest != [] {
      assert t.rest == [t.rest[0]] + t.rest[1..];
      assert (t.left + [t.rest[0]]) + t.rest[1..] == t.left + t.rest;
    }
  }

  lemma RemoveRight<T>(a: seq<T>, b: seq<T>, k: nat)
    requires k < |b|
    ensures a + RemoveAt(b, k) == RemoveAt(a + b, |a| + k)
  {
  }

  lemma RemoveInOrder<T>(left: seq<T>, rest: seq<T>, entered: seq<T>, k: nat)
    requires Subsequence(left + rest, entered) && k < |rest|
    ensures Subsequence(left + RemoveAt(rest, k), entered)
  {
    SubsequenceRemove(left + rest, entered, |left| + k);
    RemoveRight(left, rest, k);
  }

  lemma RemoveOrderly<T>(t: Trace<T>, x: T)
    requires Orderly(t)
    ensures Orderly(Perform(t, Remove(x)))
  {
    if x in t.rest {
      RemoveInOrder(t.left, t.rest, t.entered, IndexOf(t.rest, x));
      WithoutMultiset(t.rest, x);
    }
  }

  /** What a run puts into the queue, in order. */
  ghost function Entered<T>(ops: seq<Op<T>>): seq<T> {
    if ops == [] then []
    else Entered(ops[..|ops| - 1]) + if ops[|ops| - 1].Enqueue? then [ops[|ops| - 1].x] else []
  }

  lemma {:induction false} Fifo<T>(ops: seq<Op<T>>)
    ensures Orderly(PerformAll(ops)) && PerformAll(ops).entered == Entered(ops)
  {
    if ops != [] {
      var t := PerformAll(ops[..|ops| - 1]);
      Fifo(ops[..|ops| - 1]);
      match ops[|ops| - 1]
      case Enqueue(x) => EnqueueOrderly(t, x);
      case Dequeue => DequeueOrderly(t);
      case Remove(x) => RemoveOrderly(t, x);
    }
  }

  /** Without removals the order is complete. */
  lemma {:induction false} FifoExact<T>(ops: seq<Op<T>>)
    requires forall op :: op in ops ==> !op.Remove?
    ensures var t := PerformAll(ops); t.left + t.rest == t.entered
  {
    if ops != [] {
      FifoExact(ops[..|ops| - 1]);
      assert ops[|ops| - 1] in ops;
      var t, u := PerformAll(ops[..|ops| - 1]), PerformAll(ops);
      if t.rest != [] {
      }
    }
  }

  // ----- the queue in memory -----

  class Queue<T(==)> {
    var front: Node?<T>
    var back: Node?<T>
    var size: int
    const nullValue: T
    ghost var nodes: seq<Node<T>>
    ghost var contents: seq<T>

    /** `front` leads to all nodes, but `back` and `size` are off by what failed allocations did. */
    ghost predicate Linked()
      reads this, nodes
    {
      Chain(nodes, contents) && front == First(nodes)
    }

    ghost predicate Valid()
      reads this, nodes
    {
      Linked() && back == Final(nodes) && size == |nodes|
    }

    constructor (nullValue: T)
      ensures Valid() && contents == [] && this.nullValue == nullValue
    {
      front, back, size := null, null, 0;
      this.nullValue := nullValue;
      nodes, contents := [], [];
    }

    method Initialize()
      modifies this
      ensures Valid() && contents == []
    {
      front, back, size := null, null, 0;
      nodes, contents := [], [];
    }

    /** The queue stays sound exactly when the allocation succeeds: `size` is bumped first, and a
        failed allocation replaces `back` by null.  A later element then takes the place of all
        the others, while `size` goes on counting them. */
    method Enqueue(x: T, haveMemory: bool)
      requires Linked() && (back == null || back == Final(nodes))
      modifies this, nodes
      ensures Linked() && size == old(size) + 1 && back == if haveMemory then Final(nodes) else null
      ensures contents == (if old(back) == null then [] else old(contents)) + if haveMemory then [x] else []
      ensures old(Valid()) && haveMemory ==> contents == Rest(old(contents), Op.Enqueue(x))
      ensures old(Valid()) ==> (Valid() <==> haveMemory)
      ensures forall n :: n in nodes ==> n in old(nodes) || fresh(n)
    {
      size := size + 1;
      var node: Node?<T> := null;
      if haveMemory {
        node := new Node<T>(x, null);
      }
      if back == null {
        front, back := node, node;
        nodes, contents := [], [];
      } else {
        ChainApart(nodes, contents, |nodes| - 1);
        back.next := node;
        back := node;
      }
      if haveMemory {
        AppendChain(nodes, contents, node);
        nodes, contents := nodes + [node], contents + [x];
      }
    }

    method Dequeue() returns (x: T)
      requires Valid()
      modifies this
      ensures Valid()
      ensures contents == Rest(old(contents), Op.Dequeue)
      ensures x == if old(contents) == [] then nullValue else old(contents)[0]
      ensures forall n :: n in nodes ==> n in old(nodes)
    {
      if size == 0 {
        return nullValue;
      }
      var next := front.next;
      size := size - 1;
      x := front.value;
      if size == 0 {
        front, back := null, null;
      } else {
        front := next;
      }
      TailChain(nodes, contents);
      nodes, contents := nodes[1..], contents[1..];
    }

    /** The search of `remove`: the first node that carries `x`, with its neighbours. */
    method Search(x: T) returns (prev: Node?<T>, curr: Node?<T>, next: Node?<T>)
      requires Linked()
      ensures var k := IndexOf(contents, x);
              && curr == (if k < |nodes| then nodes[k] else null)
              && prev == (if k > 0 then nodes[k - 1] else null)
              && next == if k < |nodes| then After(nodes, k) else null
    {
      prev, curr, next := null, front, null;
      ghost var k := 0;
      while curr != null
        invariant 0 <= k <= |nodes| && forall i :: 0 <= i < k ==> contents[i] != x
        invariant curr == if k < |nodes| then nodes[k] else null
        invariant prev == if k > 0 then nodes[k - 1] else null
        invariant next == if k > 0 then curr else null
        decreases |nodes| - k
      {
        next := curr.next;
        if curr.value == x {
          break;
        }
        prev := curr;
        curr := next;
        k := k + 1;
      }
    }

    /** Takes `curr` out of the chain; `front` and `back` may still point at it. */
    method Bypass(prev: Node?<T>, curr: Node<T>, next: Node?<T>, ghost k: nat)
      requires Valid() && k < |nodes| && nodes[k] == curr && next == After(nodes, k)
      requires prev == if k > 0 then nodes[k - 1] else null
      modifies prev, this`size, this`nodes, this`contents
      ensures contents == RemoveAt(old(contents), k) && forall n :: n in nodes ==> n in old(nodes)
      ensures Chain(nodes, contents) && size == |nodes|
      ensures if prev == null then next == First(nodes) else front == First(nodes)
      ensures if next == null then prev == Final(nodes) else back == Final(nodes)
    {
      if k > 0 {
        ChainApart(nodes, contents, k - 1);
      }
      if prev != null {
        prev.next := next;
      }
      size := size - 1;
      BypassChain(nodes, contents, k);
      RemovedEnds(nodes, k);
      RemovedSubset(nodes, k);
      nodes, contents := RemoveAt(nodes, k), RemoveAt(contents, k);
    }

    /** The end of `remove`: puts `front` and `back` right when an end of the chain has gone. */
    method FixEnds(prev: Node?<T>, next: Node?<T>)
      requires Chain(nodes, contents) && size == |nodes|
      requires if prev == null then next == First(nodes) else front == First(nodes)
      requires if next == null then prev == Final(nodes) else back == Final(nodes)
      modifies this`front, this`back
      ensures Valid()
    {
      if size == 0 {
        front, back := null, null;
      } else {
        if prev == null {
          front := next;
        }
        if next == null {
          back := prev;
        }
      }
    }

    method Remove(x: T)
      requires Valid()
      modifies this, nodes
      ensures Valid() && contents == Rest(old(contents), Op.Remove(x))
      ensures x !in old(contents) ==> contents == old(contents) && nodes == old(nodes)
      ensures x in old(contents) ==>
                exists k :: 0 <= k < |old(contents)| && old(contents)[k] == x && x !in old(contents)[..k]
                            && contents == old(contents)[..k] + old(contents)[k + 1..]
      ensures forall n :: n in nodes ==> n in old(nodes)
    {
      var prev, curr, next := Search(x);
      ghost var k := IndexOf(contents, x);
      if curr != null {
        Bypass(prev, curr, next, k);
      }
      FixEnds(prev, next);
    }

    /** Any sequence of operations, as long as memory lasts: what `dequeue` hands out and what stays
        in the queue are those of the same operations on a sequence, and come in Fifo order. */
    method Run(ops: seq<Op<T>>) returns (left: seq<T>)
      requires Valid() && contents == []
      modifies this, nodes
      ensures Valid() && contents == PerformAll(ops).rest && left == PerformAll(ops).left
      ensures Orderly(PerformAll(ops).(left := left, rest := contents))
    {
      left := [];
      ghost var was := nodes;
      for i := 0 to |ops|
        invariant Valid() && contents == PerformAll(ops[..i]).rest && left == PerformAll(ops[..i]).left
        invariant forall n :: n in nodes ==> n in was || fresh(n)
      {
        assert ops[..i + 1][..i] == ops[..i];
        assert forall j :: 0 <= j < |nodes| ==> nodes[j] in nodes;
        match ops[i]
        case Enqueue(x) => Enqueue(x, true);
        case Dequeue =>
          if size == 0 {
            var _ := Dequeue();
          } else {
            var x := Dequeue();
            left := left + [x];
          }
        case Remove(x) => Remove(x);
      }
      assert ops[..|ops|] == ops;
      Fifo(ops);
    }
  }
}
