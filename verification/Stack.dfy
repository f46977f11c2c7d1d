/** Stack.h: a LIFO list that also remembers its oldest node. */
module Stacks {
  import opened Chains
  import opened Sequences

  // ----- the stack as a sequence, newest element first -----

  datatype Op<T> = Push(x: T) | Pop

  /** `None` when a `pop` would find the stack empty, which callers have to rule out. */
  ghost function Perform<T>(c: seq<T>, op: Op<T>): Option<seq<T>> {
    match op
    case Push(x) => Some([x] + c)
    case Pop => if c == [] then None else Some(c[1..])
  }

  ghost function PerformAll<T>(c: seq<T>, ops: seq<Op<T>>): Option<seq<T>> {
    if ops == [] then Some(c)
    else
      match PerformAll(c, ops[..|ops| - 1])
      case None => None
      case Some(d) => Perform(d, ops[|ops| - 1])
  }

  /** What the pops of a run hand out, in order. */
  ghost function Popped<T>(c: seq<T>, ops: seq<Op<T>>): seq<T>
    requires PerformAll(c, ops).Some?
  {
    if ops == [] then []
    else
      var init := ops[..|ops| - 1];
      Popped(c, init) + if ops[|ops| - 1].Pop? then [PerformAll(c, init).value[0]] else []
  }

  lemma {:induction false} Possible<T>(c: seq<T>, ops: seq<Op<T>>, n: nat)
    requires PerformAll(c, ops).Some? && n <= |ops|
    ensures PerformAll(c, ops[..n]).Some?
  {
    if n == |ops| {
      assert ops[..n] == ops;
    } else {
      var init := ops[..|ops| - 1];
      Possible(c, init, n);
      assert init[..n] == ops[..n];
    }
  }

  /** A run that never empties the upper part leaves what lies below it alone. */
  lemma {:induction false} Undisturbed<T>(c: seq<T>, d: seq<T>, ops: seq<Op<T>>)
    requires PerformAll(c, ops).Some?
    ensures PerformAll(c + d, ops) == Some(PerformAll(c, ops).value + d)
  {
    if ops != [] {
      var init, op := ops[..|ops| - 1], ops[|ops| - 1];
      Undisturbed(c, d, init);
      var e := PerformAll(c, init).value;
      assert op.Push? ==> [op.x] + (e + d) == ([op.x] + e) + d;
      assert op.Pop? ==> (e + d)[1..] == e[1..] + d;
    }
  }

  lemma {:induction false} Compose<T>(c: seq<T>, a: seq<Op<T>>, b: seq<Op<T>>)
    requires PerformAll(c, a).Some?
    ensures PerformAll(c, a + b) == PerformAll(PerformAll(c, a).value, b)
  {
    if b == [] {
      assert a + b == a;
    } else {
      Compose(c, a, b[..|b| - 1]);
      assert (a + b)[..|a + b| - 1] == a + b[..|b| - 1];
    }
  }

  lemma PoppedLast<T>(c: seq<T>, ops: seq<Op<T>>)
    requires PerformAll(c, ops).Some? && PerformAll(c, ops).value != []
    ensures PerformAll(c, ops + [Pop]).Some?
    ensures Popped(c, ops + [Pop]) == Popped(c, ops) + [PerformAll(c, ops).value[0]]
  {
    assert (ops + [Pop])[..|ops|] == ops;
  }

  /** Last in, first out: once everything pushed after `x` has been popped, the next pop is the one
      that removes `x`, and the stack is back to what it was. */
  lemma {:induction false} Lifo<T>(c: seq<T>, x: T, ops: seq<Op<T>>)
    requires PerformAll([], ops) == Some([])
    ensures PerformAll(c, [Push(x)] + ops) == Some([x] + c)
    ensures PerformAll(c, [Push(x)] + ops + [Pop]) == Some(c)
    ensures Popped(c, [Push(x)] + ops + [Pop]) == Popped([], ops) + [x]
  {
    Compose(c, [Push(x)], ops);
    Undisturbed([], [x] + c, ops);
    assert [] + ([x] + c) == [x] + c;
    PoppedCompose(c, [Push(x)], ops);
    PoppedUndisturbed([], [x] + c, ops);
    PoppedLast(c, [Push(x)] + ops);
  }

  lemma {:induction false} PoppedUndisturbed<T>(c: seq<T>, d: seq<T>, ops: seq<Op<T>>)
    requires PerformAll(c, ops).Some? && PerformAll(c + d, ops).Some?
    ensures Popped(c + d, ops) == Popped(c, ops)
  {
    if ops != [] {
      var init := ops[..|ops| - 1];
      PoppedUndisturbed(c, d, init);
      Undisturbed(c, d, init);
    }
  }

  lemma {:induction false} PoppedCompose<T>(c: seq<T>, a: seq<Op<T>>, b: seq<Op<T>>)
    requires PerformAll(c, a).Some? && PerformAll(c, a + b).Some? && PerformAll(PerformAll(c, a).value, b).Some?
    ensures Popped(c, a + b) == Popped(c, a) + Popped(PerformAll(c, a).value, b)
  {
    if b == [] {
      assert a + b == a;
    } else {
      var init := b[..|b| - 1];
      assert (a + b)[..|a + b| - 1] == a + init;
      Compose(c, a, init);
      PoppedCompose(c, a, init);
    }
  }

  /** The oldest element stays the oldest until the stack has been emptied. */
  lemma {:induction false} OldestStays<T>(c: seq<T>, ops: seq<Op<T>>)
    requires c != [] && PerformAll(c[..|c| - 1], ops).Some?
    ensures PerformAll(c, ops) == Some(PerformAll(c[..|c| - 1], ops).value + [c[|c| - 1]])
  {
    var upper, oldest := c[..|c| - 1], [c[|c| - 1]];
    assert c == upper + oldest;
    Undisturbed(upper, oldest, ops);
  }

  // ----- the stack in memory -----

  class Stack<T> {
    var top: Node?<T>
    var bottom: Node?<T>
    var size: int
    ghost var nodes: seq<Node<T>>
    ghost var contents: seq<T>

    ghost predicate Linked()
      reads this, nodes
    {
      Chain(nodes, contents) && top == First(nodes)
    }

    ghost predicate Valid()
      reads this, nodes
    {
      Linked() && bottom == Final(nodes) && size == |nodes|
    }

    constructor ()
      ensures Valid() && contents == []
    {
      top, bottom, size := null, null, 0;
      nodes, contents := [], [];
    }

    method Initialize()
      modifies this
      ensures Valid() && contents == []
    {
      top, bottom, size := null, null, 0;
      nodes, contents := [], [];
    }

    /** The stack stays sound exactly when the allocation succeeds.  A failed one overwrites `top`,
        and with it goes the way to every node; `size` has been bumped all the same. */
    method Push(x: T, haveMemory: bool)
      requires Linked()
      modifies this
      ensures Linked() && size == old(size) + 1
      ensures contents == if haveMemory then [x] + old(contents) else []
      ensures old(Valid()) ==> (Valid() <==> haveMemory)
      ensures old(Valid()) && haveMemory ==> Perform(old(contents), Op.Push(x)) == Some(contents)
      ensures bottom == if old(contents) == [] then top else old(bottom)
      ensures nodes == if haveMemory then [top] + old(nodes) else []
    {
      size := size + 1;
      var node: Node?<T> := null;
      if top == null {
        if haveMemory {
          node := new Node<T>(x, null);
        }
        bottom, top := node, node;
      } else {
        var next := top;
        if haveMemory {
          node := new Node<T>(x, next);
        }
        top := node;
      }
      if haveMemory {
        PrependChain(nodes, contents, node);
        nodes, contents := [node] + nodes, [x] + contents;
      } else {
        nodes, contents := [], [];
      }
    }

    method Pop() returns (x: T)
      requires Valid() && size > 0
      modifies this
      ensures Valid() && x == old(contents)[0]
      ensures Perform(old(contents), Op.Pop) == Some(contents) && nodes == old(nodes)[1..]
      ensures bottom == if contents == [] then null else old(bottom)
    {
      var next := top.next;
      size := size - 1;
      x := top.value;
      if size == 0 {
        top, bottom := null, null;
      } else {
        top := next;
      }
      TailChain(nodes, contents);
      nodes, contents := nodes[1..], contents[1..];
    }

    /** Any sequence of operations that never pops an empty stack, as long as memory lasts: what is
        handed out and what stays are those of the same operations on a sequence. */
    method Run(ops: seq<Op<T>>) returns (popped: seq<T>)
      requires Valid() && PerformAll(contents, ops).Some?
      modifies this
      ensures Valid() && PerformAll(old(contents), ops) == Some(contents)
      ensures popped == Popped(old(contents), ops)
    {
      popped := [];
      for i := 0 to |ops|
        invariant Valid() && PerformAll(old(contents), ops[..i]) == Some(contents)
        invariant popped == Popped(old(contents), ops[..i])
      {
        assert ops[..i + 1][..i] == ops[..i];
        Possible(old(contents), ops, i + 1);
        match ops[i]
        case Push(x) => Push(x, true);
        case Pop =>
          var x := Pop();
          popped := popped + [x];
      }
      assert ops[..|ops|] == ops;
    }
  }
}
