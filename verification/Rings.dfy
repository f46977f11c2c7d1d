/** The intrusive circular lists of list_utils.h.

    A list is a ring of `Info` records.  One of them is the head; the others
    belong to elements.  The macros take the pair of link fields as arguments,
    so one body serves both directions; here the direction is a parameter too,
    and `Ring(dir, s)` says that following `dir` from `s[0]` visits exactly `s`. */
module Rings {
  import opened Sequences

  datatype Dir = Next | Last {
    function Flip(): Dir {
      if this == Next then Last else Next
    }
  }

  /** The list info structure, linked into at most one ring. */
  class Info<T> {
    var next: Info<T>
    var last: Info<T>
    var me: Elem?<T>

    constructor ()
      ensures next == this && last == this && me == null
    {
      next, last, me := this, this, null;
    }

    function To(dir: Dir): Info<T>
      reads this
    {
      if dir == Next then next else last
    }
  }

  /** An element that embeds its info structure. */
  class Elem<T> {
    const data: T
    const link: Info<T>

    constructor (data: T)
      ensures this.data == data && fresh(link)
      ensures link.next == link && link.last == link && link.me == null
    {
      this.data := data;
      link := new Info<T>();
    }
  }

  // ----- what a ring is -----

  function Succ(i: nat, n: nat): (r: nat)
    ensures n > 0 ==> r < n
  {
    if i + 1 < n then i + 1 else 0
  }

  function Pred(i: nat, n: nat): (r: int)
    ensures i < n ==> 0 <= r < n
  {
    if i == 0 then n - 1 else i - 1
  }

  ghost predicate Distinct<T>(s: seq<Info<T>>) {
    forall i, j :: 0 <= i < j < |s| ==> s[i] != s[j]
  }

  /** Following `dir` from `s[0]` visits `s` and comes back to `s[0]`. */
  ghost predicate Forward<T>(dir: Dir, s: seq<Info<T>>)
    reads s
  {
    forall i {:trigger s[i].To(dir)} :: 0 <= i < |s| ==> s[i].To(dir) == s[Succ(i, |s|)]
  }

  ghost predicate Backward<T>(dir: Dir, s: seq<Info<T>>)
    reads s
  {
    forall i {:trigger s[i].To(dir)} :: 0 <= i < |s| ==> s[i].To(dir) == s[Pred(i, |s|)]
  }

  /** `next` and `last` are inverse to each other and form one cycle through `s[0]`. */
  ghost predicate Ring<T>(dir: Dir, s: seq<Info<T>>)
    reads s
  {
    |s| > 0 && Distinct(s) && Forward(dir, s) && Backward(dir.Flip(), s)
  }

  /** The same ring read the other way round, from the same head. */
  ghost function Mirror<X>(s: seq<X>): seq<X> {
    seq(|s|, i requires 0 <= i < |s| => if i == 0 then s[0] else s[|s| - i])
  }

  /** Where inserting beside element `i` in direction `dir` lands in a list of length `n`. */
  function Place(dir: Dir, i: nat, n: nat): nat {
    if dir == Next then i + 1 else if i == 0 then n else i
  }

  lemma MirrorRing<T>(dir: Dir, s: seq<Info<T>>)
    requires Ring(dir, s)
    ensures Ring(dir.Flip(), Mirror(s))
    ensures Members(s) ==> Members(Mirror(s))
  {
    if Members(s) {
      MirrorMembers(s);
    }
  }

  lemma MirrorMembers<T>(s: seq<Info<T>>)
    requires Members(s)
    ensures Members(Mirror(s))
  {
  }

  // ----- linking and unlinking -----

  /** All of `s` follows `dir` except its element `i`, which may point anywhere. */
  ghost predicate ForwardBut<T>(dir: Dir, s: seq<Info<T>>, i: nat)
    reads s
  {
    forall j {:trigger s[j].To(dir)} :: 0 <= j < |s| && j != i ==> s[j].To(dir) == s[Succ(j, |s|)]
  }

  ghost predicate BackwardBut<T>(dir: Dir, s: seq<Info<T>>, i: nat)
    reads s
  {
    forall j {:trigger s[j].To(dir)} :: 0 <= j < |s| && j != i ==> s[j].To(dir) == s[Pred(j, |s|)]
  }

  lemma LinkForward<T>(dir: Dir, s: seq<Info<T>>, i: nat, info: Info<T>)
    requires i < |s| && ForwardBut(dir, s, i)
    requires s[i].To(dir) == info && info.To(dir) == s[Succ(i, |s|)]
    ensures Forward(dir, InsertAt(s, i + 1, info))
  {
  }

  lemma LinkBackward<T>(dir: Dir, s: seq<Info<T>>, i: nat, info: Info<T>)
    requires i < |s| && BackwardBut(dir, s, Succ(i, |s|))
    requires s[Succ(i, |s|)].To(dir) == info && info.To(dir) == s[i]
    ensures Backward(dir, InsertAt(s, i + 1, info))
  {
  }

  lemma RemoveForward<T>(dir: Dir, s: seq<Info<T>>, i: nat)
    requires i < |s| && |s| > 1 && ForwardBut(dir, s, Pred(i, |s|))
    requires s[Pred(i, |s|)].To(dir) == s[Succ(i, |s|)]
    ensures Forward(dir, RemoveAt(s, i))
  {
  }

  lemma RemoveBackward<T>(dir: Dir, s: seq<Info<T>>, i: nat)
    requires i < |s| && |s| > 1 && BackwardBut(dir, s, Succ(i, |s|))
    requires s[Succ(i, |s|)].To(dir) == s[Pred(i, |s|)]
    ensures Backward(dir, RemoveAt(s, i))
  {
    var t := RemoveAt(s, i);
    forall j | 0 <= j < |t| ensures t[j].To(dir) == t[Pred(j, |t|)] {
      assert t[j] == s[if j < i then j else j + 1];
    }
  }

  lemma InsertDistinct<T>(s: seq<Info<T>>, k: nat, info: Info<T>)
    requires k <= |s| && info !in s && Distinct(s)
    ensures Distinct(InsertAt(s, k, info))
  {
  }

  lemma Linked<T>(s: seq<Info<T>>, k: nat, info: Info<T>)
    requires k < |s| && info !in s && Distinct(s)
    requires ForwardBut(Next, s, k) && BackwardBut(Last, s, Succ(k, |s|))
    requires s[k].next == info && info.next == s[Succ(k, |s|)]
    requires s[Succ(k, |s|)].last == info && info.last == s[k]
    ensures Ring(Next, InsertAt(s, k + 1, info))
  {
    LinkForward(Next, s, k, info);
    LinkBackward(Last, s, k, info);
    InsertDistinct(s, k + 1, info);
  }

  /** DLIST_move__(base, info, next, last). */
  method LinkAfter<T>(base: Info<T>, info: Info<T>, ghost s: seq<Info<T>>, ghost i: nat)
    requires Ring(Next, s) && i < |s| && s[i] == base && info !in s
    modifies info`next, info`last, base`next, base.next`last
    ensures Ring(Next, InsertAt(s, i + 1, info))
    ensures base.next == info && info.last == base && info.next == old(base.next) && info.next.last == info
  {
    assert s[i].To(Next) == s[Succ(i, |s|)];
    info.last := base;
    info.next := base.next;
    info.next.last := info;
    base.next := info;
    forall j | 0 <= j < |s| && j != i ensures s[j].To(Next) == s[Succ(j, |s|)] {
      assert old(s[j].To(Next)) == s[Succ(j, |s|)];
    }
    forall j | 0 <= j < |s| && j != Succ(i, |s|) ensures s[j].To(Last) == s[Pred(j, |s|)] {
      assert old(s[j].To(Last)) == s[Pred(j, |s|)];
    }
    Linked(s, i, info);
  }

  /** DLIST_move__(base, info, last, next). */
  method LinkBefore<T>(base: Info<T>, info: Info<T>, ghost s: seq<Info<T>>, ghost i: nat)
    requires Ring(Next, s) && i < |s| && s[i] == base && info !in s
    modifies info`next, info`last, base`last, base.last`next
    ensures Ring(Next, InsertAt(s, Pred(i, |s|) + 1, info))
    ensures base.last == info && info.next == base && info.last == old(base.last) && info.last.next == info
  {
    ghost var k := Pred(i, |s|);
    assert Succ(k, |s|) == i;
    assert s[k].To(Next) == s[i] && s[i].To(Last) == s[k];
    info.next := base;
    info.last := base.last;
    info.last.next := info;
    base.last := info;
    forall j | 0 <= j < |s| && j != k ensures s[j].To(Next) == s[Succ(j, |s|)] {
      assert old(s[j].To(Next)) == s[Succ(j, |s|)];
    }
    forall j | 0 <= j < |s| && j != i ensures s[j].To(Last) == s[Pred(j, |s|)] {
      assert old(s[j].To(Last)) == s[Pred(j, |s|)];
    }
    Linked(s, k, info);
  }

  /** DLIST_move__: puts `info` beside `base`, after it for `Next` and before it for `Last`. */
  method Link<T>(dir: Dir, base: Info<T>, info: Info<T>, ghost s: seq<Info<T>>, ghost i: nat)
    requires Ring(Next, s) && i < |s| && s[i] == base && info !in s
    modifies info`next, info`last, base`next, base`last, base.To(dir)`next, base.To(dir)`last
    ensures Ring(Next, InsertAt(s, Place(dir, i, |s|), info))
    ensures base.To(dir) == info
  {
    if dir == Next {
      assert Place(dir, i, |s|) == i + 1;
      LinkAfter(base, info, s, i);
    } else {
      assert Place(dir, i, |s|) == Pred(i, |s|) + 1;
      LinkBefore(base, info, s, i);
    }
  }

  lemma Unlinked<T>(dir: Dir, s: seq<Info<T>>, i: nat)
    requires i < |s| && |s| > 1 && Distinct(s)
    requires ForwardBut(dir, s, Pred(i, |s|)) && BackwardBut(dir.Flip(), s, Succ(i, |s|))
    requires s[Pred(i, |s|)].To(dir) == s[Succ(i, |s|)] && s[Succ(i, |s|)].To(dir.Flip()) == s[Pred(i, |s|)]
    ensures Ring(dir, RemoveAt(s, i))
  {
    RemoveForward(dir, s, i);
    RemoveBackward(dir.Flip(), s, i);
  }

  /** DLIST_REMOVE. */
  method Remove<T>(info: Info<T>, ghost dir: Dir, ghost s: seq<Info<T>>, ghost i: nat)
    requires Ring(dir, s) && i < |s| && s[i] == info && |s| > 1
    modifies info.last`next, info.next`last
    ensures Ring(dir, RemoveAt(s, i))
    ensures info.next == old(info.next) && info.last == old(info.last)
    ensures info.last.next == info.next && info.next.last == info.last
  {
    assert info.To(dir) == s[Succ(i, |s|)] && info.To(dir.Flip()) == s[Pred(i, |s|)];
    info.last.next := info.next;
    info.next.last := info.last;
    forall j | 0 <= j < |s| && j != Pred(i, |s|) ensures s[j].To(dir) == s[Succ(j, |s|)] {
      assert old(s[j].To(dir)) == s[Succ(j, |s|)];
    }
    forall j | 0 <= j < |s| && j != Succ(i, |s|) ensures s[j].To(dir.Flip()) == s[Pred(j, |s|)] {
      assert old(s[j].To(dir.Flip())) == s[Pred(j, |s|)];
    }
    Unlinked(dir, s, i);
  }

  // ----- elements -----

  /** The head carries no element; every other info belongs to the element that embeds it. */
  ghost predicate Members<T>(s: seq<Info<T>>)
    reads s
  {
    && |s| > 0
    && s[0].me == null
    && forall i :: 0 < i < |s| ==> s[i].me != null && s[i].me.link == s[i]
  }

  lemma InsertMembers<T>(s: seq<Info<T>>, k: nat, info: Info<T>)
    requires Members(s) && 0 < k <= |s| && info.me != null && info.me.link == info
    ensures Members(InsertAt(s, k, info))
  {
  }

  lemma RemoveMembers<T>(s: seq<Info<T>>, k: nat)
    requires Members(s) && 0 < k < |s|
    ensures Members(RemoveAt(s, k))
  {
  }

  // ----- the list operations, in terms of the sequence after the head -----

  /** DLIST_ADD_AFTER and DLIST_ADD_BEFORE. */
  method Add<T>(dir: Dir, base: Info<T>, elem: Elem?<T>, info: Info<T>, ghost s: seq<Info<T>>, ghost i: nat)
    requires Ring(Next, s) && i < |s| && s[i] == base && info !in s
    modifies info, base`next, base`last, base.To(dir)`next, base.To(dir)`last
    ensures Ring(Next, InsertAt(s, Place(dir, i, |s|), info))
    ensures info.me == elem
  {
    Link(dir, base, info, s, i);
    ghost var r := InsertAt(s, Place(dir, i, |s|), info);
    label linked:
    info.me := elem;
    forall j | 0 <= j < |r| ensures r[j].To(Next) == r[Succ(j, |r|)] && r[j].To(Last) == r[Pred(j, |r|)] {
      assert old@linked(r[j].To(Next)) == r[Succ(j, |r|)] && old@linked(r[j].To(Last)) == r[Pred(j, |r|)];
    }
  }

  /** The removal half of a move: the target ring is whole, and what is left of the
      old ring is out of reach of the link that follows. */
  method Detach<T>(ghost dir: Dir, info: Info<T>,
                   ghost from: seq<Info<T>>, ghost i: nat, ghost to: seq<Info<T>>, ghost j: nat)
    requires Ring(Next, from) && 0 < i < |from| && from[i] == info
    requires to == RemoveAt(from, i) || (Ring(Next, to) && forall x :: x in to ==> x !in from)
    requires j < |to|
    modifies info.last`next, info.next`last
    ensures Ring(Next, to) && info !in to && to[j].To(dir) in to
    ensures to[j].To(dir) == old(to[j].To(dir)) || to[j].To(dir) == old(info.To(dir))
    ensures to != RemoveAt(from, i) ==>
              Ring(Next, RemoveAt(from, i)) && forall x :: x in RemoveAt(from, i) ==> x !in to && x != info
  {
    ghost var left := RemoveAt(from, i);
    assert info.To(Next) == from[Succ(i, |from|)] && info.To(Last) == from[i - 1];
    assert info.last in from && info.next in from;
    Remove(info, Next, from, i);
    if to != left {
      assert unchanged(to);
    }
    assert to[j].To(dir) == to[if dir == Next then Succ(j, |to|) else Pred(j, |to|)];
    forall x | x in left ensures x in from && x != info {
      ghost var k :| 0 <= k < |left| && left[k] == x;
      assert x == from[if k < i then k else k + 1];
    }
  }

  lemma MovedMembers<T>(from: seq<Info<T>>, i: nat, to: seq<Info<T>>, k: nat)
    requires Members(from) && Members(to) && 0 < i < |from| && 0 < k <= |to|
    ensures Members(InsertAt(to, k, from[i])) && Members(RemoveAt(from, i))
  {
    InsertMembers(to, k, from[i]);
    RemoveMembers(from, i);
  }

  /** DLIST_MOVE_AFTER and DLIST_MOVE_BEFORE: `info` leaves `from` and joins `to`, which is
      either another ring or what is left of `from`. */
  method Move<T>(dir: Dir, base: Info<T>, info: Info<T>,
                 ghost from: seq<Info<T>>, ghost i: nat, ghost to: seq<Info<T>>, ghost j: nat)
    requires Ring(Next, from) && 0 < i < |from| && from[i] == info
    requires to == RemoveAt(from, i) || (Ring(Next, to) && forall x :: x in to ==> x !in from)
    requires j < |to| && to[j] == base
    modifies info`next, info`last, info.next`next, info.next`last, info.last`next, info.last`last
    modifies base`next, base`last, base.To(dir)`next, base.To(dir)`last
    ensures Ring(Next, InsertAt(to, Place(dir, j, |to|), info))
    ensures to != RemoveAt(from, i) ==> Ring(Next, RemoveAt(from, i))
    ensures old(Members(from)) && old(Members(to)) ==>
              Members(InsertAt(to, Place(dir, j, |to|), info)) && Members(RemoveAt(from, i))
  {
    ghost var left := RemoveAt(from, i);
    Detach(dir, info, from, i, to, j);
    assert base in to && base.To(dir) in to;
    label detached:
    Link(dir, base, info, to, j);
    if to != left {
      forall k | 0 <= k < |left| ensures unchanged@detached(left[k]) {
        assert left[k] in left;
      }
    }
    if old(Members(from)) && old(Members(to)) {
      assert Members(from) && Members(to);
      MovedMembers(from, i, to, Place(dir, j, |to|));
    }
  }

  /** An element that already stands where it is asked to go keeps the order as it is. */
  lemma MoveInPlace<X>(dir: Dir, s: seq<X>, i: nat, j: nat)
    requires 0 < i < |s| && j < |s| - 1
    requires Place(dir, j, |s| - 1) == i
    ensures InsertAt(RemoveAt(s, i), Place(dir, j, |s| - 1), s[i]) == s
  {
  }

  /** The same macro with base and info equal runs to the end but leaves no ring through the
      old neighbour: its back link names `info`, and `info` now points only at itself.  Only an
      info that is alone in its ring stays where it was. */
  method MoveOntoItself<T>(dir: Dir, info: Info<T>, ghost s: seq<Info<T>>, ghost i: nat)
    requires Ring(Next, s) && i < |s| && s[i] == info
    modifies info`next, info`last, info.next`next, info.next`last, info.last`next, info.last`last
    ensures info.next == info && info.last == info
    ensures old(info.To(dir)).To(dir.Flip()) == info && old(info.To(dir.Flip())).To(dir) == old(info.To(dir))
    ensures |s| == 1 ==> Ring(Next, s)
    ensures |s| > 1 ==>
              var lost := old(info.To(dir));
              forall d, t: seq<Info<T>> {:trigger Ring(d, t)} :: lost in t ==> !Ring(d, t)
  {
    assert info.To(Next) == s[Succ(i, |s|)] && info.To(Last) == s[Pred(i, |s|)];
    info.last.next := info.next;
    info.next.last := info.last;
    ghost var beyond := info.To(dir);
    if dir == Next {
      info.last := info;
      info.next := info.next;
      info.next.last := info;
      info.next := info;
    } else {
      info.next := info;
      info.last := info.last;
      info.last.next := info;
      info.last := info;
    }
    if |s| > 1 {
      forall d, t: seq<Info<T>> | beyond in t && Ring(d, t) ensures false {
        NoRingThrough(d, t, dir, beyond, info);
      }
    }
  }

  /** In a ring, going one way and then the other comes back to where it started. */
  lemma LinksInverse<T>(d: Dir, t: seq<Info<T>>, x: Info<T>, dir: Dir)
    requires Ring(d, t) && x in t
    ensures x.To(dir).To(dir.Flip()) == x
  {
  }

  lemma NoRingThrough<T>(d: Dir, t: seq<Info<T>>, dir: Dir, lost: Info<T>, info: Info<T>)
    requires lost in t && lost != info
    requires lost.To(dir.Flip()) == info && info.To(dir) == info
    ensures !Ring(d, t)
  {
  }

  /** A ring is determined by its head: the links of the heap leave no choice of sequence. */
  lemma RingUnique<T>(dir: Dir, s: seq<Info<T>>, t: seq<Info<T>>)
    requires Ring(dir, s) && Ring(dir, t) && s[0] == t[0]
    ensures s == t
  {
    var n := if |s| < |t| then |s| else |t|;
    RingAgrees(dir, s, t, n - 1);
    assert s[n - 1].To(dir) == s[Succ(n - 1, |s|)] && t[n - 1].To(dir) == t[Succ(n - 1, |t|)];
    assert n == |s| == |t|;
  }

  lemma {:induction false} RingAgrees<T>(dir: Dir, s: seq<Info<T>>, t: seq<Info<T>>, n: nat)
    requires Ring(dir, s) && Ring(dir, t) && s[0] == t[0] && n < |s| && n < |t|
    ensures forall i :: 0 <= i <= n ==> s[i] == t[i]
  {
    if n > 0 {
      RingAgrees(dir, s, t, n - 1);
      assert s[n - 1].To(dir) == s[n] && t[n - 1].To(dir) == t[n];
    }
  }

  /** DLIST_MADD_AFTER and DLIST_MADD_BEFORE. */
  method AddMember<T>(dir: Dir, base: Info<T>, elem: Elem<T>, ghost s: seq<Info<T>>, ghost i: nat)
    requires Ring(Next, s) && Members(s) && i < |s| && s[i] == base && elem.link !in s
    modifies elem.link, base`next, base`last, base.To(dir)`next, base.To(dir)`last
    ensures Ring(Next, InsertAt(s, Place(dir, i, |s|), elem.link))
    ensures elem.link.me == elem && Members(InsertAt(s, Place(dir, i, |s|), elem.link))
  {
    Add(dir, base, elem, elem.link, s, i);
    assert Members(s);
    InsertMembers(s, Place(dir, i, |s|), elem.link);
  }

  /** DLIST_IS_EMPTY, DLIST_FIRST and DLIST_LAST look at the right places. */
  lemma Ends<T>(s: seq<Info<T>>)
    requires Ring(Next, s) && Members(s)
    ensures s[0].next == s[0] <==> |s| == 1
    ensures |s| == 1 ==> s[0].next.me == null && s[0].last.me == null
    ensures |s| > 1 ==> s[0].next.me == s[1].me != null && s[0].last.me == s[|s| - 1].me != null
  {
    assert s[0].To(Next) == s[Succ(0, |s|)] && s[0].To(Last) == s[Pred(0, |s|)];
  }

  // ----- loops -----

  ghost function Keep<X>(s: seq<X>, doomed: set<X>): seq<X> {
    if s == [] then []
    else
      var x := s[|s| - 1];
      Keep(s[..|s| - 1], doomed) + if x in doomed then [] else [x]
  }

  /** DLIST_LOOP and DLIST_RLOOP: stops when it is back at the head. */
  method Loop<T>(dir: Dir, head: Info<T>, ghost s: seq<Info<T>>) returns (visited: seq<Info<T>>)
    requires Ring(dir, s) && s[0] == head
    ensures visited == s[1..]
  {
    visited := [];
    ghost var j := 1;
    assert s[0].To(dir) == s[Succ(0, |s|)];
    var info := head.To(dir);
    while info != head
      invariant 1 <= j <= |s| && visited == s[1..j]
      invariant info == if j < |s| then s[j] else head
      decreases |s| - j
    {
      visited := visited + [info];
      assert s[j].To(dir) == s[Succ(j, |s|)];
      info := info.To(dir);
      j := j + 1;
    }
  }

  /** DLIST_MLOOP and DLIST_RMLOOP: stops at the null element of the head. */
  method MemberLoop<T>(dir: Dir, head: Info<T>, ghost s: seq<Info<T>>) returns (visited: seq<Elem<T>>)
    requires Ring(dir, s) && s[0] == head && Members(s)
    ensures |visited| == |s| - 1
    ensures forall i :: 0 <= i < |visited| ==> visited[i] == s[i + 1].me && visited[i].link == s[i + 1]
  {
    visited := [];
    ghost var j := 1;
    assert s[0].To(dir) == s[Succ(0, |s|)];
    var elem := head.To(dir).me;
    while elem != null
      invariant 1 <= j <= |s| && |visited| == j - 1
      invariant forall i :: 0 <= i < |visited| ==> visited[i] == s[i + 1].me
      invariant elem == if j < |s| then s[j].me else null
      decreases |s| - j
    {
      visited := visited + [elem];
      assert s[j].To(dir) == s[Succ(j, |s|)];
      elem := elem.link.To(dir).me;
      j := j + 1;
    }
  }

  lemma {:induction false} KeepSubset<X>(s: seq<X>, doomed: set<X>, x: X)
    ensures x in Keep(s, doomed) <==> x in s && x !in doomed
  {
    if s != [] {
      KeepSubset(s[..|s| - 1], doomed, x);
      assert s == s[..|s| - 1] + [s[|s| - 1]];
    }
  }

  /** What the ring looks like once the first `j - 1` elements have been dealt with. */
  ghost function Progress<X>(s: seq<X>, j: nat, doomed: set<X>): seq<X>
    requires 1 <= j <= |s|
  {
    [s[0]] + Keep(s[1..j], doomed) + s[j..]
  }

  lemma Middle<X>(a: seq<X>, x: X, b: seq<X>)
    requires a != []
    ensures var p := a + [x] + b;
            && |p| == |a| + 1 + |b| && p[|a|] == x && RemoveAt(p, |a|) == a + b
            && p[0] == a[0] && (b != [] ==> p[|a| + 1] == b[0])
  {
  }

  lemma ProgressSplit<X>(s: seq<X>, j: nat, doomed: set<X>)
    requires 1 <= j < |s|
    ensures var a, b := [s[0]] + Keep(s[1..j], doomed), s[j + 1..];
            && Progress(s, j, doomed) == a + [s[j]] + b
            && Progress(s, j + 1, doomed) == if s[j] in doomed then a + b else a + [s[j]] + b
  {
    assert s[1..j + 1][..j - 1] == s[1..j];
    assert Keep(s[1..j + 1], doomed) == Keep(s[1..j], doomed) + if s[j] in doomed then [] else [s[j]];
    assert s[j..] == [s[j]] + s[j + 1..];
  }

  lemma ProgressStep<X>(s: seq<X>, j: nat, doomed: set<X>) returns (k: nat)
    requires 1 <= j < |s|
    ensures var p := Progress(s, j, doomed);
            && 0 < k < |p| && p[k] == s[j]
            && (if k + 1 < |p| then p[k + 1] else p[0]) == (if j + 1 < |s| then s[j + 1] else s[0])
            && Progress(s, j + 1, doomed) == (if s[j] in doomed then RemoveAt(p, k) else p)
  {
    var a, b := [s[0]] + Keep(s[1..j], doomed), s[j + 1..];
    k := |a|;
    ProgressSplit(s, j, doomed);
    Middle(a, s[j], b);
  }

  lemma ProgressStarts<X>(s: seq<X>, doomed: set<X>)
    requires |s| > 0
    ensures Progress(s, 1, doomed) == s
  {
  }

  lemma ProgressEnds<X>(s: seq<X>, doomed: set<X>)
    requires |s| > 0
    ensures Progress(s, |s|, doomed) == [s[0]] + Keep(s[1..], doomed) && s[1..|s|] == s[1..]
  {
    assert s[1..|s|] == s[1..];
  }

  lemma ProgressSubset<X>(s: seq<X>, j: nat, doomed: set<X>, x: X)
    requires 1 <= j <= |s| && x in Progress(s, j, doomed)
    ensures x in s && (x in doomed && s[0] !in doomed ==> x in s[j..])
  {
    KeepSubset(s[1..j], doomed, x);
  }

  /** Every info the loop has still to visit, or has spared, belongs to its element. */
  ghost predicate Spared<T>(s: seq<Info<T>>, j: nat, doomed: set<Info<T>>)
    requires |s| > 0
    reads s
  {
    && s[0].me == null
    && forall i :: 0 < i < |s| && (j <= i || s[i] !in doomed) ==> s[i].me != null && s[i].me.link == s[i]
  }

  lemma ProgressNext<T>(dir: Dir, s: seq<Info<T>>, j: nat, doomed: set<Info<T>>)
    requires 1 <= j < |s| && Ring(dir, Progress(s, j, doomed))
    ensures s[j].To(dir) == s[Succ(j, |s|)]
  {
    var k := ProgressStep(s, j, doomed);
    var p := Progress(s, j, doomed);
    assert p[k].To(dir) == p[Succ(k, |p|)];
  }

  /** Removes an element and frees it.  The freed memory is overwritten, so nothing that follows
      can be relying on it. */
  method RemoveAndFree<T>(info: Info<T>, ghost dir: Dir, ghost s: seq<Info<T>>, ghost i: nat)
    requires Ring(dir, s) && 0 < i < |s| && s[i] == info
    modifies info, info.last`next, info.next`last
    ensures Ring(dir, RemoveAt(s, i))
    ensures info.next == info && info.last == info && info.me == null
  {
    Remove(info, dir, s, i);
    ghost var r := RemoveAt(s, i);
    assert info !in r;
    label removed:
    info.next, info.last, info.me := info, info, null;
    forall j | 0 <= j < |r|
      ensures r[j].To(dir) == r[Succ(j, |r|)] && r[j].To(dir.Flip()) == r[Pred(j, |r|)]
    {
      assert old@removed(r[j].To(dir)) == r[Succ(j, |r|)] && old@removed(r[j].To(dir.Flip())) == r[Pred(j, |r|)];
    }
  }

  /** A loop body that removes and frees the current info if it is doomed. */
  method RemoveIfDoomed<T>(info: Info<T>, doomed: set<Info<T>>, ghost dir: Dir, ghost s: seq<Info<T>>, ghost j: nat)
    requires 1 <= j < |s| && s[j] == info && Ring(dir, Progress(s, j, doomed))
    modifies s
    ensures Ring(dir, Progress(s, j + 1, doomed))
    ensures Distinct(s) && old(Spared(s, j, doomed)) ==> Spared(s, j + 1, doomed)
    ensures forall x :: x in s && (x != info || x !in doomed) ==> x.me == old(x.me)
  {
    ghost var p := Progress(s, j, doomed);
    ghost var k := ProgressStep(s, j, doomed);
    if info in doomed {
      assert info.To(dir) == p[Succ(k, |p|)] && info.To(dir.Flip()) == p[Pred(k, |p|)];
      ProgressSubset(s, j, doomed, p[Succ(k, |p|)]);
      ProgressSubset(s, j, doomed, p[Pred(k, |p|)]);
      assert info.next in s && info.last in s;
      RemoveAndFree(info, dir, p, k);
    }
    if Distinct(s) && old(Spared(s, j, doomed)) {
      forall i | 0 <= i < |s| && (i > j || i == 0 || s[i] !in doomed) ensures s[i].me == old(s[i].me) {
      }
    }
  }

  lemma SliceSnoc<X>(s: seq<X>, j: nat)
    requires 1 <= j < |s|
    ensures s[1..j + 1] == s[1..j] + [s[j]]
  {
  }

  /** DLIST_SAFE_LOOP and DLIST_SAFE_RLOOP over a body that removes the infos in `doomed`. */
  method SafeLoop<T>(dir: Dir, head: Info<T>, doomed: set<Info<T>>, ghost s: seq<Info<T>>)
    returns (visited: seq<Info<T>>)
    requires Ring(dir, s) && s[0] == head
    modifies s
    ensures visited == s[1..]
    ensures Ring(dir, [head] + Keep(s[1..], doomed))
    ensures forall x :: x in s && (x == head || x !in doomed) ==> x.me == old(x.me)
  {
    visited := [];
    ghost var j := 1;
    assert s[0].To(dir) == s[Succ(0, |s|)];
    ProgressStarts(s, doomed);
    var info := head.To(dir);
    while info != head
      invariant 1 <= j <= |s| && visited == s[1..j]
      invariant info == if j < |s| then s[j] else head
      invariant Ring(dir, Progress(s, j, doomed))
      invariant forall x :: x in s && (x == head || x !in doomed) ==> x.me == old(x.me)
      decreases |s| - j
    {
      visited := visited + [info];
      SliceSnoc(s, j);
      ProgressNext(dir, s, j, doomed);
      var safe := info.To(dir);
      RemoveIfDoomed(info, doomed, dir, s, j);
      info := safe;
      j := j + 1;
    }
    ProgressEnds(s, doomed);
  }

  /** DLIST_SAFE_MLOOP and DLIST_SAFE_RMLOOP over the same body. */
  method SafeMemberLoop<T>(dir: Dir, head: Info<T>, doomed: set<Info<T>>, ghost s: seq<Info<T>>)
    returns (visited: seq<Elem<T>>)
    requires Ring(dir, s) && s[0] == head && Members(s)
    modifies s
    ensures |visited| == |s| - 1 && forall i :: 0 <= i < |visited| ==> visited[i].link == s[i + 1]
    ensures Ring(dir, [head] + Keep(s[1..], doomed))
    ensures Members([head] + Keep(s[1..], doomed))
  {
    visited := [];
    ghost var j := 1;
    assert s[0].To(dir) == s[Succ(0, |s|)];
    ProgressStarts(s, doomed);
    var elem := head.To(dir).me;
    while elem != null
      invariant 1 <= j <= |s| && |visited| == j - 1
      invariant forall i :: 0 <= i < |visited| ==> visited[i].link == s[i + 1]
      invariant elem == if j < |s| then s[j].me else null
      invariant Ring(dir, Progress(s, j, doomed))
      invariant Spared(s, j, doomed)
      decreases |s| - j
    {
      assert elem.link == s[j];
      visited := visited + [elem];
      ProgressNext(dir, s, j, doomed);
      var safe := elem.link.To(dir).me;
      RemoveIfDoomed(elem.link, doomed, dir, s, j);
      elem := safe;
      j := j + 1;
    }
    ProgressEnds(s, doomed);
    KeptMembers(s, doomed);
  }

  lemma KeptMembers<T>(s: seq<Info<T>>, doomed: set<Info<T>>)
    requires |s| > 0 && Spared(s, |s|, doomed)
    ensures Members([s[0]] + Keep(s[1..], doomed))
  {
    var kept := Keep(s[1..], doomed);
    forall i | 0 <= i < |kept| ensures kept[i].me != null && kept[i].me.link == kept[i] {
      var x := kept[i];
      KeepSubset(s[1..], doomed, x);
      var m :| 0 <= m < |s[1..]| && s[1..][m] == x;
      assert s[m + 1] == x;
    }
  }
}
