/** The cache of phase1_d2c_remap.c that remembers which tiler id belongs to which
    remapped buffer: a list of records, appended at the end and searched from the front. */
module RemapCache {
  import opened Rings
  import opened Sequences

  datatype Entry = Entry(bufPtr: nat, tilerId: nat)

  // ----- the cache as a sequence -----

  /** Index of the oldest record for `p`, or the length of the cache. */
  ghost function Find(c: seq<Entry>, p: nat): (k: nat)
    ensures k <= |c| && (k < |c| ==> c[k].bufPtr == p)
    ensures forall i :: 0 <= i < k ==> c[i].bufPtr != p
  {
    if c == [] || c[0].bufPtr == p then 0 else 1 + Find(c[1..], p)
  }

  ghost predicate Holds(c: seq<Entry>, p: nat) {
    exists i :: 0 <= i < |c| && c[i].bufPtr == p
  }

  ghost function Remaining(c: seq<Entry>, p: nat): seq<Entry> {
    if Find(c, p) < |c| then RemoveAt(c, Find(c, p)) else c
  }

  ghost function Oldest(c: seq<Entry>, p: nat): nat {
    if Find(c, p) < |c| then c[Find(c, p)].tilerId else 0
  }

  /** The ids recorded for one pointer, oldest first: the cache is a map from pointers to queues. */
  ghost function IdsFor(c: seq<Entry>, p: nat): seq<nat> {
    if c == [] then []
    else IdIf(c[0], p) + IdsFor(c[1..], p)
  }

  ghost function IdIf(e: Entry, p: nat): seq<nat> {
    if e.bufPtr == p then [e.tilerId] else []
  }

  lemma {:induction false} IdsForAppend(c: seq<Entry>, d: seq<Entry>, p: nat)
    ensures IdsFor(c + d, p) == IdsFor(c, p) + IdsFor(d, p)
  {
    if c == [] {
      assert c + d == d;
    } else {
      IdsForAppend(c[1..], d, p);
      assert (c + d)[1..] == c[1..] + d;
      Associative(IdIf(c[0], p), IdsFor(c[1..], p), IdsFor(d, p));
    }
  }

  lemma {:induction false} NoIdsBeforeOldest(c: seq<Entry>, p: nat)
    ensures IdsFor(c[..Find(c, p)], p) == []
  {
    var k := Find(c, p);
    if k > 0 {
      NoIdsBeforeOldest(c[1..], p);
      assert c[..k][1..] == c[1..][..k - 1];
    }
  }

  /** Adding queues the id behind the others of its pointer and touches no other queue. */
  lemma AddIsEnqueue(c: seq<Entry>, e: Entry, p: nat)
    ensures IdsFor(c + [e], p) == IdsFor(c, p) + if p == e.bufPtr then [e.tilerId] else []
  {
    IdsForAppend(c, [e], p);
  }

  /** The queue of a pointer falls into what stands before a record, the record and the rest. */
  lemma IdsForSplit(c: seq<Entry>, k: nat, p: nat)
    requires k < |c|
    ensures IdsFor(c, p) == IdsFor(c[..k], p) + (IdIf(c[k], p) + IdsFor(c[k + 1..], p))
    ensures IdsFor(RemoveAt(c, k), p) == IdsFor(c[..k], p) + IdsFor(c[k + 1..], p)
  {
    assert c == c[..k] + c[k..] && c[k..][1..] == c[k + 1..];
    IdsForAppend(c[..k], c[k..], p);
    IdsForAppend(c[..k], c[k + 1..], p);
  }

  /** Deleting dequeues the oldest id of its pointer and touches no other queue. */
  lemma DelIsDequeue(c: seq<Entry>, p: nat, q: nat)
    ensures Holds(c, p) <==> IdsFor(c, p) != []
    ensures Holds(c, p) ==> Oldest(c, p) == IdsFor(c, p)[0]
    ensures IdsFor(Remaining(c, p), q) == if q == p && Holds(c, p) then IdsFor(c, p)[1..] else IdsFor(c, q)
  {
    var k := Find(c, p);
    if k < |c| {
      TakesOldest(c, p);
      if q != p {
        SparesOthers(c, p, q);
      }
    } else {
      NoIdsBeforeOldest(c, p);
      assert c[..k] == c;
    }
  }

  lemma TakesOldest(c: seq<Entry>, p: nat)
    requires Find(c, p) < |c|
    ensures IdsFor(c, p) == [Oldest(c, p)] + IdsFor(Remaining(c, p), p)
  {
    var k := Find(c, p);
    NoIdsBeforeOldest(c, p);
    IdsForSplit(c, k, p);
    Skip(IdsFor(c[..k], p), [c[k].tilerId] + IdsFor(c[k + 1..], p));
    Skip(IdsFor(c[..k], p), IdsFor(c[k + 1..], p));
  }

  lemma SparesOthers(c: seq<Entry>, p: nat, q: nat)
    requires Find(c, p) < |c| && q != p
    ensures IdsFor(c, q) == IdsFor(Remaining(c, p), q)
  {
    var k := Find(c, p);
    IdsForSplit(c, k, q);
    Skip(IdIf(c[k], q), IdsFor(c[k + 1..], q));
  }

  lemma Skip<X>(a: seq<X>, b: seq<X>)
    requires a == []
    ensures a + b == b
  {
  }

  /** Since only non-zero ids are recorded, 0 means exactly that the pointer is unknown. */
  lemma ZeroMeansAbsent(c: seq<Entry>, p: nat)
    requires forall e :: e in c ==> e.tilerId != 0
    ensures Oldest(c, p) == 0 <==> !Holds(c, p)
  {
  }

  // ----- the cache in memory -----

  /** The elements behind the infos of `s` hold the records `c`. */
  ghost predicate Records(s: seq<Info<Entry>>, c: seq<Entry>)
    reads s
  {
    && Members(s) && |c| == |s| - 1
    && forall i :: 0 < i < |s| ==> s[i].me.data == c[i - 1]
  }

  lemma AppendRecord(s: seq<Info<Entry>>, c: seq<Entry>, ad: Elem<Entry>)
    requires Records(s, c) && ad.link.me == ad
    ensures Records(InsertAt(s, |s|, ad.link), c + [ad.data])
  {
  }

  lemma DeleteRecord(s: seq<Info<Entry>>, c: seq<Entry>, k: nat)
    requires Records(s, c) && 0 < k < |s|
    ensures Records(RemoveAt(s, k), RemoveAt(c, k - 1))
  {
  }

  class Cache {
    const bufs: Info<Entry>
    var inited: bool
    ghost var ring: seq<Info<Entry>>
    ghost var contents: seq<Entry>  // the records, in list order

    ghost predicate Valid()
      reads this, ring
    {
      && |ring| > 0 && ring[0] == bufs
      && (if inited then Ring(Next, ring) && Records(ring, contents) else ring == [bufs] && contents == [])
    }

    constructor ()
      ensures Valid() && contents == [] && fresh(ring) && !inited
    {
      bufs := new Info<Entry>();
      inited := false;
      ring, contents := [bufs], [];
    }

    method Init()
      requires Valid()
      modifies this, bufs
      ensures Valid() && inited && ring == old(ring) && contents == old(contents)
    {
      if !inited {
        bufs.me, bufs.next, bufs.last := null, bufs, bufs;
        inited := true;
      }
    }

    /** remap_cache_add: 0 on success; `haveMemory` says whether the record could be allocated. */
    method Add(bufPtr: nat, tilerId: nat, haveMemory: bool) returns (res: int)
      requires Valid()
      modifies this, ring
      ensures Valid() && forall x :: x in ring ==> x in old(ring) || fresh(x)
      ensures res == 0 <==> haveMemory
      ensures contents == if haveMemory then old(contents) + [Entry(bufPtr, tilerId)] else old(contents)
    {
      Init();
      if !haveMemory {
        return -1;
      }
      var ad := new Elem<Entry>(Entry(bufPtr, tilerId));
      Append(ad);
      res := 0;
    }

    method Append(ad: Elem<Entry>)
      requires Valid() && inited && ad.link !in ring
      modifies this, ring, ad.link
      ensures Valid() && ring == old(ring) + [ad.link] && contents == old(contents) + [ad.data]
    {
      AddMember(Last, bufs, ad, ring, 0);
      AppendRecord(ring, contents, ad);
      ring, contents := InsertAt(ring, |ring|, ad.link), contents + [ad.data];
    }

    method Unlink(ad: Elem<Entry>, ghost j: nat)
      requires Valid() && inited && 0 < j < |ring| && ring[j] == ad.link
      modifies this, ring
      ensures Valid() && ring == RemoveAt(old(ring), j) && contents == RemoveAt(old(contents), j - 1)
    {
      assert ring[j].To(Next) == ring[Succ(j, |ring|)] && ring[j].To(Last) == ring[Pred(j, |ring|)];
      assert ad.link.next in ring && ad.link.last in ring;
      Remove(ad.link, Next, ring, j);
      DeleteRecord(ring, contents, j);
      ring, contents := RemoveAt(ring, j), RemoveAt(contents, j - 1);
    }

    /** remap_cache_del: the oldest id recorded for `bufPtr`, or 0. */
    method Del(bufPtr: nat) returns (tilerId: nat)
      requires Valid()
      modifies this, ring
      ensures Valid() && forall x :: x in ring ==> x in old(ring)
      ensures tilerId == Oldest(old(contents), bufPtr)
      ensures contents == Remaining(old(contents), bufPtr)
    {
      Init();
      var ad;
      ghost var j;
      ad, j := Search(bufPtr);
      if ad == null {
        return 0;
      }
      tilerId := ad.data.tilerId;
      Unlink(ad, j);
    }

    /** Its loop: the first record for `bufPtr`, if there is one. */
    method Search(bufPtr: nat) returns (ad: Elem?<Entry>, ghost j: nat)
      requires Valid() && inited
      ensures ad == null <==> Find(contents, bufPtr) == |contents|
      ensures ad != null ==> 0 < j < |ring| && ring[j] == ad.link && ring[j].me == ad && j - 1 == Find(contents, bufPtr)
    {
      j := 1;
      assert bufs.To(Next) == ring[Succ(0, |ring|)];
      ad := bufs.next.me;
      while ad != null && ad.data.bufPtr != bufPtr
        invariant 1 <= j <= |ring|
        invariant ad == if j < |ring| then ring[j].me else null
        invariant forall i :: 0 <= i < j - 1 ==> contents[i].bufPtr != bufPtr
        decreases |ring| - j
      {
        assert ring[j].To(Next) == ring[Succ(j, |ring|)];
        ad := ad.link.next.me;
        j := j + 1;
      }
    }
  }
}
