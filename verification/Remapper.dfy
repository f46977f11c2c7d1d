/** tiler_assisted_phase1_D2CReMap and tiler_assisted_phase1_DeMap as one thread runs them.

    The answers of the operating system and of the driver are parameters, so every contract holds
    for all of them.  Each call is shown to be a run of the protocol, and which run is spelled out. */
module Remapper {
  import opened WidthInference
  import opened RemapCache
  import opened RemapProtocol
  import opened Ledgers
  import opened Sequences
  import opened Threads

  const ERR_GENERIC: int := 1

  /** What is learnt about one block: its translated address, the result of QUERY_BLK and the
      block as that call filled it in. */
  datatype Query = Query(ssptr: Option<nat>, res: int, blk: Block)

  predicate Accepts(length: nat, q: Query) {
    && length % PAGE_SIZE == 0
    && q.ssptr.Some? && q.ssptr.value != 0
    && q.res == 0 && q.blk.ssptr != 0
  }

  lemma {:induction false} TotalSizeAppend(blocks: seq<Block>, b: Block)
    ensures TotalSize(blocks + [b]) == TotalSize(blocks) + Size(b) && TotalSize([b]) == Size(b)
  {
    if blocks != [] {
      TotalSizeAppend(blocks[1..], b);
      assert (blocks + [b])[1..] == blocks[1..] + [b];
    }
  }

  ghost function Sum(xs: seq<nat>): nat {
    if xs == [] then 0 else xs[0] + Sum(xs[1..])
  }

  lemma {:induction false} SumAppend(xs: seq<nat>, x: nat)
    ensures Sum(xs + [x]) == Sum(xs) + x && Sum([x]) == x
  {
    if xs != [] {
      SumAppend(xs[1..], x);
      assert (xs + [x])[1..] == xs[1..] + [x];
    }
  }

  /** The mapping is as long as requested except for the rows that did not divide evenly, and those
      amount to less than one row of each 2D block. */
  lemma {:induction false} TotalSizeLaw(lengths: seq<nat>, qs: seq<Query>, blocks: seq<Block>, gaps: seq<nat>)
    requires |lengths| == |qs| == |blocks| == |gaps|
    requires forall i :: 0 <= i < |qs| ==> Measurable(qs[i].blk, lengths[i]) && lengths[i] % PAGE_SIZE == 0
    requires forall i :: 0 <= i < |qs| ==>
                           blocks[i] == Infer(qs[i].blk, lengths[i]) && gaps[i] == Shortfall(qs[i].blk, lengths[i])
    ensures TotalSize(blocks) + Sum(gaps) == Sum(lengths)
    ensures forall i :: 0 <= i < |qs| ==> gaps[i] == 0 || gaps[i] < blocks[i].stride
  {
    if blocks != [] {
      TotalSizeLaw(lengths[1..], qs[1..], blocks[1..], gaps[1..]);
      SizeLaw(qs[0].blk, lengths[0]);
      forall i | 0 <= i < |qs| ensures gaps[i] == 0 || gaps[i] < blocks[i].stride {
        SizeLaw(qs[i].blk, lengths[i]);
      }
    }
  }

  predicate AllAccepted(n: nat, lengths: seq<nat>, qs: seq<Query>)
    requires n <= |lengths| && n <= |qs|
  {
    forall i :: 0 <= i < n ==> Accepts(lengths[i], qs[i])
  }

  /** Every block whose dimensions the loop gets to infer can be measured. */
  ghost predicate AllMeasurable(n: nat, lengths: seq<nat>, qs: seq<Query>) {
    && n <= |lengths| && n <= |qs|
    && forall i :: 0 <= i < n && AllAccepted(i + 1, lengths, qs) ==> Measurable(qs[i].blk, lengths[i])
  }

  ghost function Plan(n: nat, lengths: seq<nat>, qs: seq<Query>): (blocks: seq<Block>)
    requires AllMeasurable(n, lengths, qs) && AllAccepted(n, lengths, qs)
    ensures |blocks| == n
  {
    seq(n, i requires 0 <= i < n && AllMeasurable(n, lengths, qs) && AllAccepted(n, lengths, qs) =>
      Infer(qs[i].blk, lengths[i]))
  }

  /** What the loop has to deliver for each block, in the order of the queries: the address and the
      format that the query reported, and a size that falls short of the length by the gap. */
  ghost predicate Planned(blocks: seq<Block>, gaps: seq<nat>, lengths: seq<nat>, qs: seq<Query>) {
    && |blocks| == |gaps| && |blocks| <= |lengths| && |blocks| <= |qs|
    && forall i :: 0 <= i < |blocks| ==> PlannedOne(blocks[i], gaps[i], lengths[i], qs[i])
  }

  ghost predicate PlannedOne(b: Block, gap: nat, length: nat, q: Query) {
    && b.ssptr == q.blk.ssptr && b.fmt == q.blk.fmt
    && Size(b) + gap == length && (gap == 0 || (b.fmt != Page && gap < b.stride))
  }

  ghost function Gaps(n: nat, lengths: seq<nat>, qs: seq<Query>): (gaps: seq<nat>)
    requires AllMeasurable(n, lengths, qs) && AllAccepted(n, lengths, qs)
    ensures |gaps| == n
  {
    seq(n, i requires 0 <= i < n && AllMeasurable(n, lengths, qs) && AllAccepted(n, lengths, qs) =>
      Shortfall(qs[i].blk, lengths[i]))
  }

  lemma PlanLaw(n: nat, lengths: seq<nat>, qs: seq<Query>)
    requires AllMeasurable(n, lengths, qs) && AllAccepted(n, lengths, qs)
    ensures Planned(Plan(n, lengths, qs), Gaps(n, lengths, qs), lengths, qs)
    ensures TotalSize(Plan(n, lengths, qs)) + Sum(Gaps(n, lengths, qs)) == Sum(lengths[..n])
  {
    var blocks, gaps := Plan(n, lengths, qs), Gaps(n, lengths, qs);
    forall i | 0 <= i < n
      ensures Measurable(qs[i].blk, lengths[i]) && lengths[i] % PAGE_SIZE == 0
      ensures PlannedOne(blocks[i], gaps[i], lengths[i], qs[i])
    {
      assert AllAccepted(i + 1, lengths, qs);
      PlanOne(lengths[i], qs[i]);
    }
    TotalSizeLaw(lengths[..n], qs[..n], blocks, gaps);
  }

  lemma PlanOne(length: nat, q: Query)
    requires Measurable(q.blk, length) && length % PAGE_SIZE == 0
    ensures PlannedOne(Infer(q.blk, length), Shortfall(q.blk, length), length, q)
  {
    InferredBlock(q.blk, length);
    SizeLaw(q.blk, length);
  }

  lemma PlanIs(blocks: seq<Block>, n: nat, lengths: seq<nat>, qs: seq<Query>)
    requires AllMeasurable(n, lengths, qs) && AllAccepted(n, lengths, qs) && |blocks| == n
    requires forall i :: 0 <= i < n ==> Measurable(qs[i].blk, lengths[i]) && blocks[i] == Infer(qs[i].blk, lengths[i])
    ensures blocks == Plan(n, lengths, qs)
  {
  }

  /** The loop over the blocks: check, translate, query, infer, add up. */
  method PlanBlocks(n: nat, lengths: seq<nat>, qs: seq<Query>)
    returns (plan: Option<seq<Block>>, size: nat, ghost gaps: seq<nat>)
    requires AllMeasurable(n, lengths, qs)
    ensures plan.Some? <==>
            forall i :: 0 <= i < n ==>
                          && lengths[i] % 4096 == 0 && qs[i].ssptr.Some? && qs[i].ssptr.value != 0
                          && qs[i].res == 0 && qs[i].blk.ssptr != 0
    ensures plan.Some? ==> |plan.value| == n && Planned(plan.value, gaps, lengths, qs)
    ensures plan.Some? ==> size + Sum(gaps) == Sum(lengths[..n])
    ensures plan.Some? ==>
              && AllAccepted(n, lengths, qs) && gaps == Gaps(n, lengths, qs)
              && plan.value == Plan(n, lengths, qs) && size == TotalSize(plan.value)
  {
    var blocks: seq<Block> := [];
    size, gaps := 0, [];
    for ix := 0 to n
      invariant AllAccepted(ix, lengths, qs)
      invariant |blocks| == ix && size == TotalSize(blocks)
      invariant forall i :: 0 <= i < ix ==>
                              Measurable(qs[i].blk, lengths[i]) && blocks[i] == Infer(qs[i].blk, lengths[i])
    {
      if lengths[ix] % PAGE_SIZE != 0 {
        return None, size, gaps;
      }
      if qs[ix].ssptr.None? || qs[ix].ssptr.value == 0 {
        return None, size, gaps;
      }
      if qs[ix].res != 0 || qs[ix].blk.ssptr == 0 {
        return None, size, gaps;
      }
      assert AllAccepted(ix + 1, lengths, qs);
      var b := InferBlock(qs[ix].blk, lengths[ix]);
      TotalSizeAppend(blocks, b);
      blocks := blocks + [b];
      size := size + Size(b);
    }
    gaps := Gaps(n, lengths, qs);
    PlanIs(blocks, n, lengths, qs);
    PlanLaw(n, lengths, qs);
    plan := Some(blocks);
  }

  // ----- one thread -----

  const ME: nat := 0

  lemma RunSnoc(s: State, tr: seq<Event<Step>>, e: Event<Step>)
    requires Run(s, tr).Some? && Enabled(Run(s, tr).value, e.t, e.step)
    ensures Run(s, tr + [e]) == Some(Next(Run(s, tr).value, e.t, e.step))
  {
  }

  /** Everything the operating system and the driver may answer while a buffer is remapped. */
  datatype Answers = Answers(
    device: bool,        // whether the device opens
    maxBlocks: nat,
    queries: seq<Query>,
    rbuf: Option<nat>,   // the id in the buffer after a successful RBUF
    mmap: Option<nat>,   // the base of the new mapping
    haveMemory: bool,    // for the cache record
    urbuf: int)

  /** The steps that remapping takes once its blocks are known. */
  ghost function ReMapSteps(blocks: seq<Block>, a: Answers): seq<Step>
    requires blocks != []
  {
    if a.rbuf.None? || a.rbuf.value == 0 then []
    else
      var rbuf, urbuf := Rbuf(a.rbuf.value, blocks), Urbuf(a.urbuf == 0);
      if a.mmap.None? then [rbuf, MmapFail, urbuf]
      else if ReMapResult(blocks, a) == 0 then [rbuf, Mmap(a.mmap.value), urbuf]
      else if a.haveMemory then [rbuf, Mmap(a.mmap.value), CacheAdd(true)]
      else [rbuf, Mmap(a.mmap.value), CacheAdd(false), urbuf]
  }

  /** The pointer it returns; 0 stands for NULL. */
  ghost function ReMapResult(blocks: seq<Block>, a: Answers): nat
    requires blocks != []
  {
    if a.rbuf.None? || a.rbuf.value == 0 || a.mmap.None? then 0
    else a.mmap.value + blocks[0].ssptr % PAGE_SIZE
  }

  /** What the system answers while a buffer is unmapped: results of three calls. */
  datatype DeAnswers = DeAnswers(device: bool, qbuf: int, urbuf: int, munmap: int)

  ghost function DeMapSteps(p: nat, a: DeAnswers): seq<Step> {
    if a.qbuf != 0 then [CacheDel(p), Qbuf(false)]
    else [CacheDel(p), Qbuf(true), Urbuf(a.urbuf == 0), Munmap(a.munmap == 0)]
  }

  ghost function Mine(steps: seq<Step>): seq<Event<Step>> {
    seq(|steps|, i requires 0 <= i < |steps| => Event(ME, steps[i]))
  }

  lemma {:induction false} MineSnoc(steps: seq<Step>, step: Step)
    ensures Mine(steps + [step]) == Mine(steps) + [Event(ME, step)]
  {
  }

  ghost predicate Leads(s: State, steps: seq<Step>, m: State) {
    Run(s, Mine(steps)) == Some(m)
  }

  lemma Then(s: State, steps: seq<Step>, m: State, step: Step)
    requires Leads(s, steps, m) && Enabled(m, ME, step)
    ensures Leads(s, steps + [step], Next(m, ME, step))
  {
    MineSnoc(steps, step);
    RunSnoc(s, Mine(steps), Event(ME, step));
  }

  ghost predicate Alone(s: State, pc: Pc) {
    s.pcs == map[ME := pc]
  }

  lemma CacheDelNext(m: State, p: nat)
    requires Alone(m, Idle) && Holds(m.cache, p)
    ensures Enabled(m, ME, CacheDel(p))
    ensures Next(m, ME, CacheDel(p)) ==
            m.(cache := Remaining(m.cache, p), pcs := map[ME := Popped(Oldest(m.cache, p), p)])
  {
  }

  lemma QbufNext(m: State, id: nat, p: nat)
    requires Alone(m, Popped(id, p)) && id in m.live
    ensures forall ok :: Enabled(m, ME, Qbuf(ok))
    ensures Next(m, ME, Qbuf(true)) == m.(pcs := map[ME := Queried(id, p, TotalSize(m.live[id]))])
    ensures Next(m, ME, Qbuf(false)) ==
            m.(lost := m.lost + {id}, stranded := m.stranded + {Base(p)}, pcs := map[ME := Idle])
  {
  }

  /** What a call of URBUF does to the driver's table and to the bookkeeping. */
  ghost function Unregister(m: State, id: nat, ok: bool): State {
    if ok then m.(live := m.live - {id}) else m.(lost := m.lost + {id})
  }

  ghost function Unmap(m: State, p: nat, ok: bool): State {
    if ok then m.(mapped := m.mapped - {Base(p)}) else m.(stranded := m.stranded + {Base(p)})
  }

  lemma UrbufNext(m: State, pc: Pc, ok: bool)
    requires Alone(m, pc) && (pc.Undo? || pc.Queried?)
    ensures Enabled(m, ME, Urbuf(ok))
    ensures Next(m, ME, Urbuf(ok)) ==
            Unregister(m, pc.id, ok).(pcs := map[ME := if pc.Queried? then Unmapping(pc.ptr, pc.size) else Idle])
  {
  }

  lemma RbufNext(m: State, id: nat, blocks: seq<Block>)
    requires Alone(m, Idle) && id != 0 && id !in m.live && blocks != []
    ensures Enabled(m, ME, Rbuf(id, blocks))
    ensures Next(m, ME, Rbuf(id, blocks)) == m.(live := m.live[id := blocks], pcs := map[ME := Registered(id)])
  {
  }

  lemma MmapNext(m: State, id: nat, base: nat)
    requires Alone(m, Registered(id)) && id in m.live && m.live[id] != []
    requires base % PAGE_SIZE == 0 && base !in m.mapped
    ensures Enabled(m, ME, Mmap(base))
    ensures var p := base + m.live[id][0].ssptr % PAGE_SIZE;
            var m' := m.(mapped := m.mapped[base := TotalSize(m.live[id])]);
            Next(m, ME, Mmap(base)) ==
            if p == 0 then m'.(stranded := m.stranded + {base}, pcs := map[ME := Undo(id)])
            else m'.(pcs := map[ME := Mapped(id, p)])
  {
  }

  lemma MmapFailNext(m: State, id: nat)
    requires Alone(m, Registered(id))
    ensures Enabled(m, ME, MmapFail) && Next(m, ME, MmapFail) == m.(pcs := map[ME := Undo(id)])
  {
  }

  lemma CacheAddNext(m: State, id: nat, p: nat)
    requires Alone(m, Mapped(id, p))
    ensures forall added :: Enabled(m, ME, CacheAdd(added))
    ensures Next(m, ME, CacheAdd(true)) == m.(cache := m.cache + [Entry(p, id)], pcs := map[ME := Idle])
    ensures Next(m, ME, CacheAdd(false)) == m.(stranded := m.stranded + {Base(p)}, pcs := map[ME := Undo(id)])
  {
  }

  lemma MunmapNext(m: State, p: nat, size: nat, ok: bool)
    requires Alone(m, Unmapping(p, size))
    ensures Enabled(m, ME, Munmap(ok))
    ensures Next(m, ME, Munmap(ok)) == Unmap(m, p, ok).(pcs := map[ME := Idle])
  {
  }

  // ----- a whole call as a run -----

  /** What follows once the cache has given up the id of a pointer. */
  ghost function Dispose(s: State, id: nat, p: nat, a: DeAnswers): State {
    if a.qbuf != 0 then s.(lost := s.lost + {id}, stranded := s.stranded + {Base(p)})
    else Unmap(Unregister(s, id, a.urbuf == 0), p, a.munmap == 0)
  }

  ghost function DeMapEffect(s: State, p: nat, a: DeAnswers): State {
    Dispose(s.(cache := Remaining(s.cache, p)), Oldest(s.cache, p), p, a)
  }

  lemma DeMapRuns(s: State, p: nat, a: DeAnswers)
    requires Alone(s, Idle) && Holds(s.cache, p) && Oldest(s.cache, p) in s.live
    ensures Leads(s, DeMapSteps(p, a), DeMapEffect(s, p, a))
  {
    var id := Oldest(s.cache, p);
    CacheDelNext(s, p);
    Then(s, [], s, CacheDel(p));
    var s1 := Next(s, ME, CacheDel(p));
    QbufNext(s1, id, p);
    Then(s, [CacheDel(p)], s1, Qbuf(a.qbuf == 0));
    if a.qbuf == 0 {
      var s2 := Next(s1, ME, Qbuf(true));
      UrbufNext(s2, s2.pcs[ME], a.urbuf == 0);
      assert [CacheDel(p)] + [Qbuf(true)] == [CacheDel(p), Qbuf(true)];
      Then(s, [CacheDel(p), Qbuf(true)], s2, Urbuf(a.urbuf == 0));
      var s3 := Next(s2, ME, Urbuf(a.urbuf == 0));
      MunmapNext(s3, p, s2.pcs[ME].size, a.munmap == 0);
      assert [CacheDel(p), Qbuf(true)] + [Urbuf(a.urbuf == 0)] == [CacheDel(p), Qbuf(true), Urbuf(a.urbuf == 0)];
      Then(s, [CacheDel(p), Qbuf(true), Urbuf(a.urbuf == 0)], s3, Munmap(a.munmap == 0));
      assert [CacheDel(p), Qbuf(true), Urbuf(a.urbuf == 0)] + [Munmap(a.munmap == 0)] == DeMapSteps(p, a);
    } else {
      assert [CacheDel(p)] + [Qbuf(false)] == DeMapSteps(p, a);
    }
  }

  /** What the driver promises about a new registration and a new mapping. */
  ghost predicate Fresh(s: State, a: Answers) {
    && (a.rbuf.Some? ==> a.rbuf.value !in s.live)
    && (a.mmap.Some? ==> a.mmap.value % PAGE_SIZE == 0 && a.mmap.value !in s.mapped)
  }

  ghost function ReMapEffect(s: State, blocks: seq<Block>, a: Answers): State
    requires blocks != []
  {
    if a.rbuf.None? || a.rbuf.value == 0 then s
    else MapEffect(s.(live := s.live[a.rbuf.value := blocks]), blocks, a)
  }

  /** The part of it that follows the registration. */
  ghost function MapEffect(s: State, blocks: seq<Block>, a: Answers): State
    requires blocks != [] && a.rbuf.Some? && a.rbuf.value != 0
  {
    var id, p := a.rbuf.value, ReMapResult(blocks, a);
    if a.mmap.None? then Unregister(s, id, a.urbuf == 0)
    else
      var m := s.(mapped := s.mapped[a.mmap.value := TotalSize(blocks)]);
      if p != 0 && a.haveMemory then m.(cache := s.cache + [Entry(p, id)])
      else Unregister(m.(stranded := s.stranded + {a.mmap.value}), id, a.urbuf == 0)
  }

  /** What a call that has planned its blocks leaves in the tables. */
  lemma ReMapSeen(s: State, blocks: seq<Block>, a: Answers)
    requires blocks != [] && Fresh(s, a)
    ensures var registered, p, m := a.rbuf.Some? && a.rbuf.value != 0, ReMapResult(blocks, a), ReMapEffect(s, blocks, a);
            var recorded := p != 0 && a.haveMemory;
            && p == (if registered && a.mmap.Some? then a.mmap.value + blocks[0].ssptr % 4096 else 0)
            && (!registered ==> m == s)
            && m.cache == s.cache + (if recorded then [Entry(p, a.rbuf.value)] else [])
            && m.mapped == (if registered && a.mmap.Some? then s.mapped[a.mmap.value := TotalSize(blocks)] else s.mapped)
            && m.live == if registered && (recorded || a.urbuf != 0) then s.live[a.rbuf.value := blocks] else s.live
  {
    assert a.rbuf.Some? ==> s.live[a.rbuf.value := blocks] - {a.rbuf.value} == s.live;
  }

  lemma DeMapSeen(s: State, p: nat, a: DeAnswers)
    requires Holds(s.cache, p)
    ensures var k, m := Find(s.cache, p), DeMapEffect(s, p, a);
            var id, base := s.cache[k].tilerId, p - p % 4096;
            && m.cache == s.cache[..k] + s.cache[k + 1..]
            && m.live == (if a.qbuf == 0 && a.urbuf == 0 then s.live - {id} else s.live)
            && m.mapped == if a.qbuf == 0 && a.munmap == 0 then s.mapped - {base} else s.mapped
  {
    assert Base(p) == p - p % 4096;
  }

  lemma ReMapRuns(s: State, blocks: seq<Block>, a: Answers)
    requires Alone(s, Idle) && blocks != [] && Fresh(s, a)
    ensures Leads(s, ReMapSteps(blocks, a), ReMapEffect(s, blocks, a))
  {
    if a.rbuf.Some? && a.rbuf.value != 0 {
      var id, rbuf, urbuf := a.rbuf.value, Rbuf(a.rbuf.value, blocks), Urbuf(a.urbuf == 0);
      RbufNext(s, id, blocks);
      Then(s, [], s, rbuf);
      var s1 := Next(s, ME, rbuf);
      if a.mmap.None? {
        MmapFailNext(s1, id);
        Then(s, [rbuf], s1, MmapFail);
        assert [rbuf] + [MmapFail] == [rbuf, MmapFail];
        Finish(s, [rbuf, MmapFail], Next(s1, ME, MmapFail), id, a.urbuf == 0);
        assert [rbuf, MmapFail] + [urbuf] == ReMapSteps(blocks, a);
      } else {
        ReMapRunsMapped(s, blocks, a, s1);
      }
    }
  }

  lemma ReMapRunsMapped(s: State, blocks: seq<Block>, a: Answers, s1: State)
    requires blocks != [] && Fresh(s, a) && a.rbuf.Some? && a.rbuf.value != 0 && a.mmap.Some?
    requires s1 == s.(live := s.live[a.rbuf.value := blocks], pcs := map[ME := Registered(a.rbuf.value)])
    requires Alone(s, Idle) && Leads(s, [Rbuf(a.rbuf.value, blocks)], s1)
    ensures Leads(s, ReMapSteps(blocks, a), ReMapEffect(s, blocks, a))
  {
    var id, base, p := a.rbuf.value, a.mmap.value, ReMapResult(blocks, a);
    var rbuf, mmap, urbuf := Rbuf(id, blocks), Mmap(base), Urbuf(a.urbuf == 0);
    MmapNext(s1, id, base);
    Then(s, [rbuf], s1, mmap);
    assert [rbuf] + [mmap] == [rbuf, mmap];
    var s2 := Next(s1, ME, mmap);
    if p == 0 {
      Finish(s, [rbuf, mmap], s2, id, a.urbuf == 0);
      assert [rbuf, mmap] + [urbuf] == ReMapSteps(blocks, a);
    } else {
      CacheAddNext(s2, id, p);
      Then(s, [rbuf, mmap], s2, CacheAdd(a.haveMemory));
      assert [rbuf, mmap] + [CacheAdd(a.haveMemory)] == [rbuf, mmap, CacheAdd(a.haveMemory)];
      if !a.haveMemory {
        PointerBase(s1, id, base);
        Finish(s, [rbuf, mmap, CacheAdd(false)], Next(s2, ME, CacheAdd(false)), id, a.urbuf == 0);
        assert [rbuf, mmap, CacheAdd(false)] + [urbuf] == ReMapSteps(blocks, a);
      }
    }
  }

  /** A call that unregisters as its last step. */
  lemma Finish(s: State, steps: seq<Step>, m: State, id: nat, ok: bool)
    requires Leads(s, steps, m) && Alone(m, Undo(id))
    ensures Leads(s, steps + [Urbuf(ok)], Unregister(m, id, ok).(pcs := map[ME := Idle]))
  {
    UrbufNext(m, Undo(id), ok);
    Then(s, steps, m, Urbuf(ok));
  }

  // ----- what a caller can rely on -----

  lemma {:induction false} FindLast(c: seq<Entry>, e: Entry)
    requires !Holds(c, e.bufPtr)
    ensures Find(c + [e], e.bufPtr) == |c| && Remaining(c + [e], e.bufPtr) == c && Oldest(c + [e], e.bufPtr) == e.tilerId
  {
    if c != [] {
      assert !Holds(c[1..], e.bufPtr) by {
      }
      FindLast(c[1..], e);
      assert (c + [e])[1..] == c[1..] + [e];
    }
  }

  lemma NewPointerUnknown(s: State, blocks: seq<Block>, a: Answers)
    requires Inv(s) && blocks != [] && Fresh(s, a) && a.mmap.Some?
    ensures !Holds(s.cache, a.mmap.value + blocks[0].ssptr % PAGE_SIZE)
  {
    var p := a.mmap.value + blocks[0].ssptr % PAGE_SIZE;
    assert Base(p) == a.mmap.value;
    forall i | 0 <= i < |s.cache| ensures s.cache[i].bufPtr != p {
    }
  }

  /** A pointer that remapping returns can be unmapped later if, and only if, the cache record
      could be allocated.  The code returns the pointer in both cases. */
  lemma ReturnedPointerKnown(s: State, blocks: seq<Block>, a: Answers)
    requires Inv(s) && blocks != [] && Fresh(s, a) && ReMapResult(blocks, a) != 0
    ensures Holds(ReMapEffect(s, blocks, a).cache, ReMapResult(blocks, a)) <==> a.haveMemory
  {
    var p := ReMapResult(blocks, a);
    NewPointerUnknown(s, blocks, a);
    if a.haveMemory {
      var c := ReMapEffect(s, blocks, a).cache;
      assert c[|c| - 1].bufPtr == p;
    }
  }

  /** Unmapping undoes remapping: the cache, the registrations and the mappings are what they were. */
  lemma DeMapUndoesReMap(s: State, blocks: seq<Block>, a: Answers, d: DeAnswers)
    requires Inv(s) && blocks != [] && Fresh(s, a) && ReMapResult(blocks, a) != 0 && a.haveMemory
    requires d.qbuf == 0 && d.urbuf == 0 && d.munmap == 0
    ensures DeMapEffect(ReMapEffect(s, blocks, a), ReMapResult(blocks, a), d) == s
  {
    var id, p := a.rbuf.value, ReMapResult(blocks, a);
    NewPointerUnknown(s, blocks, a);
    FindLast(s.cache, Entry(p, id));
    assert Base(p) == a.mmap.value;
    assert s.live[id := blocks] - {id} == s.live;
    assert s.mapped[a.mmap.value := TotalSize(blocks)] - {a.mmap.value} == s.mapped;
  }

  /** All that unmapping needs to know before it touches the driver, and what it leaves. */
  lemma DeMapCall(s: State, p: nat, a: DeAnswers)
    requires Inv(s) && Alone(s, Idle)
    ensures Oldest(s.cache, p) == 0 <==> !Holds(s.cache, p)
    ensures Holds(s.cache, p) ==>
              && Fits(s.live, s.mapped, Oldest(s.cache, p), p)
              && Leads(s, DeMapSteps(p, a), DeMapEffect(s, p, a))
              && Inv(DeMapEffect(s, p, a))
  {
    ZeroMeansAbsent(s.cache, p);
    if Holds(s.cache, p) {
      DeMapRuns(s, p, a);
      RunKeepsInv(s, Mine(DeMapSteps(p, a)));
    }
  }

  lemma ReMapCall(s: State, blocks: seq<Block>, a: Answers)
    requires Inv(s) && Alone(s, Idle) && blocks != [] && Fresh(s, a)
    ensures Leads(s, ReMapSteps(blocks, a), ReMapEffect(s, blocks, a)) && Inv(ReMapEffect(s, blocks, a))
  {
    ReMapRuns(s, blocks, a);
    RunKeepsInv(s, Mine(ReMapSteps(blocks, a)));
  }

  lemma IdleInitHolds()
    ensures Inv(INIT.(pcs := map[ME := Idle]))
  {
  }

  // ----- the calls themselves -----

  /** The tiler driver's registrations and the process's mappings.  The preconditions say what a
      caller has to get right: an id must be registered, and a region is unmapped as it was mapped. */
  class Kernel {
    var live: map<nat, seq<Block>>
    var mapped: map<nat, nat>

    constructor ()
      ensures live == map[] && mapped == map[]
    {
      live, mapped := map[], map[];
    }

    method Rbuf(offset: nat, blocks: seq<Block>)
      requires offset !in live
      modifies this`live
      ensures live == old(live)[offset := blocks]
    {
      live := live[offset := blocks];
    }

    method Urbuf(offset: nat, res: int)
      requires offset in live
      modifies this`live
      ensures live == if res == 0 then old(live) - {offset} else old(live)
    {
      if res == 0 {
        live := live - {offset};
      }
    }

    method Mmap(base: nat, size: nat)
      requires base !in mapped
      modifies this`mapped
      ensures mapped == old(mapped)[base := size]
    {
      mapped := mapped[base := size];
    }

    method Munmap(base: nat, size: nat, res: int)
      requires base in mapped && mapped[base] == size
      modifies this`mapped
      ensures mapped == if res == 0 then old(mapped) - {base} else old(mapped)
    {
      if res == 0 {
        mapped := mapped - {base};
      }
    }
  }

  class Remapper {
    const cache: Cache
    const kernel: Kernel
    ghost var lost: set<nat>
    ghost var stranded: set<nat>

    ghost function Abs(): State
      reads this, cache, kernel
    {
      State(cache.contents, kernel.live, kernel.mapped, map[ME := Idle], lost, stranded)
    }

    ghost predicate Valid()
      reads this, cache, cache.ring, kernel
    {
      cache.Valid() && Inv(Abs())
    }

    constructor ()
      ensures Valid() && Abs() == INIT.(pcs := map[ME := Idle])
      ensures fresh(cache) && fresh(cache.ring) && fresh(kernel)
    {
      cache := new Cache();
      kernel := new Kernel();
      lost, stranded := {}, {};
      IdleInitHolds();
    }

    method ReMap(numBlocks: int, lengths: seq<nat>, a: Answers)
      returns (bufPtr: nat, ghost tr: seq<Event<Step>>, ghost blocks: seq<Block>, ghost gaps: seq<nat>)
      requires Valid() && Fresh(Abs(), a)
      requires 0 < numBlocks <= a.maxBlocks && a.device ==> AllMeasurable(numBlocks, lengths, a.queries)
      modifies this, cache, cache.ring, kernel
      ensures Valid() && Run(old(Abs()), tr) == Some(Abs())
      ensures forall x :: x in cache.ring ==> x in old(cache.ring) || fresh(x)
      ensures var accepted :=
                && 0 < numBlocks <= a.maxBlocks && a.device
                && forall i :: 0 <= i < numBlocks ==>
                                 && lengths[i] % 4096 == 0 && a.queries[i].ssptr.Some? && a.queries[i].ssptr.value != 0
                                 && a.queries[i].res == 0 && a.queries[i].blk.ssptr != 0;
              var registered := accepted && a.rbuf.Some? && a.rbuf.value != 0;
              var mapped := registered && a.mmap.Some?;
              var recorded := bufPtr != 0 && a.haveMemory;
              && bufPtr == (if mapped then a.mmap.value + a.queries[0].blk.ssptr % 4096 else 0)
              && (blocks != [] <==> accepted)
              && (!registered ==> Abs() == old(Abs()))
              && cache.contents == old(cache.contents) + (if recorded then [Entry(bufPtr, a.rbuf.value)] else [])
              && (accepted ==>
                    && |blocks| == numBlocks && Planned(blocks, gaps, lengths, a.queries)
                    && TotalSize(blocks) + Sum(gaps) == Sum(lengths[..numBlocks]))
              && kernel.mapped == (if mapped then old(kernel.mapped)[a.mmap.value := TotalSize(blocks)] else old(kernel.mapped))
              && kernel.live == if registered && (recorded || a.urbuf != 0) then old(kernel.live)[a.rbuf.value := blocks]
                                else old(kernel.live)
      ensures tr == if blocks == [] then [] else Mine(ReMapSteps(blocks, a))
    {
      bufPtr, tr, blocks, gaps := 0, [], [], [];
      if numBlocks <= 0 || numBlocks > a.maxBlocks || !a.device {
        return;
      }
      var plan, size;
      plan, size, gaps := PlanBlocks(numBlocks, lengths, a.queries);
      if plan.None? {
        return;
      }
      blocks := plan.value;
      bufPtr, tr := MapPlanned(plan.value, size, a);
      assert PlannedOne(blocks[0], gaps[0], lengths[0], a.queries[0]);
    }

    /** The call once the blocks have been planned. */
    method MapPlanned(blocks: seq<Block>, size: nat, a: Answers) returns (bufPtr: nat, ghost tr: seq<Event<Step>>)
      requires Valid() && Fresh(Abs(), a) && blocks != [] && size == TotalSize(blocks)
      modifies this, cache, cache.ring, kernel
      ensures Valid() && Run(old(Abs()), tr) == Some(Abs())
      ensures forall x :: x in cache.ring ==> x in old(cache.ring) || fresh(x)
      ensures tr == Mine(ReMapSteps(blocks, a))
      ensures var registered := a.rbuf.Some? && a.rbuf.value != 0;
              var mapped := registered && a.mmap.Some?;
              var recorded := bufPtr != 0 && a.haveMemory;
              && bufPtr == (if mapped then a.mmap.value + blocks[0].ssptr % 4096 else 0)
              && (!registered ==> Abs() == old(Abs()))
              && cache.contents == old(cache.contents) + (if recorded then [Entry(bufPtr, a.rbuf.value)] else [])
              && kernel.mapped == (if mapped then old(kernel.mapped)[a.mmap.value := size] else old(kernel.mapped))
              && kernel.live == if registered && (recorded || a.urbuf != 0) then old(kernel.live)[a.rbuf.value := blocks]
                                else old(kernel.live)
    {
      ghost var s := Abs();
      ReMapCall(s, blocks, a);
      tr := Mine(ReMapSteps(blocks, a));
      bufPtr := MapBlocks(blocks, size, a);
      assert Abs() == ReMapEffect(s, blocks, a);
      ReMapSeen(s, blocks, a);
    }

    /** From the registration to the end of the call. */
    method MapBlocks(blocks: seq<Block>, size: nat, a: Answers) returns (bufPtr: nat)
      requires cache.Valid() && Fresh(Abs(), a) && blocks != [] && size == TotalSize(blocks)
      modifies this, cache, cache.ring, kernel
      ensures cache.Valid() && Abs() == ReMapEffect(old(Abs()), blocks, a)
      ensures forall x :: x in cache.ring ==> x in old(cache.ring) || fresh(x)
      ensures bufPtr == ReMapResult(blocks, a)
    {
      bufPtr := 0;
      if a.rbuf.None? || a.rbuf.value == 0 {
        return;
      }
      kernel.Rbuf(a.rbuf.value, blocks);
      bufPtr := MapRegistered(a.rbuf.value, blocks, size, a);
    }

    method MapRegistered(offset: nat, blocks: seq<Block>, size: nat, a: Answers) returns (bufPtr: nat)
      requires cache.Valid() && offset != 0 && a.rbuf == Some(offset) && offset in kernel.live
      requires blocks != [] && size == TotalSize(blocks) && (a.mmap.Some? ==> a.mmap.value !in kernel.mapped)
      modifies this, cache, cache.ring, kernel
      ensures cache.Valid() && Abs() == MapEffect(old(Abs()), blocks, a)
      ensures forall x :: x in cache.ring ==> x in old(cache.ring) || fresh(x)
      ensures bufPtr == ReMapResult(blocks, a)
    {
      bufPtr := 0;
      if a.mmap.Some? {
        kernel.Mmap(a.mmap.value, size);
        bufPtr := a.mmap.value + blocks[0].ssptr % PAGE_SIZE;
      }
      var res := -1;
      if bufPtr != 0 {
        res := cache.Add(bufPtr, offset, a.haveMemory);
      }
      if res != 0 {
        GiveUp(offset, a);
      }
    }

    /** Unregisters the buffer; a region that was mapped stays mapped. */
    method GiveUp(offset: nat, a: Answers)
      requires offset in kernel.live
      modifies this`lost, this`stranded, kernel`live
      ensures var s := old(Abs());
              Abs() == Unregister(if a.mmap.Some? then s.(stranded := s.stranded + {a.mmap.value}) else s, offset, a.urbuf == 0)
    {
      if a.mmap.Some? {
        stranded := stranded + {a.mmap.value};
      }
      UnregisterBuffer(offset, a.urbuf);
    }

    method UnregisterBuffer(offset: nat, urbuf: int)
      requires offset in kernel.live
      modifies this`lost, kernel`live
      ensures Abs() == Unregister(old(Abs()), offset, urbuf == 0)
    {
      kernel.Urbuf(offset, urbuf);
      if urbuf != 0 {
        lost := lost + {offset};
      }
    }

    method DeMap(bufPtr: nat, a: DeAnswers) returns (ret: int, ghost tr: seq<Event<Step>>)
      requires Valid()
      modifies this, cache, cache.ring, kernel
      ensures Valid() && Run(old(Abs()), tr) == Some(Abs())
      ensures forall x :: x in cache.ring ==> x in old(cache.ring)
      ensures tr == if a.device && Holds(old(cache.contents), bufPtr) then Mine(DeMapSteps(bufPtr, a)) else []
      ensures ret == 0 <==>
              && a.device && Holds(old(cache.contents), bufPtr)
              && a.qbuf == 0 && a.urbuf == 0 && a.munmap == 0
      ensures if a.device && Holds(old(cache.contents), bufPtr) then
                var k := Find(old(cache.contents), bufPtr);
                var id, base := old(cache.contents)[k].tilerId, bufPtr - bufPtr % 4096;
                && (a.qbuf != 0 ==> ret == a.qbuf)
                && (a.qbuf == 0 && a.urbuf != 0 ==> ret == a.urbuf)
                && (a.qbuf == 0 && a.urbuf == 0 ==> ret == a.munmap)
                && cache.contents == old(cache.contents)[..k] + old(cache.contents)[k + 1..]
                && kernel.live == (if a.qbuf == 0 && a.urbuf == 0 then old(kernel.live) - {id} else old(kernel.live))
                && kernel.mapped == if a.qbuf == 0 && a.munmap == 0 then old(kernel.mapped) - {base} else old(kernel.mapped)
              else ret == 1 && Abs() == old(Abs())
    {
      ghost var s := Abs();
      ret, tr := ERR_GENERIC, [];
      if !a.device {
        return;
      }
      DeMapCall(s, bufPtr, a);
      ret := ForgetAndUnmap(bufPtr, a);
      if Holds(s.cache, bufPtr) {
        tr := Mine(DeMapSteps(bufPtr, a));
        DeMapSeen(s, bufPtr, a);
      }
    }

    /** The call once the device is open. */
    method ForgetAndUnmap(bufPtr: nat, a: DeAnswers) returns (ret: int)
      requires cache.Valid() && (Oldest(cache.contents, bufPtr) == 0 <==> !Holds(cache.contents, bufPtr))
      requires Holds(cache.contents, bufPtr) ==>
                 Fits(kernel.live, kernel.mapped, Oldest(cache.contents, bufPtr), bufPtr)
      modifies this, cache, cache.ring, kernel
      ensures cache.Valid() && forall x :: x in cache.ring ==> x in old(cache.ring)
      ensures Abs() == if Holds(old(cache.contents), bufPtr) then DeMapEffect(old(Abs()), bufPtr, a) else old(Abs())
      ensures if Holds(old(cache.contents), bufPtr) then
                && (a.qbuf != 0 ==> ret == a.qbuf)
                && (a.qbuf == 0 && a.urbuf != 0 ==> ret == a.urbuf)
                && (a.qbuf == 0 && a.urbuf == 0 ==> ret == a.munmap)
              else ret == ERR_GENERIC
    {
      ret := ERR_GENERIC;
      var offset := cache.Del(bufPtr);
      if offset != 0 {
        ret := UnmapBlocks(bufPtr, offset, a);
      }
    }

    /** From the query of the registered blocks to the end of the call. */
    method UnmapBlocks(bufPtr: nat, offset: nat, a: DeAnswers) returns (ret: int)
      requires Fits(kernel.live, kernel.mapped, offset, bufPtr)
      modifies this`lost, this`stranded, kernel
      ensures Abs() == Dispose(old(Abs()), offset, bufPtr, a)
      ensures a.qbuf != 0 ==> ret == a.qbuf
      ensures a.qbuf == 0 && a.urbuf != 0 ==> ret == a.urbuf
      ensures a.qbuf == 0 && a.urbuf == 0 ==> ret == a.munmap
    {
      ret := a.qbuf;
      if ret == 0 {
        var blocks := kernel.live[offset];
        UnregisterBuffer(offset, a.urbuf);
        ret := a.urbuf;
        var size := AddSizes(blocks);
        var base := Base(bufPtr);
        kernel.Munmap(base, size, a.munmap);
        if a.munmap != 0 {
          stranded := stranded + {base};
        }
        ret := if ret != 0 then ret else a.munmap;
      } else {
        lost, stranded := lost + {offset}, stranded + {Base(bufPtr)};
      }
    }

    method AddSizes(blocks: seq<Block>) returns (size: nat)
      ensures size == TotalSize(blocks)
    {
      size := 0;
      for ix := 0 to |blocks|
        invariant size == TotalSize(blocks[..ix])
      {
        assert blocks[..ix + 1] == blocks[..ix] + [blocks[ix]];
        TotalSizeAppend(blocks[..ix], blocks[ix]);
        size := size + Size(blocks[ix]);
      }
      assert blocks[..|blocks|] == blocks;
    }
  }
}
