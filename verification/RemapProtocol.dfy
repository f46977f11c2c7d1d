/** Remapping and unmapping by any number of threads, as interleaved steps.

    A step is one call into the driver or one operation on the cache, which its mutex makes
    atomic.  Every driver call may fail.  `lost` and `stranded` are bookkeeping: registrations
    and mappings that a failed call, or a cache record that could not be allocated, left behind. */
module RemapProtocol {
  import opened WidthInference
  import opened RemapCache
  import opened Ledgers
  import opened Sequences
  import opened Threads

  function Base(p: nat): nat {
    p / PAGE_SIZE * PAGE_SIZE
  }

  function TotalSize(blocks: seq<Block>): nat {
    if blocks == [] then 0 else Size(blocks[0]) + TotalSize(blocks[1..])
  }

  /** Where a thread stands between two steps. */
  datatype Pc =
    | Idle
    | Registered(id: nat)
    | Mapped(id: nat, ptr: nat)
    | Undo(id: nat)
    | Popped(id: nat, ptr: nat)
    | Queried(id: nat, ptr: nat, size: nat)
    | Unmapping(ptr: nat, size: nat)

  datatype Step =
    | Rbuf(id: nat, blocks: seq<Block>)
    | Mmap(base: nat)
    | MmapFail
    | CacheAdd(added: bool)
    | CacheDel(bufPtr: nat)
    | Qbuf(ok: bool)
    | Urbuf(ok: bool)
    | Munmap(ok: bool)

  datatype State = State(
    cache: seq<Entry>,
    live: map<nat, seq<Block>>,   // the driver's registrations
    mapped: map<nat, nat>,        // mapped regions: base address to size
    pcs: map<Tid, Pc>,
    lost: set<nat>,
    stranded: set<nat>)

  const INIT := State([], map[], map[], map[], {}, {})

  function At(s: State, t: Tid): Pc {
    if t in s.pcs then s.pcs[t] else Idle
  }

  /** The pointer handed out: the mapping's base plus the offset of the first block in its page. */
  function Pointer(s: State, id: nat, base: nat): nat {
    base + if id in s.live && s.live[id] != [] then s.live[id][0].ssptr % PAGE_SIZE else 0
  }

  /** Which steps thread `t` can take.  Of the driver this assumes that a new registration has a
      non-zero id and a new mapping a page-aligned base, neither of them in use. */
  ghost predicate Enabled(s: State, t: Tid, step: Step) {
    match (step, At(s, t))
    case (Rbuf(id, blocks), Idle) => id != 0 && id !in s.live && blocks != []
    case (Mmap(base), Registered(_)) => base % PAGE_SIZE == 0 && base !in s.mapped
    case (MmapFail, Registered(_)) => true
    case (CacheAdd(_), Mapped(_, _)) => true
    case (CacheDel(p), Idle) => Holds(s.cache, p)
    case (Qbuf(_), Popped(_, _)) => true
    case (Urbuf(_), Undo(_)) => true
    case (Urbuf(_), Queried(_, _, _)) => true
    case (Munmap(_), Unmapping(_, _)) => true
    case _ => false
  }

  ghost function Next(s: State, t: Tid, step: Step): State
    requires Enabled(s, t, step)
  {
    match (step, At(s, t))
    case (Rbuf(id, blocks), _) =>
      s.(live := s.live[id := blocks], pcs := s.pcs[t := Registered(id)])
    case (Mmap(base), Registered(id)) =>
      var size := if id in s.live then TotalSize(s.live[id]) else 0;
      var mapped := s.mapped[base := size];
      if Pointer(s, id, base) == 0 then
        s.(mapped := mapped, stranded := s.stranded + {base}, pcs := s.pcs[t := Undo(id)])
      else
        s.(mapped := mapped, pcs := s.pcs[t := Mapped(id, Pointer(s, id, base))])
    case (MmapFail, Registered(id)) =>
      s.(pcs := s.pcs[t := Undo(id)])
    case (CacheAdd(true), Mapped(id, p)) =>
      s.(cache := s.cache + [Entry(p, id)], pcs := s.pcs[t := Idle])
    case (CacheAdd(false), Mapped(id, p)) =>
      s.(stranded := s.stranded + {Base(p)}, pcs := s.pcs[t := Undo(id)])
    case (CacheDel(p), _) =>
      s.(cache := Remaining(s.cache, p), pcs := s.pcs[t := Popped(Oldest(s.cache, p), p)])
    case (Qbuf(true), Popped(id, p)) =>
      s.(pcs := s.pcs[t := Queried(id, p, if id in s.live then TotalSize(s.live[id]) else 0)])
    case (Qbuf(false), Popped(id, p)) =>
      s.(lost := s.lost + {id}, stranded := s.stranded + {Base(p)}, pcs := s.pcs[t := Idle])
    case (Urbuf(ok), pc) =>
      var s' := s.(pcs := s.pcs[t := if pc.Queried? then Unmapping(pc.ptr, pc.size) else Idle]);
      if ok then s'.(live := s.live - {pc.id}) else s'.(lost := s.lost + {pc.id})
    case (Munmap(ok), pc) =>
      var s' := s.(pcs := s.pcs[t := Idle]);
      if ok then s'.(mapped := s.mapped - {Base(pc.ptr)}) else s'.(stranded := s.stranded + {Base(pc.ptr)})
  }

  /** Rounding the pointer down to a page, as unmapping does, finds the mapping's base again. */
  lemma PointerBase(s: State, id: nat, base: nat)
    requires base % PAGE_SIZE == 0
    ensures Base(Pointer(s, id, base)) == base
  {
  }

  // ----- the two ledgers -----

  ghost function IdOf(pc: Pc): set<nat> {
    if pc.Idle? || pc.Unmapping? then {} else {pc.id}
  }

  ghost function BaseOf(pc: Pc): set<nat> {
    if pc.Mapped? || pc.Popped? || pc.Queried? || pc.Unmapping? then {Base(pc.ptr)} else {}
  }

  ghost function Ids(c: seq<Entry>): seq<nat> {
    seq(|c|, i requires 0 <= i < |c| => c[i].tilerId)
  }

  ghost function Bases(c: seq<Entry>): seq<nat> {
    seq(|c|, i requires 0 <= i < |c| => Base(c[i].bufPtr))
  }

  ghost function HeldIds(pcs: map<Tid, Pc>): map<Tid, set<nat>> {
    map t | t in pcs :: IdOf(pcs[t])
  }

  ghost function HeldBases(pcs: map<Tid, Pc>): map<Tid, set<nat>> {
    map t | t in pcs :: BaseOf(pcs[t])
  }

  ghost function IdLedger(s: State): Ledger {
    Ledger(s.live.Keys, Ids(s.cache), HeldIds(s.pcs), s.lost)
  }

  ghost function BaseLedger(s: State): Ledger {
    Ledger(s.mapped.Keys, Bases(s.cache), HeldBases(s.pcs), s.stranded)
  }

  lemma CacheAppend(c: seq<Entry>, e: Entry)
    ensures Ids(c + [e]) == Ids(c) + [e.tilerId]
    ensures Bases(c + [e]) == Bases(c) + [Base(e.bufPtr)]
  {
  }

  lemma CacheRemove(c: seq<Entry>, k: nat)
    requires k < |c|
    ensures Ids(RemoveAt(c, k)) == RemoveAt(Ids(c), k)
    ensures Bases(RemoveAt(c, k)) == RemoveAt(Bases(c), k)
  {
  }

  // ----- the invariant -----

  /** A pointer and an id that belong together: the region mapped at the pointer's base has
      exactly the size of the blocks registered under the id. */
  ghost predicate Fits(live: map<nat, seq<Block>>, mapped: map<nat, nat>, id: nat, p: nat) {
    && Known(live, id) && live[id] != []
    && p != 0 && p == Base(p) + live[id][0].ssptr % PAGE_SIZE
    && Sized(mapped, p, TotalSize(live[id]))
  }

  ghost predicate Known(live: map<nat, seq<Block>>, id: nat) {
    id != 0 && id in live
  }

  ghost predicate Sized(mapped: map<nat, nat>, p: nat, size: nat) {
    Base(p) in mapped && mapped[Base(p)] == size
  }

  ghost predicate PcFits(live: map<nat, seq<Block>>, mapped: map<nat, nat>, pc: Pc) {
    match pc
    case Idle => true
    case Registered(id) => Known(live, id) && live[id] != []
    case Undo(id) => Known(live, id)
    case Mapped(id, p) => Fits(live, mapped, id, p)
    case Popped(id, p) => Fits(live, mapped, id, p)
    case Queried(id, p, size) => Fits(live, mapped, id, p) && Sized(mapped, p, size)
    case Unmapping(p, size) => Sized(mapped, p, size)
  }

  ghost predicate AllFit(s: State) {
    && (forall e :: e in s.cache ==> Fits(s.live, s.mapped, e.tilerId, e.bufPtr))
    && (forall t :: t in s.pcs ==> PcFits(s.live, s.mapped, s.pcs[t]))
  }

  ghost predicate LedgersBalanced(s: State) {
    Balanced(IdLedger(s)) && Balanced(BaseLedger(s))
  }

  ghost predicate Inv(s: State) {
    LedgersBalanced(s) && AllFit(s)
  }

  lemma InitHolds()
    ensures Inv(INIT)
  {
  }

  /** What `t` holds before a step, and how its hands change. */
  lemma Hands(s: State, t: Tid, s': State)
    requires s'.pcs == s.pcs[t := At(s', t)]
    ensures HeldBy(IdLedger(s), t) == IdOf(At(s, t)) && HeldBy(BaseLedger(s), t) == BaseOf(At(s, t))
    ensures HeldIds(s'.pcs) == HeldIds(s.pcs)[t := IdOf(At(s', t))]
    ensures HeldBases(s'.pcs) == HeldBases(s.pcs)[t := BaseOf(At(s', t))]
  {
  }

  lemma RbufLedgers(s: State, t: Tid, id: nat, blocks: seq<Block>)
    requires LedgersBalanced(s) && Enabled(s, t, Rbuf(id, blocks))
    ensures LedgersBalanced(Next(s, t, Rbuf(id, blocks)))
  {
    var s' := Next(s, t, Rbuf(id, blocks));
    Hands(s, t, s');
    Acquire(IdLedger(s), t, id);
    Keep(BaseLedger(s), t);
  }

  lemma MmapIds(s: State, t: Tid, base: nat)
    requires LedgersBalanced(s) && Enabled(s, t, Mmap(base))
    ensures Balanced(IdLedger(Next(s, t, Mmap(base))))
  {
    Hands(s, t, Next(s, t, Mmap(base)));
    Keep(IdLedger(s), t);
  }

  lemma MmapBases(s: State, t: Tid, base: nat)
    requires LedgersBalanced(s) && Enabled(s, t, Mmap(base))
    ensures Balanced(BaseLedger(Next(s, t, Mmap(base))))
  {
    var l, id := BaseLedger(s), At(s, t).id;
    Hands(s, t, Next(s, t, Mmap(base)));
    if Pointer(s, id, base) == 0 {
      Waste(l, t, base);
    } else {
      PointerBase(s, id, base);
      Acquire(l, t, base);
    }
  }

  lemma CacheAddLedgers(s: State, t: Tid, added: bool)
    requires LedgersBalanced(s) && Enabled(s, t, CacheAdd(added))
    ensures LedgersBalanced(Next(s, t, CacheAdd(added)))
  {
    var s', pc := Next(s, t, CacheAdd(added)), At(s, t);
    Hands(s, t, s');
    if added {
      CacheAppend(s.cache, Entry(pc.ptr, pc.id));
      Deposit(IdLedger(s), t, pc.id);
      Deposit(BaseLedger(s), t, Base(pc.ptr));
    } else {
      Keep(IdLedger(s), t);
      Abandon(BaseLedger(s), t, Base(pc.ptr));
    }
  }

  lemma CacheDelLedgers(s: State, t: Tid, p: nat)
    requires LedgersBalanced(s) && Enabled(s, t, CacheDel(p))
    ensures LedgersBalanced(Next(s, t, CacheDel(p)))
  {
    var s', k := Next(s, t, CacheDel(p)), Find(s.cache, p);
    Hands(s, t, s');
    CacheRemove(s.cache, k);
    Withdraw(IdLedger(s), t, k);
    Withdraw(BaseLedger(s), t, k);
  }

  lemma QbufLedgers(s: State, t: Tid, ok: bool)
    requires LedgersBalanced(s) && Enabled(s, t, Qbuf(ok))
    ensures LedgersBalanced(Next(s, t, Qbuf(ok)))
  {
    var s', pc := Next(s, t, Qbuf(ok)), At(s, t);
    Hands(s, t, s');
    if ok {
      Keep(IdLedger(s), t);
      Keep(BaseLedger(s), t);
    } else {
      Abandon(IdLedger(s), t, pc.id);
      Abandon(BaseLedger(s), t, Base(pc.ptr));
    }
  }

  lemma UrbufLedgers(s: State, t: Tid, ok: bool)
    requires LedgersBalanced(s) && Enabled(s, t, Urbuf(ok))
    ensures LedgersBalanced(Next(s, t, Urbuf(ok)))
  {
    var s', pc := Next(s, t, Urbuf(ok)), At(s, t);
    Hands(s, t, s');
    Keep(BaseLedger(s), t);
    if ok {
      Release(IdLedger(s), t, pc.id);
    } else {
      Abandon(IdLedger(s), t, pc.id);
    }
  }

  lemma MunmapLedgers(s: State, t: Tid, ok: bool)
    requires LedgersBalanced(s) && Enabled(s, t, Munmap(ok))
    ensures LedgersBalanced(Next(s, t, Munmap(ok)))
  {
    var s', pc := Next(s, t, Munmap(ok)), At(s, t);
    Hands(s, t, s');
    Keep(IdLedger(s), t);
    if ok {
      Release(BaseLedger(s), t, Base(pc.ptr));
    } else {
      Abandon(BaseLedger(s), t, Base(pc.ptr));
    }
  }

  lemma LedgersKept(s: State, t: Tid, step: Step)
    requires LedgersBalanced(s) && Enabled(s, t, step)
    ensures LedgersBalanced(Next(s, t, step))
  {
    match step
    case Rbuf(id, blocks) => RbufLedgers(s, t, id, blocks);
    case Mmap(base) =>
      MmapIds(s, t, base);
      MmapBases(s, t, base);
    case MmapFail =>
      Hands(s, t, Next(s, t, step));
      Keep(IdLedger(s), t);
      Keep(BaseLedger(s), t);
    case CacheAdd(added) => CacheAddLedgers(s, t, added);
    case CacheDel(p) => CacheDelLedgers(s, t, p);
    case Qbuf(ok) => QbufLedgers(s, t, ok);
    case Urbuf(ok) => UrbufLedgers(s, t, ok);
    case Munmap(ok) => MunmapLedgers(s, t, ok);
  }

  /** Whether a thread's position fits depends only on what it holds. */
  lemma FitsAgree(s: State, s': State, pc: Pc)
    requires PcFits(s.live, s.mapped, pc)
    requires forall id :: id in IdOf(pc) && id in s.live ==> id in s'.live && s'.live[id] == s.live[id]
    requires forall b :: b in BaseOf(pc) && b in s.mapped ==> b in s'.mapped && s'.mapped[b] == s.mapped[b]
    ensures PcFits(s'.live, s'.mapped, pc)
  {
  }

  /** The only items a step takes out of the driver's tables are those the thread holds. */
  lemma OthersUntouched(s: State, t: Tid, step: Step)
    requires Enabled(s, t, step)
    ensures var s' := Next(s, t, step);
            && (forall id :: id in s.live && id !in IdOf(At(s, t)) ==> id in s'.live && s'.live[id] == s.live[id])
            && (forall b :: b in s.mapped && b !in BaseOf(At(s, t)) ==> b in s'.mapped && s'.mapped[b] == s.mapped[b])
  {
  }

  lemma HandsApart(s: State, t: Tid, u: Tid)
    requires LedgersBalanced(s) && u in s.pcs && u != t
    ensures IdOf(At(s, t)) !! IdOf(s.pcs[u]) && BaseOf(At(s, t)) !! BaseOf(s.pcs[u])
  {
    var l, m := IdLedger(s), BaseLedger(s);
    assert l.held[u] == IdOf(s.pcs[u]) && m.held[u] == BaseOf(s.pcs[u]);
    assert t in l.held ==> l.held[t] !! l.held[u];
    assert t in m.held ==> m.held[t] !! m.held[u];
  }

  lemma OthersFit(s: State, t: Tid, step: Step, u: Tid)
    requires LedgersBalanced(s) && Enabled(s, t, step) && u in s.pcs && u != t
    requires PcFits(s.live, s.mapped, s.pcs[u])
    ensures var s' := Next(s, t, step); s'.pcs[u] == s.pcs[u] && PcFits(s'.live, s'.mapped, s'.pcs[u])
  {
    HandsApart(s, t, u);
    OthersUntouched(s, t, step);
    FitsAgree(s, Next(s, t, step), s.pcs[u]);
  }

  lemma RecordsApart(s: State, t: Tid, e: Entry)
    requires LedgersBalanced(s) && e in s.cache
    ensures e.tilerId !in IdOf(At(s, t)) && Base(e.bufPtr) !in BaseOf(At(s, t))
  {
    var pc, l, m := At(s, t), IdLedger(s), BaseLedger(s);
    assert HeldBy(l, t) == IdOf(pc) && HeldBy(m, t) == BaseOf(pc);
    var i :| 0 <= i < |s.cache| && s.cache[i] == e;
    assert l.listed[i] == e.tilerId && m.listed[i] == Base(e.bufPtr);
    if IdOf(pc) != {} {
      Exclusive(l, t, pc.id);
    }
    if BaseOf(pc) != {} {
      Exclusive(m, t, Base(pc.ptr));
    }
  }

  lemma RecordsFit(s: State, t: Tid, step: Step, e: Entry)
    requires LedgersBalanced(s) && Enabled(s, t, step) && e in s.cache
    requires Fits(s.live, s.mapped, e.tilerId, e.bufPtr)
    ensures var s' := Next(s, t, step); Fits(s'.live, s'.mapped, e.tilerId, e.bufPtr)
  {
    RecordsApart(s, t, e);
    OthersUntouched(s, t, step);
    FitsAgree(s, Next(s, t, step), Popped(e.tilerId, e.bufPtr));
  }

  lemma StepperFits(s: State, t: Tid, step: Step)
    requires AllFit(s) && Enabled(s, t, step)
    ensures var s' := Next(s, t, step); PcFits(s'.live, s'.mapped, At(s', t))
  {
    var pc := At(s, t);
    match step
    case Mmap(base) => PointerBase(s, pc.id, base);
    case CacheDel(p) => assert s.cache[Find(s.cache, p)] in s.cache;
    case _ =>
  }

  /** Every step of every thread keeps the books balanced and everything fitting. */
  lemma StepKeepsInv(s: State, t: Tid, step: Step)
    requires Inv(s) && Enabled(s, t, step)
    ensures Inv(Next(s, t, step))
  {
    LedgersKept(s, t, step);
    FitKept(s, t, step);
  }

  /** A record that a step adds is that of the pointer its thread has mapped. */
  lemma NewRecord(s: State, t: Tid, step: Step, e: Entry)
    requires AllFit(s) && Enabled(s, t, step) && e in Next(s, t, step).cache && e !in s.cache
    ensures At(s, t) == Mapped(e.tilerId, e.bufPtr) && t in s.pcs
    ensures var s' := Next(s, t, step); Fits(s'.live, s'.mapped, e.tilerId, e.bufPtr)
  {
  }

  lemma FitKept(s: State, t: Tid, step: Step)
    requires Inv(s) && Enabled(s, t, step)
    ensures AllFit(Next(s, t, step))
  {
    var s' := Next(s, t, step);
    StepperFits(s, t, step);
    forall u | u in s'.pcs ensures PcFits(s'.live, s'.mapped, s'.pcs[u]) {
      if u != t {
        OthersFit(s, t, step, u);
      }
    }
    forall e | e in s'.cache ensures Fits(s'.live, s'.mapped, e.tilerId, e.bufPtr) {
      if e in s.cache {
        RecordsFit(s, t, step, e);
      } else {
        NewRecord(s, t, step, e);
      }
    }
  }

  // ----- whole runs -----

  /** The state after the events of `tr`, or `None` when one of them was not possible. */
  ghost function Run(s: State, tr: seq<Event<Step>>): Option<State> {
    if tr == [] then Some(s)
    else
      var e := tr[|tr| - 1];
      match Run(s, tr[..|tr| - 1])
      case None => None
      case Some(m) => if Enabled(m, e.t, e.step) then Some(Next(m, e.t, e.step)) else None
  }

  lemma {:induction false} RunKeepsInv(s: State, tr: seq<Event<Step>>)
    requires Inv(s) && Run(s, tr).Some?
    ensures Inv(Run(s, tr).value)
  {
    if tr != [] {
      var e := tr[|tr| - 1];
      RunKeepsInv(s, tr[..|tr| - 1]);
      StepKeepsInv(Run(s, tr[..|tr| - 1]).value, e.t, e.step);
    }
  }

  ghost function CachedIds(s: State): set<nat> {
    set e | e in s.cache :: e.tilerId
  }

  ghost function CachedBases(s: State): set<nat> {
    set e | e in s.cache :: Base(e.bufPtr)
  }

  /** No thread is in the middle of a call. */
  ghost predicate Quiet(s: State) {
    forall t :: t in s.pcs ==> s.pcs[t] == Idle
  }

  /** No QBUF and no URBUF call of the run failed. */
  ghost predicate DriverAnswers(tr: seq<Event<Step>>) {
    forall e :: e in tr ==> e.step != Qbuf(false) && e.step != Urbuf(false)
  }

  /** Steps that leave a mapping behind without a record: a failed query, record allocation or
      munmap, and a mapping whose pointer comes out as NULL. */
  ghost predicate Strands(m: State, e: Event<Step>) {
    || e.step == Qbuf(false) || e.step == CacheAdd(false) || e.step == Munmap(false)
    || (e.step.Mmap? && At(m, e.t).Registered? && Pointer(m, At(m, e.t).id, e.step.base) == 0)
  }

  ghost predicate MappingsTracked(s: State, tr: seq<Event<Step>>) {
    tr == [] ||
    var init, e := tr[..|tr| - 1], tr[|tr| - 1];
    MappingsTracked(s, init) && Run(s, init).Some? && !Strands(Run(s, init).value, e)
  }

  lemma ListedAreCached(s: State)
    ensures Listed(IdLedger(s)) == CachedIds(s) && Listed(BaseLedger(s)) == CachedBases(s)
  {
    forall i | 0 <= i < |s.cache| ensures Ids(s.cache)[i] in CachedIds(s) && Bases(s.cache)[i] in CachedBases(s) {
    }
    forall e | e in s.cache ensures e.tilerId in Ids(s.cache) && Base(e.bufPtr) in Bases(s.cache) {
      var i :| 0 <= i < |s.cache| && s.cache[i] == e;
      assert Ids(s.cache)[i] == e.tilerId && Bases(s.cache)[i] == Base(e.bufPtr);
    }
  }

  /** At every moment of every run the cached ids are distinct, non-zero and registered, and the
      cached pointers lie in different mappings. */
  lemma {:induction false} CachedAreLive(tr: seq<Event<Step>>, s: State)
    requires Run(INIT, tr) == Some(s)
    ensures CachedIds(s) <= s.live.Keys && 0 !in CachedIds(s) && CachedBases(s) <= s.mapped.Keys
    ensures forall i, j :: 0 <= i < j < |s.cache| ==>
                             s.cache[i].tilerId != s.cache[j].tilerId && Base(s.cache[i].bufPtr) != Base(s.cache[j].bufPtr)
  {
    InitHolds();
    RunKeepsInv(INIT, tr);
    forall i, j | 0 <= i < j < |s.cache|
      ensures s.cache[i].tilerId != s.cache[j].tilerId && Base(s.cache[i].bufPtr) != Base(s.cache[j].bufPtr)
    {
      assert Ids(s.cache)[i] != Ids(s.cache)[j] && Bases(s.cache)[i] != Bases(s.cache)[j];
    }
  }

  lemma LostInStep(s: State, t: Tid, step: Step)
    requires Enabled(s, t, step)
    ensures Next(s, t, step).lost == {} <==> s.lost == {} && step != Qbuf(false) && step != Urbuf(false)
  {
  }

  lemma StrandedInStep(s: State, e: Event<Step>)
    requires Enabled(s, e.t, e.step)
    ensures Next(s, e.t, e.step).stranded == {} <==> s.stranded == {} && !Strands(s, e)
  {
  }

  lemma {:induction false} LostExactly(tr: seq<Event<Step>>, s: State)
    requires Run(INIT, tr) == Some(s)
    ensures s.lost == {} <==> DriverAnswers(tr)
  {
    if tr != [] {
      var rest, e := tr[..|tr| - 1], tr[|tr| - 1];
      LostExactly(rest, Run(INIT, rest).value);
      LostInStep(Run(INIT, rest).value, e.t, e.step);
      assert tr == rest + [e];
    }
  }

  lemma {:induction false} StrandedExactly(tr: seq<Event<Step>>, s: State)
    requires Run(INIT, tr) == Some(s)
    ensures s.stranded == {} <==> MappingsTracked(INIT, tr)
  {
    if tr != [] {
      var rest, e := tr[..|tr| - 1], tr[|tr| - 1];
      StrandedExactly(rest, Run(INIT, rest).value);
      StrandedInStep(Run(INIT, rest).value, e);
    }
  }

  /** Conservation of registrations.  Whenever no call is in progress, the cached ids are exactly
      the driver's registrations if, and only if, no QBUF and no URBUF call has failed. */
  lemma {:induction false} RegistrationsConserved(tr: seq<Event<Step>>, s: State)
    requires Run(INIT, tr) == Some(s) && Quiet(s)
    ensures CachedIds(s) == s.live.Keys <==> DriverAnswers(tr)
  {
    InitHolds();
    RunKeepsInv(INIT, tr);
    LostExactly(tr, s);
    ListedAreCached(s);
    Settled(IdLedger(s));
  }

  /** Conservation of mappings, likewise: the cached pointers lie in exactly the mapped regions if,
      and only if, no step of the run has stranded a mapping. */
  lemma {:induction false} MappingsConserved(tr: seq<Event<Step>>, s: State)
    requires Run(INIT, tr) == Some(s) && Quiet(s)
    ensures CachedBases(s) == s.mapped.Keys <==> MappingsTracked(INIT, tr)
  {
    InitHolds();
    RunKeepsInv(INIT, tr);
    StrandedExactly(tr, s);
    ListedAreCached(s);
    Settled(BaseLedger(s));
  }

  /** An unregistration always names a live registration that neither the cache nor any other
      thread still refers to. */
  lemma {:induction false} UnregisterIsSafe(tr: seq<Event<Step>>, s: State, t: Tid, ok: bool)
    requires Run(INIT, tr) == Some(s) && Enabled(s, t, Urbuf(ok))
    ensures var id := At(s, t).id;
            id in s.live && id !in CachedIds(s) && forall u :: u in s.pcs && u != t ==> id !in IdOf(s.pcs[u])
  {
    InitHolds();
    RunKeepsInv(INIT, tr);
    ListedAreCached(s);
    var l := IdLedger(s);
    Exclusive(l, t, At(s, t).id);
    assert forall u :: u in s.pcs ==> l.held[u] == IdOf(s.pcs[u]);
  }

  /** Unmapping names exactly the base and the byte count of a mapping that remapping made. */
  lemma {:induction false} UnmapIsExact(tr: seq<Event<Step>>, s: State, t: Tid, ok: bool)
    requires Run(INIT, tr) == Some(s) && Enabled(s, t, Munmap(ok))
    ensures var pc := At(s, t); Base(pc.ptr) in s.mapped && s.mapped[Base(pc.ptr)] == pc.size
  {
    InitHolds();
    RunKeepsInv(INIT, tr);
  }
}
