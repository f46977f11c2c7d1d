/** The lock-based atomic operations of Atomic_Ops.h, and the reference count that modules build
    from them: stamp the counter with a magic value, increment it on set-up, decrement it on
    tear-down, and do the real work when the returned value says first or last. */
module Atomics {
  import opened Sequences
  import opened Threads

  const WORD: nat := 0x1_0000_0000

  /** Bitwise and, one bit at a time from the right. */
  function BitAnd(a: nat, b: nat): nat {
    if a == 0 || b == 0 then 0 else 2 * BitAnd(a / 2, b / 2) + a % 2 * (b % 2)
  }

  /** Bit `i` of a number, counted from the right. */
  function Bit(a: nat, i: nat): nat {
    if i == 0 then a % 2 else Bit(a / 2, i - 1)
  }

  lemma {:induction false} BitAndBits(a: nat, b: nat, i: nat)
    ensures Bit(BitAnd(a, b), i) == if Bit(a, i) == 1 && Bit(b, i) == 1 then 1 else 0
  {
    if i > 0 {
      HalfBitAnd(a, b);
      BitAndBits(a / 2, b / 2, i - 1);
    } else {
      LowBitAnd(a, b);
    }
  }

  lemma LowBitAnd(a: nat, b: nat)
    ensures BitAnd(a, b) % 2 == if a % 2 == 1 && b % 2 == 1 then 1 else 0
  {
    LastBit(a % 2, b % 2);
  }

  lemma LastBit(x: nat, y: nat)
    requires x < 2 && y < 2
    ensures x * y == if x == 1 && y == 1 then 1 else 0
  {
  }

  lemma HalfBitAnd(a: nat, b: nat)
    ensures BitAnd(a, b) / 2 == BitAnd(a / 2, b / 2)
  {
    LastBit(a % 2, b % 2);
  }

  lemma {:induction false} SameBits(a: nat, b: nat)
    requires forall i: nat :: Bit(a, i) == Bit(b, i)
    ensures a == b
  {
    assert Bit(a, 0) == Bit(b, 0);
    if a > 0 || b > 0 {
      forall i: nat ensures Bit(a / 2, i) == Bit(b / 2, i) {
        assert Bit(a, i + 1) == Bit(b, i + 1);
      }
      SameBits(a / 2, b / 2);
    }
  }

  /** Every bit of the mask is set in the value. */
  ghost predicate Covers(v: nat, mask: nat) {
    forall i: nat :: Bit(mask, i) == 1 ==> Bit(v, i) == 1
  }

  /** The comparison that the code makes. */
  lemma MaskMatches(v: nat, mask: nat)
    ensures BitAnd(v, mask) == mask <==> Covers(v, mask)
  {
    forall i: nat ensures Bit(BitAnd(v, mask), i) == if Bit(v, i) == 1 && Bit(mask, i) == 1 then 1 else 0 {
      BitAndBits(v, mask, i);
    }
    if Covers(v, mask) {
      forall i: nat ensures Bit(BitAnd(v, mask), i) == Bit(mask, i) {
        OneBit(mask, i);
      }
      SameBits(BitAnd(v, mask), mask);
    }
  }

  lemma {:induction false} OneBit(a: nat, i: nat)
    ensures Bit(a, i) < 2
  {
    if i > 0 {
      OneBit(a / 2, i - 1);
    }
  }

  function Pow2(k: nat): (p: nat)
    ensures p > 0
  {
    if k == 0 then 1 else 2 * Pow2(k - 1)
  }

  /** A value whose low `k` bits are zero: `id << k`. */
  function Stamp(id: nat, k: nat): nat {
    id * Pow2(k)
  }

  lemma {:induction false} BitAndSelf(a: nat)
    ensures BitAnd(a, a) == a
  {
    if a > 0 {
      BitAndSelf(a / 2);
      BitSquare(a % 2);
    }
  }

  lemma BitSquare(b: nat)
    requires b < 2
    ensures b * b == b
  {
  }

  /** Counting in the bits below a stamp does not disturb the stamp. */
  lemma {:induction false} BitAndStamp(id: nat, k: nat, n: nat)
    requires n < Pow2(k)
    ensures BitAnd(Stamp(id, k) + n, Stamp(id, k)) == Stamp(id, k)
  {
    var m := Stamp(id, k);
    if k == 0 || m == 0 {
      BitAndSelf(m);
    } else {
      var h := Stamp(id, k - 1);
      StampDouble(id, k);
      BitAndStamp(id, k - 1, n / 2);
      AndDouble(h, n);
    }
  }

  lemma StampDouble(id: nat, k: nat)
    requires k > 0
    ensures Stamp(id, k) == 2 * Stamp(id, k - 1)
  {
  }

  lemma AndDouble(h: nat, n: nat)
    requires h > 0
    ensures BitAnd(2 * h + n, 2 * h) == 2 * BitAnd(h + n / 2, h)
  {
  }

  /** One more than the bits can count does disturb an odd stamp. */
  lemma {:induction false} StampOverflows(id: nat, k: nat)
    requires id % 2 == 1
    ensures BitAnd(Stamp(id, k) + Pow2(k), Stamp(id, k)) != Stamp(id, k)
  {
    if k > 0 {
      StampDouble(id, k);
      StampOverflows(id, k - 1);
      AndDouble(Stamp(id, k - 1), Pow2(k));
    } else {
      assert Stamp(id, 0) == id;
    }
  }

  // ----- the operations -----

  function Increment(v: nat): nat {
    (v + 1) % WORD
  }

  function Decrement(v: nat): nat {
    (v + WORD - 1) % WORD
  }

  function CmpMaskAndSet(v: nat, mask: nat, val: nat): nat {
    if BitAnd(v, mask) != mask then val else v
  }

  /** The stamp fits into a word, above `k` bits for counting. */
  ghost predicate RoomFor(id: nat, k: nat) {
    k <= 32 && id < Pow2(32 - k)
  }

  /** `v` says that `n` references are held. */
  ghost predicate Says(v: nat, id: nat, k: nat, n: int) {
    RoomFor(id, k) && 0 <= n < Pow2(k) && v == Stamp(id, k) + n
  }

  /** The variable, as a caller that holds the lock sees it, and what modules do with it: a counter
      stamped with `id`, at present saying that `n` references are held. */
  class Atomic {
    var value: nat

    method CmpMaskAndSetValue(mask: nat, val: nat, ghost id: nat, ghost k: nat, ghost n: int)
      modifies this
      ensures value == CmpMaskAndSet(old(value), mask, val)
      ensures value == if Covers(old(value), mask) then old(value) else val
      ensures mask == Stamp(id, k) && Says(old(value), id, k, n) ==> Says(value, id, k, n)
      ensures mask == val == Stamp(id, k) && RoomFor(id, k) && BitAnd(old(value), mask) != mask ==> Says(value, id, k, 0)
    {
      var ret := value;
      MaskMatches(ret, mask);
      if BitAnd(ret, mask) != mask {
        value := val;
      }
      if mask == Stamp(id, k) && Says(ret, id, k, n) {
        BitAndStamp(id, k, n);
        assert BitAnd(ret, mask) == mask;
      }
    }

    method IncReturn(ghost id: nat, ghost k: nat, ghost n: int) returns (ret: nat)
      modifies this
      ensures ret == value == Increment(old(value))
      ensures old(value) < 0xFFFF_FFFF ==> value == old(value) + 1
      ensures old(value) == 0xFFFF_FFFF ==> value == 0
      ensures Says(old(value), id, k, n) && n + 1 < Pow2(k) ==> Says(value, id, k, n + 1)
    {
      if Says(value, id, k, n) && n + 1 < Pow2(k) {
        FitsWord(id, k, n + 1);
      }
      value := (value + 1) % WORD;
      ret := value;
    }

    method DecReturn(ghost id: nat, ghost k: nat, ghost n: int) returns (ret: nat)
      modifies this
      ensures ret == value == Decrement(old(value))
      ensures 0 < old(value) <= 0xFFFF_FFFF ==> value == old(value) - 1
      ensures old(value) == 0 ==> value == 0xFFFF_FFFF
      ensures Says(old(value), id, k, n) && n > 0 ==> Says(value, id, k, n - 1)
    {
      if Says(value, id, k, n) {
        FitsWord(id, k, n);
      }
      value := (value + WORD - 1) % WORD;
      ret := value;
    }

    method Read() returns (ret: nat)
      ensures ret == value
    {
      ret := value;
    }

    /** What a module's setup does with its counter; `first` means that there is work to do. */
    method SetUp(id: nat, k: nat, ghost n: int) returns (first: bool)
      requires RoomFor(id, k) && k > 0
      requires BitAnd(value, Stamp(id, k)) != Stamp(id, k) || (Says(value, id, k, n) && n + 1 < Pow2(k))
      modifies this
      ensures var before := if BitAnd(old(value), Stamp(id, k)) != Stamp(id, k) then 0 else n;
              Says(value, id, k, before + 1) && (first <==> before == 0)
    {
      ghost var before := if BitAnd(value, Stamp(id, k)) != Stamp(id, k) then 0 else n;
      CmpMaskAndSetValue(Stamp(id, k), Stamp(id, k), id, k, n);
      var ret := IncReturn(id, k, before);
      first := ret == Stamp(id, k) + 1;
    }

    /** What its destroy does, for a caller that holds a reference. */
    method TearDown(id: nat, k: nat, ghost n: int) returns (last: bool)
      requires Says(value, id, k, n) && n > 0
      modifies this
      ensures Says(value, id, k, n - 1) && (last <==> n == 1)
    {
      var ret := DecReturn(id, k, n);
      last := ret == Stamp(id, k);
    }
  }

  // ----- reference counting, one operation at a time -----

  /** What a thread will do next: stamp, then increment, then, some time later, decrement. */
  datatype Phase = Outside | Stamped | Holding

  function Following(p: Phase): Phase {
    match p
    case Outside => Stamped
    case Stamped => Holding
    case Holding => Outside
  }

  function Apply(p: Phase, stamp: nat, v: nat): nat {
    match p
    case Outside => CmpMaskAndSet(v, stamp, stamp)
    case Stamped => Increment(v)
    case Holding => Decrement(v)
  }

  datatype Bound = SetUp | TornDown

  /** `fires` counts how often stamping wrote; `bounds` records, in order, the increments that
      returned the stamp plus one and the decrements that returned the bare stamp. */
  datatype Count = Count(v: nat, phases: map<Tid, Phase>, fires: nat, bounds: seq<Bound>)

  ghost function Holders(c: Count): set<Tid> {
    set t | t in c.phases && c.phases[t] == Holding
  }

  ghost function Tick(c: Count, stamp: nat, t: Tid): Count
    requires t in c.phases
  {
    var p := c.phases[t];
    var v := Apply(p, stamp, c.v);
    Count(v, c.phases[t := Following(p)],
          c.fires + if p == Outside && BitAnd(c.v, stamp) != stamp then 1 else 0,
          c.bounds + if p == Stamped && v == stamp + 1 then [SetUp]
          else if p == Holding && v == stamp then [TornDown] else [])
  }

  /** The variable starts without the stamp, or as the bare stamp. */
  ghost predicate GoodStart(v: nat, stamp: nat) {
    BitAnd(v, stamp) != stamp || v == stamp
  }

  ghost function Start(v: nat, threads: set<Tid>): Count {
    Count(v, map t | t in threads :: Outside, 0, [])
  }

  /** Fewer references are held than the bits below the stamp can count. */
  ghost predicate FewLive(c: Count, k: nat) {
    |Holders(c)| < Pow2(k)
  }

  ghost predicate Alternates(bounds: seq<Bound>) {
    forall i :: 0 <= i < |bounds| ==> bounds[i] == if i % 2 == 0 then SetUp else TornDown
  }

  /** Every thread is at the start, and nothing has been written. */
  ghost predicate Untouched(c: Count, v: nat) {
    c.v == v && c.fires == 0 && c.bounds == [] && forall t :: t in c.phases ==> c.phases[t] == Outside
  }

  ghost predicate Counted(c: Count, stamp: nat, v: nat) {
    && c.v == stamp + |Holders(c)|
    && c.fires == (if BitAnd(v, stamp) != stamp then 1 else 0)
    && Alternates(c.bounds) && (|c.bounds| % 2 == 1 <==> Holders(c) != {})
  }

  ghost predicate Inv(c: Count, stamp: nat, v: nat) {
    Untouched(c, v) || Counted(c, stamp, v)
  }

  lemma FitsWord(id: nat, k: nat, n: nat)
    requires k <= 32 && id < Pow2(32 - k) && n < Pow2(k)
    ensures Stamp(id, k) + n < WORD
  {
    Pow2Product(32 - k, k);
    Pow2Is32();
    Below(id, Pow2(32 - k), n, Pow2(k));
  }

  lemma {:induction false} Below(a: nat, b: nat, n: nat, p: nat)
    requires a < b && n < p
    ensures a * p + n < b * p
  {
    if b > a + 1 {
      Below(a, b - 1, n, p);
    }
  }

  lemma {:induction false} Pow2Product(a: nat, b: nat)
    ensures Pow2(a) * Pow2(b) == Pow2(a + b)
  {
    if a > 0 {
      Pow2Product(a - 1, b);
      DoubleFactor(Pow2(a - 1), Pow2(b));
    }
  }

  lemma DoubleFactor(p: nat, q: nat)
    ensures 2 * p * q == 2 * (p * q)
  {
  }

  lemma Pow2Is32()
    ensures Pow2(32) == WORD
  {
    assert Pow2(8) == 0x100;
    Pow2Product(8, 8);
    Pow2Product(16, 16);
  }

  lemma HoldersAfter(c: Count, stamp: nat, t: Tid)
    requires t in c.phases
    ensures Holders(Tick(c, stamp, t)) ==
            match c.phases[t]
            case Outside => Holders(c)
            case Stamped => Holders(c) + {t}
            case Holding => Holders(c) - {t}
    ensures t in Holders(c) <==> c.phases[t] == Holding
    ensures Holders(c) <= c.phases.Keys
  {
  }

  lemma AlternatesOn(bounds: seq<Bound>, b: Bound)
    requires Alternates(bounds) && b == if |bounds| % 2 == 0 then SetUp else TornDown
    ensures Alternates(bounds + [b])
  {
  }

  /** Every operation of every thread keeps the count right. */
  lemma TickKeepsInv(c: Count, id: nat, k: nat, v: nat, t: Tid)
    requires RoomFor(id, k) && GoodStart(v, Stamp(id, k)) && t in c.phases
    requires FewLive(c, k) && FewLive(Tick(c, Stamp(id, k), t), k)
    requires Inv(c, Stamp(id, k), v)
    ensures Counted(Tick(c, Stamp(id, k), t), Stamp(id, k), v)
  {
    var stamp := Stamp(id, k);
    HoldersAfter(c, stamp, t);
    if Untouched(c, v) {
      BitAndSelf(stamp);
      FirstTick(c, stamp, v, t);
    } else {
      match c.phases[t]
      case Outside =>
        BitAndStamp(id, k, |Holders(c)|);
        TickThrough(c, stamp, v, t);
      case Stamped =>
        OneMore(c, stamp, t);
        FitsWord(id, k, |Holders(c)| + 1);
        TickUp(c, stamp, v, t);
      case Holding =>
        FitsWord(id, k, |Holders(c)|);
        TickDown(c, stamp, v, t);
    }
  }

  lemma OneMore(c: Count, stamp: nat, t: Tid)
    requires t in c.phases && c.phases[t] == Stamped
    ensures |Holders(Tick(c, stamp, t))| == |Holders(c)| + 1
  {
    HoldersAfter(c, stamp, t);
  }

  lemma FirstTick(c: Count, stamp: nat, v: nat, t: Tid)
    requires Untouched(c, v) && GoodStart(v, stamp) && t in c.phases && BitAnd(stamp, stamp) == stamp
    ensures Counted(Tick(c, stamp, t), stamp, v)
  {
    HoldersAfter(c, stamp, t);
    assert Holders(c) == {};
  }

  lemma TickThrough(c: Count, stamp: nat, v: nat, t: Tid)
    requires Counted(c, stamp, v) && t in c.phases && c.phases[t] == Outside && BitAnd(c.v, stamp) == stamp
    ensures Counted(Tick(c, stamp, t), stamp, v)
  {
    HoldersAfter(c, stamp, t);
  }

  lemma TickUp(c: Count, stamp: nat, v: nat, t: Tid)
    requires Counted(c, stamp, v) && t in c.phases && c.phases[t] == Stamped
    requires stamp + |Holders(c)| + 1 < WORD
    ensures Counted(Tick(c, stamp, t), stamp, v)
  {
    var c' := Tick(c, stamp, t);
    HoldersAfter(c, stamp, t);
    if Holders(c) == {} {
      AlternatesOn(c.bounds, SetUp);
    }
  }

  lemma TickDown(c: Count, stamp: nat, v: nat, t: Tid)
    requires Counted(c, stamp, v) && t in c.phases && c.phases[t] == Holding
    requires stamp + |Holders(c)| < WORD
    ensures Counted(Tick(c, stamp, t), stamp, v)
  {
    var c' := Tick(c, stamp, t);
    HoldersAfter(c, stamp, t);
    if Holders(c') == {} {
      AlternatesOn(c.bounds, TornDown);
    }
  }

  lemma {:induction false} SubsetSize<T>(a: set<T>, b: set<T>)
    requires a <= b
    ensures |a| <= |b|
  {
    if a != {} {
      var x :| x in a;
      SubsetSize(a - {x}, b - {x});
    }
  }

  // ----- whole runs of atomic operations -----

  /** The threads of `ts` take one operation each, in that order. */
  ghost function Ticks(c: Count, stamp: nat, ts: seq<Tid>): (r: Count)
    requires forall t :: t in ts ==> t in c.phases
    ensures r.phases.Keys == c.phases.Keys
  {
    if ts == [] then c else Tick(Ticks(c, stamp, ts[..|ts| - 1]), stamp, ts[|ts| - 1])
  }

  /** At no moment of the run are there 2^k references or more. */
  ghost predicate AlwaysFewLive(c: Count, stamp: nat, k: nat, ts: seq<Tid>)
    requires forall t :: t in ts ==> t in c.phases
  {
    forall n :: 0 <= n <= |ts| ==> FewLive(Ticks(c, stamp, ts[..n]), k)
  }

  /** Having fewer than 2^k threads is more than enough. */
  lemma FewThreads(c: Count, stamp: nat, k: nat, ts: seq<Tid>)
    requires |c.phases| < Pow2(k) && forall t :: t in ts ==> t in c.phases
    ensures AlwaysFewLive(c, stamp, k, ts)
  {
    forall n | 0 <= n <= |ts| ensures FewLive(Ticks(c, stamp, ts[..n]), k) {
      SubsetSize(Holders(Ticks(c, stamp, ts[..n])), c.phases.Keys);
    }
  }

  /** The counter is the stamp plus the number of threads between increment and decrement; stamping
      has written at most once; and set-ups and tear-downs alternate, starting with a set-up, the
      last one still standing exactly while some thread holds a reference. */
  lemma {:induction false} CountAlways(v: nat, id: nat, k: nat, threads: set<Tid>, ts: seq<Tid>)
    requires RoomFor(id, k) && GoodStart(v, Stamp(id, k))
    requires forall t :: t in ts ==> t in threads
    requires AlwaysFewLive(Start(v, threads), Stamp(id, k), k, ts)
    ensures var c := Ticks(Start(v, threads), Stamp(id, k), ts);
            if ts == [] then c == Start(v, threads) else Counted(c, Stamp(id, k), v)
  {
    if ts != [] {
      var init := ts[..|ts| - 1];
      var c := Ticks(Start(v, threads), Stamp(id, k), init);
      assert init == ts[..|init|] && ts == ts[..|ts|];
      assert forall n :: 0 <= n <= |init| ==> init[..n] == ts[..n];
      CountAlways(v, id, k, threads, init);
      TickKeepsInv(c, id, k, v, ts[|ts| - 1]);
    }
  }

  /** How many operations of `t` a run contains. */
  ghost function Turns(ts: seq<Tid>, t: Tid): nat {
    if ts == [] then 0 else Turns(ts[..|ts| - 1], t) + if ts[|ts| - 1] == t then 1 else 0
  }

  /** Every thread stamps, increments and decrements in turn; these are the increments of a run. */
  ghost function Increments(ts: seq<Tid>): nat {
    if ts == [] then 0
    else Increments(ts[..|ts| - 1]) + if Turns(ts[..|ts| - 1], ts[|ts| - 1]) % 3 == 1 then 1 else 0
  }

  ghost function Decrements(ts: seq<Tid>): nat {
    if ts == [] then 0
    else Decrements(ts[..|ts| - 1]) + if Turns(ts[..|ts| - 1], ts[|ts| - 1]) % 3 == 2 then 1 else 0
  }

  ghost predicate AtStart(c: Count) {
    forall t :: t in c.phases ==> c.phases[t] == Outside
  }

  /** Where a thread stands can be told from the run alone. */
  lemma {:induction false} TurnsTell(c: Count, stamp: nat, ts: seq<Tid>, t: Tid)
    requires AtStart(c) && t in c.phases && forall u :: u in ts ==> u in c.phases
    ensures var n := Turns(ts, t) % 3;
            Ticks(c, stamp, ts).phases[t] == if n == 0 then Outside else if n == 1 then Stamped else Holding
  {
    if ts != [] {
      var init, u := ts[..|ts| - 1], ts[|ts| - 1];
      TurnsTell(c, stamp, init, t);
      var d := Ticks(c, stamp, init);
      assert Tick(d, stamp, u).phases == d.phases[u := Following(d.phases[u])];
      NextTurn(Turns(init, t));
    }
  }

  lemma NextTurn(n: nat)
    ensures (n + 1) % 3 == if n % 3 == 2 then 0 else n % 3 + 1
  {
  }

  lemma {:induction false} HoldersCounted(c: Count, stamp: nat, ts: seq<Tid>)
    requires AtStart(c) && forall t :: t in ts ==> t in c.phases
    ensures |Holders(Ticks(c, stamp, ts))| == Increments(ts) - Decrements(ts)
  {
    if ts == [] {
      assert Holders(c) == {};
    } else {
      var init, t := ts[..|ts| - 1], ts[|ts| - 1];
      HoldersCounted(c, stamp, init);
      TurnsTell(c, stamp, init, t);
      HoldersAfter(Ticks(c, stamp, init), stamp, t);
    }
  }

  /** The value is always the stamp plus the increments less the decrements of the run. */
  lemma {:induction false} IncrementsLessDecrements(v: nat, id: nat, k: nat, threads: set<Tid>, ts: seq<Tid>)
    requires RoomFor(id, k) && GoodStart(v, Stamp(id, k)) && ts != []
    requires forall t :: t in ts ==> t in threads
    requires forall n :: 0 <= n <= |ts| ==> Increments(ts[..n]) < Decrements(ts[..n]) + Pow2(k)
    ensures Ticks(Start(v, threads), Stamp(id, k), ts).v == Stamp(id, k) + Increments(ts) - Decrements(ts)
  {
    var c := Start(v, threads);
    forall n | 0 <= n <= |ts| ensures FewLive(Ticks(c, Stamp(id, k), ts[..n]), k) {
      HoldersCounted(c, Stamp(id, k), ts[..n]);
    }
    CountAlways(v, id, k, threads, ts);
    HoldersCounted(c, Stamp(id, k), ts);
  }

  /** The bound on live references is sharp: once 2^k are held of a counter with an odd stamp, the
      next thread to stamp wipes the count out. */
  lemma BoundIsSharp(c: Count, id: nat, k: nat, v: nat, t: Tid)
    requires Counted(c, Stamp(id, k), v) && t in c.phases && c.phases[t] == Outside
    requires id % 2 == 1 && |Holders(c)| == Pow2(k)
    ensures Tick(c, Stamp(id, k), t).v == Stamp(id, k) && !Counted(Tick(c, Stamp(id, k), t), Stamp(id, k), v)
  {
    StampOverflows(id, k);
    HoldersAfter(c, Stamp(id, k), t);
  }

  /** The condition on the initial value is not only sufficient: without it the first thread to
      stamp leaves a value that is not the stamp. */
  lemma {:induction false} StartExact(v: nat, id: nat, k: nat, threads: set<Tid>, t: Tid)
    requires t in threads
    ensures Counted(Tick(Start(v, threads), Stamp(id, k), t), Stamp(id, k), v) <==> GoodStart(v, Stamp(id, k))
  {
  }

  /** As long as nobody has torn down, at most one increment has returned the stamp plus one, and
      one has as soon as any thread holds a reference. */
  lemma {:induction false} OneSetUp(v: nat, id: nat, k: nat, threads: set<Tid>, ts: seq<Tid>)
    requires RoomFor(id, k) && GoodStart(v, Stamp(id, k))
    requires forall t :: t in ts ==> t in threads
    requires AlwaysFewLive(Start(v, threads), Stamp(id, k), k, ts)
    requires TornDown !in Ticks(Start(v, threads), Stamp(id, k), ts).bounds
    ensures var c := Ticks(Start(v, threads), Stamp(id, k), ts);
            c.bounds == if Holders(c) == {} then [] else [SetUp]
  {
    CountAlways(v, id, k, threads, ts);
    if ts != [] {
      OneStanding(Ticks(Start(v, threads), Stamp(id, k), ts), Stamp(id, k), v);
    }
  }

  lemma OneStanding(c: Count, stamp: nat, v: nat)
    requires Counted(c, stamp, v) && TornDown !in c.bounds
    ensures c.bounds == if Holders(c) == {} then [] else [SetUp]
  {
    AtMostOne(c.bounds);
  }

  lemma AtMostOne(bounds: seq<Bound>)
    requires Alternates(bounds)
    ensures TornDown in bounds || bounds == [] || bounds == [SetUp]
  {
    if |bounds| > 1 {
      assert bounds[1] == TornDown;
    }
  }

  // ----- the same with the lock spelled out -----

  datatype Lock = Free | Taken(t: Tid)

  /** Where a thread stands inside the operation it does next. */
  datatype Pc =
    | Ready(p: Phase)
    | Locked(p: Phase)
    | Loaded(p: Phase, r: nat)
    | Stored(p: Phase)
    | Reloaded(p: Phase, ret: nat)

  datatype Micro = Micro(v: nat, lock: Lock, pcs: map<Tid, Pc>)

  predicate CanGo(m: Micro, t: Tid) {
    t in m.pcs && (m.pcs[t].Ready? ==> m.lock == Free)
  }

  /** One statement of one thread. */
  ghost function Go(m: Micro, stamp: nat, t: Tid): Micro
    requires CanGo(m, t)
  {
    match m.pcs[t]
    case Ready(p) => m.(lock := Taken(t), pcs := m.pcs[t := Locked(p)])
    case Locked(p) => m.(pcs := m.pcs[t := Loaded(p, m.v)])
    case Loaded(p, r) => m.(v := Apply(p, stamp, r), pcs := m.pcs[t := Stored(p)])
    case Stored(p) =>
      if p == Outside then m.(lock := Free, pcs := m.pcs[t := Ready(Following(p))])
      else m.(pcs := m.pcs[t := Reloaded(p, m.v)])
    case Reloaded(p, _) => m.(lock := Free, pcs := m.pcs[t := Ready(Following(p))])
  }

  /** The phase a thread has reached: its operation counts from the store on. */
  function PhaseOf(pc: Pc): Phase {
    if pc.Stored? || pc.Reloaded? then Following(pc.p) else pc.p
  }

  ghost function PhasesOf(pcs: map<Tid, Pc>): map<Tid, Phase> {
    map t | t in pcs :: PhaseOf(pcs[t])
  }

  ghost predicate MicroInv(m: Micro) {
    forall t :: t in m.pcs ==>
                  && (!m.pcs[t].Ready? <==> m.lock == Taken(t))
                  && (m.pcs[t].Loaded? ==> m.pcs[t].r == m.v)
                  && (m.pcs[t].Reloaded? ==> m.pcs[t].ret == m.v && m.pcs[t].p != Outside)
  }

  ghost function MicroStart(v: nat, threads: set<Tid>): Micro {
    Micro(v, Free, map t | t in threads :: Ready(Outside))
  }

  /** The state after some statements, and what happened on the way, in order: the operations that
      took effect and the results that increments and decrements returned. */
  datatype Outcome = Outcome(m: Micro, ts: seq<Tid>, results: seq<nat>)

  ghost function MicroRun(m0: Micro, stamp: nat, tr: seq<Tid>): Option<Outcome> {
    if tr == [] then Some(Outcome(m0, [], []))
    else
      var t := tr[|tr| - 1];
      match MicroRun(m0, stamp, tr[..|tr| - 1])
      case None => None
      case Some(o) =>
        if !CanGo(o.m, t) then None
        else
          var pc := o.m.pcs[t];
          Some(Outcome(Go(o.m, stamp, t),
                       o.ts + (if pc.Loaded? then [t] else []),
                       o.results + if pc.Reloaded? then [pc.ret] else []))
  }

  /** What the increments and decrements of a run of whole operations return. */
  ghost function Results(c: Count, stamp: nat, ts: seq<Tid>): seq<nat>
    requires forall t :: t in ts ==> t in c.phases
  {
    if ts == [] then []
    else
      var init, t := ts[..|ts| - 1], ts[|ts| - 1];
      Results(c, stamp, init) +
      if Ticks(c, stamp, init).phases[t] == Outside then [] else [Ticks(c, stamp, ts).v]
  }

  /** The result that has been stored but not yet returned. */
  ghost function Pending(m: Micro): seq<nat> {
    if m.lock.Taken? && m.lock.t in m.pcs && Returns(m.pcs[m.lock.t]) then [m.v] else []
  }

  predicate Returns(pc: Pc) {
    (pc.Stored? || pc.Reloaded?) && pc.p != Outside
  }

  /** Whatever the interleaving of statements, the lock makes every operation atomic: the variable
      and the threads' phases are those of a run of whole operations, in the order of their stores,
      and no thread's loaded or stored value goes stale. */
  lemma {:induction false} LockRefines(v: nat, stamp: nat, threads: set<Tid>, tr: seq<Tid>, o: Outcome)
    requires MicroRun(MicroStart(v, threads), stamp, tr) == Some(o)
    ensures MicroInv(o.m) && o.m.pcs.Keys == threads && forall t :: t in o.ts ==> t in threads
    ensures var c := Ticks(Start(v, threads), stamp, o.ts);
            c.v == o.m.v && c.phases == PhasesOf(o.m.pcs)
  {
    var m0 := MicroStart(v, threads);
    if tr == [] {
    } else {
      var t, n := tr[|tr| - 1], MicroRun(m0, stamp, tr[..|tr| - 1]).value;
      LockRefines(v, stamp, threads, tr[..|tr| - 1], n);
      GoKeepsInv(n.m, stamp, t);
      GoRefines(n.m, stamp, t);
      assert o.ts != n.ts ==> o.ts[..|o.ts| - 1] == n.ts;
    }
  }

  /** And what they return, each by reading back what its own store left, are the results of that
      run, in the same order. */
  lemma {:induction false} LockReturns(v: nat, stamp: nat, threads: set<Tid>, tr: seq<Tid>, o: Outcome)
    requires MicroRun(MicroStart(v, threads), stamp, tr) == Some(o)
    ensures forall t :: t in o.ts ==> t in threads
    ensures Results(Start(v, threads), stamp, o.ts) == o.results + Pending(o.m)
  {
    LockRefines(v, stamp, threads, tr, o);
    if tr != [] {
      var t, n := tr[|tr| - 1], MicroRun(MicroStart(v, threads), stamp, tr[..|tr| - 1]).value;
      LockRefines(v, stamp, threads, tr[..|tr| - 1], n);
      LockReturns(v, stamp, threads, tr[..|tr| - 1], n);
      PendingAfter(n.m, stamp, t);
      ReturnsAfter(Start(v, threads), stamp, n, t, o);
    }
  }

  lemma ReturnsAfter(c: Count, stamp: nat, n: Outcome, t: Tid, o: Outcome)
    requires CanGo(n.m, t) && o.m == Go(n.m, stamp, t)
    requires var pc := n.m.pcs[t];
             && o.ts == n.ts + (if pc.Loaded? then [t] else [])
             && o.results == n.results + if pc.Reloaded? then [pc.ret] else []
    requires forall u :: u in o.ts ==> u in c.phases
    requires forall u :: u in n.ts ==> u in c.phases
    requires Results(c, stamp, n.ts) == n.results + Pending(n.m)
    requires Ticks(c, stamp, n.ts).phases == PhasesOf(n.m.pcs) && Ticks(c, stamp, o.ts).v == o.m.v
    requires var pc := n.m.pcs[t];
             && (pc.Loaded? ==> Pending(n.m) == [] && Pending(o.m) == if pc.p == Outside then [] else [o.m.v])
             && (pc.Reloaded? ==> Pending(n.m) == [pc.ret] && Pending(o.m) == [])
             && (!pc.Loaded? && !pc.Reloaded? ==> Pending(o.m) == Pending(n.m))
    ensures Results(c, stamp, o.ts) == o.results + Pending(o.m)
  {
    var pc := n.m.pcs[t];
    if pc.Loaded? {
      assert o.ts[..|o.ts| - 1] == n.ts && PhasesOf(n.m.pcs)[t] == pc.p;
      assert o.results == n.results && n.results + [] == n.results;
    } else {
      assert o.ts == n.ts;
      assert o.results + Pending(o.m) == n.results + Pending(n.m);
    }
  }

  lemma PendingAfter(m: Micro, stamp: nat, t: Tid)
    requires MicroInv(m) && CanGo(m, t)
    ensures var m', pc := Go(m, stamp, t), m.pcs[t];
            && (pc.Loaded? ==> Pending(m) == [] && Pending(m') == if pc.p == Outside then [] else [m'.v])
            && (pc.Reloaded? ==> Pending(m) == [pc.ret] && Pending(m') == [])
            && (!pc.Loaded? && !pc.Reloaded? ==> Pending(m') == Pending(m))
  {
  }

  lemma GoKeepsInv(m: Micro, stamp: nat, t: Tid)
    requires MicroInv(m) && CanGo(m, t)
    ensures MicroInv(Go(m, stamp, t)) && Go(m, stamp, t).pcs.Keys == m.pcs.Keys
  {
  }

  lemma GoRefines(m: Micro, stamp: nat, t: Tid)
    requires MicroInv(m) && CanGo(m, t)
    ensures var m', phases := Go(m, stamp, t), PhasesOf(m.pcs);
            if m.pcs[t].Loaded? then m'.v == Apply(phases[t], stamp, m.v) && PhasesOf(m'.pcs) == phases[t := Following(phases[t])]
            else m'.v == m.v && PhasesOf(m'.pcs) == phases
  {
  }

  /** What an increment returns is the stamp plus one exactly when its thread is the only holder,
      under any interleaving of the statements. */
  lemma {:induction false} FirstIsAlone(v: nat, id: nat, k: nat, threads: set<Tid>, tr: seq<Tid>, o: Outcome, t: Tid)
    requires RoomFor(id, k) && GoodStart(v, Stamp(id, k))
    requires MicroRun(MicroStart(v, threads), Stamp(id, k), tr) == Some(o)
    requires t in o.m.pcs && o.m.pcs[t].Reloaded? && o.m.pcs[t].p == Stamped
    ensures forall u :: u in o.ts ==> u in threads
    ensures AlwaysFewLive(Start(v, threads), Stamp(id, k), k, o.ts) ==>
              (o.m.pcs[t].ret == Stamp(id, k) + 1 <==> Holders(Ticks(Start(v, threads), Stamp(id, k), o.ts)) == {t})
  {
    LockRefines(v, Stamp(id, k), threads, tr, o);
    if AlwaysFewLive(Start(v, threads), Stamp(id, k), k, o.ts) {
      CountAlways(v, id, k, threads, o.ts);
      var c := Ticks(Start(v, threads), Stamp(id, k), o.ts);
      SubsetSize({t}, Holders(c));
      if |Holders(c)| == 1 {
        assert |Holders(c) - {t}| == 0;
      }
    }
  }
}
