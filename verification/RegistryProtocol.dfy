/** The object registry of IObject.h under any number of threads.

    A step is one statement of the generated create and delete functions; a test is taken together
    with the assignment that it guards, and clearing a new object with its allocation.  Only the
    system gate keeps the list sections apart, so between any two steps of one thread the others
    may allocate, initialise, wait, finalise and free.  Objects are numbered, 0 is NULL, and no number
    is used for two objects. */
module RegistryProtocol {
  import opened Ledgers
  import opened Sequences
  import opened Threads

  type Id = nat

  datatype Pc =
    | Idle
    | New(o: Id)                // allocated and cleared
    | Failed(o: Id)             // could not be initialised
    | Created(o: Id)            // initialised, waiting for the gate
    | Linking(o: Id)            // inside the gate from here on
    | LinkedFirst(o: Id)        // firstObject was NULL and has been set
    | Pointed(o: Id)            // next has been set, firstObject not yet
    | LinkDone(o: Id)
    | Deleting(o: Id)           // waiting for the gate
    | Checking(o: Id)           // inside the gate from here on
    | Walking(o: Id, temp: Id)
    | Unlinked(o: Id)
    | Missed(o: Id)
    | Finalising(o: Id)         // the gate has been left
    | Freeing(o: Id)            // finalised

  datatype Step = Alloc(o: Id) | Initialise(ok: bool) | Delete(o: Id) | Go

  datatype Gate = Free | Taken(t: Tid)

  datatype State = State(
    first: Id,                  // firstObject
    next: map<Id, Id>,          // the next fields of the objects in memory
    gate: Gate,
    pcs: map<Tid, Pc>,
    linked: seq<Id>,            // history: objects linked and not yet unlinked, newest first
    born: set<Id>,              // history: every object ever allocated
    finalised: seq<Id>)         // history: objects finalised, in order

  const INIT := State(0, map[], Free, map[], [], {}, [])

  function At(s: State, t: Tid): Pc {
    if t in s.pcs then s.pcs[t] else Idle
  }

  function Load(s: State, o: Id): Id {
    if o in s.next then s.next[o] else 0
  }

  predicate Inside(pc: Pc) {
    pc.Linking? || pc.LinkedFirst? || pc.Pointed? || pc.LinkDone?
    || pc.Checking? || pc.Walking? || pc.Unlinked? || pc.Missed?
  }

  ghost predicate Enabled(s: State, t: Tid, step: Step) {
    match step
    case Alloc(o) => At(s, t) == Idle && o != 0 && o !in s.born
    case Initialise(_) => At(s, t).New?
    case Delete(o) => At(s, t) == Idle && o != 0
    case Go =>
      && !At(s, t).Idle? && !At(s, t).New?
      && (At(s, t).Created? || At(s, t).Deleting? ==> s.gate == Free)
  }

  ghost function Next(s: State, t: Tid, step: Step): State
    requires Enabled(s, t, step)
  {
    match step
    case Alloc(o) =>
      s.(next := s.next[o := 0], born := s.born + {o}, pcs := s.pcs[t := New(o)])
    case Initialise(ok) =>
      var o := At(s, t).o;
      s.(pcs := s.pcs[t := if ok then Created(o) else Failed(o)])
    case Delete(o) =>
      s.(pcs := s.pcs[t := Deleting(o)])
    case Go => if CreatingPc(At(s, t)) then GoCreating(s, t) else GoDeleting(s, t)
  }

  predicate CreatingPc(pc: Pc) {
    pc.Failed? || pc.Created? || pc.Linking? || pc.LinkedFirst? || pc.Pointed? || pc.LinkDone?
  }

  /** The next statement of create, once the object has been initialised. */
  ghost function GoCreating(s: State, t: Tid): State {
    match At(s, t)
    case Failed(o) => s.(next := s.next - {o}, pcs := s.pcs[t := Idle])
    case Created(o) => s.(gate := Taken(t), pcs := s.pcs[t := Linking(o)])
    case Linking(o) =>
      if s.first == 0 then s.(first := o, linked := [o] + s.linked, pcs := s.pcs[t := LinkedFirst(o)])
      else s.(next := s.next[o := s.first], pcs := s.pcs[t := Pointed(o)])
    case LinkedFirst(o) => s.(next := s.next[o := 0], pcs := s.pcs[t := LinkDone(o)])
    case Pointed(o) => s.(first := o, linked := [o] + s.linked, pcs := s.pcs[t := LinkDone(o)])
    case LinkDone(_) => s.(gate := Free, pcs := s.pcs[t := Idle])
    case _ => s
  }

  /** The next statement of delete. */
  ghost function GoDeleting(s: State, t: Tid): State {
    match At(s, t)
    case Deleting(o) => s.(gate := Taken(t), pcs := s.pcs[t := Checking(o)])
    case Checking(o) =>
      if o == s.first then
        s.(first := Load(s, o), linked := Without(s.linked, o), pcs := s.pcs[t := Unlinked(o)])
      else s.(pcs := s.pcs[t := Walking(o, s.first)])
    case Walking(o, temp) =>
      if temp == 0 then s.(pcs := s.pcs[t := Missed(o)])
      else if Load(s, temp) == o then
        s.(next := s.next[temp := Load(s, o)], linked := Without(s.linked, o), pcs := s.pcs[t := Unlinked(o)])
      else s.(pcs := s.pcs[t := Walking(o, Load(s, temp))])
    case Unlinked(o) => s.(gate := Free, pcs := s.pcs[t := Finalising(o)])
    case Missed(_) => s.(gate := Free, pcs := s.pcs[t := Idle])
    case Finalising(o) => s.(finalised := s.finalised + [o], pcs := s.pcs[t := Freeing(o)])
    case Freeing(o) => s.(next := s.next - {o}, pcs := s.pcs[t := Idle])
    case _ => s
  }

  // ----- the invariant -----

  ghost function Own(pc: Pc): set<Id> {
    if || pc.New? || pc.Failed? || pc.Created? || pc.Linking? || pc.Pointed?
       || pc.Unlinked? || pc.Finalising? || pc.Freeing?
    then {pc.o} else {}
  }

  ghost function Owners(pcs: map<Tid, Pc>): map<Tid, set<Id>> {
    map t | t in pcs :: Own(pcs[t])
  }

  /** Every object in memory is linked or in the hands of exactly one thread. */
  ghost function Objects(s: State): Ledger {
    Ledger(s.next.Keys, s.linked, Owners(s.pcs), {})
  }

  ghost predicate Distinct(c: seq<Id>) {
    forall i, j :: 0 <= i < j < |c| ==> c[i] != c[j]
  }

  ghost function Successor(c: seq<Id>, i: nat): Id {
    if i + 1 < |c| then c[i + 1] else 0
  }

  /** From `firstObject`, the `next` fields lead through the linked objects in order to NULL. */
  ghost predicate ListOk(s: State) {
    && s.first == (if s.linked == [] then 0 else s.linked[0])
    && forall i :: 0 <= i < |s.linked| ==> s.linked[i] != 0 && Load(s, s.linked[i]) == Successor(s.linked, i)
  }

  /** The walk has passed over nothing but other objects. */
  ghost predicate Reached(c: seq<Id>, o: Id, temp: Id) {
    if temp == 0 then o !in c
    else exists j :: 0 <= j < |c| && c[j] == temp && o !in c[..j + 1]
  }

  ghost predicate PcOk(s: State, pc: Pc) {
    match pc
    case Idle => true
    case New(o) => o != 0 && Load(s, o) == 0
    case Created(o) => o != 0 && Load(s, o) == 0
    case Linking(o) => o != 0 && Load(s, o) == 0
    case LinkedFirst(o) => s.linked == [o]
    case Pointed(o) => o != 0 && s.first != 0 && Load(s, o) == s.first
    case LinkDone(o) => s.linked != [] && s.linked[0] == o
    case Walking(o, temp) => o != 0 && Reached(s.linked, o, temp)
    case Missed(o) => o !in s.linked
    case _ => pc.o != 0
  }

  ghost predicate GateOk(s: State) {
    forall t :: t in s.pcs ==> (Inside(s.pcs[t]) <==> s.gate == Taken(t))
  }

  ghost predicate BeingFreed(s: State, o: Id) {
    exists t :: t in s.pcs && s.pcs[t] == Freeing(o)
  }

  ghost predicate HistoryOk(s: State) {
    && s.next.Keys <= s.born && 0 !in s.born
    && (forall o :: o in s.finalised ==> o in s.born && (o in s.next ==> BeingFreed(s, o)))
    && Distinct(s.finalised)
  }

  ghost predicate Inv(s: State) {
    && Balanced(Objects(s)) && ListOk(s) && GateOk(s) && HistoryOk(s)
    && (s.gate.Taken? ==> s.gate.t in s.pcs)
    && forall t :: t in s.pcs ==> PcOk(s, s.pcs[t])
  }

  lemma InitHolds()
    ensures Inv(INIT)
  {
  }

  lemma Hands(s: State, t: Tid, s': State)
    requires s'.pcs == s.pcs[t := At(s', t)]
    ensures HeldBy(Objects(s), t) == Own(At(s, t))
    ensures Owners(s'.pcs) == Owners(s.pcs)[t := Own(At(s', t))]
  {
  }

  /** How responsibility for the objects can move in one step. */
  datatype Move = Hold | Take(o: Id) | Drop(o: Id) | Post(o: Id) | Pull(k: nat)

  ghost predicate Moved(s: State, t: Tid, s': State, m: Move) {
    var own, own', keys, keys' := Own(At(s, t)), Own(At(s', t)), s.next.Keys, s'.next.Keys;
    && s'.pcs == s.pcs[t := At(s', t)]
    && match m
       case Hold => own' == own && keys' == keys && s'.linked == s.linked
       case Take(o) => own == {} && own' == {o} && o !in keys && keys' == keys + {o} && s'.linked == s.linked
       case Drop(o) => own == {o} && own' == {} && keys' == keys - {o} && s'.linked == s.linked
       case Post(o) => own == {o} && own' == {} && keys' == keys && s'.linked == [o] + s.linked
       case Pull(k) =>
         && k < |s.linked| && own == {} && own' == {s.linked[k]} && keys' == keys
         && s'.linked == RemoveAt(s.linked, k)
  }

  lemma MovesBalance(s: State, t: Tid, s': State, m: Move)
    requires Balanced(Objects(s)) && Moved(s, t, s', m)
    ensures Balanced(Objects(s'))
  {
    var l := Objects(s);
    Hands(s, t, s');
    match m
    case Hold => Keep(l, t);
    case Take(o) => Acquire(l, t, o);
    case Drop(o) => Release(l, t, o);
    case Post(o) => DepositFirst(l, t, o);
    case Pull(k) => Withdraw(l, t, k);
  }

  /** What a step writes to is in memory. */
  lemma InMemory(s: State, t: Tid)
    requires Inv(s)
    ensures forall o :: o in Own(At(s, t)) ==> o in s.next && o !in s.linked
    ensures forall o :: o in s.linked ==> o in s.next
  {
    var l, pc := Objects(s), At(s, t);
    Hands(s, t, s.(pcs := s.pcs[t := pc]));
    if Own(pc) != {} {
      Exclusive(l, t, pc.o);
    }
    assert forall o :: o in s.linked ==> o in Listed(l);
  }

  /** The search stops at the predecessor of the object it looks for. */
  lemma FoundAt(s: State, o: Id, temp: Id)
    requires ListOk(s) && o != 0 && temp != 0 && Reached(s.linked, o, temp) && Load(s, temp) == o
    ensures var k := IndexOf(s.linked, o); 0 < k < |s.linked| && s.linked[k - 1] == temp
  {
    var j :| 0 <= j < |s.linked| && s.linked[j] == temp && o !in s.linked[..j + 1];
    assert Load(s, s.linked[j]) == Successor(s.linked, j);
    IndexOfFirst(s.linked, o, j + 1);
  }

  ghost function MoveOf(s: State, t: Tid, step: Step): Move {
    var pc := At(s, t);
    match step
    case Alloc(o) => Take(o)
    case Initialise(_) => Hold
    case Delete(_) => Hold
    case Go =>
      match pc
      case Linking(o) => if s.first == 0 then Post(o) else Hold
      case Pointed(o) => Post(o)
      case Checking(o) => if o == s.first then Pull(IndexOf(s.linked, o)) else Hold
      case Walking(o, temp) => if temp != 0 && Load(s, temp) == o then Pull(IndexOf(s.linked, o)) else Hold
      case Failed(o) => Drop(o)
      case Freeing(o) => Drop(o)
      case _ => Hold
  }

  predicate Searching(pc: Pc) {
    pc.Checking? || pc.Walking?
  }

  predicate Writing(pc: Pc) {
    pc.Linking? || pc.LinkedFirst? || pc.Pointed?
  }

  lemma StepMoves(s: State, t: Tid, step: Step)
    requires Inv(s) && Enabled(s, t, step)
    ensures Moved(s, t, Next(s, t, step), MoveOf(s, t, step))
  {
    InMemory(s, t);
    assert t in s.pcs ==> PcOk(s, At(s, t));
    if step == Go && Searching(At(s, t)) {
      SearchMoves(s, t);
    } else if step == Go && Writing(At(s, t)) {
      WriteMoves(s, t);
    } else {
      PlainMoves(s, t, step);
    }
  }

  lemma SearchMoves(s: State, t: Tid)
    requires ListOk(s) && Searching(At(s, t)) && PcOk(s, At(s, t)) && forall o :: o in s.linked ==> o in s.next
    ensures Moved(s, t, Next(s, t, Go), MoveOf(s, t, Go))
  {
    if At(s, t).Checking? {
      CheckMoves(s, t);
    } else {
      WalkMoves(s, t);
    }
  }

  lemma CheckMoves(s: State, t: Tid)
    requires ListOk(s) && At(s, t).Checking? && PcOk(s, At(s, t))
    ensures Moved(s, t, Next(s, t, Go), MoveOf(s, t, Go))
  {
    if At(s, t).o == s.first {
      assert s.linked[0] == At(s, t).o;
    }
  }

  lemma WalkMoves(s: State, t: Tid)
    requires ListOk(s) && At(s, t).Walking? && PcOk(s, At(s, t)) && forall o :: o in s.linked ==> o in s.next
    ensures Moved(s, t, Next(s, t, Go), MoveOf(s, t, Go))
  {
    var o, temp := At(s, t).o, At(s, t).temp;
    if temp != 0 && Load(s, temp) == o {
      FoundAt(s, o, temp);
      assert temp in s.linked;
    }
  }

  lemma WriteMoves(s: State, t: Tid)
    requires Writing(At(s, t)) && PcOk(s, At(s, t)) && forall o :: o in s.linked || o in Own(At(s, t)) ==> o in s.next
    ensures Moved(s, t, Next(s, t, Go), MoveOf(s, t, Go))
  {
  }

  lemma PlainMoves(s: State, t: Tid, step: Step)
    requires Enabled(s, t, step) && (step == Go ==> !Searching(At(s, t)) && !Writing(At(s, t)))
    requires s.next.Keys <= s.born && forall o :: o in Own(At(s, t)) ==> o in s.next
    ensures Moved(s, t, Next(s, t, step), MoveOf(s, t, step))
  {
  }

  // ----- the list -----

  ghost predicate SameLoads(s: State, s': State, c: seq<Id>) {
    forall o :: o in c ==> Load(s', o) == Load(s, o)
  }

  lemma ListPosted(s: State, s': State, o: Id)
    requires ListOk(s) && SameLoads(s, s', s.linked)
    requires o != 0 && s'.first == o && s'.linked == [o] + s.linked && Load(s', o) == s.first
    ensures ListOk(s')
  {
  }

  lemma ListPulled(s: State, s': State, k: nat)
    requires ListOk(s) && Distinct(s.linked) && k < |s.linked| && s'.linked == RemoveAt(s.linked, k)
    requires s'.first == if k == 0 then Load(s, s.linked[0]) else s.first
    requires forall i :: 0 <= i < |s.linked| && i + 1 != k ==> Load(s', s.linked[i]) == Load(s, s.linked[i])
    requires k > 0 ==> Load(s', s.linked[k - 1]) == Load(s, s.linked[k])
    ensures ListOk(s')
  {
  }

  /** A statement outside the searches writes to no linked object but the one it links. */
  lemma LoadsKept(s: State, t: Tid, step: Step)
    requires Inv(s) && Enabled(s, t, step) && (step == Go ==> !Searching(At(s, t)))
    ensures SameLoads(s, Next(s, t, step), s.linked)
  {
    InMemory(s, t);
    assert t in s.pcs ==> PcOk(s, At(s, t));
  }

  lemma ListKept(s: State, t: Tid, step: Step)
    requires Inv(s) && Enabled(s, t, step)
    ensures ListOk(Next(s, t, step))
  {
    var pc, s' := At(s, t), Next(s, t, step);
    assert t in s.pcs ==> PcOk(s, pc);
    if step == Go && Searching(pc) {
      InMemory(s, t);
      SearchList(s, t);
    } else {
      LoadsKept(s, t, step);
      if MoveOf(s, t, step).Post? {
        StepMoves(s, t, step);
        ListPosted(s, s', pc.o);
      } else {
        forall i | 0 <= i < |s'.linked| ensures s'.linked[i] != 0 && Load(s', s'.linked[i]) == Successor(s'.linked, i) {
          assert s.linked[i] in s.linked;
        }
      }
    }
  }

  lemma SearchList(s: State, t: Tid)
    requires ListOk(s) && Distinct(s.linked) && forall o :: o in s.linked ==> o in s.next
    requires Searching(At(s, t)) && PcOk(s, At(s, t))
    ensures ListOk(Next(s, t, Go))
  {
    var pc := At(s, t);
    if pc.Checking? && pc.o == s.first {
      UnlinkFirst(s, t);
    } else if pc.Walking? && pc.temp != 0 && Load(s, pc.temp) == pc.o {
      UnlinkLater(s, t);
    } else {
      SearchOn(s, t);
    }
  }

  lemma SearchOn(s: State, t: Tid)
    requires ListOk(s) && Searching(At(s, t)) && !MoveOf(s, t, Go).Pull?
    ensures ListOk(Next(s, t, Go))
  {
    assert SameLoads(s, Next(s, t, Go), s.linked);
  }

  lemma UnlinkFirst(s: State, t: Tid)
    requires ListOk(s) && Distinct(s.linked)
    requires At(s, t).Checking? && PcOk(s, At(s, t)) && At(s, t).o == s.first
    ensures ListOk(Next(s, t, Go))
  {
    var c, s' := s.linked, Next(s, t, Go);
    assert c[0] == s.first && IndexOf(c, c[0]) == 0;
    ListPulled(s, s', 0);
  }

  lemma FoundStep(s: State, t: Tid)
    requires At(s, t).Walking? && At(s, t).temp != 0 && Load(s, At(s, t).temp) == At(s, t).o
    ensures var o, s' := At(s, t).o, Next(s, t, Go);
            && s'.next == s.next[At(s, t).temp := Load(s, o)] && s'.first == s.first
            && s'.linked == Without(s.linked, o)
  {
  }

  lemma UnlinkLater(s: State, t: Tid)
    requires ListOk(s) && Distinct(s.linked) && forall o :: o in s.linked ==> o in s.next
    requires At(s, t).Walking? && PcOk(s, At(s, t)) && At(s, t).temp != 0 && Load(s, At(s, t).temp) == At(s, t).o
    ensures ListOk(Next(s, t, Go))
  {
    var c, pc, s', k := s.linked, At(s, t), Next(s, t, Go), IndexOf(s.linked, At(s, t).o);
    FoundAt(s, pc.o, pc.temp);
    FoundStep(s, t);
    assert c[k - 1] in c && c[k] == pc.o;
    RelinkLoads(s, s', k);
    ListPulled(s, s', k);
  }

  /** Bypassing object `k` changes what its predecessor points at, and nothing else. */
  lemma RelinkLoads(s: State, s': State, k: nat)
    requires Distinct(s.linked) && 0 < k < |s.linked| && s'.next == s.next[s.linked[k - 1] := Load(s, s.linked[k])]
    ensures Load(s', s.linked[k - 1]) == Load(s, s.linked[k])
    ensures forall i :: 0 <= i < |s.linked| && i + 1 != k ==> Load(s', s.linked[i]) == Load(s, s.linked[i])
  {
  }

  // ----- the threads -----

  /** A step writes only to objects of its own thread and, inside the gate, to linked ones. */
  lemma Writes(s: State, t: Tid, step: Step, o: Id)
    requires Inv(s) && Enabled(s, t, step) && o !in Own(At(s, t)) && o !in s.linked
    ensures Load(Next(s, t, step), o) == Load(s, o)
  {
    var pc := At(s, t);
    assert t in s.pcs ==> PcOk(s, pc);
    if pc.Walking? && pc.temp != 0 {
      assert pc.temp in s.linked;
    }
  }

  /** Outside the gate a step leaves the list alone. */
  lemma ListUntouched(s: State, t: Tid, step: Step)
    requires Enabled(s, t, step) && !Inside(At(s, t))
    ensures var s' := Next(s, t, step); s'.linked == s.linked && s'.first == s.first
  {
  }

  lemma OneInside(s: State, t: Tid, u: Tid)
    requires GateOk(s) && u in s.pcs && u != t && Inside(s.pcs[u])
    ensures !Inside(At(s, t))
  {
  }

  lemma OthersOk(s: State, t: Tid, step: Step, u: Tid)
    requires Inv(s) && Enabled(s, t, step) && u in s.pcs && u != t
    ensures var s' := Next(s, t, step); At(s', u) == s.pcs[u] && PcOk(s', s.pcs[u])
  {
    var pc := s.pcs[u];
    PcsStep(s, t, step);
    if Own(pc) != {} {
      NotOurs(s, t, u);
      Writes(s, t, step, pc.o);
    }
    if Inside(pc) {
      OneInside(s, t, u);
      ListUntouched(s, t, step);
    }
    PcFrame(s, Next(s, t, step), pc);
  }

  lemma NotOurs(s: State, t: Tid, u: Tid)
    requires Balanced(Objects(s)) && u in s.pcs && u != t && Own(s.pcs[u]) != {}
    ensures s.pcs[u].o !in Own(At(s, t)) && s.pcs[u].o !in s.linked
  {
    var l := Objects(s);
    assert HeldBy(l, u) == Own(s.pcs[u]);
    Exclusive(l, u, s.pcs[u].o);
    assert t in l.held ==> l.held[t] == Own(At(s, t));
  }

  /** What a thread's position relies on: the object it owns and, inside the gate, the list. */
  lemma PcFrame(s: State, s': State, pc: Pc)
    requires PcOk(s, pc)
    requires Own(pc) != {} ==> Load(s', pc.o) == Load(s, pc.o)
    requires Inside(pc) ==> s'.linked == s.linked && s'.first == s.first
    ensures PcOk(s', pc)
  {
  }

  lemma StepperOk(s: State, t: Tid, step: Step)
    requires Inv(s) && Enabled(s, t, step)
    ensures PcOk(Next(s, t, step), At(Next(s, t, step), t))
  {
    var pc := At(s, t);
    assert t in s.pcs ==> PcOk(s, pc);
    InMemory(s, t);
    if step != Go {
      CallerOk(s, t, step);
    } else if CreatingPc(pc) {
      CreatorOk(s, t);
    } else {
      DeleterOk(s, t);
    }
  }

  lemma CallerOk(s: State, t: Tid, step: Step)
    requires Enabled(s, t, step) && step != Go && PcOk(s, At(s, t))
    ensures PcOk(Next(s, t, step), At(Next(s, t, step), t))
  {
  }

  lemma CreatorOk(s: State, t: Tid)
    requires ListOk(s) && Enabled(s, t, Go) && CreatingPc(At(s, t)) && PcOk(s, At(s, t))
    ensures PcOk(Next(s, t, Go), At(Next(s, t, Go), t))
  {
  }

  lemma DeleterOk(s: State, t: Tid)
    requires ListOk(s) && Enabled(s, t, Go) && !CreatingPc(At(s, t)) && PcOk(s, At(s, t))
    ensures PcOk(Next(s, t, Go), At(Next(s, t, Go), t))
  {
    var pc := At(s, t);
    if pc.Walking? && pc.temp != 0 && Load(s, pc.temp) != pc.o {
      WalkOn(s, pc.o, pc.temp);
    }
  }

  lemma WalkOn(s: State, o: Id, temp: Id)
    requires ListOk(s) && temp != 0 && Reached(s.linked, o, temp) && Load(s, temp) != o
    ensures Reached(s.linked, o, Load(s, temp))
  {
    var c := s.linked;
    var j :| 0 <= j < |c| && c[j] == temp && o !in c[..j + 1];
    assert Load(s, c[j]) == Successor(c, j);
    if j + 1 < |c| {
      assert c[j + 1] == Load(s, temp);
      NotUpTo(c, o, j + 1);
    } else {
      assert c[..j + 1] == c;
    }
  }

  lemma NotUpTo<X>(c: seq<X>, x: X, k: nat)
    requires k < |c| && x !in c[..k] && c[k] != x
    ensures x !in c[..k + 1]
  {
    assert c[..k + 1] == c[..k] + [c[k]];
  }

  lemma GateStep(s: State, t: Tid, step: Step)
    requires Enabled(s, t, step) && (Inside(At(s, t)) <==> s.gate == Taken(t))
    ensures var s' := Next(s, t, step);
            && (Inside(At(s', t)) <==> s'.gate == Taken(t))
            && (s'.gate == s.gate || (s.gate == Free && s'.gate == Taken(t)) || (s.gate == Taken(t) && s'.gate == Free))
            && t in s'.pcs
  {
  }

  lemma GateKept(s: State, t: Tid, step: Step)
    requires GateOk(s) && (s.gate.Taken? ==> s.gate.t in s.pcs) && Enabled(s, t, step)
    ensures var s' := Next(s, t, step); GateOk(s') && (s'.gate.Taken? ==> s'.gate.t in s'.pcs)
  {
    var s' := Next(s, t, step);
    GateStep(s, t, step);
    PcsStep(s, t, step);
    forall u | u in s'.pcs ensures Inside(s'.pcs[u]) <==> s'.gate == Taken(u) {
      if u != t {
        assert u in s.pcs && s'.pcs[u] == s.pcs[u];
      }
    }
  }

  lemma PcsStep(s: State, t: Tid, step: Step)
    requires Enabled(s, t, step)
    ensures var s' := Next(s, t, step); s'.pcs == s.pcs[t := At(s', t)]
  {
    if step == Go {
      if CreatingPc(At(s, t)) {
        CreatingPcs(s, t);
      } else {
        DeletingPcs(s, t);
      }
    }
  }

  lemma CreatingPcs(s: State, t: Tid)
    requires CreatingPc(At(s, t))
    ensures var s' := GoCreating(s, t); s'.pcs == s.pcs[t := At(s', t)]
  {
  }

  lemma DeletingPcs(s: State, t: Tid)
    requires t in s.pcs
    ensures var s' := GoDeleting(s, t); s'.pcs == s.pcs[t := At(s', t)]
  {
    var s' := GoDeleting(s, t);
    assert t in s'.pcs;
    assert s'.pcs == s.pcs[t := s'.pcs[t]];
  }

  lemma HistoryKept(s: State, t: Tid, step: Step)
    requires Inv(s) && Enabled(s, t, step)
    ensures HistoryOk(Next(s, t, step))
  {
    var s' := Next(s, t, step);
    KeysBorn(s, t, step);
    HistoryStep(s, t, step);
    forall o | o in s'.finalised ensures o in s'.born && (o in s'.next ==> BeingFreed(s', o)) {
      StillFreed(s, t, step, o);
    }
    if At(s, t).Finalising? {
      NotYetFinalised(s, t);
    }
  }

  lemma NotYetFinalised(s: State, t: Tid)
    requires Inv(s) && At(s, t).Finalising?
    ensures At(s, t).o !in s.finalised
  {
    InMemory(s, t);
    if At(s, t).o in s.finalised {
      OnlyFreed(s, At(s, t).o);
    }
  }

  lemma HistoryStep(s: State, t: Tid, step: Step)
    requires Enabled(s, t, step)
    ensures var s' := Next(s, t, step);
            && s'.born == (if step.Alloc? then s.born + {step.o} else s.born)
            && s'.finalised == s.finalised + if step == Go && At(s, t).Finalising? then [At(s, t).o] else []
  {
  }

  /** A step brings no object into memory but one that was never there. */
  lemma KeysBorn(s: State, t: Tid, step: Step)
    requires Inv(s) && Enabled(s, t, step)
    ensures var s' := Next(s, t, step);
            s'.next.Keys <= s'.born && 0 !in s'.born && s'.next.Keys * s.born <= s.next.Keys
  {
    StepMoves(s, t, step);
    HistoryStep(s, t, step);
  }

  /** A finalised object stays in memory only as long as the thread that frees it has not done so. */
  lemma StillFreed(s: State, t: Tid, step: Step, o: Id)
    requires Inv(s) && Enabled(s, t, step) && o in Next(s, t, step).finalised
    ensures var s' := Next(s, t, step); o in s'.born && (o in s'.next ==> BeingFreed(s', o))
  {
    var s' := Next(s, t, step);
    HistoryStep(s, t, step);
    PcsStep(s, t, step);
    InMemory(s, t);
    if o !in s.finalised {
      assert s'.pcs[t] == Freeing(o);
    } else if o in s'.next {
      KeysBorn(s, t, step);
      var u :| u in s.pcs && s.pcs[u] == Freeing(o);
      assert u != t;
      assert s'.pcs[u] == Freeing(o);
    }
  }

  lemma OnlyFreed(s: State, o: Id)
    requires Inv(s) && o in s.finalised && o in s.next
    ensures o !in s.linked && forall t :: t in s.pcs && o in Own(s.pcs[t]) ==> s.pcs[t] == Freeing(o)
  {
    var u :| u in s.pcs && s.pcs[u] == Freeing(o);
    assert HeldBy(Objects(s), u) == {o};
    Exclusive(Objects(s), u, o);
    assert forall t :: t in s.pcs ==> Objects(s).held[t] == Own(s.pcs[t]);
  }

  /** Every statement of every thread keeps the registry consistent. */
  lemma StepKeepsInv(s: State, t: Tid, step: Step)
    requires Inv(s) && Enabled(s, t, step)
    ensures Inv(Next(s, t, step))
  {
    var s' := Next(s, t, step);
    StepMoves(s, t, step);
    MovesBalance(s, t, s', MoveOf(s, t, step));
    ListKept(s, t, step);
    GateKept(s, t, step);
    HistoryKept(s, t, step);
    StepperOk(s, t, step);
    forall u | u in s'.pcs ensures PcOk(s', s'.pcs[u]) {
      if u != t {
        OthersOk(s, t, step, u);
      }
    }
  }

  // ----- whole runs -----

  ghost function Run(s: State, tr: seq<Event<Step>>): Option<State> {
    if tr == [] then Some(s)
    else
      var e := tr[|tr| - 1];
      match Run(s, tr[..|tr| - 1])
      case None => None
      case Some(m) => if Enabled(m, e.t, e.step) then Some(Next(m, e.t, e.step)) else None
  }

  ghost predicate Reachable(tr: seq<Event<Step>>, s: State) {
    Run(INIT, tr) == Some(s)
  }

  lemma {:induction false} ReachableInv(tr: seq<Event<Step>>, s: State)
    requires Reachable(tr, s)
    ensures Inv(s)
  {
    if tr == [] {
      InitHolds();
    } else {
      var e, m := tr[|tr| - 1], Run(INIT, tr[..|tr| - 1]);
      ReachableInv(tr[..|tr| - 1], m.value);
      StepKeepsInv(m.value, e.t, e.step);
    }
  }

  /** What following the list `i` times from `firstObject` finds in memory. */
  function Nth(s: State, i: nat): Id {
    if i == 0 then s.first else Load(s, Nth(s, i - 1))
  }

  /** At every moment, even in the middle of a list section, the chain in memory is exactly the
      history of what has been linked and not yet unlinked: no cycle, nothing lost, nothing extra. */
  lemma {:induction false} ChainIsExact(tr: seq<Event<Step>>, s: State)
    requires Reachable(tr, s)
    ensures forall i :: 0 <= i < |s.linked| ==> Nth(s, i) == s.linked[i] && s.linked[i] in s.next
    ensures Nth(s, |s.linked|) == 0
    ensures Distinct(s.linked)
  {
    ReachableInv(tr, s);
    InMemory(s, 0);
    forall i | 0 <= i < |s.linked| ensures Nth(s, i) == s.linked[i] && s.linked[i] in s.next {
      NthLinked(s, i);
      assert s.linked[i] in s.linked;
    }
    if s.linked != [] {
      NthLinked(s, |s.linked| - 1);
      assert Load(s, s.linked[|s.linked| - 1]) == Successor(s.linked, |s.linked| - 1);
    }
  }

  lemma {:induction false} NthLinked(s: State, i: nat)
    requires ListOk(s) && i < |s.linked|
    ensures Nth(s, i) == s.linked[i]
  {
    if i > 0 {
      NthLinked(s, i - 1);
      assert Load(s, s.linked[i - 1]) == Successor(s.linked, i - 1);
    }
  }

  /** No object is finalised twice, and a finalised object is no longer linked; it is in memory only
      until the thread that finalised it has taken its next step, which frees it. */
  lemma {:induction false} FinalisedOnce(tr: seq<Event<Step>>, s: State)
    requires Reachable(tr, s)
    ensures Distinct(s.finalised)
    ensures forall o :: o in s.finalised ==> o !in s.linked && (o in s.next ==> BeingFreed(s, o))
  {
    ReachableInv(tr, s);
    InMemory(s, 0);
    forall o | o in s.finalised && o in s.next ensures o !in s.linked {
      OnlyFreed(s, o);
    }
  }

  /** The objects whose fields the next statement of a thread reads or writes. */
  ghost function Dereferenced(s: State, pc: Pc): set<Id> {
    match pc
    case New(o) => {o}
    case Failed(o) => {o}
    case Linking(o) => {o}
    case LinkedFirst(o) => {o}
    case Checking(o) => if o == s.first then {o} else {}
    case Walking(o, temp) => if temp == 0 then {} else if Load(s, temp) == o then {temp, o} else {temp}
    case Finalising(o) => {o}
    case Freeing(o) => {o}
    case _ => {}
  }

  /** However deletes of the same handle race, no statement touches memory that has been freed. */
  lemma {:induction false} NoUseAfterFree(tr: seq<Event<Step>>, s: State, t: Tid)
    requires Reachable(tr, s)
    ensures Dereferenced(s, At(s, t)) <= s.next.Keys
  {
    ReachableInv(tr, s);
    InMemory(s, t);
    var pc := At(s, t);
    assert t in s.pcs ==> PcOk(s, pc);
    if pc.Walking? && pc.temp != 0 {
      assert pc.temp in s.linked;
      if Load(s, pc.temp) == pc.o {
        FoundAt(s, pc.o, pc.temp);
      }
    }
    assert pc.Checking? && pc.o == s.first ==> s.linked[0] == pc.o;
    assert pc.LinkedFirst? ==> pc.o in s.linked;
  }

  /** A delete succeeds exactly when the object is linked at the moment its search ends, and takes
      out that object alone; otherwise it reports an invalid argument and changes nothing. */
  lemma {:induction false} DeleteVerdict(tr: seq<Event<Step>>, s: State, t: Tid)
    requires Reachable(tr, s) && Searching(At(s, t))
    ensures var o, s' := At(s, t).o, Next(s, t, Go);
            && (At(s', t).Unlinked? ==> o in s.linked && s'.linked == Without(s.linked, o) && o !in s'.linked)
            && (At(s', t).Missed? ==> o !in s.linked)
            && (!At(s', t).Unlinked? ==> s'.linked == s.linked && s'.next == s.next && s'.first == s.first)
  {
    ReachableInv(tr, s);
    var pc := At(s, t);
    if At(Next(s, t, Go), t).Unlinked? {
      StepMoves(s, t, Go);
      if pc.Walking? {
        FoundAt(s, pc.o, pc.temp);
      } else {
        assert s.linked[0] == pc.o;
      }
    }
  }

  /** How many steps a walk still takes: one for each object from `temp` on, and one to give up. */
  ghost function StepsLeft(s: State, t: Tid): nat
    requires At(s, t).Walking?
  {
    var temp := At(s, t).temp;
    if temp == 0 then 1 else |s.linked| - IndexOf(s.linked, temp) + 1
  }

  /** Each round of the search moves on by exactly one linked object; the rounds of other threads'
      calls that come in between neither lengthen nor shorten what is left of it. */
  lemma SearchAdvances(s: State, t: Tid, u: Tid, step: Step)
    requires Inv(s) && At(s, t).Walking? && Enabled(s, u, step)
    ensures var s' := Next(s, u, step);
            if u != t then At(s', t) == At(s, t) && StepsLeft(s', t) == StepsLeft(s, t)
            else At(s', t).Walking? ==> StepsLeft(s', t) == StepsLeft(s, t) - 1
  {
    assert Inside(s.pcs[t]) && PcOk(s, s.pcs[t]);
    PcsStep(s, u, step);
    if u != t {
      OneInside(s, u, t);
      ListUntouched(s, u, step);
    } else if At(Next(s, t, Go), t).Walking? {
      NextIndex(s, At(s, t).temp);
    }
  }

  lemma NextIndex(s: State, temp: Id)
    requires ListOk(s) && Distinct(s.linked) && temp in s.linked
    ensures var i := IndexOf(s.linked, temp);
            Load(s, temp) == Successor(s.linked, i) && (i + 1 < |s.linked| ==> IndexOf(s.linked, s.linked[i + 1]) == i + 1)
  {
    var i := IndexOf(s.linked, temp);
    assert Load(s, s.linked[i]) == Successor(s.linked, i);
    if i + 1 < |s.linked| {
      assert s.linked[i + 1] in s.linked;
    }
  }

  /** The number of steps that `t` takes in a run. */
  ghost function StepsOf(tr: seq<Event<Step>>, t: Tid): nat {
    if tr == [] then 0 else StepsOf(tr[..|tr| - 1], t) + if tr[|tr| - 1].t == t then 1 else 0
  }

  /** The walk of `t` is still going on at every moment of the run. */
  ghost predicate WalksOn(s: State, tr: seq<Event<Step>>, t: Tid) {
    forall n :: 0 <= n <= |tr| ==> Run(s, tr[..n]).Some? && At(Run(s, tr[..n]).value, t).Walking?
  }

  /** A search ends: however the other threads get in between, it is over once its own thread has
      taken as many steps as there were objects ahead of it, and one to give up. */
  lemma {:induction false} SearchEnds(past: seq<Event<Step>>, s: State, tr: seq<Event<Step>>, t: Tid)
    requires Reachable(past, s) && At(s, t).Walking? && Run(s, tr).Some?
    requires StepsOf(tr, t) >= StepsLeft(s, t)
    ensures exists n :: 0 <= n <= |tr| && Run(s, tr[..n]).Some? && !At(Run(s, tr[..n]).value, t).Walking?
  {
    ReachableInv(past, s);
    if WalksOn(s, tr, t) {
      WalkCounts(s, tr, t, Run(s, tr).value);
    } else {
      PrefixesRun(s, tr);
    }
  }

  lemma {:induction false} PrefixesRun(s: State, tr: seq<Event<Step>>)
    requires Run(s, tr).Some?
    ensures forall n :: 0 <= n <= |tr| ==> Run(s, tr[..n]).Some?
  {
    assert tr[..|tr|] == tr;
    if tr != [] {
      var init := tr[..|tr| - 1];
      PrefixesRun(s, init);
      assert forall n :: 0 <= n <= |init| ==> init[..n] == tr[..n];
    }
  }

  /** While a walk goes on, every step of its thread uses up one of the steps that were left. */
  lemma {:induction false} WalkCounts(s: State, tr: seq<Event<Step>>, t: Tid, m: State)
    requires Inv(s) && At(s, t).Walking? && WalksOn(s, tr, t) && Run(s, tr) == Some(m)
    ensures Inv(m) && At(m, t).Walking? && StepsOf(tr, t) + StepsLeft(m, t) == StepsLeft(s, t)
  {
    assert tr[..|tr|] == tr && tr[..0] == [];
    if tr != [] {
      var init, e := tr[..|tr| - 1], tr[|tr| - 1];
      assert forall n :: 0 <= n <= |init| ==> init[..n] == tr[..n];
      var k := Run(s, init).value;
      WalkCounts(s, init, t, k);
      StepKeepsInv(k, e.t, e.step);
      SearchAdvances(k, t, e.t, e.step);
    }
  }

  /** As long as some call is in progress, some thread can take its next statement. */
  lemma {:induction false} NoDeadlock(tr: seq<Event<Step>>, s: State, t: Tid)
    requires Reachable(tr, s) && At(s, t) != Idle
    ensures exists u :: Enabled(s, u, Go) || Enabled(s, u, Initialise(true))
  {
    ReachableInv(tr, s);
    var u := SomeoneCanGo(s, t);
  }

  lemma SomeoneCanGo(s: State, t: Tid) returns (u: Tid)
    requires GateOk(s) && (s.gate.Taken? ==> s.gate.t in s.pcs) && At(s, t) != Idle
    ensures Enabled(s, u, Go) || Enabled(s, u, Initialise(true))
  {
    u := if s.gate.Taken? then s.gate.t else t;
    assert s.gate.Taken? ==> Inside(s.pcs[u]);
  }

  /** A thread between calls may create any object that has not been used, and delete any handle at
      all, linked or not; init may give either answer. */
  lemma AnyCall(s: State, t: Tid, o: Id)
    requires Inv(s)
    ensures At(s, t) == Idle && o != 0 ==> Enabled(s, t, Delete(o)) && (o !in s.born ==> Enabled(s, t, Alloc(o)))
    ensures At(s, t).New? ==> Enabled(s, t, Initialise(true)) && Enabled(s, t, Initialise(false))
  {
  }

  /** Between calls, the objects in memory are exactly the linked ones. */
  lemma {:induction false} NothingLeaks(tr: seq<Event<Step>>, s: State)
    requires Reachable(tr, s) && forall t :: t in s.pcs ==> s.pcs[t] == Idle
    ensures forall o :: o in s.next <==> o in s.linked
  {
    ReachableInv(tr, s);
    Settled(Objects(s));
    assert forall o :: o in s.linked <==> o in Listed(Objects(s));
  }
}
