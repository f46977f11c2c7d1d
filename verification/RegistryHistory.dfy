/** What becomes of the objects of the registry, told from the calls alone.

    The trace says which objects threads have allocated, what the module's init function answered
    for each of them, and which handles deletes were asked for.  Whether an object is linked,
    finalised or freed follows from these. */
module RegistryHistories {
  import opened RegistryProtocol
  import opened Ledgers
  import opened Sequences
  import opened Threads

  /** The object that `t` has allocated in its last step, if that was an allocation. */
  ghost function Pending(tr: seq<Event<Step>>, t: Tid): Option<Id> {
    if tr == [] then None
    else
      var e := tr[|tr| - 1];
      if e.t != t then Pending(tr[..|tr| - 1], t)
      else if e.step.Alloc? then Some(e.step.o) else None
  }

  /** The objects for which init answered `ok` in the next step of the thread that allocated them. */
  ghost function Answered(tr: seq<Event<Step>>, ok: bool): set<Id> {
    if tr == [] then {}
    else
      var init, e := tr[..|tr| - 1], tr[|tr| - 1];
      match Pending(init, e.t)
      case Some(o) => Answered(init, ok) + if e.step == Initialise(ok) then {o} else {}
      case None => Answered(init, ok)
  }

  ghost function Allocated(tr: seq<Event<Step>>): set<Id> {
    set i | 0 <= i < |tr| && tr[i].step.Alloc? :: tr[i].step.o
  }

  ghost function Requested(tr: seq<Event<Step>>): set<Id> {
    set i | 0 <= i < |tr| && tr[i].step.Delete? :: tr[i].step.o
  }

  /** The objects that init has accepted and refused, and those whose deletion was asked for. */
  datatype Record = Record(good: set<Id>, bad: set<Id>, requested: set<Id>)

  ghost function Noted(r: Record, pc: Pc, step: Step): Record {
    match step
    case Initialise(ok) =>
      if !pc.New? then r else if ok then r.(good := r.good + {pc.o}) else r.(bad := r.bad + {pc.o})
    case Delete(o) => r.(requested := r.requested + {o})
    case _ => r
  }

  /** What a thread's position says about the object it works on. */
  ghost predicate PcKnown(s: State, r: Record, pc: Pc) {
    match pc
    case Idle => true
    case New(o) => o !in r.good && o !in r.bad
    case Failed(o) => o in r.bad
    case Created(o) => o in r.good
    case Linking(o) => o in r.good
    case LinkedFirst(o) => o in r.good
    case Pointed(o) => o in r.good
    case LinkDone(o) => o in r.good
    case Unlinked(o) => o in r.good && o in r.requested
    case Finalising(o) => o in r.good && o in r.requested
    case Freeing(o) => o in r.good && o in r.requested && o in s.finalised
    case _ => pc.o in r.requested
  }

  ghost predicate BeingRefused(s: State, o: Id) {
    exists t :: t in s.pcs && s.pcs[t] == Failed(o)
  }

  ghost predicate ObjectsKnown(s: State, r: Record) {
    && r.good !! r.bad && r.good + r.bad <= s.born
    && (forall o :: o in s.linked ==> o in r.good)
    && (forall o :: o in s.finalised ==> o in r.good && o in r.requested)
    && (forall o :: o in r.bad && o in s.next ==> BeingRefused(s, o))
    && (forall o :: o in s.born ==> o in s.next || o in s.finalised || o in r.bad)
  }

  ghost predicate Known(s: State, r: Record) {
    ObjectsKnown(s, r) && forall t :: t in s.pcs ==> PcKnown(s, r, s.pcs[t])
  }

  // ----- one step -----

  lemma StepperKnown(s: State, t: Tid, step: Step, r: Record)
    requires Inv(s) && Known(s, r) && Enabled(s, t, step)
    ensures var s' := Next(s, t, step); PcKnown(s', Noted(r, At(s, t), step), At(s', t))
  {
    InMemory(s, t);
    StepMoves(s, t, step);
    assert t in s.pcs ==> PcKnown(s, r, At(s, t));
  }

  lemma OthersKnown(s: State, t: Tid, step: Step, r: Record, u: Tid)
    requires Inv(s) && Known(s, r) && Enabled(s, t, step) && u in s.pcs && u != t
    ensures PcKnown(Next(s, t, step), Noted(r, At(s, t), step), s.pcs[u])
  {
    HistoryStep(s, t, step);
    if s.pcs[u].New? {
      NotOurs(s, t, u);
    }
  }

  lemma LinkedGood(s: State, t: Tid, step: Step, r: Record)
    requires Inv(s) && Known(s, r) && Enabled(s, t, step)
    ensures forall o :: o in Next(s, t, step).linked ==> o in Noted(r, At(s, t), step).good
  {
    StepMoves(s, t, step);
    assert t in s.pcs ==> PcKnown(s, r, At(s, t));
    match MoveOf(s, t, step)
    case Pull(k) => RemovedSubset(s.linked, k);
    case _ =>
  }

  lemma FinalisedGood(s: State, t: Tid, step: Step, r: Record)
    requires Known(s, r) && Enabled(s, t, step)
    ensures forall o :: o in Next(s, t, step).finalised ==>
                          o in Noted(r, At(s, t), step).good && o in Noted(r, At(s, t), step).requested
  {
    HistoryStep(s, t, step);
    assert t in s.pcs ==> PcKnown(s, r, At(s, t));
  }

  /** Init answers once for each object. */
  lemma AnswersApart(s: State, t: Tid, step: Step, r: Record)
    requires Inv(s) && Known(s, r) && Enabled(s, t, step)
    ensures var r' := Noted(r, At(s, t), step); r'.good !! r'.bad && r'.good + r'.bad <= Next(s, t, step).born
  {
    InMemory(s, t);
    HistoryStep(s, t, step);
    assert t in s.pcs ==> PcKnown(s, r, At(s, t));
  }

  lemma RefusedGone(s: State, t: Tid, step: Step, r: Record, o: Id)
    requires Inv(s) && Known(s, r) && Enabled(s, t, step)
    requires o in Noted(r, At(s, t), step).bad && o in Next(s, t, step).next
    ensures BeingRefused(Next(s, t, step), o)
  {
    var s' := Next(s, t, step);
    PcsStep(s, t, step);
    if o !in r.bad {
      assert s'.pcs[t] == Failed(o);
    } else {
      KeysBorn(s, t, step);
      var u :| u in s.pcs && s.pcs[u] == Failed(o);
      StepMoves(s, t, step);
      assert u != t;
      assert s'.pcs[u] == Failed(o);
    }
  }

  /** An object leaves memory only when it has been finalised or refused. */
  lemma NoneLost(s: State, t: Tid, step: Step, r: Record, o: Id)
    requires Inv(s) && Known(s, r) && Enabled(s, t, step) && o in Next(s, t, step).born
    ensures var s' := Next(s, t, step); o in s'.next || o in s'.finalised || o in Noted(r, At(s, t), step).bad
  {
    StepMoves(s, t, step);
    HistoryStep(s, t, step);
    assert t in s.pcs ==> PcKnown(s, r, At(s, t));
  }

  lemma ObjectsKept(s: State, t: Tid, step: Step, r: Record)
    requires Inv(s) && Known(s, r) && Enabled(s, t, step)
    ensures ObjectsKnown(Next(s, t, step), Noted(r, At(s, t), step))
  {
    var s', r' := Next(s, t, step), Noted(r, At(s, t), step);
    LinkedGood(s, t, step, r);
    FinalisedGood(s, t, step, r);
    AnswersApart(s, t, step, r);
    forall o | o in r'.bad && o in s'.next ensures BeingRefused(s', o) {
      RefusedGone(s, t, step, r, o);
    }
    forall o | o in s'.born ensures o in s'.next || o in s'.finalised || o in r'.bad {
      NoneLost(s, t, step, r, o);
    }
  }

  lemma StepKnown(s: State, t: Tid, step: Step, r: Record)
    requires Inv(s) && Known(s, r) && Enabled(s, t, step)
    ensures Known(Next(s, t, step), Noted(r, At(s, t), step))
  {
    var s' := Next(s, t, step);
    ObjectsKept(s, t, step, r);
    StepperKnown(s, t, step, r);
    PcsStep(s, t, step);
    forall u | u in s'.pcs ensures PcKnown(s', Noted(r, At(s, t), step), s'.pcs[u]) {
      if u != t {
        OthersKnown(s, t, step, r, u);
      }
    }
  }

  // ----- whole runs -----

  ghost function Told(tr: seq<Event<Step>>): Record {
    Record(Answered(tr, true), Answered(tr, false), Requested(tr))
  }

  ghost predicate Agrees(tr: seq<Event<Step>>, s: State) {
    && Inv(s) && Known(s, Told(tr)) && s.born == Allocated(tr)
    && forall t :: Pending(tr, t) == if At(s, t).New? then Some(At(s, t).o) else None
  }

  lemma NothingYet()
    ensures Agrees([], INIT)
  {
    InitHolds();
  }

  lemma AgreesStep(tr: seq<Event<Step>>, s: State, e: Event<Step>)
    requires Agrees(tr, s) && Enabled(s, e.t, e.step)
    ensures Agrees(tr + [e], Next(s, e.t, e.step))
  {
    StepKeepsInv(s, e.t, e.step);
    StepKnown(s, e.t, e.step, Told(tr));
    ToldStep(tr, e, s);
    PendingStep(tr, e, s);
  }

  lemma LastStep(tr: seq<Event<Step>>, s: State) returns (m: State)
    requires Reachable(tr, s) && tr != []
    ensures var e := tr[|tr| - 1];
            Reachable(tr[..|tr| - 1], m) && Enabled(m, e.t, e.step) && s == Next(m, e.t, e.step)
    ensures tr == tr[..|tr| - 1] + [tr[|tr| - 1]]
  {
    m := Run(INIT, tr[..|tr| - 1]).value;
  }

  /** At every moment the states of the threads and of the objects agree with the trace. */
  lemma {:induction false} ReachableKnown(tr: seq<Event<Step>>, s: State)
    requires Reachable(tr, s)
    ensures Agrees(tr, s)
  {
    if tr == [] {
      NothingYet();
    } else {
      var m := LastStep(tr, s);
      ReachableKnown(tr[..|tr| - 1], m);
      AgreesStep(tr[..|tr| - 1], m, tr[|tr| - 1]);
    }
  }

  lemma RequestedSnoc(tr: seq<Event<Step>>, e: Event<Step>)
    ensures Requested(tr + [e]) == Requested(tr) + if e.step.Delete? then {e.step.o} else {}
    ensures Allocated(tr + [e]) == Allocated(tr) + if e.step.Alloc? then {e.step.o} else {}
  {
    var tr' := tr + [e];
    forall i | 0 <= i < |tr| ensures tr'[i] == tr[i] {
    }
    assert tr'[|tr|] == e;
  }

  lemma ToldStep(tr: seq<Event<Step>>, e: Event<Step>, m: State)
    requires Enabled(m, e.t, e.step) && m.born == Allocated(tr)
    requires Pending(tr, e.t) == if At(m, e.t).New? then Some(At(m, e.t).o) else None
    ensures Told(tr + [e]) == Noted(Told(tr), At(m, e.t), e.step)
    ensures Next(m, e.t, e.step).born == Allocated(tr + [e])
  {
    assert (tr + [e])[..|tr|] == tr;
    RequestedSnoc(tr, e);
    HistoryStep(m, e.t, e.step);
  }

  lemma PendingStep(tr: seq<Event<Step>>, e: Event<Step>, m: State)
    requires Enabled(m, e.t, e.step)
    requires forall t :: Pending(tr, t) == if At(m, t).New? then Some(At(m, t).o) else None
    ensures var s := Next(m, e.t, e.step);
            forall t :: Pending(tr + [e], t) == if At(s, t).New? then Some(At(s, t).o) else None
  {
    var s := Next(m, e.t, e.step);
    assert (tr + [e])[..|tr|] == tr;
    PcsStep(m, e.t, e.step);
    forall t ensures Pending(tr + [e], t) == if At(s, t).New? then Some(At(s, t).o) else None {
    }
  }

  /** A create call that init refuses leaves nothing behind: its object is never linked, and has left
      memory as soon as the thread has taken the step that follows.  What is linked was accepted. */
  lemma {:induction false} RefusedIsDropped(tr: seq<Event<Step>>, s: State)
    requires Reachable(tr, s)
    ensures forall o :: o in s.linked ==> o in Answered(tr, true) && o !in Answered(tr, false)
    ensures forall o :: o in Answered(tr, false) ==>
                          && o !in s.linked && o !in s.finalised
                          && (o in s.next ==> exists t :: At(s, t) == Failed(o))
  {
    ReachableKnown(tr, s);
    forall o | o in Answered(tr, false) && o in s.next ensures exists t :: At(s, t) == Failed(o) {
      assert o in Told(tr).bad;
      var t :| t in s.pcs && s.pcs[t] == Failed(o);
      assert At(s, t) == Failed(o);
    }
  }

  /** A thread that is still creating object `o`, with the list section not yet through. */
  predicate Creating(pc: Pc, o: Id) {
    pc == Created(o) || pc == Linking(o) || pc == Pointed(o)
  }

  /** A thread that has unlinked `o` on request and has not finalised it yet. */
  predicate Removing(pc: Pc, o: Id) {
    pc == Unlinked(o) || pc == Finalising(o)
  }

  /** A create call that init accepts links its object: the object is first when the list section
      ends, and from then on it stays linked until a delete that was asked for has taken it out. */
  lemma {:induction false} AcceptedIsLinked(tr: seq<Event<Step>>, s: State)
    requires Reachable(tr, s)
    ensures forall t :: At(s, t).LinkDone? || At(s, t).LinkedFirst? ==> s.linked != [] && s.linked[0] == At(s, t).o
    ensures forall o :: o in Answered(tr, true) ==>
                          || o in s.linked
                          || (exists t :: Creating(At(s, t), o))
                          || (o in Requested(tr) && (o in s.finalised || exists t :: Removing(At(s, t), o)))
  {
    ReachableKnown(tr, s);
    forall t | At(s, t).LinkDone? || At(s, t).LinkedFirst? ensures s.linked != [] && s.linked[0] == At(s, t).o {
      assert PcOk(s, s.pcs[t]);
    }
    forall o | o in Answered(tr, true) && o !in s.linked && o !in s.finalised
      ensures (exists t :: Creating(At(s, t), o)) || (o in Requested(tr) && exists t :: Removing(At(s, t), o))
    {
      var t := OwnerOf(s, Told(tr), o);
    }
  }

  /** An accepted object that is in memory but not in the list is in some thread's hands. */
  lemma OwnerOf(s: State, r: Record, o: Id) returns (t: Tid)
    requires Inv(s) && Known(s, r) && o in r.good && o !in s.linked && o !in s.finalised
    ensures Creating(At(s, t), o) || (Removing(At(s, t), o) && o in r.requested)
  {
    var l := Objects(s);
    assert o in s.next;
    assert o in Held(l);
    t :| t in l.held && o in l.held[t];
    assert PcKnown(s, r, s.pcs[t]);
  }

  /** No object that has been accepted is freed without having been finalised, no object is finalised
      unless its deletion was asked for, and nothing that was allocated is lost from sight. */
  lemma {:induction false} FreedIsFinalised(tr: seq<Event<Step>>, s: State)
    requires Reachable(tr, s)
    ensures forall t :: At(s, t).Freeing? ==> At(s, t).o in s.finalised
    ensures forall o :: o in Answered(tr, true) && o !in s.next ==> o in s.finalised
    ensures forall o :: o in s.finalised ==> o in Answered(tr, true) && o in Requested(tr)
    ensures forall o :: o in Allocated(tr) <==> o in s.next || o in s.finalised || o in Answered(tr, false)
  {
    ReachableKnown(tr, s);
    forall t | At(s, t).Freeing? ensures At(s, t).o in s.finalised {
      assert PcKnown(s, Told(tr), s.pcs[t]);
    }
  }

  /** Between calls, every object ever allocated is linked, or was deleted and finalised, or was
      refused by init, and only one of the three. */
  lemma {:induction false} AllAccountedFor(tr: seq<Event<Step>>, s: State)
    requires Reachable(tr, s) && forall t :: At(s, t) == Idle
    ensures forall o :: o in Allocated(tr) <==> o in s.linked || o in s.finalised || o in Answered(tr, false)
    ensures forall o :: o in s.linked ==> o !in s.finalised && o !in Answered(tr, false)
    ensures forall o :: o in s.finalised ==> o !in Answered(tr, false)
    ensures forall o :: o in Answered(tr, true) <==> o in s.linked || o in s.finalised
  {
    FreedIsFinalised(tr, s);
    RefusedIsDropped(tr, s);
    FinalisedOnce(tr, s);
    forall t | t in s.pcs ensures s.pcs[t] == Idle {
      assert At(s, t) == Idle;
    }
    NothingLeaks(tr, s);
    AcceptedIsLinked(tr, s);
  }
}
