/** Who is responsible for what.

    Every item in `all` is in exactly one place: recorded in the shared list, in the hands of
    one thread, or given up.  Registrations and mappings of the remapper both obey such a ledger. */
module Ledgers {
  import opened Sequences
  import opened Threads

  datatype Ledger = Ledger(all: set<nat>, listed: seq<nat>, held: map<Tid, set<nat>>, spare: set<nat>)

  ghost function HeldBy(l: Ledger, t: Tid): set<nat> {
    if t in l.held then l.held[t] else {}
  }

  ghost function Held(l: Ledger): set<nat> {
    set t, x | t in l.held && x in l.held[t] :: x
  }

  ghost function Listed(l: Ledger): set<nat> {
    set x | x in l.listed
  }

  ghost predicate Balanced(l: Ledger) {
    && l.all == Listed(l) + Held(l) + l.spare
    && Listed(l) !! Held(l) !! l.spare
    && (forall i, j :: 0 <= i < j < |l.listed| ==> l.listed[i] != l.listed[j])
    && (forall t, u :: t in l.held && u in l.held && t != u ==> l.held[t] !! l.held[u])
  }

  /** The ledger with the hands of `t` changed to `xs`. */
  ghost function Hand(l: Ledger, t: Tid, xs: set<nat>): Ledger {
    l.(held := l.held[t := xs])
  }

  lemma HeldAfter(l: Ledger, t: Tid, xs: set<nat>)
    requires Balanced(l)
    ensures Held(Hand(l, t, xs)) == Held(l) - HeldBy(l, t) + xs
    ensures HeldBy(l, t) <= Held(l)
  {
    var h := Hand(l, t, xs);
    forall x | x in Held(h) ensures x in Held(l) - HeldBy(l, t) + xs {
      var u :| u in h.held && x in h.held[u];
    }
    forall x | x in Held(l) - HeldBy(l, t) ensures x in Held(h) {
      var u :| u in l.held && x in l.held[u];
      assert x in h.held[u];
    }
    forall x | x in xs ensures x in Held(h) {
      assert t in h.held && x in h.held[t];
    }
    if t in l.held {
      forall x | x in l.held[t] ensures x in Held(l) {
      }
    }
  }

  lemma HandsDisjoint(l: Ledger, t: Tid, xs: set<nat>)
    requires Balanced(l) && xs !! (Held(l) - HeldBy(l, t))
    ensures var h := Hand(l, t, xs);
            forall u, v :: u in h.held && v in h.held && u != v ==> h.held[u] !! h.held[v]
  {
  }

  /** What a thread holds, nobody else has. */
  lemma Exclusive(l: Ledger, t: Tid, x: nat)
    requires Balanced(l) && HeldBy(l, t) == {x}
    ensures x in l.all && x !in l.listed && x !in l.spare
    ensures forall u :: u in l.held && u != t ==> x !in l.held[u]
  {
  }

  lemma Acquire(l: Ledger, t: Tid, x: nat)
    requires Balanced(l) && HeldBy(l, t) == {} && x !in l.all
    ensures Balanced(Hand(l, t, {x}).(all := l.all + {x}))
  {
    HeldAfter(l, t, {x});
    HandsDisjoint(l, t, {x});
    var m := Hand(l, t, {x}).(all := l.all + {x});
  }

  lemma Release(l: Ledger, t: Tid, x: nat)
    requires Balanced(l) && HeldBy(l, t) == {x}
    ensures Balanced(Hand(l, t, {}).(all := l.all - {x}))
    ensures x in l.all && x !in Listed(l)
  {
    HeldAfter(l, t, {});
    HandsDisjoint(l, t, {});
    var m := Hand(l, t, {}).(all := l.all - {x});
  }

  lemma Abandon(l: Ledger, t: Tid, x: nat)
    requires Balanced(l) && HeldBy(l, t) == {x}
    ensures Balanced(Hand(l, t, {}).(spare := l.spare + {x}))
  {
    HeldAfter(l, t, {});
    HandsDisjoint(l, t, {});
    var m := Hand(l, t, {}).(spare := l.spare + {x});
  }

  /** Acquired and given up at once. */
  lemma Waste(l: Ledger, t: Tid, x: nat)
    requires Balanced(l) && HeldBy(l, t) == {} && x !in l.all
    ensures Balanced(Hand(l, t, {}).(all := l.all + {x}, spare := l.spare + {x}))
  {
    var m := Hand(l, t, {x}).(all := l.all + {x});
    Acquire(l, t, x);
    Abandon(m, t, x);
    assert m.held[t := {}] == l.held[t := {}];
  }

  lemma Deposit(l: Ledger, t: Tid, x: nat)
    requires Balanced(l) && HeldBy(l, t) == {x}
    ensures Balanced(Hand(l, t, {}).(listed := l.listed + [x]))
  {
    HeldAfter(l, t, {});
    HandsDisjoint(l, t, {});
    var m := Hand(l, t, {}).(listed := l.listed + [x]);
  }

  lemma DepositFirst(l: Ledger, t: Tid, x: nat)
    requires Balanced(l) && HeldBy(l, t) == {x}
    ensures Balanced(Hand(l, t, {}).(listed := [x] + l.listed))
  {
    HeldAfter(l, t, {});
    HandsDisjoint(l, t, {});
    var m := Hand(l, t, {}).(listed := [x] + l.listed);
    forall y | y in Listed(l) ensures y in Listed(m) {
      var i :| 0 <= i < |l.listed| && l.listed[i] == y;
    }
  }

  lemma Withdraw(l: Ledger, t: Tid, k: nat)
    requires Balanced(l) && HeldBy(l, t) == {} && k < |l.listed|
    ensures Balanced(Hand(l, t, {l.listed[k]}).(listed := RemoveAt(l.listed, k)))
  {
    var x := l.listed[k];
    HeldAfter(l, t, {x});
    HandsDisjoint(l, t, {x});
    var m := Hand(l, t, {x}).(listed := RemoveAt(l.listed, k));
    forall y ensures y in Listed(m) <==> y in Listed(l) - {x} {
      if y in Listed(l) - {x} {
        var i :| 0 <= i < |l.listed| && l.listed[i] == y;
      }
    }
  }

  lemma Keep(l: Ledger, t: Tid)
    requires Balanced(l)
    ensures Balanced(Hand(l, t, HeldBy(l, t)))
  {
    HeldAfter(l, t, HeldBy(l, t));
    HandsDisjoint(l, t, HeldBy(l, t));
  }

  /** Everything alive is listed once nobody is in the middle of something. */
  lemma Settled(l: Ledger)
    requires Balanced(l) && forall t :: t in l.held ==> l.held[t] == {}
    ensures l.all == Listed(l) + l.spare
  {
  }
}
