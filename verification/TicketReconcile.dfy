/**
  One whole reconcile of a ticket, with whatever the rest of the system does between its API calls:
  that it ends, how often the pending and ready handlers call each other, and that it is a run of
  the interleaved machine.
 */
module TicketReconcile {
  import opened Common
  import opened Text
  import opened TicketModel
  import opened TicketMachine
  import opened TicketSafety

  /** What happens up to and at the next API call: the others' actions, then chance. */
  datatype Slot = Slot(others: seq<Action>, choice: Choice)

  const QUIET := Slot([], CALM)

  function Next(sched: seq<Slot>): Slot {
    if sched == [] then QUIET else sched[0]
  }

  function Rest(sched: seq<Slot>): seq<Slot> {
    if sched == [] then [] else sched[1..]
  }

  /** The work queue never runs two reconciles of one ticket, so these actions are not the others' to take. */
  predicate Foreign(k: Key, a: Action) {
    !(a.Begin? && a.k == k) && !(a.Work? && a.k == k)
  }

  function Interfere(w: World, k: Key, others: seq<Action>): World
    decreases |others|
  {
    if others == [] then w
    else Interfere(if Foreign(k, others[0]) then Apply(w, others[0]) else w, k, others[1..])
  }

  lemma {:induction false} InterfereOk(w: World, k: Key, others: seq<Action>, pc: Pc)
    requires Inv(w) && PcOk(w.store, k, pc)
    ensures Inv(Interfere(w, k, others))
    ensures PcOk(Interfere(w, k, others).store, k, pc)
    ensures Later(w.store, Interfere(w, k, others).store)
    decreases |others|
  {
    if others != [] {
      var w' := if Foreign(k, others[0]) then Apply(w, others[0]) else w;
      if Foreign(k, others[0]) {
        ApplyOk(w, others[0]);
        ApplyLater(w, others[0]);
        PcOkLater(w.store, w'.store, k, pc);
      }
      InterfereOk(w', k, others[1..], pc);
    }
  }

  // ---------------------------------------------------------------- Termination

  /** API calls still to come if nothing interferes. */
  function Rank(st: Store, k: Key, pc: Pc): nat {
    match pc
    case Done(_) => 0
    case Fetch => 4
    case MakePod(_) => if GuardianKey(k) in st.pods then 3 else 2
    case LookPod(_, _) => if GuardianKey(k) in st.pods then 2 else 3
    case DropPod(_, _, _) => 2
    case _ => 1
  }

  lemma CalmStepRanksDown(st: Store, k: Key, pc: Pc)
    requires StoreOk(st) && PcOk(st, k, pc) && !pc.Done?
    ensures Rank(CallStep(st, k, pc, CALM).0, k, CallStep(st, k, pc, CALM).1) < Rank(st, k, pc)
  {
    CallStepOk(st, k, pc, CALM);
    RefParses(k);
  }

  lemma RefParses(k: Key)
    ensures ValidKey(k) ==> ParseRef(RefText(GuardianKey(k))) == Some(GuardianKey(k))
  {
    if ValidKey(k) {
      GuardianRefParses(k);
    }
  }

  /** The others' actions of the next slot, then this reconcile's next API call. */
  function Advance(w: World, k: Key, pc: Pc, sched: seq<Slot>): (World, Pc) {
    var w1 := Interfere(w, k, Next(sched).others);
    var (st, pc') := CallStep(w1.store, k, pc, Next(sched).choice);
    (w1.(store := st), pc')
  }

  /** Advancing keeps everything in order and uses up the schedule or, once it is empty, the rank. */
  lemma AdvanceOk(w: World, k: Key, pc: Pc, sched: seq<Slot>)
    requires Inv(w) && PcOk(w.store, k, pc) && !pc.Done?
    ensures Inv(Advance(w, k, pc, sched).0)
    ensures PcOk(Advance(w, k, pc, sched).0.store, k, Advance(w, k, pc, sched).1)
    ensures sched == [] ==> Rank(Advance(w, k, pc, sched).0.store, k, Advance(w, k, pc, sched).1) < Rank(w.store, k, pc)
  {
    InterfereOk(w, k, Next(sched).others, pc);
    var w1 := Interfere(w, k, Next(sched).others);
    CallStepOk(w1.store, k, pc, Next(sched).choice);
    InvLater(w1, Advance(w, k, pc, sched).0.store);
    if sched == [] {
      CalmStepRanksDown(w.store, k, pc);
    }
  }

  /**
    A reconcile from `pc` to its end under a schedule; the schedule may be of any length, and what it
    leaves over is returned. It is total: the handlers' mutual recursion ends under every schedule.
   */
  ghost function Drive(w: World, k: Key, pc: Pc, sched: seq<Slot>): (r: (World, seq<Slot>, Result))
    requires Inv(w) && PcOk(w.store, k, pc)
    ensures Inv(r.0)
    decreases |sched|, Rank(w.store, k, pc)
  {
    if pc.Done? then (w, sched, pc.result)
    else
      AdvanceOk(w, k, pc, sched);
      var (w', pc') := Advance(w, k, pc, sched);
      Drive(w', k, pc', Rest(sched))
  }

  /** One slot of a drive. */
  lemma DriveStep(w: World, k: Key, pc: Pc, sched: seq<Slot>)
    requires Inv(w) && PcOk(w.store, k, pc) && !pc.Done?
    ensures Inv(Advance(w, k, pc, sched).0)
    ensures PcOk(Advance(w, k, pc, sched).0.store, k, Advance(w, k, pc, sched).1)
    ensures Drive(w, k, pc, sched) == Drive(Advance(w, k, pc, sched).0, k, Advance(w, k, pc, sched).1, Rest(sched))
    ensures |Rest(sched)| < |sched|
            || (&& sched == []
                && Rank(Advance(w, k, pc, sched).0.store, k, Advance(w, k, pc, sched).1) < Rank(w.store, k, pc))
  {
    AdvanceOk(w, k, pc, sched);
  }

  /** Every reachable `status.guardianPod` is nil or names the ticket's own guardian, so it always parses. */
  lemma MalformedBranchIsDead(w: World, k: Key)
    requires Inv(w) && k in w.store.tickets
    requires w.store.tickets[k].status.guardianPod.Some?
    ensures ParseRef(w.store.tickets[k].status.guardianPod.value) == Some(GuardianKey(k))
  {
    assert TicketOk(w.store, k);
    GuardianRefParses(k);
  }

  /**
    Why that matters: with a malformed reference and the guardian in place, the pending handler
    would call the ready handler and be called back by it in the state it started from, for ever.
   */
  lemma MalformedReferenceWouldLoop(st: Store, k: Key, t: Ticket)
    requires t.key == k && t.status.guardianPod.Some? && ParseRef(t.status.guardianPod.value).None?
    requires t.status.activation.Some? && (t.status.expiration.Some? || t.spec.window.NoWindow?)
    requires GuardianKey(k) in st.pods
    ensures CallStep(st, k, MakePod(t), CALM) == (st, MakePod(t))
  {
    assert t.(status := t.status.(activation := Some(t.status.activation.value))) == t;
  }

  // ---------------------------------------------------------------- How often the handlers call each other

  /** Calls of `handlePendingTicket` and `handleReadyTicket` that follow this API call. */
  function HandlerCalls(st: Store, k: Key, pc: Pc, c: Choice): nat {
    match pc
    case Fetch =>
      var pc' := CallStep(st, k, pc, c).1;
      if GetTicket in c.faults || Fetched(st, k, c).None? then 0
      else
        var t := Fetched(st, k, c).value;
        if !t.deleting && t.finalizer && !TimedOut(t, st.now)
           && (t.status.phase == Unset || t.status.phase == Pending || t.status.phase == Ready) then 1 else 0
    case MakePod(t) => if CreatePod !in c.faults && GuardianKey(t.key) in st.pods then 1 else 0
    case LookPod(t, pod) => if GetPod !in c.faults && pod !in st.pods then 1 else 0
    case _ => 0
  }

  ghost function TotalHandlerCalls(w: World, k: Key, pc: Pc, sched: seq<Slot>): nat
    requires Inv(w) && PcOk(w.store, k, pc)
    decreases |sched|, Rank(w.store, k, pc)
  {
    if pc.Done? then 0
    else
      AdvanceOk(w, k, pc, sched);
      var (w', pc') := Advance(w, k, pc, sched);
      HandlerCalls(Interfere(w, k, Next(sched).others).store, k, pc, Next(sched).choice)
      + TotalHandlerCalls(w', k, pc', Rest(sched))
  }

  /** Actions of others that create or delete the guardian of `k`. */
  function Flips(w: World, k: Key, others: seq<Action>): nat
    decreases |others|
  {
    if others == [] then 0
    else
      var w' := if Foreign(k, others[0]) then Apply(w, others[0]) else w;
      (if (GuardianKey(k) in w'.store.pods) != (GuardianKey(k) in w.store.pods) then 1 else 0)
      + Flips(w', k, others[1..])
  }

  /** Such actions between the calls of one reconcile. */
  ghost function TotalFlips(w: World, k: Key, pc: Pc, sched: seq<Slot>): nat
    requires Inv(w) && PcOk(w.store, k, pc)
    decreases |sched|, Rank(w.store, k, pc)
  {
    if pc.Done? then 0
    else
      AdvanceOk(w, k, pc, sched);
      var (w', pc') := Advance(w, k, pc, sched);
      Flips(w, k, Next(sched).others) + TotalFlips(w', k, pc', Rest(sched))
  }

  /** Handler calls still to come if nothing interferes. */
  function Owed(st: Store, k: Key, pc: Pc): nat {
    match pc
    case Fetch => 2
    case MakePod(_) => if GuardianKey(k) in st.pods then 1 else 0
    case LookPod(_, _) => if GuardianKey(k) in st.pods then 0 else 1
    case _ => 0
  }

  lemma {:induction false} FlipsBoundOwed(w: World, k: Key, others: seq<Action>, pc: Pc)
    ensures Owed(Interfere(w, k, others).store, k, pc) <= Owed(w.store, k, pc) + Flips(w, k, others)
    decreases |others|
  {
    if others != [] {
      var w' := if Foreign(k, others[0]) then Apply(w, others[0]) else w;
      FlipsBoundOwed(w', k, others[1..], pc);
    }
  }

  lemma StepPaysOwed(st: Store, k: Key, pc: Pc, c: Choice)
    requires StoreOk(st) && PcOk(st, k, pc)
    ensures HandlerCalls(st, k, pc, c) + Owed(CallStep(st, k, pc, c).0, k, CallStep(st, k, pc, c).1)
         <= Owed(st, k, pc)
  {
    RefParses(k);
  }

  /**
    The two handlers are called at most twice in a reconcile, plus once for every creation or
    deletion of the guardian by somebody else in the meantime.
   */
  lemma {:induction false} HandlerCallBound(w: World, k: Key, pc: Pc, sched: seq<Slot>)
    requires Inv(w) && PcOk(w.store, k, pc)
    ensures TotalHandlerCalls(w, k, pc, sched) <= Owed(w.store, k, pc) + TotalFlips(w, k, pc, sched)
    ensures pc.Fetch? ==> TotalHandlerCalls(w, k, pc, sched) <= 2 + TotalFlips(w, k, pc, sched)
    decreases |sched|, Rank(w.store, k, pc)
  {
    if !pc.Done? {
      var slot := Next(sched);
      InterfereOk(w, k, slot.others, pc);
      FlipsBoundOwed(w, k, slot.others, pc);
      var w1 := Interfere(w, k, slot.others);
      StepPaysOwed(w1.store, k, pc, slot.choice);
      AdvanceOk(w, k, pc, sched);
      var (w', pc') := Advance(w, k, pc, sched);
      HandlerCallBound(w', k, pc', Rest(sched));
    }
  }

  // ---------------------------------------------------------------- A reconcile is a run of the machine

  function With(w: World, k: Key, pc: Pc): World {
    w.(workers := w.workers[k := pc])
  }

  function OnlyForeign(k: Key, others: seq<Action>): seq<Action> {
    if others == [] then []
    else (if Foreign(k, others[0]) then [others[0]] else []) + OnlyForeign(k, others[1..])
  }

  /** The actions of the whole system while the reconcile runs. */
  ghost function Script(w: World, k: Key, pc: Pc, sched: seq<Slot>): seq<Action>
    requires Inv(w) && PcOk(w.store, k, pc)
    decreases |sched|, Rank(w.store, k, pc)
  {
    if pc.Done? then []
    else
      AdvanceOk(w, k, pc, sched);
      var (w', pc') := Advance(w, k, pc, sched);
      OnlyForeign(k, Next(sched).others) + [Work(k, Next(sched).choice)]
      + Script(w', k, pc', Rest(sched))
  }

  lemma {:induction false} RunAppend(w: World, a: seq<Action>, b: seq<Action>)
    ensures Run(w, a + b) == Run(Run(w, a), b)
    decreases |b|
  {
    if b == [] {
      assert a + b == a;
    } else {
      RunAppend(w, a, b[..|b| - 1]);
      assert (a + b)[..|a + b| - 1] == a + b[..|b| - 1];
    }
  }

  lemma RunOne(w: World, a: Action)
    ensures Run(w, [a]) == Apply(w, a)
  {
    assert [a][..0] == [];
    assert Run(w, []) == w;
  }

  /** What others do and what this reconcile is about to do are independent. */
  lemma ForeignCommutes(w: World, k: Key, pc: Pc, a: Action)
    requires Foreign(k, a) && k !in w.workers && !pc.Done?
    ensures Apply(With(w, k, pc), a) == With(Apply(w, a), k, pc)
    ensures k !in Apply(w, a).workers
  {
    if a.Work? && a.k in w.workers {
      var (st, q) := CallStep(w.store, a.k, w.workers[a.k], a.choice);
      assert With(w, k, pc).workers[a.k] == w.workers[a.k];
      if q.Done? {
        assert w.workers[k := pc] - {a.k} == (w.workers - {a.k})[k := pc];
      } else {
        assert w.workers[k := pc][a.k := q] == w.workers[a.k := q][k := pc];
      }
    } else if a.Begin? && a.k !in w.workers {
      assert w.workers[k := pc][a.k := Fetch] == w.workers[a.k := Fetch][k := pc];
    }
  }

  lemma {:induction false} InterfereIsRun(w: World, k: Key, pc: Pc, others: seq<Action>)
    requires k !in w.workers && !pc.Done?
    ensures Run(With(w, k, pc), OnlyForeign(k, others)) == With(Interfere(w, k, others), k, pc)
    ensures k !in Interfere(w, k, others).workers
    decreases |others|
  {
    if others != [] {
      var a := others[0];
      if Foreign(k, a) {
        ForeignCommutes(w, k, pc, a);
        RunOne(With(w, k, pc), a);
        RunAppend(With(w, k, pc), [a], OnlyForeign(k, others[1..]));
        InterfereIsRun(Apply(w, a), k, pc, others[1..]);
      } else {
        assert OnlyForeign(k, others) == OnlyForeign(k, others[1..]);
        InterfereIsRun(w, k, pc, others[1..]);
      }
    }
  }

  lemma WorkIsStep(w: World, k: Key, pc: Pc, c: Choice)
    requires k !in w.workers && !pc.Done?
    ensures
      var (st, pc') := CallStep(w.store, k, pc, c);
      Apply(With(w, k, pc), Work(k, c)) == if pc'.Done? then w.(store := st) else With(w.(store := st), k, pc')
  {
    var pc' := CallStep(w.store, k, pc, c).1;
    assert w.workers[k := pc] - {k} == w.workers;
    assert w.workers[k := pc][k := pc'] == w.workers[k := pc'];
  }

  /** A reconcile with interference is one of the runs that `RunEvolves` and `NoDoubleClaim` speak of. */
  lemma {:induction false} DriveIsRun(w: World, k: Key, pc: Pc, sched: seq<Slot>)
    requires Inv(w) && PcOk(w.store, k, pc) && k !in w.workers && !pc.Done?
    ensures Run(With(w, k, pc), Script(w, k, pc, sched)) == Drive(w, k, pc, sched).0
    decreases |sched|, Rank(w.store, k, pc)
  {
    var slot := Next(sched);
    var w1 := Interfere(w, k, slot.others);
    AdvanceOk(w, k, pc, sched);
    var (w2, pc') := Advance(w, k, pc, sched);
    var a, b := OnlyForeign(k, slot.others), [Work(k, slot.choice)];
    InterfereIsRun(w, k, pc, slot.others);
    WorkIsStep(w1, k, pc, slot.choice);
    RunOne(With(w1, k, pc), Work(k, slot.choice));
    RunAppend(With(w, k, pc), a, b);
    if pc'.Done? {
      assert Script(w2, k, pc', Rest(sched)) == [];
      assert Script(w, k, pc, sched) == a + b;
    } else {
      var c := Script(w2, k, pc', Rest(sched));
      assert Script(w, k, pc, sched) == a + b + c;
      RunAppend(With(w, k, pc), a + b, c);
      DriveIsRun(w2, k, pc', Rest(sched));
    }
  }
}
