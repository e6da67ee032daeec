/**
  What one undisturbed reconcile leaves behind, case by case, told in terms of the stored ticket and
  its guardian alone. Calls may take any time; unless a case says otherwise none of them fails.
 */
module TicketOutcomes {
  import opened Common
  import opened Conditions
  import opened TicketModel
  import opened TicketMachine
  import opened TicketSafety
  import opened TicketReconcile
  import opened GuardianOwnership

  // ---------------------------------------------------------------- One undisturbed call

  /** Nothing interferes with the next call, and it does not fail. */
  lemma CalmStep(w: World, k: Key, pc: Pc, sched: seq<Slot>)
    requires Inv(w) && PcOk(w.store, k, pc) && !pc.Done? && Alone(sched)
    ensures
      var (st, pc') := CallStep(w.store, k, pc, Next(sched).choice);
      && Inv(w.(store := st)) && PcOk(st, k, pc')
      && Drive(w, k, pc, sched) == Drive(w.(store := st), k, pc', Rest(sched))
    ensures Alone(Rest(sched)) && Next(sched).choice.cached.None?
    ensures ErrorFree(sched) ==> Next(sched).choice.faults == {} && ErrorFree(Rest(sched))
  {
    DriveStep(w, k, pc, sched);
    assert Interfere(w, k, []) == w;
  }

  /** A call that leaves the store as it was. */
  lemma ReadingStep(w: World, k: Key, pc: Pc, pc': Pc, sched: seq<Slot>)
    requires Inv(w) && PcOk(w.store, k, pc) && !pc.Done? && Alone(sched)
    requires CallStep(w.store, k, pc, Next(sched).choice) == (w.store, pc')
    ensures PcOk(w.store, k, pc') && Drive(w, k, pc, sched) == Drive(w, k, pc', Rest(sched))
    ensures Alone(Rest(sched)) && (ErrorFree(sched) ==> ErrorFree(Rest(sched)))
  {
    CalmStep(w, k, pc, sched);
    assert w.(store := w.store) == w;
  }

  /** The last call of a reconcile. */
  lemma LastStep(w: World, k: Key, pc: Pc, sched: seq<Slot>)
    requires Inv(w) && PcOk(w.store, k, pc) && !pc.Done? && Alone(sched)
    requires CallStep(w.store, k, pc, Next(sched).choice).1.Done?
    ensures
      var (st, pc') := CallStep(w.store, k, pc, Next(sched).choice);
      Drive(w, k, pc, sched) == (w.(store := st), Rest(sched), pc'.result)
  {
    CalmStep(w, k, pc, sched);
  }

  /** A status write that is not out of date replaces the status and nothing else. */
  lemma WriteOutcome(w: World, k: Key, t: Ticket, sched: seq<Slot>)
    requires Inv(w) && k in w.store.tickets && PcOk(w.store, k, WriteStatus(t))
    requires t.key == k && t.rv == w.store.tickets[k].rv
    requires Alone(sched) && PutStatus !in Next(sched).choice.faults
    ensures
      var (w', _, result) := Drive(w, k, WriteStatus(t), sched);
      && result == Settled && w'.store.pods == w.store.pods
      && k in w'.store.tickets
      && w'.store.tickets[k] == w.store.tickets[k].(status := t.status, rv := w'.store.tickets[k].rv)
  {
    LastStep(w, k, WriteStatus(t), sched);
  }

  // ---------------------------------------------------------------- Words for the cases

  /** Stored, not being deleted, holding its finalizer, and not past its expiry. */
  predicate Live(st: Store, k: Key) {
    && k in st.tickets
    && st.tickets[k].finalizer && !st.tickets[k].deleting
    && (st.tickets[k].status.expiration.Some? ==> st.now <= st.tickets[k].status.expiration.value)
  }

  /** The status is the expected one, up to its conditions, of which one says so. */
  predicate StatusIs(st: Status, expected: Status, kind: string, isTrue: bool) {
    st == expected.(conditions := st.conditions) && Says(st.conditions, kind, isTrue)
  }

  lemma MarkedSays(t: Ticket, phase: Phase, reason: string, now: int)
    ensures
      var s := Marked(t, phase, reason, now).status;
      && s == t.status.(phase := phase, reason := reason, conditions := s.conditions)
      && (phase == Expired ==> Says(s.conditions, "Expiring", true))
      && (phase == Pending ==> Says(s.conditions, "Ready", false))
      && (phase == Ready || phase == Claimed ==> Says(s.conditions, "Ready", true))
  {
    var kind := if phase == Expired then "Expiring" else "Ready";
    LookupAfterUpsert(t.status.conditions, Update(kind, phase != Pending, now, reason), kind);
  }

  /** A marked status, once written, says so in the right condition. */
  lemma MarkedOutcome(w: World, k: Key, t: Ticket, phase: Phase, reason: string, sched: seq<Slot>)
    requires Inv(w) && k in w.store.tickets && PcOk(w.store, k, WriteStatus(Marked(t, phase, reason, w.store.now)))
    requires t.key == k && t.rv == w.store.tickets[k].rv
    requires phase == Pending || phase == Ready || phase == Claimed || phase == Expired
    requires Alone(sched) && PutStatus !in Next(sched).choice.faults
    ensures
      var (w', _, result) := Drive(w, k, WriteStatus(Marked(t, phase, reason, w.store.now)), sched);
      && result == Settled && w'.store.pods == w.store.pods
      && k in w'.store.tickets && w'.store.tickets[k].deleting == w.store.tickets[k].deleting
      && StatusIs(w'.store.tickets[k].status, t.status.(phase := phase, reason := reason),
                  if phase == Expired then "Expiring" else "Ready", phase != Pending)
  {
    WriteOutcome(w, k, Marked(t, phase, reason, w.store.now), sched);
    MarkedSays(t, phase, reason, w.store.now);
  }

  /** The node a guardian is created on: the one the ticket asks for, or none yet. */
  function AskedNode(t: Ticket): string {
    match t.spec.nodeName
    case None => ""
    case Some(node) => node
  }

  /** The times of a ticket that is activated at `now`: set once, and from the window if it has a length. */
  function Times(t: Ticket, now: int): (Option<int>, Option<int>) {
    var activation := if t.status.activation.Some? then t.status.activation.value else now;
    (Some(activation),
     if t.status.expiration.Some? then t.status.expiration
     else match t.spec.window
          case Lasts(duration) => Some(activation + duration)
          case _ => None)
  }

  predicate Waiting(p: Phase) {
    p == Unset || p == Pending
  }

  /** The window has no say any more, or makes sense. */
  predicate WindowFits(t: Ticket) {
    t.status.expiration.Some? || !t.spec.window.BadWindow?
  }

  // ---------------------------------------------------------------- Waiting tickets

  /** What a ticket looks like that has just got its guardian. */
  predicate JustActivated(before: Store, after: Store, k: Key)
    requires k in before.tickets
  {
    var t := before.tickets[k];
    && k in after.tickets
    && StatusIs(after.tickets[k].status,
                t.status.(phase := Ready, reason := "Activated",
                          activation := Times(t, before.now).0, expiration := Times(t, before.now).1,
                          guardianPod := Some(k.ns + "/korder-guardian-" + k.name),
                          nodeName := Some(AskedNode(t))),
                "Ready", true)
    && after.pods == before.pods[Key(k.ns, "korder-guardian-" + k.name) := Pod(t.uid, AskedNode(t), false)]
  }

  lemma GuardianNames(k: Key)
    ensures GuardianKey(k) == Key(k.ns, "korder-guardian-" + k.name)
    ensures RefText(GuardianKey(k)) == k.ns + "/korder-guardian-" + k.name
  {
    assert GUARDIAN_PREFIX + "-" == "korder-guardian-";
    assert k.ns + "/" + ("korder-guardian-" + k.name) == k.ns + "/korder-guardian-" + k.name;
  }

  /** From the creation call on. */
  lemma CreationOutcome(w: World, k: Key, pc: Pc, t: Ticket, sched: seq<Slot>)
    requires Inv(w) && k in w.store.tickets && w.store.tickets[k] == t && t.key == k
    requires pc == MakePod(Timed(t, w.store.now)) && PcOk(w.store, k, pc) && ErrorFree(sched)
    requires GuardianKey(k) !in w.store.pods
    ensures
      var (w', _, result) := Drive(w, k, pc, sched);
      result == Settled && JustActivated(w.store, w'.store, k)
  {
    CalmStep(w, k, pc, sched);
    GuardianNames(k);
    var g := GuardianKey(k);
    var w1 := w.(store := w.store.(pods := w.store.pods[g := Pod(t.uid, AskedNode(t), false)]));
    var activated := pc.t.(status := pc.t.status.(phase := Ready,
      guardianPod := Some(RefText(g)), nodeName := Some(AskedNode(t))));
    assert NodeOf(pc.t) == AskedNode(t);
    assert CallStep(w.store, k, pc, Next(sched).choice)
           == (w1.store, WriteStatus(Marked(activated, Ready, "Activated", w.store.now)));
    MarkedOutcome(w1, k, activated, Ready, "Activated", Rest(sched));
  }

  /** A ticket with its times filled in. */
  function Timed(t: Ticket, now: int): Ticket {
    t.(status := t.status.(activation := Times(t, now).0, expiration := Times(t, now).1))
  }

  lemma WaitingComesToCreation(st: Store, k: Key, c: Choice)
    requires StoreOk(st) && Live(st, k) && Waiting(st.tickets[k].status.phase) && WindowFits(st.tickets[k])
    requires c.cached.None? && GetTicket !in c.faults
    ensures CallStep(st, k, Fetch, c) == (st, MakePod(Timed(st.tickets[k], st.now)))
  {
    assert TicketOk(st, k);
  }

  /** A waiting ticket without a guardian gets one on the node it asks for, and becomes Ready. */
  lemma WaitingTicketIsActivated(w: World, k: Key, sched: seq<Slot>)
    requires Inv(w) && Live(w.store, k) && ErrorFree(sched)
    requires Waiting(w.store.tickets[k].status.phase) && WindowFits(w.store.tickets[k])
    requires GuardianKey(k) !in w.store.pods
    ensures
      var (w', _, result) := Drive(w, k, Fetch, sched);
      result == Settled && JustActivated(w.store, w'.store, k)
  {
    assert TicketOk(w.store, k);
    CalmStep(w, k, Fetch, sched);
    WaitingComesToCreation(w.store, k, Next(sched).choice);
    CreationOutcome(w, k, MakePod(Timed(w.store.tickets[k], w.store.now)), w.store.tickets[k], Rest(sched));
  }

  lemma FailedCreation(w: World, k: Key, pc: Pc, sched: seq<Slot>)
    requires Inv(w) && k in w.store.tickets && w.store.tickets[k].key == k
    requires pc == MakePod(Timed(w.store.tickets[k], w.store.now)) && PcOk(w.store, k, pc) && Alone(sched)
    requires CreatePod in Next(sched).choice.faults && PutStatus !in Next(Rest(sched)).choice.faults
    ensures
      var (w', _, result) := Drive(w, k, pc, sched);
      && result == Settled && w'.store.pods == w.store.pods
      && k in w'.store.tickets
      && StatusIs(w'.store.tickets[k].status, pc.t.status.(phase := Pending, reason := "Failed"), "Ready", false)
  {
    CalmStep(w, k, pc, sched);
    var pc1 := WriteStatus(Marked(pc.t, Pending, "Failed", w.store.now));
    assert CallStep(w.store, k, pc, Next(sched).choice) == (w.store, pc1);
    assert w.(store := w.store) == w;
    MarkedOutcome(w, k, pc.t, Pending, "Failed", Rest(sched));
  }

  /** If the creation fails, the ticket is Pending and not ready, with its times set and no guardian. */
  lemma FailedCreationIsReported(w: World, k: Key, sched: seq<Slot>)
    requires Inv(w) && Live(w.store, k) && Alone(sched)
    requires Waiting(w.store.tickets[k].status.phase) && WindowFits(w.store.tickets[k])
    requires GetTicket !in Next(sched).choice.faults
    requires CreatePod in Next(Rest(sched)).choice.faults
    requires PutStatus !in Next(Rest(Rest(sched))).choice.faults
    ensures
      var (before, (w', _, result)) := (w.store.tickets[k], Drive(w, k, Fetch, sched));
      && result == Settled && w'.store.pods == w.store.pods
      && k in w'.store.tickets
      && StatusIs(w'.store.tickets[k].status,
                  before.status.(phase := Pending, reason := "Failed",
                                 activation := Times(before, w.store.now).0,
                                 expiration := Times(before, w.store.now).1),
                  "Ready", false)
  {
    assert TicketOk(w.store, k);
    CalmStep(w, k, Fetch, sched);
    WaitingComesToCreation(w.store, k, Next(sched).choice);
    FailedCreation(w, k, MakePod(Timed(w.store.tickets[k], w.store.now)), Rest(sched));
  }

  /** A malformed window is reported before anything is created. */
  lemma MalformedWindowIsReported(w: World, k: Key, sched: seq<Slot>)
    requires Inv(w) && Live(w.store, k) && ErrorFree(sched)
    requires Waiting(w.store.tickets[k].status.phase) && !WindowFits(w.store.tickets[k])
    ensures
      var (before, (w', _, result)) := (w.store.tickets[k], Drive(w, k, Fetch, sched));
      && result == Settled && w'.store.pods == w.store.pods
      && k in w'.store.tickets
      && StatusIs(w'.store.tickets[k].status,
                  before.status.(phase := Pending, reason := "Failed", activation := Times(before, w.store.now).0),
                  "Ready", false)
  {
    assert TicketOk(w.store, k);
    CalmStep(w, k, Fetch, sched);
    var t := w.store.tickets[k];
    var timed := t.(status := t.status.(activation := Times(t, w.store.now).0));
    assert CallStep(w.store, k, Fetch, Next(sched).choice)
           == (w.store, WriteStatus(Marked(timed, Pending, "Failed", w.store.now)));
    assert w.(store := w.store) == w;
    MarkedOutcome(w, k, timed, Pending, "Failed", Rest(sched));
  }

  // ---------------------------------------------------------------- Ready tickets

  /** A live Ready ticket names its guardian, and the guardian is looked up first. */
  lemma ReadyComesToLook(w: World, k: Key, sched: seq<Slot>)
    requires Inv(w) && Live(w.store, k) && ErrorFree(sched)
    requires w.store.tickets[k].status.phase == Ready
    ensures
      var pc := LookPod(w.store.tickets[k], GuardianKey(k));
      PcOk(w.store, k, pc) && Drive(w, k, Fetch, sched) == Drive(w, k, pc, Rest(sched))
    ensures ErrorFree(Rest(sched))
  {
    assert TicketOk(w.store, k);
    GuardianRefParses(k);
    CalmStep(w, k, Fetch, sched);
    assert CallStep(w.store, k, Fetch, Next(sched).choice) == (w.store, LookPod(w.store.tickets[k], GuardianKey(k)));
  }

  /** While its guardian runs, a Ready ticket shows the node the guardian was put on. */
  lemma ReadyTicketShowsGuardiansNode(w: World, k: Key, sched: seq<Slot>)
    requires Inv(w) && Live(w.store, k) && ErrorFree(sched)
    requires w.store.tickets[k].status.phase == Ready
    requires GuardianKey(k) in w.store.pods && w.store.pods[GuardianKey(k)].running
    ensures
      var (before, (w', _, result)) := (w.store.tickets[k], Drive(w, k, Fetch, sched));
      var node := w.store.pods[GuardianKey(k)].node;
      && result == Settled && w'.store.pods == w.store.pods
      && k in w'.store.tickets
      && StatusIs(w'.store.tickets[k].status,
                  before.status.(reason := "Ready",
                                 nodeName := if node != "" then Some(node) else before.status.nodeName),
                  "Ready", true)
  {
    ReadyComesToLook(w, k, sched);
    assert TicketOk(w.store, k);
    LookOutcome(w, k, w.store.tickets[k], Rest(sched));
  }

  function ShownOn(t: Ticket, node: string): Ticket {
    t.(status := t.status.(nodeName := if node != "" then Some(node) else t.status.nodeName))
  }

  lemma LookStep(st: Store, k: Key, t: Ticket, c: Choice)
    requires GuardianKey(k) in st.pods && st.pods[GuardianKey(k)].running && GetPod !in c.faults
    ensures
      CallStep(st, k, LookPod(t, GuardianKey(k)), c)
      == (st, WriteStatus(Marked(ShownOn(t, st.pods[GuardianKey(k)].node), Ready, "Ready", st.now)))
  {
    var node := st.pods[GuardianKey(k)].node;
    assert Located(t, node) == ShownOn(t, node);
  }

  lemma LookOutcome(w: World, k: Key, t: Ticket, sched: seq<Slot>)
    requires Inv(w) && k in w.store.tickets && w.store.tickets[k] == t && t.key == k && ErrorFree(sched)
    requires t.status.phase == Ready && PcOk(w.store, k, LookPod(t, GuardianKey(k)))
    requires GuardianKey(k) in w.store.pods && w.store.pods[GuardianKey(k)].running
    ensures
      var (w', _, result) := Drive(w, k, LookPod(t, GuardianKey(k)), sched);
      && result == Settled && w'.store.pods == w.store.pods
      && k in w'.store.tickets
      && StatusIs(w'.store.tickets[k].status,
                  ShownOn(t, w.store.pods[GuardianKey(k)].node).status.(phase := Ready, reason := "Ready"),
                  "Ready", true)
  {
    var shown := ShownOn(t, w.store.pods[GuardianKey(k)].node);
    LookStep(w.store, k, t, Next(sched).choice);
    ReadingStep(w, k, LookPod(t, GuardianKey(k)), WriteStatus(Marked(shown, Ready, "Ready", w.store.now)), sched);
    MarkedOutcome(w, k, shown, Ready, "Ready", Rest(sched));
  }

  /** While its guardian does not run yet, nothing is saved. */
  lemma ReadyTicketWaitsForGuardian(w: World, k: Key, sched: seq<Slot>)
    requires Inv(w) && Live(w.store, k) && ErrorFree(sched)
    requires w.store.tickets[k].status.phase == Ready
    requires GuardianKey(k) in w.store.pods && !w.store.pods[GuardianKey(k)].running
    ensures Drive(w, k, Fetch, sched).0 == w && Drive(w, k, Fetch, sched).2 == Requeued
  {
    ReadyComesToLook(w, k, sched);
    LastStep(w, k, LookPod(w.store.tickets[k], GuardianKey(k)), Rest(sched));
  }

  lemma MissingGuardianStep(st: Store, k: Key, t: Ticket, c: Choice)
    requires GuardianKey(k) !in st.pods && GetPod !in c.faults && WindowFits(t)
    ensures CallStep(st, k, LookPod(t, GuardianKey(k)), c) == (st, MakePod(Timed(t, st.now)))
  {
  }

  /** A guardian that is gone is created again, on the node the ticket asks for. */
  lemma LostGuardianIsRecreated(w: World, k: Key, sched: seq<Slot>)
    requires Inv(w) && Live(w.store, k) && ErrorFree(sched)
    requires w.store.tickets[k].status.phase == Ready && WindowFits(w.store.tickets[k])
    requires GuardianKey(k) !in w.store.pods
    ensures
      var (w', _, result) := Drive(w, k, Fetch, sched);
      result == Settled && JustActivated(w.store, w'.store, k)
  {
    ReadyComesToLook(w, k, sched);
    assert TicketOk(w.store, k);
    var look, t := LookPod(w.store.tickets[k], GuardianKey(k)), w.store.tickets[k];
    MissingGuardianStep(w.store, k, t, Next(Rest(sched)).choice);
    ReadingStep(w, k, look, MakePod(Timed(t, w.store.now)), Rest(sched));
    CreationOutcome(w, k, MakePod(Timed(t, w.store.now)), t, Rest(Rest(sched)));
  }

  // ---------------------------------------------------------------- Used tickets

  /** The pods once a ticket's own guardian, if the ticket names one, is gone. */
  function WithoutGuardian(st: Store, k: Key): map<Key, Pod>
    requires k in st.tickets
  {
    if st.tickets[k].status.guardianPod.Some? then st.pods - {GuardianKey(k)} else st.pods
  }

  /** Where a reconcile is once the guardian has been deleted, and how much time had passed by then. */
  lemma AfterRelease(w: World, k: Key, purpose: Purpose, sched: seq<Slot>) returns (lag: nat, rest: seq<Slot>)
    requires Inv(w) && k in w.store.tickets && ErrorFree(sched)
    requires CallStep(w.store, k, Fetch, Next(sched).choice)
             == (w.store, EnterDrop(w.store.tickets[k], purpose, w.store.now, Next(sched).choice.lag))
    ensures ErrorFree(rest)
    ensures lag == (if w.store.tickets[k].status.guardianPod.Some? then Next(Rest(sched)) else Next(sched)).choice.lag
    ensures
      var w1 := w.(store := w.store.(pods := WithoutGuardian(w.store, k)));
      var pc := AfterDrop(w.store.tickets[k], purpose, w.store.now, lag);
      && Inv(w1) && PcOk(w1.store, k, pc)
      && Drive(w, k, Fetch, sched) == Drive(w1, k, pc, rest)
  {
    assert TicketOk(w.store, k);
    var t := w.store.tickets[k];
    CalmStep(w, k, Fetch, sched);
    lag, rest := Next(sched).choice.lag, Rest(sched);
    if t.status.guardianPod.Some? {
      GuardianRefParses(k);
      var pc := DropPod(t, GuardianKey(k), purpose);
      CalmStep(w, k, pc, Rest(sched));
      lag, rest := Next(Rest(sched)).choice.lag, Rest(Rest(sched));
    } else {
      assert w.(store := w.store.(pods := w.store.pods)) == w;
    }
  }

  /** A claimed ticket loses its guardian and the reference to it, and stays Claimed. */
  lemma ClaimedTicketIsReleased(w: World, k: Key, sched: seq<Slot>)
    requires Inv(w) && Live(w.store, k) && ErrorFree(sched)
    requires w.store.tickets[k].status.phase == Claimed
    ensures
      var (before, (w', _, result)) := (w.store.tickets[k], Drive(w, k, Fetch, sched));
      && result == Settled && w'.store.pods == WithoutGuardian(w.store, k)
      && k in w'.store.tickets && !w'.store.tickets[k].deleting
      && StatusIs(w'.store.tickets[k].status, before.status.(guardianPod := None, reason := "Claimed"), "Ready", true)
  {
    var t := w.store.tickets[k];
    assert TicketOk(w.store, k);
    var lag, rest := AfterRelease(w, k, ForClaim, sched);
    var w1 := w.(store := w.store.(pods := WithoutGuardian(w.store, k)));
    MarkedOutcome(w1, k, t.(status := t.status.(guardianPod := None)), Claimed, "Claimed", rest);
  }

  /**
    An expired ticket loses its guardian. Then its cleanup policy decides: it is kept, deleted at once,
    or deleted if the time between two readings of the clock is longer than its TTL.
   */
  lemma ExpiredTicketIsCleanedUp(w: World, k: Key, sched: seq<Slot>)
    requires Inv(w) && k in w.store.tickets && ErrorFree(sched)
    requires w.store.tickets[k].finalizer && !w.store.tickets[k].deleting
    requires w.store.tickets[k].status.phase == Expired
    ensures
      var (before, w') := (w.store.tickets[k], Drive(w, k, Fetch, sched).0);
      var lag := (if before.status.guardianPod.Some? then Next(Rest(sched)) else Next(sched)).choice.lag;
      && w'.store.pods == WithoutGuardian(w.store, k)
      && k in w'.store.tickets
      && match before.spec.cleanup
         case Retain =>
           && !w'.store.tickets[k].deleting
           && StatusIs(w'.store.tickets[k].status, before.status.(reason := "Expired"), "Expiring", true)
         case DeleteNow => w'.store.tickets[k].deleting && w'.store.tickets[k].status == before.status
         case DeleteAfter(ttl) =>
           w'.store.tickets[k].deleting == (lag > ttl) && w'.store.tickets[k].status == before.status
  {
    var t := w.store.tickets[k];
    assert TicketOk(w.store, k);
    var lag, rest := AfterRelease(w, k, ForExpiry, sched);
    CleanupOutcome(w.(store := w.store.(pods := WithoutGuardian(w.store, k))), k, t, lag, rest);
  }

  lemma CleanupOutcome(w: World, k: Key, t: Ticket, lag: nat, sched: seq<Slot>)
    requires Inv(w) && k in w.store.tickets && w.store.tickets[k] == t && t.key == k && ErrorFree(sched)
    requires t.finalizer && !t.deleting && t.status.phase == Expired
    requires PcOk(w.store, k, AfterDrop(t, ForExpiry, w.store.now, lag))
    ensures
      var w' := Drive(w, k, AfterDrop(t, ForExpiry, w.store.now, lag), sched).0;
      && w'.store.pods == w.store.pods
      && k in w'.store.tickets
      && match t.spec.cleanup
         case Retain =>
           && !w'.store.tickets[k].deleting
           && StatusIs(w'.store.tickets[k].status, t.status.(reason := "Expired"), "Expiring", true)
         case DeleteNow => w'.store.tickets[k].deleting && w'.store.tickets[k].status == t.status
         case DeleteAfter(ttl) => w'.store.tickets[k].deleting == (lag > ttl) && w'.store.tickets[k].status == t.status
  {
    match t.spec.cleanup
    case Retain => MarkedOutcome(w, k, t, Expired, "Expired", sched);
    case DeleteNow => LastStep(w, k, DropTicket(t), sched);
    case DeleteAfter(ttl) =>
      if lag > ttl {
        LastStep(w, k, DropTicket(t), sched);
      }
  }

  /** A ticket past its expiry becomes Expired and is otherwise left alone; its guardian stays for now. */
  lemma TimedOutTicketExpires(w: World, k: Key, sched: seq<Slot>)
    requires Inv(w) && k in w.store.tickets && ErrorFree(sched)
    requires w.store.tickets[k].finalizer && !w.store.tickets[k].deleting
    requires w.store.tickets[k].status.expiration.Some?
    requires w.store.tickets[k].status.expiration.value < w.store.now
    requires w.store.tickets[k].status.phase != Expired
    ensures
      var (before, (w', _, result)) := (w.store.tickets[k], Drive(w, k, Fetch, sched));
      && result == Settled && w'.store.pods == w.store.pods
      && k in w'.store.tickets
      && StatusIs(w'.store.tickets[k].status, before.status.(phase := Expired, reason := "Expired"), "Expiring", true)
  {
    var t := w.store.tickets[k];
    assert TicketOk(w.store, k);
    CalmStep(w, k, Fetch, sched);
    var pc := WriteStatus(Marked(t, Expired, "Expired", w.store.now));
    assert CallStep(w.store, k, Fetch, Next(sched).choice) == (w.store, pc);
    assert w.(store := w.store) == w;
    MarkedOutcome(w, k, t, Expired, "Expired", Rest(sched));
  }

  // ---------------------------------------------------------------- Failing calls

  /** The call a reconcile makes next. */
  function NextCall(pc: Pc): Option<Call> {
    match pc
    case Fetch => Some(GetTicket)
    case AddFinalizer(_) => Some(PutTicket)
    case MakePod(_) => Some(CreatePod)
    case LookPod(_, _) => Some(GetPod)
    case DropPod(_, _, _) => Some(DeletePod)
    case DropFinalizer(_) => Some(PutTicket)
    case WriteStatus(_) => Some(PutStatus)
    case DropTicket(_) => Some(RemoveTicket)
    case Done(_) => None
  }

  /** A failing call changes nothing and, but for the creation of a guardian, ends the reconcile with an error. */
  lemma FailingCallEnds(st: Store, k: Key, pc: Pc, c: Choice)
    requires NextCall(pc).Some? && NextCall(pc).value in c.faults
    ensures CallStep(st, k, pc, c).0 == st
    ensures !pc.MakePod? ==> CallStep(st, k, pc, c).1 == Done(Failed)
  {
  }

  /** So does a write of a ticket that is out of date. */
  lemma StaleWriteEnds(st: Store, k: Key, pc: Pc, c: Choice)
    requires pc.AddFinalizer? || pc.WriteStatus? || pc.DropFinalizer?
    requires pc.t.key in st.tickets && st.tickets[pc.t.key].rv != pc.t.rv
    ensures CallStep(st, k, pc, c) == (st, Done(Failed))
  {
  }

  // ---------------------------------------------------------------- Finalizers

  /** A deleted ticket goes, and its guardian before it. */
  lemma DeletedTicketGoes(w: World, k: Key, sched: seq<Slot>)
    requires Inv(w) && k in w.store.tickets && ErrorFree(sched)
    requires w.store.tickets[k].deleting
    ensures
      var (w', _, result) := Drive(w, k, Fetch, sched);
      && result == Settled
      && w'.store.pods == WithoutGuardian(w.store, k)
      && w'.store.tickets == w.store.tickets - {k}
  {
    var t := w.store.tickets[k];
    assert TicketOk(w.store, k);
    var lag, rest := AfterRelease(w, k, ForDeletion, sched);
    var w1 := w.(store := w.store.(pods := WithoutGuardian(w.store, k)));
    FinalizerOutcome(w1, k, t, rest);
  }

  lemma FinalizerOutcome(w: World, k: Key, t: Ticket, sched: seq<Slot>)
    requires Inv(w) && k in w.store.tickets && w.store.tickets[k] == t && t.key == k && ErrorFree(sched)
    requires t.deleting && PcOk(w.store, k, DropFinalizer(t))
    ensures
      var (w', _, result) := Drive(w, k, DropFinalizer(t), sched);
      result == Settled && w'.store.pods == w.store.pods && w'.store.tickets == w.store.tickets - {k}
  {
    CalmStep(w, k, DropFinalizer(t), sched);
    LastStep(w, k, DropFinalizer(t), sched);
  }

  /** A ticket without the finalizer gets it, and nothing else happens in that reconcile. */
  lemma NewTicketGetsFinalizer(w: World, k: Key, sched: seq<Slot>)
    requires Inv(w) && k in w.store.tickets && ErrorFree(sched)
    requires !w.store.tickets[k].finalizer && !w.store.tickets[k].deleting
    ensures
      var (before, (w', _, result)) := (w.store.tickets[k], Drive(w, k, Fetch, sched));
      && result == Requeued && w'.store.pods == w.store.pods
      && k in w'.store.tickets
      && w'.store.tickets[k] == before.(finalizer := true, rv := w'.store.tickets[k].rv)
  {
    assert TicketOk(w.store, k);
    CalmStep(w, k, Fetch, sched);
    LastStep(w, k, AddFinalizer(w.store.tickets[k]), Rest(sched));
  }
}
