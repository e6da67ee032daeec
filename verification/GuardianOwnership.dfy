/**
  Who owns the guardian pods. With reconciles and admissions as atomic steps, guardians and tickets
  stay in step over every run; between the API calls of one reconcile they can come apart, and this
  module says exactly when.
 */
module GuardianOwnership {
  import opened Common
  import opened TicketModel
  import opened TicketMachine
  import opened TicketSafety
  import opened TicketReconcile

  // ---------------------------------------------------------------- Atomic steps

  datatype Atom =
    | Reconcile(k: Key, sched: seq<Slot>)
    | Bind(k: Key, who: string)
    | Outside(a: Action)

  /** Nothing interferes, reads are fresh, and any call but the status write may fail. */
  predicate Undisturbed(sched: seq<Slot>) {
    forall i :: 0 <= i < |sched| ==>
      sched[i].others == [] && sched[i].choice.cached.None? && PutStatus !in sched[i].choice.faults
  }

  /** Users, the scheduler, the kubelet and the clock; nobody else creates pods under guardian names. */
  predicate Allowed(a: Action) {
    a.Tick? || a.PodGone? || a.PodMoves? || a.NewTicket? || a.Edit? || a.AskDelete?
  }

  ghost function Atomically(w: World, x: Atom): (w': World)
    requires Inv(w)
    ensures Inv(w')
  {
    match x
    case Reconcile(k, sched) => if Undisturbed(sched) then Drive(w, k, Fetch, sched).0 else w
    case Bind(k, who) =>
      if k in w.store.tickets && Claimable(w.store.tickets[k]) then
        BindNowOk(w, k, who);
        w.(store := UpdateStatus(w.store, ClaimedBy(w.store.tickets[k], who, w.store.now)))
      else w
    case Outside(a) => if Allowed(a) then ApplyOk(w, a); Apply(w, a) else w
  }

  ghost function AtomRun(w: World, run: seq<Atom>): (w': World)
    requires Inv(w)
    ensures Inv(w')
  {
    if run == [] then w else Atomically(AtomRun(w, run[..|run| - 1]), run[|run| - 1])
  }

  lemma BindNowOk(w: World, k: Key, who: string)
    requires Inv(w) && k in w.store.tickets && Claimable(w.store.tickets[k])
    ensures Inv(w.(store := UpdateStatus(w.store, ClaimedBy(w.store.tickets[k], who, w.store.now))))
  {
    assert TicketOk(w.store, k);
    ClaimOk(w.store, w.store.tickets[k], who);
    InvLater(w, UpdateStatus(w.store, ClaimedBy(w.store.tickets[k], who, w.store.now)));
  }

  // ---------------------------------------------------------------- Ownership

  /** The ticket whose guardian would bear this name. */
  function Ward(g: Key): Key {
    var n := |GUARDIAN_PREFIX| + 1;
    Key(g.ns, if |g.name| >= n then g.name[n..] else g.name)
  }

  /** The guardian belongs to a ticket that still holds its finalizer and names it. */
  predicate Owned(st: Store, g: Key)
    requires g in st.pods
  {
    var k := Ward(g);
    && g == GuardianKey(k)
    && k in st.tickets
    && st.tickets[k].finalizer
    && st.tickets[k].status.guardianPod == Some(RefText(g))
    && st.tickets[k].uid == st.pods[g].ownerUid
  }

  predicate Guarded(st: Store) {
    forall g :: g in st.pods ==> Owned(st, g)
  }

  lemma WardOfGuardian(k: Key)
    ensures Ward(GuardianKey(k)) == k
  {
  }

  /** No two tickets share a guardian, so "owned" means by exactly one ticket. */
  lemma OwnerIsUnique(st: Store, g: Key, k: Key)
    requires StoreOk(st) && g in st.pods && Owned(st, g)
    requires k in st.tickets && st.tickets[k].status.guardianPod == Some(RefText(g))
    ensures k == Ward(g)
  {
    assert TicketOk(st, k) && TicketOk(st, Ward(g));
    GuardianRefParses(k);
    GuardianRefParses(Ward(g));
    GuardianKeyInjective(k, Ward(g));
  }

  /** The ticket's own guardian is owned, or the pending write is about to make it so. */
  predicate RecordedOrPending(st: Store, k: Key, pc: Pc) {
    var g := GuardianKey(k);
    && (g in st.pods ==>
        if pc.WriteStatus? then pc.t.status.guardianPod == Some(RefText(g)) && pc.t.uid == st.pods[g].ownerUid
        else Owned(st, g))
    && (pc.DropFinalizer? ==> g !in st.pods)
  }

  /** Ownership in the middle of an undisturbed reconcile of `k`, whose copy is current. */
  ghost predicate MidOwned(st: Store, k: Key, pc: Pc) {
    && (forall h :: h in st.pods && h != GuardianKey(k) ==> Owned(st, h))
    && (HasCopy(pc) ==> Current(st, pc.t))
    && RecordedOrPending(st, k, pc)
  }

  /** The ticket of another guardian is another ticket. */
  lemma OtherWard(st: Store, h: Key, k: Key)
    requires h in st.pods && Owned(st, h) && h != GuardianKey(k)
    ensures Ward(h) != k
  {
  }

  lemma MidStep(st: Store, k: Key, pc: Pc, c: Choice)
    requires StoreOk(st) && PcOk(st, k, pc) && MidOwned(st, k, pc)
    requires c.cached.None? && PutStatus !in c.faults
    ensures MidOwned(CallStep(st, k, pc, c).0, k, CallStep(st, k, pc, c).1)
  {
    WardOfGuardian(k);
    RefParses(k);
    var (st', pc') := CallStep(st, k, pc, c);
    assert TicketOk(st, k);
    forall h | h in st'.pods && h != GuardianKey(k) ensures Owned(st', h) {
      assert h in st.pods;
      OtherWard(st, h, k);
      TicketsOfOthersStay(st, k, pc, c, Ward(h));
    }
    MidStepCurrent(st, k, pc, c);
    if pc.Fetch? {
      MidFetchGuardian(st, k, pc, c);
    } else {
      MidStepGuardian(st, k, pc, c);
    }
  }

  lemma TicketsOfOthersStay(st: Store, k: Key, pc: Pc, c: Choice, j: Key)
    requires StoreOk(st) && PcOk(st, k, pc) && j != k
    ensures (j in CallStep(st, k, pc, c).0.tickets) == (j in st.tickets)
    ensures j in st.tickets ==> CallStep(st, k, pc, c).0.tickets[j] == st.tickets[j]
    ensures forall h :: h != GuardianKey(k) ==> (h in CallStep(st, k, pc, c).0.pods) == (h in st.pods)
    ensures forall h :: h in st.pods && h != GuardianKey(k) ==> CallStep(st, k, pc, c).0.pods[h] == st.pods[h]
  {
  }

  lemma FetchedIsCurrent(st: Store, k: Key, c: Choice)
    requires StoreOk(st) && c.cached.None?
    ensures
      var (st', pc') := CallStep(st, k, Fetch, c);
      HasCopy(pc') ==> Current(st', pc'.t)
  {
    assert TicketOk(st, k);
    RefParses(k);
  }

  /** Undisturbed, a reconcile's copy never falls behind. */
  lemma MidStepCurrent(st: Store, k: Key, pc: Pc, c: Choice)
    requires StoreOk(st) && PcOk(st, k, pc) && c.cached.None?
    requires HasCopy(pc) ==> Current(st, pc.t)
    ensures
      var (st', pc') := CallStep(st, k, pc, c);
      HasCopy(pc') ==> Current(st', pc'.t)
  {
    if pc.Fetch? {
      FetchedIsCurrent(st, k, c);
    } else {
      assert TicketOk(st, k);
    }
  }

  lemma MidStepGuardian(st: Store, k: Key, pc: Pc, c: Choice)
    requires StoreOk(st) && PcOk(st, k, pc) && MidOwned(st, k, pc)
    requires c.cached.None? && PutStatus !in c.faults
    requires !pc.Fetch?
    ensures RecordedOrPending(CallStep(st, k, pc, c).0, k, CallStep(st, k, pc, c).1)
  {
    WardOfGuardian(k);
    RefParses(k);
    assert TicketOk(st, k);
  }

  lemma MidFetchGuardian(st: Store, k: Key, pc: Pc, c: Choice)
    requires StoreOk(st) && PcOk(st, k, pc) && MidOwned(st, k, pc)
    requires c.cached.None? && PutStatus !in c.faults
    requires pc.Fetch?
    ensures RecordedOrPending(CallStep(st, k, pc, c).0, k, CallStep(st, k, pc, c).1)
  {
    WardOfGuardian(k);
    RefParses(k);
    assert TicketOk(st, k);
  }

  lemma {:induction false} QuietDrive(w: World, k: Key, pc: Pc, sched: seq<Slot>)
    requires Inv(w) && PcOk(w.store, k, pc) && MidOwned(w.store, k, pc) && Undisturbed(sched)
    ensures Guarded(Drive(w, k, pc, sched).0.store)
    decreases |sched|, Rank(w.store, k, pc)
  {
    if !pc.Done? {
      DriveStep(w, k, pc, sched);
      assert Interfere(w, k, []) == w;
      MidStep(w.store, k, pc, Next(sched).choice);
      QuietDrive(Advance(w, k, pc, sched).0, k, Advance(w, k, pc, sched).1, Rest(sched));
    }
  }

  /** A ticket holding its finalizer outlives whatever users do, and keeps its status. */
  lemma FinalizedTicketStays(w: World, a: Action, k: Key)
    requires Inv(w) && Allowed(a)
    requires k in w.store.tickets && w.store.tickets[k].finalizer
    ensures k in Apply(w, a).store.tickets
    ensures Apply(w, a).store.tickets[k].finalizer
    ensures Apply(w, a).store.tickets[k].uid == w.store.tickets[k].uid
    ensures Apply(w, a).store.tickets[k].status == w.store.tickets[k].status
  {
    assert TicketOk(w.store, k);
  }

  lemma NoNewGuardians(w: World, a: Action, g: Key)
    requires Allowed(a) && g in Apply(w, a).store.pods
    ensures g in w.store.pods && Apply(w, a).store.pods[g].ownerUid == w.store.pods[g].ownerUid
  {
  }

  lemma OutsideKeepsGuarded(w: World, a: Action)
    requires Inv(w) && Guarded(w.store) && Allowed(a)
    ensures Guarded(Apply(w, a).store)
  {
    forall g | g in Apply(w, a).store.pods ensures Owned(Apply(w, a).store, g) {
      NoNewGuardians(w, a, g);
      assert Owned(w.store, g);
      FinalizedTicketStays(w, a, Ward(g));
    }
  }

  /**
    Every run of atomic steps: each stored guardian belongs to exactly one existing ticket, which
    still holds its finalizer and names it in its status. Guardians may be deleted at any time,
    every call but the status write may fail, and users may edit and delete tickets.
   */
  lemma {:induction false} GuardiansStayOwned(w: World, run: seq<Atom>)
    requires Inv(w) && Guarded(w.store)
    ensures Guarded(AtomRun(w, run).store)
  {
    if run != [] {
      var front, x := run[..|run| - 1], run[|run| - 1];
      GuardiansStayOwned(w, front);
      var mid := AtomRun(w, front);
      match x
      case Reconcile(k, sched) =>
        if Undisturbed(sched) {
          QuietDrive(mid, k, Fetch, sched);
        }
      case Bind(k, who) =>
        if k in mid.store.tickets {
          assert TicketOk(mid.store, k);
        }
      case Outside(a) =>
        if Allowed(a) {
          OutsideKeepsGuarded(mid, a);
        }
    }
  }

  // ---------------------------------------------------------------- Used tickets hold nothing

  predicate Spent(p: Phase) {
    p == Claimed || p == Expired
  }

  /** A claimed or expired ticket whose guardian is gone. */
  predicate Released(st: Store, k: Key, uid: nat) {
    && k in st.tickets
    && st.tickets[k].uid == uid
    && Spent(st.tickets[k].status.phase)
    && GuardianKey(k) !in st.pods
  }

  /** The states an undisturbed reconcile of a released ticket goes through. */
  ghost predicate MidReleased(st: Store, k: Key, uid: nat, pc: Pc) {
    && GuardianKey(k) !in st.pods
    && (HasCopy(pc) ==> Current(st, pc.t))
    && !pc.MakePod? && !pc.LookPod?
    && (k in st.tickets ==> st.tickets[k].uid == uid && Spent(st.tickets[k].status.phase))
  }

  lemma MidReleasedFetch(st: Store, k: Key, uid: nat, c: Choice)
    requires StoreOk(st) && MidReleased(st, k, uid, Fetch) && c.cached.None?
    ensures MidReleased(CallStep(st, k, Fetch, c).0, k, uid, CallStep(st, k, Fetch, c).1)
  {
    RefParses(k);
    assert TicketOk(st, k);
  }

  lemma MidReleasedStep(st: Store, k: Key, uid: nat, pc: Pc, c: Choice)
    requires StoreOk(st) && PcOk(st, k, pc) && MidReleased(st, k, uid, pc) && c.cached.None?
    ensures MidReleased(CallStep(st, k, pc, c).0, k, uid, CallStep(st, k, pc, c).1)
  {
    assert TicketOk(st, k);
    if pc.Fetch? {
      MidReleasedFetch(st, k, uid, c);
    }
  }

  lemma {:induction false} ReleasedDrive(w: World, k: Key, uid: nat, pc: Pc, sched: seq<Slot>)
    requires Inv(w) && PcOk(w.store, k, pc) && MidReleased(w.store, k, uid, pc) && Undisturbed(sched)
    ensures
      var st := Drive(w, k, pc, sched).0.store;
      k in st.tickets ==> Released(st, k, uid)
    decreases |sched|, Rank(w.store, k, pc)
  {
    if !pc.Done? {
      DriveStep(w, k, pc, sched);
      assert Interfere(w, k, []) == w;
      MidReleasedStep(w.store, k, uid, pc, Next(sched).choice);
      ReleasedDrive(Advance(w, k, pc, sched).0, k, uid, Advance(w, k, pc, sched).1, Rest(sched));
    }
  }

  /** A reconcile of another ticket leaves this ticket and its guardian alone. */
  lemma {:induction false} DriveLeavesOthers(w: World, k: Key, pc: Pc, sched: seq<Slot>, j: Key)
    requires Inv(w) && PcOk(w.store, k, pc) && Undisturbed(sched) && j != k
    ensures
      var st := Drive(w, k, pc, sched).0.store;
      && (j in st.tickets) == (j in w.store.tickets)
      && (j in st.tickets ==> st.tickets[j] == w.store.tickets[j])
      && (GuardianKey(j) in st.pods) == (GuardianKey(j) in w.store.pods)
    decreases |sched|, Rank(w.store, k, pc)
  {
    if !pc.Done? {
      DriveStep(w, k, pc, sched);
      assert Interfere(w, k, []) == w;
      TicketsOfOthersStay(w.store, k, pc, Next(sched).choice, j);
      if GuardianKey(j) == GuardianKey(k) {
        GuardianKeyInjective(j, k);
      }
      DriveLeavesOthers(Advance(w, k, pc, sched).0, k, Advance(w, k, pc, sched).1, Rest(sched), j);
    }
  }

  lemma OutsideKeepsReleased(w: World, a: Action, k: Key, uid: nat)
    requires Inv(w) && Allowed(a) && Released(w.store, k, uid)
    requires k in Apply(w, a).store.tickets && Apply(w, a).store.tickets[k].uid == uid
    ensures Released(Apply(w, a).store, k, uid)
  {
    assert TicketOk(w.store, k);
    FinalizedTicketStays(w, a, k);
    if GuardianKey(k) in Apply(w, a).store.pods {
      NoNewGuardians(w, a, GuardianKey(k));
    }
  }

  /** Identities are never handed out twice: a ticket of an old identity was there before. */
  lemma AtomUids(w: World, x: Atom, k: Key)
    requires Inv(w)
    ensures w.store.nextUid <= Atomically(w, x).store.nextUid
    ensures
      var after := Atomically(w, x).store.tickets;
      k in after && after[k].uid < w.store.nextUid ==>
        k in w.store.tickets && w.store.tickets[k].uid == after[k].uid
  {
    match x
    case Reconcile(j, sched) =>
      if Undisturbed(sched) {
        DriveUids(w, j, Fetch, sched, k);
      }
    case Bind(j, who) =>
    case Outside(a) =>
      if Allowed(a) {
        ApplyUids(w, a);
        if k in Apply(w, a).store.tickets {
          QuietKeepsStatus(w, a, k);
        }
      }
  }

  lemma CallStepUids(st: Store, j: Key, pc: Pc, c: Choice, k: Key)
    requires StoreOk(st) && PcOk(st, j, pc)
    ensures CallStep(st, j, pc, c).0.nextUid == st.nextUid
    ensures
      var after := CallStep(st, j, pc, c).0.tickets;
      k in after ==> k in st.tickets && st.tickets[k].uid == after[k].uid
  {
    if k in CallStep(st, j, pc, c).0.tickets {
      CallStepLegal(st, j, pc, c, k);
    }
  }

  lemma {:induction false} DriveUids(w: World, j: Key, pc: Pc, sched: seq<Slot>, k: Key)
    requires Inv(w) && PcOk(w.store, j, pc) && Undisturbed(sched)
    ensures w.store.nextUid == Drive(w, j, pc, sched).0.store.nextUid
    ensures
      var after := Drive(w, j, pc, sched).0.store.tickets;
      k in after ==> k in w.store.tickets && w.store.tickets[k].uid == after[k].uid
    decreases |sched|, Rank(w.store, j, pc)
  {
    if !pc.Done? {
      DriveStep(w, j, pc, sched);
      assert Interfere(w, j, []) == w;
      var (w', pc') := Advance(w, j, pc, sched);
      DriveUids(w', j, pc', Rest(sched), k);
      CallStepUids(w.store, j, pc, Next(sched).choice, k);
    }
  }

  lemma {:induction false} AtomUidsGrow(w: World, run: seq<Atom>, k: Key)
    requires Inv(w)
    ensures w.store.nextUid <= AtomRun(w, run).store.nextUid
  {
    if run != [] {
      AtomUidsGrow(w, run[..|run| - 1], k);
      AtomUids(AtomRun(w, run[..|run| - 1]), run[|run| - 1], k);
    }
  }

  lemma ReleasedStep(w: World, x: Atom, k: Key, uid: nat)
    requires Inv(w) && Released(w.store, k, uid)
    requires k in Atomically(w, x).store.tickets && Atomically(w, x).store.tickets[k].uid == uid
    ensures Released(Atomically(w, x).store, k, uid)
  {
    match x
    case Reconcile(j, sched) =>
      if Undisturbed(sched) {
        if j == k {
          ReleasedDrive(w, k, uid, Fetch, sched);
        } else {
          DriveLeavesOthers(w, j, Fetch, sched, k);
        }
      }
    case Bind(j, who) =>
    case Outside(a) =>
      if Allowed(a) {
        OutsideKeepsReleased(w, a, k, uid);
      }
  }

  /**
    Once a used ticket's guardian is gone, no later step of any kind gives it another one, for as
    long as that ticket exists.
   */
  lemma {:induction false} ReleasedForGood(w: World, run: seq<Atom>, k: Key, uid: nat)
    requires Inv(w) && Released(w.store, k, uid)
    requires k in AtomRun(w, run).store.tickets && AtomRun(w, run).store.tickets[k].uid == uid
    ensures Released(AtomRun(w, run).store, k, uid)
  {
    if run != [] {
      var front, x := run[..|run| - 1], run[|run| - 1];
      var mid := AtomRun(w, front);
      assert TicketOk(w.store, k);
      AtomUidsGrow(w, front, k);
      AtomUids(mid, x, k);
      ReleasedForGood(w, front, k, uid);
      ReleasedStep(mid, x, k, uid);
    }
  }

  // ---------------------------------------------------------------- What one reconcile achieves

  /** Nothing interferes and reads are fresh; calls may fail and time may pass between them. */
  predicate Alone(sched: seq<Slot>) {
    forall i :: 0 <= i < |sched| ==> sched[i].others == [] && sched[i].choice.cached.None?
  }

  predicate ErrorFree(sched: seq<Slot>) {
    Alone(sched) && forall i :: 0 <= i < |sched| ==> sched[i].choice.faults == {}
  }

  /** The reconcile works on the stored version of a ticket that holds its finalizer. */
  predicate AtWork(st: Store, k: Key, uid: nat, pc: Pc) {
    && k in st.tickets && st.tickets[k].uid == uid && st.tickets[k].finalizer
    && (HasCopy(pc) ==> Current(st, pc.t))
    && (pc.Fetch? ==> !st.tickets[k].deleting)
    && !pc.AddFinalizer? && !pc.DropFinalizer?
  }

  /** On the way to Expired, or there. */
  predicate Expiring(st: Store, k: Key, uid: nat, pc: Pc) {
    && AtWork(st, k, uid, pc)
    && !pc.MakePod? && !pc.LookPod?
    && (pc.DropPod? ==> pc.purpose == ForExpiry)
    && (pc.WriteStatus? ==> pc.t.status.phase == Expired)
    && (st.tickets[k].status.phase != Expired ==>
        || (pc.Fetch? && TimedOut(st.tickets[k], st.now))
        || pc.WriteStatus?
        || pc == Done(Failed))
  }

  lemma ExpiringStep(st: Store, k: Key, uid: nat, pc: Pc, c: Choice)
    requires StoreOk(st) && PcOk(st, k, pc) && Expiring(st, k, uid, pc) && c.cached.None?
    ensures Expiring(CallStep(st, k, pc, c).0, k, uid, CallStep(st, k, pc, c).1)
    ensures c.faults == {} && pc != Done(Failed) ==> CallStep(st, k, pc, c).1 != Done(Failed)
  {
    assert TicketOk(st, k);
    RefParses(k);
  }

  lemma {:induction false} ExpiringDrive(w: World, k: Key, uid: nat, pc: Pc, sched: seq<Slot>)
    requires Inv(w) && PcOk(w.store, k, pc) && Expiring(w.store, k, uid, pc) && Alone(sched)
    ensures
      var (w', _, result) := Drive(w, k, pc, sched);
      && k in w'.store.tickets && w'.store.tickets[k].uid == uid
      && (result != Failed ==> w'.store.tickets[k].status.phase == Expired)
      && (ErrorFree(sched) && pc != Done(Failed) ==> result != Failed)
    decreases |sched|, Rank(w.store, k, pc)
  {
    if !pc.Done? {
      DriveStep(w, k, pc, sched);
      assert Interfere(w, k, []) == w;
      ExpiringStep(w.store, k, uid, pc, Next(sched).choice);
      ExpiringDrive(Advance(w, k, pc, sched).0, k, uid, Advance(w, k, pc, sched).1, Rest(sched));
    }
  }

  /**
    Expiry is effective: once a live ticket's expiry has passed, the next reconcile that returns
    without an error leaves it stored as Expired, whatever its phase was, however long its calls take
    and whoever owns the pods of the cluster. If no call fails, it does return without an error.
   */
  lemma ExpiryIsEffective(w: World, k: Key, sched: seq<Slot>)
    requires Inv(w) && k in w.store.tickets
    requires w.store.tickets[k].finalizer && !w.store.tickets[k].deleting
    requires w.store.tickets[k].status.expiration.Some?
    requires w.store.tickets[k].status.expiration.value < w.store.now
    requires Alone(sched)
    ensures
      var (w', _, result) := Drive(w, k, Fetch, sched);
      && k in w'.store.tickets && w'.store.tickets[k].uid == w.store.tickets[k].uid
      && (result != Failed ==> w'.store.tickets[k].status.phase == Expired)
      && (ErrorFree(sched) ==> result != Failed)
  {
    ExpiringDrive(w, k, w.store.tickets[k].uid, Fetch, sched);
  }

  /** On the way to releasing a used ticket, whose guardian goes first if the ticket names it. */
  predicate Releasing(st: Store, k: Key, uid: nat, named: bool, there: bool, pc: Pc) {
    && AtWork(st, k, uid, pc)
    && !pc.MakePod? && !pc.LookPod?
    && (pc.DropPod? ==> pc.purpose == ForClaim || pc.purpose == ForExpiry)
    && (st.tickets[k].status.phase == Claimed || st.tickets[k].status.phase == Expired)
    && (pc.Fetch? ==>
        && (st.tickets[k].status.phase == Claimed ==> !TimedOut(st.tickets[k], st.now))
        && named == st.tickets[k].status.guardianPod.Some?)
    && (pc.Fetch? || pc.DropPod? ==> there == (GuardianKey(k) in st.pods))
    && (pc.DropPod? ==> named)
    && (!pc.Fetch? && !pc.DropPod? && pc != Done(Failed) ==> (GuardianKey(k) in st.pods) == (there && !named))
  }

  lemma ReleasingFetch(st: Store, k: Key, uid: nat, named: bool, there: bool, c: Choice)
    requires StoreOk(st) && Releasing(st, k, uid, named, there, Fetch) && c.cached.None?
    ensures Releasing(CallStep(st, k, Fetch, c).0, k, uid, named, there, CallStep(st, k, Fetch, c).1)
    ensures c.faults == {} ==> CallStep(st, k, Fetch, c).1 != Done(Failed)
  {
    assert TicketOk(st, k);
    RefParses(k);
  }

  lemma ReleasingCall(st: Store, k: Key, uid: nat, named: bool, there: bool, pc: Pc, c: Choice)
    requires StoreOk(st) && PcOk(st, k, pc) && Releasing(st, k, uid, named, there, pc) && !pc.Fetch?
    ensures Releasing(CallStep(st, k, pc, c).0, k, uid, named, there, CallStep(st, k, pc, c).1)
    ensures c.faults == {} && pc != Done(Failed) ==> CallStep(st, k, pc, c).1 != Done(Failed)
  {
    assert TicketOk(st, k);
  }

  lemma ReleasingStep(st: Store, k: Key, uid: nat, named: bool, there: bool, pc: Pc, c: Choice)
    requires StoreOk(st) && PcOk(st, k, pc) && Releasing(st, k, uid, named, there, pc) && c.cached.None?
    ensures Releasing(CallStep(st, k, pc, c).0, k, uid, named, there, CallStep(st, k, pc, c).1)
    ensures c.faults == {} && pc != Done(Failed) ==> CallStep(st, k, pc, c).1 != Done(Failed)
  {
    if pc.Fetch? {
      ReleasingFetch(st, k, uid, named, there, c);
    } else {
      ReleasingCall(st, k, uid, named, there, pc, c);
    }
  }

  lemma {:induction false} ReleasingDrive(w: World, k: Key, uid: nat, named: bool, there: bool, pc: Pc,
    sched: seq<Slot>)
    requires Inv(w) && PcOk(w.store, k, pc) && Releasing(w.store, k, uid, named, there, pc) && Alone(sched)
    ensures
      var (w', _, result) := Drive(w, k, pc, sched);
      && (result != Failed ==> (Released(w'.store, k, uid) <==> named || !there))
      && (ErrorFree(sched) && pc != Done(Failed) ==> result != Failed)
    decreases |sched|, Rank(w.store, k, pc)
  {
    if !pc.Done? {
      DriveStep(w, k, pc, sched);
      assert Interfere(w, k, []) == w;
      ReleasingStep(w.store, k, uid, named, there, pc, Next(sched).choice);
      ReleasingDrive(Advance(w, k, pc, sched).0, k, uid, named, there, Advance(w, k, pc, sched).1, Rest(sched));
    }
  }

  /**
    A reconcile of a used ticket that returns without an error leaves no guardian, exactly if the
    ticket names the guardian or there is none: an unnamed one is not looked for. An owned guardian
    is always named.
   */
  lemma CalmReconcileReleases(w: World, k: Key, sched: seq<Slot>)
    requires Inv(w) && k in w.store.tickets
    requires
      var t := w.store.tickets[k];
      && t.finalizer && !t.deleting
      && (|| t.status.phase == Expired
          || (t.status.phase == Claimed && (t.status.expiration.Some? ==> w.store.now <= t.status.expiration.value)))
    requires Alone(sched)
    ensures
      var (w', _, result) := Drive(w, k, Fetch, sched);
      && (result != Failed ==>
          (Released(w'.store, k, w.store.tickets[k].uid) <==>
           w.store.tickets[k].status.guardianPod.Some? || GuardianKey(k) !in w.store.pods))
      && (ErrorFree(sched) ==> result != Failed)
    ensures GuardianKey(k) in w.store.pods && Owned(w.store, GuardianKey(k)) ==>
            w.store.tickets[k].status.guardianPod.Some?
  {
    var t := w.store.tickets[k];
    WardOfGuardian(k);
    ReleasingDrive(w, k, t.uid, t.status.guardianPod.Some?, GuardianKey(k) in w.store.pods, Fetch, sched);
  }

  // ---------------------------------------------------------------- Between the calls

  /**
    At the granularity of API calls ownership can fail: the guardian is created by one call and
    recorded by a later one. It is recorded if and only if that later write goes through, that is,
    the call does not fail and the ticket still has the version the reconcile read.
   */
  lemma GuardianRecordedIffWriteAccepted(st: Store, k: Key, t: Ticket, c: Choice, st': Store, c': Choice)
    requires StoreOk(st) && PcOk(st, k, MakePod(t))
    requires GuardianKey(k) !in st.pods && CreatePod !in c.faults
    requires StoreOk(st') && PcOk(st', k, CallStep(st, k, MakePod(t), c).1)
    requires GuardianKey(k) in st'.pods && st'.pods[GuardianKey(k)].ownerUid == t.uid
    requires k in st'.tickets && st'.tickets[k].status.guardianPod.None?
    ensures
      var pc := CallStep(st, k, MakePod(t), c).1;
      Owned(CallStep(st', k, pc, c').0, GuardianKey(k)) <==> Current(st', t) && PutStatus !in c'.faults
  {
    WardOfGuardian(k);
  }

  /**
    An unrecorded guardian is never recorded: with the guardian in place and no reference to it, an
    undisturbed reconcile of a pending ticket changes nothing at all and asks to be called again.
   */
  lemma UnrecordedGuardianStays(w: World, k: Key)
    requires Inv(w) && k in w.store.tickets
    requires
      var t := w.store.tickets[k];
      && t.finalizer && !t.deleting && (t.status.expiration.Some? ==> w.store.now <= t.status.expiration.value)
      && (t.status.phase == Unset || t.status.phase == Pending)
      && t.status.guardianPod.None? && !t.spec.window.BadWindow?
    requires GuardianKey(k) in w.store.pods
    ensures Drive(w, k, Fetch, []) == (w, [], Requeued)
  {
    var t := w.store.tickets[k];
    assert TicketOk(w.store, k);
    assert Interfere(w, k, []) == w;
    DriveStep(w, k, Fetch, []);
    var pc := EnterPending(t, w.store.now);
    assert Advance(w, k, Fetch, []) == (w, pc);
    DriveStep(w, k, pc, []);
    assert Advance(w, k, pc, []) == (w, Done(Requeued));
  }

  lemma RunSnoc(w: World, run: seq<Action>, a: Action)
    ensures Run(w, run + [a]) == Apply(Run(w, run), a)
  {
    assert (run + [a])[..|run + [a]| - 1] == run;
  }

  /** The reconcile of a ticket that is new but for its finalizer starts by creating the guardian. */
  lemma FirstReconcileCreates(w: World, k: Key)
    requires Inv(w) && k !in w.workers
    requires k in w.store.tickets
    requires
      var t := w.store.tickets[k];
      t.finalizer && !t.deleting && t.status == NEW_STATUS && !t.spec.window.BadWindow?
    ensures
      var w' := Run(w, [Begin(k), Work(k, CALM)]);
      && w'.store == w.store
      && k in w'.workers && w'.workers[k].MakePod?
      && w'.workers[k].t.key == k && w'.workers[k].t.rv == w.store.tickets[k].rv
  {
    assert TicketOk(w.store, k);
    RunOne(w, Begin(k));
    RunSnoc(w, [Begin(k)], Work(k, CALM));
    assert [Begin(k)] + [Work(k, CALM)] == [Begin(k), Work(k, CALM)];
    var w1 := Apply(w, Begin(k));
    assert w1.workers[k] == Fetch;
  }

  lemma CreationStep(w: World, k: Key)
    requires k in w.workers && w.workers[k].MakePod? && w.workers[k].t.key == k
    requires GuardianKey(k) !in w.store.pods
    ensures
      var w' := Apply(w, Work(k, CALM));
      && GuardianKey(k) in w'.store.pods
      && w'.store.tickets == w.store.tickets && w'.store.nextRv == w.store.nextRv
      && k in w'.workers && w'.workers[k].WriteStatus?
      && w'.workers[k].t.key == k && w'.workers[k].t.rv == w.workers[k].t.rv
  {
  }

  lemma StaleWriteStep(w: World, k: Key)
    requires k in w.workers && w.workers[k].WriteStatus? && !Current(w.store, w.workers[k].t)
    ensures Apply(w, Work(k, CALM)).store == w.store
  {
  }

  /**
    A user's edit between the creation and the status write is enough to lose any new ticket's
    guardian: the write is refused, and the cluster is left with a pod its ticket does not name.
   */
  lemma EditedMeanwhile(w: World, k: Key, meta: Meta, spec: Spec)
    requires Inv(w) && k !in w.workers
    requires k in w.store.tickets && GuardianKey(k) !in w.store.pods
    requires
      var t := w.store.tickets[k];
      t.finalizer && !t.deleting && t.status == NEW_STATUS && !t.spec.window.BadWindow?
    ensures
      var st := Run(w, [Begin(k), Work(k, CALM)] + [Work(k, CALM)] + [Edit(k, meta, spec)] + [Work(k, CALM)]).store;
      && GuardianKey(k) in st.pods
      && k in st.tickets && st.tickets[k].status == NEW_STATUS
      && !Owned(st, GuardianKey(k))
  {
    assert TicketOk(w.store, k);
    var run := [Begin(k), Work(k, CALM)];
    FirstReconcileCreates(w, k);
    var w1 := Run(w, run);
    RunSnoc(w, run, Work(k, CALM));
    CreationStep(w1, k);
    var w2 := Apply(w1, Work(k, CALM));
    RunSnoc(w, run + [Work(k, CALM)], Edit(k, meta, spec));
    var w3 := Apply(w2, Edit(k, meta, spec));
    RunSnoc(w, run + [Work(k, CALM)] + [Edit(k, meta, spec)], Work(k, CALM));
    StaleWriteStep(w3, k);
    WardOfGuardian(k);
  }
}
