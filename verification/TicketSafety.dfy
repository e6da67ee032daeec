/**
  What every interleaving of API calls keeps. The argument is the one optimistic concurrency is
  for: a pending write either is a legal evolution of the object now stored, or is out of date and
  will be refused.
 */
module TicketSafety {
  import opened Common
  import opened Conditions
  import opened TicketModel
  import opened TicketMachine

  // ---------------------------------------------------------------- The invariant

  predicate Unclaimed(p: Phase) {
    p == Unset || p == Pending || p == Ready
  }

  ghost predicate StatusOk(k: Key, st: Status, now: int) {
    && RefOk(k, st)
    && st.phase != Unknown
    && (st.claimedPod.Some? <==> st.claimedTime.Some?)
    && (st.phase == Claimed ==> st.claimedPod.Some?)
    && (Unclaimed(st.phase) ==> st.claimedPod.None?)
    && (st.expiration.Some? ==> st.activation.Some?)
    && (st.phase == Expired ==> st.expiration.Some? && st.expiration.value < now)
    && (st.phase == Ready ==> st.guardianPod.Some?)
    && (st.guardianPod.Some? ==> st.nodeName.Some? && st.activation.Some?)
    && Distinct(st.conditions)
  }

  ghost predicate TicketOk(st: Store, k: Key) {
    k in st.tickets ==>
      && st.tickets[k].key == k
      && st.tickets[k].rv < st.nextRv
      && st.tickets[k].uid < st.nextUid
      && (st.tickets[k].status.phase != Unset ==> st.tickets[k].finalizer)
      && StatusOk(k, st.tickets[k].status, st.now)
  }

  ghost predicate StoreOk(st: Store) {
    forall k :: k in st.tickets ==> TicketOk(st, k)
  }

  /** Activation and expiry are kept once set, and a new expiry is activation plus the duration in the spec. */
  predicate KeepsTimes(cur: Ticket, st: Status) {
    && (cur.status.activation.Some? ==> st.activation == cur.status.activation)
    && (cur.status.expiration.Some? ==> st.expiration == cur.status.expiration)
    && (cur.status.expiration.None? && st.expiration.Some? ==>
        && cur.spec.window.Lasts?
        && st.activation.Some?
        && st.expiration.value == st.activation.value + cur.spec.window.duration)
  }

  /** A copy on which at most the two times were filled in. */
  ghost predicate Prepared(cur: Ticket, t: Ticket) {
    && t == cur.(status := cur.status.(activation := t.status.activation, expiration := t.status.expiration))
    && KeepsTimes(cur, t.status)
    && (t.status.expiration.Some? ==> t.status.activation.Some?)
    && cur.finalizer
    && Unclaimed(cur.status.phase)
  }

  /** The phases one reconcile write may lead to. */
  predicate WritesPhase(from: Phase, to: Phase) {
    match to
    case Unset => false
    case Pending => Unclaimed(from)
    case Ready => Unclaimed(from)
    case Claimed => from == Claimed
    case Expired => from != Unknown
    case Unknown => false
  }

  /** A status the reconciler may write over the stored ticket. */
  ghost predicate WriteOk(cur: Ticket, t: Ticket, now: int) {
    && t == cur.(status := t.status)
    && cur.finalizer
    && KeepsTimes(cur, t.status)
    && t.status.claimedPod == cur.status.claimedPod
    && t.status.claimedTime == cur.status.claimedTime
    && WritesPhase(cur.status.phase, t.status.phase)
    && (t.status.phase == Pending ==> t.status.reason == "Failed")
    && StatusOk(cur.key, t.status, now)
  }

  ghost predicate LocalOk(pc: Pc, cur: Ticket, now: int) {
    match pc
    case Fetch => true
    case AddFinalizer(t) => t == cur && !t.deleting
    case MakePod(t) => Prepared(cur, t) && t.status.activation.Some?
    case LookPod(t, pod) => Prepared(cur, t) && t.status.guardianPod.Some? && t.status.activation.Some?
    case DropPod(t, pod, purpose) =>
      && t == cur
      && (match purpose
          case ForClaim => t.status.phase == Claimed && t.finalizer
          case ForExpiry => t.status.phase == Expired && t.finalizer
          case ForDeletion => t.deleting)
    case DropFinalizer(t) => t == cur && t.deleting
    case WriteStatus(t) => WriteOk(cur, t, now)
    case DropTicket(t) => t == cur && t.status.phase == Expired && t.finalizer
    case Done(_) => true
  }

  predicate HasCopy(pc: Pc) {
    !pc.Fetch? && !pc.Done?
  }

  ghost predicate PcOk(st: Store, k: Key, pc: Pc) {
    && (HasCopy(pc) ==>
        && pc.t.key == k
        && pc.t.rv < st.nextRv
        && RefOk(k, pc.t.status)
        && (Current(st, pc.t) ==> LocalOk(pc, st.tickets[k], st.now)))
    && (pc.LookPod? || pc.DropPod? ==> pc.pod == GuardianKey(k))
  }

  ghost predicate BindOk(st: Store, t: Ticket) {
    && t.rv < st.nextRv
    && t.uid < st.nextUid
    && RefOk(t.key, t.status)
    && Claimable(t)
    && (Current(st, t) ==> st.tickets[t.key] == t)
  }

  ghost predicate Inv(w: World) {
    && StoreOk(w.store)
    && (forall id :: id in w.binds ==> BindOk(w.store, w.binds[id]))
    && (forall k :: k in w.workers ==> PcOk(w.store, k, w.workers[k]))
  }

  // ---------------------------------------------------------------- Store changes seen by other copies

  /** Time and counters only grow, and an object that changed carries a fresh version. */
  ghost predicate Later(st: Store, st': Store) {
    && st.now <= st'.now
    && st.nextRv <= st'.nextRv
    && st.nextUid <= st'.nextUid
    && forall k :: k in st'.tickets ==>
         (k in st.tickets && st'.tickets[k] == st.tickets[k]) || st'.tickets[k].rv >= st.nextRv
  }

  lemma LocalOkLater(pc: Pc, cur: Ticket, now: int, now': int)
    requires LocalOk(pc, cur, now) && now <= now'
    ensures LocalOk(pc, cur, now')
  {
  }

  lemma PcOkLater(st: Store, st': Store, k: Key, pc: Pc)
    requires PcOk(st, k, pc) && Later(st, st')
    ensures PcOk(st', k, pc)
  {
    if HasCopy(pc) && Current(st', pc.t) {
      assert st'.tickets[k] == st.tickets[k];
      LocalOkLater(pc, st.tickets[k], st.now, st'.now);
    }
  }

  /** A world whose store moved on keeps its invariant if the new store is in order. */
  lemma InvLater(w: World, st': Store)
    requires Inv(w) && Later(w.store, st') && StoreOk(st')
    ensures Inv(w.(store := st'))
  {
    forall k | k in w.workers ensures PcOk(st', k, w.workers[k]) {
      PcOkLater(w.store, st', k, w.workers[k]);
    }
  }

  /** Replacing one stored ticket under a fresh version. */
  lemma PutOk(st: Store, t: Ticket)
    requires StoreOk(st)
    requires t.uid < st.nextUid
    requires t.status.phase != Unset ==> t.finalizer
    requires StatusOk(t.key, t.status, st.now)
    ensures StoreOk(Put(st, t)) && Later(st, Put(st, t))
  {
    var st' := Put(st, t);
    forall k | k in st'.tickets ensures TicketOk(st', k) {
      assert k != t.key ==> TicketOk(st, k);
    }
  }

  lemma ForgetTicketOk(st: Store, k: Key)
    requires StoreOk(st)
    ensures StoreOk(st.(tickets := st.tickets - {k})) && Later(st, st.(tickets := st.tickets - {k}))
  {
    var st' := st.(tickets := st.tickets - {k});
    forall j | j in st'.tickets ensures TicketOk(st', j) {
      assert TicketOk(st, j);
    }
  }

  lemma PodsOk(st: Store, pods: map<Key, Pod>)
    requires StoreOk(st)
    ensures StoreOk(st.(pods := pods)) && Later(st, st.(pods := pods))
  {
    forall k | k in st.tickets ensures TicketOk(st.(pods := pods), k) {
      assert TicketOk(st, k);
    }
  }

  lemma DeleteTicketOk(st: Store, k: Key)
    requires StoreOk(st)
    ensures StoreOk(DeleteTicket(st, k)) && Later(st, DeleteTicket(st, k))
  {
    if k in st.tickets {
      assert TicketOk(st, k);
      if st.tickets[k].finalizer {
        if !st.tickets[k].deleting {
          PutOk(st, st.tickets[k].(deleting := true));
        }
      } else {
        ForgetTicketOk(st, k);
      }
    }
  }

  // ---------------------------------------------------------------- The handlers keep the invariant

  lemma MarkedOk(t: Ticket, phase: Phase, reason: string, now: int)
    requires Distinct(t.status.conditions)
    ensures Distinct(Marked(t, phase, reason, now).status.conditions)
  {
    var kind := if phase == Expired then "Expiring" else "Ready";
    UpsertKeepsDistinct(t.status.conditions, Update(kind, phase != Pending, now, reason));
  }

  lemma EnterPendingOk(st: Store, k: Key, t: Ticket)
    requires TicketOk(st, k)
    requires t.key == k && t.rv < st.nextRv && RefOk(k, t.status)
    requires Current(st, t) ==> Prepared(st.tickets[k], t)
    ensures PcOk(st, k, EnterPending(t, st.now))
  {
    var pc := EnterPending(t, st.now);
    if Current(st, t) && pc.WriteStatus? {
      MarkedOk(t.(status := t.status.(activation := pc.t.status.activation)), Pending, "Failed", st.now);
    }
  }

  lemma EnterReadyOk(st: Store, k: Key, t: Ticket)
    requires TicketOk(st, k)
    requires t.key == k && t.rv < st.nextRv && RefOk(k, t.status)
    requires Current(st, t) ==> Prepared(st.tickets[k], t)
    ensures PcOk(st, k, EnterReady(t, st.now))
    ensures !EnterReady(t, st.now).MakePod? && !EnterReady(t, st.now).WriteStatus?
  {
    GuardianRefParses(k);
  }

  lemma AfterDropOk(st: Store, k: Key, t: Ticket, purpose: Purpose, lag: nat)
    requires TicketOk(st, k)
    requires t.key == k && t.rv < st.nextRv && RefOk(k, t.status)
    requires Current(st, t) ==> LocalOk(DropPod(t, GuardianKey(k), purpose), st.tickets[k], st.now)
    ensures PcOk(st, k, AfterDrop(t, purpose, st.now, lag))
  {
    if Current(st, t) {
      MarkedOk(t, Claimed, "Claimed", st.now);
      MarkedOk(t, Expired, "Expired", st.now);
    }
  }

  lemma EnterDropOk(st: Store, k: Key, t: Ticket, purpose: Purpose, lag: nat)
    requires TicketOk(st, k)
    requires t.key == k && t.rv < st.nextRv && RefOk(k, t.status)
    requires Current(st, t) ==> LocalOk(DropPod(t, GuardianKey(k), purpose), st.tickets[k], st.now)
    ensures PcOk(st, k, EnterDrop(t, purpose, st.now, lag))
  {
    GuardianRefParses(k);
    AfterDropOk(st, k, t, purpose, lag);
  }

  lemma DispatchOk(st: Store, k: Key, t: Ticket, lag: nat)
    requires TicketOk(st, k)
    requires Plausible(st, k, t)
    ensures PcOk(st, k, Dispatch(t, st.now, lag))
  {
    if t.deleting {
      EnterDropOk(st, k, t, ForDeletion, lag);
    } else if t.finalizer {
      if TimedOut(t, st.now) {
        if t.status.phase == Expired {
          EnterDropOk(st, k, t, ForExpiry, lag);
        } else if Current(st, t) {
          MarkedOk(t, Expired, "Expired", st.now);
        }
      } else {
        match t.status.phase
        case Unset => EnterPendingOk(st, k, t);
        case Pending => EnterPendingOk(st, k, t);
        case Ready => EnterReadyOk(st, k, t);
        case Claimed => EnterDropOk(st, k, t, ForClaim, lag);
        case Expired => EnterDropOk(st, k, t, ForExpiry, lag);
        case Unknown =>
      }
    }
  }

  // ---------------------------------------------------------------- Each API call keeps the invariant

  /** One API call leaves a store in order and a reconcile in order over it. */
  lemma CallStepOk(st: Store, k: Key, pc: Pc, c: Choice)
    requires StoreOk(st) && PcOk(st, k, pc)
    ensures StoreOk(CallStep(st, k, pc, c).0)
    ensures Later(st, CallStep(st, k, pc, c).0)
    ensures PcOk(CallStep(st, k, pc, c).0, k, CallStep(st, k, pc, c).1)
  {
    assert TicketOk(st, k);
    match pc
    case Fetch =>
      if Fetched(st, k, c).Some? {
        DispatchOk(st, k, Fetched(st, k, c).value, c.lag);
      }
    case AddFinalizer(t) =>
      if Current(st, t) {
        PutOk(st, st.tickets[k].(finalizer := true));
      }
    case MakePod(t) => MakePodOk(st, k, t, c);
    case LookPod(t, pod) => LookPodOk(st, k, t, pod, c);
    case DropPod(t, pod, purpose) =>
      PodsOk(st, st.pods - {pod});
      AfterDropOk(st.(pods := st.pods - {pod}), k, t, purpose, c.lag);
    case DropFinalizer(t) =>
      if Current(st, t) {
        ForgetTicketOk(st, k);
      }
    case WriteStatus(t) =>
      if Current(st, t) {
        PutOk(st, st.tickets[k].(status := t.status));
      }
    case DropTicket(t) => DeleteTicketOk(st, k);
    case Done(_) =>
  }

  lemma MakePodOk(st: Store, k: Key, t: Ticket, c: Choice)
    requires StoreOk(st) && TicketOk(st, k) && PcOk(st, k, MakePod(t))
    ensures var (st', pc') := CallStep(st, k, MakePod(t), c);
      StoreOk(st') && Later(st, st') && PcOk(st', k, pc')
  {
    var pod := GuardianKey(k);
    if CreatePod in c.faults {
      if Current(st, t) {
        MarkedOk(t, Pending, "Failed", st.now);
      }
    } else if pod in st.pods {
      EnterReadyOk(st, k, t);
    } else {
      PodsOk(st, st.pods[pod := Pod(t.uid, NodeOf(t), false)]);
      if Current(st, t) {
        MarkedOk(t, Ready, "Activated", st.now);
      }
    }
  }

  lemma LookPodOk(st: Store, k: Key, t: Ticket, pod: Key, c: Choice)
    requires StoreOk(st) && TicketOk(st, k) && PcOk(st, k, LookPod(t, pod))
    ensures var (st', pc') := CallStep(st, k, LookPod(t, pod), c);
      StoreOk(st') && Later(st, st') && PcOk(st', k, pc')
  {
    if GetPod !in c.faults && pod !in st.pods {
      EnterPendingOk(st, k, t);
    } else if GetPod !in c.faults {
      if Current(st, t) {
        MarkedOk(t, Ready, "Ready", st.now);
      }
    }
  }

  // ---------------------------------------------------------------- Every action keeps the invariant

  lemma ClaimOk(st: Store, b: Ticket, who: string)
    requires StoreOk(st) && BindOk(st, b)
    ensures StoreOk(UpdateStatus(st, ClaimedBy(b, who, st.now)))
    ensures Later(st, UpdateStatus(st, ClaimedBy(b, who, st.now)))
  {
    if Current(st, b) {
      assert TicketOk(st, b.key);
      PutOk(st, ClaimedBy(b, who, st.now));
    }
  }

  lemma TimeOk(st: Store, d: nat)
    requires StoreOk(st)
    ensures StoreOk(st.(now := st.now + d))
  {
    forall k | k in st.tickets ensures TicketOk(st.(now := st.now + d), k) {
      assert TicketOk(st, k);
    }
  }

  lemma CreateTicketOk(st: Store, k: Key, meta: Meta, spec: Spec)
    requires StoreOk(st)
    ensures StoreOk(CreateTicket(st, k, meta, spec)) && Later(st, CreateTicket(st, k, meta, spec))
  {
    var st' := CreateTicket(st, k, meta, spec);
    forall j | j in st'.tickets ensures TicketOk(st', j) {
      assert j in st.tickets ==> TicketOk(st, j);
    }
  }

  lemma WorkOk(w: World, k: Key, c: Choice)
    requires Inv(w)
    ensures Inv(Apply(w, Work(k, c)))
  {
    if k in w.workers {
      CallStepOk(w.store, k, w.workers[k], c);
      var (st', pc) := CallStep(w.store, k, w.workers[k], c);
      InvLater(w, st');
    }
  }

  lemma BindWriteOk(w: World, id: nat, who: string, fails: bool)
    requires Inv(w)
    ensures Inv(Apply(w, BindWrite(id, who, fails)))
  {
    if id in w.binds {
      ClaimOk(w.store, w.binds[id], who);
      if !fails {
        InvLater(w, UpdateStatus(w.store, ClaimedBy(w.binds[id], who, w.store.now)));
      }
    }
  }

  /** Users, the scheduler, the kubelet and the clock. */
  lemma OutsideOk(w: World, a: Action)
    requires Inv(w)
    requires a.Tick? || a.PodGone? || a.PodMade? || a.PodMoves? || a.NewTicket? || a.Edit? || a.AskDelete?
    ensures Inv(Apply(w, a))
  {
    var st := w.store;
    InvLaterIfOk(w, Apply(w, a).store);
    match a
    case Tick(d) => TimeOk(st, d);
    case NewTicket(k, meta, spec) => CreateTicketOk(st, k, meta, spec);
    case Edit(k, meta, spec) =>
      if k in st.tickets {
        assert TicketOk(st, k);
        PutOk(st, st.tickets[k].(meta := meta, spec := spec));
      }
    case AskDelete(k) => DeleteTicketOk(st, k);
    case _ => PodsOk(st, Apply(w, a).store.pods);
  }

  lemma InvLaterIfOk(w: World, st': Store)
    requires Inv(w)
    ensures Later(w.store, st') && StoreOk(st') ==> Inv(w.(store := st'))
  {
    if Later(w.store, st') && StoreOk(st') {
      InvLater(w, st');
    }
  }

  lemma ApplyOk(w: World, a: Action)
    requires Inv(w)
    ensures Inv(Apply(w, a))
  {
    match a
    case Begin(k) =>
    case BindRead(id, t) =>
    case Work(k, choice) => WorkOk(w, k, choice);
    case BindWrite(id, who, fails) => BindWriteOk(w, id, who, fails);
    case _ => OutsideOk(w, a);
  }

  /** Every run from a world in order stays in order; the empty cluster is in order. */
  lemma {:induction false} RunOk(w: World, run: seq<Action>)
    requires Inv(w)
    ensures Inv(Run(w, run))
  {
    if run != [] {
      RunOk(w, run[..|run| - 1]);
      ApplyOk(Run(w, run[..|run| - 1]), run[|run| - 1]);
    }
  }

  lemma EmptyOk()
    ensures Inv(EMPTY)
  {
  }

  // ---------------------------------------------------------------- How one ticket evolves

  /** The write of one admission: only a Ready, unclaimed ticket becomes Claimed. */
  predicate Claims(cur: Status, st: Status) {
    && cur.phase == Ready
    && cur.claimedPod.None?
    && st.claimedPod.Some? && st.claimedTime.Some?
    && st == cur.(phase := Claimed, claimedPod := st.claimedPod, claimedTime := st.claimedTime)
  }

  /** All that one action may do to a stored ticket. */
  ghost predicate Legal(cur: Ticket, t: Ticket, now: int) {
    && t.key == cur.key
    && t.uid == cur.uid
    && (t.status == cur.status
        || WriteOk(cur, cur.(status := t.status), now)
        || Claims(cur.status, t.status))
  }

  lemma CallStepLegal(st: Store, k: Key, pc: Pc, c: Choice, j: Key)
    requires StoreOk(st) && PcOk(st, k, pc)
    requires j in CallStep(st, k, pc, c).0.tickets
    ensures j in st.tickets
    ensures Legal(st.tickets[j], CallStep(st, k, pc, c).0.tickets[j], st.now)
    ensures !pc.WriteStatus? || j != k ==> CallStep(st, k, pc, c).0.tickets[j].status == st.tickets[j].status
  {
    assert TicketOk(st, j);
  }

  /** An action that is neither a reconcile call nor a claim touches no status. */
  lemma QuietKeepsStatus(w: World, a: Action, k: Key)
    requires Inv(w) && !a.Work? && !a.BindWrite?
    requires k in Apply(w, a).store.tickets
    ensures
      var t := Apply(w, a).store.tickets[k];
      || t.uid == w.store.nextUid
      || (&& k in w.store.tickets
          && t.key == w.store.tickets[k].key
          && t.uid == w.store.tickets[k].uid
          && t.status == w.store.tickets[k].status)
  {
    assert k in w.store.tickets ==> TicketOk(w.store, k);
  }

  /** An admission's write claims the ticket it read, or changes nothing. */
  lemma BindClaimsOrNothing(w: World, a: Action, k: Key)
    requires Inv(w) && a.BindWrite?
    requires k in Apply(w, a).store.tickets
    ensures k in w.store.tickets
    ensures
      var (cur, t) := (w.store.tickets[k], Apply(w, a).store.tickets[k]);
      && t.key == cur.key
      && t.uid == cur.uid
      && if AcceptedClaim(w, a, k, cur.uid) then Claims(cur.status, t.status) && t.status.claimedPod == Some(a.who)
         else t == cur
  {
    assert a.id in w.binds ==> BindOk(w.store, w.binds[a.id]);
    assert k in w.store.tickets ==> TicketOk(w.store, k);
  }

  /** One action leaves every ticket as it was, changes it legally, or creates it. */
  lemma ApplyLegal(w: World, a: Action, k: Key)
    requires Inv(w)
    requires k in Apply(w, a).store.tickets
    ensures
      var t := Apply(w, a).store.tickets[k];
      || t.uid == w.store.nextUid
      || (k in w.store.tickets && Legal(w.store.tickets[k], t, w.store.now))
  {
    match a
    case Work(j, c) =>
      assert k in w.store.tickets ==> TicketOk(w.store, k);
      if j in w.workers {
        CallStepLegal(w.store, j, w.workers[j], c, k);
      }
    case BindWrite(_, _, _) => BindClaimsOrNothing(w, a, k);
    case _ => QuietKeepsStatus(w, a, k);
  }

  predicate Kept<T(==)>(before: Option<T>, after: Option<T>) {
    before.Some? ==> after == before
  }

  function Stage(p: Phase): nat {
    match p
    case Claimed => 1
    case Expired => 2
    case Unknown => 3
    case _ => 0
  }

  /** The claim, the activation and the expiry are written once, and the stages only advance. */
  predicate Evolves(t: Ticket, t': Ticket) {
    && t'.uid == t.uid
    && Kept(t.status.claimedPod, t'.status.claimedPod)
    && Kept(t.status.claimedTime, t'.status.claimedTime)
    && Kept(t.status.activation, t'.status.activation)
    && Kept(t.status.expiration, t'.status.expiration)
    && Stage(t.status.phase) <= Stage(t'.status.phase)
  }

  /**
    Whole runs: whatever interleaves between two moments, a ticket that exists at both under the
    same identity keeps its claim, its activation time and its expiry once they are set, and never
    goes back from Claimed or Expired.
   */
  lemma {:induction false} RunEvolves(w: World, run: seq<Action>, k: Key)
    requires Inv(w)
    requires k in w.store.tickets && k in Run(w, run).store.tickets
    requires Run(w, run).store.tickets[k].uid == w.store.tickets[k].uid
    ensures Evolves(w.store.tickets[k], Run(w, run).store.tickets[k])
  {
    if run != [] {
      var front, a := run[..|run| - 1], run[|run| - 1];
      var mid := Run(w, front);
      RunOk(w, front);
      UidsGrow(w, front);
      assert TicketOk(w.store, k);
      ApplyLegal(mid, a, k);
      assert TicketOk(mid.store, k);
      RunEvolves(w, front, k);
    }
  }

  /** Whole runs again, by phases: what follows Claimed and Expired, and what Expired says about time. */
  lemma RunPhases(w: World, run: seq<Action>, k: Key)
    requires Inv(w)
    requires k in w.store.tickets && k in Run(w, run).store.tickets
    requires Run(w, run).store.tickets[k].uid == w.store.tickets[k].uid
    ensures
      var (before, after) := (w.store.tickets[k].status, Run(w, run).store.tickets[k].status);
      && (before.phase == Claimed ==> after.phase == Claimed || after.phase == Expired)
      && (before.phase == Expired ==> after.phase == Expired)
      && (after.phase == Expired ==> after.expiration.Some? && after.expiration.value < Run(w, run).store.now)
  {
    RunEvolves(w, run, k);
    RunOk(w, run);
    assert TicketOk(Run(w, run).store, k);
  }

  lemma {:induction false} UidsGrow(w: World, run: seq<Action>)
    requires Inv(w)
    ensures w.store.nextUid <= Run(w, run).store.nextUid
  {
    if run != [] {
      UidsGrow(w, run[..|run| - 1]);
      RunOk(w, run[..|run| - 1]);
      ApplyUids(Run(w, run[..|run| - 1]), run[|run| - 1]);
    }
  }

  lemma ApplyUids(w: World, a: Action)
    requires Inv(w)
    ensures w.store.nextUid <= Apply(w, a).store.nextUid
  {
    if a.Work? && a.k in w.workers {
      CallStepOk(w.store, a.k, w.workers[a.k], a.choice);
    }
  }

  // ---------------------------------------------------------------- No double claim

  /** This action is an admission's claim on ticket `k` of identity `uid`, and the store accepts it. */
  predicate AcceptedClaim(w: World, a: Action, k: Key, uid: nat) {
    && a.BindWrite? && !a.fails
    && a.id in w.binds
    && Current(w.store, w.binds[a.id])
    && w.binds[a.id].key == k
    && w.store.tickets[k].uid == uid
  }

  /** How many claims on that ticket a run gets accepted. */
  function ClaimCount(w: World, run: seq<Action>, k: Key, uid: nat): nat {
    if run == [] then 0
    else
      var front := run[..|run| - 1];
      ClaimCount(w, front, k, uid) + if AcceptedClaim(Run(w, front), run[|run| - 1], k, uid) then 1 else 0
  }

  /**
    However reconciles, admissions with stale copies and users interleave, a ticket is claimed at
    most once, not at all if it was claimed before, and a claimed ticket shows its claim for as
    long as it exists.
   */
  lemma {:induction false} NoDoubleClaim(w: World, run: seq<Action>, k: Key, uid: nat)
    requires Inv(w) && uid < w.store.nextUid
    ensures ClaimCount(w, run, k, uid) <= 1
    ensures k in w.store.tickets && w.store.tickets[k].uid == uid && w.store.tickets[k].status.claimedPod.Some?
            ==> ClaimCount(w, run, k, uid) == 0
    ensures ClaimCount(w, run, k, uid) == 1 ==>
            var last := Run(w, run).store.tickets;
            k in last && last[k].uid == uid ==> last[k].status.claimedPod.Some?
  {
    if run != [] {
      var front, a := run[..|run| - 1], run[|run| - 1];
      var mid := Run(w, front);
      RunOk(w, front);
      UidsGrow(w, front);
      NoDoubleClaim(w, front, k, uid);
      if AcceptedClaim(mid, a, k, uid) {
        ClaimKeepsTicket(mid, a, k, uid);
        if k in w.store.tickets && w.store.tickets[k].uid == uid {
          RunEvolves(w, front, k);
        }
      }
      if k in Apply(mid, a).store.tickets && Apply(mid, a).store.tickets[k].uid == uid {
        ClaimShows(mid, a, k, uid);
      }
    }
  }

  /** One action shows the claims it makes and keeps those already made. */
  lemma ClaimShows(w: World, a: Action, k: Key, uid: nat)
    requires Inv(w) && uid < w.store.nextUid
    requires k in Apply(w, a).store.tickets && Apply(w, a).store.tickets[k].uid == uid
    ensures k in w.store.tickets && w.store.tickets[k].uid == uid
    ensures
      var (before, after) := (w.store.tickets[k].status, Apply(w, a).store.tickets[k].status);
      if AcceptedClaim(w, a, k, uid) then before.claimedPod.None? && after.claimedPod == Some(a.who)
      else after.claimedPod == before.claimedPod
  {
    match a
    case Work(j, c) =>
      assert k in w.store.tickets ==> TicketOk(w.store, k);
      if j in w.workers {
        CallStepLegal(w.store, j, w.workers[j], c, k);
      }
    case BindWrite(_, _, _) => BindClaimsOrNothing(w, a, k);
    case _ => QuietKeepsStatus(w, a, k);
  }

  /** A claim leaves the ticket in the store. */
  lemma ClaimKeepsTicket(w: World, a: Action, k: Key, uid: nat)
    requires Inv(w) && AcceptedClaim(w, a, k, uid)
    ensures k in Apply(w, a).store.tickets && Apply(w, a).store.tickets[k].uid == uid
  {
    assert BindOk(w.store, w.binds[a.id]);
  }

  // ---------------------------------------------------------------- The phase relation

  /** The phase changes a stored ticket can undergo in one action. */
  predicate PhaseStep(p: Phase, q: Phase) {
    || p == q
    || (p == Unset && (q == Pending || q == Ready || q == Expired))
    || (p == Pending && (q == Ready || q == Expired))
    || (p == Ready && (q == Pending || q == Claimed || q == Expired))
    || (p == Claimed && q == Expired)
  }

  /**
    Every action moves every ticket along the phase relation. A claim is made by an admission and
    by nothing else; Ready falls back to Pending only through a reconcile's own "Failed" write; and
    whatever becomes Expired has an expiry that has passed.
   */
  lemma PhasesStep(w: World, a: Action, k: Key)
    requires Inv(w)
    requires k in w.store.tickets && k in Apply(w, a).store.tickets
    requires Apply(w, a).store.tickets[k].uid == w.store.tickets[k].uid
    ensures
      var (before, after) := (w.store.tickets[k].status, Apply(w, a).store.tickets[k].status);
      && PhaseStep(before.phase, after.phase)
      && (before.phase != Claimed && after.phase == Claimed ==> AcceptedClaim(w, a, k, w.store.tickets[k].uid))
      && (before.phase == Ready && after.phase == Pending ==>
          && a.Work? && a.k == k && k in w.workers && w.workers[k].WriteStatus?
          && w.workers[k].t.status.phase == Pending && after.reason == "Failed")
      && (after.phase == Expired ==> after.expiration.Some? && after.expiration.value < Apply(w, a).store.now)
  {
    var t := w.store.tickets[k];
    assert TicketOk(w.store, k);
    ApplyOk(w, a);
    assert TicketOk(Apply(w, a).store, k);
    ApplyLegal(w, a, k);
    LegalPhases(t, Apply(w, a).store.tickets[k], w.store.now);
    ClaimShows(w, a, k, t.uid);
    if Apply(w, a).store.tickets[k].status != t.status {
      StatusChangesComeFrom(w, a, k);
    }
  }

  lemma LegalPhases(cur: Ticket, t: Ticket, now: int)
    requires Legal(cur, t, now) && StatusOk(cur.key, cur.status, now)
    ensures PhaseStep(cur.status.phase, t.status.phase)
    ensures cur.status.phase == Ready && t.status.phase == Pending ==> t.status.reason == "Failed"
  {
  }

  /** A stored status changes only by a reconcile's own status write or by an admission's claim. */
  lemma StatusChangesComeFrom(w: World, a: Action, k: Key)
    requires Inv(w)
    requires k in w.store.tickets && k in Apply(w, a).store.tickets
    requires Apply(w, a).store.tickets[k].uid == w.store.tickets[k].uid
    requires Apply(w, a).store.tickets[k].status != w.store.tickets[k].status
    ensures || (AcceptedClaim(w, a, k, w.store.tickets[k].uid) && Apply(w, a).store.tickets[k].status.phase == Claimed)
            || (a.Work? && a.k == k && k in w.workers && w.workers[k].WriteStatus?
                && Apply(w, a).store.tickets[k].status == w.workers[k].t.status)
  {
    assert TicketOk(w.store, k);
    match a
    case Work(j, c) =>
      if j in w.workers {
        CallStepLegal(w.store, j, w.workers[j], c, k);
      }
    case BindWrite(_, _, _) => BindClaimsOrNothing(w, a, k);
    case _ => QuietKeepsStatus(w, a, k);
  }

  /**
    A reconcile gets to a write of Pending only from the creation attempt of a guardian: the Create
    call failed, or the window turned out malformed on the way to it.
   */
  lemma PendingWriteComesFromCreation(st: Store, k: Key, pc: Pc, c: Choice)
    requires StoreOk(st) && PcOk(st, k, pc)
    requires !pc.WriteStatus?
    requires CallStep(st, k, pc, c).1.WriteStatus?
    requires CallStep(st, k, pc, c).1.t.status.phase == Pending
    ensures
      || (pc.MakePod? && CreatePod in c.faults)
      || (CallStep(st, k, pc, c).1.t.spec.window.BadWindow?
          && CallStep(st, k, pc, c).1.t.status.expiration.None?
          && (pc.Fetch? || (pc.LookPod? && GuardianKey(k) !in st.pods)))
  {
    assert TicketOk(st, k);
    GuardianRefParses(k);
  }

  /**
    Action `j` of a run was the call of the reconcile of `k` at which creating the guardian failed, or
    which met a malformed window on the way to it, and left a write of Pending to be made.
   */
  ghost predicate CreationFailedAt(w: World, run: seq<Action>, j: nat, k: Key) {
    && j < |run| && run[j].Work? && run[j].k == k
    && k in Run(w, run[..j]).workers
    && var (st, pc) := (Run(w, run[..j]).store, Run(w, run[..j]).workers[k]);
       var next := CallStep(st, k, pc, run[j].choice).1;
       && next.WriteStatus? && next.t.status.phase == Pending
       && ((pc.MakePod? && CreatePod in run[j].choice.faults)
           || (&& next.t.spec.window.BadWindow? && next.t.status.expiration.None?
               && (pc.Fetch? || (pc.LookPod? && GuardianKey(k) !in st.pods))))
  }

  /** The reconcile of `k` made no call of its own after action `j`. */
  predicate IdleSince(run: seq<Action>, j: nat, k: Key) {
    forall m :: j < m < |run| ==> !(run[m].Work? && run[m].k == k)
  }

  /** A write waits unchanged while others act. */
  lemma WriteWaits(w: World, a: Action, k: Key)
    requires !(a.Work? && a.k == k)
    requires k in Apply(w, a).workers && Apply(w, a).workers[k].WriteStatus?
    ensures k in w.workers && w.workers[k] == Apply(w, a).workers[k]
  {
  }

  lemma OriginStep(w: World, front: seq<Action>, a: Action, k: Key)
    requires Inv(w) && a.Work? && a.k == k
    requires
      var workers := Apply(Run(w, front), a).workers;
      k in workers && workers[k].WriteStatus? && workers[k].t.status.phase == Pending
    ensures CreationFailedAt(w, front + [a], |front|, k)
  {
    var mid := Run(w, front);
    RunOk(w, front);
    assert (front + [a])[..|front|] == front;
    PendingWriteComesFromCreation(mid.store, k, mid.workers[k], a.choice);
  }

  lemma OriginStays(w: World, front: seq<Action>, a: Action, k: Key, j: nat)
    requires CreationFailedAt(w, front, j, k) && IdleSince(front, j, k) && !(a.Work? && a.k == k)
    ensures CreationFailedAt(w, front + [a], j, k) && IdleSince(front + [a], j, k)
  {
    var run := front + [a];
    assert run[..j] == front[..j] && run[j] == front[j];
    forall m | j < m < |run| ensures !(run[m].Work? && run[m].k == k) {
      assert m < |front| ==> run[m] == front[m];
    }
  }

  lemma {:induction false} PendingWriteHasOrigin(w: World, run: seq<Action>, k: Key) returns (j: nat)
    requires Inv(w) && k !in w.workers
    requires
      var workers := Run(w, run).workers;
      k in workers && workers[k].WriteStatus? && workers[k].t.status.phase == Pending
    ensures CreationFailedAt(w, run, j, k) && IdleSince(run, j, k)
  {
    var front, a := run[..|run| - 1], run[|run| - 1];
    assert front + [a] == run;
    if a.Work? && a.k == k {
      j := |front|;
      OriginStep(w, front, a, k);
    } else {
      WriteWaits(Run(w, front), a, k);
      j := PendingWriteHasOrigin(w, front, k);
      OriginStays(w, front, a, k, j);
    }
  }

  /**
    Whole runs: when an action takes a ticket from Ready back to Pending, it is the status write of a
    reconcile of that ticket whose previous call was a failed creation of the guardian, or met a
    malformed window on the way to one.
   */
  lemma ReadyFallsBackOnlyAfterFailedCreation(w: World, run: seq<Action>, a: Action, k: Key)
    requires Inv(w) && k !in w.workers
    requires
      var (before, after) := (Run(w, run).store.tickets, Apply(Run(w, run), a).store.tickets);
      && k in before && k in after && before[k].uid == after[k].uid
      && before[k].status.phase == Ready && after[k].status.phase == Pending
    ensures a.Work? && a.k == k
    ensures exists j: nat :: CreationFailedAt(w, run, j, k) && IdleSince(run, j, k)
  {
    RunOk(w, run);
    PhasesStep(Run(w, run), a, k);
    var j := PendingWriteHasOrigin(w, run, k);
    assert CreationFailedAt(w, run, j, k);
  }

  /** The expiry a write sets for the first time is activation plus the duration then in the spec. */
  lemma ExpiryIsActivationPlusDuration(w: World, a: Action, k: Key)
    requires Inv(w)
    requires k in w.store.tickets && k in Apply(w, a).store.tickets
    requires Apply(w, a).store.tickets[k].uid == w.store.tickets[k].uid
    requires w.store.tickets[k].status.expiration.None?
    requires Apply(w, a).store.tickets[k].status.expiration.Some?
    ensures
      var (before, after) := (w.store.tickets[k], Apply(w, a).store.tickets[k].status);
      && before.spec.window.Lasts?
      && after.activation.Some?
      && after.expiration.value == after.activation.value + before.spec.window.duration
  {
    assert TicketOk(w.store, k);
    ApplyLegal(w, a, k);
  }

  // ---------------------------------------------------------------- Lagging caches

  lemma ApplyLater(w: World, a: Action)
    requires Inv(w)
    ensures Later(w.store, Apply(w, a).store)
  {
    if a.Work? && a.k in w.workers {
      CallStepOk(w.store, a.k, w.workers[a.k], a.choice);
    } else if a.BindWrite? && a.id in w.binds {
      ClaimOk(w.store, w.binds[a.id], a.who);
    } else if a.AskDelete? {
      DeleteTicketOk(w.store, a.k);
    }
  }

  /** Any version a ticket ever had stays among the copies a lagging cache may serve. */
  lemma {:induction false} PastVersionsArePlausible(w: World, run: seq<Action>, k: Key)
    requires Inv(w) && k in w.store.tickets
    ensures Plausible(Run(w, run).store, k, w.store.tickets[k])
  {
    assert TicketOk(w.store, k);
    if run != [] {
      var front := run[..|run| - 1];
      RunOk(w, front);
      PastVersionsArePlausible(w, front, k);
      ApplyLater(Run(w, front), run[|run| - 1]);
    }
  }
}
