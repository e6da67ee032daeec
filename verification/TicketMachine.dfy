/**
  The ticket protocol one API call at a time. Reconciles of different tickets, any number of pod
  admissions, users, the scheduler and the clock interleave freely between calls.
 */
module TicketMachine {
  import opened Common
  import opened Conditions
  import opened TicketModel

  /** What `deleteGuardianPod` was called for. */
  datatype Purpose = ForClaim | ForExpiry | ForDeletion

  datatype Result = Settled | Requeued | Failed

  /** A reconcile in flight: its next API call and the local copy of the ticket it works on. */
  datatype Pc =
    | Fetch
    | AddFinalizer(t: Ticket)
    | MakePod(t: Ticket)
    | LookPod(t: Ticket, pod: Key)
    | DropPod(t: Ticket, pod: Key, purpose: Purpose)
    | DropFinalizer(t: Ticket)
    | WriteStatus(t: Ticket)
    | DropTicket(t: Ticket)
    | Done(result: Result)

  datatype Call = GetTicket | PutTicket | CreatePod | GetPod | DeletePod | PutStatus | RemoveTicket

  /**
    What chance decides about one API call: which calls fail without effect, the time that passes
    between two readings of the clock, and the copy a lagging cache serves.
   */
  datatype Choice = Choice(faults: set<Call>, lag: nat, cached: Option<Ticket>)

  const CALM := Choice({}, 0, None)

  // ---------------------------------------------------------------- The handlers between calls

  /** `handlePendingTicket` up to its first API call. */
  function EnterPending(t: Ticket, now: int): Pc {
    var activation := if t.status.activation.Some? then t.status.activation.value else now;
    var t1 := t.(status := t.status.(activation := Some(activation)));
    if t1.status.expiration.None? && t1.spec.window.BadWindow? then
      WriteStatus(Marked(t1, Pending, "Failed", now))
    else if t1.status.expiration.None? && t1.spec.window.Lasts? then
      MakePod(t1.(status := t1.status.(expiration := Some(activation + t1.spec.window.duration))))
    else MakePod(t1)
  }

  /** `handleReadyTicket` up to its first API call. */
  function EnterReady(t: Ticket, now: int): Pc {
    if t.status.guardianPod.None? then Done(Requeued)
    else
      match ParseRef(t.status.guardianPod.value)
      case None => EnterPending(t, now)
      case Some(pod) => LookPod(t, pod)
  }

  /** The rest of a handler once `deleteGuardianPod` has returned without error. */
  function AfterDrop(t: Ticket, purpose: Purpose, now: int, lag: nat): Pc {
    match purpose
    case ForClaim =>
      WriteStatus(Marked(t.(status := t.status.(guardianPod := None)), Claimed, "Claimed", now))
    case ForExpiry =>
      (match t.spec.cleanup
       case DeleteNow => DropTicket(t)
       case DeleteAfter(ttl) => if lag > ttl then DropTicket(t) else Done(Requeued)
       case Retain => WriteStatus(Marked(t, Expired, "Expired", now)))
    case ForDeletion => DropFinalizer(t)
  }

  /** `deleteGuardianPod` up to its API call, if it makes one. */
  function EnterDrop(t: Ticket, purpose: Purpose, now: int, lag: nat): Pc {
    if t.status.guardianPod.None? then AfterDrop(t, purpose, now, lag)
    else
      match ParseRef(t.status.guardianPod.value)
      case None => Done(Failed)
      case Some(pod) => DropPod(t, pod, purpose)
  }

  /** `Reconcile` after it has read the ticket. */
  function Dispatch(t: Ticket, now: int, lag: nat): Pc {
    if t.deleting then EnterDrop(t, ForDeletion, now, lag)
    else if !t.finalizer then AddFinalizer(t)
    else if TimedOut(t, now) then
      if t.status.phase != Expired then WriteStatus(Marked(t, Expired, "Expired", now))
      else EnterDrop(t, ForExpiry, now, lag)
    else
      match t.status.phase
      case Unset => EnterPending(t, now)
      case Pending => EnterPending(t, now)
      case Ready => EnterReady(t, now)
      case Claimed => EnterDrop(t, ForClaim, now, lag)
      case Expired => EnterDrop(t, ForExpiry, now, lag)
      case Unknown => Done(Settled)
  }

  // ---------------------------------------------------------------- One API call of a reconcile

  function NodeOf(t: Ticket): string {
    if t.spec.nodeName.Some? then t.spec.nodeName.value else ""
  }

  /** The ticket after a successful `createGuardianPod`. */
  function Activated(t: Ticket, now: int): Ticket {
    Marked(t.(status := t.status.(
      phase := Ready,
      guardianPod := Some(RefText(GuardianKey(t.key))),
      nodeName := Some(NodeOf(t)))), Ready, "Activated", now)
  }

  /** The ticket after its guardian was seen on a node. */
  function Located(t: Ticket, node: string): Ticket {
    if node != "" && t.status.nodeName != Some(node) then t.(status := t.status.(nodeName := Some(node))) else t
  }

  function Fetched(st: Store, k: Key, c: Choice): Option<Ticket> {
    if c.cached.Some? && Plausible(st, k, c.cached.value) then c.cached
    else if k in st.tickets then Some(st.tickets[k])
    else None
  }

  function CallStep(st: Store, k: Key, pc: Pc, c: Choice): (Store, Pc) {
    match pc
    case Fetch =>
      if GetTicket in c.faults then (st, Done(Failed))
      else if Fetched(st, k, c).None? then (st, Done(Settled))
      else (st, Dispatch(Fetched(st, k, c).value, st.now, c.lag))
    case AddFinalizer(t) =>
      if PutTicket in c.faults || !Current(st, t) then (st, Done(Failed))
      else (UpdateFinalizer(st, t, true), Done(Requeued))
    case MakePod(t) =>
      var pod := GuardianKey(t.key);
      if CreatePod in c.faults then (st, WriteStatus(Marked(t, Pending, "Failed", st.now)))
      else if pod in st.pods then (st, EnterReady(t, st.now))
      else (st.(pods := st.pods[pod := Pod(t.uid, NodeOf(t), false)]), WriteStatus(Activated(t, st.now)))
    case LookPod(t, pod) =>
      if GetPod in c.faults then (st, Done(Failed))
      else if pod !in st.pods then (st, EnterPending(t, st.now))
      else
        var t1 := Located(t, st.pods[pod].node);
        (st, if st.pods[pod].running then WriteStatus(Marked(t1, Ready, "Ready", st.now)) else Done(Requeued))
    case DropPod(t, pod, purpose) =>
      if DeletePod in c.faults then (st, Done(Failed))
      else (st.(pods := st.pods - {pod}), AfterDrop(t, purpose, st.now, c.lag))
    case DropFinalizer(t) =>
      if PutTicket in c.faults then (st, Done(Failed))
      else if t.key !in st.tickets then (st, Done(Settled))
      else if !Current(st, t) then (st, Done(Failed))
      else (UpdateFinalizer(st, t, false), Done(Settled))
    case WriteStatus(t) =>
      if PutStatus in c.faults || !Current(st, t) then (st, Done(Failed))
      else (UpdateStatus(st, t), Done(Settled))
    case DropTicket(t) =>
      if RemoveTicket in c.faults then (st, Done(Failed))
      else (DeleteTicket(st, t.key), Done(Settled))
    case Done(_) => (st, pc)
  }

  // ---------------------------------------------------------------- The whole system

  /** The store, the admissions that have read a ticket but not yet written it, and the reconciles in flight. */
  datatype World = World(store: Store, binds: map<nat, Ticket>, workers: map<Key, Pc>)

  datatype Action =
    | Begin(k: Key)                            // the work queue hands a ticket to the reconciler
    | Work(k: Key, choice: Choice)             // a reconcile makes its next API call
    | BindRead(id: nat, t: Ticket)             // an admission picks a claimable ticket, perhaps from a stale cache
    | BindWrite(id: nat, who: string, fails: bool)  // that admission writes its claim, or its call fails
    | Tick(d: nat)
    | PodGone(pod: Key)
    | PodMade(pod: Key, p: Pod)
    | PodMoves(pod: Key, node: string, running: bool)
    | NewTicket(k: Key, meta: Meta, spec: Spec)
    | Edit(k: Key, meta: Meta, spec: Spec)
    | AskDelete(k: Key)

  function SetWorker(w: World, k: Key, pc: Pc): World {
    w.(workers := if pc.Done? then w.workers - {k} else w.workers[k := pc])
  }

  function Apply(w: World, a: Action): World {
    var st := w.store;
    match a
    case Begin(k) => if k in w.workers then w else SetWorker(w, k, Fetch)
    case Work(k, choice) =>
      if k !in w.workers then w
      else
        var (st', pc) := CallStep(st, k, w.workers[k], choice);
        SetWorker(w.(store := st'), k, pc)
    case BindRead(id, t) =>
      if Plausible(st, t.key, t) && Claimable(t) then w.(binds := w.binds[id := t]) else w
    case BindWrite(id, who, fails) =>
      if id !in w.binds then w
      else w.(store := WriteClaim(st, w.binds[id], who, fails), binds := w.binds - {id})
    case Tick(d) => w.(store := st.(now := st.now + d))
    case PodGone(pod) => w.(store := st.(pods := st.pods - {pod}))
    case PodMade(pod, p) => if pod in st.pods then w else w.(store := st.(pods := st.pods[pod := p]))
    case PodMoves(pod, node, running) =>
      if pod !in st.pods then w
      else w.(store := st.(pods := st.pods[pod := st.pods[pod].(node := node, running := running)]))
    case NewTicket(k, meta, spec) => w.(store := CreateTicket(st, k, meta, spec))
    case Edit(k, meta, spec) => w.(store := EditTicket(st, k, meta, spec))
    case AskDelete(k) => w.(store := DeleteTicket(st, k))
  }

  function Run(w: World, run: seq<Action>): World {
    if run == [] then w else Apply(Run(w, run[..|run| - 1]), run[|run| - 1])
  }

  const EMPTY := World(Store(map[], map[], 0, 0, 0), map[], map[])
}
