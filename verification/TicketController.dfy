/**
  The ticket reconciler in its own form: handlers that fill in a local ticket object and make API
  calls. Each handler is proved to do exactly what `Drive` says, under every schedule of
  interference and failures, so everything proved about runs holds of this code.
 */
module TicketController {
  import opened Common
  import opened Text
  import opened Conditions
  import opened TicketModel
  import opened TicketMachine
  import opened TicketSafety
  import opened TicketReconcile

  datatype GetResult<T> = Found(value: T) | Missing | GetError

  datatype CreateResult = Created(pod: Pod) | AlreadyExists | CreateError

  datatype WriteResult = Written | NotFound | Refused

  /** The ticket a reconcile works on: read once, changed in place, written back. */
  class TicketObject {
    const key: Key
    const uid: nat
    const rv: nat
    const meta: Meta
    const spec: Spec
    const deleting: bool
    const finalizer: bool
    var phase: Phase
    var activationTime: Option<int>
    var expirationTime: Option<int>
    var claimedTime: Option<int>
    var nodeName: Option<string>
    var guardianPod: Option<string>
    var claimedPod: Option<string>
    var reason: string
    const conditions: ConditionList

    constructor (t: Ticket)
      ensures Value() == t
      ensures fresh(conditions)
    {
      key, uid, rv, meta, spec := t.key, t.uid, t.rv, t.meta, t.spec;
      deleting, finalizer := t.deleting, t.finalizer;
      phase := t.status.phase;
      activationTime, expirationTime := t.status.activation, t.status.expiration;
      claimedTime, claimedPod := t.status.claimedTime, t.status.claimedPod;
      nodeName, guardianPod := t.status.nodeName, t.status.guardianPod;
      reason := t.status.reason;
      conditions := new ConditionList(t.status.conditions);
    }

    function Value(): Ticket
      reads this, conditions
    {
      Ticket(key, uid, rv, meta, finalizer, deleting, spec,
             Status(phase, activationTime, expirationTime, claimedTime, nodeName, guardianPod,
                    claimedPod, reason, conditions.items))
    }
  }

  /**
    The API server as one reconcile sees it. Before every call the others' actions of the next slot
    take place; the slot also decides whether the call fails.
   */
  class Cluster {
    var tickets: map<Key, Ticket>
    var pods: map<Key, Pod>
    var now: int
    var nextRv: nat
    var nextUid: nat
    var binds: map<nat, Ticket>
    var workers: map<Key, Pc>
    var sched: seq<Slot>
    var lag: nat

    function State(): World
      reads this
    {
      World(Store(tickets, pods, now, nextRv, nextUid), binds, workers)
    }

    method BecomeStore(st: Store)
      modifies `tickets, `pods, `now, `nextRv, `nextUid
      ensures State() == old(State()).(store := st)
    {
      tickets, pods, now, nextRv, nextUid := st.tickets, st.pods, st.now, st.nextRv, st.nextUid;
    }

    /** The others act, then chance decides about our call. */
    method Turn(k: Key) returns (c: Choice)
      modifies this
      ensures State() == Interfere(old(State()), k, Next(old(sched)).others)
      ensures c == Next(old(sched)).choice
      ensures sched == Rest(old(sched)) && lag == c.lag
    {
      var w := Interfere(State(), k, Next(sched).others);
      c := Next(sched).choice;
      sched, lag := Rest(sched), c.lag;
      binds, workers := w.binds, w.workers;
      BecomeStore(w.store);
    }

    method GetTicket(k: Key) returns (r: GetResult<Ticket>)
      modifies this
      ensures State() == Interfere(old(State()), k, Next(old(sched)).others)
      ensures sched == Rest(old(sched)) && lag == Next(old(sched)).choice.lag
      ensures
        var (st, c) := (State().store, Next(old(sched)).choice);
        r == if Call.GetTicket in c.faults then GetError
             else if Fetched(st, k, c).None? then Missing
             else Found(Fetched(st, k, c).value)
    {
      var c := Turn(k);
      if Call.GetTicket in c.faults {
        r := GetError;
      } else {
        var t := Fetched(State().store, k, c);
        r := if t.None? then Missing else Found(t.value);
      }
    }

    method PutFinalizer(t: TicketObject, present: bool) returns (r: WriteResult)
      modifies this
      ensures sched == Rest(old(sched))
      ensures
        var (w, c) := (Interfere(old(State()), t.key, Next(old(sched)).others), Next(old(sched)).choice);
        if PutTicket in c.faults then r == Refused && State() == w
        else if t.key !in w.store.tickets then r == NotFound && State() == w
        else if !Current(w.store, t.Value()) then r == Refused && State() == w
        else r == Written && State() == w.(store := UpdateFinalizer(w.store, t.Value(), present))
    {
      var c := Turn(t.key);
      if PutTicket in c.faults {
        r := Refused;
      } else if t.key !in tickets {
        r := NotFound;
      } else if tickets[t.key].rv != t.rv {
        r := Refused;
      } else {
        BecomeStore(UpdateFinalizer(State().store, t.Value(), present));
        r := Written;
      }
    }

    method PutStatus(t: TicketObject) returns (r: WriteResult)
      modifies this
      ensures sched == Rest(old(sched))
      ensures
        var (w, c) := (Interfere(old(State()), t.key, Next(old(sched)).others), Next(old(sched)).choice);
        if Call.PutStatus in c.faults || !Current(w.store, t.Value()) then r != Written && State() == w
        else r == Written && State() == w.(store := UpdateStatus(w.store, t.Value()))
    {
      var c := Turn(t.key);
      if Call.PutStatus in c.faults {
        r := Refused;
      } else if t.key !in tickets {
        r := NotFound;
      } else if tickets[t.key].rv != t.rv {
        r := Refused;
      } else {
        BecomeStore(UpdateStatus(State().store, t.Value()));
        r := Written;
      }
    }

    method RemoveTicket(k: Key) returns (r: WriteResult)
      modifies this
      ensures sched == Rest(old(sched))
      ensures
        var (w, c) := (Interfere(old(State()), k, Next(old(sched)).others), Next(old(sched)).choice);
        if Call.RemoveTicket in c.faults then r == Refused && State() == w
        else r == (if k in w.store.tickets then Written else NotFound)
             && State() == w.(store := DeleteTicket(w.store, k))
    {
      var c := Turn(k);
      if Call.RemoveTicket in c.faults {
        r := Refused;
      } else {
        r := if k in tickets then Written else NotFound;
        BecomeStore(DeleteTicket(State().store, k));
      }
    }

    method CreatePod(k: Key, name: Key, pod: Pod) returns (r: CreateResult)
      modifies this
      ensures sched == Rest(old(sched))
      ensures
        var (w, c) := (Interfere(old(State()), k, Next(old(sched)).others), Next(old(sched)).choice);
        if Call.CreatePod in c.faults then r == CreateError && State() == w
        else if name in w.store.pods then r == AlreadyExists && State() == w
        else r == Created(pod) && State() == w.(store := w.store.(pods := w.store.pods[name := pod]))
    {
      var c := Turn(k);
      if Call.CreatePod in c.faults {
        r := CreateError;
      } else if name in pods {
        r := AlreadyExists;
      } else {
        pods := pods[name := pod];
        r := Created(pod);
      }
    }

    method GetPod(k: Key, name: Key) returns (r: GetResult<Pod>)
      modifies this
      ensures sched == Rest(old(sched))
      ensures State() == Interfere(old(State()), k, Next(old(sched)).others)
      ensures r == if Call.GetPod in Next(old(sched)).choice.faults then GetError
                   else if name in pods then Found(pods[name])
                   else Missing
    {
      var c := Turn(k);
      r := if Call.GetPod in c.faults then GetError else if name in pods then Found(pods[name]) else Missing;
    }

    method DeletePod(k: Key, name: Key) returns (r: WriteResult)
      modifies this
      ensures sched == Rest(old(sched)) && lag == Next(old(sched)).choice.lag
      ensures
        var (w, c) := (Interfere(old(State()), k, Next(old(sched)).others), Next(old(sched)).choice);
        if Call.DeletePod in c.faults then r == Refused && State() == w
        else r != Refused && State() == w.(store := w.store.(pods := w.store.pods - {name}))
    {
      var c := Turn(k);
      if Call.DeletePod in c.faults {
        r := Refused;
      } else {
        r := if name in pods then Written else NotFound;
        pods := pods - {name};
      }
    }
  }

  class TicketReconciler {
    const api: Cluster

    constructor (api: Cluster)
      ensures this.api == api
    {
      this.api := api;
    }

    /** The reconcile standing at `pc` is in order. */
    ghost predicate Ready(k: Key, pc: Pc)
      reads api
    {
      Inv(api.State()) && PcOk(api.State().store, k, pc)
    }

    method Reconcile(k: Key) returns (r: Result)
      requires Ready(k, Fetch)
      modifies api
      ensures (api.State(), api.sched, r) == Drive(old(api.State()), k, Fetch, old(api.sched))
    {
      DriveStep(api.State(), k, Fetch, api.sched);
      var got := api.GetTicket(k);
      if got.GetError? {
        return Failed;
      }
      if got.Missing? {
        return Settled;
      }
      var ticket := new TicketObject(got.value);
      ghost var (w, sched) := (api.State(), api.sched);
      assert Drive(old(api.State()), k, Fetch, old(api.sched))
        == Drive(w, k, Dispatch(ticket.Value(), api.now, api.lag), sched);
      if ticket.deleting {
        r := HandleDeletion(ticket);
      } else if !ticket.finalizer {
        ghost var pc := AddFinalizer(ticket.Value());
        DriveStep(api.State(), k, pc, api.sched);
        var put := api.PutFinalizer(ticket, true);
        r := if put == Written then Requeued else Failed;
      } else if ticket.expirationTime.Some? && api.now > ticket.expirationTime.value {
        r := HandleExpiration(ticket);
      } else {
        match ticket.phase
        case Unset => r := HandlePending(ticket);
        case Pending => r := HandlePending(ticket);
        case Ready => r := HandleReady(ticket);
        case Claimed => r := HandleClaimed(ticket);
        case Expired => r := HandleExpired(ticket);
        case Unknown => r := Settled;
      }
    }

    method HandleDeletion(ticket: TicketObject) returns (r: Result)
      requires Ready(ticket.key, EnterDrop(ticket.Value(), ForDeletion, api.now, api.lag))
      modifies api, ticket, ticket.conditions
      ensures (api.State(), api.sched, r) ==
              Drive(old(api.State()), ticket.key,
                EnterDrop(old(ticket.Value()), ForDeletion, old(api.now), old(api.lag)), old(api.sched))
    {
      var ok := DeleteGuardianPod(ticket, ForDeletion);
      if !ok {
        return Failed;
      }
      DriveStep(api.State(), ticket.key, DropFinalizer(ticket.Value()), api.sched);
      var put := api.PutFinalizer(ticket, false);
      r := if put == Refused then Failed else Settled;
    }

    method HandlePending(ticket: TicketObject) returns (r: Result)
      requires Ready(ticket.key, EnterPending(ticket.Value(), api.now))
      modifies api, ticket, ticket.conditions
      ensures (api.State(), api.sched, r) ==
              Drive(old(api.State()), ticket.key, EnterPending(old(ticket.Value()), old(api.now)), old(api.sched))
      decreases |api.sched|, Rank(api.State().store, ticket.key, EnterPending(ticket.Value(), api.now)), 1
    {
      if ticket.activationTime.None? {
        ticket.activationTime := Some(api.now);
      }
      if ticket.expirationTime.None? && !ticket.spec.window.NoWindow? {
        if ticket.spec.window.BadWindow? {
          r := UpdateTicketStatus(ticket, Pending, "Failed");
          return;
        }
        ticket.expirationTime := Some(ticket.activationTime.value + ticket.spec.window.duration);
      }
      assert MakePod(ticket.Value()) == EnterPending(old(ticket.Value()), old(api.now));
      r := Activate(ticket);
    }

    /** The second half of the pending handler, from the creation of the guardian on. */
    method Activate(ticket: TicketObject) returns (r: Result)
      requires Ready(ticket.key, MakePod(ticket.Value()))
      modifies api, ticket, ticket.conditions
      ensures (api.State(), api.sched, r) ==
              Drive(old(api.State()), ticket.key, MakePod(old(ticket.Value())), old(api.sched))
      decreases |api.sched|, Rank(api.State().store, ticket.key, MakePod(ticket.Value())), 0
    {
      var made := CreateGuardianPod(ticket);
      CreationOutcome(old(api.State()), ticket.key, ticket.Value(), old(api.sched), api.State(), made);
      match made
      case AlreadyExists =>
        r := HandleReady(ticket);
      case CreateError =>
        r := UpdateTicketStatus(ticket, Pending, "Failed");
      case Created(pod) =>
        ticket.phase := Phase.Ready;
        ticket.guardianPod := Some(RefText(GuardianKey(ticket.key)));
        ticket.nodeName := Some(pod.node);
        r := UpdateTicketStatus(ticket, Phase.Ready, "Activated");
    }

    /** The state and the answer that `createGuardianPod` leaves behind. */
    static ghost predicate CreationLeft(w: World, k: Key, t: Ticket, slot: Slot, w': World, made: CreateResult) {
      var w1 := Interfere(w, k, slot.others);
      var (name, pod) := (GuardianKey(k), Pod(t.uid, NodeOf(t), false));
      if CreatePod in slot.choice.faults then made == CreateError && w' == w1
      else if name in w1.store.pods then made == AlreadyExists && w' == w1
      else made == Created(pod) && w' == w1.(store := w1.store.(pods := w1.store.pods[name := pod]))
    }

    /** How the pending handler goes on after it tried to create the guardian. */
    static function AfterCreation(t: Ticket, now: int, made: CreateResult): Pc {
      match made
      case AlreadyExists => EnterReady(t, now)
      case CreateError => WriteStatus(Marked(t, Pending, "Failed", now))
      case Created(_) => WriteStatus(Activated(t, now))
    }

    static lemma CreationOutcome(w: World, k: Key, t: Ticket, sched: seq<Slot>, w': World, made: CreateResult)
      requires Inv(w) && PcOk(w.store, k, MakePod(t)) && t.key == k
      requires CreationLeft(w, k, t, Next(sched), w', made)
      ensures Inv(w') && PcOk(w'.store, k, AfterCreation(t, w'.store.now, made))
      ensures Drive(w, k, MakePod(t), sched) == Drive(w', k, AfterCreation(t, w'.store.now, made), Rest(sched))
      ensures |Rest(sched)| < |sched|
              || (sched == [] && Rank(w'.store, k, AfterCreation(t, w'.store.now, made)) < Rank(w.store, k, MakePod(t)))
    {
      DriveStep(w, k, MakePod(t), sched);
      assert Advance(w, k, MakePod(t), sched) == (w', AfterCreation(t, w'.store.now, made));
    }

    method HandleReady(ticket: TicketObject) returns (r: Result)
      requires Ready(ticket.key, EnterReady(ticket.Value(), api.now))
      modifies api, ticket, ticket.conditions
      ensures (api.State(), api.sched, r) ==
              Drive(old(api.State()), ticket.key, EnterReady(old(ticket.Value()), old(api.now)), old(api.sched))
      decreases |api.sched|, Rank(api.State().store, ticket.key, EnterReady(ticket.Value(), api.now)), 2
    {
      if ticket.guardianPod.Some? {
        GuardianRefParses(ticket.key);
        var parts := Split(ticket.guardianPod.value, '/');
        if |parts| != 2 {
          // The handler would start over as pending; MalformedBranchIsDead says why it never does.
          assert false;
        }
        var pod := Key(parts[0], parts[1]);
        ghost var pc := LookPod(ticket.Value(), pod);
        DriveStep(api.State(), ticket.key, pc, api.sched);
        var got := api.GetPod(ticket.key, pod);
        if got.Missing? {
          r := HandlePending(ticket);
          return;
        }
        if got.GetError? {
          return Failed;
        }
        if got.value.node != "" && ticket.nodeName != Some(got.value.node) {
          ticket.nodeName := Some(got.value.node);
        }
        if got.value.running {
          r := UpdateTicketStatus(ticket, Phase.Ready, "Ready");
          return;
        }
      }
      return Requeued;
    }

    method HandleClaimed(ticket: TicketObject) returns (r: Result)
      requires Ready(ticket.key, EnterDrop(ticket.Value(), ForClaim, api.now, api.lag))
      modifies api, ticket, ticket.conditions
      ensures (api.State(), api.sched, r) ==
              Drive(old(api.State()), ticket.key,
                EnterDrop(old(ticket.Value()), ForClaim, old(api.now), old(api.lag)), old(api.sched))
    {
      var ok := DeleteGuardianPod(ticket, ForClaim);
      if !ok {
        return Failed;
      }
      ticket.guardianPod := None;
      r := UpdateTicketStatus(ticket, Claimed, "Claimed");
    }

    method HandleExpired(ticket: TicketObject) returns (r: Result)
      requires Ready(ticket.key, EnterDrop(ticket.Value(), ForExpiry, api.now, api.lag))
      modifies api, ticket, ticket.conditions
      ensures (api.State(), api.sched, r) ==
              Drive(old(api.State()), ticket.key,
                EnterDrop(old(ticket.Value()), ForExpiry, old(api.now), old(api.lag)), old(api.sched))
    {
      var ok := DeleteGuardianPod(ticket, ForExpiry);
      if !ok {
        return Failed;
      }
      if ticket.spec.cleanup.DeleteAfter? {
        // The deadline counts from this very reconcile; only the time between two clock readings passes.
        var deleteTime := api.now + ticket.spec.cleanup.ttl;
        if !(api.now + api.lag > deleteTime) {
          return Requeued;
        }
      }
      if !ticket.spec.cleanup.Retain? {
        DriveStep(api.State(), ticket.key, DropTicket(ticket.Value()), api.sched);
        var gone := api.RemoveTicket(ticket.key);
        return if gone == Refused then Failed else Settled;
      }
      r := UpdateTicketStatus(ticket, Expired, "Expired");
    }

    method HandleExpiration(ticket: TicketObject) returns (r: Result)
      requires Ready(ticket.key,
        if ticket.phase != Expired then WriteStatus(Marked(ticket.Value(), Expired, "Expired", api.now))
        else EnterDrop(ticket.Value(), ForExpiry, api.now, api.lag))
      modifies api, ticket, ticket.conditions
      ensures (api.State(), api.sched, r) ==
              Drive(old(api.State()), ticket.key,
                    if old(ticket.phase) != Expired then
                      WriteStatus(Marked(old(ticket.Value()), Expired, "Expired", old(api.now)))
                    else EnterDrop(old(ticket.Value()), ForExpiry, old(api.now), old(api.lag)), old(api.sched))
    {
      if ticket.phase != Expired {
        ticket.phase := Expired;
        r := UpdateTicketStatus(ticket, Expired, "Expired");
      } else {
        r := HandleExpired(ticket);
      }
    }

    method CreateGuardianPod(ticket: TicketObject) returns (r: CreateResult)
      modifies api
      ensures api.sched == Rest(old(api.sched))
      ensures CreationLeft(old(api.State()), ticket.key, ticket.Value(), Next(old(api.sched)), api.State(), r)
    {
      var node := "";
      if ticket.spec.nodeName.Some? {
        node := ticket.spec.nodeName.value;
      }
      r := api.CreatePod(ticket.key, GuardianKey(ticket.key), Pod(ticket.uid, node, false));
    }

    /** `ok` means the handler goes on from `AfterDrop`; otherwise the reconcile has failed. */
    method DeleteGuardianPod(ticket: TicketObject, ghost purpose: Purpose) returns (ok: bool)
      requires Ready(ticket.key, EnterDrop(ticket.Value(), purpose, api.now, api.lag))
      modifies api
      ensures
        var pc := EnterDrop(ticket.Value(), purpose, old(api.now), old(api.lag));
        var pc' := AfterDrop(ticket.Value(), purpose, api.now, api.lag);
        if ok then
          && Ready(ticket.key, pc')
          && Drive(old(api.State()), ticket.key, pc, old(api.sched)) == Drive(api.State(), ticket.key, pc', api.sched)
        else
          Drive(old(api.State()), ticket.key, pc, old(api.sched)) == (api.State(), api.sched, Failed)
    {
      if ticket.guardianPod.None? {
        return true;
      }
      var parts := Split(ticket.guardianPod.value, '/');
      if |parts| != 2 {
        return false;
      }
      var pod := Key(parts[0], parts[1]);
      DriveStep(api.State(), ticket.key, DropPod(ticket.Value(), pod, purpose), api.sched);
      var gone := api.DeletePod(ticket.key, pod);
      ok := gone != Refused;
    }

    method UpdateTicketStatus(ticket: TicketObject, phase: Phase, reason: string) returns (r: Result)
      requires Ready(ticket.key, WriteStatus(Marked(ticket.Value(), phase, reason, api.now)))
      modifies api, ticket, ticket.conditions
      ensures (api.State(), api.sched, r) ==
              Drive(old(api.State()), ticket.key,
                WriteStatus(Marked(old(ticket.Value()), phase, reason, old(api.now))), old(api.sched))
    {
      ticket.phase := phase;
      ticket.reason := reason;
      var kind, isTrue := "Ready", true;
      if phase == Pending {
        isTrue := false;
      } else if phase == Expired {
        kind := "Expiring";
      }
      ticket.conditions.Set(kind, isTrue, api.now, reason);
      ghost var pc := WriteStatus(ticket.Value());
      assert pc == WriteStatus(Marked(old(ticket.Value()), phase, reason, old(api.now)));
      DriveStep(api.State(), ticket.key, pc, api.sched);
      var put := api.PutStatus(ticket);
      r := if put == Written then Settled else Failed;
    }
  }
}
